# oidc-client protocol bookkeeping, in Dafny

This project models the protocol bookkeeping of oidc-client, a browser library for
OpenID Connect and OAuth 2.0. The model covers:

- the query and fragment utilities: `addQueryParam` and `parseUrlFragment` with its
  cap of 51 parameters;
- the anti-forgery `State`: its defaults, its storage-string round trip, and the
  `clearStaleState` sweep;
- the prefixed state store over a Web Storage area;
- the end-session (`SignoutRequest`) url builder;
- the settings defaults and coercions;
- the discovery-document and signing-key cache (`MetadataService`);
- the issuer and key selection for signed UserInfo responses (`UserInfoService`);
- the expiration `Timer` and the access-token `expiring` and `expired` events;
- the legacy `SigninResponse` parser.

Code that changes state in place is modelled as Dafny classes whose methods carry
`modifies` clauses and a full description of the new state:

- `WebStorage.StateStore` and `WebStorage.Storage`;
- `Metadata.MetadataService`;
- `Timers.Timer` and `Timers.IntervalScheduler`;
- `TokenEvents.AccessTokenEvents`;
- `SigninResponses.SigninResponse`.

Loops in the source are `while` loops with their invariants:

- the regex loop of `parseUrlFragment`;
- the key loop of `getAllKeys`;
- the sweep of `clearStaleState`;
- the extra-parameter loop of the `SignoutRequest` constructor.

Each method is proved against a specification function, and the lemmas state what
the source promises about that function. Pure computations are functions and
lemmas.

Anything the code gets from outside is a parameter, never an axiom:

- the clock, in whole seconds;
- `random()`;
- `encodeURIComponent` and `decodeURIComponent`;
- `JSON.stringify` and `JSON.parse`;
- the HTTP requests;
- `JoseUtil.parseJwt` and `JoseUtil.validateJwt`.

A lemma that needs one of these to behave, for example `dec(enc(s)) == s`, says so
in its `requires` (`UrlUtility.UriCodec`, `OidcState.JsonCodec`).

Modules, one per file:

| module | file |
|---|---|
| `Wrappers` | Wrappers.dfy |
| `Json` | Json.dfy |
| `UrlUtility` | UrlUtility.dfy |
| `WebStorage` | WebStorage.dfy |
| `OidcState` | OidcState.dfy |
| `SignoutRequest` | SignoutRequest.dfy |
| `Settings` | Settings.dfy |
| `Metadata` | Metadata.dfy |
| `UserInfo` | UserInfo.dfy |
| `Timers` | Timer.dfy |
| `TokenEvents` | TokenEvents.dfy |
| `SigninResponses` | SigninResponse.dfy |

JavaScript values are the datatype `Json.Json`, with JavaScript truthiness
(`Json.Truthy`). `undefined` is `None`. A thrown `Error` is `Err(message)`.

## Model

| member | source | states |
|---|---|---|
| UrlUtility.AddQueryParam | src/utils/UrlUtility.ts:7-21 | the result is the url, then `?` when the url has no `?`, nothing when it ends in `?`, `&` otherwise, then `enc(name)=enc(value)` |
| UrlUtility.AppendParamsExtends | src/utils/UrlUtility.ts:7-21 | successive `addQueryParam` calls keep the original url as a prefix |
| UrlUtility.AppendParamsIsQuery | src/utils/UrlUtility.ts:8-18 | after successive `addQueryParam` calls the url is the original url, one separator, and the encoded pairs joined by `&` |
| UrlUtility.QuerySnoc | src/utils/UrlUtility.ts:12-18 | one more parameter adds `&` and its encoded pair to the query |
| UrlUtility.QueryIsQuerySafe | src/utils/UrlUtility.ts:16-18 | with an encoder that escapes `?#&=`, the encoded query holds no `?` or `#` and does not end in `?` |
| UrlUtility.SeparatorAfterQuery | src/utils/UrlUtility.ts:8-14 | once a parameter is present, the next separator is `&` |
| UrlUtility.LastIndexOf | src/utils/UrlUtility.ts:28 | the index of the last occurrence, or -1 exactly when there is none |
| UrlUtility.IndexOf | src/utils/UrlUtility.ts:35 | the index of the first occurrence, or -1 exactly when there is none |
| UrlUtility.NameRun | src/utils/UrlUtility.ts:42 | the name group of the regex ends at the end of the text or at the first `&` or `=` |
| UrlUtility.NameRunFree | src/utils/UrlUtility.ts:42 | no character of the name group is `&` or `=` |
| UrlUtility.ValueRun | src/utils/UrlUtility.ts:42 | the value group of the regex ends at the end of the text or at the first `&` |
| UrlUtility.ValueRunFree | src/utils/UrlUtility.ts:42 | no character of the value group is `&` |
| UrlUtility.MatchHere | src/utils/UrlUtility.ts:42 | a match at the current position ends at least two characters on and within the text |
| UrlUtility.Exec | src/utils/UrlUtility.ts:42-46 | the leftmost match ends at least two characters on and within the text |
| UrlUtility.MatchHereIff | src/utils/UrlUtility.ts:42 | the regex matches at a position exactly when a non-empty run free of `&` and `=` is followed by `=` |
| UrlUtility.MatchHereShape | src/utils/UrlUtility.ts:42 | a match spans exactly name, `=` and value; the name is non-empty and free of `&` and `=`, the value free of `&`, and the match ends at the end of the text or at an `&` |
| UrlUtility.ExecLeftmost | src/utils/UrlUtility.ts:42-46 | `regex.exec` returns the match at its start position and no earlier position matches; it returns null only when no position matches |
| UrlUtility.MatchesWellFormed | src/utils/UrlUtility.ts:42-46 | every pair the loop collects has a non-empty name free of `&` and `=` and a value free of `&` |
| UrlUtility.PlusToSpace | src/utils/UrlUtility.ts:47 | each `+` of the value becomes a space and nothing else changes |
| UrlUtility.ParseUrlFragment | src/utils/UrlUtility.ts:23-57 | the result is the parameter map of the text after the last delimiter, cut at the first `#` for `?` |
| UrlUtility.ExecNext | src/utils/UrlUtility.ts:46 | `regex.exec` returns null exactly when no match is left; otherwise the first match and a strictly shorter rest |
| UrlUtility.CollectParams | src/utils/UrlUtility.ts:41-56 | the loop yields the decoded map of all matches, or exactly the `error` entry once a 52nd match is seen |
| UrlUtility.ToParamsLastWins | src/utils/UrlUtility.ts:47 | a name is a key exactly when some match decodes to it, and the last such match gives its value |
| UrlUtility.ToParamsKeys | src/utils/UrlUtility.ts:47 | the keys of the map are exactly the decoded names of the matches |
| UrlUtility.ToParamsLast | src/utils/UrlUtility.ts:47 | the last match with a given decoded name supplies that key's value |
| UrlUtility.ToParamsSwap | src/utils/UrlUtility.ts:46-47 | swapping two adjacent matches with different names does not change the map |
| UrlUtility.ParamCap | src/utils/UrlUtility.ts:45-56 | up to 51 matches give the map; 52 or more give exactly `{error: "Response exceeded expected number of parameters"}` |
| UrlUtility.NameRunConcat | src/utils/UrlUtility.ts:42 | the name group of a pair stops at its `=` |
| UrlUtility.ValueRunConcat | src/utils/UrlUtility.ts:42 | the value group of a pair stops at the next `&` |
| UrlUtility.MatchesAfterAmpersand | src/utils/UrlUtility.ts:42-46 | a leading `&` contributes no match |
| UrlUtility.ExecPair | src/utils/UrlUtility.ts:42-46 | the regex matches a well-formed `name=value` pair as that name and value |
| UrlUtility.MatchHerePair | src/utils/UrlUtility.ts:42 | a well-formed pair at the current position matches as that name and value |
| UrlUtility.ExecEncodedParam | src/utils/UrlUtility.ts:16-18 | an encoded pair written by `addQueryParam` is matched as its encoded name and value |
| UrlUtility.EncodeAll | src/utils/UrlUtility.ts:16-18 | each parameter encoded in place, order kept |
| UrlUtility.MatchesOfQuery | src/utils/UrlUtility.ts:42-46 | parsing an encoded query finds exactly the encoded pairs, in order |
| UrlUtility.DecodeEncoded | src/utils/UrlUtility.ts:47 | decoding the encoded pairs gives the original parameters, the last value per name winning |
| UrlUtility.LastIndexOfAfter | src/utils/UrlUtility.ts:28-31 | a delimiter followed by text without the delimiter is the last occurrence |
| UrlUtility.QueryRoundTrip | src/utils/UrlUtility.ts:7-57 | reading the query, with `?`, of a url built by `addQueryParam` gives back the parameters (at most 51, names non-empty) |
| UrlUtility.ParseEmptyIsEmpty | src/utils/UrlUtility.ts:41-56 | the empty string parses to `{}` |
| UrlUtility.FragmentRoundTrip | src/utils/UrlUtility.ts:28-56 | any url, then `#`, then encoded pairs reads back, with `#`, as those parameters |
| UrlUtility.QueryBodyStopsAtHash | src/utils/UrlUtility.ts:28-39 | with `?`, the text read is what follows the last `?`, up to the first `#` |
| UrlUtility.BodyAfterHash | src/utils/UrlUtility.ts:28-31 | with `#`, the text read is what follows the last `#` |
| WebStorage.WithoutMembers | src/WebStorageStateStore.ts:37 | removing keys keeps exactly the other keys and keeps them distinct |
| WebStorage.WithoutNothing | src/WebStorageStateStore.ts:37 | removing no key leaves the key order as it was |
| WebStorage.WithoutTwice | src/WebStorageStateStore.ts:37 | two removals are one removal of both key sets |
| WebStorage.PrefixedKeysMembers | src/WebStorageStateStore.ts:41-52 | a key is reported exactly when the prefix plus it is a non-empty stored key |
| WebStorage.PrefixedKeysAppend | src/WebStorageStateStore.ts:45-50 | the keys are reported in store index order |
| WebStorage.PrefixedKeysDistinct | src/WebStorageStateStore.ts:41-52 | distinct stored keys give distinct reported keys |
| WebStorage.StateStore.constructor | src/WebStorageStateStore.ts:11-14 | the prefix defaults to `oidc.` |
| WebStorage.StateStore.Set | src/WebStorageStateStore.ts:16-22 | writes the value under prefix plus key, and no other entry changes |
| WebStorage.StateStore.Get | src/WebStorageStateStore.ts:24-30 | returns the item under prefix plus key, or null |
| WebStorage.StateStore.Remove | src/WebStorageStateStore.ts:32-39 | returns the previous item and deletes only that entry |
| WebStorage.StateStore.GetAllKeys | src/WebStorageStateStore.ts:41-52 | the loop returns exactly the stripped keys that start with the prefix, in index order |
| WebStorage.StateStore.SetThenGet | src/WebStorageStateStore.ts:16-30 | `get(k)` after `set(k, v)` yields `v`, and another key still yields its old item |
| OidcState.NewState | src/State.ts:13-26 | a truthy id is kept, otherwise `random()`; a number above 0 for `created` is kept, otherwise the clock; data and request type are kept |
| OidcState.ToJson | src/State.ts:41-49 | the serialised object has exactly `id` and `created`, plus `data` and `request_type` when defined |
| OidcState.FromJson | src/State.ts:51-54 | rebuilding from a parsed value fails exactly on `null` |
| OidcState.FromStorageString | src/State.ts:51-54 | text that is not JSON, or is `null`, fails |
| OidcState.StorageRoundTrip | src/State.ts:41-54 | `fromStorageString(toStorageString(s))` gives back the four fields of a well-formed State |
| OidcState.ToStorageString | src/State.ts:41-49 | the stored text is non-empty and `JSON.parse` reads it back as the object of the four fields, an absent field left out |
| OidcState.ConstructedIsWellFormed | src/State.ts:13-26 | a State built with a non-empty random value and a positive clock is well formed |
| OidcState.StoredStateKeptIffFresh | src/State.ts:67-75 | the sweep keeps a stored State exactly when it was created after the cutoff |
| OidcState.SweptIff | src/State.ts:57-89 | an entry is swept exactly when its key is under the prefix and its item is missing, empty, unreadable or created at or before the cutoff |
| OidcState.SweptSnoc | src/State.ts:62-90 | visiting one more key sweeps at most that key's entry |
| OidcState.NotYetSwept | src/State.ts:62-63 | a key not yet visited has not been swept, since reported keys are distinct |
| OidcState.SweepStep | src/State.ts:63-89 | the next key's item is still as before, and its entry goes exactly when it should |
| OidcState.ShouldRemove | src/State.ts:65-85 | a missing or empty item is removed, and so is one `JSON.parse` rejects or that parses to null; an entry is kept exactly when its item reads back as a State created after the cutoff |
| OidcState.DecideRemoval | src/State.ts:65-85 | the per-key decision: a falsy item, an item that throws on reading, or an old State is removed |
| OidcState.SweepKey | src/State.ts:63-89 | one turn of the loop reads the next key's item and removes its entry, and its key, exactly when the sweep calls for it |
| OidcState.SweepAll | src/State.ts:63-89 | the loop over the prefixed keys removes exactly the swept entries and their keys, leaving the other keys in their old order |
| OidcState.ClearStaleState | src/State.ts:56-91 | the store afterwards is the store before minus exactly the swept entries, and its key order is the old order without the swept keys |
| SignoutRequest.RequestState | src/SignoutRequest.ts:27 | the State carries the given data and request type, with the random id |
| SignoutRequest.AppendParamsSnoc | src/SignoutRequest.ts:20-34 | one more `addQueryParam` extends the built url |
| SignoutRequest.AppendFixed | src/SignoutRequest.ts:19-31 | the hint, the redirect uri and the state id are appended as the conditions say, and the State is made exactly with a redirect uri and data |
| SignoutRequest.ExtrasStep | src/SignoutRequest.ts:33-35 | one loop step appends the next extra parameter |
| SignoutRequest.AppendExtras | src/SignoutRequest.ts:33-35 | the loop appends every extra parameter, in order, after the others |
| SignoutRequest.NewSignoutRequest | src/SignoutRequest.ts:11-38 | the constructor fails with `url` without a url; otherwise the url and State are as specified |
| SignoutRequest.SignoutUrlExtendsUrl | src/SignoutRequest.ts:14-37 | it fails exactly without a url, with message `url`, and the request url starts with the given url |
| SignoutRequest.SignoutParamOrder | src/SignoutRequest.ts:19-31 | `id_token_hint` appears exactly when given and comes first; `post_logout_redirect_uri` exactly when given; `state` exactly with a redirect uri and data, and last |
| SignoutRequest.SignoutStateRule | src/SignoutRequest.ts:23-31 | the State exists exactly with a redirect uri and data, and carries them, with the id of the `state` parameter |
| SignoutRequest.SignoutQueryRoundTrip | src/SignoutRequest.ts:19-35 | reading the built url's query gives back the appended parameters |
| SignoutRequest.FixedNamesNonEmpty | src/SignoutRequest.ts:19-31 | the fixed parameters have non-empty names |
| Settings.ExtraParams | src/OidcClientSettings.ts:129-130 | an object value (including null) is kept; a missing or non-object value becomes `{}` |
| Settings.Flag | src/OidcClientSettings.ts:155-161 | a missing flag takes its default; a given one is stored as its truthiness |
| Settings.DefaultSettings | src/OidcClientSettings.ts:11-15 | the defaults: `id_token`, `openid`, `client_secret_post`, empty authority and client id, 900 and 300 seconds, `OP`, the flags, `{}` |
| Settings.SettingsIdempotent | src/OidcClientSettings.ts:108-169 | constructed settings are normalised, and passing their fields back to the constructor gives them back unchanged |
| Settings.NewSettings | src/OidcClientSettings.ts:108-169 | for any argument object, each missing field takes its own default: empty authority and client id, `id_token`, `openid`, `client_secret_post`, `OP`, 900 and 300 seconds; the flags are the truthiness of what is given, `filterProtocolClaims` and `loadUserInfo` defaulting to true and `mergeClaims` to false; each extra-parameters field is `ExtraParams` of its argument, so a missing or non-object value becomes `{}`; metadata url, metadata and signing keys are kept as given |
| Settings.GivenArgsKept | src/OidcClientSettings.ts:133-168 | every given field is stored unchanged, a given flag as its truthiness |
| Metadata.DiscoveryUrlShape | src/MetadataService.ts:29-38 | a truthy `metadataUrl` wins; otherwise the authority, one `/` at the seam, then `.well-known/openid-configuration`; otherwise none |
| Metadata.DiscoveryUrl | src/MetadataService.ts:29-38 | a truthy `metadataUrl` is the discovery url; there is none exactly when neither it nor the authority is given; one built from the authority starts with the authority and is longer |
| Metadata.Merge | src/MetadataService.ts:72-73 | the cached object has exactly the members of the fetched document and of the seed |
| Metadata.MergeFetchedWins | src/MetadataService.ts:72-73 | a fetched member wins over the seed, and a seed member not fetched is kept |
| Metadata.MetadataCache | src/MetadataService.ts:57-75 | a cached document is returned without fetching; no cache and no url fails; otherwise a fetch error is passed on with the cache unchanged, and a fetched document is returned and cached merged over the seed; a successful load is returned by every later load |
| Metadata.PropertyOf | src/MetadataService.ts:109-127 | a defined member is returned; an undefined one is undefined when optional and an error naming it otherwise |
| Metadata.EndpointRequirement | src/MetadataService.ts:77-107 | issuer, authorization and userinfo endpoints are required; check-session, end-session and revocation are optional; token and jwks endpoints follow the caller's flag |
| Metadata.SigningKeysCache | src/MetadataService.ts:129-148 | cached keys are returned as they are; a failed load leaves the key cache as it was; keys a load returns are cached and returned by every later call |
| Metadata.LoadedKeysAreKeySetKeys | src/MetadataService.ts:129-148 | without cached keys, the fetched key set's truthy `keys` member is returned and cached, and the metadata cache is the one the metadata load left |
| Metadata.MissingKeysRejected | src/MetadataService.ts:141-144 | a key set without truthy `keys` fails with `Missing keys on keyset` |
| Metadata.MetadataService.constructor | src/MetadataService.ts:26-50 | the url follows the discovery rule, and truthy metadata and keys from the settings fill the caches |
| Metadata.MetadataService.ResetSigningKeys | src/MetadataService.ts:53-55 | only the key cache is cleared |
| Metadata.MetadataService.GetMetadata | src/MetadataService.ts:57-75 | the result and the new cache are what `LoadMetadata` specifies |
| Metadata.MetadataService.GetMetadataProperty | src/MetadataService.ts:109-127 | the property is looked up, as `PropertyOf` specifies, in the document `getMetadata` yields |
| Metadata.MetadataService.GetEndpoint | src/MetadataService.ts:77-107 | each getter reads its member, with its optionality |
| Metadata.MetadataService.GetSigningKeys | src/MetadataService.ts:129-148 | the result and both caches are what `LoadKeys` specifies |
| Metadata.NewMetadataService | src/MetadataService.ts:20-24 | fails with `settings` exactly when no settings are given |
| UserInfo.KtyFor | src/UserInfoService.ts:113-127 | `RS` gives `RSA`, `PS` gives `PS`, `ES` gives `EC`, tried in that order; any other prefix gives none |
| UserInfo.FilterKty | src/UserInfoService.ts:131-133 | keeps exactly the keys of that `kty`; a null key makes the filter throw |
| UserInfo.FilterKtyInOrder | src/UserInfoService.ts:131-133 | the kept keys are an in-order subsequence |
| UserInfo.FilterByAlg | src/UserInfoService.ts:113-138 | an unsupported alg gives `[]`; any key returned has the kty the alg calls for |
| UserInfo.FirstWithKid | src/UserInfoService.ts:88-90 | the key found has that `kid`; none is found only when no key has it |
| UserInfo.FirstWithKidIsFirst | src/UserInfoService.ts:88-90 | no earlier key has that `kid` |
| UserInfo.SelectKey | src/UserInfoService.ts:73-96 | a selected key is truthy |
| UserInfo.SelectKeyWithoutKid | src/UserInfoService.ts:74-86 | without `kid`: several filtered keys are an error, none is "no matching key", a single truthy one is the key |
| UserInfo.SelectKeyWithKid | src/UserInfoService.ts:87-96 | with `kid`: the first key with that `kid`, or "no matching key" |
| UserInfo.SelectIssuer | src/UserInfoService.ts:51-62 | `OP` takes the discovery issuer, `ANY` the token's `iss`, and anything else is used as given |
| UserInfo.ClaimsAccepted | src/UserInfoService.ts:40-106 | a token that parses with a header and a payload, whose issuer, signing keys and key are all found, and that passes validation with the client id and the configured clock skew yields `Ok` of its payload |
| UserInfo.ClaimsAreValidatedPayload | src/UserInfoService.ts:40-106 | success means the JWT parsed with a header and a payload and passed validation with the client id as audience and the configured clock skew; the payload is returned unchanged |
| UserInfo.ClaimsFromJwt | src/UserInfoService.ts:40-106 | a parse error is passed on; a token without a payload fails with "Failed to parse id_token"; falsy signing keys fail; the claims returned are the token's payload |
| UserInfo.MalformedJwtRejected | src/UserInfoService.ts:42-46 | a JWT without a header or a payload fails with `Failed to parse id_token` |
| UserInfo.GetClaims | src/UserInfoService.ts:25-38 | a missing or empty token fails with `A token is required`; otherwise the claims come from the userinfo endpoint |
| Timers.IntervalScheduler.SetInterval | src/utils/Timer.ts:13-16 | a new positive handle that no live interval has |
| Timers.IntervalScheduler.ClearInterval | src/utils/Timer.ts:17-19 | only that interval stops |
| Timers.Clamp | src/utils/Timer.ts:48-52 | a duration of 0 or less becomes 1; others are kept |
| Timers.Period | src/utils/Timer.ts:63-72 | the interval period is the duration, but at most 5 seconds |
| Timers.InitArms | src/utils/Timer.ts:47-73 | `init` aims at now plus the clamped duration and arms a period of 1 to 5 seconds, or changes nothing when armed for that same expiration; a second identical `init` is a no-op |
| Timers.CancelIdempotent | src/utils/Timer.ts:79-85 | `cancel` disarms, keeps the expiration, and is idempotent |
| Timers.CallbackFiresIff | src/utils/Timer.ts:87-95 | the callback raises once and disarms exactly when the expiration has come; otherwise nothing changes |
| Timers.FiresOnlyWhenDue | src/utils/Timer.ts:53-95 | after re-arming, a callback raises the event exactly when at least the clamped duration has passed |
| Timers.RemoveFirst | src/utils/Timer.ts:22 | removing a handler drops one registration of it, if any |
| Timers.Timer.AddHandler | src/utils/Timer.ts:22 | a handler registered on the timer's event is appended; the timer itself does not change |
| Timers.Timer.RemoveHandler | src/utils/Timer.ts:22 | the first registration of the handler is dropped; the timer itself does not change |
| Timers.Timer.constructor | src/utils/Timer.ts:28-41 | a new timer has no handle and expiration 0 |
| Timers.Timer.Cancel | src/utils/Timer.ts:79-85 | clears the interval when there is a handle and forgets the handle |
| Timers.Timer.Init | src/utils/Timer.ts:47-73 | the new state is `InitStep`; when re-arming, the old interval is cleared before a fresh one is set, so at most one handle is live |
| Timers.Timer.Callback | src/utils/Timer.ts:87-95 | the new state is `CallbackStep` |
| TokenEvents.ExpiringDelay | src/AccessTokenEvents.ts:34-37 | the lifetime less the window, or 1 when that is not above 0 |
| TokenEvents.LoadRules | src/AccessTokenEvents.ts:26-56 | without an access token or lifetime both timers are disarmed; with a positive lifetime, expiring aims at lifetime less window (at least 1); otherwise expiring is disarmed; expired always aims at lifetime plus one |
| TokenEvents.ThirtySecondsLeft | src/AccessTokenEvents.ts:7-50 | with the 60-second default, 30 seconds left means expiring after 1 and expired after 31 |
| TokenEvents.AccessTokenEvents.constructor | src/AccessTokenEvents.ts:16-24 | the window defaults to 60; a missing timer is a new one |
| TokenEvents.AccessTokenEvents.LoadExpiringTimer | src/AccessTokenEvents.ts:32-54 | the expiring timer moves as `LoadExpiring` says, and the expired timer is untouched |
| TokenEvents.AccessTokenEvents.LoadExpiredTimer | src/AccessTokenEvents.ts:47-55 | the expired timer moves as `LoadExpired` says, and the expiring timer is untouched |
| TokenEvents.AccessTokenEvents.Load | src/AccessTokenEvents.ts:26-56 | both timers move as `LoadExpiring` and `LoadExpired` say, and the handlers are untouched |
| TokenEvents.AccessTokenEvents.Unload | src/AccessTokenEvents.ts:58-62 | both timers are cancelled |
| TokenEvents.AccessTokenEvents.AddAccessTokenExpiring | src/AccessTokenEvents.ts:64-66 | only the expiring timer's handlers change |
| TokenEvents.AccessTokenEvents.RemoveAccessTokenExpiring | src/AccessTokenEvents.ts:67-69 | only the expiring timer's handlers change |
| TokenEvents.AccessTokenEvents.AddAccessTokenExpired | src/AccessTokenEvents.ts:71-73 | only the expired timer's handlers change |
| TokenEvents.AccessTokenEvents.RemoveAccessTokenExpired | src/AccessTokenEvents.ts:74-76 | only the expired timer's handlers change |
| SigninResponses.TrimStart | src/SigninResponse.js:23 | `parseInt` skips exactly the leading white space: every character dropped is white space and the rest does not start with one |
| SigninResponses.DigitOf | src/SigninResponse.js:23 | a digit character has a value below the radix |
| SigninResponses.DigitRun | src/SigninResponse.js:23 | `parseInt` reads the longest run of digits |
| SigninResponses.DigitLed | src/SigninResponse.js:23 | a string led by a decimal digit reads as its leading decimal digits |
| SigninResponses.ParseInt | src/SigninResponse.js:23 | `parseInt` yields NaN on text that is only white space or whose first non-blank character is neither a sign nor a digit; a negative number has a leading `-` |
| SigninResponses.UnsignedDecimal | src/SigninResponse.js:23 | digits without a `0x` prefix are read in base 10 |
| SigninResponses.ParseIntDecimal | src/SigninResponse.js:23 | `parseInt` reads back a number written in decimal |
| SigninResponses.ParseIntPrefix | src/SigninResponse.js:23 | `parseInt` stops at the first non-digit, except that `0x` starts a hexadecimal number |
| SigninResponses.ExpiresIn | src/SigninResponse.js:63-69 | seconds left exactly when an expiry is set and non-zero, and those seconds plus now give the expiry |
| SigninResponses.ErrorOrSuccess | src/SigninResponse.js:7-22 | the state is always copied; with an `error`, only the error fields are set; otherwise the token fields are set and no error field is |
| SigninResponses.FromValues | src/SigninResponse.js:5-29 | the state is always copied; the response is an error exactly when `error` is non-empty, and then has no tokens and no expiry; otherwise it carries the id and access tokens given and no error; an expiry lies after the clock |
| SigninResponses.ExpiryRule | src/SigninResponse.js:23-69 | the expiry is set exactly when the lifetime reads as a number above 0, and is then now plus that lifetime; the getter counts down |
| SigninResponses.DecimalLifetime | src/SigninResponse.js:23-27 | `expires_in=3600` style lifetimes are taken at their value |
| SigninResponses.TooManyParamsIsError | src/SigninResponse.js:7-15 | a fragment over the parameter cap is an error response without tokens |
| SigninResponses.ResponseFromIssuedFragment | src/SigninResponse.js:7 | a fragment written from parameters reads back as those parameters |
| SigninResponses.ExpiryOf | src/SigninResponse.js:23-27 | the expiry is now plus the lifetime when that is above 0, else unset |
| SigninResponses.SigninResponse.constructor | src/SigninResponse.js:5-29 | the fields are those `FromValues` gives for the parsed fragment |
| SigninResponses.SigninResponse.SetState | src/SigninResponse.js:34-36 | only the state changes |
| SigninResponses.SigninResponse.SetProfile | src/SigninResponse.js:77-79 | only the profile changes |

## Left out

- The `location.href` fallback of `parseUrlFragment` is browser state. The value is always passed in.
- `parseUrlFragment` takes a one-character delimiter. Every caller uses `#` or `?`.
- `encodeURIComponent` and `decodeURIComponent` are parameters. UTF-8 percent-encoding and the exceptions `decodeURIComponent` throws on malformed input are not modelled.
- The `for ... in` loop over `extraQueryParams` is given its keys in visiting order. JavaScript's ordering of integer-like keys first is not modelled. Values are taken as strings, so `String()` coercion of other values is left out.
- Numbers are integers. The fractional cutoff `Date.now() / 1000 - age` of `clearStaleState` and fractional timer durations are left out, as is the `Math.floor` that removes them. The clock is one whole-second value per call.
- OidcState.ClearStaleState: the source does not await `storage.remove`. The model is sequential and performs each removal before the next key is read.
- The `Storage` area is assumed to list its keys in insertion order. `Storage` itself is a browser API: `WebStorage.Storage` is only as much of it as the store uses.
- Settings: the `clockService`, `stateStore`, `ResponseValidatorCtor` and `MetadataServiceCtor` arguments are left out. They construct objects outside this model.
- Metadata: `Object.assign` copies only the members of objects. A string or array seed or document contributes nothing here; in JavaScript it would contribute its indexed characters or elements.
- Metadata: the HTTP requests are parameters. Content negotiation and the race between two concurrent first calls are not modelled.
- UserInfo: `JoseUtil.parseJwt` and `JoseUtil.validateJwt` are parameters. Signature and timing checks are not modelled.
- UserInfo.GetClaims: the authenticated `getJson` request that runs `_getClaimsFromJwt` on a JWT response is a parameter.
- Timers: the `Event` base class (src/utils/Event) is not part of this model. Registration appends a handler. Removal drops the first registration of that handler, which is an assumption. Raising is counted, not dispatched.
- Timers: logging and the timer's name are not modelled beyond being stored.
- TokenEvents.AccessTokenEvents.constructor: requires two different timer objects whose handles differ. JavaScript also accepts one timer object given twice.
- SigninResponses.SigninResponse.constructor: the legacy `UrlUtility.parseUrlFragment` of the JavaScript source is not part of this model. It is taken to be the TypeScript one with delimiter `#`.
- SigninResponses.IsSpace: only the common white-space characters are recognised. The other Unicode space separators that `parseInt` also skips are left out.
- `Log` calls are left out.
- `SigninRequest`, `ErrorResponse` and `SignoutResponse` are outside this model.
- Metadata.LoadKeys: a key set that is a JSON array has the truthy inherited `Array.prototype.keys`, so the source caches and returns that function as the signing keys; the model does not model inherited members and rejects such a key set with `Missing keys on keyset`.
- UrlUtility.ParseUrlFragment: a parameter named `__proto__` is ignored by the source's plain-object assignment; the model's map stores it like any other name.
- `UserInfoService.js` is not part of this model. It is promise plumbing around a request.
- The sample applications are not part of this model.
