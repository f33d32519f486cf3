/** The UserInfo response handling of src/UserInfoService.ts: the token guard of
    `getClaims`, and for a signed (JWT) response the choice of issuer and of
    verification key (OpenID Connect Core 1.0, section 10.1) before the signature
    check. `JoseUtil.parseJwt` and `JoseUtil.validateJwt`, the metadata calls and
    the HTTP request are parameters. */
module UserInfo {
  import opened Wrappers
  import opened Json
  import opened Settings

  const TypeErrorMessage: string := "TypeError"

  /** `alg.startsWith(p)`. */
  predicate StartsWith(s: string, p: string) {
    p <= s
  }

  /** The key type `_filterByAlg` looks for, by the prefix of `alg`. */
  function KtyFor(alg: string): (r: Option<string>)
    ensures StartsWith(alg, "RS") ==> r == Some("RSA")
    ensures !StartsWith(alg, "RS") && StartsWith(alg, "PS") ==> r == Some("PS")
    ensures !StartsWith(alg, "RS") && !StartsWith(alg, "PS") && StartsWith(alg, "ES") ==> r == Some("EC")
    ensures r.None? <==> !StartsWith(alg, "RS") && !StartsWith(alg, "PS") && !StartsWith(alg, "ES")
  {
    if StartsWith(alg, "RS") then Some("RSA")
    else if StartsWith(alg, "PS") then Some("PS")
    else if StartsWith(alg, "ES") then Some("EC")
    else None
  }

  /** `key.kty === kty` for a key that is not null. */
  predicate HasKty(key: Json, kty: string) {
    StrictEqOpt(Prop(key, "kty"), Some(JStr(kty)))
  }

  /** `Array.prototype.filter` with `key => key.kty === kty`: reading a member of a
      null key throws. */
  function FilterKty(items: seq<Json>, kty: string): (r: Result<seq<Json>>)
    ensures r.Ok? <==> JNull !in items
    ensures r.Ok? ==> forall k :: k in r.value <==> k in items && HasKty(k, kty)
    ensures r.Ok? ==> forall k :: multiset(r.value)[k] == if HasKty(k, kty) then multiset(items)[k] else 0
  {
    if items == [] then Ok([])
    else if items[0] == JNull then Err(TypeErrorMessage)
    else
      assert items == [items[0]] + items[1..];
      match FilterKty(items[1..], kty)
      case Err(e) => Err(e)
      case Ok(rest) => Ok(if HasKty(items[0], kty) then [items[0]] + rest else rest)
  }

  /** `a` is `b` with some elements left out, order kept. */
  predicate Subsequence(a: seq<Json>, b: seq<Json>)
    decreases |b|
  {
    if a == [] then true
    else if b == [] then false
    else if a[0] == b[0] then Subsequence(a[1..], b[1..])
    else Subsequence(a, b[1..])
  }

  /** The filtered keys keep their order. */
  lemma {:induction false} FilterKtyInOrder(items: seq<Json>, kty: string)
    requires JNull !in items
    ensures Subsequence(FilterKty(items, kty).value, items)
  {
    if items != [] {
      FilterKtyInOrder(items[1..], kty);
      var rest := FilterKty(items[1..], kty).value;
      if !HasKty(items[0], kty) {
        SubsequenceSkip(rest, items);
      } else {
        assert ([items[0]] + rest)[1..] == rest;
      }
    }
  }

  lemma SubsequenceSkip(a: seq<Json>, b: seq<Json>)
    requires b != [] && Subsequence(a, b[1..])
    ensures Subsequence(a, b)
    decreases |b|, 0
  {
    if a != [] && a[0] == b[0] {
      SubsequenceDrop(a, b[1..]);
    }
  }

  /** Dropping the head of a non-empty subsequence keeps it a subsequence. */
  lemma SubsequenceDrop(a: seq<Json>, b: seq<Json>)
    requires a != [] && Subsequence(a, b)
    ensures Subsequence(a[1..], b)
    decreases |b|, 1
  {
    if b != [] && a[0] != b[0] {
      SubsequenceDrop(a, b[1..]);
      SubsequenceSkip(a[1..], b);
    } else if b != [] && a[1..] != [] {
      SubsequenceSkip(a[1..], b);
    }
  }

  /** `_filterByAlg(keys, alg)`: a non-string `alg` throws (`startsWith` of a
      non-string); an unsupported prefix gives no keys; otherwise the keys of the
      matching type, which needs `keys` to be an array without null. */
  function FilterByAlg(keys: Json, alg: Option<Json>): (r: Result<seq<Json>>)
    ensures alg.None? || !alg.value.JStr? ==> r == Err(TypeErrorMessage)
    ensures alg.Some? && alg.value.JStr? && KtyFor(alg.value.s).None? ==> r == Ok([])
    ensures alg.Some? && alg.value.JStr? && KtyFor(alg.value.s).Some? ==>
              r == if keys.JArr? then FilterKty(keys.items, KtyFor(alg.value.s).value) else Err(TypeErrorMessage)
    ensures r.Ok? && r.value != [] ==>
              alg.Some? && alg.value.JStr? && KtyFor(alg.value.s).Some? && keys.JArr?
              && forall k :: k in r.value ==> k in keys.items && HasKty(k, KtyFor(alg.value.s).value)
  {
    if alg.None? || !alg.value.JStr? then Err(TypeErrorMessage)
    else match KtyFor(alg.value.s)
      case None => Ok([])
      case Some(kty) =>
        if !keys.JArr? then Err(TypeErrorMessage) else FilterKty(keys.items, kty)
  }

  /** `keys.filter(key => key.kid === kid)[0]`: the first key with that `kid`. */
  function FirstWithKid(items: seq<Json>, kid: Json): (r: Result<Option<Json>>)
    ensures r.Ok? <==> JNull !in items
    ensures r.Ok? && r.value.Some? ==> r.value.value in items && StrictEqOpt(Prop(r.value.value, "kid"), Some(kid))
    ensures r.Ok? && r.value.None? ==> forall k :: k in items ==> !StrictEqOpt(Prop(k, "kid"), Some(kid))
  {
    if items == [] then Ok(None)
    else if items[0] == JNull then Err(TypeErrorMessage)
    else
      match FirstWithKid(items[1..], kid)
      case Err(e) => Err(e)
      case Ok(rest) => if StrictEqOpt(Prop(items[0], "kid"), Some(kid)) then Ok(Some(items[0])) else Ok(rest)
  }

  /** The key found is the FIRST one whose `kid` matches. */
  lemma {:induction false} FirstWithKidIsFirst(items: seq<Json>, kid: Json, i: nat)
    requires JNull !in items
    requires FirstWithKid(items, kid).value.Some?
    requires i < |items| && items[i] == FirstWithKid(items, kid).value.value
    requires forall j :: 0 <= j < i ==> items[j] != items[i]
    ensures forall j :: 0 <= j < i ==> !StrictEqOpt(Prop(items[j], "kid"), Some(kid))
  {
    if i > 0 {
      if StrictEqOpt(Prop(items[0], "kid"), Some(kid)) {
        assert false;
      }
      assert items[1..][i - 1] == items[i];
      FirstWithKidIsFirst(items[1..], kid, i - 1);
      forall j | 0 <= j < i ensures !StrictEqOpt(Prop(items[j], "kid"), Some(kid)) {
        if j > 0 {
          assert items[j] == items[1..][j - 1];
        }
      }
    }
  }

  const AmbiguousKey: string := "No kid found in id_token and more than one key found in metadata"
  const NoMatchingKey: string := "No key matching kid or alg found in signing keys"

  /** The key selection of `_getClaimsFromJwt` on the (truthy) signing keys. */
  function SelectKey(header: Json, keys: Json): (r: Result<Json>)
    ensures r.Ok? ==> Truthy(r.value)
  {
    var kid := Prop(header, "kid");
    var key: Result<Option<Json>> :=
      if !Present(kid) then
        match FilterByAlg(keys, Prop(header, "alg"))
        case Err(e) => Err(e)
        case Ok(filtered) =>
          if |filtered| > 1 then Err(AmbiguousKey)
          else Ok(if filtered == [] then None else Some(filtered[0]))
      else if !keys.JArr? then Err(TypeErrorMessage)
      else FirstWithKid(keys.items, kid.value);
    match key
    case Err(e) => Err(e)
    case Ok(k) => if !Present(k) then Err(NoMatchingKey) else Ok(k.value)
  }

  /** Key selection without a `kid` (a `kid` is needed only when the key set holds
      several keys of the type): more than one candidate is an error, exactly one
      truthy candidate is the key, none is "no matching key". */
  lemma SelectKeyWithoutKid(header: Json, keys: Json)
    requires !Present(Prop(header, "kid"))
    ensures var f := FilterByAlg(keys, Prop(header, "alg"));
            && (f.Err? ==> SelectKey(header, keys) == Err(f.error))
            && (f.Ok? && |f.value| > 1 ==> SelectKey(header, keys) == Err(AmbiguousKey))
            && (f.Ok? && f.value == [] ==> SelectKey(header, keys) == Err(NoMatchingKey))
            && (f.Ok? && |f.value| == 1 && Truthy(f.value[0]) ==> SelectKey(header, keys) == Ok(f.value[0]))
  {
  }

  /** Key selection with a `kid`: the first key whose `kid` is that value. */
  lemma SelectKeyWithKid(header: Json, keys: Json)
    requires Present(Prop(header, "kid"))
    requires keys.JArr? && JNull !in keys.items
    ensures var kid := Prop(header, "kid").value;
            var m := FirstWithKid(keys.items, kid).value;
            && (m.None? ==> SelectKey(header, keys) == Err(NoMatchingKey))
            && (m.Some? && Truthy(m.value) ==> SelectKey(header, keys) == Ok(m.value))
            && (SelectKey(header, keys).Ok? ==> StrictEqOpt(Prop(SelectKey(header, keys).value, "kid"), Some(kid)))
  {
  }

  /** The issuer the JWT must carry, by `userInfoJwtIssuer`: the discovery issuer
      for "OP" (the result of `getIssuer()`, `opIssuer`), the token's own `iss` for
      "ANY", the setting itself otherwise. */
  function SelectIssuer(mode: string, payload: Json, opIssuer: Result<Option<Json>>): (r: Result<Option<Json>>)
    ensures mode == "OP" ==> r == opIssuer
    ensures mode == "ANY" ==> r == Ok(Prop(payload, "iss"))
    ensures mode != "OP" && mode != "ANY" ==> r == Ok(Some(JStr(mode)))
  {
    if mode == "OP" then opIssuer
    else if mode == "ANY" then Ok(Prop(payload, "iss"))
    else Ok(Some(JStr(mode)))
  }

  const BadJwt: string := "Failed to parse id_token"
  const NoSigningKeys: string := "No signing keys from metadata"

  /** `JoseUtil.validateJwt(jwt, key, issuer, audience, clockSkew)`. */
  type Validator = (string, Json, Option<Json>, string, int) -> Outcome

  /** `_getClaimsFromJwt(responseText)`: parse, pick the issuer, get the keys, pick
      the key, validate with the client id as audience and the configured clock
      skew, and return the payload. `parseJwt` is `Err` where it throws;
      `opIssuer` and `signingKeys` are what `getIssuer()` and `getSigningKeys()`
      yield. */
  function ClaimsFromJwt(responseText: string, settings: Settings, parseJwt: string -> Result<Json>,
                         opIssuer: Result<Option<Json>>, signingKeys: Result<Json>, validate: Validator)
    : (r: Result<Json>)
    ensures parseJwt(responseText).Err? ==> r == Err(parseJwt(responseText).error)
    ensures parseJwt(responseText).Ok? && !Present(Prop(parseJwt(responseText).value, "payload")) ==> r == Err(BadJwt)
    ensures r.Ok? ==> parseJwt(responseText).Ok? && Prop(parseJwt(responseText).value, "payload") == Some(r.value)
    ensures signingKeys.Ok? && !Truthy(signingKeys.value) ==> r.Err?
  {
    match parseJwt(responseText)
    case Err(e) => Err(e)
    case Ok(jwt) =>
      if !Truthy(jwt) || !Present(Prop(jwt, "header")) || !Present(Prop(jwt, "payload")) then Err(BadJwt)
      else
        var header := Prop(jwt, "header").value;
        var payload := Prop(jwt, "payload").value;
        match SelectIssuer(settings.userInfoJwtIssuer, payload, opIssuer)
        case Err(e) => Err(e)
        case Ok(issuer) =>
          match signingKeys
          case Err(e) => Err(e)
          case Ok(keys) =>
            if !Truthy(keys) then Err(NoSigningKeys)
            else
              match SelectKey(header, keys)
              case Err(e) => Err(e)
              case Ok(key) =>
                match validate(responseText, key, issuer, settings.clientId, settings.clockSkew)
                case Fail(m) => Err(m)
                case Pass => Ok(payload)
  }

  /** On success the claims are the token's payload, unchanged, and they passed
      validation against the selected key and issuer with the client id as
      audience and the configured clock skew. */
  lemma ClaimsAreValidatedPayload(responseText: string, settings: Settings, parseJwt: string -> Result<Json>,
                                  opIssuer: Result<Option<Json>>, signingKeys: Result<Json>, validate: Validator)
    requires ClaimsFromJwt(responseText, settings, parseJwt, opIssuer, signingKeys, validate).Ok?
    ensures var jwt := parseJwt(responseText);
            && jwt.Ok? && Truthy(jwt.value)
            && Present(Prop(jwt.value, "header")) && Present(Prop(jwt.value, "payload"))
            && var payload := Prop(jwt.value, "payload").value;
               var header := Prop(jwt.value, "header").value;
               && ClaimsFromJwt(responseText, settings, parseJwt, opIssuer, signingKeys, validate).value == payload
               && SelectIssuer(settings.userInfoJwtIssuer, payload, opIssuer).Ok?
               && signingKeys.Ok? && SelectKey(header, signingKeys.value).Ok?
               && validate(responseText, SelectKey(header, signingKeys.value).value,
                           SelectIssuer(settings.userInfoJwtIssuer, payload, opIssuer).value,
                           settings.clientId, settings.clockSkew) == Pass
  {
  }

  /** A token that parses with a header and a payload, whose issuer, signing
      keys and key can all be found, and that passes validation with the client
      id as audience and the configured clock skew, yields its payload. */
  lemma ClaimsAccepted(responseText: string, settings: Settings, parseJwt: string -> Result<Json>,
                       opIssuer: Result<Option<Json>>, signingKeys: Result<Json>, validate: Validator)
    requires parseJwt(responseText).Ok? && Truthy(parseJwt(responseText).value)
    requires Present(Prop(parseJwt(responseText).value, "header"))
    requires Present(Prop(parseJwt(responseText).value, "payload"))
    requires SelectIssuer(settings.userInfoJwtIssuer, Prop(parseJwt(responseText).value, "payload").value, opIssuer).Ok?
    requires signingKeys.Ok? && Truthy(signingKeys.value)
    requires SelectKey(Prop(parseJwt(responseText).value, "header").value, signingKeys.value).Ok?
    requires validate(responseText, SelectKey(Prop(parseJwt(responseText).value, "header").value, signingKeys.value).value,
                      SelectIssuer(settings.userInfoJwtIssuer, Prop(parseJwt(responseText).value, "payload").value, opIssuer).value,
                      settings.clientId, settings.clockSkew) == Pass
    ensures ClaimsFromJwt(responseText, settings, parseJwt, opIssuer, signingKeys, validate)
         == Ok(Prop(parseJwt(responseText).value, "payload").value)
  {
  }

  /** A response that is not a JWT with a header and a payload is rejected. */
  lemma MalformedJwtRejected(responseText: string, settings: Settings, parseJwt: string -> Result<Json>,
                             opIssuer: Result<Option<Json>>, signingKeys: Result<Json>, validate: Validator)
    requires parseJwt(responseText).Ok?
    requires var jwt := parseJwt(responseText).value;
             !Truthy(jwt) || !Present(Prop(jwt, "header")) || !Present(Prop(jwt, "payload"))
    ensures ClaimsFromJwt(responseText, settings, parseJwt, opIssuer, signingKeys, validate) == Err(BadJwt)
  {
  }

  const NoToken: string := "A token is required"

  /** `getClaims(token)`: a missing or empty token is rejected before anything is
      fetched; otherwise the claims come from the userinfo endpoint (`userInfoUrl`
      is what `getUserInfoEndpoint()` yields, `getJson` the authenticated request). */
  function GetClaims(token: Option<string>, userInfoUrl: Result<Option<Json>>,
                     getJson: (Option<Json>, string) -> Result<Json>): (r: Result<Json>)
    ensures token.None? || token.value == "" ==> r == Err(NoToken)
    ensures token.Some? && token.value != "" && userInfoUrl.Err? ==> r == Err(userInfoUrl.error)
    ensures token.Some? && token.value != "" && userInfoUrl.Ok? ==> r == getJson(userInfoUrl.value, token.value)
  {
    if token.None? || token.value == "" then Err(NoToken)
    else match userInfoUrl
      case Err(e) => Err(e)
      case Ok(url) => getJson(url, token.value)
  }
}
