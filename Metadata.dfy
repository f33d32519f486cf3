/** The discovery-document and signing-key cache of src/MetadataService.ts
    (OpenID Connect Discovery 1.0, section 4; the JWK Set of RFC 7517, section 5).
    `JsonService.getJson` is passed in: `fetch` for the discovery document and
    `fetchKeys` for the key set; a rejected request is an `Err`. */
module Metadata {
  import opened Wrappers
  import opened Json
  import opened Settings

  const MetadataUrlPath: string := ".well-known/openid-configuration"

  predicate Given(s: Option<string>) {
    s.Some? && s.value != ""
  }

  /** The discovery url the constructor settles on: a truthy `metadataUrl` wins;
      otherwise a truthy authority, with a `/` added when it does not end in one,
      followed by the well-known path; otherwise none. */
  function DiscoveryUrl(s: Settings): (r: Option<string>)
    ensures Given(s.metadataUrl) ==> r == s.metadataUrl
    ensures r.None? <==> !Given(s.metadataUrl) && s.authority == ""
    ensures !Given(s.metadataUrl) && r.Some? ==> |s.authority| < |r.value| && r.value[..|s.authority|] == s.authority
  {
    if Given(s.metadataUrl) then s.metadataUrl
    else if s.authority != "" then
      Some(s.authority + (if s.authority[|s.authority| - 1] != '/' then "/" else "") + MetadataUrlPath)
    else None
  }

  /** The shape of the discovery url built from an authority: the authority, then
      exactly one `/` at the seam, then the well-known path. */
  lemma DiscoveryUrlShape(s: Settings)
    ensures Given(s.metadataUrl) ==> DiscoveryUrl(s) == s.metadataUrl
    ensures DiscoveryUrl(s).None? <==> !Given(s.metadataUrl) && s.authority == ""
    ensures !Given(s.metadataUrl) && s.authority != "" ==>
              var u := DiscoveryUrl(s).value;
              var a := s.authority;
              && |a| < |u| && u[..|a|] == a
              && (a[|a| - 1] == '/' ==> u == a + MetadataUrlPath)
              && (a[|a| - 1] != '/' ==> u == a + "/" + MetadataUrlPath)
  {
    if !Given(s.metadataUrl) && s.authority != "" {
      var a := s.authority;
      var u := DiscoveryUrl(s).value;
      if a[|a| - 1] == '/' {
        assert a + "" == a;
      }
      assert u[..|a|] == a;
    }
  }

  /** Own members of a value, as `Object.assign` copies them from an object. */
  function Members(j: Json): map<string, Json> {
    if j.JObj? then j.members else map[]
  }

  /** `Object.assign({}, seed || {}, doc)`. */
  function Merge(seed: Option<Json>, doc: Json): (m: Json)
    ensures m.JObj?
    ensures forall name :: name in m.members <==> name in Members(doc) || (Present(seed) && name in Members(seed.value))
  {
    var base := if Present(seed) then seed.value else JObj(map[]);
    JObj(Members(base) + Members(doc))
  }

  /** Fetched fields win over the seed; seed fields the document lacks are kept. */
  lemma MergeFetchedWins(seed: Option<Json>, doc: Json, name: string)
    ensures name in Members(doc) ==> Merge(seed, doc).members[name] == Members(doc)[name]
    ensures (name !in Members(doc) && Present(seed) && name in Members(seed.value))
            ==> Merge(seed, doc).members[name] == Members(seed.value)[name]
  {
  }

  const NoDiscoveryUrl: string := "No authority or metadataUrl configured on settings"

  /** `getMetadata()` on the cache `cache`: the result and the new cache. */
  function LoadMetadata(cache: Option<Json>, url: Option<string>, seed: Option<Json>,
                        fetch: string -> Result<Json>): (Result<Json>, Option<Json>)
  {
    if Present(cache) then (Ok(cache.value), cache)
    else if !Given(url) then (Err(NoDiscoveryUrl), cache)
    else match fetch(url.value)
      case Err(e) => (Err(e), cache)
      case Ok(doc) =>
        var m := Merge(seed, doc);
        (Ok(m), Some(m))
  }

  /** A filled cache is returned as is, whatever the network would say; a failed
      load leaves the cache as it was; a successful one fills it with the result,
      and every later load returns that same value without fetching. */
  lemma MetadataCache(cache: Option<Json>, url: Option<string>, seed: Option<Json>,
                      fetch: string -> Result<Json>, later: string -> Result<Json>)
    ensures Present(cache) ==> LoadMetadata(cache, url, seed, fetch) == (Ok(cache.value), cache)
    ensures !Present(cache) && !Given(url) ==> LoadMetadata(cache, url, seed, fetch) == (Err(NoDiscoveryUrl), cache)
    ensures !Present(cache) && Given(url) && fetch(url.value).Err? ==>
              LoadMetadata(cache, url, seed, fetch) == (Err(fetch(url.value).error), cache)
    ensures !Present(cache) && Given(url) && fetch(url.value).Ok? ==>
              LoadMetadata(cache, url, seed, fetch)
              == (Ok(Merge(seed, fetch(url.value).value)), Some(Merge(seed, fetch(url.value).value)))
    ensures var (r, c) := LoadMetadata(cache, url, seed, fetch);
            && (r.Err? ==> c == cache)
            && (r.Ok? ==> c == Some(r.value) && LoadMetadata(c, url, seed, later) == (r, c))
  {
  }

  /** `_getMetadataProperty(name, optional)` on a loaded document: a defined member
      is returned; a missing one is `undefined` when optional and an error otherwise. */
  function PropertyOf(meta: Result<Json>, name: string, optional: bool): (r: Result<Option<Json>>)
    ensures meta.Err? ==> r == Err(meta.error)
    ensures meta.Ok? && Prop(meta.value, name).Some? ==> r == Ok(Prop(meta.value, name))
    ensures meta.Ok? && Prop(meta.value, name).None? ==>
              r == if optional then Ok(None) else Err("Metadata does not contain property " + name)
  {
    match meta
    case Err(e) => Err(e)
    case Ok(m) =>
      if Prop(m, name).None? then
        if optional then Ok(None) else Err("Metadata does not contain property " + name)
      else Ok(Prop(m, name))
  }

  /** The endpoint getters. */
  datatype Endpoint = Issuer | Authorization | UserInfo | Token | CheckSession | EndSession | Revocation | Keys

  function EndpointName(e: Endpoint): string {
    match e
    case Issuer => "issuer"
    case Authorization => "authorization_endpoint"
    case UserInfo => "userinfo_endpoint"
    case Token => "token_endpoint"
    case CheckSession => "check_session_iframe"
    case EndSession => "end_session_endpoint"
    case Revocation => "revocation_endpoint"
    case Keys => "jwks_uri"
  }

  /** Whether a getter tolerates a missing member: never for the issuer, the
      authorization and the userinfo endpoint; always for the session and
      revocation endpoints; as the caller says (default true) for the token
      endpoint and the key set url. */
  function IsOptional(e: Endpoint, callerOptional: bool): bool {
    match e
    case Issuer => false
    case Authorization => false
    case UserInfo => false
    case Token => callerOptional
    case CheckSession => true
    case EndSession => true
    case Revocation => true
    case Keys => callerOptional
  }

  /** A required endpoint fails exactly when the loaded document lacks it; an
      optional one never fails on a loaded document. */
  lemma EndpointRequirement(e: Endpoint, callerOptional: bool, m: Json)
    ensures var r := PropertyOf(Ok(m), EndpointName(e), IsOptional(e, callerOptional));
            && (e in {Issuer, Authorization, UserInfo} ==> (r.Err? <==> Prop(m, EndpointName(e)).None?))
            && (e in {CheckSession, EndSession, Revocation} ==> r.Ok?)
            && (e in {Token, Keys} ==> (r.Err? <==> !callerOptional && Prop(m, EndpointName(e)).None?))
            && (r.Ok? ==> r.value == Prop(m, EndpointName(e)))
  {
  }

  const MissingKeys: string := "Missing keys on keyset"

  /** `getSigningKeys()`: the result, the new metadata cache and the new key cache. */
  function LoadKeys(keys: Option<Json>, cache: Option<Json>, url: Option<string>, seed: Option<Json>,
                    fetch: string -> Result<Json>, fetchKeys: Json -> Result<Json>)
    : (Result<Json>, Option<Json>, Option<Json>)
  {
    if Present(keys) then (Ok(keys.value), cache, keys)
    else
      var (meta, cache') := LoadMetadata(cache, url, seed, fetch);
      match PropertyOf(meta, "jwks_uri", false)
      case Err(e) => (Err(e), cache', keys)
      case Ok(jwksUri) =>
        match fetchKeys(jwksUri.value)
        case Err(e) => (Err(e), cache', keys)
        case Ok(keySet) =>
          match Member(keySet, "keys")
          case Err(e) => (Err(e), cache', keys)
          case Ok(k) =>
            if !Present(k) then (Err(MissingKeys), cache', keys)
            else (Ok(k.value), cache', k)
  }

  /** The key cache: a filled cache is returned without fetching; a load fails
      with "Missing keys on keyset" when the key set has no truthy `keys` member
      and then leaves the key cache empty; a successful load caches `keys`, and
      every later call returns it. */
  lemma SigningKeysCache(keys: Option<Json>, cache: Option<Json>, url: Option<string>, seed: Option<Json>,
                         fetch: string -> Result<Json>, fetchKeys: Json -> Result<Json>,
                         laterFetch: string -> Result<Json>, laterKeys: Json -> Result<Json>)
    ensures Present(keys) ==> LoadKeys(keys, cache, url, seed, fetch, fetchKeys) == (Ok(keys.value), cache, keys)
    ensures var (r, c, k) := LoadKeys(keys, cache, url, seed, fetch, fetchKeys);
            && (r.Err? ==> k == keys)
            && (r.Ok? ==> k == Some(r.value) && Present(k)
                          && LoadKeys(k, c, url, seed, laterFetch, laterKeys).0 == r)
  {
  }

  /** With no cached keys, a loaded document naming `jwks_uri` and a fetched key
      set with a truthy `keys` member, that member is returned and cached, and
      the metadata cache is whatever the metadata load left. */
  lemma LoadedKeysAreKeySetKeys(keys: Option<Json>, cache: Option<Json>, url: Option<string>, seed: Option<Json>,
                                fetch: string -> Result<Json>, fetchKeys: Json -> Result<Json>, keySet: Json)
    requires !Present(keys)
    requires LoadMetadata(cache, url, seed, fetch).0.Ok?
    requires Prop(LoadMetadata(cache, url, seed, fetch).0.value, "jwks_uri").Some?
    requires fetchKeys(Prop(LoadMetadata(cache, url, seed, fetch).0.value, "jwks_uri").value) == Ok(keySet)
    requires Present(Prop(keySet, "keys"))
    ensures LoadKeys(keys, cache, url, seed, fetch, fetchKeys).0 == Ok(Prop(keySet, "keys").value)
    ensures LoadKeys(keys, cache, url, seed, fetch, fetchKeys).1 == LoadMetadata(cache, url, seed, fetch).1
    ensures LoadKeys(keys, cache, url, seed, fetch, fetchKeys).2 == Prop(keySet, "keys")
  {
  }

  /** A key set (not an array) without a truthy `keys` member is rejected. An
      array would supply the inherited `Array.prototype.keys`, which is truthy. */
  lemma MissingKeysRejected(cache: Option<Json>, url: Option<string>, seed: Option<Json>,
                            fetch: string -> Result<Json>, fetchKeys: Json -> Result<Json>)
    requires var (meta, _) := LoadMetadata(cache, url, seed, fetch);
             meta.Ok? && Prop(meta.value, "jwks_uri").Some?
    requires var jwksUri := Prop(LoadMetadata(cache, url, seed, fetch).0.value, "jwks_uri").value;
             fetchKeys(jwksUri).Ok? && fetchKeys(jwksUri).value != JNull && !fetchKeys(jwksUri).value.JArr?
             && !Present(Prop(fetchKeys(jwksUri).value, "keys"))
    ensures LoadKeys(None, cache, url, seed, fetch, fetchKeys).0 == Err(MissingKeys)
  {
  }

  /** The metadata service; its caches are filled by the loads and the key cache
      is emptied by `resetSigningKeys`. */
  class MetadataService {
    const settings: Settings
    var metadataUrl: Option<string>
    var signingKeys: Option<Json>
    var metadata: Option<Json>

    constructor (settings: Settings)
      ensures this.settings == settings
      ensures metadataUrl == DiscoveryUrl(settings)
      ensures signingKeys == if Present(settings.signingKeys) then settings.signingKeys else None
      ensures metadata == if Present(settings.metadata) then settings.metadata else None
    {
      this.settings := settings;
      var url: Option<string> := None;
      if Given(settings.metadataUrl) {
        url := settings.metadataUrl;
      } else if settings.authority != "" {
        var u := settings.authority;
        if u[|u| - 1] != '/' {
          u := u + "/";
        } else {
          assert u == u + "";
        }
        u := u + MetadataUrlPath;
        url := Some(u);
      }
      metadataUrl := url;
      signingKeys := None;
      if Present(settings.signingKeys) {
        signingKeys := settings.signingKeys;
      }
      metadata := None;
      if Present(settings.metadata) {
        metadata := settings.metadata;
      }
    }

    method ResetSigningKeys()
      modifies this
      ensures signingKeys.None?
      ensures metadata == old(metadata) && metadataUrl == old(metadataUrl)
    {
      signingKeys := None;
    }

    method GetMetadata(fetch: string -> Result<Json>) returns (r: Result<Json>)
      modifies this
      ensures (r, metadata) == LoadMetadata(old(metadata), metadataUrl, settings.metadataSeed, fetch)
      ensures metadataUrl == old(metadataUrl) && signingKeys == old(signingKeys)
    {
      if Present(metadata) {
        return Ok(metadata.value);
      }
      if !Given(metadataUrl) {
        return Err(NoDiscoveryUrl);
      }
      var doc := fetch(metadataUrl.value);
      if doc.Err? {
        return Err(doc.error);
      }
      var m := Merge(settings.metadataSeed, doc.value);
      metadata := Some(m);
      r := Ok(m);
    }

    method GetMetadataProperty(name: string, optional: bool, fetch: string -> Result<Json>)
      returns (r: Result<Option<Json>>)
      modifies this
      ensures var (meta, cache) := LoadMetadata(old(metadata), metadataUrl, settings.metadataSeed, fetch);
              r == PropertyOf(meta, name, optional) && metadata == cache
      ensures metadataUrl == old(metadataUrl) && signingKeys == old(signingKeys)
    {
      var meta := GetMetadata(fetch);
      if meta.Err? {
        return Err(meta.error);
      }
      var v := Prop(meta.value, name);
      if v.None? {
        if optional {
          return Ok(None);
        }
        return Err("Metadata does not contain property " + name);
      }
      r := Ok(v);
    }

    /** `getIssuer()`, `getAuthorizationEndpoint()`, ..., `getKeysEndpoint(optional)`. */
    method GetEndpoint(e: Endpoint, callerOptional: bool, fetch: string -> Result<Json>)
      returns (r: Result<Option<Json>>)
      modifies this
      ensures var (meta, cache) := LoadMetadata(old(metadata), metadataUrl, settings.metadataSeed, fetch);
              r == PropertyOf(meta, EndpointName(e), IsOptional(e, callerOptional)) && metadata == cache
      ensures metadataUrl == old(metadataUrl) && signingKeys == old(signingKeys)
    {
      r := GetMetadataProperty(EndpointName(e), IsOptional(e, callerOptional), fetch);
    }

    method GetSigningKeys(fetch: string -> Result<Json>, fetchKeys: Json -> Result<Json>)
      returns (r: Result<Json>)
      modifies this
      ensures (r, metadata, signingKeys)
           == LoadKeys(old(signingKeys), old(metadata), metadataUrl, settings.metadataSeed, fetch, fetchKeys)
      ensures metadataUrl == old(metadataUrl)
    {
      if Present(signingKeys) {
        return Ok(signingKeys.value);
      }
      var jwksUri := GetEndpoint(Keys, false, fetch);
      if jwksUri.Err? {
        return Err(jwksUri.error);
      }
      var keySet := fetchKeys(jwksUri.value.value);
      if keySet.Err? {
        return Err(keySet.error);
      }
      var k := Member(keySet.value, "keys");
      if k.Err? {
        return Err(k.error);
      }
      if !Present(k.value) {
        return Err(MissingKeys);
      }
      signingKeys := k.value;
      r := Ok(k.value.value);
    }
  }

  /** `new MetadataService(settings)` fails with "settings" when no settings are given. */
  method NewMetadataService(settings: Option<Settings>) returns (r: Result<MetadataService>)
    ensures r.Err? <==> settings.None?
    ensures r.Err? ==> r.error == "settings"
    ensures r.Ok? ==> fresh(r.value) && r.value.settings == settings.value
                      && r.value.metadataUrl == DiscoveryUrl(settings.value)
  {
    if settings.None? {
      return Err("settings");
    }
    var service := new MetadataService(settings.value);
    r := Ok(service);
  }
}
