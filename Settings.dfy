/** The settings store of src/OidcClientSettings.ts: the defaults and coercions
    the constructor applies once. An argument that is `undefined` is None; a
    JavaScript default parameter applies only then (a given `null` is kept). */
module Settings {
  import opened Wrappers
  import opened Json

  const DefaultResponseType: string := "id_token"
  const DefaultScope: string := "openid"
  const DefaultClientAuthentication: string := "client_secret_post"
  /** Seconds (60 * 15). */
  const DefaultStaleStateAge: int := 900
  /** Seconds (60 * 5). */
  const DefaultClockSkew: int := 300
  const DefaultUserInfoJwtIssuer: string := "OP"

  /** The constructor's argument object, field by field. */
  datatype SettingsArgs = SettingsArgs(
    authority: Option<string>,
    metadataUrl: Option<string>,
    metadata: Option<Json>,
    signingKeys: Option<Json>,
    metadataSeed: Option<Json>,
    clientId: Option<string>,
    clientSecret: Option<string>,
    responseType: Option<string>,
    scope: Option<string>,
    redirectUri: Option<string>,
    postLogoutRedirectUri: Option<string>,
    clientAuthentication: Option<string>,
    prompt: Option<string>,
    display: Option<string>,
    maxAge: Option<int>,
    uiLocales: Option<string>,
    acrValues: Option<string>,
    resource: Option<string>,
    responseMode: Option<string>,
    filterProtocolClaims: Option<Json>,
    loadUserInfo: Option<Json>,
    staleStateAge: Option<int>,
    clockSkew: Option<int>,
    userInfoJwtIssuer: Option<string>,
    mergeClaims: Option<Json>,
    extraQueryParams: Option<Json>,
    extraTokenParams: Option<Json>)

  /** The stored settings, as the getters return them. */
  datatype Settings = Settings(
    authority: string,
    metadataUrl: Option<string>,
    metadata: Option<Json>,
    signingKeys: Option<Json>,
    metadataSeed: Option<Json>,
    clientId: string,
    clientSecret: Option<string>,
    responseType: string,
    scope: string,
    redirectUri: Option<string>,
    postLogoutRedirectUri: Option<string>,
    clientAuthentication: string,
    prompt: Option<string>,
    display: Option<string>,
    maxAge: Option<int>,
    uiLocales: Option<string>,
    acrValues: Option<string>,
    resource: Option<string>,
    responseMode: Option<string>,
    filterProtocolClaims: bool,
    loadUserInfo: bool,
    staleStateAge: int,
    clockSkew: int,
    userInfoJwtIssuer: string,
    mergeClaims: bool,
    extraQueryParams: Json,
    extraTokenParams: Json)

  function OrElse<T>(o: Option<T>, d: T): T {
    if o.Some? then o.value else d
  }

  /** `typeof v === "object"`: true of objects, arrays and null. */
  predicate IsObject(j: Json) {
    j.JObj? || j.JArr? || j.JNull?
  }

  /** An extra-parameters argument after its default `{}` and the object check. */
  function ExtraParams(arg: Option<Json>): (r: Json)
    ensures IsObject(r)
    ensures arg.Some? && IsObject(arg.value) ==> r == arg.value
    ensures arg.None? || !IsObject(arg.value) ==> r == JObj(map[])
  {
    var v := OrElse(arg, JObj(map[]));
    if IsObject(v) then v else JObj(map[])
  }

  /** A boolean flag after its default and `!!`. */
  function Flag(arg: Option<Json>, default: bool): (r: bool)
    ensures arg.None? ==> r == default
    ensures arg.Some? ==> r == Truthy(arg.value)
  {
    if arg.None? then default else Truthy(arg.value)
  }

  /** `new OidcClientSettingsStore(args)`. */
  function NewSettings(a: SettingsArgs): (r: Settings)
    ensures IsObject(r.extraQueryParams) && IsObject(r.extraTokenParams)
    ensures r.metadataUrl == a.metadataUrl && r.signingKeys == a.signingKeys && r.metadata == a.metadata
    ensures r.filterProtocolClaims <==> a.filterProtocolClaims.None? || Truthy(a.filterProtocolClaims.value)
    ensures r.mergeClaims <==> a.mergeClaims.Some? && Truthy(a.mergeClaims.value)
    ensures a.loadUserInfo.None? ==> r.loadUserInfo
    ensures a.loadUserInfo.Some? ==> r.loadUserInfo == Truthy(a.loadUserInfo.value)
    ensures a.authority.None? ==> r.authority == ""
    ensures a.clientId.None? ==> r.clientId == ""
    ensures a.responseType.None? ==> r.responseType == "id_token"
    ensures a.scope.None? ==> r.scope == "openid"
    ensures a.clientAuthentication.None? ==> r.clientAuthentication == "client_secret_post"
    ensures a.userInfoJwtIssuer.None? ==> r.userInfoJwtIssuer == "OP"
    ensures a.staleStateAge.None? ==> r.staleStateAge == 900
    ensures a.clockSkew.None? ==> r.clockSkew == 300
    ensures r.extraQueryParams == ExtraParams(a.extraQueryParams)
    ensures r.extraTokenParams == ExtraParams(a.extraTokenParams)
  {
    Settings(
      OrElse(a.authority, ""), a.metadataUrl, a.metadata, a.signingKeys, a.metadataSeed,
      OrElse(a.clientId, ""), a.clientSecret,
      OrElse(a.responseType, DefaultResponseType), OrElse(a.scope, DefaultScope),
      a.redirectUri, a.postLogoutRedirectUri,
      OrElse(a.clientAuthentication, DefaultClientAuthentication),
      a.prompt, a.display, a.maxAge, a.uiLocales, a.acrValues, a.resource, a.responseMode,
      Flag(a.filterProtocolClaims, true), Flag(a.loadUserInfo, true),
      OrElse(a.staleStateAge, DefaultStaleStateAge), OrElse(a.clockSkew, DefaultClockSkew),
      OrElse(a.userInfoJwtIssuer, DefaultUserInfoJwtIssuer),
      Flag(a.mergeClaims, false),
      ExtraParams(a.extraQueryParams), ExtraParams(a.extraTokenParams))
  }

  /** No argument given (`new OidcClientSettingsStore()`). */
  const NoArgs: SettingsArgs := SettingsArgs(
    None, None, None, None, None, None, None, None, None, None, None, None, None, None,
    None, None, None, None, None, None, None, None, None, None, None, None, None)

  /** The table of defaults. */
  lemma DefaultSettings()
    ensures var s := NewSettings(NoArgs);
            && s.responseType == "id_token" && s.scope == "openid"
            && s.clientAuthentication == "client_secret_post"
            && s.authority == "" && s.clientId == ""
            && s.staleStateAge == 900 && s.clockSkew == 300
            && s.userInfoJwtIssuer == "OP" && !s.mergeClaims
            && s.filterProtocolClaims && s.loadUserInfo
            && s.extraQueryParams == JObj(map[]) && s.extraTokenParams == JObj(map[])
            && s.metadataUrl.None? && s.metadata.None? && s.signingKeys.None?
  {
  }

  /** The settings as an argument object, every field given. */
  function ToArgs(s: Settings): SettingsArgs {
    SettingsArgs(
      Some(s.authority), s.metadataUrl, s.metadata, s.signingKeys, s.metadataSeed,
      Some(s.clientId), s.clientSecret, Some(s.responseType), Some(s.scope),
      s.redirectUri, s.postLogoutRedirectUri, Some(s.clientAuthentication),
      s.prompt, s.display, s.maxAge, s.uiLocales, s.acrValues, s.resource, s.responseMode,
      Some(JBool(s.filterProtocolClaims)), Some(JBool(s.loadUserInfo)),
      Some(s.staleStateAge), Some(s.clockSkew), Some(s.userInfoJwtIssuer),
      Some(JBool(s.mergeClaims)), Some(s.extraQueryParams), Some(s.extraTokenParams))
  }

  /** Settings whose extra parameters passed the object check, as every
      constructed settings value does. */
  predicate Stored(s: Settings) {
    IsObject(s.extraQueryParams) && IsObject(s.extraTokenParams)
  }

  /** The defaults and coercions are applied once: every constructed settings
      value is stored, and giving a stored value's fields back to the
      constructor reproduces it exactly. */
  lemma SettingsIdempotent(a: SettingsArgs, s: Settings)
    requires Stored(s)
    ensures Stored(NewSettings(a))
    ensures NewSettings(ToArgs(s)) == s
    ensures NewSettings(ToArgs(NewSettings(a))) == NewSettings(a)
  {
    assert Truthy(JBool(s.filterProtocolClaims)) == s.filterProtocolClaims;
    assert Truthy(JBool(s.loadUserInfo)) == s.loadUserInfo;
    assert Truthy(JBool(s.mergeClaims)) == s.mergeClaims;
  }

  /** A given string, number or extra-parameters object is stored unchanged,
      and a given flag is stored as its truthiness. */
  lemma GivenArgsKept(a: SettingsArgs)
    ensures var s := NewSettings(a);
            && (a.authority.Some? ==> s.authority == a.authority.value)
            && (a.clientId.Some? ==> s.clientId == a.clientId.value)
            && (a.responseType.Some? ==> s.responseType == a.responseType.value)
            && (a.scope.Some? ==> s.scope == a.scope.value)
            && (a.clientAuthentication.Some? ==> s.clientAuthentication == a.clientAuthentication.value)
            && (a.staleStateAge.Some? ==> s.staleStateAge == a.staleStateAge.value)
            && (a.clockSkew.Some? ==> s.clockSkew == a.clockSkew.value)
            && (a.userInfoJwtIssuer.Some? ==> s.userInfoJwtIssuer == a.userInfoJwtIssuer.value)
            && (a.filterProtocolClaims.Some? ==> s.filterProtocolClaims == Truthy(a.filterProtocolClaims.value))
            && (a.loadUserInfo.Some? ==> s.loadUserInfo == Truthy(a.loadUserInfo.value))
            && (a.mergeClaims.Some? ==> s.mergeClaims == Truthy(a.mergeClaims.value))
            && s.metadataUrl == a.metadataUrl && s.metadata == a.metadata
            && s.metadataSeed == a.metadataSeed && s.signingKeys == a.signingKeys
            && s.clientSecret == a.clientSecret && s.redirectUri == a.redirectUri
            && s.postLogoutRedirectUri == a.postLogoutRedirectUri
            && s.prompt == a.prompt && s.display == a.display && s.maxAge == a.maxAge
            && s.uiLocales == a.uiLocales && s.acrValues == a.acrValues
            && s.resource == a.resource && s.responseMode == a.responseMode
            && (a.extraQueryParams.Some? && IsObject(a.extraQueryParams.value) ==> s.extraQueryParams == a.extraQueryParams.value)
            && (a.extraTokenParams.Some? && IsObject(a.extraTokenParams.value) ==> s.extraTokenParams == a.extraTokenParams.value)
  {
  }
}
