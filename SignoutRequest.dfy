/** The end-session request builder of src/SignoutRequest.ts (the logout request
    of OpenID Connect RP-Initiated Logout 1.0, section 2). */
module SignoutRequest {
  import opened Wrappers
  import opened Json
  import opened UrlUtility
  import opened OidcState

  /** The constructor's arguments. A string argument is absent (None) or given;
      the empty string counts as absent wherever the source tests truthiness.
      `extraQueryParams` is given as its keys with their string values, in the
      order `for ... in` visits them. */
  datatype SignoutArgs = SignoutArgs(
    url: Option<string>,
    idTokenHint: Option<string>,
    postLogoutRedirectUri: Option<string>,
    data: Option<Json>,
    extraQueryParams: seq<Param>,
    requestType: Option<Json>)

  /** The built request: the end-session url and the State created for it, if any. */
  datatype Request = Request(url: string, state: Option<State>)

  predicate Given(s: Option<string>) {
    s.Some? && s.value != ""
  }

  /** A State is created exactly when a redirect uri and truthy data are both given. */
  predicate MakesState(args: SignoutArgs) {
    Given(args.postLogoutRedirectUri) && Present(args.data)
  }

  /** The State created for the request: `new State({data, request_type})`. */
  function RequestState(args: SignoutArgs, rnd: string, now: int): (s: State)
    ensures s.id == JStr(rnd) && s.data == args.data && s.requestType == args.requestType
  {
    NewState(None, args.data, None, args.requestType, rnd, now)
  }

  /** The parameters the constructor appends before the extra ones, in order:
      the id token hint, the redirect uri, and the state id when a State is made. */
  function FixedParams(args: SignoutArgs, rnd: string): seq<Param> {
    (if Given(args.idTokenHint) then [Param("id_token_hint", args.idTokenHint.value)] else [])
    + (if Given(args.postLogoutRedirectUri) then [Param("post_logout_redirect_uri", args.postLogoutRedirectUri.value)] else [])
    + (if MakesState(args) then [Param("state", rnd)] else [])
  }

  /** Every parameter the constructor appends, the extra ones last. */
  function SignoutParams(args: SignoutArgs, rnd: string): seq<Param> {
    FixedParams(args, rnd) + args.extraQueryParams
  }

  function Names(ps: seq<Param>): (r: seq<string>)
    ensures |r| == |ps| && forall i :: 0 <= i < |ps| ==> r[i] == ps[i].name
  {
    seq(|ps|, i requires 0 <= i < |ps| => ps[i].name)
  }

  /** What `new SignoutRequest(args)` yields, with `random()` giving `rnd`. */
  function Expected(args: SignoutArgs, enc: string -> string, rnd: string, now: int): Result<Request> {
    if !Given(args.url) then Err("url")
    else Ok(Request(
      AppendParams(args.url.value, SignoutParams(args, rnd), enc),
      if MakesState(args) then Some(RequestState(args, rnd, now)) else None))
  }

  lemma AppendParamsSnoc(url: string, ps: seq<Param>, p: Param, enc: string -> string)
    ensures AppendParams(url, ps + [p], enc) == WithQueryParam(AppendParams(url, ps, enc), p.name, p.value, enc)
  {
    assert (ps + [p])[..|ps|] == ps;
  }

  /** The three conditional `addQueryParam` calls of the constructor. */
  method AppendFixed(args: SignoutArgs, url0: string, enc: string -> string, rnd: string, now: int)
    returns (url: string, state: Option<State>)
    ensures url == AppendParams(url0, FixedParams(args, rnd), enc)
    ensures state == if MakesState(args) then Some(RequestState(args, rnd, now)) else None
  {
    url := url0;
    ghost var done: seq<Param> := [];
    if Given(args.idTokenHint) {
      var p := Param("id_token_hint", args.idTokenHint.value);
      url := AddQueryParam(url, p.name, p.value, enc);
      AppendParamsSnoc(url0, done, p, enc);
      done := done + [p];
    }
    assert url == AppendParams(url0, done, enc);
    ghost var afterHint := done;
    state := None;
    if Given(args.postLogoutRedirectUri) {
      var p := Param("post_logout_redirect_uri", args.postLogoutRedirectUri.value);
      url := AddQueryParam(url, p.name, p.value, enc);
      AppendParamsSnoc(url0, done, p, enc);
      done := done + [p];
      if Present(args.data) {
        var s := NewState(None, args.data, None, args.requestType, rnd, now);
        state := Some(s);
        url := AddQueryParam(url, "state", s.id.s, enc);
        AppendParamsSnoc(url0, done, Param("state", rnd), enc);
        done := done + [Param("state", rnd)];
      }
    }
    assert url == AppendParams(url0, done, enc);
    assert afterHint == if Given(args.idTokenHint) then [Param("id_token_hint", args.idTokenHint.value)] else [];
    assert done == FixedParams(args, rnd);
  }

  lemma ExtrasStep(url0: string, done: seq<Param>, extras: seq<Param>, i: nat, enc: string -> string)
    requires i < |extras|
    ensures AppendParams(url0, done + extras[..i + 1], enc)
         == WithQueryParam(AppendParams(url0, done + extras[..i], enc), extras[i].name, extras[i].value, enc)
  {
    AppendParamsSnoc(url0, done + extras[..i], extras[i], enc);
    assert done + extras[..i + 1] == done + extras[..i] + [extras[i]];
  }

  /** The `for ... in extraQueryParams` loop: one `addQueryParam` per extra
      parameter, in order. */
  method AppendExtras(url0: string, done: seq<Param>, url: string, extras: seq<Param>, enc: string -> string)
    returns (r: string)
    requires url == AppendParams(url0, done, enc)
    ensures r == AppendParams(url0, done + extras, enc)
  {
    r := url;
    var i := 0;
    assert done + extras[..0] == done;
    while i < |extras|
      invariant 0 <= i <= |extras|
      invariant r == AppendParams(url0, done + extras[..i], enc)
    {
      r := AddQueryParam(r, extras[i].name, extras[i].value, enc);
      ExtrasStep(url0, done, extras, i, enc);
      i := i + 1;
    }
    assert extras[..i] == extras;
  }

  /** The constructor: throws "url" without a url, otherwise appends the
      parameters one `addQueryParam` at a time. */
  method NewSignoutRequest(args: SignoutArgs, enc: string -> string, rnd: string, now: int)
    returns (r: Result<Request>)
    ensures r == Expected(args, enc, rnd, now)
  {
    if !Given(args.url) {
      return Err("url");
    }
    var url, state := AppendFixed(args, args.url.value, enc, rnd, now);
    url := AppendExtras(args.url.value, FixedParams(args, rnd), url, args.extraQueryParams, enc);
    r := Ok(Request(url, state));
  }

  /** Without a url the constructor fails with "url"; with one, the request url
      starts with it. */
  lemma SignoutUrlExtendsUrl(args: SignoutArgs, enc: string -> string, rnd: string, now: int)
    ensures Expected(args, enc, rnd, now).Err? <==> !Given(args.url)
    ensures Expected(args, enc, rnd, now).Err? ==> Expected(args, enc, rnd, now).error == "url"
    ensures Given(args.url) ==>
              var u := Expected(args, enc, rnd, now).value.url;
              |args.url.value| <= |u| && u[..|args.url.value|] == args.url.value
  {
    if Given(args.url) {
      AppendParamsExtends(args.url.value, SignoutParams(args, rnd), enc);
    }
  }

  /** The order of the parameters before the extra ones: the id token hint first
      when given, the redirect uri whether or not a hint is given, and the state
      id, last, only together with a redirect uri and data. */
  lemma {:induction false} SignoutParamOrder(args: SignoutArgs, rnd: string)
    ensures var fixed := FixedParams(args, rnd);
            && ("id_token_hint" in Names(fixed) <==> Given(args.idTokenHint))
            && (Given(args.idTokenHint) ==> fixed[0] == Param("id_token_hint", args.idTokenHint.value))
            && ("post_logout_redirect_uri" in Names(fixed) <==> Given(args.postLogoutRedirectUri))
            && ("state" in Names(fixed) <==> MakesState(args))
            && (MakesState(args) ==> fixed[|fixed| - 1] == Param("state", rnd))
            && |fixed| <= 3
  {
    FixedNames(args, rnd);
    assert |"id_token_hint"| != |"post_logout_redirect_uri"| && |"id_token_hint"| != |"state"|;
    assert |"post_logout_redirect_uri"| != |"state"|;
  }

  /** The names of the fixed parameters, in order. */
  lemma FixedNames(args: SignoutArgs, rnd: string)
    ensures Names(FixedParams(args, rnd))
         == (if Given(args.idTokenHint) then ["id_token_hint"] else [])
            + (if Given(args.postLogoutRedirectUri) then ["post_logout_redirect_uri"] else [])
            + (if MakesState(args) then ["state"] else [])
  {
    var h := if Given(args.idTokenHint) then [Param("id_token_hint", args.idTokenHint.value)] else [];
    var p := if Given(args.postLogoutRedirectUri) then [Param("post_logout_redirect_uri", args.postLogoutRedirectUri.value)] else [];
    var st := if MakesState(args) then [Param("state", rnd)] else [];
    assert Names(h) == if Given(args.idTokenHint) then ["id_token_hint"] else [];
    assert Names(p) == if Given(args.postLogoutRedirectUri) then ["post_logout_redirect_uri"] else [];
    assert Names(st) == if MakesState(args) then ["state"] else [];
    assert Names(h + p + st) == Names(h) + Names(p) + Names(st);
  }

  /** The State exists exactly when a redirect uri and data are given; it carries
      the data and request type, and its id is the value of the `state` parameter. */
  lemma SignoutStateRule(args: SignoutArgs, enc: string -> string, rnd: string, now: int)
    requires Given(args.url)
    ensures var r := Expected(args, enc, rnd, now).value;
            && (r.state.Some? <==> MakesState(args))
            && (r.state.Some? ==> r.state.value.data == args.data
                                  && r.state.value.requestType == args.requestType
                                  && r.state.value.id == JStr(rnd)
                                  && Param("state", rnd) in FixedParams(args, rnd))
  {
    if MakesState(args) {
      SignoutParamOrder(args, rnd);
    }
  }

  /** Reading the query of the built url back yields the appended parameters, as
      long as the given url has no query, every name is non-empty and there are at
      most 51 parameters. */
  lemma SignoutQueryRoundTrip(args: SignoutArgs, enc: string -> string, dec: string -> string, rnd: string, now: int)
    requires UriCodec(enc, dec)
    requires Given(args.url) && '?' !in args.url.value
    requires 0 < |SignoutParams(args, rnd)| <= ParamLimit + 1
    requires forall i :: 0 <= i < |args.extraQueryParams| ==> args.extraQueryParams[i].name != ""
    ensures FragmentParams(Expected(args, enc, rnd, now).value.url, '?', dec) == ParamMap(SignoutParams(args, rnd))
  {
    var ps := SignoutParams(args, rnd);
    FixedNamesNonEmpty(args, rnd);
    assert NamesNonEmpty(ps) by {
      var fixed := FixedParams(args, rnd);
      forall i | 0 <= i < |ps| ensures ps[i].name != [] {
        if i >= |fixed| {
          assert ps[i] == args.extraQueryParams[i - |fixed|];
        } else {
          assert ps[i] == fixed[i];
        }
      }
    }
    QueryRoundTrip(args.url.value, ps, enc, dec);
  }

  lemma FixedNamesNonEmpty(args: SignoutArgs, rnd: string)
    ensures NamesNonEmpty(FixedParams(args, rnd))
  {
  }
}
