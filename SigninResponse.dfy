/** The legacy sign-in response of src/SigninResponse.js: the fields it reads off
    the fragment of the redirect url, the split between a success response and an
    error response (sections 4.2.2 and 4.2.2.1 of RFC 6749), and the expiry time
    derived from `expires_in`. The clock (whole seconds) and
    `decodeURIComponent` are parameters. */
module SigninResponses {
  import opened Wrappers
  import opened Json
  import opened UrlUtility

  // ---------------------------------------------------------------------------
  // parseInt
  // ---------------------------------------------------------------------------

  /** White space and line terminators `parseInt` skips. */
  predicate IsSpace(c: char) {
    c == ' ' || c == '\t' || c == '\n' || c == '\r' || c == '\U{000B}' || c == '\U{000C}'
    || c == '\U{00A0}' || c == '\U{2028}' || c == '\U{2029}' || c == '\U{FEFF}'
  }

  function TrimStart(s: string): (r: string)
    ensures |r| <= |s| && r == s[|s| - |r|..]
    ensures r == [] || !IsSpace(r[0])
    ensures forall i :: 0 <= i < |s| - |r| ==> IsSpace(s[i])
  {
    if s != [] && IsSpace(s[0]) then TrimStart(s[1..]) else s
  }

  /** The value of `c` as a digit in base `radix` (10 or 16). */
  function DigitOf(c: char, radix: nat): (r: Option<nat>)
    ensures r.Some? ==> r.value < radix
  {
    if '0' <= c <= '9' && (c as int - '0' as int) < radix then Some(c as int - '0' as int)
    else if radix == 16 && 'a' <= c <= 'f' then Some(c as int - 'a' as int + 10)
    else if radix == 16 && 'A' <= c <= 'F' then Some(c as int - 'A' as int + 10)
    else None
  }

  predicate AllDigits(s: string, radix: nat) {
    forall i :: 0 <= i < |s| ==> DigitOf(s[i], radix).Some?
  }

  /** Length of the longest prefix of `s` made of digits. */
  function DigitRun(s: string, radix: nat): (k: nat)
    ensures k <= |s| && AllDigits(s[..k], radix)
    ensures k < |s| ==> DigitOf(s[k], radix).None?
  {
    if s == [] || DigitOf(s[0], radix).None? then 0
    else
      var k := 1 + DigitRun(s[1..], radix);
      assert forall i :: 1 <= i < k ==> s[..k][i] == s[1..][..k - 1][i - 1];
      k
  }

  /** The number written by the digits `s`, most significant first. */
  function DigitsValue(s: string, radix: nat): nat
    requires AllDigits(s, radix)
  {
    if s == [] then 0
    else
      assert AllDigits(s[..|s| - 1], radix);
      DigitsValue(s[..|s| - 1], radix) * radix + DigitOf(s[|s| - 1], radix).value
  }

  /** The digits after the sign: a `0x` prefix selects base 16, then the longest
      run of digits is read; None when there is no digit. */
  function Unsigned(u: string): (r: Option<nat>)
  {
    var hex := |u| >= 2 && u[0] == '0' && (u[1] == 'x' || u[1] == 'X');
    var radix := if hex then 16 else 10;
    var v := if hex then u[2..] else u;
    var k := DigitRun(v, radix);
    if k == 0 then None else Some(DigitsValue(v[..k], radix))
  }

  /** `parseInt(s)` without a radix: leading white space, an optional sign, then
      the unsigned part; None (NaN) when there is no digit. */
  function ParseInt(s: string): (r: Option<int>)
    ensures r.Some? ==> TrimStart(s) != []
    ensures r.Some? && r.value < 0 ==> TrimStart(s)[0] == '-'
    ensures (TrimStart(s) != [] && TrimStart(s)[0] != '-' && TrimStart(s)[0] != '+'
             && DigitOf(TrimStart(s)[0], 10).None?) ==> r.None?
  {
    var t := TrimStart(s);
    var negative := t != [] && t[0] == '-';
    var u := if t != [] && (t[0] == '-' || t[0] == '+') then t[1..] else t;
    match Unsigned(u)
    case None => None
    case Some(n) => Some(if negative then -(n as int) else n)
  }

  /** A string that starts with a decimal digit reads as its leading run of
      decimal digits. */
  lemma DigitLed(s: string)
    requires s != [] && '0' <= s[0] <= '9'
    requires |s| >= 2 && s[0] == '0' ==> s[1] != 'x' && s[1] != 'X'
    ensures ParseInt(s) == Some(DigitsValue(s[..DigitRun(s, 10)], 10))
  {
    assert !IsSpace(s[0]);
    assert TrimStart(s) == s;
    assert s[0] != '-' && s[0] != '+';
    UnsignedDecimal(s);
  }

  /** Unsigned digits that do not start with `0x` are read in base 10. */
  lemma UnsignedDecimal(u: string)
    requires u != [] && '0' <= u[0] <= '9'
    requires |u| >= 2 && u[0] == '0' ==> u[1] != 'x' && u[1] != 'X'
    ensures Unsigned(u) == Some(DigitsValue(u[..DigitRun(u, 10)], 10))
  {
    assert DigitOf(u[0], 10).Some?;
    assert DigitRun(u, 10) > 0;
  }

  /** Decimal notation of `n`, as `String(n)` writes it. */
  function DecimalString(n: nat): (s: string)
    ensures s != [] && AllDigits(s, 10)
  {
    var last := ['0' + (n % 10) as char];
    if n < 10 then last
    else
      var s := DecimalString(n / 10) + last;
      assert forall i :: 0 <= i < |s| - 1 ==> s[i] == DecimalString(n / 10)[i];
      s
  }

  lemma {:induction false} DigitRunAll(s: string, radix: nat)
    requires AllDigits(s, radix)
    ensures DigitRun(s, radix) == |s|
  {
    if s != [] {
      assert AllDigits(s[1..], radix);
      DigitRunAll(s[1..], radix);
    }
  }

  lemma {:induction false} DecimalValue(n: nat)
    ensures DigitsValue(DecimalString(n), 10) == n
  {
    var s := DecimalString(n);
    if n >= 10 {
      DecimalValue(n / 10);
      assert s[..|s| - 1] == DecimalString(n / 10);
    }
  }

  lemma DecimalLed(n: nat)
    ensures var s := DecimalString(n);
            && '0' <= s[0] <= '9' && (|s| >= 2 ==> '0' <= s[1] <= '9')
            && (|s| == 1 ==> n < 10 && s[0] == '0' + n as char)
  {
    var s := DecimalString(n);
    assert DigitOf(s[0], 10).Some?;
    assert |s| >= 2 ==> DigitOf(s[1], 10).Some?;
  }

  /** `parseInt` reads back a number written in decimal. */
  lemma ParseIntDecimal(n: nat)
    ensures ParseInt(DecimalString(n)) == Some(n)
  {
    var s := DecimalString(n);
    DecimalLed(n);
    DigitLed(s);
    DigitRunAll(s, 10);
    assert s[..|s|] == s;
    DecimalValue(n);
  }

  /** `parseInt` stops at the first character that is not a digit: a number
      written in decimal followed by anything else reads as that number, except
      that "0" followed by "x" or "X" starts a hexadecimal number. */
  lemma ParseIntPrefix(n: nat, rest: string)
    requires rest == [] || DigitOf(rest[0], 10).None?
    requires n == 0 && rest != [] ==> rest[0] != 'x' && rest[0] != 'X'
    ensures ParseInt(DecimalString(n) + rest) == Some(n)
  {
    var d := DecimalString(n);
    var s := d + rest;
    DecimalLed(n);
    assert s[0] == d[0];
    if |d| >= 2 {
      assert s[1] == d[1];
    } else if |s| >= 2 {
      assert s[1] == rest[0];
      assert d[0] == '0' ==> n == 0;
    }
    DigitLed(s);
    DigitRunPrefix(d, rest, 10);
    assert s[..|d|] == d;
    DecimalValue(n);
  }

  lemma {:induction false} DigitRunPrefix(d: string, rest: string, radix: nat)
    requires AllDigits(d, radix)
    requires rest == [] || DigitOf(rest[0], radix).None?
    ensures DigitRun(d + rest, radix) == |d|
  {
    if d != [] {
      assert (d + rest)[1..] == d[1..] + rest;
      assert AllDigits(d[1..], radix);
      DigitRunPrefix(d[1..], rest, radix);
    } else {
      assert d + rest == rest;
    }
  }

  // ---------------------------------------------------------------------------
  // The response
  // ---------------------------------------------------------------------------

  /** The fields of a response; `state` becomes any value once replaced. */
  datatype Fields = Fields(
    state: Option<Json>,
    error: Option<string>, errorDescription: Option<string>, errorUri: Option<string>,
    idToken: Option<string>, sessionState: Option<string>, accessToken: Option<string>,
    tokenType: Option<string>, scope: Option<string>,
    expiresAt: Option<int>)

  function AsJson(s: Option<string>): Option<Json> {
    if s.Some? then Some(JStr(s.value)) else None
  }

  predicate Given(s: Option<string>) {
    s.Some? && s.value != ""
  }

  /** `parseInt(values.expires_in)` when it is a number above zero. */
  function Lifetime(values: map<string, string>): Option<int> {
    var e := Lookup(values, "expires_in");
    if e.Some? && ParseInt(e.value).Some? && ParseInt(e.value).value > 0 then ParseInt(e.value) else None
  }

  /** The fields the constructor sets from the parsed `values` with the clock at
      `now`: the state always; the three error fields when `error` is non-empty;
      otherwise the token fields, and the expiry when the lifetime is positive. */
  function FromValues(values: map<string, string>, now: int): (f: Fields)
    ensures f.state == AsJson(Lookup(values, "state"))
    ensures Given(f.error) <==> Given(Lookup(values, "error"))
    ensures Given(f.error) ==> f.idToken.None? && f.accessToken.None? && f.expiresAt.None?
    ensures !Given(f.error) ==> f.error.None? && f.accessToken == Lookup(values, "access_token")
                                && f.idToken == Lookup(values, "id_token")
    ensures f.expiresAt.Some? ==> f.expiresAt.value > now
  {
    var state := AsJson(Lookup(values, "state"));
    if Given(Lookup(values, "error")) then
      Fields(state, Lookup(values, "error"), Lookup(values, "error_description"), Lookup(values, "error_uri"),
             None, None, None, None, None, None)
    else
      var lifetime := Lifetime(values);
      Fields(state, None, None, None,
             Lookup(values, "id_token"), Lookup(values, "session_state"), Lookup(values, "access_token"),
             Lookup(values, "token_type"), Lookup(values, "scope"),
             if lifetime.Some? then Some(now + lifetime.value) else None)
  }

  /** The `expires_in` getter: seconds left, when an expiry is set (and non-zero). */
  function ExpiresIn(expiresAt: Option<int>, now: int): (r: Option<int>)
    ensures r.Some? <==> expiresAt.Some? && expiresAt.value != 0
    ensures r.Some? ==> r.value + now == expiresAt.value
  {
    if expiresAt.Some? && expiresAt.value != 0 then Some(expiresAt.value - now) else None
  }

  /** An error response carries only its error fields besides the state; a
      success response carries no error fields. The state is copied either way. */
  lemma ErrorOrSuccess(values: map<string, string>, now: int)
    ensures var f := FromValues(values, now);
            && f.state == AsJson(Lookup(values, "state"))
            && (Given(Lookup(values, "error")) ==>
                  && f.error == Lookup(values, "error")
                  && f.errorDescription == Lookup(values, "error_description")
                  && f.errorUri == Lookup(values, "error_uri")
                  && f.idToken.None? && f.sessionState.None? && f.accessToken.None?
                  && f.tokenType.None? && f.scope.None? && f.expiresAt.None?)
            && (!Given(Lookup(values, "error")) ==>
                  && f.error.None? && f.errorDescription.None? && f.errorUri.None?
                  && f.idToken == Lookup(values, "id_token")
                  && f.sessionState == Lookup(values, "session_state")
                  && f.accessToken == Lookup(values, "access_token")
                  && f.tokenType == Lookup(values, "token_type")
                  && f.scope == Lookup(values, "scope"))
  {
  }

  /** The expiry is set exactly for a success response whose `expires_in` reads
      as a number above zero, and is then the clock plus that number; the getter
      then counts it down. */
  lemma ExpiryRule(values: map<string, string>, now: int, later: int)
    requires now >= 0
    ensures FromValues(values, now).expiresAt.Some?
        <==> !Given(Lookup(values, "error")) && "expires_in" in values
             && ParseInt(values["expires_in"]).Some? && ParseInt(values["expires_in"]).value > 0
    ensures FromValues(values, now).expiresAt.Some? ==>
              FromValues(values, now).expiresAt.value == now + ParseInt(values["expires_in"]).value
    ensures FromValues(values, now).expiresAt.Some? ==>
              ExpiresIn(FromValues(values, now).expiresAt, later)
              == Some(ParseInt(values["expires_in"]).value - (later - now))
    ensures FromValues(values, now).expiresAt.None? ==> ExpiresIn(FromValues(values, now).expiresAt, later).None?
  {
    ExpiryField(values, now);
  }

  /** The expiry field: the clock plus the lifetime, for a success response
      with a lifetime. */
  lemma ExpiryField(values: map<string, string>, now: int)
    ensures FromValues(values, now).expiresAt
         == if Given(Lookup(values, "error")) || Lifetime(values).None? then None else Some(now + Lifetime(values).value)
  {
  }

  /** A lifetime written in decimal, e.g. `expires_in=3600`, is taken at its value. */
  lemma DecimalLifetime(values: map<string, string>, n: nat, now: int)
    requires !Given(Lookup(values, "error"))
    requires n > 0 && "expires_in" in values && values["expires_in"] == DecimalString(n)
    ensures FromValues(values, now).expiresAt == Some(now + n)
  {
    ParseIntDecimal(n);
    assert Lifetime(values) == Some(n);
  }

  /** A fragment with more pairs than the parser accepts is answered as an error
      response, without tokens. */
  lemma TooManyParamsIsError(url: string, dec: string -> string, now: int)
    requires |Matches(ResponseBody(url, '#'))| > ParamLimit + 1
    ensures var f := FromValues(FragmentParams(url, '#', dec), now);
            && f.error == Some("Response exceeded expected number of parameters")
            && f.accessToken.None? && f.idToken.None? && f.expiresAt.None? && f.state.None?
  {
    var values := FragmentParams(url, '#', dec);
    assert values == TooManyParams;
    assert "state" !in values;
  }

  /** A redirect whose fragment the authorization server wrote from the
      parameters `ps` (at most 51, names non-empty) yields the fields of the last
      value given for each name. */
  lemma ResponseFromIssuedFragment(base: string, ps: seq<Param>, enc: string -> string,
                                   dec: string -> string, now: int)
    requires UriCodec(enc, dec)
    requires 0 < |ps| <= ParamLimit + 1
    requires NamesNonEmpty(ps)
    ensures FromValues(FragmentParams(base + ['#'] + Query(ps, enc), '#', dec), now) == FromValues(ParamMap(ps), now)
  {
    FragmentRoundTrip(base, ps, enc, dec);
  }

  /** `parseInt(values.expires_in)` and, when that is a number above zero, the
      clock plus it. */
  method ExpiryOf(values: map<string, string>, now: int) returns (expiresAt: Option<int>)
    ensures expiresAt == if Lifetime(values).Some? then Some(now + Lifetime(values).value) else None
  {
    var expiresIn := None;
    if "expires_in" in values {
      expiresIn := ParseInt(values["expires_in"]);
    }
    if expiresIn.Some? && expiresIn.value > 0 {
      expiresAt := Some(now + expiresIn.value);
    } else {
      expiresAt := None;
    }
  }

  class SigninResponse {
    var state: Option<Json>
    const error: Option<string>
    const errorDescription: Option<string>
    const errorUri: Option<string>
    const idToken: Option<string>
    const sessionState: Option<string>
    const accessToken: Option<string>
    const tokenType: Option<string>
    const scope: Option<string>
    const expiresAt: Option<int>
    var profile: Option<Json>

    function Current(): Fields
      reads this
    {
      Fields(state, error, errorDescription, errorUri, idToken, sessionState, accessToken,
             tokenType, scope, expiresAt)
    }

    /** `new SigninResponse(url)` with the clock at `now`. */
    constructor(url: string, dec: string -> string, now: int)
      ensures Current() == FromValues(FragmentParams(url, '#', dec), now)
      ensures profile.None?
    {
      var values := ParseUrlFragment(url, '#', dec);
      var expiry := ExpiryOf(values, now);
      state := AsJson(Lookup(values, "state"));
      if Given(Lookup(values, "error")) {
        error := Lookup(values, "error");
        errorDescription := Lookup(values, "error_description");
        errorUri := Lookup(values, "error_uri");
        idToken, sessionState, accessToken, tokenType, scope := None, None, None, None, None;
        expiresAt := None;
      } else {
        error, errorDescription, errorUri := None, None, None;
        idToken := Lookup(values, "id_token");
        sessionState := Lookup(values, "session_state");
        accessToken := Lookup(values, "access_token");
        tokenType := Lookup(values, "token_type");
        scope := Lookup(values, "scope");
        expiresAt := expiry;
      }
      profile := None;
      new;
      ghost var f := FromValues(values, now);
      assert state == f.state && error == f.error && errorDescription == f.errorDescription;
      assert errorUri == f.errorUri && idToken == f.idToken && sessionState == f.sessionState;
      assert accessToken == f.accessToken && tokenType == f.tokenType && scope == f.scope;
      assert expiresAt == f.expiresAt;
    }

    /** The `state` setter replaces the state and nothing else. */
    method SetState(value: Option<Json>)
      modifies this
      ensures Current() == old(Current()).(state := value)
      ensures profile == old(profile)
    {
      state := value;
    }

    /** The `profile` setter replaces the profile and nothing else. */
    method SetProfile(value: Option<Json>)
      modifies this
      ensures profile == value
      ensures Current() == old(Current())
    {
      profile := value;
    }
  }
}
