/** Query-string building and redirect-response parsing (src/utils/UrlUtility.ts).
    `encodeURIComponent` and `decodeURIComponent` are passed in as `enc` and `dec`;
    the lemmas that need them to behave like a URI-component codec say so in their
    `requires` (see `SafeEncoder` and `UriCodec`). */
module UrlUtility {
  import opened Wrappers

  /** One `name=value` parameter, as appended to a query or read back from one. */
  datatype Param = Param(name: string, value: string)

  /** One match of the response-parameter regular expression `([^&=]+)=([^&]*)`:
      its two groups and the index just past it (the regex's new `lastIndex`). */
  datatype RegexMatch = RegexMatch(name: string, value: string, end: nat)

  /** Characters an encoded URI component never contains: `encodeURIComponent`
      escapes each of them. */
  const Reserved: string := "?#&=+"

  /** `enc` behaves like `encodeURIComponent` as far as query syntax goes: it maps
      only the empty string to the empty string, and its output never holds a
      character of `Reserved`. */
  ghost predicate SafeEncoder(enc: string -> string) {
    && (forall s :: enc(s) == [] <==> s == [])
    && (forall s, i :: 0 <= i < |enc(s)| ==> enc(s)[i] !in Reserved)
  }

  /** `dec` undoes `enc`, as `decodeURIComponent` undoes `encodeURIComponent`. */
  ghost predicate UriCodec(enc: string -> string, dec: string -> string) {
    && SafeEncoder(enc)
    && (forall s :: dec(enc(s)) == s)
  }

  // ---------------------------------------------------------------------------
  // addQueryParam
  // ---------------------------------------------------------------------------

  /** What `addQueryParam` puts between the url and the new parameter. */
  function Separator(url: string): string {
    if '?' !in url then "?" else if url[|url| - 1] == '?' then "" else "&"
  }

  /** The text of one encoded parameter. */
  function EncodedParam(p: Param, enc: string -> string): string {
    enc(p.name) + "=" + enc(p.value)
  }

  /** The url `addQueryParam(url, name, value)` returns. */
  function WithQueryParam(url: string, name: string, value: string, enc: string -> string): string {
    url + Separator(url) + EncodedParam(Param(name, value), enc)
  }

  method AddQueryParam(url: string, name: string, value: string, enc: string -> string)
    returns (r: string)
    ensures r == WithQueryParam(url, name, value, enc)
    ensures '?' !in url ==> r == url + "?" + enc(name) + "=" + enc(value)
    ensures '?' in url && url[|url| - 1] == '?' ==> r == url + enc(name) + "=" + enc(value)
    ensures '?' in url && url[|url| - 1] != '?' ==> r == url + "&" + enc(name) + "=" + enc(value)
  {
    r := url;
    if '?' !in r {
      r := r + "?";
    }
    if r[|r| - 1] != '?' {
      r := r + "&";
    }
    r := r + enc(name);
    r := r + "=";
    r := r + enc(value);
  }

  /** The url after `addQueryParam` has been applied to each parameter of `ps` in turn. */
  function AppendParams(url: string, ps: seq<Param>, enc: string -> string): string {
    if ps == [] then url
    else
      var last := ps[|ps| - 1];
      WithQueryParam(AppendParams(url, ps[..|ps| - 1], enc), last.name, last.value, enc)
  }

  /** The encoded parameters of `ps` joined by `&`. */
  function Query(ps: seq<Param>, enc: string -> string): string {
    if ps == [] then ""
    else if |ps| == 1 then EncodedParam(ps[0], enc)
    else EncodedParam(ps[0], enc) + "&" + Query(ps[1..], enc)
  }

  /** Appending parameters one at a time never alters what was already there. */
  lemma {:induction false} AppendParamsExtends(url: string, ps: seq<Param>, enc: string -> string)
    ensures |url| <= |AppendParams(url, ps, enc)|
    ensures AppendParams(url, ps, enc)[..|url|] == url
  {
    if ps != [] {
      var prev := AppendParams(url, ps[..|ps| - 1], enc);
      AppendParamsExtends(url, ps[..|ps| - 1], enc);
      var last := ps[|ps| - 1];
      assert AppendParams(url, ps, enc) == prev + (Separator(prev) + EncodedParam(last, enc));
    }
  }

  lemma {:induction false} QuerySnoc(ps: seq<Param>, p: Param, enc: string -> string)
    requires ps != []
    ensures Query(ps + [p], enc) == Query(ps, enc) + "&" + EncodedParam(p, enc)
  {
    if |ps| > 1 {
      assert (ps + [p])[1..] == ps[1..] + [p];
      QuerySnoc(ps[1..], p, enc);
    }
  }

  lemma {:induction false} QueryIsQuerySafe(ps: seq<Param>, enc: string -> string)
    requires SafeEncoder(enc)
    ensures '?' !in Query(ps, enc) && '#' !in Query(ps, enc)
    ensures ps != [] ==> Query(ps, enc) != [] && Query(ps, enc)[|Query(ps, enc)| - 1] != '?'
  {
    if ps != [] {
      var p := ps[0];
      var e := EncodedParam(p, enc);
      forall i | 0 <= i < |enc(p.name)| ensures enc(p.name)[i] !in Reserved { }
      forall i | 0 <= i < |enc(p.value)| ensures enc(p.value)[i] !in Reserved { }
      assert '?' !in e && '#' !in e;
      assert e[|e| - 1] != '?' by {
        if enc(p.value) == [] {
          assert e[|e| - 1] == '=';
        } else {
          assert e[|e| - 1] == enc(p.value)[|enc(p.value)| - 1];
        }
      }
      if |ps| > 1 {
        QueryIsQuerySafe(ps[1..], enc);
        var q := Query(ps[1..], enc);
        assert Query(ps, enc) == e + "&" + q;
        assert Query(ps, enc)[|Query(ps, enc)| - 1] == q[|q| - 1];
      }
    }
  }

  /** Once a url carries a query that ends in a parameter, the next separator is `&`. */
  lemma SeparatorAfterQuery(url: string, q: string)
    requires q != [] && q[|q| - 1] != '?'
    ensures Separator(url + Separator(url) + q) == "&"
  {
    var prev := url + Separator(url) + q;
    assert '?' in prev by {
      if '?' in url {
        var i :| 0 <= i < |url| && url[i] == '?';
        assert prev[i] == '?';
      } else {
        assert prev[|url|] == '?';
      }
    }
    assert prev[|prev| - 1] == q[|q| - 1];
  }

  /** Building a query with `addQueryParam` puts the url's separator before the first
      parameter (`?` for a url without a query) and `&` before each later one. */
  lemma {:induction false} AppendParamsIsQuery(url: string, ps: seq<Param>, enc: string -> string)
    requires SafeEncoder(enc)
    requires ps != []
    ensures AppendParams(url, ps, enc) == url + Separator(url) + Query(ps, enc)
  {
    var init := ps[..|ps| - 1];
    var last := ps[|ps| - 1];
    if init == [] {
      assert ps == [last];
    } else {
      AppendParamsIsQuery(url, init, enc);
      AppendParamsStep(url, init, last, enc);
      assert init + [last] == ps;
    }
  }

  /** One more parameter appended to a url built as `url`, separator, query. */
  lemma AppendParamsStep(url: string, init: seq<Param>, last: Param, enc: string -> string)
    requires SafeEncoder(enc)
    requires init != []
    requires AppendParams(url, init, enc) == url + Separator(url) + Query(init, enc)
    ensures AppendParams(url, init + [last], enc) == url + Separator(url) + Query(init + [last], enc)
  {
    var ps := init + [last];
    assert ps[..|ps| - 1] == init && ps[|ps| - 1] == last;
    var q := Query(init, enc);
    var prev := AppendParams(url, init, enc);
    QueryIsQuerySafe(init, enc);
    SeparatorAfterQuery(url, q);
    assert AppendParams(url, ps, enc) == prev + "&" + EncodedParam(last, enc);
    QuerySnoc(init, last, enc);
    JoinAssoc(url + Separator(url), q, EncodedParam(last, enc));
  }

  lemma JoinAssoc(a: string, q: string, e: string)
    ensures a + q + "&" + e == a + (q + "&" + e)
  {
  }

  // ---------------------------------------------------------------------------
  // parseUrlFragment
  // ---------------------------------------------------------------------------

  /** The counter bound of the source loop: a match seen while the counter is
      already above it ends the parse with an error. */
  const ParamLimit: nat := 50

  /** The whole result of a parse that met too many parameters. */
  const TooManyParams: map<string, string> :=
    map["error" := "Response exceeded expected number of parameters"]

  /** Index of the last `c` in `s`, or -1 (`String.prototype.lastIndexOf`). */
  function LastIndexOf(s: string, c: char): (r: int)
    ensures -1 <= r
    ensures r == -1 <==> c !in s
    ensures r >= 0 ==> r < |s| && s[r] == c && c !in s[r + 1..]
  {
    if s == [] then -1
    else if s[|s| - 1] == c then |s| - 1
    else
      assert s[..|s| - 1] + [s[|s| - 1]] == s;
      LastIndexOf(s[..|s| - 1], c)
  }

  /** Index of the first `c` in `s`, or -1 (`String.prototype.indexOf`). */
  function IndexOf(s: string, c: char): (r: int)
    ensures -1 <= r
    ensures r == -1 <==> c !in s
    ensures r >= 0 ==> r < |s| && s[r] == c && c !in s[..r]
  {
    if s == [] then -1
    else if s[0] == c then 0
    else
      var r := IndexOf(s[1..], c);
      if r < 0 then -1 else r + 1
  }

  /** The text the parameters are read from: what follows the last `delimiter`
      (the whole value when there is none), cut at the first `#` when the query is read. */
  function ResponseBody(value: string, delimiter: char): string {
    var idx := LastIndexOf(value, delimiter);
    var tail := if idx >= 0 then value[idx + 1..] else value;
    if delimiter == '?' then
      var hash := IndexOf(tail, '#');
      if hash >= 0 then tail[..hash] else tail
    else tail
  }

  /** Length of the longest prefix of `s` free of `&` and `=` (the greedy `[^&=]+`). */
  function NameRun(s: string): (n: nat)
    ensures n <= |s|
    ensures n < |s| ==> s[n] == '&' || s[n] == '='
  {
    if s == [] || s[0] == '&' || s[0] == '=' then 0 else 1 + NameRun(s[1..])
  }

  /** The name run holds neither `&` nor `=`. */
  lemma {:induction false} NameRunFree(s: string)
    ensures forall i :: 0 <= i < NameRun(s) ==> s[i] != '&' && s[i] != '='
  {
    if s != [] && s[0] != '&' && s[0] != '=' {
      NameRunFree(s[1..]);
      forall i | 1 <= i < NameRun(s) ensures s[i] != '&' && s[i] != '=' {
        assert s[i] == s[1..][i - 1];
      }
    }
  }

  /** Length of the longest prefix of `s` free of `&` (the greedy `[^&]*`). */
  function ValueRun(s: string): (n: nat)
    ensures n <= |s|
    ensures n < |s| ==> s[n] == '&'
  {
    if s == [] || s[0] == '&' then 0 else 1 + ValueRun(s[1..])
  }

  /** The value run holds no `&`. */
  lemma {:induction false} ValueRunFree(s: string)
    ensures forall i :: 0 <= i < ValueRun(s) ==> s[i] != '&'
  {
    if s != [] && s[0] != '&' {
      ValueRunFree(s[1..]);
      forall i | 1 <= i < ValueRun(s) ensures s[i] != '&' {
        assert s[i] == s[1..][i - 1];
      }
    }
  }

  /** A match's groups: a non-empty name free of `&` and `=`, and a value free
      of `&`. */
  predicate WellFormedMatch(name: string, value: string) {
    && name != []
    && (forall i :: 0 <= i < |name| ==> name[i] != '&' && name[i] != '=')
    && (forall i :: 0 <= i < |value| ==> value[i] != '&')
  }

  /** Where a match starts, counted back from its end. */
  function MatchStart(m: RegexMatch): int {
    m.end - |m.name| - 1 - |m.value|
  }

  /** The regular expression matched at the very start of `s`. Backtracking cannot
      help the name group: a shorter run of it is followed by a character of the
      run, never by `=`. */
  function MatchHere(s: string): (r: Option<RegexMatch>)
    ensures r.Some? ==> 2 <= r.value.end <= |s|
  {
    var j := NameRun(s);
    if 0 < j < |s| && s[j] == '=' then
      var k := j + 1 + ValueRun(s[j + 1..]);
      Some(RegexMatch(s[..j], s[j + 1..k], k))
    else None
  }

  /** `regex.exec` from the start of `s`: the leftmost match. */
  function Exec(s: string): (r: Option<RegexMatch>)
    ensures r.Some? ==> 2 <= r.value.end <= |s|
    decreases |s|
  {
    if s == [] then None
    else match MatchHere(s)
      case Some(m) => Some(m)
      case None =>
        match Exec(s[1..])
        case None => None
        case Some(m) => Some(m.(end := m.end + 1))
  }

  /** A match at the start of `s` exists exactly when a non-empty name run is
      followed by `=`. */
  lemma MatchHereIff(s: string)
    ensures MatchHere(s).Some? <==> 0 < NameRun(s) < |s| && s[NameRun(s)] == '='
  {
  }

  /** A match at the start of `s` spans the name, `=` and the value, and ends at
      the end of `s` or at an `&`. */
  lemma MatchHereShape(s: string, m: RegexMatch)
    requires MatchHere(s) == Some(m)
    ensures MatchStart(m) == 0
    ensures WellFormedMatch(m.name, m.value)
    ensures s[..m.end] == m.name + ['='] + m.value
    ensures m.end < |s| ==> s[m.end] == '&'
  {
    var j := NameRun(s);
    var t := s[j + 1..];
    var k := j + 1 + ValueRun(t);
    assert m.name == s[..j] && m.end == k;
    assert m.value == t[..ValueRun(t)];
    NameRunFree(s);
    ValueRunFree(t);
    assert forall i :: 0 <= i < |m.value| ==> m.value[i] == t[i];
    SplitAtEquals(s, j, k);
  }

  lemma SplitAtEquals(s: string, j: nat, k: nat)
    requires j < k <= |s| && s[j] == '='
    ensures s[..k] == s[..j] + ['='] + s[j + 1..k]
  {
    var t := s[..j] + ['='] + s[j + 1..k];
    assert |t| == k;
    forall i | 0 <= i < k ensures t[i] == s[i] {
      if i < j {
        assert t[i] == s[..j][i];
      } else if i > j {
        assert t[i] == s[j + 1..k][i - j - 1];
      }
    }
  }

  /** `MatchHere` at position `p` of `s`. */
  function MatchAt(s: string, p: nat): Option<RegexMatch>
    requires p <= |s|
  {
    MatchHere(s[p..])
  }

  /** No position before `n` starts a match. */
  predicate NoMatchBefore(s: string, n: int)
    requires n <= |s|
  {
    forall p: nat :: p < n ==> MatchAt(s, p).None?
  }

  /** `r` is the leftmost match in `s`: the match at its start position, with no
      earlier position matching; None when no position matches. */
  predicate IsLeftmost(s: string, r: Option<RegexMatch>) {
    match r
    case None => NoMatchBefore(s, |s|)
    case Some(m) =>
      && 0 <= MatchStart(m) <= |s|
      && MatchAt(s, MatchStart(m)) == Some(m.(end := m.end - MatchStart(m)))
      && NoMatchBefore(s, MatchStart(m))
  }

  /** `Exec` finds the leftmost match. */
  lemma {:induction false} ExecLeftmost(s: string)
    ensures IsLeftmost(s, Exec(s))
    decreases |s|
  {
    if s != [] {
      if MatchHere(s).Some? {
        LeftmostAtStart(s);
      } else {
        ExecLeftmost(s[1..]);
        LeftmostInTail(s);
      }
    }
  }

  /** A match at the start of `s` is the leftmost one. */
  lemma LeftmostAtStart(s: string)
    requires MatchHere(s).Some?
    ensures IsLeftmost(s, Exec(s))
  {
    var m := MatchHere(s).value;
    assert MatchAt(s, 0) == MatchHere(s) by { assert s[0..] == s; }
    MatchHereShape(s, m);
    assert Exec(s) == Some(m);
    assert m.(end := m.end - 0) == m;
  }

  /** Without a match at its start, the leftmost match of `s` is that of its
      tail, one position further on. */
  lemma LeftmostInTail(s: string)
    requires s != [] && MatchHere(s).None?
    requires IsLeftmost(s[1..], Exec(s[1..]))
    ensures IsLeftmost(s, Exec(s))
  {
    assert MatchAt(s, 0) == MatchHere(s) by { assert s[0..] == s; }
    var t := Exec(s[1..]);
    if t.None? {
      ExecUnfoldNone(s);
      NoMatchShift(s, |s| - 1);
    } else {
      var m := t.value;
      ExecUnfoldSome(s, m);
      LeftmostShifted(s, m, Exec(s).value);
    }
  }

  /** The tail's leftmost match `m`, shifted by one, is the leftmost match of
      `s` when `s` does not match at its start. */
  lemma LeftmostShifted(s: string, m: RegexMatch, r: RegexMatch)
    requires s != [] && MatchAt(s, 0).None?
    requires IsLeftmost(s[1..], Some(m))
    requires r.name == m.name && r.value == m.value && r.end == m.end + 1
    ensures IsLeftmost(s, Some(r))
  {
    ExecShift(s, m);
    assert r.(end := r.end - MatchStart(r)) == m.(end := m.end - MatchStart(m));
  }

  /** No match in the tail before `n`, nor at the start: none before `n + 1`. */
  lemma NoMatchShift(s: string, n: nat)
    requires s != [] && n < |s|
    requires MatchAt(s, 0).None? && NoMatchBefore(s[1..], n)
    ensures NoMatchBefore(s, n + 1)
  {
    forall p: nat | 0 < p < n + 1 ensures MatchAt(s, p).None? {
      TailPosition(s, p - 1);
    }
  }

  /** Position `p` of the tail is position `p + 1` of `s`. */
  lemma TailPosition(s: string, p: nat)
    requires p < |s|
    ensures MatchAt(s, p + 1) == MatchAt(s[1..], p)
  {
    assert s[p + 1..] == s[1..][p..];
  }

  /** Where neither `s` at its start nor its tail matches, `s` does not match. */
  lemma ExecUnfoldNone(s: string)
    requires s != [] && MatchHere(s).None? && Exec(s[1..]).None?
    ensures Exec(s).None?
  {
  }

  /** Where `s` does not match at its start, `Exec` is the tail's match, one
      character further on. */
  lemma ExecUnfoldSome(s: string, m: RegexMatch)
    requires s != [] && MatchHere(s).None? && Exec(s[1..]) == Some(m)
    ensures Exec(s).Some?
    ensures Exec(s).value.name == m.name && Exec(s).value.value == m.value
    ensures Exec(s).value.end == m.end + 1
  {
  }

  /** The leftmost match of the tail, shifted by one, when `s` does not match at
      its start. */
  lemma ExecShift(s: string, m: RegexMatch)
    requires s != [] && MatchAt(s, 0).None?
    requires 0 <= MatchStart(m) <= |s| - 1
    requires MatchAt(s[1..], MatchStart(m)) == Some(m.(end := m.end - MatchStart(m)))
    requires NoMatchBefore(s[1..], MatchStart(m))
    ensures MatchStart(m.(end := m.end + 1)) == MatchStart(m) + 1
    ensures MatchAt(s, MatchStart(m) + 1) == Some(m.(end := m.end - MatchStart(m)))
    ensures NoMatchBefore(s, MatchStart(m) + 1)
  {
    TailPosition(s, MatchStart(m));
    NoMatchShift(s, MatchStart(m));
  }

  /** Every match of the global regular expression over `s`, in order. */
  function Matches(s: string): seq<Param>
    decreases |s|
  {
    match Exec(s)
    case None => []
    case Some(m) => [Param(m.name, m.value)] + Matches(s[m.end..])
  }

  /** Every match the loop sees has well-formed groups. */
  lemma {:induction false} MatchesWellFormed(s: string)
    ensures forall i :: 0 <= i < |Matches(s)| ==> WellFormedMatch(Matches(s)[i].name, Matches(s)[i].value)
    decreases |s|
  {
    match Exec(s)
    case None =>
    case Some(m) =>
      ExecLeftmost(s);
      LeftmostWellFormed(s, m);
      MatchesWellFormed(s[m.end..]);
      assert Matches(s) == [Param(m.name, m.value)] + Matches(s[m.end..]);
  }

  /** The leftmost match has well-formed groups. */
  lemma LeftmostWellFormed(s: string, m: RegexMatch)
    requires IsLeftmost(s, Some(m))
    ensures WellFormedMatch(m.name, m.value)
  {
    var st := MatchStart(m);
    MatchHereShape(s[st..], m.(end := m.end - st));
  }

  /** Every `+` replaced by a space. */
  function PlusToSpace(s: string): (r: string)
    ensures |r| == |s|
    ensures forall i :: 0 <= i < |s| ==> r[i] == if s[i] == '+' then ' ' else s[i]
  {
    if s == [] then [] else [if s[0] == '+' then ' ' else s[0]] + PlusToSpace(s[1..])
  }

  /** The parameter map after storing each match in turn, decoded. */
  function ToParams(ps: seq<Param>, dec: string -> string): map<string, string> {
    if ps == [] then map[]
    else
      var last := ps[|ps| - 1];
      ToParams(ps[..|ps| - 1], dec)[dec(last.name) := dec(PlusToSpace(last.value))]
  }

  /** What `parseUrlFragment(value, delimiter)` returns. */
  function FragmentParams(value: string, delimiter: char, dec: string -> string): map<string, string> {
    var ps := Matches(ResponseBody(value, delimiter));
    if |ps| > ParamLimit + 1 then TooManyParams else ToParams(ps, dec)
  }

  method ParseUrlFragment(value: string, delimiter: char, dec: string -> string)
    returns (params: map<string, string>)
    ensures params == FragmentParams(value, delimiter, dec)
  {
    var body := value;
    var idx := LastIndexOf(body, delimiter);
    if idx >= 0 {
      body := body[idx + 1..];
    }
    if delimiter == '?' {
      idx := IndexOf(body, '#');
      if idx >= 0 {
        body := body[..idx];
      }
    }
    assert body == ResponseBody(value, delimiter);
    params := CollectParams(body, dec);
  }

  /** One `regex.exec` of the global expression on the text not yet scanned
      (the text from `regex.lastIndex` on): the next match and the text after it. */
  method ExecNext(rest: string) returns (m: Option<(Param, string)>)
    ensures m.None? <==> Matches(rest) == []
    ensures m.Some? ==> |m.value.1| < |rest| && Matches(rest) == [m.value.0] + Matches(m.value.1)
  {
    var r := Exec(rest);
    if r.None? {
      return None;
    }
    m := Some((Param(r.value.name, r.value.value), rest[r.value.end..]));
  }

  /** The match loop of `parseUrlFragment` over the selected text: each match is
      stored decoded, and the 52nd match turns the whole result into the error map. */
  method CollectParams(body: string, dec: string -> string) returns (params: map<string, string>)
    ensures params == if |Matches(body)| > ParamLimit + 1 then TooManyParams else ToParams(Matches(body), dec)
  {
    var rest := body;
    ghost var seen := [];
    params := map[];
    var counter := 0;
    while true
      invariant Matches(body) == seen + Matches(rest)
      invariant params == ToParams(seen, dec)
      invariant counter == |seen| <= ParamLimit + 1
      decreases |rest|
    {
      var m := ExecNext(rest);
      if m.None? {
        assert seen + [] == seen;
        return;
      }
      var (p, after) := m.value;
      params := params[dec(p.name) := dec(PlusToSpace(p.value))];
      seen := seen + [p];
      rest := after;
      if counter > ParamLimit {
        return TooManyParams;
      }
      counter := counter + 1;
    }
  }

  // ---------------------------------------------------------------------------
  // Properties of parseUrlFragment
  // ---------------------------------------------------------------------------

  /** A name is in the parameter map iff some match decodes to it, and it holds the
      value of the LAST such match: a later duplicate overwrites an earlier one. */
  lemma {:induction false} ToParamsLastWins(ps: seq<Param>, dec: string -> string, k: string)
    ensures k in ToParams(ps, dec) <==> exists i :: 0 <= i < |ps| && dec(ps[i].name) == k
    ensures forall i :: 0 <= i < |ps| && dec(ps[i].name) == k
                   && (forall j :: i < j < |ps| ==> dec(ps[j].name) != k)
                   ==> k in ToParams(ps, dec) && ToParams(ps, dec)[k] == dec(PlusToSpace(ps[i].value))
  {
    ToParamsKeys(ps, dec, k);
    forall i | 0 <= i < |ps| && dec(ps[i].name) == k && (forall j :: i < j < |ps| ==> dec(ps[j].name) != k)
      ensures k in ToParams(ps, dec) && ToParams(ps, dec)[k] == dec(PlusToSpace(ps[i].value))
    {
      ToParamsLast(ps, dec, k, i);
    }
  }

  /** The keys of the parameter map are the decoded names. */
  lemma {:induction false} ToParamsKeys(ps: seq<Param>, dec: string -> string, k: string)
    ensures k in ToParams(ps, dec) <==> exists i :: 0 <= i < |ps| && dec(ps[i].name) == k
  {
    if ps != [] {
      var init := ps[..|ps| - 1];
      ToParamsKeys(init, dec, k);
      if k in ToParams(init, dec) {
        var i :| 0 <= i < |init| && dec(init[i].name) == k;
        assert ps[i] == init[i];
      }
      if exists i :: 0 <= i < |ps| && dec(ps[i].name) == k {
        var i :| 0 <= i < |ps| && dec(ps[i].name) == k;
        if i < |init| {
          assert init[i] == ps[i];
        }
      }
    }
  }

  /** The last match with a given decoded name supplies that key's value. */
  lemma {:induction false} ToParamsLast(ps: seq<Param>, dec: string -> string, k: string, i: nat)
    requires i < |ps| && dec(ps[i].name) == k
    requires forall j :: i < j < |ps| ==> dec(ps[j].name) != k
    ensures k in ToParams(ps, dec) && ToParams(ps, dec)[k] == dec(PlusToSpace(ps[i].value))
  {
    var n := |ps| - 1;
    if i < n {
      var init := ps[..n];
      assert init[i] == ps[i];
      assert forall j :: i < j < n ==> init[j] == ps[j];
      ToParamsLast(init, dec, k, i);
    }
  }

  /** Swapping two neighbouring matches with different decoded names does not change
      the result: apart from duplicates, the order of the pairs does not matter. */
  lemma {:induction false} ToParamsSwap(a: seq<Param>, p: Param, q: Param, b: seq<Param>, dec: string -> string)
    requires dec(p.name) != dec(q.name)
    ensures ToParams(a + [p, q] + b, dec) == ToParams(a + [q, p] + b, dec)
  {
    if b == [] {
      assert a + [p, q] + b == a + [p, q] && a + [q, p] + b == a + [q, p];
      ToParamsTwoLast(a, p, q, dec);
      ToParamsTwoLast(a, q, p, dec);
    } else {
      var init := b[..|b| - 1];
      ToParamsSwap(a, p, q, init, dec);
      DropLastAfterPair(a, p, q, b);
      DropLastAfterPair(a, q, p, b);
    }
  }

  /** The map of a sequence ending in two matches: both updates in order. */
  lemma ToParamsTwoLast(a: seq<Param>, p: Param, q: Param, dec: string -> string)
    ensures ToParams(a + [p, q], dec)
         == ToParams(a, dec)[dec(p.name) := dec(PlusToSpace(p.value))][dec(q.name) := dec(PlusToSpace(q.value))]
  {
    assert (a + [p, q])[..|a| + 1] == a + [p];
    assert (a + [p])[..|a|] == a;
  }

  lemma DropLastAfterPair(a: seq<Param>, p: Param, q: Param, b: seq<Param>)
    requires b != []
    ensures (a + [p, q] + b)[..|a + [p, q] + b| - 1] == a + [p, q] + b[..|b| - 1]
    ensures (a + [p, q] + b)[|a + [p, q] + b| - 1] == b[|b| - 1]
  {
  }

  /** The parameter cap: at most 51 matches give the decoded map; a 52nd match makes
      the whole result the single `error` entry. */
  lemma ParamCap(value: string, delimiter: char, dec: string -> string)
    ensures var n := |Matches(ResponseBody(value, delimiter))|;
            && (n <= 51 ==> FragmentParams(value, delimiter, dec) == ToParams(Matches(ResponseBody(value, delimiter)), dec))
            && (n >= 52 ==> FragmentParams(value, delimiter, dec) == map["error" := "Response exceeded expected number of parameters"])
  {
  }

  // --- the regular expression over text built by addQueryParam ---

  lemma {:induction false} NameRunConcat(a: string, b: string)
    requires forall i :: 0 <= i < |a| ==> a[i] != '&' && a[i] != '='
    requires b == [] || b[0] == '&' || b[0] == '='
    ensures NameRun(a + b) == |a|
  {
    if a != [] {
      assert (a + b)[1..] == a[1..] + b;
      NameRunConcat(a[1..], b);
    }
  }

  lemma {:induction false} ValueRunConcat(a: string, b: string)
    requires forall i :: 0 <= i < |a| ==> a[i] != '&'
    requires b == [] || b[0] == '&'
    ensures ValueRun(a + b) == |a|
  {
    if a != [] {
      assert (a + b)[1..] == a[1..] + b;
      ValueRunConcat(a[1..], b);
    }
  }

  /** A leading `&` is skipped by the search. */
  lemma MatchesAfterAmpersand(rest: string)
    ensures Matches("&" + rest) == Matches(rest)
  {
    var s := "&" + rest;
    assert s[1..] == rest;
    assert MatchHere(s).None? by {
      assert NameRun(s) == 0;
    }
    match Exec(rest)
    case None =>
    case Some(m) =>
      assert Exec(s) == Some(m.(end := m.end + 1));
      assert s[m.end + 1..] == rest[m.end..];
  }

  /** One `name=value` pair followed by the end of the text or by `&` is the
      leftmost match, with exactly that name and value. */
  lemma ExecPair(n: string, v: string, rest: string)
    requires n != []
    requires forall i :: 0 <= i < |n| ==> n[i] != '&' && n[i] != '='
    requires forall i :: 0 <= i < |v| ==> v[i] != '&'
    requires rest == [] || rest[0] == '&'
    ensures Exec(n + "=" + v + rest).Some?
    ensures Exec(n + "=" + v + rest).value.name == n
    ensures Exec(n + "=" + v + rest).value.value == v
    ensures Exec(n + "=" + v + rest).value.end == |n| + 1 + |v|
  {
    MatchHerePair(n, v, rest);
  }

  lemma MatchHerePair(n: string, v: string, rest: string)
    requires n != []
    requires forall i :: 0 <= i < |n| ==> n[i] != '&' && n[i] != '='
    requires forall i :: 0 <= i < |v| ==> v[i] != '&'
    requires rest == [] || rest[0] == '&'
    ensures MatchHere(n + "=" + v + rest).Some?
    ensures MatchHere(n + "=" + v + rest).value.name == n
    ensures MatchHere(n + "=" + v + rest).value.value == v
    ensures MatchHere(n + "=" + v + rest).value.end == |n| + 1 + |v|
  {
    var after := ['='] + v + rest;
    var s := n + after;
    assert s == n + "=" + v + rest;
    var k := |n| + 1 + |v|;
    NameRunPair(n, after, s);
    ValueRunPair(n, v, rest, s);
    MatchHereAt(s, |n|, k);
  }

  /** The name run of `n` followed by `=` is `n`. */
  lemma NameRunPair(n: string, after: string, s: string)
    requires forall i :: 0 <= i < |n| ==> n[i] != '&' && n[i] != '='
    requires after != [] && after[0] == '='
    requires s == n + after
    ensures |n| < |s| && s[|n|] == '=' && NameRun(s) == |n| && s[..|n|] == n
  {
    NameRunConcat(n, after);
    assert s[..|n|] == n;
  }

  /** After `n=`, the value run of `v` followed by the end or `&` is `v`. */
  lemma ValueRunPair(n: string, v: string, rest: string, s: string)
    requires forall i :: 0 <= i < |v| ==> v[i] != '&'
    requires rest == [] || rest[0] == '&'
    requires s == n + (['='] + v + rest)
    ensures |n| + 1 + |v| <= |s| && ValueRun(s[|n| + 1..]) == |v|
    ensures s[|n| + 1..|n| + 1 + |v|] == v
  {
    var j := |n|;
    assert s[j + 1..] == v + rest;
    ValueRunConcat(v, rest);
    assert s[j + 1..j + 1 + |v|] == (v + rest)[..|v|] == v;
  }

  /** A name run of length `j` ended by `=`, then a value run up to `k`, is the
      match at the start of `s`. */
  lemma MatchHereAt(s: string, j: nat, k: nat)
    requires 0 < j < |s| && s[j] == '=' && NameRun(s) == j
    requires j + 1 <= k <= |s| && ValueRun(s[j + 1..]) == k - j - 1
    ensures MatchHere(s).Some?
    ensures MatchHere(s).value.name == s[..j]
    ensures MatchHere(s).value.value == s[j + 1..k]
    ensures MatchHere(s).value.end == k
  {
    var r := MatchHere(s);
    assert r.Some?;
    assert r.value.end == k;
  }

  /** The regular expression reads one encoded parameter back as it was written. */
  lemma ExecEncodedParam(p: Param, enc: string -> string, rest: string)
    requires SafeEncoder(enc)
    requires p.name != []
    requires rest == [] || rest[0] == '&'
    ensures Exec(EncodedParam(p, enc) + rest).Some?
    ensures Exec(EncodedParam(p, enc) + rest).value.name == enc(p.name)
    ensures Exec(EncodedParam(p, enc) + rest).value.value == enc(p.value)
    ensures Exec(EncodedParam(p, enc) + rest).value.end == |EncodedParam(p, enc)|
  {
    var n, v := enc(p.name), enc(p.value);
    forall i | 0 <= i < |n| ensures n[i] !in Reserved { }
    forall i | 0 <= i < |v| ensures v[i] !in Reserved { }
    ExecPair(n, v, rest);
  }

  /** Each parameter with its name and value encoded. */
  function EncodeAll(ps: seq<Param>, enc: string -> string): (r: seq<Param>)
    ensures |r| == |ps|
    ensures forall i :: 0 <= i < |ps| ==> r[i] == Param(enc(ps[i].name), enc(ps[i].value))
  {
    if ps == [] then [] else [Param(enc(ps[0].name), enc(ps[0].value))] + EncodeAll(ps[1..], enc)
  }

  predicate NamesNonEmpty(ps: seq<Param>) {
    forall i :: 0 <= i < |ps| ==> ps[i].name != []
  }

  lemma {:induction false} MatchesOfQuery(ps: seq<Param>, enc: string -> string)
    requires SafeEncoder(enc)
    requires NamesNonEmpty(ps)
    ensures Matches(Query(ps, enc)) == EncodeAll(ps, enc)
  {
    if |ps| == 1 {
      MatchesOfSingle(ps, enc);
    } else if ps != [] {
      MatchesOfQuery(ps[1..], enc);
      MatchesOfCons(ps, enc);
    }
  }

  /** The query of a single parameter matches as that parameter, encoded. */
  lemma MatchesOfSingle(ps: seq<Param>, enc: string -> string)
    requires SafeEncoder(enc)
    requires |ps| == 1 && ps[0].name != []
    ensures Matches(Query(ps, enc)) == EncodeAll(ps, enc)
  {
    var e := EncodedParam(ps[0], enc);
    MatchesOfPair(ps[0], enc, "");
    assert e + "" == e;
    assert Matches("") == [];
    assert EncodeAll(ps, enc) == [Param(enc(ps[0].name), enc(ps[0].value))] + EncodeAll(ps[1..], enc);
  }

  /** The first pair of a longer query, then the matches of the rest. */
  lemma MatchesOfCons(ps: seq<Param>, enc: string -> string)
    requires SafeEncoder(enc)
    requires |ps| > 1 && ps[0].name != []
    requires Matches(Query(ps[1..], enc)) == EncodeAll(ps[1..], enc)
    ensures Matches(Query(ps, enc)) == EncodeAll(ps, enc)
  {
    var e := EncodedParam(ps[0], enc);
    var tail := "&" + Query(ps[1..], enc);
    MatchesOfPair(ps[0], enc, tail);
    assert Query(ps, enc) == e + tail;
    MatchesAfterAmpersand(Query(ps[1..], enc));
    assert EncodeAll(ps, enc) == [Param(enc(ps[0].name), enc(ps[0].value))] + EncodeAll(ps[1..], enc);
  }

  /** An encoded pair followed by the end or by `&` contributes its encoded name
      and value, and the search goes on after it. */
  lemma MatchesOfPair(p: Param, enc: string -> string, rest: string)
    requires SafeEncoder(enc)
    requires p.name != []
    requires rest == [] || rest[0] == '&'
    ensures Matches(EncodedParam(p, enc) + rest) == [Param(enc(p.name), enc(p.value))] + Matches(rest)
  {
    var e := EncodedParam(p, enc);
    ExecEncodedParam(p, enc, rest);
    assert (e + rest)[|e|..] == rest;
  }

  /** The parameters as a map, a later duplicate name winning. */
  function ParamMap(ps: seq<Param>): map<string, string> {
    if ps == [] then map[]
    else
      var last := ps[|ps| - 1];
      ParamMap(ps[..|ps| - 1])[last.name := last.value]
  }

  lemma {:induction false} DecodeEncoded(ps: seq<Param>, enc: string -> string, dec: string -> string)
    requires UriCodec(enc, dec)
    ensures ToParams(EncodeAll(ps, enc), dec) == ParamMap(ps)
  {
    if ps != [] {
      var init := ps[..|ps| - 1];
      var last := ps[|ps| - 1];
      DecodeEncoded(init, enc, dec);
      var es := EncodeAll(ps, enc);
      assert es[..|es| - 1] == EncodeAll(init, enc);
      var v := enc(last.value);
      forall i | 0 <= i < |v| ensures v[i] != '+' {
        assert v[i] !in Reserved;
      }
      assert PlusToSpace(v) == v;
    }
  }

  lemma LastIndexOfAfter(base: string, c: char, q: string)
    requires c !in q
    ensures LastIndexOf(base + [c] + q, c) == |base|
  {
    var s := base + [c] + q;
    assert s[|base|] == c;
    assert c in s;
    LastOccurrence(base, c, q, LastIndexOf(s, c));
  }

  lemma LastOccurrence(base: string, c: char, q: string, r: int)
    requires c !in q
    requires 0 <= r < |base + [c] + q|
    requires (base + [c] + q)[r] == c && c !in (base + [c] + q)[r + 1..]
    ensures r == |base|
  {
    if r < |base| {
      InSuffix(base + [c] + q, r + 1, |base|);
      assert false;
    }
  }

  lemma InSuffix(s: string, from: int, i: int)
    requires 0 <= from <= i < |s|
    ensures s[i] in s[from..]
  {
    assert s[from..][i - from] == s[i];
  }

  /** Round trip: reading back, with delimiter `?`, the query that successive
      `addQueryParam` calls appended to a url without a query yields exactly the
      appended parameters (a later duplicate name winning), as long as there are at
      most 51 of them and each has a name. */
  lemma QueryRoundTrip(base: string, ps: seq<Param>, enc: string -> string, dec: string -> string)
    requires UriCodec(enc, dec)
    requires '?' !in base
    requires 0 < |ps| <= ParamLimit + 1
    requires NamesNonEmpty(ps)
    ensures FragmentParams(AppendParams(base, ps, enc), '?', dec) == ParamMap(ps)
  {
    BodyOfAppended(base, ps, enc);
    MatchesOfQuery(ps, enc);
    DecodeEncoded(ps, enc, dec);
  }

  /** The text after the `?` that `AppendParams` adds is the query it wrote. */
  lemma BodyOfAppended(base: string, ps: seq<Param>, enc: string -> string)
    requires SafeEncoder(enc)
    requires '?' !in base
    requires ps != []
    ensures ResponseBody(AppendParams(base, ps, enc), '?') == Query(ps, enc)
  {
    AppendParamsIsQuery(base, ps, enc);
    var q := Query(ps, enc);
    QueryIsQuerySafe(ps, enc);
    assert AppendParams(base, ps, enc) == base + ['?'] + q;
    LastIndexOfAfter(base, '?', q);
    assert (base + ['?'] + q)[|base| + 1..] == q;
  }

  // --- the cases of the unit tests ---

  lemma ParseEmptyIsEmpty(delimiter: char, dec: string -> string)
    ensures FragmentParams("", delimiter, dec) == map[]
  {
    assert ResponseBody("", delimiter) == "";
  }

  /** Round trip for the fragment form used by the signin callback: any url,
      then `#`, then encoded parameters, reads back as those parameters. */
  lemma FragmentRoundTrip(base: string, ps: seq<Param>, enc: string -> string, dec: string -> string)
    requires UriCodec(enc, dec)
    requires 0 < |ps| <= ParamLimit + 1
    requires NamesNonEmpty(ps)
    ensures FragmentParams(base + ['#'] + Query(ps, enc), '#', dec) == ParamMap(ps)
  {
    var q := Query(ps, enc);
    QueryIsQuerySafe(ps, enc);
    BodyAfterHash(base, q);
    MatchesOfQuery(ps, enc);
    DecodeEncoded(ps, enc, dec);
  }

  /** Reading the query: the text after the last `?`, up to the first `#`. */
  lemma QueryBodyStopsAtHash(base: string, q: string, frag: string)
    requires '?' !in q && '#' !in q && '?' !in frag
    ensures ResponseBody(base + ['?'] + q + ['#'] + frag, '?') == q
  {
    var rest := q + ['#'] + frag;
    var v := base + ['?'] + rest;
    assert base + ['?'] + q + ['#'] + frag == v;
    NotInJoin(q, frag, '?');
    LastIndexOfAfter(base, '?', rest);
    assert v[|base| + 1..] == rest;
    IndexOfHash(q, frag);
  }

  /** `c` occurs in neither part, nor at the `#` between them. */
  lemma NotInJoin(q: string, frag: string, c: char)
    requires c != '#' && c !in q && c !in frag
    ensures c !in q + ['#'] + frag
  {
    var rest := q + ['#'] + frag;
    forall i | 0 <= i < |rest| ensures rest[i] != c {
      if i < |q| { assert rest[i] == q[i]; }
      else if i > |q| { assert rest[i] == frag[i - |q| - 1]; }
    }
  }

  /** The first `#` of `q + "#" + frag`, when `q` has none, is the one after `q`. */
  lemma IndexOfHash(q: string, frag: string)
    requires '#' !in q
    ensures var rest := q + ['#'] + frag; IndexOf(rest, '#') == |q| && rest[..|q|] == q
  {
    var rest := q + ['#'] + frag;
    assert rest[|q|] == '#';
    assert rest[..|q|] == q;
  }

  lemma BodyAfterHash(base: string, q: string)
    requires '#' !in q
    ensures ResponseBody(base + ['#'] + q, '#') == q
  {
    LastIndexOfAfter(base, '#', q);
    assert (base + ['#'] + q)[|base| + 1..] == q;
  }
}
