/**
 The parameters of an ss:// link: what url.ParseQuery makes of any query text, and links printed with a list of
 parameters that come back as the same parameters.
 */
module Queries {
  import opened Options
  import opened Base64
  import opened ShareLink
  import opened LinkParts
  import opened Text

  // ---------------------------------------------------------------- which texts are queries

  /** A query is refused as a whole exactly for a ';' or a bad escape anywhere in it. */
  lemma {:induction false} ParseQueryFailsIff(s: string)
    ensures ParseQuery(s) == None <==> ';' in s || exists i :: BadEscape(s, i)
    decreases |s|
  {
    if s == [] {
    } else {
      var n := IndexOf(s, '&');
      if n == |s| {
        assert s[..n] == s;
        SegmentFailsIff(s);
      } else {
        var seg, rest := s[..n], s[n + 1..];
        assert s == seg + "&" + rest;
        ParseQueryFailsIff(rest);
        SegmentFailsIff(seg);
        FailuresAppend(seg, "&", rest);
      }
    }
  }

  /** Whether one segment is refused. */
  predicate Refused(seg: string) {
    var (k, v) := match Cut(seg, '=') case Some(p) => p case None => (seg, "");
    ';' in seg || Unescape(k) == None || Unescape(v) == None
  }

  lemma SegmentFailsIff(seg: string)
    ensures Refused(seg) <==> ';' in seg || exists i :: BadEscape(seg, i)
  {
    var n := IndexOf(seg, '=');
    if n == |seg| {
      UnescapeFailsIff(seg);
    } else {
      var k, v := seg[..n], seg[n + 1..];
      assert seg == k + "=" + v;
      UnescapeFailsIff(k);
      UnescapeFailsIff(v);
      FailuresAppend(k, "=", v);
    }
  }

  /** No escape runs across a delimiter. */
  lemma FailuresAppend(a: string, delimiter: string, b: string)
    requires delimiter == "&" || delimiter == "="
    ensures (exists i :: BadEscape(a + delimiter + b, i)) <==>
      (exists i :: BadEscape(a, i)) || (exists i :: BadEscape(b, i))
    ensures ';' in a + delimiter + b <==> ';' in a || ';' in b
  {
    var s := a + delimiter + b;
    assert s[|a|] == delimiter[0] && s[|a| + 1..] == b && s[..|a|] == a;
    if i :| BadEscape(s, i) {
      if i < |a| {
        assert BadEscape(a, i);
      } else {
        assert BadEscape(b, i - |a| - 1);
      }
    }
    if i :| BadEscape(a, i) {
      assert BadEscape(s, i);
    }
    if i :| BadEscape(b, i) {
      assert BadEscape(s, i + |a| + 1);
    }
  }

  /** What one segment, between two '&', adds to the parameters behind it: nothing if it is empty, else one, which
      goes before the same one further on. */
  function Added(seg: string, m: map<string, string>): Option<map<string, string>> {
    if seg == "" then Some(m)
    else if Refused(seg) then None
    else
      var (k, v) := match Cut(seg, '=') case Some(p) => p case None => (seg, "");
      Some(m[Unescape(k).value := Unescape(v).value])
  }

  lemma FirstSegment(seg: string, rest: string, m: map<string, string>)
    requires '&' !in seg && ParseQuery(rest) == Some(m)
    ensures ParseQuery(seg + "&" + rest) == Added(seg, m)
  {
    var s := seg + "&" + rest;
    assert s == seg + ['&'] + rest;
    IndexAt(seg, '&', rest);
    assert s[..|seg|] == seg && s[|seg| + 1..] == rest;
  }

  lemma LastSegment(seg: string)
    requires '&' !in seg
    ensures ParseQuery(seg) == Added(seg, map[])
  {
    assert seg[..|seg|] == seg;
  }

  lemma PairAdds(k: string, v: string, key: string, value: string, m: map<string, string>)
    requires '=' !in k && ';' !in k && Unescape(k) == Some(key) && ';' !in v && Unescape(v) == Some(value)
    ensures Added(k + "=" + v, m) == Some(m[key := value])
    ensures k != "" ==> Added(k, m) == Some(m[key := ""])
  {
    assert k + "=" + v == k + ['='] + v;
    CutAt(k, '=', v);
    CutNothing(k, '=');
  }

  /** A first parameter, with or without a value, goes before the same parameter further on; between two '&' there
      may be nothing. */
  lemma ParseQueryStep(k: string, v: string, key: string, value: string, rest: string, m: map<string, string>)
    requires '&' !in k && '=' !in k && ';' !in k && Unescape(k) == Some(key)
    requires '&' !in v && ';' !in v && Unescape(v) == Some(value) && ParseQuery(rest) == Some(m)
    ensures ParseQuery(k + "=" + v + "&" + rest) == Some(m[key := value])
    ensures ParseQuery(k + "=" + v) == Some(map[key := value])
    ensures k != "" ==> ParseQuery(k + "&" + rest) == Some(m[key := ""]) && ParseQuery(k) == Some(map[key := ""])
    ensures ParseQuery("" + "&" + rest) == Some(m) && ParseQuery("") == Some(map[])
  {
    PairAdds(k, v, key, value, m);
    PairAdds(k, v, key, value, map[]);
    FirstSegment(k + "=" + v, rest, m);
    LastSegment(k + "=" + v);
    FirstSegment(k, rest, m);
    LastSegment(k);
    FirstSegment("", rest, m);
  }

  // ---------------------------------------------------------------- printed parameters

  /** A parameter with its value, or a bare key. */
  datatype Param = Param(key: string, value: Option<string>)

  predicate Clean(p: Param) {
    Bytewise(p.key) && (p.value.Some? ==> Bytewise(p.value.value))
  }

  predicate AllClean(ps: seq<Param>) {
    forall i :: 0 <= i < |ps| ==> Clean(ps[i])
  }

  /** key=value, percent-encoded. */
  function PrintParam(p: Param): string
    requires Clean(p)
  {
    Escape(p.key) + (if p.value.Some? then "=" + Escape(p.value.value) else "")
  }

  /** Joined by '&'. */
  function PrintParams(ps: seq<Param>): string
    requires AllClean(ps)
  {
    if ps == [] then ""
    else if |ps| == 1 then PrintParam(ps[0])
    else PrintParam(ps[0]) + "&" + PrintParams(ps[1..])
  }

  /** Nothing at all is printed for a bare empty key. */
  predicate Shows(p: Param) {
    p.key != "" || p.value.Some?
  }

  function ValueOf(p: Param): string {
    if p.value.Some? then p.value.value else ""
  }

  /** Each key with its first value. */
  function FirstValues(ps: seq<Param>): map<string, string> {
    if ps == [] then map[]
    else if Shows(ps[0]) then FirstValues(ps[1..])[ps[0].key := ValueOf(ps[0])]
    else FirstValues(ps[1..])
  }

  /** Parameter i is the first that shows with its key. */
  predicate IsFirst(ps: seq<Param>, i: int) {
    0 <= i < |ps| && Shows(ps[i]) && forall j :: 0 <= j < i ==> ps[j].key != ps[i].key || !Shows(ps[j])
  }

  /** Every key that shows, with the value of its first parameter, and no other key. */
  lemma {:induction false} FirstValuesAre(ps: seq<Param>, key: string)
    ensures key in FirstValues(ps) <==> exists i :: IsFirst(ps, i) && ps[i].key == key
    ensures forall i :: IsFirst(ps, i) && ps[i].key == key && key in FirstValues(ps) ==>
      FirstValues(ps)[key] == if ps[i].value.Some? then ps[i].value.value else ""
  {
    if ps == [] {
    } else {
      FirstValuesAre(ps[1..], key);
      if Shows(ps[0]) && ps[0].key == key {
        assert IsFirst(ps, 0);
      } else {
        forall i | 1 <= i < |ps| && ps[i].key == key ensures IsFirst(ps, i) <==> IsFirst(ps[1..], i - 1) {
          assert forall j :: 1 <= j < i ==> ps[j] == ps[1..][j - 1];
          assert forall j :: 0 <= j < i - 1 ==> ps[1..][j] == ps[j + 1];
        }
        if i :| IsFirst(ps[1..], i) && ps[1..][i].key == key {
          assert IsFirst(ps, i + 1);
        }
      }
    }
  }

  lemma EscapedHasNo(s: string)
    requires Bytewise(s)
    ensures '&' !in Escape(s) && '=' !in Escape(s) && ';' !in Escape(s) && '#' !in Escape(s)
    ensures Escape(s) == "" <==> s == ""
    ensures Unescape(Escape(s)) == Some(s)
  {
    EscapedIsPlain(s, '&');
    EscapedIsPlain(s, '=');
    EscapedIsPlain(s, ';');
    EscapedIsPlain(s, '#');
    UnescapeInverts(s);
  }

  /** One printed parameter is one segment. */
  lemma PrintedParamAdds(p: Param, m: map<string, string>)
    requires Clean(p)
    ensures '&' !in PrintParam(p)
    ensures Added(PrintParam(p), m) == Some(if Shows(p) then m[p.key := ValueOf(p)] else m)
  {
    EscapedHasNo(p.key);
    if p.value.Some? {
      EscapedHasNo(p.value.value);
      PairAdds(Escape(p.key), Escape(p.value.value), p.key, p.value.value, m);
      SegmentHasNo(Escape(p.key), Escape(p.value.value));
    } else {
      PairAdds(Escape(p.key), "", p.key, "", m);
      assert Escape(p.key) + "" == Escape(p.key);
    }
  }

  lemma SegmentHasNo(k: string, v: string)
    requires '&' !in k && '&' !in v
    ensures '&' !in k + "=" + v && k + ("=" + v) == k + "=" + v
  {
  }

  /** Printed parameters are read back, each key with its first value. */
  lemma {:induction false} PrintedParamsReturn(ps: seq<Param>)
    requires AllClean(ps)
    ensures ParseQuery(PrintParams(ps)) == Some(FirstValues(ps))
  {
    if ps == [] {
    } else {
      PrintedParamsReturn(ps[1..]);
      PrintedParamAdds(ps[0], FirstValues(ps[1..]));
      if |ps| == 1 {
        LastSegment(PrintParam(ps[0]));
      } else {
        FirstSegment(PrintParam(ps[0]), PrintParams(ps[1..]), FirstValues(ps[1..]));
      }
    }
  }

  lemma {:induction false} PrintedHasNoHash(ps: seq<Param>)
    requires AllClean(ps)
    ensures '#' !in PrintParams(ps)
  {
    if ps == [] {
    } else {
      EscapedHasNo(ps[0].key);
      EscapedHasNo(ValueOf(ps[0]));
      PrintedHasNoHash(ps[1..]);
    }
  }

  // ---------------------------------------------------------------- links with parameters

  /** What such a link says. */
  function Holding(a: Account, ps: seq<Param>, remark: Option<string>): Context {
    Context("shadowsocks", a.cipher, a.password, a.host, a.port, RemarkOr(remark), "tcp", "none", FirstValues(ps))
  }

  lemma ExpectedHolds(a: Account, ps: seq<Param>, remark: Option<string>)
    requires AllClean(ps)
    ensures Expected(a, Some(PrintParams(ps)), remark) == Holding(a, ps, remark)
  {
    PrintedParamsReturn(ps);
  }

  /** SIP002 links in any of the four encodings parse back, parameters included. */
  lemma Sip002ParamsReturn(e: Encoding, a: Account, ps: seq<Param>, remark: Option<string>)
    requires Printable(a) && AllClean(ps) && (remark.Some? ==> Bytewise(remark.value))
    ensures Parsed(PrintSip002(e, a, Some(PrintParams(ps)), remark)) == Ok(Holding(a, ps, remark))
  {
    PrintedHasNoHash(ps);
    Sip002RoundTrip(e, a, Some(PrintParams(ps)), remark);
    ExpectedHolds(a, ps, remark);
  }

  /** So do links with plain user info. */
  lemma PlainParamsReturn(a: Account, ps: seq<Param>, remark: Option<string>)
    requires Printable(a) && AllClean(ps) && (remark.Some? ==> Bytewise(remark.value))
    ensures Parsed(PrintPlain(a, Some(PrintParams(ps)), remark)) == Ok(Holding(a, ps, remark))
  {
    PrintedHasNoHash(ps);
    PlainRoundTrip(a, Some(PrintParams(ps)), remark);
    ExpectedHolds(a, ps, remark);
  }

  /** A ';' or a bad escape anywhere in the query, and the link has no parameters; it parses all the same. */
  lemma BadQueryVoidsAll(e: Encoding, a: Account, query: string, remark: Option<string>)
    requires Printable(a) && (remark.Some? ==> Bytewise(remark.value)) && '#' !in query
    requires ';' in query || exists i :: BadEscape(query, i)
    ensures Parsed(PrintSip002(e, a, Some(query), remark)) == Ok(Holding(a, [], remark))
  {
    ParseQueryFailsIff(query);
    Sip002RoundTrip(e, a, Some(query), remark);
  }
}
