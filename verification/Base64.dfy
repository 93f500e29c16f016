/**
 Base64 in the four variants share links come in (sections 3.2, 4 and 5 of RFC 4648) and
 decodeBase64Any (internal/generator/tmplctx/sharelink.go), which tries them one after the other.

 A Go string is a sequence of bytes: here, characters below 256.  The decoder is Go's: line breaks are
 skipped, and unused bits of the last digit are not checked.
 */
module Base64 {
  import opened Options

  datatype Encoding = Encoding(url: bool, padded: bool)

  const STD := Encoding(false, true)
  const RAW_STD := Encoding(false, false)
  const URL := Encoding(true, true)
  const RAW_URL := Encoding(true, false)

  /** In the order decodeBase64Any tries them. */
  const ENCODINGS := [STD, RAW_STD, URL, RAW_URL]

  predicate Bytewise(s: string) {
    forall i :: 0 <= i < |s| ==> s[i] < 256 as char
  }

  // ---------------------------------------------------------------- digits

  function Digit(url: bool, d: nat): char
    requires d < 64
  {
    if d < 26 then 'A' + d as char
    else if d < 52 then 'a' + (d - 26) as char
    else if d < 62 then '0' + (d - 52) as char
    else if d == 62 then (if url then '-' else '+')
    else (if url then '_' else '/')
  }

  function Value(url: bool, c: char): (v: Option<nat>)
    ensures v.Some? ==> v.value < 64
  {
    if 'A' <= c <= 'Z' then Some((c - 'A') as nat)
    else if 'a' <= c <= 'z' then Some((c - 'a') as nat + 26)
    else if '0' <= c <= '9' then Some((c - '0') as nat + 52)
    else if c == (if url then '-' else '+') then Some(62)
    else if c == (if url then '_' else '/') then Some(63)
    else None
  }

  lemma DigitsAreRead(url: bool, d: nat)
    requires d < 64
    ensures Value(url, Digit(url, d)) == Some(d)
  {
  }

  /** The alphabets never disagree about a character both know. */
  lemma AlphabetsAgree(a: bool, b: bool, c: char)
    requires Value(a, c).Some? && Value(b, c).Some?
    ensures Value(a, c) == Value(b, c)
  {
  }

  predicate LinkSafe(c: char) {
    Value(false, c).Some? || Value(true, c).Some? || c == '='
  }

  // ---------------------------------------------------------------- encoding

  function Byte(s: string, i: nat): (b: nat)
    requires Bytewise(s) && i < |s|
    ensures b < 256
  {
    s[i] as nat
  }

  function Pad(e: Encoding, n: nat): string {
    if !e.padded then "" else if n == 1 then "=" else "=="
  }

  function Encode(e: Encoding, s: string): string
    requires Bytewise(s)
    decreases |s|
  {
    if |s| == 0 then ""
    else if |s| == 1 then
      var a := Byte(s, 0);
      [Digit(e.url, a / 4), Digit(e.url, a % 4 * 16)] + Pad(e, 2)
    else if |s| == 2 then
      var a, b := Byte(s, 0), Byte(s, 1);
      [Digit(e.url, a / 4), Digit(e.url, a % 4 * 16 + b / 16), Digit(e.url, b % 16 * 4)] + Pad(e, 1)
    else
      Quad(e, Byte(s, 0), Byte(s, 1), Byte(s, 2)) + Encode(e, s[3..])
  }

  function Quad(e: Encoding, a: nat, b: nat, c: nat): (q: string)
    requires a < 256 && b < 256 && c < 256
    ensures |q| == 4
  {
    [Digit(e.url, a / 4), Digit(e.url, a % 4 * 16 + b / 16), Digit(e.url, b % 16 * 4 + c / 64), Digit(e.url, c % 64)]
  }

  // ---------------------------------------------------------------- decoding

  function StripBreaks(s: string): string {
    if s == [] then []
    else (if s[0] == '\n' || s[0] == '\r' then [] else [s[0]]) + StripBreaks(s[1..])
  }

  predicate Digits(e: Encoding, s: string) {
    forall i :: 0 <= i < |s| ==> Value(e.url, s[i]).Some?
  }

  /** 6 + 2, 4 + 4 and 2 + 6 bits. */
  function First(x: nat, y: nat): char
    requires x < 64 && y < 64
  {
    (x * 4 + y / 16) as char
  }

  function Second(y: nat, z: nat): char
    requires y < 64 && z < 64
  {
    (y % 16 * 16 + z / 4) as char
  }

  function Third(z: nat, w: nat): char
    requires z < 64 && w < 64
  {
    (z % 4 * 64 + w) as char
  }

  function DecodeClean(e: Encoding, s: string): Option<string>
    decreases |s|
  {
    if s == [] then Some([])
    else if 4 <= |s| && Digits(e, s[..4]) then
      var x, y := Value(e.url, s[0]).value, Value(e.url, s[1]).value;
      var z, w := Value(e.url, s[2]).value, Value(e.url, s[3]).value;
      var rest := DecodeClean(e, s[4..]);
      if rest == None then None else Some([First(x, y), Second(y, z), Third(z, w)] + rest.value)
    else DecodeTail(e, if e.padded then Unpad(s) else s)
  }

  /** The two or three digits before the padding of a last group, or nothing usable. */
  function Unpad(s: string): string {
    if |s| != 4 || s[3] != '=' then "" else if s[2] == '=' then s[..2] else s[..3]
  }

  function DecodeTail(e: Encoding, s: string): Option<string> {
    if !Digits(e, s) then None
    else if |s| == 2 then
      Some([First(Value(e.url, s[0]).value, Value(e.url, s[1]).value)])
    else if |s| == 3 then
      var x, y, z := Value(e.url, s[0]).value, Value(e.url, s[1]).value, Value(e.url, s[2]).value;
      Some([First(x, y), Second(y, z)])
    else None
  }

  function Decode(e: Encoding, s: string): Option<string> {
    DecodeClean(e, StripBreaks(s))
  }

  // ---------------------------------------------------------------- each variant inverts itself

  lemma BitsReturn(a: nat, b: nat, c: nat)
    requires a < 256 && b < 256 && c < 256
    ensures First(a / 4, a % 4 * 16 + b / 16) == a as char
    ensures First(a / 4, a % 4 * 16) == a as char
    ensures Second(a % 4 * 16 + b / 16, b % 16 * 4 + c / 64) == b as char
    ensures Second(a % 4 * 16 + b / 16, b % 16 * 4) == b as char
    ensures Third(b % 16 * 4 + c / 64, c % 64) == c as char
  {
  }

  lemma {:induction false} DecodeCleanInverts(e: Encoding, s: string)
    requires Bytewise(s)
    ensures DecodeClean(e, Encode(e, s)) == Some(s)
    decreases |s|
  {
    if |s| == 1 {
      OneByteLeft(e, Byte(s, 0));
      assert s == [s[0]];
    } else if |s| == 2 {
      TwoBytesLeft(e, Byte(s, 0), Byte(s, 1));
      assert s == [s[0], s[1]];
    } else if 3 <= |s| {
      DecodeCleanInverts(e, s[3..]);
      ThreeMoreBytes(e, s);
    }
  }

  lemma ThreeMoreBytes(e: Encoding, s: string)
    requires Bytewise(s) && 3 <= |s| && DecodeClean(e, Encode(e, s[3..])) == Some(s[3..])
    ensures DecodeClean(e, Encode(e, s)) == Some(s)
  {
    FullGroup(e, Byte(s, 0), Byte(s, 1), Byte(s, 2), Encode(e, s[3..]));
    assert Encode(e, s) == Quad(e, Byte(s, 0), Byte(s, 1), Byte(s, 2)) + Encode(e, s[3..]);
    assert [s[0], s[1], s[2]] + s[3..] == s;
  }

  lemma OneByteLeft(e: Encoding, a: nat)
    requires a < 256
    ensures DecodeClean(e, [Digit(e.url, a / 4), Digit(e.url, a % 4 * 16)] + Pad(e, 2)) == Some([a as char])
  {
    DigitsAreRead(e.url, a / 4);
    DigitsAreRead(e.url, a % 4 * 16);
    BitsReturn(a, 0, 0);
    LastGroup(e, [Digit(e.url, a / 4), Digit(e.url, a % 4 * 16)], 2);
  }

  lemma TwoBytesLeft(e: Encoding, a: nat, b: nat)
    requires a < 256 && b < 256
    ensures var digits := [Digit(e.url, a / 4), Digit(e.url, a % 4 * 16 + b / 16), Digit(e.url, b % 16 * 4)];
      DecodeClean(e, digits + Pad(e, 1)) == Some([a as char, b as char])
  {
    DigitsAreRead(e.url, a / 4);
    DigitsAreRead(e.url, a % 4 * 16 + b / 16);
    DigitsAreRead(e.url, b % 16 * 4);
    BitsReturn(a, b, 0);
    LastGroup(e, [Digit(e.url, a / 4), Digit(e.url, a % 4 * 16 + b / 16), Digit(e.url, b % 16 * 4)], 1);
  }

  lemma FullGroup(e: Encoding, a: nat, b: nat, c: nat, rest: string)
    requires a < 256 && b < 256 && c < 256 && DecodeClean(e, rest).Some?
    ensures DecodeClean(e, Quad(e, a, b, c) + rest)
      == Some([a as char, b as char, c as char] + DecodeClean(e, rest).value)
  {
    QuadIsRead(e, a, b, c);
    BitsReturn(a, b, c);
    GroupThenRest(e, Quad(e, a, b, c), rest);
  }

  lemma QuadIsRead(e: Encoding, a: nat, b: nat, c: nat)
    requires a < 256 && b < 256 && c < 256
    ensures var q := Quad(e, a, b, c);
      && Digits(e, q) && Value(e.url, q[0]) == Some(a / 4) && Value(e.url, q[1]) == Some(a % 4 * 16 + b / 16)
      && Value(e.url, q[2]) == Some(b % 16 * 4 + c / 64) && Value(e.url, q[3]) == Some(c % 64)
  {
    DigitsAreRead(e.url, a / 4);
    DigitsAreRead(e.url, a % 4 * 16 + b / 16);
    DigitsAreRead(e.url, b % 16 * 4 + c / 64);
    DigitsAreRead(e.url, c % 64);
  }

  lemma GroupThenRest(e: Encoding, q: string, rest: string)
    requires |q| == 4 && Digits(e, q) && DecodeClean(e, rest).Some?
    ensures var x, y := Value(e.url, q[0]).value, Value(e.url, q[1]).value;
      var z, w := Value(e.url, q[2]).value, Value(e.url, q[3]).value;
      DecodeClean(e, q + rest) == Some([First(x, y), Second(y, z), Third(z, w)] + DecodeClean(e, rest).value)
  {
    var t := q + rest;
    assert t[..4] == q && t[4..] == rest;
    assert t[0] == q[0] && t[1] == q[1] && t[2] == q[2] && t[3] == q[3];
  }

  /** A short last group decodes as its digits do. */
  lemma LastGroup(e: Encoding, digits: string, pad: nat)
    requires 1 <= pad <= 2 && |digits| == 4 - pad && Digits(e, digits)
    ensures DecodeClean(e, digits + Pad(e, pad)) == DecodeTail(e, digits)
  {
    var t := digits + Pad(e, pad);
    if e.padded {
      assert Value(e.url, t[3]) == None;
      assert Unpad(t) == digits by {
        if pad == 1 { assert t[2] == digits[2]; }
      }
      assert !Digits(e, t[..4]);
    } else {
      assert t == digits;
    }
  }

  /** No variant emits a line break, or anything a share link gives a meaning to. */
  lemma {:induction false} EncodeIsLinkSafe(e: Encoding, s: string)
    requires Bytewise(s)
    ensures forall i :: 0 <= i < |Encode(e, s)| ==> LinkSafe(Encode(e, s)[i])
    decreases |s|
  {
    forall d: nat | d < 64 ensures LinkSafe(Digit(e.url, d)) {
      DigitsAreRead(e.url, d);
    }
    if |s| < 3 {
    } else {
      EncodeIsLinkSafe(e, s[3..]);
    }
  }

  lemma {:induction false} NothingToStrip(s: string)
    requires forall i :: 0 <= i < |s| ==> LinkSafe(s[i])
    ensures StripBreaks(s) == s
  {
    if s == [] {
    } else {
      NothingToStrip(s[1..]);
    }
  }

  lemma DecodeInverts(e: Encoding, s: string)
    requires Bytewise(s)
    ensures Decode(e, Encode(e, s)) == Some(s)
  {
    EncodeIsLinkSafe(e, s);
    NothingToStrip(Encode(e, s));
    DecodeCleanInverts(e, s);
  }

  // ---------------------------------------------------------------- what a variant accepts

  /** The digits are the alphabets of RFC 4648 (tables 1 and 2). */
  lemma DigitsAreTheAlphabet(url: bool, d: nat)
    requires d < 64
    ensures d < 26 ==> Digit(url, d) == "ABCDEFGHIJKLMNOPQRSTUVWXYZ"[d]
    ensures 26 <= d < 52 ==> Digit(url, d) == "abcdefghijklmnopqrstuvwxyz"[d - 26]
    ensures 52 <= d < 62 ==> Digit(url, d) == "0123456789"[d - 52]
    ensures 62 <= d ==> Digit(url, d) == (if url then "-_" else "+/")[d - 62]
  {
  }

  /** And each is read as its place in the alphabet. */
  lemma ValueIsThePlace(url: bool, c: char, d: nat)
    requires d < 64
    ensures Value(url, c) == Some(d) <==> c == Digit(url, d)
  {
  }

  /** Test vectors of section 10 of RFC 4648. */
  lemma TestVectors()
    ensures Encode(STD, "") == "" && Encode(STD, "f") == "Zg==" && Encode(STD, "fo") == "Zm8="
    ensures Encode(STD, "foo") == "Zm9v"
  {
    var foo := "foo";
    assert foo[3..] == "";
  }

  /** Line breaks mean nothing, wherever they are. */
  lemma {:induction false} BreaksMeanNothing(a: string, c: char, b: string)
    requires c == '\n' || c == '\r'
    ensures StripBreaks(a + [c] + b) == StripBreaks(a + b)
  {
    if a == [] {
      assert (a + [c] + b)[1..] == b && a + b == b;
    } else {
      BreaksMeanNothing(a[1..], c, b);
      assert (a + [c] + b)[1..] == a[1..] + [c] + b && (a + b)[1..] == a[1..] + b;
    }
  }

  /** What is left without them. */
  lemma {:induction false} NoBreaksLeft(s: string)
    ensures '\n' !in StripBreaks(s) && '\r' !in StripBreaks(s)
    ensures '\n' !in s && '\r' !in s ==> StripBreaks(s) == s
  {
    if s == [] {
    } else {
      NoBreaksLeft(s[1..]);
      assert s == [s[0]] + s[1..];
    }
  }

  /** Digits of the alphabet throughout, but for up to two '=' at the end of a padded text of full groups; an
      unpadded text does not end in a single digit of a group. */
  predicate WellFormed(e: Encoding, s: string) {
    if e.padded then
      |s| % 4 == 0 && (Digits(e, s) || (4 <= |s| && s[|s| - 1] == '=' &&
        (Digits(e, s[..|s| - 1]) || (s[|s| - 2] == '=' && Digits(e, s[..|s| - 2])))))
    else |s| % 4 != 1 && Digits(e, s)
  }

  lemma DigitsAppend(e: Encoding, a: string, b: string)
    ensures Digits(e, a + b) <==> Digits(e, a) && Digits(e, b)
  {
    var s := a + b;
    assert forall i :: 0 <= i < |a| ==> s[i] == a[i];
    assert forall i :: 0 <= i < |b| ==> s[|a| + i] == b[i];
  }

  /** Behind a full group of digits, what counts is the rest. */
  lemma WellFormedRest(e: Encoding, s: string)
    requires 4 <= |s| && Digits(e, s[..4])
    ensures WellFormed(e, s) <==> WellFormed(e, s[4..])
  {
    var q, rest := s[..4], s[4..];
    assert s == q + rest;
    DigitsAppend(e, q, rest);
    if rest == [] {
    } else {
      assert s[..|s| - 1] == q + rest[..|rest| - 1];
      DigitsAppend(e, q, rest[..|rest| - 1]);
      if 2 <= |rest| {
        assert s[..|s| - 2] == q + rest[..|rest| - 2];
        DigitsAppend(e, q, rest[..|rest| - 2]);
      }
    }
  }

  lemma {:induction false} DecodesIffWellFormed(e: Encoding, s: string)
    ensures DecodeClean(e, s).Some? <==> WellFormed(e, s)
    decreases |s|
  {
    if s == [] {
    } else if 4 <= |s| && Digits(e, s[..4]) {
      WellFormedRest(e, s);
      DecodesIffWellFormed(e, s[4..]);
    } else {
      LastGroupIff(e, s);
    }
  }

  lemma LastGroupIff(e: Encoding, s: string)
    requires s != [] && !(4 <= |s| && Digits(e, s[..4]))
    ensures DecodeTail(e, if e.padded then Unpad(s) else s).Some? <==> WellFormed(e, s)
  {
    assert Value(e.url, '=') == None;
    if 4 <= |s| {
      var i :| 0 <= i < 4 && Value(e.url, s[..4][i]) == None;
      assert s[i] == s[..4][i];
      assert !Digits(e, s);
      if 5 <= |s| {
        assert i < |s| - 1 ==> s[..|s| - 1][i] == s[i];
        assert i < |s| - 2 ==> s[..|s| - 2][i] == s[i];
      }
    }
  }

  /** Which texts a variant decodes. */
  lemma DecodesIff(e: Encoding, s: string)
    ensures Decode(e, s).Some? <==> WellFormed(e, StripBreaks(s))
  {
    DecodesIffWellFormed(e, StripBreaks(s));
  }

  // ---------------------------------------------------------------- whichever variant is tried first

  /** On any input at all, variants that both accept it decode it to the same bytes. */
  lemma {:induction false} VariantsAgree(a: Encoding, b: Encoding, s: string)
    requires DecodeClean(a, s).Some? && DecodeClean(b, s).Some?
    ensures DecodeClean(a, s) == DecodeClean(b, s)
    decreases |s|
  {
    if s == [] {
    } else {
      if 4 <= |s| && Digits(a, s[..4]) && Digits(b, s[..4]) {
        forall i | 0 <= i < 4 ensures Value(a.url, s[i]) == Value(b.url, s[i]) {
          assert s[..4][i] == s[i];
          AlphabetsAgree(a.url, b.url, s[i]);
        }
        VariantsAgree(a, b, s[4..]);
      } else {
        GroupsAlike(a, b, s);
        GroupsAlike(b, a, s);
        TailsAgree(a, b, s);
      }
    }
  }

  /** If a reads a full group of digits and b does not, b fails: it would need padding or a short rest. */
  lemma GroupsAlike(a: Encoding, b: Encoding, s: string)
    requires s != [] && DecodeClean(b, s).Some?
    ensures 4 <= |s| && Digits(a, s[..4]) ==> Digits(b, s[..4])
  {
    assert Value(a.url, '=') == None;
    assert 4 <= |s| ==> s[..4][3] == s[3];
  }

  lemma TailsAgree(a: Encoding, b: Encoding, s: string)
    requires s != [] && DecodeClean(a, s).Some? && DecodeClean(b, s).Some?
    requires !(4 <= |s| && Digits(a, s[..4])) && !(4 <= |s| && Digits(b, s[..4]))
    ensures DecodeClean(a, s) == DecodeClean(b, s)
  {
    assert a.padded == b.padded;
    var t := if a.padded then Unpad(s) else s;
    forall i | 0 <= i < |t| ensures Value(a.url, t[i]) == Value(b.url, t[i]) {
      AlphabetsAgree(a.url, b.url, t[i]);
    }
  }

  ghost predicate DecodedBySome(s: string, bytes: string) {
    exists k :: 0 <= k < |ENCODINGS| && Decode(ENCODINGS[k], s) == Some(bytes)
  }

  /** The bytes some variant decodes s to; by VariantsAgree there is at most one answer. */
  ghost function DecodeAny(s: string): Option<string> {
    if bytes :| DecodedBySome(s, bytes) then Some(bytes) else None
  }

  lemma DecodeAnyIs(s: string, k: nat)
    requires k < |ENCODINGS| && Decode(ENCODINGS[k], s).Some?
    ensures DecodeAny(s) == Decode(ENCODINGS[k], s)
  {
    assert DecodedBySome(s, Decode(ENCODINGS[k], s).value);
    var bytes := DecodeAny(s).value;
    var n :| 0 <= n < |ENCODINGS| && Decode(ENCODINGS[n], s) == Some(bytes);
    VariantsAgree(ENCODINGS[k], ENCODINGS[n], StripBreaks(s));
  }

  /** decodeBase64Any: the first variant that accepts the input. */
  method DecodeBase64Any(s: string) returns (r: Option<string>)
    ensures r == DecodeAny(s)
  {
    for k := 0 to |ENCODINGS|
      invariant forall n :: 0 <= n < k ==> Decode(ENCODINGS[n], s) == None
    {
      r := Decode(ENCODINGS[k], s);
      if r.Some? {
        DecodeAnyIs(s, k);
        return;
      }
    }
    r := None;
  }

  /** Whatever bytes are encoded in whichever of the four variants come back, whichever is tried first. */
  lemma DecodeAnyInverts(e: Encoding, s: string)
    requires Bytewise(s)
    ensures DecodeAny(Encode(e, s)) == Some(s)
  {
    DecodeInverts(e, s);
    var k := if e == STD then 0 else if e == RAW_STD then 1 else if e == URL then 2 else 3;
    assert ENCODINGS[k] == e;
    DecodeAnyIs(Encode(e, s), k);
  }
}
