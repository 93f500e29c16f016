/** Digits, as the links, the colors and the YAML scalars all use them. */
module Text {
  import opened Options

  function HexDigit(c: char): (d: Option<nat>)
    ensures d.Some? ==> d.value < 16
  {
    if '0' <= c <= '9' then Some((c - '0') as nat)
    else if 'a' <= c <= 'f' then Some((c - 'a') as nat + 10)
    else if 'A' <= c <= 'F' then Some((c - 'A') as nat + 10)
    else None
  }

  function Decimal(n: nat): (s: string)
    ensures s != [] && forall i :: 0 <= i < |s| ==> '0' <= s[i] <= '9'
  {
    if n < 10 then ['0' + n as char] else Decimal(n / 10) + ['0' + (n % 10) as char]
  }

  function Digits(s: string): Option<nat> {
    if s == [] then Some(0)
    else
      var c, high := s[|s| - 1], Digits(s[..|s| - 1]);
      if high.Some? && '0' <= c <= '9' then Some(10 * high.value + (c - '0') as nat) else None
  }

  const INT64_MAX := 0x7fff_ffff_ffff_ffff

  /** strconv.Itoa. */
  function Itoa(n: int): string {
    if n < 0 then "-" + Decimal(-n) else Decimal(n)
  }

  /** strconv.Atoi for 64-bit ints. */
  function Atoi(s: string): Option<int> {
    var negative := s != [] && s[0] == '-';
    var digits := if s != [] && (s[0] == '-' || s[0] == '+') then s[1..] else s;
    if digits == [] then None
    else match Digits(digits)
      case None => None
      case Some(n) =>
        var v := if negative then -(n as int) else n as int;
        if -INT64_MAX - 1 <= v <= INT64_MAX then Some(v) else None
  }

  lemma {:induction false} DigitsOfDecimal(n: nat)
    ensures Digits(Decimal(n)) == Some(n)
  {
    if 10 <= n {
      DigitsOfDecimal(n / 10);
      assert Decimal(n)[..|Decimal(n)| - 1] == Decimal(n / 10);
    } else {
      assert Decimal(n)[..0] == [];
    }
  }

  // ---------------------------------------------------------------- what the digits are

  /** Hexadecimal digits in either case. */
  lemma HexDigitIs(c: char, d: nat)
    requires d < 16
    ensures HexDigit(c) == Some(d) <==> c == "0123456789abcdef"[d] || c == "0123456789ABCDEF"[d]
  {
  }

  /** A decimal number is written digit by digit, and without a leading zero. */
  lemma DecimalIs(n: nat, d: nat)
    requires d < 10
    ensures Decimal(d) == ["0123456789"[d]]
    ensures n != 0 ==> Decimal(10 * n + d) == Decimal(n) + ["0123456789"[d]]
  {
    LastDigit(n, d);
    if n != 0 {
      assert 10 <= 10 * n + d;
    }
  }

  lemma LastDigit(n: nat, d: nat)
    requires d < 10
    ensures (10 * n + d) / 10 == n && (10 * n + d) % 10 == d
  {
  }

  function Zeros(z: nat): string {
    seq(z, _ => '0')
  }

  lemma {:induction false} DigitsOfZeros(z: nat)
    ensures Digits(Zeros(z)) == Some(0)
  {
    if z == 0 {
    } else {
      DigitsOfZeros(z - 1);
      assert Zeros(z)[..z - 1] == Zeros(z - 1);
    }
  }

  lemma {:induction false} DigitsOfPadded(z: nat, n: nat)
    ensures Digits(Zeros(z) + Decimal(n)) == Some(n)
  {
    var s := Zeros(z) + Decimal(n);
    if n < 10 {
      DigitsOfZeros(z);
      assert s[..|s| - 1] == Zeros(z);
    } else {
      DigitsOfPadded(z, n / 10);
      assert s[..|s| - 1] == Zeros(z) + Decimal(n / 10);
    }
  }

  /** Digits spell n exactly if they are its decimal number behind some zeros. */
  lemma {:induction false} DigitsSpell(s: string, n: nat)
    requires s != []
    ensures Digits(s) == Some(n) <==> exists z: nat :: s == Zeros(z) + Decimal(n)
  {
    if z: nat :| s == Zeros(z) + Decimal(n) {
      DigitsOfPadded(z, n);
    }
    if Digits(s) == Some(n) {
      var z := Spelled(s, n);
    }
  }

  lemma {:induction false} Spelled(s: string, n: nat) returns (z: nat)
    requires s != [] && Digits(s) == Some(n)
    ensures s == Zeros(z) + Decimal(n)
  {
    var init, c := s[..|s| - 1], s[|s| - 1];
    var h, d := Digits(init).value, (c - '0') as nat;
    assert s == init + [c];
    LastDigit(h, d);
    if init == [] {
      z := 0;
    } else {
      z := Spelled(init, h);
      if h == 0 {
        z := z + 1;
        assert init == Zeros(z);
      }
    }
  }

  /** strconv.Atoi reads v from exactly these strings, for a v of 64 bits: a sign or none ("-" for a negative number,
      and for zero any), zeros, and the decimal number. */
  ghost predicate Spells(s: string, v: int) {
    exists sign: string, z: nat :: SpelledWith(s, v, sign, z)
  }

  predicate SpelledWith(s: string, v: int, sign: string, z: nat) {
    && s == sign + (Zeros(z) + Decimal(if v < 0 then -v else v))
    && (sign == "-" || sign == "+" || sign == "")
    && (v < 0 ==> sign == "-") && (0 < v ==> sign != "-")
  }

  lemma AtoiIff(s: string, v: int)
    ensures Atoi(s) == Some(v) <==> -INT64_MAX - 1 <= v <= INT64_MAX && Spells(s, v)
  {
    if Atoi(s) == Some(v) {
      AtoiSpells(s, v);
    }
    if sign: string, z: nat :| SpelledWith(s, v, sign, z) {
      SpelledIsRead(s, v, sign, z);
    }
  }

  lemma AtoiSpells(s: string, v: int)
    requires Atoi(s) == Some(v)
    ensures -INT64_MAX - 1 <= v <= INT64_MAX && Spells(s, v)
  {
    var signed := s[0] == '-' || s[0] == '+';
    var digits := if signed then s[1..] else s;
    var n := Digits(digits).value;
    var z := Spelled(digits, n);
    var sign := if signed then [s[0]] else "";
    assert s == sign + digits;
    assert SpelledWith(s, v, sign, z);
  }

  lemma SpelledIsRead(s: string, v: int, sign: string, z: nat)
    requires SpelledWith(s, v, sign, z)
    ensures -INT64_MAX - 1 <= v <= INT64_MAX ==> Atoi(s) == Some(v)
  {
    var n := if v < 0 then -v else v;
    DigitsOfPadded(z, n);
    FirstOfNumber(z, n);
    AtoiOfSigned(sign, Zeros(z) + Decimal(n), n);
  }

  lemma AtoiOfSigned(sign: string, number: string, n: nat)
    requires sign == "-" || sign == "+" || sign == ""
    requires number != [] && '0' <= number[0] <= '9' && Digits(number) == Some(n)
    ensures var v: int := if sign == "-" then -(n as int) else n;
      -INT64_MAX - 1 <= v <= INT64_MAX ==> Atoi(sign + number) == Some(v)
  {
    var s := sign + number;
    if sign == "" {
      assert s == number;
    } else {
      assert s[0] == sign[0] && s[1..] == number;
    }
  }

  lemma FirstOfNumber(z: nat, n: nat)
    ensures var s := Zeros(z) + Decimal(n); s != [] && '0' <= s[0] <= '9'
  {
  }

  lemma AtoiInvertsItoa(n: int)
    requires -INT64_MAX - 1 <= n <= INT64_MAX
    ensures Atoi(Itoa(n)) == Some(n)
  {
    if n < 0 {
      DigitsOfDecimal(-n);
      assert Itoa(n)[1..] == Decimal(-n);
    } else {
      DigitsOfDecimal(n);
    }
  }
}
