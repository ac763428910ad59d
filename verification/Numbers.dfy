/** Decimal numbers as `%d` prints and `atoi` reads them. */
module Numbers {
  import opened Bytes
  import opened Slices
  import Arith

  predicate IsDigit(c: byte) { '0' <= c <= '9' }

  function Digit(n: nat): byte
    requires n < 10
  {
    (48 + n) as char
  }

  function Print(n: nat): (s: bytes)
    ensures s != [] && forall i | 0 <= i < |s| :: IsDigit(s[i])
  {
    if n < 10 then [Digit(n)] else Print(n / 10) + [Digit(n % 10)]
  }

  function PrintInt(n: int): bytes { if n < 0 then "-" + Print(-n) else Print(n) }

  function Pow10(k: nat): (p: nat)
    ensures p > 0
  {
    if k == 0 then 1 else 10 * Pow10(k - 1)
  }

  lemma DivTwice(n: nat, p: nat)
    requires p > 0
    ensures n / 10 / p == n / (10 * p)
  {
    var q, r := n / (10 * p), n % (10 * p);
    assert n == 10 * p * q + r && r / 10 < p;
    assert n / 10 == p * q + r / 10 by { assert 10 * p * q == 10 * (p * q); }
    Arith.DivUnique(p, q, r / 10);
  }

  /** What is printed are the decimal digits, the most significant first, and no leading zeros. */
  lemma {:induction false} PrintIsDecimal(n: nat, i: nat)
    requires i < |Print(n)|
    ensures Print(n)[|Print(n)| - 1 - i] as int == '0' as int + n / Pow10(i) % 10
    ensures n < Pow10(|Print(n)|) && (n > 0 ==> n >= Pow10(|Print(n)| - 1))
    decreases n
  {
    if n >= 10 {
      PrintIsDecimal(n / 10, if i > 0 then i - 1 else 0);
      if i > 0 { DivTwice(n, Pow10(i - 1)); }
    } else {
      assert Pow10(1) == 10 * Pow10(0) && Pow10(0) == 1;
    }
  }

  /** The value of the leading digits, continuing from `acc`. */
  function Digits(s: bytes, acc: nat): nat {
    if s != [] && IsDigit(s[0]) then Digits(s[1..], 10 * acc + (s[0] as int - 48)) else acc
  }

  /** `atoi`: blanks, a sign, and digits; zero when there is no number. */
  function Atoi(s: bytes): int {
    var t := s[Span(s, SPACE)..];
    if t != [] && t[0] == '-' then 0 - Digits(t[1..], 0)
    else if t != [] && t[0] == '+' then Digits(t[1..], 0)
    else Digits(t, 0)
  }

  // ----- atoi on memory without an end of its own -----

  /** What atoi reads, or that it reads on behind the bytes it was pointed at. */
  datatype Reading = Value(n: int) | OffTheEnd

  function AfterSign(s: bytes): bytes {
    var t := s[Span(s, SPACE)..];
    if t != [] && (t[0] == '-' || t[0] == '+') then t[1..] else t
  }

  /** Whether there is a byte among them at which atoi stops. */
  predicate EndsInside(s: bytes) { Span(AfterSign(s), IsDigit) < |AfterSign(s)| }

  function AtoiIn(s: bytes): Reading { if EndsInside(s) then Value(Atoi(s)) else OffTheEnd }

  lemma {:induction false} DigitsStop(s: bytes, rest: bytes, acc: nat)
    requires Span(s, IsDigit) < |s| || (rest != [] && !IsDigit(rest[0]))
    ensures Digits(s + rest, acc) == Digits(s, acc)
    decreases |s|
  {
    if s == [] {
      assert s + rest == rest;
    } else if IsDigit(s[0]) {
      assert (s + rest)[1..] == s[1..] + rest;
      DigitsStop(s[1..], rest, 10 * acc + (s[0] as int - 48));
    }
  }

  lemma SpanExtends(s: bytes, rest: bytes, p: byte -> bool)
    requires Span(s, p) < |s|
    ensures Span(s + rest, p) == Span(s, p)
  {
    SpanIs(s + rest, p, Span(s, p));
  }

  /** What follows changes nothing once blanks and sign are behind. */
  lemma AfterSignExtends(s: bytes, rest: bytes)
    requires AfterSign(s) != [] || (s != [] && (s[|s| - 1] == '-' || s[|s| - 1] == '+') && Span(s, SPACE) == |s| - 1)
    ensures AfterSign(s + rest) == AfterSign(s) + rest
    ensures var t := s[Span(s, SPACE)..]; t != [] && (s + rest)[Span(s + rest, SPACE)..] == t + rest
  {
    hide Span;
    var n := Span(s, SPACE);
    SpanExtends(s, rest, SPACE);
    assert (s + rest)[n..] == s[n..] + rest;
    if s[n] == '-' || s[n] == '+' { assert (s[n..] + rest)[1..] == s[n..][1..] + rest; }
  }

  lemma AtoiInExtends(s: bytes, rest: bytes)
    requires EndsInside(s)
    ensures AtoiIn(s + rest) == AtoiIn(s)
  {
    AfterSignExtends(s, rest);
    var u := AfterSign(s);
    SpanIs(u + rest, IsDigit, Span(u, IsDigit));
    AtoiAfterSign(s);
    AtoiAfterSign(s + rest);
    DigitsStop(u, rest, 0);
    hide Span, Digits, AfterSign, Atoi;
  }

  /** Atoi in terms of the digits after the sign. */
  lemma AtoiAfterSign(s: bytes)
    ensures
      var t := s[Span(s, SPACE)..];
      Atoi(s) == if t != [] && t[0] == '-' then 0 - Digits(AfterSign(s), 0) else Digits(AfterSign(s), 0)
  {
    hide Span, Digits;
  }

  /** A word with a blank behind it is read to its end and no further. */
  lemma AtoiInWord(word: bytes, rest: bytes)
    requires word != [] && Solid(word) && rest != [] && IsSpace(rest[0])
    ensures AtoiIn(word + rest) == Value(Atoi(word))
  {
    WordAfterSign(word, rest);
    hide Span, Digits, AfterSign, Atoi;
    var u := AfterSign(word);
    assert Span(u + rest, IsDigit) <= |u| by { assert !IsDigit((u + rest)[|u|]); }
    AtoiAfterSign(word);
    AtoiAfterSign(word + rest);
    DigitsStop(u, rest, 0);
  }

  lemma WordAfterSign(word: bytes, rest: bytes)
    requires word != [] && Solid(word)
    ensures AfterSign(word + rest) == AfterSign(word) + rest
    ensures word[Span(word, SPACE)..] == word && (word + rest)[Span(word + rest, SPACE)..] == word + rest
  {
    SpanIs(word, SPACE, 0);
    SpanIs(word + rest, SPACE, 0);
    hide Span;
    assert word[0..] == word && (word + rest)[0..] == word + rest;
    assert (word + rest)[1..] == word[1..] + rest;
  }

  /** Bytes that do not stop atoi are stopped by a letter behind them. */
  lemma StopsAtLetter(s: bytes, c: byte)
    requires !EndsInside(s) && !IsSpace(c) && !IsDigit(c) && c != '-' && c != '+'
    ensures EndsInside(s + [c])
  {
    var n := Span(s, SPACE);
    if n == |s| {
      SpanIs(s + [c], SPACE, n);
      assert (s + [c])[n..] == [c];
      SpanIs([c], IsDigit, 0);
    } else {
      AfterSignExtends(s, [c]);
      var u := AfterSign(s);
      SpanIs(u + [c], IsDigit, |u|);
    }
  }

  lemma {:induction false} DigitsConcat(s: bytes, d: byte, acc: nat)
    requires IsDigit(d) && forall i | 0 <= i < |s| :: IsDigit(s[i])
    ensures Digits(s + [d], acc) == 10 * Digits(s, acc) + (d as int - 48)
    decreases |s|
  {
    if s == [] {
      assert [] + [d] == [d];
      assert Digits([d][1..], 10 * acc + (d as int - 48)) == 10 * acc + (d as int - 48);
    } else {
      assert (s + [d])[1..] == s[1..] + [d];
      DigitsConcat(s[1..], d, 10 * acc + (s[0] as int - 48));
    }
  }

  lemma {:induction false} DigitsOfPrint(n: nat)
    ensures Digits(Print(n), 0) == n
    decreases n
  {
    if n < 10 {
      assert Print(n)[1..] == [];
    } else {
      DigitsOfPrint(n / 10);
      DigitsConcat(Print(n / 10), Digit(n % 10), 0);
    }
  }

  /** Reading back what was printed. */
  lemma AtoiOfPrint(n: int)
    ensures Atoi(PrintInt(n)) == n && PrintInt(n) != [] && Solid(PrintInt(n))
  {
    var s := PrintInt(n);
    SpanIs(s, SPACE, 0);
    assert s[0..] == s;
    if n < 0 {
      assert s[1..] == Print(-n);
      DigitsOfPrint(-n);
    } else {
      DigitsOfPrint(n);
    }
  }

  /** Text that begins with neither a digit nor a sign nor a blank. */
  predicate NoNumber(s: bytes) { s != [] ==> !IsDigit(s[0]) && !IsSpace(s[0]) && s[0] != '-' && s[0] != '+' }

  /** Any blanks, one sign or none, and a decimal number with anything but a digit behind it; without one, zero. */
  lemma AtoiExactly(blanks: bytes, sign: bytes, n: nat, rest: bytes)
    requires (forall i | 0 <= i < |blanks| :: IsSpace(blanks[i])) && (sign == "" || sign == "+" || sign == "-")
    requires rest != [] ==> !IsDigit(rest[0])
    ensures Atoi(blanks + (sign + (Print(n) + rest))) == if sign == "-" then 0 - n else n
    ensures NoNumber(rest) ==> Atoi(blanks + rest) == 0
  {
    hide Print;
    var t := sign + (Print(n) + rest);
    SpanIs(blanks + t, SPACE, |blanks|);
    assert (blanks + t)[|blanks|..] == t;
    if rest == [] { assert Print(n) + rest == Print(n); } else { DigitsStop(Print(n), rest, 0); }
    DigitsOfPrint(n);
    if sign == "" {
      assert t == Print(n) + rest && IsDigit(t[0]);
    } else {
      assert t[1..] == Print(n) + rest;
    }
    if NoNumber(rest) {
      SpanIs(blanks + rest, SPACE, |blanks|);
      assert (blanks + rest)[|blanks|..] == rest;
    }
  }
}
