/** Byte strings: UTF-8 well-formedness, splitting at a separator, sums and numerals. */
module Bytes {

  type byte = x: int | 0 <= x < 256

  type Bytes = seq<byte>

  predicate AllZero(s: Bytes) { forall i :: 0 <= i < |s| ==> s[i] == 0 }

  predicate StartsWith(s: Bytes, p: Bytes) { p <= s }

  // ---------- UTF-8 ----------

  predicate Continuation(b: byte) { 0x80 <= b < 0xC0 }

  // Length of the well-formed sequence at the start of `s`, or 0 (Unicode Standard, table 3-7).
  function SequenceLength(s: Bytes): (n: nat)
    ensures n <= |s|
  {
    if s == [] then 0
    else if s[0] < 0x80 then 1
    else if 0xC2 <= s[0] < 0xE0 then (if |s| >= 2 && Continuation(s[1]) then 2 else 0)
    else if 0xE0 <= s[0] < 0xF0 then
      if |s| >= 3 && Continuation(s[1]) && Continuation(s[2])
         && (s[0] == 0xE0 ==> s[1] >= 0xA0) && (s[0] == 0xED ==> s[1] < 0xA0) then 3 else 0
    else if 0xF0 <= s[0] < 0xF5 then
      if |s| >= 4 && Continuation(s[1]) && Continuation(s[2]) && Continuation(s[3])
         && (s[0] == 0xF0 ==> s[1] >= 0x90) && (s[0] == 0xF4 ==> s[1] < 0x90) then 4 else 0
    else 0
  }

  predicate WellFormed(s: Bytes)
    decreases |s|
  {
    s == [] || (SequenceLength(s) > 0 && WellFormed(s[SequenceLength(s)..]))
  }

  // The encoding of U+FFFD occurs in `s`.
  predicate HasReplacement(s: Bytes)
  {
    exists i :: 0 <= i <= |s| - 3 && s[i] == 0xEF && s[i + 1] == 0xBF && s[i + 2] == 0xBD
  }

  // Decoding to text and back is lossless and shows no replacement character.
  predicate CleanText(s: Bytes) { WellFormed(s) && !HasReplacement(s) }

  // ---------- splitting ----------

  function Split(s: Bytes, sep: byte): (parts: seq<Bytes>)
    ensures parts != []
    ensures forall i :: 0 <= i < |parts| ==> sep !in parts[i]
    decreases |s|
  {
    if s == [] then [[]]
    else
      var rest := Split(s[1..], sep);
      if s[0] == sep then [[]] + rest else [[s[0]] + rest[0]] + rest[1..]
  }

  function Join(parts: seq<Bytes>, sep: byte): Bytes
    requires parts != []
    decreases |parts|
  {
    if |parts| == 1 then parts[0] else parts[0] + [sep] + Join(parts[1..], sep)
  }

  lemma {:induction false} JoinSplit(s: Bytes, sep: byte)
    ensures Join(Split(s, sep), sep) == s
    decreases |s|
  {
    if s != [] {
      JoinSplit(s[1..], sep);
      var rest := Split(s[1..], sep);
      var parts := Split(s, sep);
      if s[0] == sep {
        assert parts[1..] == rest;
      } else {
        assert parts[1..] == rest[1..];
      }
    }
  }

  lemma {:induction false} SplitJoin(parts: seq<Bytes>, sep: byte)
    requires parts != [] && forall i :: 0 <= i < |parts| ==> sep !in parts[i]
    ensures Split(Join(parts, sep), sep) == parts
    decreases |parts|, |parts[0]|
  {
    var s := Join(parts, sep);
    if parts[0] == [] {
      if |parts| > 1 {
        assert s == [sep] + Join(parts[1..], sep);
        assert s[1..] == Join(parts[1..], sep);
        SplitJoin(parts[1..], sep);
      }
    } else {
      var parts' := [parts[0][1..]] + parts[1..];
      assert s[0] == parts[0][0] && parts[0][0] in parts[0];
      assert parts'[1..] == parts[1..];
      assert s[1..] == Join(parts', sep);
      SplitJoin(parts', sep);
      assert [s[0]] + parts'[0] == parts[0];
    }
  }

  lemma {:induction false} SplitConcat(s: Bytes, t: Bytes, sep: byte)
    requires sep !in s
    ensures Split(s + [sep] + t, sep) == [s] + Split(t, sep)
    decreases |s|
  {
    var u := s + [sep] + t;
    if s == [] {
      assert u[1..] == t;
    } else {
      assert u[1..] == s[1..] + [sep] + t;
      SplitConcat(s[1..], t, sep);
      assert [s[0]] + s[1..] == s && s[0] in s;
    }
  }

  // ---------- sums and numerals ----------

  function Sum(s: Bytes): nat
    decreases |s|
  {
    if s == [] then 0 else Sum(s[..|s| - 1]) + s[|s| - 1]
  }

  lemma {:induction false} SumBound(s: Bytes)
    ensures Sum(s) <= 255 * |s|
    decreases |s|
  {
    if s != [] { SumBound(s[..|s| - 1]); }
  }

  predicate IsDigits(s: Bytes, base: nat)
  {
    s != [] && forall i :: 0 <= i < |s| ==> 0x30 <= s[i] < 0x30 + base
  }

  function Value(s: Bytes, base: nat): nat
    requires s == [] || IsDigits(s, base)
    decreases |s|
  {
    if s == [] then 0 else Value(s[..|s| - 1], base) * base + (s[|s| - 1] - 0x30)
  }

  function Pow(base: nat, n: nat): nat { if n == 0 then 1 else base * Pow(base, n - 1) }

  lemma DigitBound(v: nat, d: nat, base: nat, p: nat)
    requires v < p && d < base
    ensures v * base + d < base * p
  {
    var rest := p - v - 1;
    ProductIsNat(rest, base);
    assert p == v + 1 + rest;
    assert base * p == base * v + base + base * rest;
  }

  lemma ProductIsNat(a: nat, b: nat)
    ensures b * a >= 0
  {
  }

  lemma {:induction false} ValueBound(s: Bytes, base: nat)
    requires base > 0 && (s == [] || IsDigits(s, base))
    ensures Value(s, base) < Pow(base, |s|)
    decreases |s|
  {
    if s != [] {
      ValueBound(s[..|s| - 1], base);
      DigitBound(Value(s[..|s| - 1], base), s[|s| - 1] - 0x30, base, Pow(base, |s| - 1));
    }
  }

  // `n` in exactly `width` digits, as far as it fits.
  function Numeral(n: nat, base: nat, width: nat): (s: Bytes)
    requires 2 <= base <= 10
    ensures |s| == width && (width > 0 ==> IsDigits(s, base))
    decreases width
  {
    if width == 0 then [] else Numeral(n / base, base, width - 1) + [0x30 + n % base]
  }

  lemma QuotientBound(n: nat, base: nat, p: nat)
    requires base > 0 && n < base * p
    ensures n / base < p && (n / base) * base + n % base == n
  {
    var q := n / base;
    assert q * base + n % base == n;
    assert q >= p ==> q * base >= p * base;
  }

  lemma {:induction false} ValueOfNumeral(n: nat, base: nat, width: nat)
    requires 2 <= base <= 10 && n < Pow(base, width)
    ensures Value(Numeral(n, base, width), base) == n
    decreases width
  {
    if width > 0 {
      var s := Numeral(n, base, width);
      QuotientBound(n, base, Pow(base, width - 1));
      ValueOfNumeral(n / base, base, width - 1);
      assert s[..|s| - 1] == Numeral(n / base, base, width - 1);
    }
  }
}
