/**
 Text as the digest encoders see it: strings of Unicode scalar values, their UTF-8 encoding, their
 order as JavaScript strings (by UTF-16 code units), and decimal numerals.
 */
module Text {
  import opened Bytes

  // ---------- UTF-8 ----------

  function Utf8(c: char): (s: Bytes)
    ensures s != []
  {
    var n := c as int;
    if n < 0x80 then [n]
    else if n < 0x800 then [0xC0 + n / 64, 0x80 + n % 64]
    else if n < 0x10000 then [0xE0 + n / 64 / 64, 0x80 + n / 64 % 64, 0x80 + n % 64]
    else [0xF0 + n / 64 / 64 / 64, 0x80 + n / 64 / 64 % 64, 0x80 + n / 64 % 64, 0x80 + n % 64]
  }

  function Encode(s: string): Bytes
    decreases |s|
  {
    if s == [] then [] else Utf8(s[0]) + Encode(s[1..])
  }

  // Length of a sequence, told by its first byte.
  function Width(b: byte): nat { if b < 0x80 then 1 else if b < 0xE0 then 2 else if b < 0xF0 then 3 else 4 }

  // The scalar value of a sequence: the bits of the first byte above those of the following ones.
  function Scalar(s: Bytes): int
    requires s != [] && |s| == Width(s[0])
  {
    if |s| == 1 then s[0]
    else if |s| == 2 then Shift(Lead(s, 0xC0), s[1])
    else if |s| == 3 then Shift(Shift(Lead(s, 0xE0), s[1]), s[2])
    else Shift(Shift(Shift(Lead(s, 0xF0), s[1]), s[2]), s[3])
  }

  function Lead(s: Bytes, mark: int): int
    requires s != []
  {
    var b: int := s[0];
    b - mark
  }

  function Shift(high: int, b: int): int { high * 64 + (b - 0x80) }

  lemma Utf8Decodes(c: char)
    ensures var s := Utf8(c); Width(s[0]) == |s| && Scalar(s) == c as int && (c != '\0' ==> s[0] != 0)
  {
    var n := c as int;
    assert n == n / 64 * 64 + n % 64;
    assert n / 64 == n / 64 / 64 * 64 + n / 64 % 64;
    assert n / 64 / 64 == n / 64 / 64 / 64 * 64 + n / 64 / 64 % 64;
  }

  lemma Utf8PrefixFree(c: char, d: char, x: Bytes, y: Bytes)
    requires Utf8(c) + x == Utf8(d) + y
    ensures c == d && x == y
  {
    hide Utf8, Scalar;
    Utf8Decodes(c);
    Utf8Decodes(d);
    var s, t := Utf8(c), Utf8(d);
    assert s[0] == (s + x)[0] == (t + y)[0] == t[0];
    assert s == (s + x)[..|s|] && t == (t + y)[..|t|];
    assert x == (s + x)[|s|..] && y == (t + y)[|t|..];
  }

  lemma {:induction false} EncodeConcat(s: string, t: string)
    ensures Encode(s + t) == Encode(s) + Encode(t)
    decreases |s|
  {
    hide Utf8;
    if s == [] {
      assert s + t == t;
    } else {
      assert (s + t)[1..] == s[1..] + t && (s + t)[0] == s[0];
      EncodeConcat(s[1..], t);
    }
  }

  predicate NoNul(s: string) { '\0' !in s }

  // A text field of the stream, ended by NUL.
  function Field(s: string): Bytes { Encode(s) + [0] }

  lemma {:induction false} EncodedNul(s: string)
    ensures 0 in Encode(s) <==> !NoNul(s)
    decreases |s|
  {
    if s != [] {
      EncodedNul(s[1..]);
      assert 0 in Utf8(s[0]) <==> s[0] == '\0';
      assert s == [s[0]] + s[1..];
    }
  }

  /** A field is the encoded text and one NUL; without a NUL in the text, that one is the only NUL. */
  lemma FieldEnds(s: string)
    ensures var f := Field(s); var n := |f| - 1;
            f[..n] == Encode(s) && f[n] == 0 && (NoNul(s) <==> 0 !in f[..n])
  {
    EncodedNul(s);
  }

  /** Two NUL-free fields can be told apart, and where they end, without knowing what follows. */
  lemma {:induction false} FieldPrefixFree(a: string, b: string, x: Bytes, y: Bytes)
    requires NoNul(a) && NoNul(b) && Field(a) + x == Field(b) + y
    ensures a == b && x == y
    decreases |a|
  {
    if a == [] || b == [] {
      if a != [] { FieldStarts(a, x); }
      if b != [] { FieldStarts(b, y); }
      assert x == (Field(a) + x)[1..] && y == (Field(b) + y)[1..];
    } else {
      FieldUnfold(a, x);
      FieldUnfold(b, y);
      Utf8PrefixFree(a[0], b[0], Field(a[1..]) + x, Field(b[1..]) + y);
      FieldPrefixFree(a[1..], b[1..], x, y);
      assert a == [a[0]] + a[1..] && b == [b[0]] + b[1..];
    }
  }

  lemma FieldUnfold(a: string, x: Bytes)
    requires a != []
    ensures Field(a) + x == Utf8(a[0]) + (Field(a[1..]) + x)
  {
    hide Utf8;
  }

  lemma FieldStarts(a: string, x: Bytes)
    requires a != [] && NoNul(a)
    ensures (Field(a) + x)[0] != 0
  {
    hide Utf8, Field, Scalar;
    FieldUnfold(a, x);
    Utf8Decodes(a[0]);
    assert a[0] in a;
    assert (Utf8(a[0]) + (Field(a[1..]) + x))[0] == Utf8(a[0])[0];
  }

  // ---------- UTF-16 order ----------

  function Units(c: char): seq<nat>
  {
    var n := c as int;
    if n < 0x10000 then [n] else [0xD800 + (n - 0x10000) / 0x400, 0xDC00 + (n - 0x10000) % 0x400]
  }

  /** A character is one code unit that is no surrogate, or a high and a low surrogate of its value above 0xFFFF. */
  lemma UnitsDecode(c: char)
    ensures var u, n := Units(c), c as int;
            || (|u| == 1 && u[0] == n && !(0xD800 <= u[0] < 0xE000))
            || (|u| == 2 && 0xD800 <= u[0] < 0xDC00 <= u[1] < 0xE000 && n == 0x10000 + (u[0] - 0xD800) * 0x400 + (u[1] - 0xDC00))
  {
  }

  function Utf16(s: string): seq<nat>
    decreases |s|
  {
    if s == [] then [] else Units(s[0]) + Utf16(s[1..])
  }

  lemma UnitsPrefixFree(c: char, d: char, x: seq<nat>, y: seq<nat>)
    requires Units(c) + x == Units(d) + y
    ensures c == d && x == y
  {
    var u := Units(c) + x;
    var v := Units(d) + y;
    assert u[0] == Units(c)[0] && v[0] == Units(d)[0];
    assert |Units(c)| == |Units(d)|;
    if |Units(c)| == 2 { assert u[1] == Units(c)[1] && v[1] == Units(d)[1]; }
    assert x == u[|Units(c)|..] && y == v[|Units(d)|..];
  }

  lemma {:induction false} Utf16Injective(a: string, b: string)
    requires Utf16(a) == Utf16(b)
    ensures a == b
    decreases |a|
  {
    if a != [] && b != [] {
      UnitsPrefixFree(a[0], b[0], Utf16(a[1..]), Utf16(b[1..]));
      Utf16Injective(a[1..], b[1..]);
      assert a == [a[0]] + a[1..] && b == [b[0]] + b[1..];
    }
  }

  predicate LexLess(a: seq<nat>, b: seq<nat>)
    decreases |a|
  {
    b != [] && (a == [] || a[0] < b[0] || (a[0] == b[0] && LexLess(a[1..], b[1..])))
  }

  // JavaScript's `<` on strings.
  predicate Less(a: string, b: string) { LexLess(Utf16(a), Utf16(b)) }

  // The two agree on the first `k` units, and there the first ends or goes on with the smaller unit.
  predicate Parts(a: seq<nat>, b: seq<nat>, k: nat)
  {
    k <= |a| && k < |b| && a[..k] == b[..k] && (k == |a| || a[k] < b[k])
  }

  ghost predicate Precedes(a: seq<nat>, b: seq<nat>) { exists k: nat :: Parts(a, b, k) }

  /**
   One string comes before another exactly when they have a common beginning, in code units, after which the first
   ends and the other does not, or the first goes on with the smaller unit.
   */
  lemma LessIff(a: string, b: string)
    ensures Less(a, b) <==> Precedes(Utf16(a), Utf16(b))
  {
    LexIff(Utf16(a), Utf16(b));
  }

  lemma PartsFirst(a: seq<nat>, b: seq<nat>, k: nat)
    requires Parts(a, b, k)
    ensures k == 0 || (a != [] && b != [] && a[0] == b[0])
  {
    if k > 0 { assert a[..k][0] == b[..k][0]; }
  }

  lemma {:induction false} LexIff(a: seq<nat>, b: seq<nat>)
    ensures LexLess(a, b) <==> Precedes(a, b)
    decreases |a|
  {
    if a == [] || b == [] || a[0] != b[0] {
      forall k: nat | Parts(a, b, k) ensures b != [] && (a == [] || a[0] < b[0]) { PartsFirst(a, b, k); }
      if LexLess(a, b) { assert Parts(a, b, 0); }
    } else {
      LexIff(a[1..], b[1..]);
      if k: nat :| Parts(a[1..], b[1..], k) {
        assert a[..k + 1] == [a[0]] + a[1..][..k] && b[..k + 1] == [b[0]] + b[1..][..k];
        assert Parts(a, b, k + 1);
      }
      if k: nat :| Parts(a, b, k) {
        assert a[1..][..k - 1] == a[..k][1..] && b[1..][..k - 1] == b[..k][1..];
        assert Parts(a[1..], b[1..], k - 1);
      }
    }
  }

  lemma {:induction false} LexTotal(a: seq<nat>, b: seq<nat>)
    ensures !(LexLess(a, b) && LexLess(b, a)) && (LexLess(a, b) || LexLess(b, a) || a == b)
    decreases |a|
  {
    if a != [] && b != [] && a[0] == b[0] {
      LexTotal(a[1..], b[1..]);
      assert a == [a[0]] + a[1..] && b == [b[0]] + b[1..];
    }
  }

  lemma {:induction false} LexTransitive(a: seq<nat>, b: seq<nat>, c: seq<nat>)
    requires LexLess(a, b) && LexLess(b, c)
    ensures LexLess(a, c)
    decreases |a|
  {
    if a != [] && a[0] == b[0] && b[0] == c[0] { LexTransitive(a[1..], b[1..], c[1..]); }
  }

  lemma LessTotal(a: string, b: string)
    ensures !(Less(a, b) && Less(b, a)) && (Less(a, b) || Less(b, a) || a == b)
  {
    LexTotal(Utf16(a), Utf16(b));
    if Utf16(a) == Utf16(b) { Utf16Injective(a, b); }
  }

  lemma LessTransitive(a: string, b: string, c: string)
    requires Less(a, b) && Less(b, c)
    ensures Less(a, c)
  {
    LexTransitive(Utf16(a), Utf16(b), Utf16(c));
  }

  // ---------- decimal numerals ----------

  function Digit(d: nat): char
    requires d < 10
  {
    (0x30 + d) as char
  }

  function Decimal(n: nat): (s: string)
    ensures s != [] && NoNul(s)
  {
    if n < 10 then [Digit(n)] else Decimal(n / 10) + [Digit(n % 10)]
  }

  function DecimalValue(s: string): int
    decreases |s|
  {
    if s == [] then 0 else DecimalValue(s[..|s| - 1]) * 10 + (s[|s| - 1] as int - 0x30)
  }

  lemma {:induction false} DecimalReadsBack(n: nat)
    ensures DecimalValue(Decimal(n)) == n
  {
    if n >= 10 {
      DecimalReadsBack(n / 10);
      assert Decimal(n)[..|Decimal(n)| - 1] == Decimal(n / 10);
    }
  }

  lemma DecimalInjective(m: nat, n: nat)
    requires Decimal(m) == Decimal(n)
    ensures m == n
  {
    DecimalReadsBack(m);
    DecimalReadsBack(n);
  }

  predicate Numeric(s: string) { forall i :: 0 <= i < |s| ==> '0' <= s[i] <= '9' }

  /** A decimal numeral is made of digits and does not begin with a zero, except for the numeral of zero. */
  lemma {:induction false} DecimalShape(n: nat)
    ensures Numeric(Decimal(n)) && (n == 0 ==> Decimal(n) == "0") && (n > 0 ==> Decimal(n)[0] != '0')
  {
    if n >= 10 { DecimalShape(n / 10); }
  }

  /** The first digit of a numeral counts most. */
  lemma {:induction false} DecimalFromTheLeft(d: char, s: string)
    ensures DecimalValue([d] + s) == (d as int - 0x30) * Pow(10, |s|) + DecimalValue(s)
    decreases |s|
  {
    var t := [d] + s;
    if s == [] {
      assert t[..|t| - 1] == [];
    } else {
      var front := s[..|s| - 1];
      assert t[..|t| - 1] == [d] + front;
      DecimalFromTheLeft(d, front);
    }
  }
}
