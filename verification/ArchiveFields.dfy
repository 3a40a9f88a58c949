/**
 What the fields of a header say, without the functions that read them: text is the UTF-8 encoding of characters, an
 octal field is digits between white space, a sparse record is a line of a given form.
 */
module ArchiveFields {
  import opened Common
  import opened Bytes
  import opened Archive
  import opened Text

  // ---------- text ----------

  // A character's encoding is what is taken for one well-formed sequence.
  lemma Utf8IsSequence(c: char, x: Bytes)
    ensures SequenceLength(Utf8(c) + x) == |Utf8(c)|
  {
    var n := c as int;
    var s := Utf8(c) + x;
    assert forall i :: 0 <= i < |Utf8(c)| ==> s[i] == Utf8(c)[i];
    assert n == n / 64 * 64 + n % 64;
    assert n / 64 == n / 64 / 64 * 64 + n / 64 % 64;
    assert n / 64 / 64 == n / 64 / 64 / 64 * 64 + n / 64 / 64 % 64;
  }

  lemma {:induction false} EncodedIsWellFormed(t: string)
    ensures WellFormed(Encode(t))
    decreases |t|
  {
    if t != [] {
      var x := Encode(t[1..]);
      Utf8IsSequence(t[0], x);
      assert (Utf8(t[0]) + x)[|Utf8(t[0])|..] == x;
      EncodedIsWellFormed(t[1..]);
    }
  }

  // One well-formed sequence is the encoding of a character.
  lemma SequenceIsUtf8(s: Bytes) returns (c: char)
    requires SequenceLength(s) > 0
    ensures s[..SequenceLength(s)] == Utf8(c)
  {
    var u := s[..SequenceLength(s)];
    hide Utf8;
    if |u| == 1 {
      c := u[0] as char;
      OneByte(c);
    } else if |u| == 2 {
      c := TwoBytes(u[0], u[1]);
    } else if |u| == 3 {
      c := ThreeBytes(u[0], u[1], u[2]);
    } else {
      c := FourBytes(u[0], u[1], u[2], u[3]);
    }
  }

  lemma OneByte(c: char)
    requires c as int < 0x80
    ensures Utf8(c) == [c as int]
  {
  }

  lemma TwoBytes(a: byte, b: byte) returns (c: char)
    requires 0xC2 <= a < 0xE0 && Continuation(b)
    ensures Utf8(c) == [a, b]
  {
    var w := a as int - 0xC0;
    c := Shift(w, b) as char;
    assert Shift(w, b) / 64 == w;
  }

  lemma ThreeBytes(a: byte, b: byte, d: byte) returns (c: char)
    requires 0xE0 <= a < 0xF0 && Continuation(b) && Continuation(d) && (a == 0xE0 ==> b >= 0xA0) && (a == 0xED ==> b < 0xA0)
    ensures Utf8(c) == [a, b, d]
  {
    var w := Shift(a as int - 0xE0, b);
    var v := Shift(w, d);
    assert v / 64 == w && w / 64 == a as int - 0xE0;
    c := v as char;
  }

  lemma FourBytes(a: byte, b: byte, d: byte, e: byte) returns (c: char)
    requires 0xF0 <= a < 0xF5 && Continuation(b) && Continuation(d) && Continuation(e)
    requires (a == 0xF0 ==> b >= 0x90) && (a == 0xF4 ==> b < 0x90)
    ensures Utf8(c) == [a, b, d, e]
  {
    var y := Shift(a as int - 0xF0, b);
    var w := Shift(y, d);
    var v := Shift(w, e);
    assert v / 64 == w && w / 64 == y && y / 64 == a as int - 0xF0;
    c := v as char;
  }

  lemma {:induction false} Decoded(s: Bytes) returns (t: string)
    requires WellFormed(s)
    ensures Encode(t) == s
    decreases |s|
  {
    hide Utf8;
    if s == [] {
      t := [];
    } else {
      var n := SequenceLength(s);
      var c := SequenceIsUtf8(s);
      var rest := Decoded(s[n..]);
      t := [c] + rest;
      assert t[1..] == rest && s == s[..n] + s[n..];
    }
  }

  const REPLACEMENT: char := '\U{FFFD}'

  predicate ReplacementAt(s: Bytes, i: nat)
  {
    i + 3 <= |s| && s[i] == 0xEF && s[i + 1] == 0xBF && s[i + 2] == 0xBD
  }

  lemma ReplacementBytes(c: char, x: Bytes, i: nat)
    requires i < |Utf8(c)| && ReplacementAt(Utf8(c) + x, i)
    ensures i == 0 && c == REPLACEMENT
  {
    var s := Utf8(c) + x;
    assert forall k :: 0 <= k < |Utf8(c)| ==> s[k] == Utf8(c)[k];
  }

  lemma {:induction false} ReplacementShows(t: string, i: nat)
    requires ReplacementAt(Encode(t), i)
    ensures REPLACEMENT in t
    decreases |t|
  {
    if t != [] {
      var u, x := Utf8(t[0]), Encode(t[1..]);
      if i < |u| {
        ReplacementBytes(t[0], x, i);
      } else {
        assert forall k :: |u| <= k < |u + x| ==> (u + x)[k] == x[k - |u|];
        ReplacementShows(t[1..], i - |u|);
      }
    }
  }

  lemma {:induction false} ReplacementIsEncoded(t: string)
    requires REPLACEMENT in t
    ensures HasReplacement(Encode(t))
    decreases |t|
  {
    var u, x := Utf8(t[0]), Encode(t[1..]);
    if t[0] == REPLACEMENT {
      assert u == [0xEF, 0xBF, 0xBD];
      assert ReplacementAt(u + x, 0);
    } else {
      ReplacementIsEncoded(t[1..]);
      var i :| 0 <= i <= |x| - 3 && x[i] == 0xEF && x[i + 1] == 0xBF && x[i + 2] == 0xBD;
      assert ReplacementAt(u + x, |u| + i);
    }
  }

  /** Bytes pass as text exactly when they are the UTF-8 encoding of characters other than U+FFFD. */
  lemma CleanTextIff(s: Bytes)
    ensures CleanText(s) <==> exists t: string :: Encode(t) == s && REPLACEMENT !in t
  {
    hide WellFormed, HasReplacement, Encode;
    if CleanText(s) {
      var t := Decoded(s);
      if REPLACEMENT in t { ReplacementIsEncoded(t); }
    }
    if t: string :| Encode(t) == s && REPLACEMENT !in t {
      EncodedIsWellFormed(t);
      if HasReplacement(s) { ReplacementWasEncoded(t); }
    }
  }

  lemma ReplacementWasEncoded(t: string)
    requires HasReplacement(Encode(t))
    ensures REPLACEMENT in t
  {
    var s := Encode(t);
    var i :| 0 <= i <= |s| - 3 && s[i] == 0xEF && s[i + 1] == 0xBF && s[i + 2] == 0xBD;
    assert ReplacementAt(s, i);
    ReplacementShows(t, i);
  }

  lemma {:induction false} CutPadded(s: Bytes, z: Bytes)
    requires 0 !in s && (z == [] || z[0] == 0)
    ensures CutAtNul(s + z) == s
    decreases |s|
  {
    if s == [] {
      assert s + z == z;
    } else {
      assert (s + z)[1..] == s[1..] + z && s[0] in s;
      CutPadded(s[1..], z);
      assert [s[0]] + s[1..] == s;
    }
  }

  lemma {:induction false} CutLeaves(field: Bytes)
    ensures var s := CutAtNul(field); field == s + field[|s|..] && (|s| < |field| ==> field[|s|] == 0)
    decreases |field|
  {
    if field != [] && field[0] != 0 { CutLeaves(field[1..]); }
  }

  /** A text field is what precedes its first NUL, if any, and is accepted exactly when that is clean text. */
  lemma TarStringIff(field: Bytes, s: Bytes)
    ensures TarString(field) == Ok(s) <==>
            exists z :: field == s + z && (z == [] || z[0] == 0) && 0 !in s && CleanText(s)
  {
    hide CleanText, CutAtNul;
    if TarString(field) == Ok(s) {
      CutLeaves(field);
      var z := field[|s|..];
      assert field == s + z;
    }
    if z :| field == s + z && (z == [] || z[0] == 0) && 0 !in s && CleanText(s) { CutPadded(s, z); }
  }

  // ---------- white space ----------

  // White space of ECMAScript (ECMA-262, sections 12.2 and 12.3): what String.prototype.trim removes.
  predicate JsSpace(c: char)
  {
    || '\U{0009}' <= c <= '\U{000D}' || c == ' ' || c == '\U{00A0}' || c == '\U{1680}' || '\U{2000}' <= c <= '\U{200A}'
    || c == '\U{2028}' || c == '\U{2029}' || c == '\U{202F}' || c == '\U{205F}' || c == '\U{3000}' || c == '\U{FEFF}'
  }

  predicate Blank(t: string) { forall i :: 0 <= i < |t| ==> JsSpace(t[i]) }

  // How white space is encoded.
  predicate SpaceBytes(u: Bytes)
  {
    (|u| == 1 && AsciiSpace(u[0])) || u == [0xC2, 0xA0] || (|u| == 3 && WideSpace(u[0], u[1], u[2]))
  }

  lemma SpaceIsEncoded(c: char)
    requires JsSpace(c)
    ensures SpaceBytes(Utf8(c))
  {
  }

  lemma SpaceStarts(u: Bytes, x: Bytes)
    requires SpaceBytes(u)
    ensures SpaceAtStart(u + x) == |u|
  {
    var s := u + x;
    assert forall k :: 0 <= k < |u| ==> s[k] == u[k];
  }

  lemma SpaceEnds(u: Bytes, x: Bytes)
    requires SpaceBytes(u)
    ensures SpaceAtEnd(x + u) == |u|
  {
    var s := x + u;
    assert s[|s| - 1] == u[|u| - 1];
    if |u| >= 2 { assert s[|s| - 2] == u[|u| - 2]; }
    if |u| >= 3 { assert s[|s| - 3] == u[|u| - 3]; }
  }

  lemma StartIsSpace(s: Bytes) returns (c: char)
    requires SpaceAtStart(s) > 0
    ensures JsSpace(c) && Utf8(c) == s[..SpaceAtStart(s)]
  {
    c := SpaceOf(s[..SpaceAtStart(s)]);
  }

  lemma EndIsSpace(s: Bytes) returns (c: char)
    requires SpaceAtEnd(s) > 0
    ensures JsSpace(c) && Utf8(c) == s[|s| - SpaceAtEnd(s)..]
  {
    c := SpaceOf(s[|s| - SpaceAtEnd(s)..]);
  }

  lemma SpaceOf(u: Bytes) returns (c: char)
    requires SpaceBytes(u)
    ensures JsSpace(c) && Utf8(c) == u
  {
    if |u| == 1 {
      c := u[0] as char;
    } else if |u| == 2 {
      c := '\U{00A0}';
    } else {
      c := ThreeBytes(u[0], u[1], u[2]);
      Utf8Decodes(c);
    }
  }

  lemma TrimSteps(s: Bytes)
    ensures TrimStart(s) == if SpaceAtStart(s) == 0 then s else TrimStart(s[SpaceAtStart(s)..])
    ensures TrimEnd(s) == if SpaceAtEnd(s) == 0 then s else TrimEnd(s[..|s| - SpaceAtEnd(s)])
  {
  }

  lemma EncodeEnds(front: string, c: char)
    ensures Encode([c] + front) == Utf8(c) + Encode(front)
    ensures Encode(front + [c]) == Encode(front) + Utf8(c)
  {
    hide Utf8;
    assert ([c] + front)[1..] == front;
    EncodeConcat(front, [c]);
    assert [c][1..] == [] && Utf8(c) + [] == Utf8(c);
  }

  lemma {:induction false} TrimmedAtStart(s: Bytes) returns (lead: string)
    ensures Blank(lead) && s == Encode(lead) + TrimStart(s)
    decreases |s|
  {
    hide Utf8, Encode, TrimStart, TrimEnd, SpaceAtStart, JsSpace;
    TrimSteps(s);
    var n := SpaceAtStart(s);
    if n == 0 {
      lead := [];
      EmptyEncodes();
    } else {
      var c := StartIsSpace(s);
      var rest := TrimmedAtStart(s[n..]);
      lead := [c] + rest;
      EncodeEnds(rest, c);
      assert s == s[..n] + s[n..];
    }
  }

  lemma EmptyEncodes()
    ensures Encode([]) == []
  {
  }

  lemma {:induction false} TrimmedAtEnd(s: Bytes) returns (tail: string)
    ensures Blank(tail) && s == TrimEnd(s) + Encode(tail)
    decreases |s|
  {
    hide Utf8, Encode, TrimStart, TrimEnd, SpaceAtEnd, JsSpace;
    TrimSteps(s);
    if SpaceAtEnd(s) == 0 {
      tail := [];
      EmptyEncodes();
    } else {
      var n := |s| - SpaceAtEnd(s);
      var c := EndIsSpace(s);
      var rest := TrimmedAtEnd(s[..n]);
      tail := rest + [c];
      EncodeEnds(rest, c);
      assert s == s[..n] + s[n..];
    }
  }

  lemma {:induction false} TrimsLead(lead: string, x: Bytes)
    requires Blank(lead)
    ensures TrimStart(Encode(lead) + x) == TrimStart(x)
    decreases |lead|
  {
    hide Utf8, TrimStart, TrimEnd, SpaceAtStart, JsSpace;
    if lead == [] {
      assert [] + x == x;
    } else {
      var u, rest := Utf8(lead[0]), Encode(lead[1..]) + x;
      assert Encode(lead) + x == u + rest;
      SpaceIsEncoded(lead[0]);
      SpaceStarts(u, rest);
      assert (u + rest)[|u|..] == rest;
      TrimSteps(u + rest);
      TrimsLead(lead[1..], x);
    }
  }

  lemma {:induction false} TrimsTail(tail: string, x: Bytes)
    requires Blank(tail)
    ensures TrimEnd(x + Encode(tail)) == TrimEnd(x)
    decreases |tail|
  {
    hide Utf8, Encode, TrimStart, TrimEnd, SpaceAtEnd, JsSpace;
    if tail == [] {
      EmptyEncodes();
      assert x + [] == x;
    } else {
      var n := |tail| - 1;
      var c, front := tail[n], tail[..n];
      assert tail == front + [c];
      EncodeEnds(front, c);
      var y := x + Encode(front);
      assert x + Encode(tail) == y + Utf8(c);
      SpaceIsEncoded(c);
      SpaceEnds(Utf8(c), y);
      assert (y + Utf8(c))[..|y|] == y;
      TrimSteps(y + Utf8(c));
      TrimsTail(front, x);
    }
  }

  lemma DigitsAreNotSpace(s: Bytes)
    requires IsDigits(s, 8)
    ensures SpaceAtStart(s) == 0 && SpaceAtEnd(s) == 0
  {
  }

  // ---------- octal fields ----------

  function Ascii(s: Bytes): (t: string)
    requires forall i :: 0 <= i < |s| ==> s[i] < 0x80
    ensures |t| == |s| && forall i :: 0 <= i < |s| ==> t[i] as int == s[i]
  {
    seq(|s|, i requires 0 <= i < |s| => s[i] as char)
  }

  lemma {:induction false} AsciiEncodes(t: string)
    requires forall i :: 0 <= i < |t| ==> t[i] as int < 0x80
    ensures |Encode(t)| == |t| && forall i :: 0 <= i < |t| ==> Encode(t)[i] == t[i] as int
    decreases |t|
  {
    if t != [] { AsciiEncodes(t[1..]); }
  }

  lemma {:induction false} NoNulEncoded(t: string)
    requires NoNul(t)
    ensures 0 !in Encode(t)
    decreases |t|
  {
    if t != [] {
      assert t[0] in t && 0 !in Utf8(t[0]);
      NoNulEncoded(t[1..]);
    }
  }

  // White space, octal digits, white space, and then nothing or a NUL and anything.
  predicate OctalShape(field: Bytes, lead: string, digits: Bytes, tail: string, z: Bytes)
  {
    && field == Encode(lead) + digits + Encode(tail) + z && (z == [] || z[0] == 0)
    && Blank(lead) && Blank(tail) && IsDigits(digits, 8)
  }

  lemma OctalText(lead: string, digits: Bytes, tail: string)
    requires Blank(lead) && Blank(tail) && IsDigits(digits, 8)
    ensures var s := Encode(lead) + digits + Encode(tail); CleanText(s) && 0 !in s
  {
    hide Encode, CleanText;
    var d := Ascii(digits);
    AsciiEncodes(d);
    assert Encode(d) == digits;
    EncodeConcat(lead, d);
    EncodeConcat(lead + d, tail);
    var t := lead + d + tail;
    CleanTextIff(Encode(t));
    NoNulEncoded(t);
  }

  /**
   An octal field is read as `n` exactly when it is white space, one or more octal digits of that value, white space,
   and then its end or a NUL, and does not begin with a byte of the upper half.
   */
  lemma TarOctalIff(field: Bytes, n: nat)
    requires field != []
    ensures TarOctal(field) == Ok(n) <==>
            field[0] < 0x80 && n <= MAX_SAFE_INTEGER
            && exists lead, digits, tail, z :: OctalShape(field, lead, digits, tail, z) && Value(digits, 8) == n
  {
    hide CleanText, CutAtNul, Value, Encode, TrimStart, TrimEnd;
    if TarOctal(field) == Ok(n) {
      var lead, digits, tail, z := OctalHasShape(field, n);
    }
    if field[0] < 0x80 {
      if lead, digits, tail, z :| OctalShape(field, lead, digits, tail, z) && Value(digits, 8) == n && n <= MAX_SAFE_INTEGER {
        ShapeIsOctal(field, lead, digits, tail, z);
      }
    }
  }

  /** Which error an unreadable octal field ends with. */
  lemma TarOctalFaults(field: Bytes)
    requires field != []
    ensures TarOctal(field) == Err(Base256) <==> field[0] >= 0x80
    ensures TarOctal(field) == Err(InvalidUtf8) <==>
            field[0] < 0x80 && forall s, z :: field == s + z && (z == [] || z[0] == 0) && 0 !in s ==> !CleanText(s)
  {
    hide CleanText, CutAtNul, Value, TrimStart, TrimEnd;
    var s := CutAtNul(field);
    CutLeaves(field);
    assert field == s + field[|s|..];
    forall t, z | field == t + z && (z == [] || z[0] == 0) && 0 !in t ensures t == s { CutPadded(t, z); }
  }

  lemma OctalHasShape(field: Bytes, n: nat) returns (lead: string, digits: Bytes, tail: string, z: Bytes)
    requires field != [] && TarOctal(field) == Ok(n)
    ensures OctalShape(field, lead, digits, tail, z) && Value(digits, 8) == n
  {
    hide CleanText, CutAtNul, Value, Encode, TrimStart, TrimEnd;
    var s := CutAtNul(field);
    CutLeaves(field);
    z := field[|s|..];
    lead := TrimmedAtStart(s);
    tail := TrimmedAtEnd(TrimStart(s));
    digits := TrimEnd(TrimStart(s));
    assert s == Encode(lead) + (digits + Encode(tail)) == Encode(lead) + digits + Encode(tail);
  }

  lemma ShapeIsOctal(field: Bytes, lead: string, digits: Bytes, tail: string, z: Bytes)
    requires OctalShape(field, lead, digits, tail, z) && field[0] < 0x80 && Value(digits, 8) <= MAX_SAFE_INTEGER
    ensures TarOctal(field) == Ok(Value(digits, 8))
  {
    hide CleanText, CutAtNul, Value, Encode;
    var s := Encode(lead) + digits + Encode(tail);
    OctalText(lead, digits, tail);
    CutPadded(s, z);
    assert s == Encode(lead) + (digits + Encode(tail));
    TrimsLead(lead, digits + Encode(tail));
    assert (digits + Encode(tail))[0] == digits[0];
    TrimsTail(tail, digits);
    DigitsAreNotSpace(digits);
  }

  /** The first digit counts most. */
  lemma {:induction false} ValueFromTheLeft(s: Bytes, base: nat)
    requires IsDigits(s, base)
    ensures Value(s, base) == (s[0] - 0x30) * Pow(base, |s| - 1) + (if |s| == 1 then 0 else Value(s[1..], base))
    decreases |s|
  {
    hide Value, Pow;
    var last := |s| - 1;
    var front, back, d := s[..last], s[1..], s[last] - 0x30;
    ValueStep(s, base);
    PowStep(base, last);
    if last > 0 {
      ValueFromTheLeft(front, base);
      ValueStep(back, base);
      assert back[..last - 1] == front[1..] && back[last - 1] == s[last];
      if last == 1 { assert front[1..] == []; }
      Regroup(front[0] - 0x30, Pow(base, last - 1), if last == 1 then 0 else Value(front[1..], base), base);
    }
  }

  lemma ValueStep(s: Bytes, base: nat)
    requires IsDigits(s, base)
    ensures Value([], base) == 0 && Value(s, base) == Value(s[..|s| - 1], base) * base + (s[|s| - 1] - 0x30)
  {
  }

  lemma PowStep(base: nat, n: nat)
    ensures Pow(base, 0) == 1 && (n > 0 ==> Pow(base, n) == base * Pow(base, n - 1))
  {
  }

  lemma Regroup(a: int, p: int, v: int, base: int)
    ensures (a * p + v) * base == a * (base * p) + v * base
  {
  }

  // ---------- sparse records ----------

  // "<digits> GNU.sparse.size=<digits>" or "<digits> GNU.sparse.realsize=<digits>", and the end of the line.
  predicate SparseLine(s: Bytes, length: Bytes, key: Bytes, size: Bytes)
  {
    && length + GNU_SPARSE + key + size + [NEWLINE] <= s
    && IsDigits(length, 10) && (key == SIZE_IS || key == REALSIZE_IS) && IsDigits(size, 10)
  }

  lemma {:induction false} DigitsThenOther(d: Bytes, x: Bytes)
    requires (d == [] || IsDigits(d, 10)) && x != [] && !(0x30 <= x[0] < 0x3A)
    ensures DigitsLength(d + x) == |d|
    decreases |d|
  {
    if d == [] {
      assert d + x == x;
    } else {
      assert (d + x)[1..] == d[1..] + x;
      DigitsThenOther(d[1..], x);
    }
  }

  /** A sparse record begins at the start of `s`, with size `n`, exactly when such a line does. */
  lemma SparseRecordIff(s: Bytes, n: nat)
    ensures SparseRecord(s) == Some(n) <==> exists length, key, size :: SparseLine(s, length, key, size) && Value(size, 10) == n
  {
    hide Value;
    if SparseRecord(s) == Some(n) { var length, key, size := RecordHasLine(s, n); }
    if length, key, size :| SparseLine(s, length, key, size) && Value(size, 10) == n { LineIsRecord(s, length, key, size); }
  }

  // Beginnings of what is left after a beginning.
  lemma Beginnings(s: Bytes, a: Bytes, b: Bytes)
    ensures a + b <= s <==> a <= s && b <= s[|a|..]
    ensures a + b <= s ==> s[|a + b|..] == s[|a|..][|b|..]
  {
    if a <= s && b <= s[|a|..] { assert s == a + (b + s[|a|..][|b|..]) == a + b + s[|a|..][|b|..]; }
    if a + b <= s { assert s == a + b + s[|a + b|..] == a + (b + s[|a + b|..]); }
  }

  lemma RecordHasLine(s: Bytes, n: nat) returns (length: Bytes, key: Bytes, size: Bytes)
    requires SparseRecord(s) == Some(n)
    ensures SparseLine(s, length, key, size) && Value(size, 10) == n
  {
    hide Value, DigitsLength, SizeLine;
    length := s[..DigitsLength(s)];
    var u := s[|length|..][|GNU_SPARSE|..];
    key := if StartsWith(u, REALSIZE_IS) then REALSIZE_IS else SIZE_IS;
    size := LineHasSize(u[|key|..], n);
    Beginnings(s, length, GNU_SPARSE);
    Beginnings(s, length + GNU_SPARSE, key);
    Beginnings(s, length + GNU_SPARSE + key, size);
    Beginnings(s, length + GNU_SPARSE + key + size, [NEWLINE]);
    Beginnings(u[|key|..], size, [NEWLINE]);
  }

  lemma LineHasSize(v: Bytes, n: nat) returns (size: Bytes)
    requires SizeLine(v) == Some(n)
    ensures size + [NEWLINE] <= v && IsDigits(size, 10) && Value(size, 10) == n
  {
    hide Value, DigitsLength;
    var k := DigitsLength(v);
    size := v[..k];
    assert v == size + [NEWLINE] + v[k + 1..];
  }

  lemma LineIsRecord(s: Bytes, length: Bytes, key: Bytes, size: Bytes)
    requires SparseLine(s, length, key, size)
    ensures SparseRecord(s) == Some(Value(size, 10))
  {
    hide Value, DigitsLength, SizeLine;
    Beginnings(s, length + GNU_SPARSE + key + size, [NEWLINE]);
    Beginnings(s, length + GNU_SPARSE + key, size);
    Beginnings(s, length + GNU_SPARSE, key);
    Beginnings(s, length, GNU_SPARSE);
    var t := s[|length|..];
    var u := t[|GNU_SPARSE|..];
    var v := u[|key|..];
    assert t[0] == GNU_SPARSE[0];
    assert s == length + t && v == size + v[|size|..];
    DigitsThenOther(length, t);
    DigitsThenOther(size, v[|size|..]);
    SizeIsLine(v, size);
    KeyIsRead(u, key);
  }

  lemma KeyIsRead(u: Bytes, key: Bytes)
    requires (key == SIZE_IS || key == REALSIZE_IS) && key <= u
    ensures SparseKey(u) == SizeLine(u[|key|..])
  {
    hide SizeLine;
    assert u[0] == key[0] && SIZE_IS[0] != REALSIZE_IS[0];
  }

  lemma SizeIsLine(v: Bytes, size: Bytes)
    requires size <= v && [NEWLINE] <= v[|size|..] && IsDigits(size, 10) && DigitsLength(v) == |size|
    ensures SizeLine(v) == Some(Value(size, 10))
  {
    hide Value, DigitsLength;
    assert v[|size|] == v[|size|..][0] && v[..|size|] == size;
  }

  // A sparse record begins a line of `body` at `i`.
  predicate RecordAt(body: Bytes, i: nat)
  {
    i <= |body| && (i == 0 || body[i - 1] == NEWLINE) && SparseRecord(body[i..]).Some?
  }

  /** The size probed is that of the first line, from `at` on, that is a sparse record; 0 when there is none. */
  lemma {:induction false} SparseSizeIsFirst(body: Bytes, at: nat)
    requires at <= |body|
    ensures (forall i :: at <= i ==> !RecordAt(body, i)) ==> SparseSize(body, at) == 0
    ensures forall i :: at <= i && RecordAt(body, i) && (forall j :: at <= j < i ==> !RecordAt(body, j))
                        ==> SparseSize(body, at) == SparseRecord(body[i..]).value
    decreases |body| - at
  {
    hide SparseRecord;
    if !RecordAt(body, at) && at < |body| { SparseSizeIsFirst(body, at + 1); }
  }

  // ---------- the names the walk looks for ----------

  predicate Spells(s: Bytes, t: string) { |s| == |t| && forall i :: 0 <= i < |t| ==> s[i] == t[i] as int }

  /** The byte strings and the limits of the walk, as the source spells them. */
  lemma Spelling()
    ensures Spells(PACKAGE, "package") && Spells(DOT, ".") && Spells(DOT_DOT, "..") && Spells(APPLE_DOUBLE, "._")
    ensures Spells([SLASH], "/") && Spells([BACKSLASH], "\\") && Spells([NEWLINE], "\n")
    ensures Spells(GNU_SPARSE, " GNU.sparse.") && Spells(SIZE_IS, "size=") && Spells(REALSIZE_IS, "realsize=")
    ensures Spells([REGULAR], "0") && Spells([DIRECTORY], "5") && Spells([PAX], "x") && REGULAR_OLD == 0
    ensures MAX_UNPACKED_BYTES == 64 * 1024 * 1024 && MAX_ENTRY_BYTES == 16 * 1024 * 1024
    ensures MAX_ENTRIES == 4096 && MAX_PATH_BYTES == 512 && MAX_SAFE_INTEGER == 9007199254740991
  {
  }
}
