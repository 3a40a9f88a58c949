/**
 The other side of the format: a writer of the ustar Interchange Format (pax utility, IEEE Std
 1003.1-2017) and the proof that the walk reads back exactly what was written.
 */
module ArchiveWriter {
  import opened Common
  import opened Bytes
  import opened Archive
  import opened ArchiveFields
  import opened ArchiveGrammar

  // The blanks before and the blanks and NULs behind the digits of an octal field.
  datatype Frame = Frame(lead: Bytes, end: Bytes)

  predicate LegalFrame(f: Frame)
  {
    (forall i :: 0 <= i < |f.lead| ==> f.lead[i] == BLANK) && (forall i :: 0 <= i < |f.end| ==> f.end[i] == BLANK || f.end[i] == 0)
  }

  // The digits that a frame leaves of a field of `width` bytes.
  function Room(f: Frame, width: nat): int { width - |f.lead| - |f.end| }

  const BLANK: byte := 0x20

  // One entry to archive; the fields the walk ignores are arbitrary bytes of the right length.
  datatype Source = Source(
    prefix: Bytes, name: Bytes, directory: bool, data: Bytes, flag: byte,
    owner: Bytes, mtime: Bytes, link: Bytes, pad: Bytes, size: Frame, checksum: Frame)

  ghost predicate LegalSource(e: Source)
  {
    && |e.name| <= 100 && |e.prefix| <= 155 && 0 !in e.name && 0 !in e.prefix
    && CleanText(e.name) && CleanText(e.prefix)
    && |e.owner| == 24 && |e.mtime| == 12 && |e.link| == 188 && |e.pad| == 12
    && e.flag in (if e.directory then {DIRECTORY} else {REGULAR_OLD, REGULAR})
    && |e.data| <= MAX_ENTRY_BYTES && (e.directory ==> e.data == [])
    && LegalPath(EntryPath(e.prefix, e.name), e.directory)
    && LegalFrame(e.size) && Room(e.size, 12) > 0 && |e.data| < Pow(8, Room(e.size, 12))
    && LegalFrame(e.checksum) && Room(e.checksum, 8) >= 6
  }

  // `n` in octal digits in a frame, which may begin and end with blanks as well as with NULs.
  function OctalField(n: nat, width: nat, f: Frame): (s: Bytes)
    requires Room(f, width) >= 0
    ensures |s| == width
  {
    f.lead + Numeral(n, 8, Room(f, width)) + f.end
  }

  function Zeros(n: nat): (s: Bytes)
    ensures |s| == n && AllZero(s)
  {
    seq(n, i => 0)
  }

  function PadTo(s: Bytes, n: nat): (t: Bytes)
    requires |s| <= n
    ensures |t| == n
  {
    s + Zeros(n - |s|)
  }

  // The header around its checksum field.
  function Before(e: Source): (s: Bytes)
    requires LegalSource(e)
    ensures |s| == 148
  {
    PadTo(e.name, 100) + e.owner + OctalField(|e.data|, 12, e.size) + e.mtime
  }

  function Behind(e: Source): (s: Bytes)
    requires LegalSource(e)
    ensures |s| == 356
  {
    [e.flag] + e.link + PadTo(e.prefix, 155) + e.pad
  }

  function Header(e: Source): (s: Bytes)
    requires LegalSource(e)
    ensures |s| == 512
  {
    Before(e) + OctalField(Sum(Before(e)) + 8 * 0x20 + Sum(Behind(e)), 8, e.checksum) + Behind(e)
  }

  function Write(e: Source): Member
    requires LegalSource(e)
  {
    Member(Header(e), PadTo(e.data, Padded(|e.data|)))
  }

  ghost predicate AllLegal(es: seq<Source>) { forall i :: 0 <= i < |es| ==> LegalSource(es[i]) }

  function WriteAll(es: seq<Source>): (ms: seq<Member>)
    requires AllLegal(es)
    ensures |ms| == |es|
    decreases |es|
  {
    if es == [] then [] else [Write(es[0])] + WriteAll(es[1..])
  }

  // The headers a reader should visit, and where.
  function Expected(es: seq<Source>, offset: nat): seq<Visit>
    decreases |es|
  {
    if es == [] then []
    else
      var size := |es[0].data|;
      [Visit(offset, EntryPath(es[0].prefix, es[0].name), es[0].directory, size)]
      + Expected(es[1..], offset + 512 + Padded(size))
  }

  // ---------- fields ----------

  lemma TarStringOfPadded(s: Bytes, n: nat)
    requires 0 !in s && |s| <= n && CleanText(s)
    ensures TarString(PadTo(s, n)) == Ok(s)
  {
    CutPadded(s, Zeros(n - |s|));
  }

  // Where the blanks behind the digits stop, a NUL or the end of the field follows.
  lemma {:induction false} BlanksThenNul(end: Bytes) returns (k: nat)
    requires forall i :: 0 <= i < |end| ==> end[i] == BLANK || end[i] == 0
    ensures k <= |end| && (forall i :: 0 <= i < k ==> end[i] == BLANK) && (k < |end| ==> end[k] == 0)
    decreases |end|
  {
    if end == [] || end[0] == 0 {
      k := 0;
    } else {
      var more := BlanksThenNul(end[1..]);
      k := more + 1;
      assert forall i :: 0 < i < k ==> end[i] == end[1..][i - 1];
    }
  }

  lemma BlanksAreBlank(s: Bytes) returns (t: string)
    requires forall i :: 0 <= i < |s| ==> s[i] == BLANK
    ensures Blank(t) && Text.Encode(t) == s
  {
    t := Ascii(s);
    AsciiEncodes(t);
    forall i | 0 <= i < |t| ensures t[i] == ' ' { assert t[i] as int == s[i]; }
  }

  /** An octal field reads back as the number it was written for, whatever blanks and NULs it is framed with. */
  lemma TarOctalOfNumeral(n: nat, width: nat, f: Frame)
    requires LegalFrame(f) && 0 < Room(f, width) <= 12 && n < Pow(8, Room(f, width))
    ensures TarOctal(OctalField(n, width, f)) == Ok(n)
  {
    hide Numeral, Value, Pow, Blank, TarOctal;
    var digits := Numeral(n, 8, Room(f, width));
    var field := OctalField(n, width, f);
    var k := BlanksThenNul(f.end);
    var lead := BlanksAreBlank(f.lead);
    var tail := BlanksAreBlank(f.end[..k]);
    ValueOfNumeral(n, 8, Room(f, width));
    PowerOfEight(Room(f, width));
    assert f.end == f.end[..k] + f.end[k..];
    assert field == f.lead + digits + f.end[..k] + f.end[k..];
    assert field[0] == (f.lead + digits)[0];
    assert OctalShape(field, lead, digits, tail, f.end[k..]);
    TarOctalIff(field, n);
  }

  lemma PowerOfEight(width: nat)
    requires width <= 12
    ensures Pow(8, width) <= MAX_SAFE_INTEGER + 1
  {
    assert Pow(8, 6) == 262144;
    if width <= 6 {
      PowerGrows(width, 6);
    } else {
      assert Pow(8, 12) == 8 * 8 * 8 * 8 * 8 * 8 * Pow(8, 6);
      PowerGrows(width, 12);
    }
  }

  lemma {:induction false} PowerGrows(m: nat, n: nat)
    requires m <= n
    ensures 0 < Pow(8, m) <= Pow(8, n)
    decreases n
  {
    if m < n {
      PowerGrows(m, n - 1);
    } else if m > 0 {
      PowerGrows(m - 1, n - 1);
    }
  }

  /** No octal field of a header is long enough to exceed a safe integer: that error cannot happen. */
  lemma OctalFieldIsBounded(field: Bytes)
    requires 0 < |field| <= 12
    ensures TarOctal(field) != Err(UnboundedField)
  {
    hide Pow, Value, TrimStart, TrimEnd, CutAtNul, CleanText;
    var digits := TrimEnd(TrimStart(CutAtNul(field)));
    if IsDigits(digits, 8) {
      ValueBound(digits, 8);
      PowerOfEight(|digits|);
    }
  }

  /** Nor can two header fields form a path longer than 256 bytes: the path limit of 512 never decides. */
  lemma PathLimitNeverDecides(header: Bytes)
    requires |header| == 512 && PathOf(header).Ok?
    ensures |PathOf(header).value| <= 256 < MAX_PATH_BYTES
  {
    hide CutAtNul, CleanText;
  }

  // ---------- a written member is legal ----------

  lemma HeaderSlices(e: Source)
    requires LegalSource(e)
    ensures var h := Header(e);
            && h[..148] == Before(e) && h[156..] == Behind(e)
            && h[148..156] == OctalField(Checksum(h), 8, e.checksum)
            && h[..100] == PadTo(e.name, 100) && h[124..136] == OctalField(|e.data|, 12, e.size)
            && h[156] == e.flag && h[345..500] == PadTo(e.prefix, 155)
  {
    hide OctalField, Sum, LegalPath, CleanText, LegalFrame;
    var h := Header(e);
    assert h[..148] == Before(e) && h[156..] == Behind(e);
    assert h[..100] == Before(e)[..100] && h[124..136] == Before(e)[124..136];
    assert h[345..500] == Behind(e)[189..344];
  }

  lemma WrittenIsLegal(e: Source)
    requires LegalSource(e)
    ensures LegalMember(Write(e), EntryPath(e.prefix, e.name), e.directory, |e.data|)
  {
    hide LegalPath, CleanText, TarOctal, TarString, OctalField, Pow, Sum;
    var h := Header(e);
    HeaderSlices(e);
    SumBound(Before(e));
    SumBound(Behind(e));
    ChecksumFits(Checksum(h), Room(e.checksum, 8));
    TarOctalOfNumeral(Checksum(h), 8, e.checksum);
    TarOctalOfNumeral(|e.data|, 12, e.size);
    TarStringOfPadded(e.name, 100);
    TarStringOfPadded(e.prefix, 155);
    NumberIsThere(h, e);
  }

  lemma NumberIsThere(h: Bytes, e: Source)
    requires |h| == 512 && LegalSource(e) && h[124..136] == OctalField(|e.data|, 12, e.size)
    ensures !AllZero(h)
  {
    hide LegalPath, CleanText, Numeral, Pow;
    var digits, k := Numeral(|e.data|, 8, Room(e.size, 12)), |e.size.lead|;
    assert OctalField(|e.data|, 12, e.size)[k] == digits[0] >= 0x30;
    assert h[124..136][k] == h[124 + k];
  }

  lemma ChecksumFits(checksum: nat, width: nat)
    requires checksum <= 255 * 504 + 256 && width >= 6
    ensures checksum < Pow(8, width)
  {
    assert Pow(8, 6) == 262144;
    PowerGrows(6, width);
  }

  lemma {:induction false} WrittenLists(es: seq<Source>, zeros: Bytes, offset: nat)
    requires AllLegal(es) && |zeros| >= 512 && AllZero(zeros)
    ensures Lists(Flatten(WriteAll(es)) + zeros, WriteAll(es), Expected(es, offset), offset)
    decreases |es|
  {
    hide *;
    if es == [] {
      NothingLists(zeros, offset);
    } else {
      Unfold(es, offset);
      WrittenLists(es[1..], zeros, offset + 512 + Padded(|es[0].data|));
      WrittenIsLegal(es[0]);
      WrittenShape(es[0]);
      var m := Write(es[0]);
      var v := Visit(offset, EntryPath(es[0].prefix, es[0].name), es[0].directory, |es[0].data|);
      ListsCons(m, v, Flatten(WriteAll(es[1..])) + zeros, WriteAll(es[1..]), Expected(es[1..], offset + 512 + Padded(|es[0].data|)));
      FlattenCons(m, WriteAll(es[1..]), zeros);
    }
  }

  lemma Unfold(es: seq<Source>, offset: nat)
    requires es != [] && AllLegal(es)
    ensures LegalSource(es[0]) && AllLegal(es[1..])
    ensures WriteAll(es) == [Write(es[0])] + WriteAll(es[1..])
    ensures var v := Visit(offset, EntryPath(es[0].prefix, es[0].name), es[0].directory, |es[0].data|);
            Expected(es, offset) == [v] + Expected(es[1..], offset + 512 + Padded(v.size))
  {
    hide LegalSource, Write;
  }

  lemma NothingLists(zeros: Bytes, offset: nat)
    requires |zeros| >= 512 && AllZero(zeros)
    ensures Lists(Flatten(WriteAll([])) + zeros, WriteAll([]), Expected([], offset), offset)
  {
    assert Flatten([]) + zeros == zeros;
  }

  lemma FlattenCons(m: Member, ms: seq<Member>, tail: Bytes)
    ensures Flatten([m] + ms) + tail == m.header + m.body + (Flatten(ms) + tail)
  {
    assert ([m] + ms)[1..] == ms;
  }

  lemma WrittenShape(e: Source)
    requires LegalSource(e)
    ensures |Write(e).header| == 512 && |Write(e).body| == Padded(|e.data|)
  {
  }

  /**
   Archive round trip: every list of one to 4096 legal entries within the size limits, written in the
   ustar format and followed by any number of zero bytes from one block on, is accepted, and the walk
   visits exactly its headers with their offsets, paths, kinds and sizes.
   */
  lemma RoundTrip(es: seq<Source>, zeros: Bytes)
    requires 1 <= |es| <= MAX_ENTRIES && AllLegal(es)
    requires TotalSize(Expected(es, 0)) <= MAX_UNPACKED_BYTES
    requires |zeros| >= 512 && AllZero(zeros)
    ensures Walk(Flatten(WriteAll(es)) + zeros, 0, 0, 0, false) == Ok(Expected(es, 0))
  {
    WrittenLists(es, zeros, 0);
    WalkAccepts(Flatten(WriteAll(es)) + zeros, WriteAll(es), Expected(es, 0), 0, 0, 0);
  }
}
