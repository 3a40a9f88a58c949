/**
 What the digest streams consist of, without the functions that build them: which permission bits count, how a record
 is written down, and in which order the entries of a tree come.
 */
module TreeForms {
  import opened Common
  import opened Bytes
  import opened Text
  import opened TreeDigest

  // ---------- permission bits ----------

  predicate Bit(m: nat, i: nat)
    decreases i
  {
    if i == 0 then m % 2 == 1 else Bit(m / 2, i - 1)
  }

  lemma Halves(m: nat, p: nat)
    requires p > 0
    ensures (m % (2 * p)) / 2 == (m / 2) % p && (m % (2 * p)) % 2 == m % 2
  {
    var q, r := m / 2 / p, m / 2 % p;
    assert m == 2 * (q * p + r) + m % 2;
    assert m == (2 * p) * q + (2 * r + m % 2);
    Remainder(m, 2 * p, q, 2 * r + m % 2);
  }

  lemma Remainder(m: nat, d: nat, q: nat, r: nat)
    requires d > 0 && m == d * q + r && r < d
    ensures m % d == r
  {
    var a, b := m / d, m % d;
    assert m == d * a + b;
    var x: int, y: int, e: int := a, q, d;
    assert e * (x - y) == e * x - e * y;
    Multiples(d, x - y);
  }

  lemma Multiples(d: nat, k: int)
    ensures k > 0 ==> d * k >= d
    ensures k < 0 ==> d * k + d <= 0
  {
  }

  // The last `k` bits of a number, one by one.
  lemma {:induction false} LowBits(m: nat, k: nat, i: nat)
    requires Pow(2, k) > 0
    ensures Bit(m % Pow(2, k), i) <==> i < k && Bit(m, i)
    decreases k
  {
    if k == 0 {
      assert m % 1 == 0;
      NoBits(i);
    } else {
      Halves(m, Pow(2, k - 1));
      if i > 0 { LowBits(m / 2, k - 1, i - 1); }
    }
  }

  lemma {:induction false} NoBits(i: nat)
    ensures !Bit(0, i)
    decreases i
  {
    if i > 0 { NoBits(i - 1); }
  }

  // Two numbers with the same bits are the same.
  lemma {:induction false} BitsDecide(m: nat, n: nat)
    requires forall i: nat :: Bit(m, i) == Bit(n, i)
    ensures m == n
    decreases m + n
  {
    assert Bit(m, 0) == Bit(n, 0);
    if m + n > 0 {
      forall i: nat ensures Bit(m / 2, i) == Bit(n / 2, i) { assert Bit(m, i + 1) == Bit(n, i + 1); }
      BitsDecide(m / 2, n / 2);
    }
  }

  // Six bits further up.
  lemma Raised(m: nat, i: nat)
    ensures Bit(m * 64, i) <==> i >= 6 && Bit(m, i - 6)
    ensures Bit(m / 64, i) == Bit(m, i + 6)
  {
    assert m * 64 / 2 == m * 32 && m * 32 / 2 == m * 16 && m * 16 / 2 == m * 8;
    assert m * 8 / 2 == m * 4 && m * 4 / 2 == m * 2 && m * 2 / 2 == m;
    Up(m * 32, i);
    if i >= 1 { Up(m * 16, i - 1); }
    if i >= 2 { Up(m * 8, i - 2); }
    if i >= 3 { Up(m * 4, i - 3); }
    if i >= 4 { Up(m * 2, i - 4); }
    if i >= 5 { Up(m, i - 5); }
    assert m / 2 / 2 / 2 / 2 / 2 / 2 == m / 64;
    Down(m, i + 6);
    Down(m / 2, i + 5);
    Down(m / 2 / 2, i + 4);
    Down(m / 2 / 2 / 2, i + 3);
    Down(m / 2 / 2 / 2 / 2, i + 2);
    Down(m / 2 / 2 / 2 / 2 / 2, i + 1);
  }

  lemma Up(m: nat, i: nat)
    ensures Bit(2 * m, i) <==> i >= 1 && Bit(m, i - 1)
  {
    assert 2 * m / 2 == m && 2 * m % 2 == 0;
  }

  lemma Down(m: nat, i: nat)
    requires i > 0
    ensures Bit(m, i) == Bit(m / 2, i - 1)
  {
  }

  // The permission bits a mask lets through.
  predicate Counts(mask: Mask, i: nat)
  {
    match mask
    case Permissions => i < 9
    case OwnerOnly => 6 <= i < 9
    case NoModes => false
  }

  /** A masked mode has exactly the counted bits of the mode. */
  lemma MaskedBits(mode: nat, mask: Mask, i: nat)
    ensures Bit(Masked(mode, mask), i) <==> Counts(mask, i) && Bit(mode, i)
  {
    assert Pow(2, 3) == 8 && Pow(2, 9) == 8 * 8 * Pow(2, 3);
    match mask
    case NoModes => NoBits(i);
    case Permissions => LowBits(mode, 9, i);
    case OwnerOnly =>
      Raised(mode % 512 / 64, i);
      if i >= 6 {
        Raised(mode % 512, i - 6);
        LowBits(mode, 9, i);
      }
  }

  /** Two modes mask alike exactly when they agree in every bit that counts. */
  lemma MaskedAlikeIff(m: nat, n: nat, mask: Mask)
    ensures Masked(m, mask) == Masked(n, mask) <==> forall i: nat :: Counts(mask, i) ==> Bit(m, i) == Bit(n, i)
    ensures m < 512 ==> Masked(m, Permissions) == m
  {
    hide Masked, Bit;
    forall i: nat ensures Bit(Masked(m, mask), i) <==> Counts(mask, i) && Bit(m, i) { MaskedBits(m, mask, i); }
    forall i: nat ensures Bit(Masked(n, mask), i) <==> Counts(mask, i) && Bit(n, i) { MaskedBits(n, mask, i); }
    if Masked(m, mask) == Masked(n, mask) {
      forall i: nat | Counts(mask, i) ensures Bit(m, i) == Bit(n, i) {}
    } else if forall i: nat :: Counts(mask, i) ==> Bit(m, i) == Bit(n, i) {
      BitsDecide(Masked(m, mask), Masked(n, mask));
    }
    SmallModeStays(m);
  }

  lemma SmallModeStays(m: nat)
    ensures m < 512 ==> Masked(m, Permissions) == m
  {
  }

  // ---------- records ----------

  /** How each record is written: its letter, path, mode, and size or target, each ended by NUL, and then the content. */
  lemma RecordLayout(path: string, mode: nat, content: Bytes, target: string, mask: Mask)
    ensures var m := if mask.NoModes? then "" else Decimal(mode) + "\0";
            && RecordBytes(DirRecord(path, mode), mask) == Encode("d\0" + path + "\0" + m)
            && RecordBytes(FileRecord(path, mode, content), mask)
               == Encode("f\0" + path + "\0" + m + Decimal(|content|) + "\0") + content
            && RecordBytes(LinkRecord(path, target), mask) == Encode("l\0" + path + "\0" + target + "\0")
  {
    hide Encode, Field, Decimal, ModeField;
    var m := if mask.NoModes? then "" else Decimal(mode) + "\0";
    ModeIs(mode, mask);
    FieldIs(path);
    DirLayout(path, m);
    FileLayout(path, m, Decimal(|content|));
    LinkLayout(path, target);
  }

  lemma ModeIs(mode: nat, mask: Mask)
    ensures ModeField(mode, mask) == Encode(if mask.NoModes? then "" else Decimal(mode) + "\0")
  {
    hide Decimal;
    FieldIs(Decimal(mode));
  }

  lemma DirLayout(path: string, m: string)
    ensures Encode("d\0" + path + "\0" + m) == Field("d") + Field(path) + Encode(m)
  {
    hide Encode, Field;
    FieldIs("d");
    assert "d" + "\0" == "d\0";
    FieldIs(path);
    Joined("d\0", path + "\0", m);
    assert "d\0" + (path + "\0") + m == "d\0" + path + "\0" + m;
  }

  lemma FileLayout(path: string, m: string, size: string)
    ensures Encode("f\0" + path + "\0" + m + size + "\0") == Field("f") + Field(path) + Encode(m) + Field(size)
  {
    hide Encode, Field;
    FieldIs("f");
    assert "f" + "\0" == "f\0";
    FieldIs(path);
    FieldIs(size);
    Joined("f\0", path + "\0", m);
    EncodeConcat("f\0" + (path + "\0") + m, size + "\0");
    assert "f\0" + (path + "\0") + m + (size + "\0") == "f\0" + path + "\0" + m + size + "\0";
  }

  lemma LinkLayout(path: string, target: string)
    ensures Encode("l\0" + path + "\0" + target + "\0") == Field("l") + Field(path) + Field(target)
  {
    hide Encode, Field;
    FieldIs("l");
    assert "l" + "\0" == "l\0";
    FieldIs(path);
    FieldIs(target);
    Joined("l\0", path + "\0", target + "\0");
    assert "l\0" + (path + "\0") + (target + "\0") == "l\0" + path + "\0" + target + "\0";
  }

  /** A stream is its records one after another. */
  lemma StreamIsRecords(r: Record, rs: seq<Record>, mask: Mask)
    ensures StreamOf([], mask) == [] && StreamOf([r] + rs, mask) == RecordBytes(r, mask) + StreamOf(rs, mask)
  {
    hide RecordBytes;
    assert ([r] + rs)[1..] == rs;
  }

  lemma FieldIs(s: string)
    ensures Field(s) == Encode(s + "\0")
  {
    EncodeConcat(s, "\0");
    assert "\0"[1..] == [] && Utf8('\0') == [0];
    assert Encode("\0") == [0];
  }

  lemma Joined(a: string, b: string, c: string)
    ensures Encode(a + b + c) == Encode(a) + Encode(b) + Encode(c)
  {
    EncodeConcat(a + b, c);
    EncodeConcat(a, b);
  }

  // ---------- the order of a tree ----------

  /**
   The stream of a release, on a tree with every kind of entry: the root first, then the entries in the order of their
   names whatever the order of the listing, a directory before its contents, with paths below the root, and without
   a marker at the top.
   */
  lemma ReleaseStreamInOrder(root: nat, a: string, b: string, l: string, marker: string, dm: nat, fm: nat, content: Bytes,
                             target: string, mask: Mask)
    requires Less(a, b) && a != "" && a !in {".cc-channel.json", ".cc-unguarded-launch"} && b !in {".cc-channel.json", ".cc-unguarded-launch"}
    requires marker == ".cc-channel.json" || marker == ".cc-unguarded-launch"
    ensures ReleaseStream(root, [Entry(b, File(fm, content)), Entry(marker, File(fm, [])), Entry(a, Dir(dm, [Entry(l, Link(target))]))], mask)
            == StreamOf([DirRecord(".", Masked(root, mask)), DirRecord(a, Masked(dm, mask)), LinkRecord(a + "/" + l, target),
                         FileRecord(b, Masked(fm, mask), content)], mask)
  {
    hide Less, RecordBytes, Masked, Records, Sort, CanonAll, WithoutMarkers, StreamOf;
    var es := [Entry(b, File(fm, content)), Entry(marker, File(fm, [])), Entry(a, Dir(dm, [Entry(l, Link(target))]))];
    var ca := Entry(a, Dir(Masked(dm, mask), [Entry(l, Link(target))]));
    var cb := Entry(b, File(Masked(fm, mask), content));
    var cm := Entry(marker, File(Masked(fm, mask), []));
    CanonOfThree(es, mask, ca, cb, cm);
    SortedWithout(ca, cb, cm);
    RecordsOfTwo(ca, cb, l, target);
    var rs := [DirRecord(a, Masked(dm, mask)), LinkRecord(a + "/" + l, target), FileRecord(b, Masked(fm, mask), content)];
    assert [DirRecord(".", Masked(root, mask))] + rs == [DirRecord(".", Masked(root, mask)), rs[0], rs[1], rs[2]];
  }

  lemma CanonOfThree(es: seq<Entry>, mask: Mask, ca: Entry, cb: Entry, cm: Entry)
    requires |es| == 3 && es[0].node.File? && es[1].node.File? && es[2].node.Dir?
    requires |es[2].node.entries| == 1 && es[2].node.entries[0].node.Link?
    requires cb == Entry(es[0].name, File(Masked(es[0].node.mode, mask), es[0].node.content))
    requires cm == Entry(es[1].name, File(Masked(es[1].node.mode, mask), es[1].node.content))
    requires ca == Entry(es[2].name, Dir(Masked(es[2].node.mode, mask), es[2].node.entries))
    ensures CanonAll(es, mask) == [cb, cm, ca]
  {
    hide Masked;
    CanonOfDir(es[2].node, mask);
    assert es[1..] == [es[1], es[2]] && es[1..][1..] == [es[2]] && [es[2]][1..] == [];
    assert CanonAll([es[2]], mask) == [ca];
    assert CanonAll(es[1..], mask) == [cm, ca];
  }

  lemma SortOfTwo(e: Entry, f: Entry)
    requires Less(f.name, e.name)
    ensures Sort([e, f]) == [f, e] == Sort([f, e])
  {
    LessTotal(e.name, f.name);
    hide Less;
    assert [e, f][1..] == [f] && [f][1..] == [] && [f, e][1..] == [e] && [e][1..] == [];
    assert Sort([f]) == [f] && Sort([e]) == [e] && Insert(e, []) == [e];
  }

  lemma SortedWithout(ca: Entry, cb: Entry, cm: Entry)
    requires Less(ca.name, cb.name) && ca.name !in MARKERS && cb.name !in MARKERS && cm.name in MARKERS
    ensures WithoutMarkers(Sort([cb, cm, ca])) == [ca, cb]
  {
    LessTotal(ca.name, cb.name);
    LessTotal(ca.name, cm.name);
    assert [cb, cm, ca][1..] == [cm, ca];
    hide Less;
    if Less(cm.name, ca.name) {
      SortOfTwo(ca, cm);
      if Less(cb.name, cm.name) { LessTransitive(cb.name, cm.name, ca.name); }
      WithoutFirst(cb, ca, cm);
    } else {
      SortOfTwo(cm, ca);
      WithoutSecond(cb, ca, cm);
    }
  }

  lemma WithoutFirst(cb: Entry, ca: Entry, cm: Entry)
    requires !Less(cb.name, ca.name) && !Less(cb.name, cm.name)
    requires ca.name !in MARKERS && cb.name !in MARKERS && cm.name in MARKERS
    ensures WithoutMarkers(Insert(cb, [cm, ca])) == [ca, cb]
  {
    hide Less;
    assert [cm, ca][1..] == [ca] && [ca][1..] == [];
    assert Insert(cb, []) == [cb];
    assert Insert(cb, [ca]) == [ca, cb];
    assert Insert(cb, [cm, ca]) == [cm, ca, cb] && [cm, ca, cb][1..] == [ca, cb];
    WithoutTwo(ca, cb);
  }

  lemma WithoutSecond(cb: Entry, ca: Entry, cm: Entry)
    requires !Less(cb.name, ca.name) && ca.name !in MARKERS && cb.name !in MARKERS && cm.name in MARKERS
    ensures WithoutMarkers(Insert(cb, [ca, cm])) == [ca, cb]
  {
    hide Less;
    assert [ca, cm][1..] == [cm] && [cm][1..] == [];
    assert Insert(cb, []) == [cb];
    var rest := Insert(cb, [cm]);
    assert rest == [cb, cm] || rest == [cm, cb];
    WithoutTwo(cb, cm);
    WithoutTwo(cm, cb);
    assert Insert(cb, [ca, cm]) == [ca] + rest && ([ca] + rest)[1..] == rest;
  }

  lemma WithoutTwo(e: Entry, f: Entry)
    ensures WithoutMarkers([e, f]) == (if e.name in MARKERS then [] else [e]) + (if f.name in MARKERS then [] else [f])
  {
    assert [e, f][1..] == [f] && [f][1..] == [];
    assert WithoutMarkers([f]) == if f.name in MARKERS then [] else [f];
  }

  lemma RecordsOfTwo(ca: Entry, cb: Entry, l: string, target: string)
    requires ca.name != "" && ca.node.Dir? && ca.node.entries == [Entry(l, Link(target))] && cb.node.File?
    ensures Records([ca, cb], "") ==
            [DirRecord(ca.name, ca.node.mode), LinkRecord(ca.name + "/" + l, target), FileRecord(cb.name, cb.node.mode, cb.node.content)]
  {
    var inner := ca.node.entries;
    assert inner[1..] == [] && [ca, cb][1..] == [cb] && [cb][1..] == [];
    assert Records(inner, ca.name) == [LinkRecord(ca.name + "/" + l, target)];
    assert Records([cb], "") == [FileRecord(cb.name, cb.node.mode, cb.node.content)];
  }

  /** The stream of an npm installation on such a tree: no root, no modes, and nothing left out. */
  lemma NpmStreamInOrder(a: string, b: string, l: string, dm: nat, fm: nat, content: Bytes, target: string)
    requires Less(a, b) && a != ""
    ensures NpmStream([Entry(b, File(fm, content)), Entry(a, Dir(dm, [Entry(l, Link(target))]))])
            == StreamOf([DirRecord(a, 0), LinkRecord(a + "/" + l, target), FileRecord(b, 0, content)], NoModes)
  {
    hide Less, StreamOf, Records, Sort, CanonAll;
    var es := [Entry(b, File(fm, content)), Entry(a, Dir(dm, [Entry(l, Link(target))]))];
    var ca, cb := Entry(a, Dir(0, [Entry(l, Link(target))])), Entry(b, File(0, content));
    CanonOfTwo(es, NoModes, ca, cb);
    SortOfTwo(cb, ca);
    RecordsOfTwo(ca, cb, l, target);
  }

  lemma CanonOfTwo(es: seq<Entry>, mask: Mask, ca: Entry, cb: Entry)
    requires |es| == 2 && es[0].node.File? && es[1].node.Dir? && |es[1].node.entries| == 1 && es[1].node.entries[0].node.Link?
    requires cb == Entry(es[0].name, File(Masked(es[0].node.mode, mask), es[0].node.content))
    requires ca == Entry(es[1].name, Dir(Masked(es[1].node.mode, mask), es[1].node.entries))
    ensures CanonAll(es, mask) == [cb, ca]
  {
    hide Masked;
    CanonOfDir(es[1].node, mask);
    assert es[1..] == [es[1]] && es[1..][1..] == [];
    assert CanonAll(es[1..], mask) == [ca];
  }

  lemma CanonOfDir(d: Node, mask: Mask)
    requires d.Dir? && |d.entries| == 1 && d.entries[0].node.Link?
    ensures Canon(d, mask) == Dir(Masked(d.mode, mask), d.entries)
  {
    hide Masked;
    var e := d.entries[0];
    assert d.entries == [e] && [e][1..] == [];
    assert CanonAll([e], mask) == [e];
    assert Sort([e]) == [e];
  }
}
