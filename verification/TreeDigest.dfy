/**
 The byte streams that are hashed into a content manifest: releaseContentDigest
 (scripts/install-channel.mjs) and npmInstallationDigest (scripts/release-toolchain.mjs).
 The hash itself is left uninterpreted; the theorems are about the stream it is fed.
 */
module TreeDigest {
  import opened Common
  import opened Bytes
  import opened Text

  datatype Node =
    | Dir(mode: nat, entries: seq<Entry>) // entries in the order the directory lists them
    | File(mode: nat, content: Bytes)
    | Link(target: string)
    | Other                               // a socket, device or pipe

  datatype Entry = Entry(name: string, node: Node)

  datatype Record =
    | DirRecord(path: string, mode: nat)
    | FileRecord(path: string, mode: nat, content: Bytes)
    | LinkRecord(path: string, target: string)

  // modeMask 0o777 or 0o700, or no mode at all (the npm encoder).
  datatype Mask = Permissions | OwnerOnly | NoModes

  function Masked(mode: nat, mask: Mask): nat
  {
    match mask
    case Permissions => mode % 512
    case OwnerOnly => mode % 512 / 64 * 64
    case NoModes => 0
  }

  // ---------- what a file system can hold ----------

  predicate ValidName(n: string) { n != "" && '/' !in n && NoNul(n) }

  predicate Names(es: seq<Entry>) { forall i, j :: 0 <= i < j < |es| ==> es[i].name != es[j].name }

  predicate ValidNode(n: Node)
  {
    match n
    case Dir(_, es) => Names(es) && forall e :: e in es ==> ValidName(e.name) && ValidNode(e.node)
    case Link(t) => NoNul(t)
    case _ => true
  }

  predicate Supported(n: Node)
  {
    match n
    case Dir(_, es) => forall e :: e in es ==> Supported(e.node)
    case Other => false
    case _ => true
  }

  predicate ValidForest(es: seq<Entry>) { Names(es) && forall e :: e in es ==> ValidName(e.name) && ValidNode(e.node) }

  predicate SupportedForest(es: seq<Entry>) { forall e :: e in es ==> Supported(e.node) }

  // ---------- sorted, masked form ----------

  function Insert(e: Entry, es: seq<Entry>): (s: seq<Entry>)
    ensures |s| == |es| + 1 && forall x :: x in s <==> x == e || x in es
    decreases |es|
  {
    if es == [] || Less(e.name, es[0].name) then [e] + es else [es[0]] + Insert(e, es[1..])
  }

  function Sort(es: seq<Entry>): (s: seq<Entry>)
    ensures |s| == |es| && forall x :: x in s <==> x in es
    decreases |es|
  {
    if es == [] then [] else Insert(es[0], Sort(es[1..]))
  }

  function Canon(n: Node, mask: Mask): Node
    decreases n, 1
  {
    match n
    case Dir(mode, es) => Dir(Masked(mode, mask), Sort(CanonAll(es, mask)))
    case File(mode, content) => File(Masked(mode, mask), content)
    case _ => n
  }

  function CanonAll(es: seq<Entry>, mask: Mask): (cs: seq<Entry>)
    ensures |cs| == |es| && forall i :: 0 <= i < |es| ==> cs[i].name == es[i].name
    decreases es, 0
  {
    if es == [] then []
    else [Entry(es[0].name, Canon(es[0].node, mask))] + CanonAll(es[1..], mask)
  }

  const MARKERS: set<string> := {".cc-channel.json", ".cc-unguarded-launch"}

  function WithoutMarkers(es: seq<Entry>): (s: seq<Entry>)
    ensures forall x :: x in s <==> x in es && x.name !in MARKERS
    decreases |es|
  {
    if es == [] then []
    else if es[0].name in MARKERS then WithoutMarkers(es[1..])
    else [es[0]] + WithoutMarkers(es[1..])
  }

  // ---------- the stream ----------

  function PathUnder(prefix: string, name: string): string
  {
    if prefix != "" then prefix + "/" + name else name
  }

  // The records of a canonical forest, in the order of the visit.
  function Records(es: seq<Entry>, prefix: string): seq<Record>
    decreases es
  {
    if es == [] then []
    else NodeRecords(es[0].node, PathUnder(prefix, es[0].name)) + Records(es[1..], prefix)
  }

  function NodeRecords(n: Node, path: string): seq<Record>
    decreases n
  {
    match n
    case Dir(mode, es) => [DirRecord(path, mode)] + Records(es, path)
    case File(mode, content) => [FileRecord(path, mode, content)]
    case Link(target) => [LinkRecord(path, target)]
    case Other => []
  }

  function ModeField(mode: nat, mask: Mask): Bytes
  {
    if mask.NoModes? then [] else Field(Decimal(mode))
  }

  function RecordBytes(r: Record, mask: Mask): Bytes
  {
    match r
    case DirRecord(path, mode) => Field("d") + Field(path) + ModeField(mode, mask)
    case FileRecord(path, mode, content) =>
      Field("f") + Field(path) + ModeField(mode, mask) + Field(Decimal(|content|)) + content
    case LinkRecord(path, target) => Field("l") + Field(path) + Field(target)
  }

  function StreamOf(rs: seq<Record>, mask: Mask): Bytes
    decreases |rs|
  {
    if rs == [] then [] else RecordBytes(rs[0], mask) + StreamOf(rs[1..], mask)
  }

  // What a visit of a directory hashes: all entries in name order, at the top level without the markers.
  function Shown(es: seq<Entry>, prefix: string): seq<Entry>
  {
    if prefix == "" then WithoutMarkers(es) else es
  }

  // The pre-hash stream of a release directory, and of an npm installation.
  function ReleaseStream(mode: nat, es: seq<Entry>, mask: Mask): Bytes
  {
    StreamOf([DirRecord(".", Masked(mode, mask))] + Records(WithoutMarkers(Sort(CanonAll(es, mask))), ""), mask)
  }

  function NpmStream(es: seq<Entry>): Bytes
  {
    StreamOf(Records(Sort(CanonAll(es, NoModes)), ""), NoModes)
  }

  // ---------- the stream determines the records ----------

  predicate ValidRecord(r: Record, mask: Mask)
  {
    match r
    case DirRecord(path, mode) => NoNul(path) && (mask.NoModes? ==> mode == 0)
    case FileRecord(path, mode, _) => NoNul(path) && (mask.NoModes? ==> mode == 0)
    case LinkRecord(path, target) => NoNul(path) && NoNul(target)
  }

  predicate ValidRecords(rs: seq<Record>, mask: Mask) { forall r :: r in rs ==> ValidRecord(r, mask) }

  function Kind(r: Record): string
  {
    match r
    case DirRecord(_, _) => "d"
    case FileRecord(_, _, _) => "f"
    case LinkRecord(_, _) => "l"
  }

  // What follows kind and path in a record.
  function Detail(r: Record, mask: Mask): Bytes
  {
    match r
    case DirRecord(_, mode) => ModeField(mode, mask)
    case FileRecord(_, mode, content) => ModeField(mode, mask) + (Field(Decimal(|content|)) + content)
    case LinkRecord(_, target) => Field(target)
  }

  lemma RecordShape(r: Record, mask: Mask, x: Bytes)
    ensures RecordBytes(r, mask) + x == Field(Kind(r)) + (Field(r.path) + (Detail(r, mask) + x))
    ensures NoNul(Kind(r))
  {
    hide Field, Decimal, ModeField;
  }

  lemma ModePrefixFree(m: nat, n: nat, mask: Mask, x: Bytes, y: Bytes)
    requires mask.NoModes? ==> m == 0 && n == 0
    requires ModeField(m, mask) + x == ModeField(n, mask) + y
    ensures m == n && x == y
  {
    hide Field, Decimal;
    if mask.NoModes? {
      assert [] + x == x && [] + y == y;
    } else {
      FieldPrefixFree(Decimal(m), Decimal(n), x, y);
      DecimalInjective(m, n);
    }
  }

  lemma EqualHalves<T>(c: seq<T>, d: seq<T>, x: seq<T>, y: seq<T>)
    requires |c| == |d| && c + x == d + y
    ensures c == d && x == y
  {
    assert c == (c + x)[..|c|] && d == (d + y)[..|d|];
    assert x == (c + x)[|c|..] && y == (d + y)[|d|..];
  }

  lemma Assoc<T>(a: seq<T>, b: seq<T>, c: seq<T>)
    ensures a + b + c == a + (b + c)
  {
  }

  lemma ContentPrefixFree(c: Bytes, d: Bytes, x: Bytes, y: Bytes)
    requires Field(Decimal(|c|)) + c + x == Field(Decimal(|d|)) + d + y
    ensures c == d && x == y
  {
    hide *;
    Assoc(Field(Decimal(|c|)), c, x);
    Assoc(Field(Decimal(|d|)), d, y);
    FieldPrefixFree(Decimal(|c|), Decimal(|d|), c + x, d + y);
    DecimalInjective(|c|, |d|);
    EqualHalves(c, d, x, y);
  }

  /** No record is the beginning of another one followed by something else. */
  lemma RecordPrefixFree(r: Record, s: Record, mask: Mask, x: Bytes, y: Bytes)
    requires ValidRecord(r, mask) && ValidRecord(s, mask)
    requires RecordBytes(r, mask) + x == RecordBytes(s, mask) + y
    ensures r == s && x == y
  {
    hide Field, Decimal, ModeField, RecordBytes;
    RecordShape(r, mask, x);
    RecordShape(s, mask, y);
    FieldPrefixFree(Kind(r), Kind(s), Field(r.path) + (Detail(r, mask) + x), Field(s.path) + (Detail(s, mask) + y));
    FieldPrefixFree(r.path, s.path, Detail(r, mask) + x, Detail(s, mask) + y);
    assert Kind(r)[0] == Kind(s)[0];
    match r
    case DirRecord(_, _) => ModePrefixFree(r.mode, s.mode, mask, x, y);
    case LinkRecord(_, _) => FieldPrefixFree(r.target, s.target, x, y);
    case FileRecord(_, _, _) =>
      var c, d := Field(Decimal(|r.content|)) + r.content, Field(Decimal(|s.content|)) + s.content;
      assert Detail(r, mask) + x == ModeField(r.mode, mask) + (c + x);
      assert Detail(s, mask) + y == ModeField(s.mode, mask) + (d + y);
      ModePrefixFree(r.mode, s.mode, mask, c + x, d + y);
      ContentPrefixFree(r.content, s.content, x, y);
  }

  lemma RecordIsSomething(r: Record, mask: Mask)
    ensures RecordBytes(r, mask) != []
  {
    RecordShape(r, mask, []);
    assert RecordBytes(r, mask) + [] == RecordBytes(r, mask);
  }

  /** The stream is uniquely decodable into its records. */
  lemma {:induction false} StreamDecodable(rs: seq<Record>, ss: seq<Record>, mask: Mask)
    requires ValidRecords(rs, mask) && ValidRecords(ss, mask) && StreamOf(rs, mask) == StreamOf(ss, mask)
    ensures rs == ss
    decreases |rs|
  {
    hide RecordBytes, ValidRecord;
    if rs == [] || ss == [] {
      if rs != [] { RecordIsSomething(rs[0], mask); }
      if ss != [] { RecordIsSomething(ss[0], mask); }
    } else {
      RecordPrefixFree(rs[0], ss[0], mask, StreamOf(rs[1..], mask), StreamOf(ss[1..], mask));
      StreamDecodable(rs[1..], ss[1..], mask);
      assert rs == [rs[0]] + rs[1..] && ss == [ss[0]] + ss[1..];
    }
  }
}
