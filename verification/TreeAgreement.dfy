/**
 What an equal digest stream says about two trees: they agree on every path, kind, masked mode,
 file content and link target, and that is all the stream depends on.
 */
module TreeAgreement {
  import opened Common
  import opened Bytes
  import opened Text
  import opened TreeDigest

  // ---------- the records determine the canonical forest ----------

  predicate Under(path: string, prefix: string) { prefix == "" || prefix + "/" <= path }

  // The tail `rs` does not go on with entries below `prefix`.
  predicate Closed(rs: seq<Record>, prefix: string) { rs == [] || !Under(rs[0].path, prefix) }

  predicate CleanForest(es: seq<Entry>) { forall e :: e in es ==> ValidName(e.name) && CleanNode(e.node) }

  // No unsupported entry anywhere, only valid names and link targets.
  predicate CleanNode(n: Node)
  {
    match n
    case Dir(_, es) => forall e :: e in es ==> ValidName(e.name) && CleanNode(e.node)
    case Link(t) => NoNul(t)
    case Other => false
    case _ => true
  }

  lemma PathsDiffer(prefix: string, m: string, n: string)
    requires ValidName(m) && ValidName(n)
    ensures Under(PathUnder(prefix, m), prefix)
    ensures PathUnder(prefix, m) == PathUnder(prefix, n) ==> m == n
    ensures !Under(PathUnder(prefix, m), PathUnder(prefix, n)) && PathUnder(prefix, n) != ""
  {
    var p, q := PathUnder(prefix, m), PathUnder(prefix, n);
    if prefix != "" {
      var k := |prefix| + 1;
      assert p[k..] == m && q[k..] == n;
      assert p == prefix + "/" + m;
      if q + "/" <= p { SlashWithin(m, n, p[k..], q[k..]); }
    } else if q + "/" <= p {
      SlashWithin(m, n, p, q);
    }
  }

  lemma SlashWithin(m: string, n: string, p: string, q: string)
    requires p == m && q == n && q + "/" <= p
    ensures '/' in m
  {
    assert p[|q|] == '/';
  }

  lemma UnderInner(path: string, prefix: string, n: string)
    requires Under(path, PathUnder(prefix, n)) && n != ""
    ensures Under(path, prefix)
  {
    if prefix != "" {
      var q := prefix + "/" + n;
      assert prefix + "/" <= q + "/" <= path;
    }
  }

  lemma NodeStarts(n: Node, path: string)
    requires CleanNode(n)
    ensures NodeRecords(n, path) != [] && NodeRecords(n, path)[0].path == path
  {
  }

  // After the entry `n` come records that are not below it.
  lemma TailCloses(es: seq<Entry>, prefix: string, n: string, rs: seq<Record>)
    requires CleanForest(es) && ValidName(n) && Closed(rs, prefix)
    ensures Closed(Records(es, prefix) + rs, PathUnder(prefix, n))
  {
    if es != [] {
      var e := es[0];
      NodeStarts(e.node, PathUnder(prefix, e.name));
      PathsDiffer(prefix, e.name, n);
      assert (Records(es, prefix) + rs)[0] == NodeRecords(e.node, PathUnder(prefix, e.name))[0];
    } else {
      assert Records(es, prefix) + rs == rs;
      if rs != [] && Under(rs[0].path, PathUnder(prefix, n)) { UnderInner(rs[0].path, prefix, n); }
    }
  }

  lemma {:induction false} ForestInjective(es: seq<Entry>, fs: seq<Entry>, prefix: string, rs: seq<Record>, ss: seq<Record>)
    requires CleanForest(es) && CleanForest(fs) && Closed(rs, prefix) && Closed(ss, prefix)
    requires Records(es, prefix) + rs == Records(fs, prefix) + ss
    ensures es == fs && rs == ss
    decreases es
  {
    if es == [] || fs == [] {
      if fs != [] { OpensForest(fs, prefix, ss); }
      if es != [] { OpensForest(es, prefix, rs); }
      assert Records(es, prefix) + rs == rs && Records(fs, prefix) + ss == ss;
    } else {
      var e, f := es[0], fs[0];
      assert e in es && f in fs;
      var p, q := PathUnder(prefix, e.name), PathUnder(prefix, f.name);
      var xs, ys := Records(es[1..], prefix) + rs, Records(fs[1..], prefix) + ss;
      Assoc(NodeRecords(e.node, p), Records(es[1..], prefix), rs);
      Assoc(NodeRecords(f.node, q), Records(fs[1..], prefix), ss);
      NodeStarts(e.node, p);
      NodeStarts(f.node, q);
      assert p == (NodeRecords(e.node, p) + xs)[0].path == (NodeRecords(f.node, q) + ys)[0].path == q;
      PathsDiffer(prefix, e.name, f.name);
      TailCloses(es[1..], prefix, e.name, rs);
      TailCloses(fs[1..], prefix, f.name, ss);
      NodeInjective(e.node, f.node, p, xs, ys);
      ForestInjective(es[1..], fs[1..], prefix, rs, ss);
      assert es == [e] + es[1..] && fs == [f] + fs[1..];
    }
  }

  lemma OpensForest(es: seq<Entry>, prefix: string, rs: seq<Record>)
    requires es != [] && CleanForest(es)
    ensures !Closed(Records(es, prefix) + rs, prefix)
  {
    var e := es[0];
    NodeStarts(e.node, PathUnder(prefix, e.name));
    PathsDiffer(prefix, e.name, e.name);
    assert (Records(es, prefix) + rs)[0] == NodeRecords(e.node, PathUnder(prefix, e.name))[0];
  }

  lemma {:induction false} NodeInjective(m: Node, n: Node, path: string, xs: seq<Record>, ys: seq<Record>)
    requires CleanNode(m) && CleanNode(n) && path != "" && Closed(xs, path) && Closed(ys, path)
    requires NodeRecords(m, path) + xs == NodeRecords(n, path) + ys
    ensures m == n && xs == ys
    decreases m
  {
    NodeHead(m, path, xs);
    NodeHead(n, path, ys);
    SameHead(Head(m, path), Below(m, path) + xs, Head(n, path), Below(n, path) + ys);
    hide NodeRecords, Closed, CleanNode, Records;
    if m.Dir? {
      CleanInside(m);
      CleanInside(n);
      ForestInjective(m.entries, n.entries, path, xs, ys);
    } else {
      assert [] + xs == xs && [] + ys == ys;
    }
  }

  // The record of an entry itself, and those of what lies below it.
  function Head(n: Node, path: string): Record
    requires !n.Other?
  {
    match n
    case Dir(mode, _) => DirRecord(path, mode)
    case File(mode, content) => FileRecord(path, mode, content)
    case Link(target) => LinkRecord(path, target)
  }

  function Below(n: Node, path: string): seq<Record> { if n.Dir? then Records(n.entries, path) else [] }

  lemma NodeHead(n: Node, path: string, rs: seq<Record>)
    requires CleanNode(n)
    ensures !n.Other? && NodeRecords(n, path) + rs == [Head(n, path)] + (Below(n, path) + rs)
  {
    hide Records;
  }

  lemma SameHead(r: Record, a: seq<Record>, s: Record, b: seq<Record>)
    requires [r] + a == [s] + b
    ensures r == s && a == b
  {
    assert r == ([r] + a)[0] == ([s] + b)[0] && a == ([r] + a)[1..] == ([s] + b)[1..] == b;
  }

  lemma CleanInside(n: Node)
    requires CleanNode(n) && n.Dir?
    ensures CleanForest(n.entries)
  {
  }

  // ---------- trees as file systems: what is found at each path ----------

  datatype Item = ItemDir(mode: nat) | ItemFile(mode: nat, content: Bytes) | ItemLink(target: string)

  function Find(es: seq<Entry>, name: string): Option<Node>
    decreases |es|
  {
    if es == [] then None else if es[0].name == name then Some(es[0].node) else Find(es[1..], name)
  }

  function ItemOf(n: Node): Option<Item>
  {
    match n
    case Dir(mode, _) => Some(ItemDir(mode))
    case File(mode, content) => Some(ItemFile(mode, content))
    case Link(target) => Some(ItemLink(target))
    case Other => None
  }

  // What lstat finds at `path` below the directory with these entries.
  function Lookup(es: seq<Entry>, path: seq<string>): Option<Item>
    requires path != []
    decreases |path|
  {
    match Find(es, path[0])
    case None => None
    case Some(n) =>
      if |path| == 1 then ItemOf(n)
      else if n.Dir? then Lookup(n.entries, path[1..])
      else None
  }

  function MaskItem(i: Option<Item>, mask: Mask): Option<Item>
  {
    match i
    case Some(ItemDir(mode)) => Some(ItemDir(Masked(mode, mask)))
    case Some(ItemFile(mode, content)) => Some(ItemFile(Masked(mode, mask), content))
    case _ => i
  }

  ghost predicate Agree(es: seq<Entry>, fs: seq<Entry>, mask: Mask)
  {
    forall path :: path != [] ==> MaskItem(Lookup(es, path), mask) == MaskItem(Lookup(fs, path), mask)
  }

  // ---------- sorting ----------

  predicate Sorted(es: seq<Entry>)
    decreases |es|
  {
    es == [] || ((forall x :: x in es[1..] ==> Less(es[0].name, x.name)) && Sorted(es[1..]))
  }

  lemma {:induction false} InsertSorted(e: Entry, es: seq<Entry>)
    requires Sorted(es) && forall x :: x in es ==> x.name != e.name
    ensures Sorted(Insert(e, es))
    decreases |es|
  {
    hide Less;
    if es != [] {
      LessTotal(e.name, es[0].name);
      if Less(e.name, es[0].name) {
        assert ([e] + es)[1..] == es;
        forall x | x in es ensures Less(e.name, x.name) {
          if x != es[0] {
            assert x in es[1..];
            LessTransitive(e.name, es[0].name, x.name);
          }
        }
      } else {
        assert es[0] in es;
        InsertSorted(e, es[1..]);
        assert Insert(e, es)[1..] == Insert(e, es[1..]);
      }
    }
  }

  lemma {:induction false} SortSorts(es: seq<Entry>)
    requires Names(es)
    ensures Sorted(Sort(es))
    decreases |es|
  {
    if es != [] {
      SortSorts(es[1..]);
      InsertSorted(es[0], Sort(es[1..]));
    }
  }

  lemma {:induction false} FindInsert(e: Entry, es: seq<Entry>, name: string)
    requires forall x :: x in es ==> x.name != e.name
    ensures Find(Insert(e, es), name) == if name == e.name then Some(e.node) else Find(es, name)
    decreases |es|
  {
    if es == [] || Less(e.name, es[0].name) {
      assert ([e] + es)[1..] == es;
    } else {
      assert es[0] in es;
      FindInsert(e, es[1..], name);
      assert Insert(e, es)[1..] == Insert(e, es[1..]);
    }
  }

  lemma {:induction false} FindSort(es: seq<Entry>, name: string)
    requires Names(es)
    ensures Find(Sort(es), name) == Find(es, name)
    decreases |es|
  {
    if es != [] {
      FindSort(es[1..], name);
      FindInsert(es[0], Sort(es[1..]), name);
    }
  }

  // ---------- the canonical forest shows the same items ----------

  lemma {:induction false} FindCanon(es: seq<Entry>, mask: Mask, name: string)
    ensures Find(CanonAll(es, mask), name) ==
            match Find(es, name) case None => None case Some(n) => Some(Canon(n, mask))
    decreases |es|
  {
    hide Canon;
    if es != [] {
      FindCanon(es[1..], mask, name);
      assert CanonAll(es, mask)[1..] == CanonAll(es[1..], mask);
    }
  }

  lemma {:induction false} FindIsMember(es: seq<Entry>, name: string)
    ensures Find(es, name).Some? ==> exists e :: e in es && e.name == name && e.node == Find(es, name).value
    ensures Find(es, name).None? ==> forall e :: e in es ==> e.name != name
    decreases |es|
  {
    if es != [] { FindIsMember(es[1..], name); }
  }

  lemma {:induction false} LookupCanon(es: seq<Entry>, mask: Mask, path: seq<string>)
    requires ValidForest(es) && path != []
    ensures Lookup(Sort(CanonAll(es, mask)), path) == MaskItem(Lookup(es, path), mask)
    decreases |path|
  {
    FindSort(CanonAll(es, mask), path[0]);
    FindCanon(es, mask, path[0]);
    FindIsMember(es, path[0]);
    match Find(es, path[0])
    case None =>
    case Some(n) =>
      if |path| > 1 && n.Dir? { LookupCanon(n.entries, mask, path[1..]); }
  }

  // ---------- canonical forests ----------

  // Sorted at every level.
  predicate Ordered(n: Node)
  {
    match n
    case Dir(_, es) => Sorted(es) && forall e :: e in es ==> Ordered(e.node)
    case _ => true
  }

  predicate OrderedForest(es: seq<Entry>) { Sorted(es) && forall e :: e in es ==> Ordered(e.node) }

  lemma {:induction false} CanonOrdered(n: Node, mask: Mask)
    requires ValidNode(n)
    ensures Ordered(Canon(n, mask))
    ensures Supported(n) ==> CleanNode(Canon(n, mask))
    decreases n
  {
    if n.Dir? {
      forall e | e in n.entries ensures Ordered(Canon(e.node, mask)) && (Supported(e.node) ==> CleanNode(Canon(e.node, mask))) {
        CanonOrdered(e.node, mask);
      }
      CanonForest(n.entries, mask);
    }
  }

  lemma CanonForest(es: seq<Entry>, mask: Mask)
    requires ValidForest(es)
    requires forall e :: e in es ==> Ordered(Canon(e.node, mask)) && (Supported(e.node) ==> CleanNode(Canon(e.node, mask)))
    ensures OrderedForest(Sort(CanonAll(es, mask)))
    ensures SupportedForest(es) ==> CleanForest(Sort(CanonAll(es, mask)))
  {
    hide Canon, Ordered, CleanNode, Sorted;
    CanonMembers(es, mask);
    SortSorts(CanonAll(es, mask));
  }

  lemma {:induction false} CanonMembers(es: seq<Entry>, mask: Mask)
    ensures forall c :: c in CanonAll(es, mask) ==> exists e :: e in es && c == Entry(e.name, Canon(e.node, mask))
    decreases |es|
  {
    hide Canon;
    if es != [] {
      CanonMembers(es[1..], mask);
      forall c | c in CanonAll(es, mask) ensures exists e :: e in es && c == Entry(e.name, Canon(e.node, mask)) {
        if c in CanonAll(es[1..], mask) {
          var e :| e in es[1..] && c == Entry(e.name, Canon(e.node, mask));
          assert e in es;
        } else {
          assert es[0] in es;
        }
      }
    }
  }

  lemma {:induction false} OrderedWithout(es: seq<Entry>)
    requires OrderedForest(es)
    ensures OrderedForest(WithoutMarkers(es))
    decreases |es|
  {
    hide Ordered, Less;
    if es != [] { OrderedWithout(es[1..]); }
  }

  lemma ShownForest(es: seq<Entry>, mask: Mask)
    requires ValidForest(es)
    ensures OrderedForest(Sort(CanonAll(es, mask))) && OrderedForest(WithoutMarkers(Sort(CanonAll(es, mask))))
    ensures SupportedForest(es) ==> CleanForest(Sort(CanonAll(es, mask)))
    ensures SupportedForest(WithoutMarkers(es)) ==> CleanForest(WithoutMarkers(Sort(CanonAll(es, mask))))
  {
    forall e | e in es ensures Ordered(Canon(e.node, mask)) && (Supported(e.node) ==> CleanNode(Canon(e.node, mask))) {
      CanonOrdered(e.node, mask);
    }
    CanonForest(es, mask);
    CanonMembers(es, mask);
    hide Canon, Ordered, CleanNode, Sorted, Supported;
    OrderedWithout(Sort(CanonAll(es, mask)));
  }

  // ---------- items at all paths determine an ordered forest ----------

  ghost predicate SameItems(es: seq<Entry>, fs: seq<Entry>)
  {
    forall path :: path != [] ==> Lookup(es, path) == Lookup(fs, path)
  }

  lemma LookupHead(es: seq<Entry>, path: seq<string>)
    requires es != [] && Sorted(es) && path != []
    ensures path[0] != es[0].name ==> Lookup(es, path) == Lookup(es[1..], path)
    ensures path[0] == es[0].name ==> Lookup(es[1..], path).None?
  {
    FindIsMember(es[1..], path[0]);
    if path[0] == es[0].name {
      forall x | x in es[1..] ensures x.name != es[0].name { LessTotal(es[0].name, x.name); }
    }
  }

  // Neither forest can start with a name below all names of the other.
  lemma HeadsAgree(es: seq<Entry>, fs: seq<Entry>)
    requires es != [] && CleanForest(es) && SameItems(es, fs) && Sorted(fs)
    ensures fs != [] && !Less(es[0].name, fs[0].name)
  {
    hide Less;
    var name := es[0].name;
    assert es[0] in es;
    assert Lookup(es, [name]).Some?;
    assert Lookup(fs, [name]).Some?;
    FindIsMember(fs, name);
    if fs != [] && Less(name, fs[0].name) {
      forall x | x in fs ensures x.name != name {
        if x != fs[0] { LessTransitive(name, fs[0].name, x.name); }
        LessTotal(name, name);
      }
    }
  }

  lemma {:induction false} ItemsDetermine(es: seq<Entry>, fs: seq<Entry>)
    requires OrderedForest(es) && OrderedForest(fs) && CleanForest(es) && CleanForest(fs) && SameItems(es, fs)
    ensures es == fs
    decreases es
  {
    if es == [] {
      if fs != [] { HeadsAgree(fs, es); }
    } else {
      HeadsAgree(es, fs);
      HeadsAgree(fs, es);
      LessTotal(es[0].name, fs[0].name);
      var name := es[0].name;
      assert es[0] in es && fs[0] in fs;
      NodesAgree(es, fs);
      if es[0].node.Dir? { ItemsDetermine(es[0].node.entries, fs[0].node.entries); }
      forall path: seq<string> | path != [] ensures Lookup(es[1..], path) == Lookup(fs[1..], path) {
        LookupHead(es, path);
        LookupHead(fs, path);
      }
      ItemsDetermine(es[1..], fs[1..]);
      assert es == [es[0]] + es[1..] && fs == [fs[0]] + fs[1..];
    }
  }

  lemma NodesAgree(es: seq<Entry>, fs: seq<Entry>)
    requires es != [] && fs != [] && es[0].name == fs[0].name && SameItems(es, fs)
    ensures ItemOf(es[0].node) == ItemOf(fs[0].node)
    ensures es[0].node.Dir? && fs[0].node.Dir? ==> SameItems(es[0].node.entries, fs[0].node.entries)
  {
    var name := es[0].name;
    assert Lookup(es, [name]) == Lookup(fs, [name]);
    if es[0].node.Dir? && fs[0].node.Dir? {
      forall path: seq<string> | path != [] ensures Lookup(es[0].node.entries, path) == Lookup(fs[0].node.entries, path) {
        assert ([name] + path)[1..] == path;
        assert Lookup(es, [name] + path) == Lookup(fs, [name] + path);
      }
    }
  }

  // ---------- the top level of a release ----------

  lemma {:induction false} FindWithout(es: seq<Entry>, name: string)
    ensures Find(WithoutMarkers(es), name) == if name in MARKERS then None else Find(es, name)
    decreases |es|
  {
    if es != [] { FindWithout(es[1..], name); }
  }

  lemma LookupByFind(es: seq<Entry>, path: seq<string>)
    requires path != []
    ensures Find(es, path[0]) == None ==> Lookup(es, path) == None
  {
  }

  lemma SameFind(es: seq<Entry>, fs: seq<Entry>, path: seq<string>)
    requires path != [] && Find(es, path[0]) == Find(fs, path[0])
    ensures Lookup(es, path) == Lookup(fs, path)
  {
  }

  lemma NothingMasked(mask: Mask)
    ensures MaskItem(None, mask) == None
  {
  }

  lemma ShownItems(es: seq<Entry>, mask: Mask, path: seq<string>)
    requires ValidForest(es) && path != []
    ensures Lookup(WithoutMarkers(Sort(CanonAll(es, mask))), path) == MaskItem(Lookup(WithoutMarkers(es), path), mask)
  {
    FindWithout(Sort(CanonAll(es, mask)), path[0]);
    FindWithout(es, path[0]);
    LookupCanon(es, mask, path);
    LookupByFind(WithoutMarkers(es), path);
    LookupByFind(WithoutMarkers(Sort(CanonAll(es, mask))), path);
    hide *;
    if path[0] in MARKERS {
      assert MaskItem(None, mask) == None by { NothingMasked(mask); }
    } else {
      SameFind(WithoutMarkers(es), es, path);
      SameFind(WithoutMarkers(Sort(CanonAll(es, mask))), Sort(CanonAll(es, mask)), path);
    }
  }

  // ---------- records of a canonical forest are valid ----------

  predicate Modeless(n: Node)
  {
    match n
    case Dir(mode, es) => mode == 0 && forall e :: e in es ==> Modeless(e.node)
    case File(mode, _) => mode == 0
    case _ => true
  }

  lemma {:induction false} CanonModeless(n: Node)
    ensures Modeless(Canon(n, NoModes))
    decreases n
  {
    if n.Dir? {
      forall e | e in n.entries ensures Modeless(Canon(e.node, NoModes)) { CanonModeless(e.node); }
      CanonMembers(n.entries, NoModes);
    }
  }

  lemma {:induction false} RecordsValid(es: seq<Entry>, prefix: string, mask: Mask)
    requires CleanForest(es) && NoNul(prefix)
    requires mask.NoModes? ==> forall e :: e in es ==> Modeless(e.node)
    ensures ValidRecords(Records(es, prefix), mask)
    decreases es
  {
    if es != [] {
      var e := es[0];
      assert e in es;
      var path := PathUnder(prefix, e.name);
      if e.node.Dir? { RecordsValid(e.node.entries, path, mask); }
      RecordsValid(es[1..], prefix, mask);
      assert forall x :: x in es[1..] ==> x in es;
    }
  }

  lemma ShownModeless(es: seq<Entry>)
    ensures forall e :: e in Sort(CanonAll(es, NoModes)) ==> Modeless(e.node)
  {
    CanonMembers(es, NoModes);
    forall e | e in es ensures Modeless(Canon(e.node, NoModes)) { CanonModeless(e.node); }
    hide Canon, Modeless;
  }

  // ---------- the main results ----------

  lemma ForestsFromStreams(es: seq<Entry>, fs: seq<Entry>, mask: Mask)
    requires CleanForest(es) && CleanForest(fs)
    requires mask.NoModes? ==> forall e :: e in es || e in fs ==> Modeless(e.node)
    ensures ValidRecords(Records(es, ""), mask) && ValidRecords(Records(fs, ""), mask)
    ensures Records(es, "") == Records(fs, "") <==> es == fs
  {
    RecordsValid(es, "", mask);
    RecordsValid(fs, "", mask);
    if Records(es, "") == Records(fs, "") { ForestInjective(es, fs, "", [], []); }
  }

  lemma ForestsFromItems(es: seq<Entry>, fs: seq<Entry>)
    requires OrderedForest(es) && OrderedForest(fs) && CleanForest(es) && CleanForest(fs)
    ensures es == fs <==> SameItems(es, fs)
  {
    if SameItems(es, fs) { ItemsDetermine(es, fs); }
  }

  /**
   The release manifest stream, both ways: two release trees feed the same bytes to the hash exactly
   when their roots agree in the masked mode and, apart from the two top-level runtime markers, they
   show the same kind, masked mode, content or link target at every path. So the stream pins the tree
   down, and the order in which directories are listed does not matter.
   */
  lemma ReleaseStreamIffAgree(m: nat, es: seq<Entry>, n: nat, fs: seq<Entry>, mask: Mask)
    requires ValidForest(es) && ValidForest(fs) && !mask.NoModes?
    requires SupportedForest(WithoutMarkers(es)) && SupportedForest(WithoutMarkers(fs))
    ensures ReleaseStream(m, es, mask) == ReleaseStream(n, fs, mask) <==>
            Masked(m, mask) == Masked(n, mask) && Agree(WithoutMarkers(es), WithoutMarkers(fs), mask)
  {
    var a, b := WithoutMarkers(Sort(CanonAll(es, mask))), WithoutMarkers(Sort(CanonAll(fs, mask)));
    ShownForest(es, mask);
    ShownForest(fs, mask);
    ForestsFromStreams(a, b, mask);
    ForestsFromItems(a, b);
    ShownAgree(es, fs, mask);
    hide *;
    RootedStream(Masked(m, mask), Records(a, ""), Masked(n, mask), Records(b, ""), mask);
    ReleaseStreamIs(m, es, mask);
    ReleaseStreamIs(n, fs, mask);
  }

  lemma ReleaseStreamIs(m: nat, es: seq<Entry>, mask: Mask)
    ensures ReleaseStream(m, es, mask)
            == StreamOf([DirRecord(".", Masked(m, mask))] + Records(WithoutMarkers(Sort(CanonAll(es, mask))), ""), mask)
  {
  }

  lemma RootedStream(m: nat, rs: seq<Record>, n: nat, ss: seq<Record>, mask: Mask)
    requires ValidRecords(rs, mask) && ValidRecords(ss, mask) && !mask.NoModes?
    ensures StreamOf([DirRecord(".", m)] + rs, mask) == StreamOf([DirRecord(".", n)] + ss, mask) <==> m == n && rs == ss
  {
    var xs, ys := [DirRecord(".", m)] + rs, [DirRecord(".", n)] + ss;
    hide StreamOf;
    if StreamOf(xs, mask) == StreamOf(ys, mask) {
      StreamDecodable(xs, ys, mask);
      assert xs[0] == ys[0] && xs[1..] == rs && ys[1..] == ss;
    }
  }

  lemma ShownAgree(es: seq<Entry>, fs: seq<Entry>, mask: Mask)
    requires ValidForest(es) && ValidForest(fs)
    ensures SameItems(WithoutMarkers(Sort(CanonAll(es, mask))), WithoutMarkers(Sort(CanonAll(fs, mask))))
            <==> Agree(WithoutMarkers(es), WithoutMarkers(fs), mask)
  {
    hide Lookup, MaskItem, Sort, CanonAll, WithoutMarkers, ValidForest;
    forall path: seq<string> | path != []
      ensures Lookup(WithoutMarkers(Sort(CanonAll(es, mask))), path) == MaskItem(Lookup(WithoutMarkers(es), path), mask)
      ensures Lookup(WithoutMarkers(Sort(CanonAll(fs, mask))), path) == MaskItem(Lookup(WithoutMarkers(fs), path), mask)
    {
      ShownItems(es, mask, path);
      ShownItems(fs, mask, path);
    }
  }

  /** The npm installation stream has the same property, without modes and without exceptions. */
  lemma NpmStreamIffAgree(es: seq<Entry>, fs: seq<Entry>)
    requires ValidForest(es) && ValidForest(fs) && SupportedForest(es) && SupportedForest(fs)
    ensures NpmStream(es) == NpmStream(fs) <==> Agree(es, fs, NoModes)
  {
    var a, b := Sort(CanonAll(es, NoModes)), Sort(CanonAll(fs, NoModes));
    ShownForest(es, NoModes);
    ShownForest(fs, NoModes);
    ShownModeless(es);
    ShownModeless(fs);
    ForestsFromStreams(a, b, NoModes);
    ForestsFromItems(a, b);
    CanonAgree(es, fs, NoModes);
    if NpmStream(es) == NpmStream(fs) { StreamDecodable(Records(a, ""), Records(b, ""), NoModes); }
  }

  lemma CanonAgree(es: seq<Entry>, fs: seq<Entry>, mask: Mask)
    requires ValidForest(es) && ValidForest(fs)
    ensures SameItems(Sort(CanonAll(es, mask)), Sort(CanonAll(fs, mask))) <==> Agree(es, fs, mask)
  {
    hide Lookup, MaskItem, Sort, CanonAll, ValidForest;
    forall path: seq<string> | path != []
      ensures Lookup(Sort(CanonAll(es, mask)), path) == MaskItem(Lookup(es, path), mask)
      ensures Lookup(Sort(CanonAll(fs, mask)), path) == MaskItem(Lookup(fs, path), mask)
    {
      LookupCanon(es, mask, path);
      LookupCanon(fs, mask, path);
    }
  }
}
