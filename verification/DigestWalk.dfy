/**
 The two tree walks as the sources run them: a recursive visit that sorts each listing and feeds
 the hash entry by entry, for npm with running counters against fixed limits.
 */
module DigestWalk {
  import opened Common
  import opened Bytes
  import opened Text
  import opened TreeDigest

  // A hash object; only what it has been fed matters here.
  class Digest {
    var fed: Bytes

    constructor ()
      ensures fed == []
    {
      fed := [];
    }

    method Update(data: Bytes)
      modifies this
      ensures fed == old(fed) + data
    {
      fed := fed + data;
    }
  }

  // ---------- the forms of Records and StreamOf the loops need ----------

  lemma {:induction false} RecordsConcat(a: seq<Entry>, b: seq<Entry>, prefix: string)
    ensures Records(a + b, prefix) == Records(a, prefix) + Records(b, prefix)
    decreases |a|
  {
    hide NodeRecords;
    if a == [] {
      assert a + b == b;
    } else {
      assert (a + b)[1..] == a[1..] + b;
      RecordsConcat(a[1..], b, prefix);
    }
  }

  lemma {:induction false} StreamConcat(a: seq<Record>, b: seq<Record>, mask: Mask)
    ensures StreamOf(a + b, mask) == StreamOf(a, mask) + StreamOf(b, mask)
    decreases |a|
  {
    hide RecordBytes;
    if a == [] {
      assert a + b == b;
    } else {
      assert (a + b)[1..] == a[1..] + b;
      StreamConcat(a[1..], b, mask);
    }
  }

  lemma {:induction false} CanonConcat(a: seq<Entry>, b: seq<Entry>, mask: Mask)
    ensures CanonAll(a + b, mask) == CanonAll(a, mask) + CanonAll(b, mask)
    decreases |a|
  {
    hide Canon;
    if a == [] {
      assert a + b == b;
    } else {
      assert (a + b)[1..] == a[1..] + b;
      CanonConcat(a[1..], b, mask);
    }
  }

  lemma {:induction false} WithoutConcat(a: seq<Entry>, b: seq<Entry>)
    ensures WithoutMarkers(a + b) == WithoutMarkers(a) + WithoutMarkers(b)
    decreases |a|
  {
    if a == [] {
      assert a + b == b;
    } else {
      assert (a + b)[1..] == a[1..] + b;
      WithoutConcat(a[1..], b);
    }
  }

  // Sorting looks at names only, so it does not matter whether it happens before or after masking.
  lemma {:induction false} CanonInsert(e: Entry, es: seq<Entry>, mask: Mask)
    ensures CanonAll(Insert(e, es), mask) == Insert(Entry(e.name, Canon(e.node, mask)), CanonAll(es, mask))
    decreases |es|
  {
    hide Canon, Less;
    if es == [] || Less(e.name, es[0].name) {
      assert ([e] + es)[1..] == es;
    } else {
      CanonInsert(e, es[1..], mask);
      assert Insert(e, es)[1..] == Insert(e, es[1..]);
      assert CanonAll(es, mask)[1..] == CanonAll(es[1..], mask);
    }
  }

  lemma {:induction false} CanonSort(es: seq<Entry>, mask: Mask)
    ensures CanonAll(Sort(es), mask) == Sort(CanonAll(es, mask))
    decreases |es|
  {
    if es != [] {
      CanonSort(es[1..], mask);
      CanonInsert(es[0], Sort(es[1..]), mask);
      hide Canon, Insert;
      assert CanonAll(es, mask)[1..] == CanonAll(es[1..], mask);
    }
  }

  // The records of the first `i` sorted entries.
  function Upto(sorted: seq<Entry>, i: nat, prefix: string, mask: Mask, markers: bool): seq<Record>
    requires i <= |sorted|
  {
    var es := CanonAll(sorted[..i], mask);
    Records(if markers then es else WithoutMarkers(es), prefix)
  }

  predicate Skipped(e: Entry, markers: bool) { !markers && e.name in MARKERS }

  lemma OfOne(e: Entry, prefix: string, mask: Mask)
    ensures CanonAll([e], mask) == [Entry(e.name, Canon(e.node, mask))]
    ensures WithoutMarkers([e]) == if e.name in MARKERS then [] else [e]
    ensures Records([e], prefix) == NodeRecords(e.node, PathUnder(prefix, e.name)) && Records([], prefix) == []
  {
    hide Canon, NodeRecords;
    assert [e][1..] == [];
    assert NodeRecords(e.node, PathUnder(prefix, e.name)) + [] == NodeRecords(e.node, PathUnder(prefix, e.name));
  }

  lemma UptoNext(sorted: seq<Entry>, i: nat, prefix: string, mask: Mask, markers: bool)
    requires i < |sorted|
    ensures var e := sorted[i];
            Upto(sorted, i + 1, prefix, mask, markers) ==
            Upto(sorted, i, prefix, mask, markers)
            + if Skipped(e, markers) then [] else NodeRecords(Canon(e.node, mask), PathUnder(prefix, e.name))
  {
    hide Canon, NodeRecords, CanonAll, WithoutMarkers, Records;
    var e := sorted[i];
    var c := Entry(e.name, Canon(e.node, mask));
    assert sorted[..i + 1] == sorted[..i] + [e];
    CanonConcat(sorted[..i], [e], mask);
    OfOne(e, prefix, mask);
    OfOne(c, prefix, mask);
    var es := CanonAll(sorted[..i], mask);
    WithoutConcat(es, [c]);
    RecordsConcat(es, [c], prefix);
    RecordsConcat(WithoutMarkers(es), [c], prefix);
    RecordsConcat(WithoutMarkers(es), [], prefix);
  }

  lemma UptoAll(es: seq<Entry>, prefix: string, mask: Mask, markers: bool)
    ensures Upto(Sort(es), |es|, prefix, mask, markers) ==
            Records(if markers then Sort(CanonAll(es, mask)) else WithoutMarkers(Sort(CanonAll(es, mask))), prefix)
  {
    hide Records, CanonAll, Sort, WithoutMarkers;
    assert Sort(es)[..|es|] == Sort(es);
    CanonSort(es, mask);
  }

  lemma UptoNone(sorted: seq<Entry>, prefix: string, mask: Mask, markers: bool, start: Bytes)
    ensures start + StreamOf(Upto(sorted, 0, prefix, mask, markers), mask) == start
  {
    assert sorted[..0] == [];
  }

  // One entry's share of the stream.
  lemma NodeStream(n: Node, path: string, mask: Mask)
    ensures StreamOf(NodeRecords(Canon(n, mask), path), mask) ==
            match n
            case Dir(mode, es) =>
              Field("d") + Field(path) + ModeField(Masked(mode, mask), mask)
              + StreamOf(Records(Sort(CanonAll(es, mask)), path), mask)
            case File(mode, content) =>
              Field("f") + Field(path) + ModeField(Masked(mode, mask), mask) + Field(Decimal(|content|)) + content
            case Link(target) => Field("l") + Field(path) + Field(target)
            case Other => []
  {
    hide Field, Decimal, ModeField, Sort, CanonAll, Records;
    var rs := NodeRecords(Canon(n, mask), path);
    if n.Dir? { assert rs[1..] == Records(Sort(CanonAll(n.entries, mask)), path); }
    if !n.Other? && !n.Dir? { assert rs[1..] == []; }
  }

  // One entry's share, as it is fed after `fed`.
  lemma NodeFed(fed: Bytes, n: Node, path: string, mask: Mask)
    requires !mask.NoModes?
    ensures fed + StreamOf(NodeRecords(Canon(n, mask), path), mask) ==
            match n
            case Dir(mode, es) =>
              fed + (Field("d") + Field(path) + Field(Decimal(Masked(mode, mask)))) + StreamOf(Records(Sort(CanonAll(es, mask)), path), mask)
            case File(mode, content) =>
              fed + (Field("f") + Field(path) + Field(Decimal(Masked(mode, mask))) + Field(Decimal(|content|))) + content
            case Link(target) => fed + (Field("l") + Field(path) + Field(target))
            case Other => fed
  {
    hide Field, Decimal, Sort, CanonAll, Records, NodeRecords, Canon, StreamOf;
    NodeStream(n, path, mask);
    assert fed + [] == fed;
  }

  // What has been fed up to entry `i`, and what the entry adds.
  lemma StreamNext(start: Bytes, sorted: seq<Entry>, i: nat, prefix: string, mask: Mask, markers: bool)
    requires i < |sorted|
    ensures var e := sorted[i];
            start + StreamOf(Upto(sorted, i + 1, prefix, mask, markers), mask) ==
            start + StreamOf(Upto(sorted, i, prefix, mask, markers), mask)
            + if Skipped(e, markers) then []
              else StreamOf(NodeRecords(Canon(e.node, mask), PathUnder(prefix, e.name)), mask)
  {
    hide *;
    var e := sorted[i];
    UptoNext(sorted, i, prefix, mask, markers);
    var done := Upto(sorted, i, prefix, mask, markers);
    var more := NodeRecords(Canon(e.node, mask), PathUnder(prefix, e.name));
    assert done + [] == done && StreamOf(done, mask) + [] == StreamOf(done, mask);
    StreamConcat(done, more, mask);
    var a, b := StreamOf(done, mask), StreamOf(more, mask);
    assert start + (a + b) == (start + a) + b && (start + a) + [] == start + a;
  }

  // What the visit relies on for one entry of a valid forest.
  lemma Child(es: seq<Entry>, e: Entry)
    requires ValidForest(es) && e in es
    ensures ValidName(e.name) && (e.node.Dir? ==> ValidForest(e.node.entries))
    ensures SupportedForest(es) ==> Supported(e.node)
    ensures Supported(e.node) <==> !e.node.Other? && (e.node.Dir? ==> SupportedForest(e.node.entries))
  {
    hide Names;
  }

  lemma AllSupported(es: seq<Entry>, fs: seq<Entry>)
    requires forall x :: x in es <==> x in fs
    ensures SupportedForest(es) <==> forall j :: 0 <= j < |fs| ==> Supported(fs[j].node)
  {
  }

  lemma PathIsNamed(prefix: string, name: string)
    requires ValidName(name)
    ensures PathUnder(prefix, name) != ""
  {
  }

  // ---------- releaseContentDigest ----------

  /**
   The visit feeds exactly the stream, or stops at an unsupported entry. The top-level markers are
   skipped before they are looked at.
   */
  method VisitRelease(entries: seq<Entry>, prefix: string, mask: Mask, digest: Digest) returns (ok: bool)
    requires ValidForest(entries) && !mask.NoModes?
    modifies digest
    ensures ok <==> SupportedForest(if prefix == "" then WithoutMarkers(entries) else entries)
    ensures ok ==> digest.fed == old(digest.fed)
                   + StreamOf(Records(Shown(Sort(CanonAll(entries, mask)), prefix), prefix), mask)
    decreases entries
  {
    hide Sort, Canon, CanonAll, Records, NodeRecords, StreamOf, Upto, Encode, Field, Decimal, WithoutMarkers, Masked;
    hide Names, NoNul, PathUnder, ValidNode, Supported, Less;
    var sorted := Sort(entries);
    ghost var markers := prefix != "";
    UptoNone(sorted, prefix, mask, markers, digest.fed);
    for i := 0 to |sorted|
      invariant digest.fed == old(digest.fed) + StreamOf(Upto(sorted, i, prefix, mask, markers), mask)
      invariant forall j :: 0 <= j < i ==> Skipped(sorted[j], markers) || Supported(sorted[j].node)
    {
      var e := sorted[i];
      assert e in entries;
      Child(entries, e);
      StreamNext(old(digest.fed), sorted, i, prefix, mask, markers);
      if prefix == "" && e.name in MARKERS { continue; }
      var relative := PathUnder(prefix, e.name);
      PathIsNamed(prefix, e.name);
      NodeFed(digest.fed, e.node, relative, mask);
      match e.node
      case Dir(mode, children) =>
        digest.Update(Field("d") + Field(relative) + Field(Decimal(Masked(mode, mask))));
        var inner := VisitRelease(children, relative, mask, digest);
        if !inner { return false; }
      case File(mode, content) =>
        digest.Update(Field("f") + Field(relative) + Field(Decimal(Masked(mode, mask))) + Field(Decimal(|content|)));
        digest.Update(content);
      case Link(target) =>
        digest.Update(Field("l") + Field(relative) + Field(target));
      case Other =>
        return false;
    }
    UptoAll(entries, prefix, mask, markers);
    return true;
  }

  /** The content manifest is a function of exactly the release stream. */
  method ReleaseContentDigest(mode: nat, entries: seq<Entry>, mask: Mask, sha256: Bytes -> string)
    returns (r: Result<string, ()>)
    requires ValidForest(entries) && !mask.NoModes?
    ensures r == if SupportedForest(WithoutMarkers(entries)) then Ok(sha256(ReleaseStream(mode, entries, mask))) else Err(())
  {
    var digest := new Digest();
    digest.Update(Field("d") + Field(".") + Field(Decimal(Masked(mode, mask))));
    var ok := VisitRelease(entries, "", mask, digest);
    if !ok { return Err(()); }
    RootFirst(mode, Records(WithoutMarkers(Sort(CanonAll(entries, mask))), ""), mask);
    return Ok(sha256(digest.fed));
  }

  lemma RootFirst(mode: nat, rs: seq<Record>, mask: Mask)
    requires !mask.NoModes?
    ensures StreamOf([DirRecord(".", Masked(mode, mask))] + rs, mask)
            == [] + (Field("d") + Field(".") + Field(Decimal(Masked(mode, mask)))) + StreamOf(rs, mask)
  {
    hide Field, Decimal;
    assert ([DirRecord(".", Masked(mode, mask))] + rs)[1..] == rs;
  }

  // ---------- npmInstallationDigest ----------

  const MAX_NPM_BYTES: nat := 64 * 1024 * 1024
  const MAX_NPM_ENTRIES: nat := 10_000
  const MAX_NPM_PATH_BYTES: nat := 1024

  class NpmWalk {
    var entries: nat
    var totalBytes: nat
    var fed: Bytes

    constructor ()
      ensures entries == 0 && totalBytes == 0 && fed == []
    {
      entries, totalBytes, fed := 0, 0, [];
    }
  }

  function ContentBytes(rs: seq<Record>): nat
    decreases |rs|
  {
    if rs == [] then 0 else (if rs[0].FileRecord? then |rs[0].content| else 0) + ContentBytes(rs[1..])
  }

  predicate PathsFit(rs: seq<Record>) { forall r :: r in rs ==> |Encode(r.path)| <= MAX_NPM_PATH_BYTES }

  // The walk over these records stays within all three limits, counting on from `entries` and `total`.
  predicate Fits(entries: nat, total: nat, rs: seq<Record>)
  {
    entries + |rs| <= MAX_NPM_ENTRIES && total + ContentBytes(rs) <= MAX_NPM_BYTES && PathsFit(rs)
  }

  lemma {:induction false} ContentConcat(a: seq<Record>, b: seq<Record>)
    ensures ContentBytes(a + b) == ContentBytes(a) + ContentBytes(b)
    decreases |a|
  {
    if a == [] {
      assert a + b == b;
    } else {
      assert (a + b)[1..] == a[1..] + b;
      ContentConcat(a[1..], b);
    }
  }

  /** The content counted against the limit is the sum of the sizes of the files. */
  lemma ContentIsSum(rs: seq<Record>, r: Record)
    ensures ContentBytes([]) == 0
    ensures ContentBytes(rs + [r]) == ContentBytes(rs) + match r case FileRecord(_, _, content) => |content| case _ => 0
  {
    ContentConcat(rs, [r]);
    assert [r][1..] == [];
  }

  lemma PathsConcat(a: seq<Record>, b: seq<Record>)
    ensures PathsFit(a + b) <==> PathsFit(a) && PathsFit(b)
  {
    hide Encode;
    assert forall r :: r in a + b <==> r in a || r in b;
  }

  lemma FitsConcat(entries: nat, total: nat, a: seq<Record>, b: seq<Record>)
    ensures Fits(entries, total, a + b) <==> Fits(entries, total, a) && Fits(entries + |a|, total + ContentBytes(a), b)
  {
    hide PathsFit, ContentBytes;
    ContentConcat(a, b);
    PathsConcat(a, b);
  }

  lemma {:induction false} FitsUpto(entries: nat, total: nat, sorted: seq<Entry>, i: nat, prefix: string)
    requires i <= |sorted| && Fits(entries, total, Upto(sorted, |sorted|, prefix, NoModes, true))
    ensures Fits(entries, total, Upto(sorted, i, prefix, NoModes, true))
    decreases |sorted| - i
  {
    hide Fits, Upto;
    if i < |sorted| {
      FitsUpto(entries, total, sorted, i + 1, prefix);
      UptoNext(sorted, i, prefix, NoModes, true);
      var e := sorted[i];
      FitsConcat(entries, total, Upto(sorted, i, prefix, NoModes, true),
                 NodeRecords(Canon(e.node, NoModes), PathUnder(prefix, e.name)));
    }
  }

  function OwnBytes(n: Node): nat { if n.File? then |n.content| else 0 }

  function Inner(n: Node, path: string): seq<Record>
  {
    if n.Dir? then Records(Sort(CanonAll(n.entries, NoModes)), path) else []
  }

  // One entry's share of the counters, and when it fits.
  lemma NodeFits(n: Node, path: string, entries: nat, total: nat)
    requires !n.Other? && entries <= MAX_NPM_ENTRIES && total <= MAX_NPM_BYTES
    ensures var rs := NodeRecords(Canon(n, NoModes), path);
            && |rs| == 1 + |Inner(n, path)| && ContentBytes(rs) == OwnBytes(n) + ContentBytes(Inner(n, path))
            && (Fits(entries, total, rs) <==>
                && entries + 1 <= MAX_NPM_ENTRIES && |Encode(path)| <= MAX_NPM_PATH_BYTES
                && total + OwnBytes(n) <= MAX_NPM_BYTES
                && Fits(entries + 1, total + OwnBytes(n), Inner(n, path)))
  {
    hide Encode, Sort, CanonAll, Records;
    var rs := NodeRecords(Canon(n, NoModes), path);
    assert rs == [rs[0]] + Inner(n, path) && rs[0].path == path;
    assert rs[1..] == Inner(n, path) && [rs[0]][1..] == [];
    FitsConcat(entries, total, [rs[0]], Inner(n, path));
  }

  // What one turn of the loop adds to the counters, and when that still fits.
  lemma TurnFits(sorted: seq<Entry>, i: nat, prefix: string, n: nat, t: nat)
    requires i < |sorted| && Fits(n, t, Upto(sorted, i, prefix, NoModes, true))
    ensures var e := sorted[i]; var path := PathUnder(prefix, e.name);
            var done := Upto(sorted, i, prefix, NoModes, true);
            var next := Upto(sorted, i + 1, prefix, NoModes, true);
            && (Fits(n, t, Upto(sorted, |sorted|, prefix, NoModes, true)) ==> Fits(n, t, next))
            && (!e.node.Other? ==>
                && |next| == |done| + 1 + |Inner(e.node, path)|
                && ContentBytes(next) == ContentBytes(done) + OwnBytes(e.node) + ContentBytes(Inner(e.node, path))
                && (Fits(n, t, next) <==>
                    && n + |done| + 1 <= MAX_NPM_ENTRIES && |Encode(path)| <= MAX_NPM_PATH_BYTES
                    && t + ContentBytes(done) + OwnBytes(e.node) <= MAX_NPM_BYTES
                    && Fits(n + |done| + 1, t + ContentBytes(done) + OwnBytes(e.node), Inner(e.node, path))))
  {
    hide *;
    var e := sorted[i];
    var done := Upto(sorted, i, prefix, NoModes, true);
    FitsBounds(n, t, done);
    if Fits(n, t, Upto(sorted, |sorted|, prefix, NoModes, true)) { FitsUpto(n, t, sorted, i + 1, prefix); }
    UptoNext(sorted, i, prefix, NoModes, true);
    SkipsNothing(e);
    if !e.node.Other? {
      var path := PathUnder(prefix, e.name);
      var more := NodeRecords(Canon(e.node, NoModes), path);
      NodeFits(e.node, path, n + |done|, t + ContentBytes(done));
      FitsConcat(n, t, done, more);
      ContentConcat(done, more);
    }
  }

  lemma SkipsNothing(e: Entry)
    ensures !Skipped(e, true)
  {
  }

  lemma NothingFits(n: nat, t: nat)
    ensures Fits(n, t, []) <==> n <= MAX_NPM_ENTRIES && t <= MAX_NPM_BYTES
    ensures ContentBytes([]) == 0
  {
  }

  // A walk that fits leaves its counters within the limits.
  lemma FitsBounds(n: nat, t: nat, rs: seq<Record>)
    requires Fits(n, t, rs)
    ensures n + |rs| <= MAX_NPM_ENTRIES && t + ContentBytes(rs) <= MAX_NPM_BYTES
  {
  }

  lemma ModelessStream(path: string)
    ensures Field("d") + Field(path) + ModeField(0, NoModes) == Field("d") + Field(path)
    ensures Field("f") + Field(path) + ModeField(0, NoModes) == Field("f") + Field(path)
  {
    hide Field;
  }

  /**
   The bounded walk ends well exactly when every entry is supported and the whole tree stays within
   the entry, path and content limits; then it has fed exactly the stream and counted every entry.
   */
  method VisitNpm(entries: seq<Entry>, prefix: string, walk: NpmWalk) returns (ok: bool)
    requires ValidForest(entries) && walk.entries <= MAX_NPM_ENTRIES && walk.totalBytes <= MAX_NPM_BYTES
    modifies walk
    ensures var rs := Records(Sort(CanonAll(entries, NoModes)), prefix);
            && (ok <==> SupportedForest(entries) && Fits(old(walk.entries), old(walk.totalBytes), rs))
            && (ok ==> walk.fed == old(walk.fed) + StreamOf(rs, NoModes))
            && (ok ==> walk.entries == old(walk.entries) + |rs| && walk.totalBytes == old(walk.totalBytes) + ContentBytes(rs))
    decreases entries
  {
    hide *;
    var sorted := Sort(entries);
    ghost var n, t, start := walk.entries, walk.totalBytes, walk.fed;
    UptoNone(sorted, prefix, NoModes, true, start);
    UptoAll(entries, prefix, NoModes, true);
    NothingFits(n, t);
    UptoStarts(sorted, prefix);
    for i := 0 to |sorted|
      invariant Fits(n, t, Upto(sorted, i, prefix, NoModes, true))
      invariant walk.entries == n + |Upto(sorted, i, prefix, NoModes, true)|
      invariant walk.totalBytes == t + ContentBytes(Upto(sorted, i, prefix, NoModes, true))
      invariant walk.fed == start + StreamOf(Upto(sorted, i, prefix, NoModes, true), NoModes)
      invariant forall j :: 0 <= j < i ==> Supported(sorted[j].node)
    {
      var e := sorted[i];
      assert e in entries;
      var relative := PathUnder(prefix, e.name);
      FitsBounds(n, t, Upto(sorted, i, prefix, NoModes, true));
      TurnFits(sorted, i, prefix, n, t);
      Child(entries, e);
      OwnShare(e.node, relative);
      SkipsNothing(e);
      StreamNext(start, sorted, i, prefix, NoModes, true);
      NodeStream(e.node, relative, NoModes);
      ModelessStream(relative);
      ModelessMask(if e.node.Dir? || e.node.File? then e.node.mode else 0);
      NothingFits(walk.entries + 1, walk.totalBytes + OwnBytes(e.node));
      walk.entries := walk.entries + 1;
      if walk.entries > MAX_NPM_ENTRIES || |Encode(relative)| > MAX_NPM_PATH_BYTES { return false; }
      match e.node
      case Dir(_, children) =>
        walk.fed := walk.fed + (Field("d") + Field(relative));
        var inner := VisitNpm(children, relative, walk);
        if !inner { return false; }
      case File(_, content) =>
        walk.totalBytes := walk.totalBytes + |content|;
        if walk.totalBytes > MAX_NPM_BYTES { return false; }
        walk.fed := walk.fed + (Field("f") + Field(relative) + Field(Decimal(|content|)));
        walk.fed := walk.fed + content;
      case Link(target) =>
        walk.fed := walk.fed + (Field("l") + Field(relative) + Field(target));
      case Other =>
        return false;
    }
    AllSupported(entries, sorted);
    return true;
  }

  lemma ModelessMask(mode: nat)
    ensures Masked(mode, NoModes) == 0
  {
  }

  lemma OwnShare(n: Node, path: string)
    ensures OwnBytes(n) == if n.File? then |n.content| else 0
    ensures Inner(n, path) == if n.Dir? then Records(Sort(CanonAll(n.entries, NoModes)), path) else []
  {
  }

  lemma UptoStarts(sorted: seq<Entry>, prefix: string)
    ensures Upto(sorted, 0, prefix, NoModes, true) == []
  {
    assert sorted[..0] == [];
  }

  lemma LimitsAre(rs: seq<Record>)
    ensures Fits(0, 0, rs) <==>
            |rs| <= 10_000 && ContentBytes(rs) <= 64 * 1024 * 1024 && forall x :: x in rs ==> |Encode(x.path)| <= 1024
  {
    hide Encode;
  }

  /** The npm digest, when it is produced at all, is a function of exactly the npm stream. */
  method NpmInstallationDigest(entries: seq<Entry>, sha256: Bytes -> string) returns (r: Result<string, ()>)
    requires ValidForest(entries)
    ensures var rs := Records(Sort(CanonAll(entries, NoModes)), "");
            r == if && SupportedForest(entries) && |rs| <= 10_000 && ContentBytes(rs) <= 64 * 1024 * 1024
                    && forall x :: x in rs ==> |Encode(x.path)| <= 1024
                 then Ok(sha256(NpmStream(entries))) else Err(())
  {
    LimitsAre(Records(Sort(CanonAll(entries, NoModes)), ""));
    hide Fits, Records, Sort, CanonAll;
    var walk := new NpmWalk();
    var ok := VisitNpm(entries, "", walk);
    if !ok { return Err(()); }
    assert [] + NpmStream(entries) == NpmStream(entries);
    return Ok(sha256(walk.fed));
  }
}
