/**
 What the archive walk accepts, said without walking: an archive is a sequence of described headers
 with padded bodies, followed only by zeros. And what acceptance is for: every well-made ustar
 archive of legal entries is accepted, and nothing accepted leaves `package/`.
 */
module ArchiveGrammar {
  import opened Common
  import opened Bytes
  import opened Archive

  // ---------- legal paths ----------

  predicate GoodComponent(c: Bytes)
  {
    && c != [] && c != DOT && c != DOT_DOT && !StartsWith(c, APPLE_DOUBLE)
    && SLASH !in c && BACKSLASH !in c
  }

  predicate GoodComponents(cs: seq<Bytes>) { forall i :: 0 <= i < |cs| ==> GoodComponent(cs[i]) }

  function PackagePath(cs: seq<Bytes>): Bytes { Join([PACKAGE] + cs, SLASH) }

  // `package` itself or something below it; one trailing slash is tolerated, two after `package`.
  ghost predicate LegalPath(path: Bytes, directory: bool)
  {
    && |path| <= MAX_PATH_BYTES
    && ((directory && path == PACKAGE + [SLASH, SLASH])
        || exists cs :: GoodComponents(cs) && (cs == [] ==> directory)
                        && (path == PackagePath(cs) || path == PackagePath(cs) + [SLASH]))
  }

  lemma {:induction false} SplitTrailing(s: Bytes, sep: byte)
    ensures Split(s + [sep], sep) == Split(s, sep) + [[]]
    decreases |s|
  {
    if s == [] {
      assert (s + [sep])[1..] == [];
    } else {
      assert (s + [sep])[1..] == s[1..] + [sep];
      SplitTrailing(s[1..], sep);
    }
  }

  lemma {:induction false} PartsInside(s: Bytes, sep: byte, b: byte)
    requires b !in s
    ensures forall i :: 0 <= i < |Split(s, sep)| ==> b !in Split(s, sep)[i]
    decreases |s|
  {
    if s != [] { PartsInside(s[1..], sep, b); }
  }

  lemma {:induction false} JoinHas(cs: seq<Bytes>, b: byte)
    requires cs != [] && b != SLASH && forall i :: 0 <= i < |cs| ==> b !in cs[i]
    ensures b !in Join(cs, SLASH)
    decreases |cs|
  {
    if |cs| > 1 { JoinHas(cs[1..], b); }
  }

  lemma {:induction false} JoinEnds(cs: seq<Bytes>)
    requires cs != [] && GoodComponents(cs)
    ensures Join(cs, SLASH) != [] && Join(cs, SLASH)[|Join(cs, SLASH)| - 1] != SLASH
    decreases |cs|
  {
    if |cs| == 1 {
      assert cs[0][|cs[0]| - 1] in cs[0];
    } else {
      JoinEnds(cs[1..]);
    }
  }

  lemma PackagePathShape(cs: seq<Bytes>)
    ensures cs == [] ==> PackagePath(cs) == PACKAGE
    ensures cs != [] ==> PackagePath(cs) == PACKAGE + [SLASH] + Join(cs, SLASH)
  {
    assert ([PACKAGE] + cs)[1..] == cs;
  }

  lemma PackagePathParts(cs: seq<Bytes>)
    requires GoodComponents(cs)
    ensures Split(PackagePath(cs), SLASH) == [PACKAGE] + cs
  {
    SplitJoin([PACKAGE] + cs, SLASH);
  }

  // The part of a package path after `package/`, without a trailing slash.
  lemma RelativePart(path: Bytes, cs: seq<Bytes>)
    requires GoodComponents(cs) && cs != [] && (path == PackagePath(cs) || path == PackagePath(cs) + [SLASH])
    ensures StartsWith(path, PACKAGE + [SLASH]) && DropTrailingSlash(path[8..]) == Join(cs, SLASH) && Join(cs, SLASH) != []
  {
    hide Join, PackagePath;
    PackagePathShape(cs);
    JoinEnds(cs);
    var relative := Join(cs, SLASH);
    assert path[8..] == relative || path[8..] == relative + [SLASH];
  }

  lemma PathParts(path: Bytes, cs: seq<Bytes>)
    requires GoodComponents(cs) && (path == PackagePath(cs) || path == PackagePath(cs) + [SLASH])
    ensures Split(path, SLASH) == [PACKAGE] + cs || Split(path, SLASH) == [PACKAGE] + cs + [[]]
    ensures !HasAppleDouble(path)
  {
    hide Split, PackagePath, Join;
    PackagePathParts(cs);
    SplitTrailing(PackagePath(cs), SLASH);
    forall part | part in Split(path, SLASH) ensures !StartsWith(part, APPLE_DOUBLE) {
      assert part == PACKAGE || part in cs || part == [];
      PackageIsNoAppleDouble();
    }
  }

  lemma PackageIsNoAppleDouble()
    ensures !StartsWith(PACKAGE, APPLE_DOUBLE)
  {
    assert PACKAGE[0] != APPLE_DOUBLE[0];
  }

  lemma ComponentsAreSafe(path: Bytes, directory: bool, cs: seq<Bytes>)
    requires |path| <= MAX_PATH_BYTES && GoodComponents(cs) && (cs == [] ==> directory)
    requires path == PackagePath(cs) || path == PackagePath(cs) + [SLASH]
    ensures SafePath(path, directory)
  {
    hide Split, PackagePath, Join;
    PackagePathShape(cs);
    if cs != [] {
      RelativePart(path, cs);
      JoinHas(cs, BACKSLASH);
      SplitJoin(cs, SLASH);
    }
  }

  lemma DoubleSlash(path: Bytes)
    requires path == PACKAGE + [SLASH, SLASH]
    ensures SafePath(path, true) && Split(path, SLASH) == [PACKAGE, [], []] && !HasAppleDouble(path)
  {
    hide Split;
    SplitTrailing(PACKAGE + [SLASH], SLASH);
    SplitTrailing(PACKAGE, SLASH);
    SplitJoin([PACKAGE], SLASH);
    assert path == PACKAGE + [SLASH] + [SLASH];
    assert Split(path, SLASH) == [PACKAGE, [], []];
    assert path[8..] == [SLASH];
    PackageIsNoAppleDouble();
  }

  lemma LegalIsSafe(path: Bytes, directory: bool)
    requires LegalPath(path, directory)
    ensures SafePath(path, directory) && !HasAppleDouble(path)
  {
    hide Split, PackagePath, Join, SafePath, HasAppleDouble;
    if directory && path == PACKAGE + [SLASH, SLASH] {
      DoubleSlash(path);
    } else {
      var cs :| GoodComponents(cs) && (cs == [] ==> directory) && (path == PackagePath(cs) || path == PackagePath(cs) + [SLASH]);
      PathParts(path, cs);
      ComponentsAreSafe(path, directory, cs);
    }
  }

  lemma SafeIsLegal(path: Bytes, directory: bool)
    requires SafePath(path, directory) && !HasAppleDouble(path)
    ensures LegalPath(path, directory)
  {
    hide Split, PackagePath, Join, HasAppleDouble;
    PackagePathShape([]);
    if path == PACKAGE && directory {
      assert GoodComponents([]) && path == PackagePath([]);
    } else {
      var tail := path[8..];
      assert path == PACKAGE + [SLASH] + tail;
      var relative := DropTrailingSlash(tail);
      assert tail == relative || tail == relative + [SLASH];
      if relative == [] {
        assert path == PackagePath([]) + [SLASH] || path == PACKAGE + [SLASH, SLASH];
        assert GoodComponents([]);
      } else {
        RelativeParts(path, relative);
        var cs := Split(relative, SLASH);
        JoinSplit(relative, SLASH);
        PackagePathShape(cs);
        assert path == PackagePath(cs) || path == PackagePath(cs) + [SLASH];
      }
    }
  }

  lemma RelativeParts(path: Bytes, relative: Bytes)
    requires path == PACKAGE + [SLASH] + relative || path == PACKAGE + [SLASH] + (relative + [SLASH])
    requires BACKSLASH !in relative && !HasAppleDouble(path)
    requires forall part :: part in Split(relative, SLASH) ==> !Traversal(part)
    ensures GoodComponents(Split(relative, SLASH))
  {
    var cs := Split(relative, SLASH);
    hide Split;
    PartsInside(relative, SLASH, BACKSLASH);
    SplitConcat(PACKAGE, relative, SLASH);
    SplitConcat(PACKAGE, relative + [SLASH], SLASH);
    SplitTrailing(relative, SLASH);
    forall i | 0 <= i < |cs| ensures GoodComponent(cs[i]) {
      assert cs[i] in cs && cs[i] == Split(path, SLASH)[i + 1];
      assert cs[i] in Split(path, SLASH);
    }
  }

  // Lexical resolution below the extraction root; `None` when it would climb above it.
  function Resolve(parts: seq<Bytes>, at: seq<Bytes>): Option<seq<Bytes>>
    decreases |parts|
  {
    if parts == [] then Some(at)
    else if parts[0] == [] || parts[0] == DOT then Resolve(parts[1..], at)
    else if parts[0] == DOT_DOT then (if at == [] then None else Resolve(parts[1..], at[..|at| - 1]))
    else Resolve(parts[1..], at + [parts[0]])
  }

  lemma {:induction false} ResolveGood(cs: seq<Bytes>, more: seq<Bytes>, at: seq<Bytes>)
    requires forall i :: 0 <= i < |cs| ==> !Traversal(cs[i])
    requires forall i :: 0 <= i < |more| ==> more[i] == []
    ensures Resolve(cs + more, at) == Some(at + cs)
    decreases |cs| + |more|
  {
    if cs != [] {
      assert (cs + more)[1..] == cs[1..] + more;
      ResolveGood(cs[1..], more, at + [cs[0]]);
      assert at + [cs[0]] + cs[1..] == at + cs;
    } else if more != [] {
      assert cs + more == more && more[1..] == cs + more[1..];
      ResolveGood(cs, more[1..], at);
    } else {
      assert cs + more == [] && at + cs == at;
    }
  }

  /** An accepted path resolves to `package` or below it, through ordinary component names only. */
  lemma LegalStaysInPackage(path: Bytes, directory: bool)
    requires LegalPath(path, directory)
    ensures exists cs :: GoodComponents(cs) && Resolve(Split(path, SLASH), []) == Some([PACKAGE] + cs)
  {
    hide Split, PackagePath, Join, Resolve, SafePath;
    if directory && path == PACKAGE + [SLASH, SLASH] {
      DoubleSlash(path);
      ResolveGood([PACKAGE], [[], []], []);
      assert [PACKAGE] + [[], []] == [PACKAGE, [], []];
      assert GoodComponents([]) && [] + [PACKAGE] == [PACKAGE] + [];
    } else {
      var cs :| GoodComponents(cs) && (path == PackagePath(cs) || path == PackagePath(cs) + [SLASH]);
      PathParts(path, cs);
      ResolveGood([PACKAGE] + cs, [], []);
      ResolveGood([PACKAGE] + cs, [[]], []);
      assert [PACKAGE] + cs + [] == [PACKAGE] + cs && [] + ([PACKAGE] + cs) == [PACKAGE] + cs;
    }
  }

  // ---------- members ----------

  datatype Member = Member(header: Bytes, body: Bytes)

  ghost predicate Describes(m: Member, path: Bytes, directory: bool, size: nat)
  {
    && |m.header| == 512 && !AllZero(m.header)
    && TarOctal(m.header[148..156]) == Ok(Checksum(m.header))
    && PathOf(m.header) == Ok(path)
    && TarOctal(m.header[124..136]) == Ok(size)
    && m.header[156] in (if directory then {DIRECTORY} else {REGULAR_OLD, REGULAR})
    && |m.body| == Padded(size)
  }

  ghost predicate LegalMember(m: Member, path: Bytes, directory: bool, size: nat)
  {
    && Describes(m, path, directory, size)
    && size <= MAX_ENTRY_BYTES && (directory ==> size == 0)
    && LegalPath(path, directory)
  }

  function Flatten(ms: seq<Member>): Bytes
    decreases |ms|
  {
    if ms == [] then [] else ms[0].header + ms[0].body + Flatten(ms[1..])
  }

  function TotalSize(vs: seq<Visit>): nat
    decreases |vs|
  {
    if vs == [] then 0 else vs[0].size + TotalSize(vs[1..])
  }

  // `rest` is the members, visited as `vs` from `offset` on, and then only zeros, at least one block.
  ghost predicate Lists(rest: Bytes, ms: seq<Member>, vs: seq<Visit>, offset: nat)
    decreases |ms|
  {
    if ms == [] then vs == [] && |rest| >= 512 && AllZero(rest)
    else
      && vs != [] && vs[0].offset == offset
      && LegalMember(ms[0], vs[0].path, vs[0].directory, vs[0].size)
      && StartsWith(rest, ms[0].header + ms[0].body)
      && Lists(rest[512 + |ms[0].body|..], ms[1..], vs[1..], offset + 512 + |ms[0].body|)
  }

  ghost predicate Conforms(archive: Bytes, ms: seq<Member>, vs: seq<Visit>)
  {
    1 <= |ms| <= MAX_ENTRIES && TotalSize(vs) <= MAX_UNPACKED_BYTES && Lists(archive, ms, vs, 0)
  }

  // Reading one entry accepts exactly the legal members.
  lemma ReadsMember(rest: Bytes, m: Member, total: nat, path: Bytes, directory: bool, size: nat)
    requires LegalMember(m, path, directory, size) && StartsWith(rest, m.header + m.body)
    requires total + size <= MAX_UNPACKED_BYTES
    ensures |m.body| == Padded(size) && |rest| >= 512 + Padded(size)
    ensures !AllZero(rest[..512]) && ReadEntry(rest, total) == Accept(path, directory, size)
  {
    hide SafePath, HasAppleDouble, TarOctal, PathOf, Checksum, SparseSize, LegalPath;
    assert rest[..512] == (m.header + m.body)[..512] == m.header;
    LegalIsSafe(path, directory);
  }

  lemma ReadMemberIsLegal(rest: Bytes, total: nat)
    requires |rest| >= 512 && !AllZero(rest[..512]) && ReadEntry(rest, total).Accept?
    ensures var e := ReadEntry(rest, total);
            && LegalMember(Member(rest[..512], rest[512..512 + Padded(e.size)]), e.path, e.directory, e.size)
            && total + e.size <= MAX_UNPACKED_BYTES
  {
    hide SafePath, HasAppleDouble, TarOctal, PathOf, Checksum, SparseSize, LegalPath;
    var e := ReadEntry(rest, total);
    SafeIsLegal(e.path, e.directory);
  }

  /** Reading one entry accepts it, with given path, kind and size, exactly when it is a legal member that fits. */
  lemma EntryAcceptedIff(rest: Bytes, total: nat, path: Bytes, directory: bool, size: nat)
    requires |rest| >= 512 && !AllZero(rest[..512])
    ensures ReadEntry(rest, total) == Accept(path, directory, size) <==>
            && total + size <= MAX_UNPACKED_BYTES && 512 + Padded(size) <= |rest|
            && LegalMember(Member(rest[..512], rest[512..512 + Padded(size)]), path, directory, size)
  {
    hide ReadEntry, LegalMember, AllZero, Padded;
    if ReadEntry(rest, total) == Accept(path, directory, size) { ReadMemberIsLegal(rest, total); }
    if total + size <= MAX_UNPACKED_BYTES && 512 + Padded(size) <= |rest| {
      var m := Member(rest[..512], rest[512..512 + Padded(size)]);
      assert m.header + m.body == rest[..512 + Padded(size)];
      if LegalMember(m, path, directory, size) { ReadsMember(rest, m, total, path, directory, size); }
    }
  }

  lemma {:induction false} WalkAccepts(rest: Bytes, ms: seq<Member>, vs: seq<Visit>, offset: nat, entries: nat, total: nat)
    requires Lists(rest, ms, vs, offset)
    requires entries + |ms| <= MAX_ENTRIES && entries + |ms| > 0 && total + TotalSize(vs) <= MAX_UNPACKED_BYTES
    ensures Walk(rest, offset, entries, total, false) == Ok(vs)
    decreases |ms|
  {
    hide *;
    if ms == [] {
      WalkFinishes(rest, vs, offset, entries, total);
    } else {
      ListsHead(rest, ms, vs, offset);
      var v, m := vs[0], ms[0];
      ReadsMember(rest, m, total, v.path, v.directory, v.size);
      WalkTakes(rest, offset, entries, total, false, v);
      WalkAccepts(rest[512 + |m.body|..], ms[1..], vs[1..], offset + 512 + |m.body|, entries + 1, total + v.size);
      assert [v] + vs[1..] == vs;
    }
  }

  lemma WalkFinishes(rest: Bytes, vs: seq<Visit>, offset: nat, entries: nat, total: nat)
    requires Lists(rest, [], vs, offset) && entries > 0
    ensures Walk(rest, offset, entries, total, false) == Ok(vs)
  {
    hide ReadEntry;
    assert AllZero(rest[..512]);
  }

  lemma ListsHead(rest: Bytes, ms: seq<Member>, vs: seq<Visit>, offset: nat)
    requires ms != [] && Lists(rest, ms, vs, offset)
    ensures vs != [] && vs[0].offset == offset && TotalSize(vs) == vs[0].size + TotalSize(vs[1..])
    ensures LegalMember(ms[0], vs[0].path, vs[0].directory, vs[0].size) && StartsWith(rest, ms[0].header + ms[0].body)
    ensures 512 + |ms[0].body| <= |rest|
    ensures Lists(rest[512 + |ms[0].body|..], ms[1..], vs[1..], offset + 512 + |ms[0].body|)
  {
    hide AllZero, Padded, LegalPath;
  }

  lemma WalkTakes(rest: Bytes, offset: nat, entries: nat, total: nat, deferred: bool, v: Visit)
    requires |rest| >= 512 && !AllZero(rest[..512]) && entries < MAX_ENTRIES && v.offset == offset
    requires ReadEntry(rest, total) == Accept(v.path, v.directory, v.size)
    ensures var n := 512 + Padded(v.size);
            var later := Walk(rest[n..], offset + n, entries + 1, total + v.size, deferred);
            Walk(rest, offset, entries, total, deferred) == if later.Ok? then Ok([v] + later.value) else later
  {
    hide ReadEntry, AllZero, Padded;
  }

  // Once an entry has been deferred, the walk cannot succeed.
  lemma {:induction false} DeferredNeverAccepts(rest: Bytes, offset: nat, entries: nat, total: nat)
    ensures Walk(rest, offset, entries, total, true).Err?
    decreases |rest|
  {
    hide ReadEntry;
    if |rest| >= 512 && !AllZero(rest[..512]) && entries < MAX_ENTRIES && !ReadEntry(rest, total).Reject? {
      var size := ReadEntry(rest, total).size;
      DeferredNeverAccepts(rest[512 + Padded(size)..], offset + 512 + Padded(size), entries + 1, total + size);
    }
  }

  lemma EmptyLists(rest: Bytes, offset: nat)
    requires |rest| >= 512 && AllZero(rest)
    ensures Lists(rest, [], [], offset)
  {
  }

  lemma ListsCons(m: Member, v: Visit, rest: Bytes, ms: seq<Member>, vs: seq<Visit>)
    requires LegalMember(m, v.path, v.directory, v.size) && |m.header| == 512
    requires Lists(rest, ms, vs, v.offset + 512 + |m.body|)
    ensures Lists(m.header + m.body + rest, [m] + ms, [v] + vs, v.offset)
  {
    hide LegalMember;
    var whole := m.header + m.body + rest;
    assert ([m] + ms)[1..] == ms && ([v] + vs)[1..] == vs && whole[512 + |m.body|..] == rest;
  }

  lemma {:induction false} AcceptedLists(rest: Bytes, offset: nat, entries: nat, total: nat) returns (ms: seq<Member>)
    requires total <= MAX_UNPACKED_BYTES && Walk(rest, offset, entries, total, false).Ok?
    ensures var vs := Walk(rest, offset, entries, total, false).value;
            && Lists(rest, ms, vs, offset) && entries + |ms| > 0 && (ms != [] ==> entries + |ms| <= MAX_ENTRIES)
            && total + TotalSize(vs) <= MAX_UNPACKED_BYTES
    decreases |rest|
  {
    hide ReadEntry, LegalMember, Lists;
    if AllZero(rest[..512]) {
      ms := [];
      EmptyLists(rest, offset);
    } else {
      var e := ReadEntry(rest, total);
      var n := 512 + Padded(e.size);
      if e.Defer? {
        DeferredNeverAccepts(rest[n..], offset + n, entries + 1, total + e.size);
        assert false;
      }
      ReadMemberIsLegal(rest, total);
      var more := AcceptedLists(rest[n..], offset + n, entries + 1, total + e.size);
      var ws := Walk(rest[n..], offset + n, entries + 1, total + e.size, false).value;
      assert rest == rest[..512] + rest[512..n] + rest[n..];
      ListsCons(Member(rest[..512], rest[512..n]), Visit(offset, e.path, e.directory, e.size), rest[n..], more, ws);
      ms := [Member(rest[..512], rest[512..n])] + more;
      assert ([Visit(offset, e.path, e.directory, e.size)] + ws)[1..] == ws;
    }
  }

  /**
   Acceptance, both ways: the walk succeeds with visits `vs` exactly when the bytes are one to 4096
   checksummed headers with padded bodies, each a plain file or directory with a legal path and a
   legal size, in total within the limit, followed by nothing but zeros.
   */
  lemma AcceptedIffConforms(archive: Bytes, vs: seq<Visit>)
    ensures Walk(archive, 0, 0, 0, false) == Ok(vs) <==> exists ms :: Conforms(archive, ms, vs)
  {
    hide Walk, Lists;
    if Walk(archive, 0, 0, 0, false) == Ok(vs) {
      var ms := AcceptedLists(archive, 0, 0, 0);
      assert Conforms(archive, ms, vs);
    }
    if ms :| Conforms(archive, ms, vs) {
      WalkAccepts(archive, ms, vs, 0, 0, 0);
    }
  }

  // ---------- what is reported ----------

  // The three fields of a header that must be readable.
  ghost predicate Readable(h: Bytes, path: Bytes, size: nat)
    requires |h| == 512
  {
    TarOctal(h[148..156]) == Ok(Checksum(h)) && PathOf(h) == Ok(path) && TarOctal(h[124..136]) == Ok(size)
  }

  ghost predicate Fits(rest: Bytes, total: nat, size: nat)
  {
    size <= MAX_ENTRY_BYTES && total + size <= MAX_UNPACKED_BYTES && 512 + Padded(size) <= |rest|
  }

  /**
   Which error a readable entry ends with: the limits come first, in the order of one entry, the whole content and the
   bytes that are there; then the kind of entry, then its path, then a directory with a body. Extended headers and
   AppleDouble files only end the walk later on, unless a sparse file is announced that is too large.
   */
  lemma EntryFault(rest: Bytes, total: nat, path: Bytes, size: nat)
    requires |rest| >= 512 && Readable(rest[..512], path, size)
    ensures var e, flag := ReadEntry(rest, total), rest[156];
            && (size > MAX_ENTRY_BYTES ==> e == Reject(EntryTooLarge))
            && (size <= MAX_ENTRY_BYTES && total + size > MAX_UNPACKED_BYTES ==> e == Reject(TotalTooLarge))
            && (size <= MAX_ENTRY_BYTES && total + size <= MAX_UNPACKED_BYTES && 512 + Padded(size) > |rest| ==> e == Reject(Truncated))
            && (Fits(rest, total, size) ==>
                  && (flag == PAX ==>
                        e == if SparseSize(rest[512..512 + size], 0) > MAX_UNPACKED_BYTES then Reject(ExpandedSize) else Defer(size))
                  && (flag != PAX && flag != REGULAR_OLD && flag != REGULAR && flag != DIRECTORY ==> e == Reject(SpecialEntry))
                  && (flag == REGULAR_OLD || flag == REGULAR || flag == DIRECTORY ==>
                        && (HasAppleDouble(path) ==> e == Defer(size))
                        && (!HasAppleDouble(path) && !LegalPath(path, flag == DIRECTORY) ==> e == Reject(UnsafePath))
                        && (LegalPath(path, true) && flag == DIRECTORY && size != 0 ==> e == Reject(DirectoryWithData))))
  {
    hide ReadTyped, TarOctal, PathOf, Checksum, SparseSize, LegalPath, HasAppleDouble, Padded;
    assert rest[..512][156] == rest[156];
    if Fits(rest, total, size) { TypedFault(rest[156], path, size, rest[512..512 + size]); }
  }

  // The part of it that depends on the kind of entry.
  lemma TypedFault(flag: byte, path: Bytes, size: nat, body: Bytes)
    ensures var e := ReadTyped(flag, path, size, body);
            && (flag == PAX ==> e == if SparseSize(body, 0) > MAX_UNPACKED_BYTES then Reject(ExpandedSize) else Defer(size))
            && (flag != PAX && flag != REGULAR_OLD && flag != REGULAR && flag != DIRECTORY ==> e == Reject(SpecialEntry))
            && (flag == REGULAR_OLD || flag == REGULAR || flag == DIRECTORY ==>
                  && (HasAppleDouble(path) ==> e == Defer(size))
                  && (!HasAppleDouble(path) && !LegalPath(path, flag == DIRECTORY) ==> e == Reject(UnsafePath))
                  && (LegalPath(path, true) && flag == DIRECTORY && size != 0 ==> e == Reject(DirectoryWithData)))
  {
    hide SafePath, HasAppleDouble, SparseSize, LegalPath;
    if LegalPath(path, flag == DIRECTORY) { LegalIsSafe(path, flag == DIRECTORY); }
    if SafePath(path, flag == DIRECTORY) && !HasAppleDouble(path) { SafeIsLegal(path, flag == DIRECTORY); }
  }

  ghost predicate AllLegalMembers(ms: seq<Member>, vs: seq<Visit>)
  {
    |ms| == |vs| && forall i :: 0 <= i < |ms| ==> LegalMember(ms[i], vs[i].path, vs[i].directory, vs[i].size)
  }

  lemma {:induction false} WalkPasses(ms: seq<Member>, vs: seq<Visit>, tail: Bytes, offset: nat, entries: nat, total: nat, deferred: bool)
    requires AllLegalMembers(ms, vs) && entries + |ms| <= MAX_ENTRIES && total + TotalSize(vs) <= MAX_UNPACKED_BYTES
    ensures var w := Walk(tail, offset + |Flatten(ms)|, entries + |ms|, total + TotalSize(vs), deferred);
            w.Err? ==> Walk(Flatten(ms) + tail, offset, entries, total, deferred) == w
    decreases |ms|
  {
    hide Walk, LegalMember;
    if ms == [] {
      assert Flatten(ms) + tail == tail;
    } else {
      assert Flatten(ms) + tail == ms[0].header + ms[0].body + (Flatten(ms[1..]) + tail);
      WalkPassesOne(ms[0], vs[0], Flatten(ms[1..]) + tail, offset, entries, total, deferred);
      WalkPasses(ms[1..], vs[1..], tail, offset + 512 + |ms[0].body|, entries + 1, total + vs[0].size, deferred);
    }
  }

  lemma WalkPassesOne(m: Member, v: Visit, tail: Bytes, offset: nat, entries: nat, total: nat, deferred: bool)
    requires LegalMember(m, v.path, v.directory, v.size) && entries < MAX_ENTRIES && total + v.size <= MAX_UNPACKED_BYTES
    ensures |m.header| == 512
    ensures var w := Walk(tail, offset + 512 + |m.body|, entries + 1, total + v.size, deferred);
            w.Err? ==> Walk(m.header + m.body + tail, offset, entries, total, deferred) == w
  {
    hide Walk, LegalMember, ReadEntry, AllZero;
    var rest := m.header + m.body + tail;
    ReadsMember(rest, m, total, v.path, v.directory, v.size);
    LegalHeader(m, v.path, v.directory, v.size);
    assert rest[512 + |m.body|..] == tail;
    WalkTakes(rest, offset, entries, total, deferred, v.(offset := offset));
  }

  lemma LegalHeader(m: Member, path: Bytes, directory: bool, size: nat)
    requires LegalMember(m, path, directory, size)
    ensures |m.header| == 512 && |m.body| == Padded(size)
  {
  }

  /**
   The first fault of an archive is the one reported: behind legal members, bytes that end too early or zeros that are
   not only zeros, zeros with no member before, one entry too many, and whatever is wrong with the next entry.
   */
  lemma FirstFaultIsReported(ms: seq<Member>, vs: seq<Visit>, tail: Bytes)
    requires AllLegalMembers(ms, vs) && |ms| <= MAX_ENTRIES && TotalSize(vs) <= MAX_UNPACKED_BYTES
    ensures var r := Walk(Flatten(ms) + tail, 0, 0, 0, false);
            && (|tail| < 512 ==> r == Err(InvalidTermination))
            && (|tail| >= 512 && AllZero(tail[..512]) && (ms == [] || !AllZero(tail)) ==> r == Err(InvalidTermination))
            && (|tail| >= 512 && !AllZero(tail[..512]) ==>
                  && (|ms| == MAX_ENTRIES ==> r == Err(TooManyEntries))
                  && (|ms| < MAX_ENTRIES && ReadEntry(tail, TotalSize(vs)).Reject? ==> r == Err(ReadEntry(tail, TotalSize(vs)).error)))
  {
    hide Walk, ReadEntry, AllLegalMembers, AllZero;
    WalkPasses(ms, vs, tail, 0, 0, 0, false);
    FaultHere(tail, |Flatten(ms)|, |ms|, TotalSize(vs));
  }

  lemma FaultHere(tail: Bytes, offset: nat, entries: nat, total: nat)
    ensures var r := Walk(tail, offset, entries, total, false);
            && (|tail| < 512 ==> r == Err(InvalidTermination))
            && (|tail| >= 512 && AllZero(tail[..512]) && (entries == 0 || !AllZero(tail)) ==> r == Err(InvalidTermination))
            && (|tail| >= 512 && !AllZero(tail[..512]) ==>
                  && (entries == MAX_ENTRIES ==> r == Err(TooManyEntries))
                  && (entries < MAX_ENTRIES && ReadEntry(tail, total).Reject? ==> r == Err(ReadEntry(tail, total).error)))
  {
    hide ReadEntry, AllZero;
  }

  // `tail` begins with an entry that is deferred, and goes on with `next`.
  predicate Defers(tail: Bytes, total: nat, size: nat, next: Bytes)
  {
    && |tail| >= 512 && !AllZero(tail[..512]) && ReadEntry(tail, total) == Defer(size)
    && tail[512 + Padded(size)..] == next
  }

  /**
   A deferred entry is only reported at the end: among legal members, in an archive that ends well, it is the reason
   the archive is rejected.
   */
  lemma DeferredIsReported(ms: seq<Member>, vs: seq<Visit>, tail: Bytes, size: nat, ns: seq<Member>, ws: seq<Visit>, zeros: Bytes)
    requires AllLegalMembers(ms, vs) && AllLegalMembers(ns, ws) && |ms| + 1 + |ns| <= MAX_ENTRIES
    requires TotalSize(vs) + size + TotalSize(ws) <= MAX_UNPACKED_BYTES
    requires Defers(tail, TotalSize(vs), size, Flatten(ns) + zeros) && |zeros| >= 512 && AllZero(zeros)
    ensures Walk(Flatten(ms) + tail, 0, 0, 0, false) == Err(SpecialEntry)
  {
    hide *;
    TailIsDeferred(tail, |Flatten(ms)|, |ms|, TotalSize(vs), size, ns, ws, zeros);
    WalkPasses(ms, vs, tail, 0, 0, 0, false);
  }

  lemma TailIsDeferred(tail: Bytes, offset: nat, entries: nat, total: nat, size: nat, ns: seq<Member>, ws: seq<Visit>, zeros: Bytes)
    requires AllLegalMembers(ns, ws) && entries + 1 + |ns| <= MAX_ENTRIES && total + size + TotalSize(ws) <= MAX_UNPACKED_BYTES
    requires Defers(tail, total, size, Flatten(ns) + zeros) && |zeros| >= 512 && AllZero(zeros)
    ensures Walk(tail, offset, entries, total, false) == Err(SpecialEntry)
  {
    hide *;
    var next := offset + 512 + Padded(size);
    WalkDefers(tail, offset, entries, total, size, Flatten(ns) + zeros);
    WalkPasses(ns, ws, zeros, next, entries + 1, total + size, true);
    DeferredEnds(zeros, next + |Flatten(ns)|, entries + 1 + |ns|, total + size + TotalSize(ws));
  }

  lemma WalkDefers(rest: Bytes, offset: nat, entries: nat, total: nat, size: nat, next: Bytes)
    requires entries < MAX_ENTRIES && Defers(rest, total, size, next)
    ensures Walk(rest, offset, entries, total, false) == Walk(next, offset + 512 + Padded(size), entries + 1, total + size, true)
  {
    hide ReadEntry, AllZero, Padded;
  }

  lemma DeferredEnds(zeros: Bytes, offset: nat, entries: nat, total: nat)
    requires |zeros| >= 512 && AllZero(zeros) && entries > 0
    ensures Walk(zeros, offset, entries, total, true) == Err(SpecialEntry)
  {
    hide ReadEntry;
    assert AllZero(zeros[..512]);
  }
}
