/**
 Replacing a channel link (atomicReplaceLink in scripts/install-channel.mjs) when any of its
 file-system calls may fail and the process may be killed between any two of them.
 */
module ReplaceLink {
  import opened Common

  type Target = string

  datatype Name = Link | Temporary | Displaced

  type Names = map<Name, Target>

  function At(names: Names, n: Name): Option<Target> { if n in names then Some(names[n]) else None }

  // The directory holding the link. `history` lists its states after every call, so a property of all
  // of `history` is a property of whatever a kill at any point leaves behind.
  class LinkDirectory {
    var names: Names
    var history: seq<Names>
    var calls: nat
    var durable: Option<Target> // where the link pointed when the directory was last synced
    const faults: nat -> bool   // which calls fail

    constructor (names: Names, faults: nat -> bool)
      ensures this.names == names && this.history == [names] && this.faults == faults && calls == 0
      ensures durable == At(names, Link)
    {
      this.names, this.history, this.faults, this.calls, this.durable := names, [names], faults, 0, At(names, Link);
    }

    // Each primitive either fails without effect or takes effect at once.
    method Symlink(target: Target) returns (ok: bool)
      modifies this`names, this`calls, this`history
      ensures calls == old(calls) + 1 && ok == !faults(old(calls))
      ensures names == (if ok then old(names)[Temporary := target] else old(names))
      ensures history == old(history) + [names]
    {
      ok := !faults(calls);
      if ok { names := names[Temporary := target]; }
      calls, history := calls + 1, history + [names];
    }

    method Rename(from: Name, to: Name) returns (ok: bool)
      requires from != to
      modifies this`names, this`calls, this`history
      ensures calls == old(calls) + 1 && ok == (!faults(old(calls)) && from in old(names))
      ensures names == (if ok then (old(names) - {from})[to := old(names)[from]] else old(names))
      ensures history == old(history) + [names]
    {
      ok := !faults(calls) && from in names;
      if ok { names := (names - {from})[to := names[from]]; }
      calls, history := calls + 1, history + [names];
    }

    // rmSync with force: an absent name is no error.
    method Remove(n: Name) returns (ok: bool)
      modifies this`names, this`calls, this`history
      ensures calls == old(calls) + 1 && ok == !faults(old(calls))
      ensures names == (if ok then old(names) - {n} else old(names))
      ensures history == old(history) + [names]
    {
      ok := !faults(calls);
      if ok { names := names - {n}; }
      calls, history := calls + 1, history + [names];
    }

    // lstat: it changes nothing.
    method Probe() returns (ok: bool)
      modifies this`calls, this`history
      ensures calls == old(calls) + 1 && ok == !faults(old(calls))
      ensures history == old(history) + [names]
    {
      ok := !faults(calls);
      calls, history := calls + 1, history + [names];
    }

    // fsync of the directory.
    method SyncDirectory() returns (ok: bool)
      modifies this`calls, this`history, this`durable
      ensures calls == old(calls) + 1 && ok == !faults(old(calls))
      ensures durable == if ok then At(names, Link) else old(durable)
      ensures history == old(history) + [names]
    {
      ok := !faults(calls);
      if ok { durable := At(names, Link); }
      calls, history := calls + 1, history + [names];
    }

    // Every state since `from` satisfies what the replacement promises at all times.
    ghost predicate Promised(from: nat, before: Option<Target>, target: Target, windows: bool)
      reads this
    {
      && from <= |history| && PointerKept(names, before, target)
      && forall i :: from <= i < |history| ==> Intact(history[i], before, target, windows)
    }

    // At some moment since `from` there was no link at all.
    ghost predicate Gap(from: nat)
      reads this
    {
      exists i :: from <= i < |history| && Link !in history[i]
    }

    predicate FirstThreeWork(from: nat) { !faults(from) && !faults(from + 1) && !faults(from + 2) }

    /**
     With any pattern of failures and a kill at any point:
     - the old pointer is never lost before the new one is published;
     - on POSIX the link itself is the old or the new target at every moment;
     - a success leaves exactly the new link; a failure leaves the new or the old target at the link,
       or keeps the old one at the displaced name;
     - the replacement succeeds exactly when none of its calls fails, and on POSIX the new link is then durable;
     - an existing link is missing at some moment, so that a launcher started then finds no release, exactly
       on Windows and when the first three calls (new link, lstat, rename out of the way) work.
     */
    method AtomicReplaceLink(target: Target, windows: bool) returns (ok: bool)
      requires Temporary !in names && Displaced !in names
      modifies this
      ensures old(history) <= history
      ensures forall i :: |old(history)| <= i < |history| ==> Intact(history[i], At(old(names), Link), target, windows)
      ensures PointerKept(names, At(old(names), Link), target)
      ensures ok ==> names == map[Link := target]
      ensures !windows ==> At(names, Link) in {At(old(names), Link), Some(target)}
      ensures ok <==> forall k :: old(calls) <= k < calls ==> !faults(k)
      ensures ok && !windows ==> durable == Some(target)
      ensures Link in old(names) ==> (Gap(|old(history)|) <==> windows && FirstThreeWork(old(calls)))
    {
      ghost var before, h := At(names, Link), |history|;
      var displacedExisting: bool;
      ok, displacedExisting := Exchange(target, windows);
      if !ok && displacedExisting { displacedExisting := Restore(h, before, target); }
      var cleaned := CleanUp(h, before, target, windows, displacedExisting);
      ok := ok && cleaned;
      assert ok ==> names.Keys == {Link} by { forall n | n in names ensures n == Link || n == Temporary || n == Displaced {} }
    }

    // The error handler once the old link has been displaced; it tells whether the old link is still displaced.
    method Restore(ghost h: nat, ghost before: Option<Target>, ghost target: Target) returns (displacedExisting: bool)
      requires Promised(h, before, target, true) && before.Some? && At(names, Displaced) == before
      modifies this
      ensures Promised(h, before, target, true) && old(history) <= history && old(calls) <= calls
      ensures displacedExisting ==> At(names, Displaced) == before
      ensures !displacedExisting ==> At(names, Link) == before && Displaced !in names
      ensures (forall k :: old(calls) <= k < calls ==> !faults(k)) ==> !displacedExisting
    {
      displacedExisting := true;
      var ok := Remove(Link);
      assert Promised(h, before, target, true);
      if ok {
        ok := Rename(Displaced, Link);
        displacedExisting := !ok;
      }
    }

    // The finally block: everything temporary goes, except an old link that could not be put back.
    method CleanUp(ghost h: nat, ghost before: Option<Target>, ghost target: Target, ghost windows: bool, displacedExisting: bool)
      returns (ok: bool)
      requires Promised(h, before, target, windows)
      requires if displacedExisting then windows && At(names, Displaced) == before
               else At(names, Link) in {before, Some(target)} && Displaced !in names
      modifies this`names, this`calls, this`history
      ensures Promised(h, before, target, windows) && old(history) <= history && old(calls) <= calls
      ensures At(names, Link) == old(At(names, Link)) && At(names, Displaced) == old(At(names, Displaced))
      ensures forall i :: |old(history)| <= i < |history| ==> (Link in history[i] <==> Link in names)
      ensures ok ==> Temporary !in names
      ensures ok <==> forall k :: old(calls) <= k < calls ==> !faults(k)
    {
      ok := Remove(Temporary);
      assert Promised(h, before, target, windows);
      if ok && !displacedExisting { ok := Remove(Displaced); }
    }

    // The protected block: everything up to the first failure.
    method Exchange(target: Target, windows: bool) returns (ok: bool, displacedExisting: bool)
      requires Temporary !in names && Displaced !in names
      modifies this
      ensures |old(history)| < |history| && old(history) <= history && old(calls) <= calls
      ensures Promised(|old(history)|, At(old(names), Link), target, windows)
      ensures ok ==> At(names, Link) == Some(target) && Displaced !in names && !displacedExisting
      ensures displacedExisting ==> windows && Link in old(names) && At(names, Displaced) == At(old(names), Link)
      ensures !displacedExisting ==> At(names, Link) in {At(old(names), Link), Some(target)} && Displaced !in names
      ensures ok <==> forall k :: old(calls) <= k < calls ==> !faults(k)
      ensures ok && !windows ==> durable == Some(target)
      ensures Link in old(names) ==> (Gap(|old(history)|) <==> windows && FirstThreeWork(old(calls)))
      ensures displacedExisting ==> Gap(|old(history)|)
    {
      ghost var before, h := At(names, Link), |history|;
      ok, displacedExisting := MakeWay(target, windows);
      if !ok { return; }
      ghost var w: nat := h;
      if displacedExisting { w :| h <= w < |history| && Link !in history[w]; }
      ghost var seen := history;
      ok, displacedExisting := PutInPlace(target, windows, displacedExisting, h, before);
      assert history[w] == seen[w];
    }

    // The new link takes its place, and the old one goes.
    method PutInPlace(target: Target, windows: bool, displaced: bool, ghost h: nat, ghost before: Option<Target>)
      returns (ok: bool, displacedExisting: bool)
      requires Promised(h, before, target, windows) && At(names, Temporary) == Some(target)
      requires if displaced then windows && Link !in names && At(names, Displaced) == before && before.Some?
               else At(names, Link) == before && Displaced !in names
      modifies this
      ensures Promised(h, before, target, windows) && old(history) <= history && old(calls) <= calls
      ensures ok ==> At(names, Link) == Some(target) && Displaced !in names && !displacedExisting
      ensures displacedExisting ==> displaced && At(names, Displaced) == before
      ensures !displacedExisting ==> At(names, Link) in {before, Some(target)} && Displaced !in names
      ensures ok <==> forall k :: old(calls) <= k < calls ==> !faults(k)
      ensures ok && !windows ==> durable == Some(target)
      ensures !displaced && before.Some? ==> forall i :: |old(history)| <= i < |history| ==> Link in history[i]
    {
      displacedExisting := displaced;
      ok := Rename(Temporary, Link);
      assert Promised(h, before, target, windows);
      if !ok { return; }
      if displacedExisting {
        ok := Remove(Displaced);
        assert Promised(h, before, target, windows);
        if !ok { return; }
      }
      displacedExisting := false;
      if !windows { ok := SyncDirectory(); }
    }

    // The new link is made under a temporary name; on Windows an existing link is moved out of the way.
    method MakeWay(target: Target, windows: bool) returns (ok: bool, displacedExisting: bool)
      requires Temporary !in names && Displaced !in names
      modifies this
      ensures |old(history)| < |history| && old(history) <= history && old(calls) <= calls
      ensures Promised(|old(history)|, At(old(names), Link), target, windows)
      ensures displacedExisting <==> windows && Link in old(names) && FirstThreeWork(old(calls))
      ensures displacedExisting ==> ok && Link !in names && At(names, Displaced) == At(old(names), Link)
      ensures !displacedExisting ==> At(names, Link) == At(old(names), Link) && Displaced !in names
      ensures ok ==> At(names, Temporary) == Some(target)
      ensures ok <==> forall k :: old(calls) <= k < calls ==> !faults(k)
      ensures Link in old(names) ==> (Gap(|old(history)|) <==> displacedExisting)
    {
      ghost var before, h := At(names, Link), |history|;
      displacedExisting := false;
      ok := Symlink(target);
      assert Promised(h, before, target, windows);
      if !ok || !windows { return; }
      ok := Probe();
      assert Promised(h, before, target, windows);
      if !ok { return; }
      if Link in names {
        ok := Rename(Link, Displaced);
        assert Promised(h, before, target, windows);
        assert ok ==> Link !in history[h + 2];
        displacedExisting := ok;
      }
    }
  }

  // The new target is published, or the old one (if there was one) is still at the link or displaced.
  predicate PointerKept(s: Names, before: Option<Target>, target: Target)
  {
    At(s, Link) == Some(target) || At(s, Link) == before || At(s, Displaced) == before
  }

  predicate Intact(s: Names, before: Option<Target>, target: Target, windows: bool)
  {
    PointerKept(s, before, target) && (!windows ==> At(s, Link) in {before, Some(target)})
  }

  /** So on Windows even a replacement that meets no failure leaves a moment without any link. */
  method WindowsGap(prior: Target, target: Target) returns (dir: LinkDirectory, ok: bool)
    ensures ok && dir.names == map[Link := target]
    ensures exists i :: 0 <= i < |dir.history| && Link !in dir.history[i]
    ensures dir.history != [] && dir.history[0] == map[Link := prior] && forall k :: dir.faults(k) == false
  {
    dir := new LinkDirectory(map[Link := prior], k => false);
    ok := dir.AtomicReplaceLink(target, true);
  }
}
