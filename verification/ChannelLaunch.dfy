/**
 Launches against the collector's accounting of leases. The collector accounts for every user of a release as
 long as it does not list or judge the leases of that release while a launcher has resolved it and not yet
 completed its lease. The guard is there to keep these two apart.
 */
module ChannelLaunch {
  import opened Common
  import opened Channel
  import opened ChannelSafety
  import Guard

  // Runner `p` has resolved `rel` and not completed its lease.
  predicate Launching(s: Channel, p: Proc, rel: Rel)
  {
    p in s.runners && (s.runners[p] == Resolved(rel) || s.runners[p] == Leasing(rel))
  }

  // The collector lists the leases of a release without the one of a launcher of it, or judges that one inactive.
  ghost predicate Overlaps(s: Channel, a: Action)
  {
    match a
    case Prune(ScanRelease(rel)) => exists p: Proc :: Launching(s, p, rel) && (rel, p) !in s.leases
    case Prune(ScanLease(q, false)) => s.phase.PruneLeases? && Launching(s, q, s.phase.rel)
    case _ => false
  }

  predicate RunnerSheltered(s: Channel, p: Proc, l: Launch)
  {
    match l
    case Resolved(r) => r in s.releases
    case Leasing(r) => r in s.releases && (r, p) in s.leases
    case Leased(r) => r in s.releases && CompleteLease(s, r, p)
    case Running(r) => r in s.releases && CompleteLease(s, r, p)
    case _ => true
  }

  ghost predicate RunnersSheltered(s: Channel)
  {
    forall p :: p in s.runners ==> RunnerSheltered(s, p, s.runners[p])
  }

  // Every live user of the release under scan is still to be scanned or was found active, and no user's lease is about to go.
  ghost predicate ScanSheltered(s: Channel)
  {
    s.phase.PruneLeases? ==>
      forall p :: Uses(s, p, s.phase.rel) ==> (s.phase.active || p in s.phase.files) && s.phase.stale != Some(p)
  }

  ghost predicate Sheltered(s: Channel) { RunnersSheltered(s) && ScanSheltered(s) }

  // ---------- one step ----------

  lemma OverlapExposes(s: Channel, a: Action)
    requires Valid(s) && Sheltered(s) && Enabled(s, a) && Overlaps(s, a)
    ensures !Sheltered(Exec(s, a))
  {
    hide Valid, Guard.Exec, Guard.Enabled, RunnersSheltered;
    var s' := Exec(s, a);
    match a.gc
    case ScanRelease(rel) =>
      var p: Proc :| Launching(s, p, rel) && (rel, p) !in s.leases;
      assert Uses(s', p, rel) && p !in s'.phase.files;
    case ScanLease(q, _) =>
      assert Uses(s', q, s.phase.rel);
  }

  lemma RunnerShelters(s: Channel, p: Proc, r: RunnerAction)
    requires Valid(s) && Sheltered(s) && RunnerEnabled(s, p, r)
    ensures Sheltered(RunnerExec(s, p, r))
  {
    var s' := RunnerExec(s, p, r);
    assert RunnerSheltered(s, p, s.runners[p]);
    assert s.phase.PruneLeases? && s.current.Some? ==> s.current.value != s.phase.rel;
    hide Valid, Links, Guard.Holds;
    forall q | q in s'.runners ensures RunnerSheltered(s', q, s'.runners[q]) {
      assert q != p ==> RunnerSheltered(s, q, s.runners[q]);
    }
    if s.phase.PruneLeases? {
      forall q | Uses(s', q, s.phase.rel) ensures (s.phase.active || q in s.phase.files) && s.phase.stale != Some(q) {
        assert Uses(s, q, s.phase.rel);
      }
    }
  }

  // Nothing a runner relies on changes, no runner starts to use anything, and no scan begins.
  lemma FewerUsersShelter(s: Channel, s': Channel)
    requires Sheltered(s)
    requires forall p :: p in s'.runners ==> (p in s.runners && s'.runners[p] == s.runners[p]) || s'.runners[p].Failed? || s'.runners[p].Starting?
    requires s'.leases == s.leases && forall r :: r in s.releases ==> r in s'.releases
    requires s'.phase == s.phase || !s'.phase.PruneLeases?
    ensures Sheltered(s')
  {
    forall p | p in s'.runners ensures RunnerSheltered(s', p, s'.runners[p]) {
      assert p in s.runners && s'.runners[p] == s.runners[p] ==> RunnerSheltered(s, p, s.runners[p]);
    }
    assert forall p, rel :: Uses(s', p, rel) ==> Uses(s, p, rel);
  }

  lemma ScanShelters(s: Channel, a: PruneAction)
    requires Valid(s) && Sheltered(s) && PruneEnabled(s, a) && !Overlaps(s, Prune(a))
    requires a.ScanRelease? || a.ScanLease?
    ensures Sheltered(PruneExec(s, a))
  {
    var s' := PruneExec(s, a);
    assert s.runners.Keys <= s.g.stage.Keys;
    hide Valid;
    forall p | Uses(s', p, s'.phase.rel) ensures (s'.phase.active || p in s'.phase.files) && s'.phase.stale != Some(p) {
      assert Uses(s, p, s'.phase.rel) && RunnerSheltered(s, p, s.runners[p]);
      assert (s'.phase.rel, p) in s.leases || Launching(s, p, s'.phase.rel);
    }
    assert forall p :: p in s'.runners ==> RunnerSheltered(s, p, s'.runners[p]);
  }

  lemma RemovalShelters(s: Channel, a: PruneAction)
    requires Valid(s) && Sheltered(s) && PruneEnabled(s, a) && (a.DropLease? || a.Retire?)
    ensures Sheltered(PruneExec(s, a))
  {
    var s' := PruneExec(s, a);
    hide Valid;
    forall p | p in s'.runners ensures RunnerSheltered(s', p, s'.runners[p]) {
      assert RunnerSheltered(s, p, s.runners[p]);
      assert Uses(s, p, s.phase.rel) ==> (s.phase.active || p in s.phase.files) && s.phase.stale != Some(p);
    }
    assert forall p, rel :: Uses(s', p, rel) ==> Uses(s, p, rel);
  }

  lemma ShelterStep(s: Channel, a: Action)
    requires Valid(s) && Sheltered(s) && Enabled(s, a)
    ensures Sheltered(Exec(s, a)) <==> !Overlaps(s, a)
  {
    if Overlaps(s, a) {
      OverlapExposes(s, a);
    } else {
      match a
      case Run(p, r) => RunnerShelters(s, p, r);
      case Prune(gc) => PruneShelters(s, gc);
      case _ =>
        RestChangesLittle(s, a);
        hide Exec, Enabled, Sheltered, Valid;
        FewerUsersShelter(s, Exec(s, a));
    }
  }

  lemma PruneShelters(s: Channel, a: PruneAction)
    requires Valid(s) && Sheltered(s) && PruneEnabled(s, a) && !Overlaps(s, Prune(a))
    ensures Sheltered(PruneExec(s, a))
  {
    hide Valid, Sheltered, Overlaps;
    if a.ScanRelease? || a.ScanLease? {
      ScanShelters(s, a);
    } else if a.DropLease? || a.Retire? {
      RemovalShelters(s, a);
    } else {
      FewerUsersShelter(s, PruneExec(s, a));
    }
  }

  lemma RestChangesLittle(s: Channel, a: Action)
    requires Enabled(s, a) && !a.Run? && !a.Prune?
    ensures var s' := Exec(s, a);
            && s'.leases == s.leases && (forall r :: r in s.releases ==> r in s'.releases)
            && (s'.phase == s.phase || !s'.phase.PruneLeases?)
            && forall p :: p in s'.runners ==>
                 (p in s.runners && s'.runners[p] == s.runners[p]) || s'.runners[p].Failed? || s'.runners[p].Starting?
  {
    hide Guard.Exec, Guard.Enabled, GuardAllowed, PlanExec, PlanEnabled;
    if a.Plan? { PlanChangesLittle(s, a.step); }
  }

  lemma PlanChangesLittle(s: Channel, a: PlanAction)
    requires PlanEnabled(s, a)
    ensures var s' := PlanExec(s, a);
            && s'.leases == s.leases && s'.runners == s.runners && !s'.phase.PruneLeases?
            && forall r :: r in s.releases ==> r in s'.releases
  {
  }

  // ---------- whole runs ----------

  ghost predicate AlwaysSheltered(s: Channel, acts: seq<Action>)
    requires IsRun(s, acts)
    decreases acts
  {
    Sheltered(s) && (acts == [] || AlwaysSheltered(Exec(s, acts[0]), acts[1..]))
  }

  ghost predicate NeverOverlaps(s: Channel, acts: seq<Action>)
    requires IsRun(s, acts)
    decreases acts
  {
    acts == [] || (!Overlaps(s, acts[0]) && NeverOverlaps(Exec(s, acts[0]), acts[1..]))
  }

  /**
   Exactly when the accounting is right: at every moment of a run each live user's release is in place, with its
   lease, and the scan under way still has the user to scan or has found it active, if and only if no scan of
   that run overlaps a launch. A scan that overlaps may still come to lose nothing.
   */
  lemma {:induction false} ShelteredIffNeverOverlaps(s: Channel, acts: seq<Action>)
    requires Valid(s) && Sheltered(s) && IsRun(s, acts)
    ensures AlwaysSheltered(s, acts) <==> NeverOverlaps(s, acts)
    ensures AlwaysSheltered(s, acts) ==> Sheltered(After(s, acts))
    decreases acts
  {
    hide Valid, Sheltered, Overlaps, Enabled, Exec;
    if acts != [] {
      var s' := Exec(s, acts[0]);
      ValidStep(s, acts[0]);
      ShelterStep(s, acts[0]);
      if Sheltered(s') { ShelteredIffNeverOverlaps(s', acts[1..]); } else { assert !AlwaysSheltered(s', acts[1..]); }
    }
  }

  // Where the accounting is right, every live user has its release, and its lease once it is written.
  lemma ShelteredUser(acts: seq<Action>, p: Proc, rel: Rel)
    requires IsRun(EMPTY, acts) && NeverOverlaps(EMPTY, acts) && Uses(After(EMPTY, acts), p, rel)
    ensures var s := After(EMPTY, acts);
            && Present(s, Some(rel))
            && (s.runners[p].Leased? || s.runners[p].Running? ==> CompleteLease(s, rel, p))
  {
    ShelteredIffNeverOverlaps(EMPTY, acts);
    ValidRun(EMPTY, acts);
    var s := After(EMPTY, acts);
    assert RunnerSheltered(s, p, s.runners[p]);
  }

  lemma RetireIsJustified(s: Channel)
    requires Valid(s) && s.phase.PruneLeases? && s.phase.files == {} && !s.phase.active
    ensures var rel := s.phase.rel;
            && s.current != Some(rel) && s.previous != Some(rel) && s.txn.None?
            && (rel in s.releases ==> !s.releases[rel].marked)
            && (Sheltered(s) ==> forall p :: !Uses(s, p, rel))
  {
    hide Core, RunnersSheltered;
  }

  lemma OnlyRetireRemoves(s: Channel, a: Action, rel: Rel)
    requires Enabled(s, a) && rel in s.releases && rel !in Exec(s, a).releases
    ensures a == Prune(Retire) && s.phase.PruneLeases? && s.phase.rel == rel && s.phase.files == {} && !s.phase.active
  {
    hide Guard.Exec, Guard.Enabled, GuardAllowed, RunnerEnabled;
  }

  // ---------- what the guard contributes ----------

  function GuardRun(acts: seq<Action>): seq<Guard.Action>
  {
    if acts == [] then [] else OnTheGuard(acts[0]) + GuardRun(acts[1..])
  }

  // Inside the channel the guard does what it does on its own.
  lemma {:induction false} GuardProjects(s: Channel, acts: seq<Action>)
    requires IsRun(s, acts)
    ensures Guard.IsRun(s.g, GuardRun(acts)) && Guard.After(s.g, GuardRun(acts)) == After(s, acts).g
    decreases acts
  {
    hide Enabled, Exec, Guard.Exec, Guard.Enabled;
    if acts != [] {
      var s' := Exec(s, acts[0]);
      GuardStep(s, acts[0]);
      GuardProjects(s', acts[1..]);
      if OnTheGuard(acts[0]) == [] {
        assert GuardRun(acts) == GuardRun(acts[1..]);
      } else {
        assert GuardRun(acts)[0] == OnTheGuard(acts[0])[0] && GuardRun(acts)[1..] == GuardRun(acts[1..]);
      }
    }
  }

  lemma ExclusionPreventsOverlap(s: Channel, a: Action)
    requires Valid(s) && Enabled(s, a) && Guard.Alone(s.g)
    ensures !Overlaps(s, a)
  {
    if Overlaps(s, a) {
      var p :| p in s.runners && (s.runners[p].Resolved? || s.runners[p].Leasing?);
      assert Guard.Holds(s.g, p) && InstallerHolds(s);
      assert Guard.Inside(s.g, p) && Guard.Inside(s.g, s.g.maint.value);
    }
  }

  /**
   The guard does its work: in every run in which no claim of it is made beside a process that was robbed of
   its own, no scan overlaps a launch.
   */
  lemma {:induction false} GuardSeparatesScanAndLaunch(s: Channel, acts: seq<Action>)
    requires Valid(s) && Guard.AloneFits(s.g) && IsRun(s, acts)
    requires Guard.IsRun(s.g, GuardRun(acts)) && Guard.NeverIntruded(s.g, GuardRun(acts))
    ensures NeverOverlaps(s, acts)
    decreases acts
  {
    hide Valid, Overlaps, Enabled, Exec, Guard.AloneFits, Guard.Exec, Guard.Enabled, Guard.Intrudes;
    if acts != [] {
      var s' := Exec(s, acts[0]);
      AloneFitsIsAlone(s.g);
      ExclusionPreventsOverlap(s, acts[0]);
      ValidStep(s, acts[0]);
      ValidHasGuard(s);
      GuardStep(s, acts[0]);
      if OnTheGuard(acts[0]) == [] {
        assert GuardRun(acts) == GuardRun(acts[1..]);
      } else {
        assert GuardRun(acts)[0] == OnTheGuard(acts[0])[0] && GuardRun(acts)[1..] == GuardRun(acts[1..]);
        Guard.AloneStep(s.g, OnTheGuard(acts[0])[0]);
      }
      GuardSeparatesScanAndLaunch(s', acts[1..]);
    }
  }

  lemma AloneFitsIsAlone(g: Guard.Guard)
    requires Guard.AloneFits(g)
    ensures Guard.Alone(g)
  {
  }

  lemma ValidHasGuard(s: Channel)
    requires Valid(s)
    ensures Guard.Valid(s.g)
  {
  }
}
