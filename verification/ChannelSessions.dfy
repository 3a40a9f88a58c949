/**
 Running sessions keep their releases in every run, whatever happens to the guard. A launcher starts its session
 only after its release of the guard found its own token; so as long as it counted, nobody else could come
 in, and the collector had to see its link or its lease. A launcher whose claim is gone is doomed: it may
 lose its release, but it never runs a session.
 */
module ChannelSessions {
  import opened Common
  import opened Channel
  import opened ChannelSafety
  import opened ChannelLaunch
  import Guard

  // `p` holds the guard, and its own token lies at the guard's path.
  predicate Intact(g: Guard.Guard, p: Proc)
  {
    Guard.Holds(g, p) && g.dir == Guard.Present(Guard.Owner(g.stage[p].token))
  }

  // A launcher that believes to hold the guard, but whose claim is gone.
  predicate Doomed(s: Channel, p: Proc)
  {
    p in s.runners && Guard.Holds(s.g, p) && !Intact(s.g, p)
  }

  // A runner that has passed the check of its release of the guard.
  predicate Committed(s: Channel, p: Proc, rel: Rel)
  {
    p in s.runners && (s.runners[p] == Running(rel) || (s.runners[p] == Leased(rel) && !Guard.Holds(s.g, p)))
  }

  // The installer is inside the guard in order to prune.
  predicate PrunesInside(s: Channel)
  {
    && s.g.maint.Some? && Guard.Inside(s.g, s.g.maint.value)
    && (s.phase.PruneQueued? || s.phase.PruneReading? || s.phase.PruneScanning? || s.phase.PruneLeases?)
  }

  // ---------- the invariant ----------

  predicate IntactLauncherFits(s: Channel, p: Proc, l: Launch)
  {
    (l.Resolved? || l.Leasing? || l.Leased?) ==>
      && l.rel in s.releases && (PrunesInside(s) ==> l.rel in Links(s))
      && (l.Leasing? ==> (l.rel, p) in s.leases)
      && (l.Leased? ==> CompleteLease(s, l.rel, p))
  }

  predicate CommittedFits(s: Channel, p: Proc, rel: Rel)
  {
    && rel in s.releases && CompleteLease(s, rel, p)
    && (s.phase.PruneLeases? && s.phase.rel == rel ==> (s.phase.active || p in s.phase.files) && s.phase.stale != Some(p))
  }

  predicate RunnerKept(s: Channel, p: Proc)
    requires p in s.runners
  {
    && (Intact(s.g, p) ==> IntactLauncherFits(s, p, s.runners[p]))
    && (s.runners[p].Leased? || s.runners[p].Running? ==>
          (Committed(s, p, s.runners[p].rel) ==> CommittedFits(s, p, s.runners[p].rel)))
  }

  // Between its visits to the guard the installer is outside.
  predicate WorksOutside(s: Channel)
  {
    (s.phase.Began? || s.phase.Acting? || s.phase.Building? || s.phase.Promoting? || s.phase.Noted? || s.phase.Publishing? || s.phase.Swapping?)
    ==> s.g.maint.Some? && Guard.At(s.g, s.g.maint.value) && s.g.stage[s.g.maint.value].Outside?
  }

  ghost predicate Kept(s: Channel)
  {
    WorksOutside(s) && forall p :: p in s.runners ==> RunnerKept(s, p)
  }

  // ---------- one step ----------

  lemma KeptRunner(s: Channel, p: Proc, r: RunnerAction)
    requires Valid(s) && Kept(s) && RunnerEnabled(s, p, r)
    ensures Kept(RunnerExec(s, p, r))
  {
    var s' := RunnerExec(s, p, r);
    assert s'.g == s.g && s'.phase == s.phase;
    assert s'.runners.Keys == s.runners.Keys;
    hide RunnerExec, RunnerEnabled, RunnerKept, Valid;
    forall q | q in s'.runners ensures RunnerKept(s', q) {
      assert RunnerKept(s, q);
      if q == p { KeptActor(s, p, r); } else { KeptBystander(s, p, r, q); }
    }
  }

  lemma KeptActor(s: Channel, p: Proc, r: RunnerAction)
    requires Valid(s) && RunnerEnabled(s, p, r) && RunnerKept(s, p)
    ensures RunnerKept(RunnerExec(s, p, r), p)
  {
    assert s.current.Some? ==> s.current.value in Links(s);
    assert s.runners[p].Leasing? ==> Guard.Holds(s.g, p);
    hide Core, PhaseFits, LaunchesHold, Links;
    SameLinks(s, RunnerExec(s, p, r));
  }

  lemma KeptBystander(s: Channel, p: Proc, r: RunnerAction, q: Proc)
    requires RunnerEnabled(s, p, r) && q in s.runners && q != p && RunnerKept(s, q)
    ensures RunnerKept(RunnerExec(s, p, r), q)
  {
    hide Links, Intact;
    SameLinks(s, RunnerExec(s, p, r));
  }

  // Nobody but its own holder makes a claim intact.
  lemma IntactOnlyFades(g: Guard.Guard, a: Guard.Action, q: Proc)
    requires Guard.Valid(g) && Guard.Enabled(g, a) && q in g.stage && (q != a.p || !a.CompleteOwner?)
    ensures Intact(Guard.Exec(g, a), q) ==> Intact(g, q) && Guard.Exec(g, a).dir == g.dir
  {
    var g' := Guard.Exec(g, a);
    if Intact(g', q) {
      assert Guard.Inside(g, q) && g.stage[q].token.proc == q;
      if Guard.Inside(g, a.p) && g.stage[a.p] != Guard.Dropping { assert g.stage[a.p].token.proc == a.p; }
    }
  }

  // A claim in the making leaves no claim intact.
  lemma NewClaimFades(g: Guard.Guard, a: Guard.Action, q: Proc)
    requires Guard.Enabled(g, a) && a.MakeDir?
    ensures !Intact(Guard.Exec(g, a), q)
  {
  }

  // How a guard action moves its process and nobody else.
  lemma GuardMoves(s: Channel, a: Guard.Action)
    requires Valid(s) && Guard.Enabled(s.g, a) && GuardAllowed(s, a)
    ensures var s' := GuardExec(s, a);
            && s' == s.(g := s'.g, runners := s'.runners, phase := s'.phase) && s'.g.maint == s.g.maint
            && s'.runners.Keys == s.runners.Keys && s'.g.stage.Keys == s.g.stage.Keys
            && (forall q :: q in s.runners ==> s'.runners[q] == s.runners[q] || s'.runners[q].Failed?)
            && (forall q :: q in s.g.stage && q != a.p ==> s'.g.stage[q] == s.g.stage[q])
            && (s'.phase == s.phase || s'.phase.Leaving? || s'.phase.PruneLeaving? || s'.phase.Ending?)
  {
    GuardCases(s, a);
    GuardFrames(s.g, a);
    ThrowLeads(s.phase);
    hide Valid, GuardExec, Guard.Exec, Guard.Enabled, GuardAllowed, AfterThrow;
  }

  lemma GuardCases(s: Channel, a: Guard.Action)
    requires Guard.Enabled(s.g, a) && GuardAllowed(s, a)
    ensures !a.Spawn? && !a.Die?
    ensures var s', t := GuardExec(s, a), s.(g := Guard.Exec(s.g, a));
            || s' == t || s' == t.(phase := AfterThrow(s.phase))
            || (a.p in s.runners && s' == t.(runners := s.runners[a.p := Failed]))
  {
    hide Guard.Exec, Guard.Enabled, AfterThrow;
  }

  lemma ThrowLeads(phase: Phase)
    ensures var next := AfterThrow(phase); next.Leaving? || next.PruneLeaving? || next.Ending?
  {
  }

  // The only ways for a guard action to touch what is kept.
  lemma GuardTouches(s: Channel, a: Guard.Action)
    requires Valid(s) && Guard.Enabled(s.g, a) && GuardAllowed(s, a)
    ensures var s' := GuardExec(s, a);
            && (a.p in s.runners && s.runners[a.p].Leased? && Guard.Holds(s.g, a.p) && !Guard.Holds(s'.g, a.p) ==>
                  Intact(s.g, a.p) || s'.runners[a.p].Failed?)
            && (a.CompleteOwner? && a.p in s.runners ==> s.runners[a.p].Starting?)
            && (s.g.maint == Some(a.p) && !Guard.Inside(s.g, a.p) && Guard.Inside(s'.g, a.p) ==> a.MakeDir?)
            && (s.g.maint == Some(a.p) && s'.g.stage != s.g.stage ==> !s.phase.PruneReading? && !s.phase.PruneScanning? && !s.phase.PruneLeases?)
            && (s.g.maint == Some(a.p) && s'.phase == s.phase ==> s.phase.Queued? || s.phase.PruneQueued? || s.phase.Leaving? || s.phase.PruneLeaving?)
  {
    hide PhaseFits, Guard.Valid, LaunchesHold;
  }

  // What one runner relies on does not change, and its claim does not come back.
  lemma KeptFrame(s: Channel, s': Channel, q: Proc)
    requires q in s.runners && q in s'.runners && RunnerKept(s, q)
    requires (forall r :: r in s.releases ==> r in s'.releases) && s'.leases == s.leases
    requires s'.runners[q] == s.runners[q] || s'.runners[q].Failed? || s'.runners[q].Starting?
    requires s'.phase == s.phase || !s'.phase.PruneLeases?
    requires Intact(s'.g, q) && !s'.runners[q].Starting? && !s'.runners[q].Failed? ==>
               Intact(s.g, q) && (PrunesInside(s') ==> PrunesInside(s) && Links(s') == Links(s))
    requires s.runners[q].Leased? && Guard.Holds(s.g, q) && !Guard.Holds(s'.g, q) ==> Intact(s.g, q) || s'.runners[q].Failed?
    requires s.phase.PruneLeases? ==> PrunesInside(s) && s.phase.rel !in Links(s)
    ensures RunnerKept(s', q)
  {
    hide Links, PrunesInside, Intact;
  }

  lemma PruneEntry(s: Channel, a: Guard.Action)
    requires Valid(s) && Guard.Enabled(s.g, a) && GuardAllowed(s, a)
    ensures PrunesInside(GuardExec(s, a)) ==> PrunesInside(s) || a.MakeDir?
  {
    GuardMoves(s, a);
    GuardTouches(s, a);
    hide GuardExec, GuardAllowed, Guard.Enabled, Guard.Exec, Valid;
  }

  lemma ScansInside(s: Channel)
    requires Valid(s)
    ensures s.phase.PruneLeases? ==> PrunesInside(s) && s.phase.rel !in Links(s)
    ensures s.runners.Keys <= s.g.stage.Keys && Guard.Valid(s.g)
    ensures s.g.maint.Some? ==> s.g.maint.value in s.g.stage && s.g.maint.value !in s.runners
  {
    hide Links, LaunchesHold;
  }

  lemma KeptGuard(s: Channel, a: Guard.Action)
    requires Valid(s) && Kept(s) && Guard.Enabled(s.g, a) && GuardAllowed(s, a)
    ensures Kept(GuardExec(s, a))
  {
    var s' := GuardExec(s, a);
    GuardMoves(s, a);
    GuardKeepsWork(s, a);
    hide Valid, GuardExec, GuardAllowed, Guard.Exec, Guard.Enabled, RunnerKept, WorksOutside;
    forall q | q in s'.runners ensures RunnerKept(s', q) {
      assert RunnerKept(s, q);
      KeptGuardOne(s, a, q);
    }
  }

  lemma GuardKeepsWork(s: Channel, a: Guard.Action)
    requires Valid(s) && WorksOutside(s) && Guard.Enabled(s.g, a) && GuardAllowed(s, a)
    ensures WorksOutside(GuardExec(s, a))
  {
    GuardMoves(s, a);
    GuardTouches(s, a);
    hide Valid, GuardExec, GuardAllowed, Guard.Exec, Guard.Enabled;
  }

  lemma KeptGuardOne(s: Channel, a: Guard.Action, q: Proc)
    requires Valid(s) && Guard.Enabled(s.g, a) && GuardAllowed(s, a) && q in s.runners && RunnerKept(s, q)
    requires q in GuardExec(s, a).runners
    ensures RunnerKept(GuardExec(s, a), q)
  {
    var s' := GuardExec(s, a);
    GuardMoves(s, a);
    GuardTouches(s, a);
    PruneEntry(s, a);
    ScansInside(s);
    SameGuard(s, a);
    SameLinks(s, s');
    hide *;
    if a.MakeDir? { NewClaimFades(s.g, a, q); }
    if q != a.p || !a.CompleteOwner? { IntactOnlyFades(s.g, a, q); }
    HoldsOwnStage(s, s', a, q);
    KeptFrame(s, s', q);
  }

  lemma HoldsOwnStage(s: Channel, s': Channel, a: Guard.Action, q: Proc)
    requires q in s.g.stage && q in s'.g.stage && (q != a.p ==> s'.g.stage[q] == s.g.stage[q])
    ensures q != a.p ==> (Guard.Holds(s'.g, q) <==> Guard.Holds(s.g, q))
  {
  }

  lemma SameGuard(s: Channel, a: Guard.Action)
    requires Guard.Enabled(s.g, a) && GuardAllowed(s, a)
    ensures GuardExec(s, a).g == Guard.Exec(s.g, a)
  {
  }

  lemma SameLinks(s: Channel, s': Channel)
    requires s'.current == s.current && s'.previous == s.previous
    ensures Links(s') == Links(s)
  {
  }

  // The guard stays as it is, and whoever prunes inside afterwards did so before.
  lemma KeptSameGuard(s: Channel, s': Channel)
    requires Kept(s) && ScanFacts(s) && s'.g == s.g && s'.runners == s.runners
    requires (forall r :: r in s.releases ==> r in s'.releases) && s'.leases == s.leases
    requires s'.phase == s.phase || !s'.phase.PruneLeases?
    requires PrunesInside(s') ==> PrunesInside(s) && Links(s') == Links(s)
    requires WorksOutside(s')
    ensures Kept(s')
  {
    hide Links, PrunesInside, Intact, RunnerKept, WorksOutside;
    forall q | q in s'.runners ensures RunnerKept(s', q) {
      assert RunnerKept(s, q);
      KeptFrame(s, s', q);
    }
  }

  predicate ScanFacts(s: Channel) { s.phase.PruneLeases? ==> PrunesInside(s) && s.phase.rel !in Links(s) }

  lemma KeptPlan(s: Channel, a: PlanAction)
    requires Valid(s) && Kept(s) && PlanEnabled(s, a)
    ensures Kept(PlanExec(s, a))
  {
    ScansInside(s);
    var s' := PlanExec(s, a);
    assert WorksOutside(s') && !PrunesInside(s') && s'.g == s.g && s'.runners == s.runners && s'.leases == s.leases;
    assert !s'.phase.PruneLeases? && forall r :: r in s.releases ==> r in s'.releases;
    hide Valid, PlanExec, PlanEnabled, Kept;
    KeptSameGuard(s, s');
  }

  lemma KeptReplay(s: Channel, a: ReplayAction)
    requires Valid(s) && Kept(s) && ReplayEnabled(s, a)
    ensures Kept(ReplayExec(s, a))
  {
    ScansInside(s);
    var s' := ReplayExec(s, a);
    assert WorksOutside(s') && !PrunesInside(s') && s'.g == s.g && s'.runners == s.runners && s'.leases == s.leases;
    assert !s'.phase.PruneLeases? && s'.releases == s.releases;
    hide Valid, ReplayExec, ReplayEnabled, Kept;
    KeptSameGuard(s, s');
  }

  lemma KeptThrow(s: Channel)
    requires Valid(s) && Kept(s) && s.g.maint.Some?
    ensures Kept(s.(phase := AfterThrow(s.phase)))
  {
    ScansInside(s);
    var s' := s.(phase := AfterThrow(s.phase));
    assert WorksOutside(s') && !PrunesInside(s') && !s'.phase.PruneLeases?;
    hide Valid, AfterThrow, Kept;
    KeptSameGuard(s, s');
  }

  lemma KeptPrune(s: Channel, a: PruneAction)
    requires Valid(s) && Kept(s) && PruneEnabled(s, a)
    ensures Kept(PruneExec(s, a))
  {
    hide Valid, Kept, PruneExec, PruneEnabled;
    if a.ScanRelease? || a.ScanLease? || a.DropLease? || a.Retire? {
      KeptScan(s, a);
    } else {
      ScansInside(s);
      PruneMoves(s, a);
      KeptSameGuard(s, PruneExec(s, a));
    }
  }

  lemma PruneMoves(s: Channel, a: PruneAction)
    requires Valid(s) && PruneEnabled(s, a)
    requires !a.ScanRelease? && !a.ScanLease? && !a.DropLease? && !a.Retire?
    ensures var s' := PruneExec(s, a);
            && s'.g == s.g && s'.runners == s.runners && s'.leases == s.leases && s'.releases == s.releases
            && !s'.phase.PruneLeases? && WorksOutside(s')
            && (PrunesInside(s') ==> PrunesInside(s) && Links(s') == Links(s))
  {
    hide Core, LeaseFiles;
  }

  // While the collector is at a release, no link names it, and every committed user's complete lease counts.
  lemma KeptScan(s: Channel, a: PruneAction)
    requires Valid(s) && Kept(s) && PruneEnabled(s, a)
    requires a.ScanRelease? || a.ScanLease? || a.DropLease? || a.Retire?
    ensures Kept(PruneExec(s, a))
  {
    var s' := PruneExec(s, a);
    ScansInside(s);
    ScanningInside(s);
    assert s'.g == s.g && s'.runners == s.runners && Links(s') == Links(s) && WorksOutside(s');
    hide Valid, Intact, Links, WorksOutside;
    forall q | q in s'.runners ensures RunnerKept(s', q) {
      assert RunnerKept(s, q) && q in s.g.stage;
    }
  }

  lemma ScanningInside(s: Channel)
    requires Valid(s)
    ensures s.phase.PruneScanning? ==> PrunesInside(s) && s.phase.protected == Links(s)
  {
    hide Core, Links;
  }

  lemma KeptStart(s: Channel, a: Action)
    requires Valid(s) && Kept(s) && Enabled(s, a) && (a.StartRunner? || a.StartInstaller?)
    ensures Kept(Exec(s, a))
  {
    var s' := Exec(s, a);
    ScansInside(s);
    SameLinks(s, s');
    assert a.p !in s.g.stage && s'.g.stage == s.g.stage[a.p := Guard.Outside] && s'.g.dir == s.g.dir;
    assert s'.runners == (if a.StartRunner? then s.runners[a.p := Starting] else s.runners);
    assert s'.g.maint == (if a.StartRunner? then s.g.maint else Some(a.p)) && s'.leases == s.leases && s'.releases == s.releases;
    assert s'.phase == (if a.StartRunner? then s.phase else Began(a.task));
    assert WorksOutside(s');
    hide Valid, Exec, Enabled, Guard.Exec, Guard.Enabled, Links, Guard.Valid;
    forall q | q in s'.runners ensures RunnerKept(s', q) {
      if q in s.runners && q != a.p {
        assert RunnerKept(s, q);
        KeptFrame(s, s', q);
      }
    }
  }

  lemma KeptCrash(s: Channel, p: Proc)
    requires Valid(s) && Kept(s) && Enabled(s, Crash(p))
    ensures Kept(Exec(s, Crash(p)))
  {
    var s' := Exec(s, Crash(p));
    ScansInside(s);
    SameLinks(s, s');
    assert s'.g.stage == s.g.stage - {p} && s'.g.dir == s.g.dir && s'.runners == s.runners - {p};
    assert s'.g.maint == (if s.g.maint == Some(p) then None else s.g.maint) && s'.leases == s.leases && s'.releases == s.releases;
    assert s'.phase == (if s.g.maint == Some(p) then Idle else s.phase);
    assert WorksOutside(s');
    hide Valid, Exec, Enabled, Guard.Exec, Guard.Enabled, Links, Guard.Valid;
    forall q | q in s'.runners ensures RunnerKept(s', q) {
      assert RunnerKept(s, q);
      KeptFrame(s, s', q);
    }
  }

  lemma KeptStep(s: Channel, a: Action)
    requires Valid(s) && Kept(s) && Enabled(s, a)
    ensures Kept(Exec(s, a))
  {
    hide Valid, Kept, RunnerExec, GuardExec, PlanExec, ReplayExec, PruneExec, Guard.Exec;
    match a
    case Run(p, r) => KeptRunner(s, p, r);
    case OnGuard(ga) => KeptGuard(s, ga);
    case Plan(i) => KeptPlan(s, i);
    case Replay(i) => KeptReplay(s, i);
    case Prune(i) => KeptPrune(s, i);
    case Throw => KeptThrow(s);
    case Crash(p) => KeptCrash(s, p);
    case _ => KeptStart(s, a);
  }

  lemma {:induction false} KeptRun(s: Channel, acts: seq<Action>)
    requires Valid(s) && Kept(s) && IsRun(s, acts)
    ensures Valid(After(s, acts)) && Kept(After(s, acts))
    decreases acts
  {
    hide Valid, Kept, Exec, Enabled;
    if acts != [] {
      ValidStep(s, acts[0]);
      KeptStep(s, acts[0]);
      KeptRun(Exec(s, acts[0]), acts[1..]);
    }
  }

  // ---------- what every run keeps ----------

  lemma UserKept(s: Channel, p: Proc, rel: Rel)
    requires Valid(s) && Kept(s) && Uses(s, p, rel)
    ensures rel in s.releases || Doomed(s, p)
    ensures Committed(s, p, rel) ==> Present(s, Some(rel)) && CompleteLease(s, rel, p)
  {
    assert RunnerKept(s, p);
    assert s.runners[p].Resolved? || s.runners[p].Leasing? ==> Guard.Holds(s.g, p);
    hide PhaseFits, Guard.Valid, Links;
  }

  /**
   Over every run, whatever crashes and however the guard is disturbed: the release of a running session is in
   place and fully built, with a complete lease, from the check that ends the launcher's time in the guard until
   the session's exit handler has run. Any other live runner that has resolved a release has it too, or its
   claim of the guard is gone; and if no scan overlapped a launch, all of them have it.
   */
  lemma UsedReleaseIsPresent(acts: seq<Action>, p: Proc, rel: Rel)
    requires IsRun(EMPTY, acts) && Uses(After(EMPTY, acts), p, rel)
    ensures var s := After(EMPTY, acts);
            && (s.runners[p].Running? || Committed(s, p, rel) ==> Present(s, Some(rel)) && CompleteLease(s, rel, p))
            && (Present(s, Some(rel)) || Doomed(s, p))
            && (NeverOverlaps(EMPTY, acts) ==>
                  Present(s, Some(rel)) && (s.runners[p].Leased? || s.runners[p].Running? ==> CompleteLease(s, rel, p)))
  {
    KeptRun(EMPTY, acts);
    var s := After(EMPTY, acts);
    UserKept(s, p, rel);
    assert rel in s.releases ==> s.releases[rel].built == Synced;
    if NeverOverlaps(EMPTY, acts) { ShelteredUser(acts, p, rel); }
  }

  /**
   A step takes a release out of the channel only by retiring it, and then neither link and no record names it,
   it is not a protected migration release, and any live runner that relies on it is a launcher whose claim of
   the guard is gone; there is none if no scan overlapped a launch.
   */
  lemma RemovalIsJustified(acts: seq<Action>, a: Action, rel: Rel)
    requires IsRun(EMPTY, acts) && Enabled(After(EMPTY, acts), a)
    requires rel in After(EMPTY, acts).releases && rel !in Exec(After(EMPTY, acts), a).releases
    ensures var s := After(EMPTY, acts);
            && a == Prune(Retire)
            && s.current != Some(rel) && s.previous != Some(rel) && s.txn.None?
            && !s.releases[rel].marked
            && (forall p :: Uses(s, p, rel) ==> Doomed(s, p) && !s.runners[p].Running?)
            && (NeverOverlaps(EMPTY, acts) ==> forall p :: !Uses(s, p, rel))
  {
    KeptRun(EMPTY, acts);
    ShelteredIffNeverOverlaps(EMPTY, acts);
    hide *;
    var s := After(EMPTY, acts);
    OnlyRetireRemoves(s, a, rel);
    RetireIsJustified(s);
    RetiredUsersAreDoomed(s);
  }

  lemma RetiredUsersAreDoomed(s: Channel)
    requires Valid(s) && Kept(s) && s.phase.PruneLeases? && s.phase.files == {} && !s.phase.active
    ensures forall p :: Uses(s, p, s.phase.rel) ==> Doomed(s, p) && !s.runners[p].Running?
  {
    ScansInside(s);
    forall p | Uses(s, p, s.phase.rel) ensures Doomed(s, p) && !s.runners[p].Running? {
      assert RunnerKept(s, p);
      assert s.runners[p].Resolved? || s.runners[p].Leasing? ==> Guard.Holds(s.g, p);
    }
  }

  // ---------- a launcher whose claim is gone ----------

  // It has ended, failed, or still believes to hold a guard that is not its own.
  predicate NeverRuns(s: Channel, p: Proc)
  {
    p in s.g.spent && (p in s.runners ==> s.runners[p].Failed? || (Doomed(s, p) && !s.runners[p].Running?))
  }

  // In the guard, such a process stays where it is until its release is refused or fails, or it ends.
  lemma DoomedInGuard(g: Guard.Guard, a: Guard.Action, p: Proc)
    requires Guard.Valid(g) && Guard.Enabled(g, a) && Guard.Holds(g, p) && !Intact(g, p)
    ensures var g' := Guard.Exec(g, a);
            (Guard.Holds(g', p) && !Intact(g', p)) || (p == a.p && (a.RefuseDrop? || a.Leak? || a.Die?))
  {
    if !(p == a.p && a.CompleteOwner?) { IntactOnlyFades(g, a, p); }
    hide Intact, Guard.Valid;
  }

  lemma NeverRunsGuard(s: Channel, a: Guard.Action, p: Proc)
    requires Valid(s) && NeverRuns(s, p) && Guard.Enabled(s.g, a) && GuardAllowed(s, a)
    ensures NeverRuns(GuardExec(s, a), p)
  {
    GuardMoves(s, a);
    SameGuard(s, a);
    ScansInside(s);
    if p in s.runners && Guard.Holds(s.g, p) && !Intact(s.g, p) { DoomedInGuard(s.g, a, p); }
    if a.p in s.runners { RefusedFails(s, a); }
    assert Guard.Exec(s.g, a).spent == s.g.spent;
    hide Valid, GuardExec, GuardAllowed, Guard.Exec, Guard.Enabled, Guard.Valid, Intact;
  }

  lemma RefusedFails(s: Channel, a: Guard.Action)
    requires Guard.Enabled(s.g, a) && GuardAllowed(s, a) && a.p in s.runners
    ensures !a.Die? && (a.RefuseDrop? || a.Leak? ==> GuardExec(s, a).runners[a.p].Failed?)
  {
    hide Guard.Exec, Guard.Enabled;
  }

  lemma NeverRunsRunner(s: Channel, p: Proc, q: Proc, r: RunnerAction)
    requires NeverRuns(s, p) && RunnerEnabled(s, q, r)
    ensures NeverRuns(RunnerExec(s, q, r), p)
  {
    hide CompleteLease;
  }

  lemma NeverRunsStep(s: Channel, a: Action, p: Proc)
    requires Valid(s) && NeverRuns(s, p) && Enabled(s, a)
    ensures NeverRuns(Exec(s, a), p)
  {
    hide Valid, NeverRuns, GuardExec, GuardAllowed, RunnerExec, RunnerEnabled;
    match a
    case OnGuard(ga) => NeverRunsGuard(s, ga, p);
    case Run(q, r) => NeverRunsRunner(s, p, q, r);
    case StartRunner(_) => NeverRunsLifetime(s, a, p);
    case StartInstaller(_, _) => NeverRunsLifetime(s, a, p);
    case Crash(_) => NeverRunsLifetime(s, a, p);
    case _ => NeverRunsElse(s, a, p);
  }

  lemma NeverRunsLifetime(s: Channel, a: Action, p: Proc)
    requires Valid(s) && NeverRuns(s, p) && Enabled(s, a) && (a.StartRunner? || a.StartInstaller? || a.Crash?)
    ensures NeverRuns(Exec(s, a), p)
  {
    ScansInside(s);
    hide Valid, Guard.Valid;
  }

  lemma NeverRunsElse(s: Channel, a: Action, p: Proc)
    requires NeverRuns(s, p) && Enabled(s, a) && (a.Plan? || a.Replay? || a.Prune? || a.Throw?)
    ensures NeverRuns(Exec(s, a), p)
  {
    var s' := Exec(s, a);
    assert s'.g == s.g && s'.runners == s.runners;
    hide Exec, Enabled;
  }

  /**
   A launcher whose claim of the guard is gone never runs a session, in whatever follows: its release of the guard
   is refused, so it fails before the session starts. Together with the above, only such launchers lose a release.
   */
  lemma {:induction false} DoomedNeverRuns(s: Channel, acts: seq<Action>, p: Proc)
    requires Valid(s) && NeverRuns(s, p) && IsRun(s, acts)
    ensures var e := After(s, acts); NeverRuns(e, p) && (p in e.runners ==> !e.runners[p].Running?)
    decreases acts
  {
    assert p in s.runners ==> !s.runners[p].Running?;
    hide Valid, NeverRuns, Exec, Enabled;
    if acts != [] {
      ValidStep(s, acts[0]);
      NeverRunsStep(s, acts[0], p);
      DoomedNeverRuns(Exec(s, acts[0]), acts[1..], p);
    }
  }

  /** From any reachable state: a live runner whose release is missing never runs a session. */
  lemma LoserNeverRuns(acts: seq<Action>, more: seq<Action>, p: Proc, rel: Rel)
    requires IsRun(EMPTY, acts) && Uses(After(EMPTY, acts), p, rel) && rel !in After(EMPTY, acts).releases
    requires IsRun(After(EMPTY, acts), more)
    ensures var e := After(After(EMPTY, acts), more); p in e.runners ==> !e.runners[p].Running?
  {
    KeptRun(EMPTY, acts);
    var s := After(EMPTY, acts);
    UserKept(s, p, rel);
    ScansInside(s);
    assert p in s.g.spent;
    hide Valid, Kept, IsRun, After;
    DoomedNeverRuns(s, more, p);
  }

  // ---------- what the reaper can see ----------

  /**
   How a launcher comes to be doomed: while the guard is in order, one that holds it loses its claim in exactly the
   steps in which the reaper renames the directory, and the record it would read there just before names that
   live launcher.
   */
  lemma DoomedExactlyByRename(s: Channel, a: Action, p: Proc)
    requires Valid(s) && Guard.Orderly(s.g) && Enabled(s, a) && p in s.runners && Guard.Holds(s.g, p)
    ensures Doomed(Exec(s, a), p) <==> a.OnGuard? && a.a.Retire?
    ensures s.g.dir.Present? && s.g.dir.owner.Owner? && s.g.dir.owner.token.proc == p
  {
    assert Guard.Fits(s.g, p, s.g.stage[p]) && Guard.Inside(s.g, p);
    assert s.g.stage[p].token.proc == p && p in s.g.stage;
    GuardStep(s, a);
    RunnersStay(s, a, p);
    if OnTheGuard(a) != [] {
      var ga := OnTheGuard(a)[0];
      OnlyRenameTakes(s.g, ga, p);
    }
    hide Valid, Exec, Enabled, Guard.Exec, Guard.Enabled, Guard.Orderly, Guard.Valid;
  }

  lemma RunnersStay(s: Channel, a: Action, p: Proc)
    requires Valid(s) && Enabled(s, a) && p in s.runners
    ensures p in Exec(s, a).runners || a == Crash(p)
  {
    hide Valid, Guard.Exec, Guard.Enabled, GuardAllowed;
  }

  lemma OnlyRenameTakes(g: Guard.Guard, a: Guard.Action, p: Proc)
    requires Guard.Valid(g) && Guard.Orderly(g) && Guard.Enabled(g, a) && Guard.Holds(g, p) && Intact(g, p)
    ensures var g' := Guard.Exec(g, a);
            if a.Retire? then Guard.Holds(g', p) && !Intact(g', p) else Guard.Holds(g', p) ==> Intact(g', p)
  {
    assert Guard.Inside(g, p);
    if a.p != p { assert !Guard.Inside(g, a.p); }
    hide Guard.Valid, Guard.Orderly;
  }

  /**
   If the reaper never finds, in a directory it renamed away, another token than the one it read, then in every
   state of the run every live user's release is in place, launchers included.
   */
  lemma LaunchersKeepReleases(acts: seq<Action>, p: Proc, rel: Rel)
    requires IsRun(EMPTY, acts) && Uses(After(EMPTY, acts), p, rel)
    requires Guard.IsRun(Guard.INIT, GuardRun(acts)) && Guard.TakesOnlyWhatItRead(Guard.INIT, GuardRun(acts))
    ensures Present(After(EMPTY, acts), Some(rel)) && !Doomed(After(EMPTY, acts), p)
  {
    GuardProjects(EMPTY, acts);
    Guard.CarriedReadsNeverRob(Guard.INIT, GuardRun(acts));
    Guard.OrderlyIffNeverRobbed(Guard.INIT, GuardRun(acts));
    UsedReleaseIsPresent(acts, p, rel);
    var s := After(EMPTY, acts);
    hide After, IsRun, GuardRun, Guard.TakesOnlyWhatItRead, NeverOverlaps;
    if Guard.Holds(s.g, p) { assert Guard.Fits(s.g, p, s.g.stage[p]); }
  }
}
