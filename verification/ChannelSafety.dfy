/** Invariants of the release channel: those of every run, and those of runs in which no scan overlaps a launch. */
module ChannelSafety {
  import opened Common
  import opened Channel
  import Guard

  // The pair of releases the channel stands for: the pending record, or else the links.
  function Logical(s: Channel): Pair
  {
    if s.txn.Some? then Pair(Some(s.txn.value.desiredCurrent), s.txn.value.desiredPrevious)
    else Pair(s.current, s.previous)
  }

  predicate Present(s: Channel, link: Option<Rel>)
  {
    link.Some? ==> link.value in s.releases && s.releases[link.value].built == Synced
  }

  // ---------- what holds in every run ----------

  ghost predicate PhaseFits(s: Channel)
  {
    match s.phase
    case Idle => s.g.maint.None?
    case Began(_) => true
    case Acting(_) => s.txn.None?
    case Building(r, _) => s.txn.None?
    case Promoting(r) => s.txn.None? && Present(s, Some(r))
    case Noted(r, prior) => s.txn.None? && Present(s, Some(r)) && prior == s.current
    case Publishing => s.txn.Some?
    case Swapping(c, p) => s.txn.None? && s.current == Some(c) && s.previous == Some(p)
    case Queued(_) => s.txn.Some?
    case ReplayCurrent(_) => InstallerHolds(s) && s.txn.Some?
    case ReplayPrevious(_) => InstallerHolds(s) && s.txn.Some? && s.current == Logical(s).current
    case ReplayForget(_) => InstallerHolds(s) && s.txn.Some? && Pair(s.current, s.previous) == Logical(s)
    case Leaving(_, ok) => ok ==> s.txn.None?
    case PruneQueued => s.txn.None?
    case PruneReading => InstallerHolds(s) && s.txn.None?
    case PruneScanning(protected, _) => InstallerHolds(s) && s.txn.None? && protected == Links(s)
    case PruneLeases(protected, _, r, _, _, _) =>
      InstallerHolds(s) && s.txn.None? && protected == Links(s) && r !in protected
      && (r in s.releases ==> !s.releases[r].marked)
    case PruneLeaving(_) => true
    case Deleting => true
    case Ending => true
  }

  // A runner that has resolved a release and not completed its lease still believes to hold the guard.
  ghost predicate LaunchesHold(s: Channel)
  {
    forall p :: p in s.runners && (s.runners[p].Resolved? || s.runners[p].Leasing?) ==> Guard.Holds(s.g, p)
  }

  // The part of the invariant that does not look at what the installer is doing.
  ghost predicate Core(s: Channel)
  {
    && Guard.Valid(s.g)
    && (s.g.maint.None? ==> s.phase.Idle?)
    && s.runners.Keys <= s.g.stage.Keys
    && (s.g.maint.Some? ==> s.g.maint.value !in s.runners)
    && (forall r :: r in s.releases ==> s.releases[r].built == Synced)
    && Present(s, s.current) && Present(s, s.previous)
    && Present(s, Logical(s).current) && Present(s, Logical(s).previous)
    && (Logical(s).current.Some? ==> Logical(s).current != Logical(s).previous)
    && (s.current.None? ==> s.previous.None?)
    && LaunchesHold(s)
  }

  ghost predicate Valid(s: Channel)
  {
    Core(s) && PhaseFits(s)
  }

  // Leases, tombstones and, while an installer lives, its phase do not matter to the core.
  lemma CoreKept(s: Channel, s': Channel)
    requires Core(s) && s.g.maint.Some?
    requires s' == s.(phase := s'.phase, tombs := s'.tombs, leases := s'.leases)
    ensures Core(s')
  {
    hide Guard.Valid;
  }

  lemma ValidRunner(s: Channel, p: Proc, r: RunnerAction)
    requires Valid(s) && RunnerEnabled(s, p, r)
    ensures Valid(RunnerExec(s, p, r))
  {
    var s' := RunnerExec(s, p, r);
    assert PhaseFits(s') by { hide RunnerExec, RunnerEnabled, Core; RunnerPhase(s, p, r); }
    hide Guard.Valid, PhaseFits;
  }

  lemma RunnerPhase(s: Channel, p: Proc, r: RunnerAction)
    requires PhaseFits(s) && RunnerEnabled(s, p, r)
    ensures PhaseFits(RunnerExec(s, p, r))
  {
    var s' := RunnerExec(s, p, r);
    assert s' == s.(leases := s'.leases, runners := s'.runners);
    hide RunnerExec, RunnerEnabled;
  }

  // The part of a guard action that the rest of the channel sees.
  predicate GuardFrame(g: Guard.Guard, g': Guard.Guard, p: Proc)
  {
    && g'.maint == g.maint && g'.stage.Keys == g.stage.Keys
    && forall q :: q in g.stage && q != p ==> g'.stage[q] == g.stage[q]
  }

  lemma GuardFrames(g: Guard.Guard, a: Guard.Action)
    requires Guard.Enabled(g, a) && !a.Spawn? && !a.Die?
    ensures GuardFrame(g, Guard.Exec(g, a), a.p)
    ensures a.ReadOwner? || a.Probe? || a.Spare? || a.Retire? || a.Inspect? ==> Guard.Exec(g, a).stage == g.stage
  {
  }

  lemma ValidGuard(s: Channel, a: Guard.Action)
    requires Valid(s) && Guard.Enabled(s.g, a) && GuardAllowed(s, a)
    ensures Valid(GuardExec(s, a))
  {
    var g' := Guard.Exec(s.g, a);
    Guard.ValidStep(s.g, a);
    GuardFrames(s.g, a);
    AllowedKeepsHolders(s, a);
    ValidUnderNewGuard(s, g', a.p);
    var s', t := GuardExec(s, a), s.(g := g');
    hide Guard.Exec, Guard.Enabled, GuardAllowed, Valid;
    if s' != t {
      if a.p in s.runners {
        ValidAfterFailure(t, a.p);
      } else {
        ValidAfterThrow(t);
      }
    }
  }

  // Nobody who relies on holding the guard takes part in claims, removals or reaping.
  lemma AllowedKeepsHolders(s: Channel, a: Guard.Action)
    requires Valid(s) && Guard.Enabled(s.g, a) && GuardAllowed(s, a)
    ensures Guard.At(s.g, a.p) && (a.p in s.runners || s.g.maint.Some?)
    ensures Guard.Exec(s.g, a).stage == s.g.stage
            || (a.p in s.runners && !s.runners[a.p].Resolved? && !s.runners[a.p].Leasing?)
            || (IsInstaller(s, a.p) && (s.phase.Queued? || s.phase.PruneQueued? || s.phase.Leaving? || s.phase.PruneLeaving?))
  {
    GuardFrames(s.g, a);
    hide Guard.Exec;
  }

  lemma ValidUnderNewGuard(s: Channel, g': Guard.Guard, p: Proc)
    requires Valid(s) && Guard.Valid(g') && GuardFrame(s.g, g', p)
    requires g'.stage == s.g.stage
             || (p in s.runners && !s.runners[p].Resolved? && !s.runners[p].Leasing?)
             || (IsInstaller(s, p) && (s.phase.Queued? || s.phase.PruneQueued? || s.phase.Leaving? || s.phase.PruneLeaving?))
    ensures Valid(s.(g := g'))
  {
    hide Guard.Valid;
  }

  lemma ValidAfterFailure(s: Channel, p: Proc)
    requires Valid(s) && p in s.runners
    ensures Valid(s.(runners := s.runners[p := Failed]))
  {
    hide Guard.Valid;
  }

  lemma ValidAfterThrow(s: Channel)
    requires Valid(s) && s.g.maint.Some?
    ensures Valid(s.(phase := AfterThrow(s.phase)))
  {
    hide Guard.Valid;
  }

  lemma ValidPlan(s: Channel, a: PlanAction)
    requires Valid(s) && PlanEnabled(s, a)
    ensures Valid(PlanExec(s, a))
  {
    hide Core, PhaseFits;
    PlanPhaseFits(s, a);
    if a.PublishRelease? || a.Mark? || a.WriteRecord? || a.WriteSwap? {
      ValidPublication(s, a);
    } else {
      CoreKept(s, PlanExec(s, a));
    }
  }

  lemma PlanPhaseFits(s: Channel, a: PlanAction)
    requires Core(s) && PhaseFits(s) && PlanEnabled(s, a)
    ensures PhaseFits(PlanExec(s, a))
  {
    assert forall r :: r in s.releases ==> s.releases[r].built == Synced;
    hide Core;
  }

  lemma ValidPublication(s: Channel, a: PlanAction)
    requires Core(s) && PhaseFits(s) && PlanEnabled(s, a)
    requires a.PublishRelease? || a.Mark? || a.WriteRecord? || a.WriteSwap?
    ensures Core(PlanExec(s, a))
  {
    hide Guard.Valid;
  }

  lemma ValidReplay(s: Channel, a: ReplayAction)
    requires Valid(s) && ReplayEnabled(s, a)
    ensures Valid(ReplayExec(s, a))
  {
    hide Guard.Valid;
  }

  lemma ValidPrune(s: Channel, a: PruneAction)
    requires Valid(s) && PruneEnabled(s, a)
    ensures Valid(PruneExec(s, a))
  {
    hide Core, LeaseFiles, CompleteLease;
    if a.Retire? {
      ValidRetire(s);
    } else {
      var s' := PruneExec(s, a);
      CoreKept(s, s');
      PrunePhaseFits(s, a);
    }
  }

  lemma PrunePhaseFits(s: Channel, a: PruneAction)
    requires Core(s) && PhaseFits(s) && PruneEnabled(s, a) && !a.Retire?
    ensures PhaseFits(PruneExec(s, a))
  {
    hide Core, LeaseFiles, CompleteLease, Logical;
  }

  lemma ValidRetire(s: Channel)
    requires Valid(s) && PruneEnabled(s, Retire)
    ensures Valid(PruneExec(s, Retire))
  {
    hide Guard.Valid;
  }

  // Processes come and go: everybody else stays where they are.
  lemma ValidStart(s: Channel, a: Action)
    requires Valid(s) && Enabled(s, a) && (a.StartRunner? || a.StartInstaller?)
    ensures Valid(Exec(s, a))
  {
    var ga := Guard.Spawn(a.p, a.StartInstaller?);
    Guard.ValidStep(s.g, ga);
    var g' := Guard.Exec(s.g, ga);
    assert g'.stage == s.g.stage[a.p := Guard.Outside] && a.p !in s.g.stage;
    assert g'.maint == if a.StartInstaller? then Some(a.p) else s.g.maint;
    hide Guard.Valid, Guard.Exec, Guard.Enabled;
    StartPhaseFits(s, a);
    hide PhaseFits;
  }

  lemma StartPhaseFits(s: Channel, a: Action)
    requires Valid(s) && Enabled(s, a) && (a.StartRunner? || a.StartInstaller?)
    ensures PhaseFits(Exec(s, a))
  {
    assert s.g.maint.Some? ==> s.g.maint.value in s.g.stage;
    hide Core, Logical;
  }

  lemma ValidCrash(s: Channel, p: Proc)
    requires Valid(s) && Enabled(s, Crash(p))
    ensures Valid(Exec(s, Crash(p)))
  {
    Guard.ValidStep(s.g, Guard.Die(p));
    var g' := Guard.Exec(s.g, Guard.Die(p));
    assert g'.stage == s.g.stage - {p} && g'.maint == if s.g.maint == Some(p) then None else s.g.maint;
    hide Guard.Valid, Guard.Exec, Guard.Enabled;
    CrashPhaseFits(s, p);
    hide PhaseFits;
  }

  lemma CrashPhaseFits(s: Channel, p: Proc)
    requires Valid(s) && Enabled(s, Crash(p))
    ensures PhaseFits(Exec(s, Crash(p)))
  {
    assert s.g.maint.Some? ==> s.g.maint.value in s.g.stage;
    hide Core, Logical;
  }

  lemma ValidStep(s: Channel, a: Action)
    requires Valid(s) && Enabled(s, a)
    ensures Valid(Exec(s, a))
  {
    match a
    case Run(p, r) => ValidRunner(s, p, r);
    case OnGuard(ga) => ValidGuard(s, ga);
    case Plan(i) => ValidPlan(s, i);
    case Replay(i) => ValidReplay(s, i);
    case Prune(i) => ValidPrune(s, i);
    case Throw => ValidAfterThrow(s);
    case Crash(p) => ValidCrash(s, p);
    case _ => ValidStart(s, a);
  }

  lemma {:induction false} ValidRun(s: Channel, acts: seq<Action>)
    requires Valid(s) && IsRun(s, acts)
    ensures Valid(After(s, acts))
    decreases acts
  {
    if acts != [] {
      ValidStep(s, acts[0]);
      ValidRun(Exec(s, acts[0]), acts[1..]);
    }
  }

  // What an action does to the guard.
  function OnTheGuard(a: Action): seq<Guard.Action>
  {
    match a
    case StartRunner(p) => [Guard.Spawn(p, false)]
    case StartInstaller(p, _) => [Guard.Spawn(p, true)]
    case Crash(p) => [Guard.Die(p)]
    case OnGuard(ga) => [ga]
    case _ => []
  }

  lemma GuardStep(s: Channel, a: Action)
    requires Enabled(s, a)
    ensures if OnTheGuard(a) == [] then Exec(s, a).g == s.g
            else Guard.Enabled(s.g, OnTheGuard(a)[0]) && Exec(s, a).g == Guard.Exec(s.g, OnTheGuard(a)[0])
  {
    hide Guard.Exec, Guard.Enabled, GuardAllowed;
  }
}
