/**
 What every operation of a channel accomplishes when nothing comes between: each lemma builds the whole run and
 says exactly what it changes, whatever other sessions and leases there are.
 */
module ChannelWork {
  import opened Common
  import opened Channel
  import opened ChannelSafety
  import opened ChannelRuns
  import Guard

  // No installer is alive and the guard is free; `p` has not been started yet.
  predicate Resting(t: Channel, p: Proc)
  {
    t.phase.Idle? && t.g.maint.None? && p !in t.g.spent && p !in t.g.robbed && t.g.dir.Absent?
  }

  // An installer has found or made the channel free of a pending record.
  predicate Acts(t: Channel, p: Proc, task: Task)
  {
    t.phase == Acting(task) && t.txn.None? && t.g.maint == Some(p) && InstallerOutside(t) && p !in t.g.robbed && t.g.dir.Absent?
  }

  // ---------- beginning ----------

  lemma Begins(s: Channel, acts: seq<Action>, t: Channel, p: Proc, task: Task) returns (acts': seq<Action>, t': Channel)
    requires Reaches(s, acts, t) && Resting(t, p)
    ensures Reaches(s, acts', t') && t' == t.(g := Spawned(t.g, p), phase := Began(task))
  {
    hide Reaches;
    acts', t' := Grow(s, acts, t, StartInstaller(p, task));
  }

  lemma BeginsFree(s: Channel, acts: seq<Action>, t: Channel, p: Proc, task: Task) returns (acts': seq<Action>, t': Channel)
    requires Reaches(s, acts, t) && Resting(t, p) && t.txn.None?
    ensures Reaches(s, acts', t') && t' == t.(g := Spawned(t.g, p), phase := Acting(task)) && Acts(t', p, task)
  {
    MaintFollowsReap(s, acts, t);
    hide Reaches, Exec, Enabled;
    acts', t' := Begins(s, acts, t, p, task);
    acts', t' := GrowPlan(s, acts', t', LookForRecord);
  }

  lemma MaintFollowsReap(s: Channel, acts: seq<Action>, t: Channel)
    requires Reaches(s, acts, t)
    ensures t.g.maint.None? ==> t.g.reap.NotReaping?
    ensures t.txn.Some? ==> Recoverable(t, t.txn.value)
    ensures t.current.Some? ==> t.current.value in t.releases
    ensures t.previous.Some? ==> t.previous.value in t.releases
    ensures t.current.Some? && t.txn.None? ==> t.current != t.previous
  {
  }

  // A record left by an earlier installer is replayed before anything else is done.
  lemma BeginsWithRecord(s: Channel, acts: seq<Action>, t: Channel, p: Proc, task: Task) returns (acts': seq<Action>, t': Channel)
    requires Reaches(s, acts, t) && Resting(t, p) && t.txn.Some?
    ensures Reaches(s, acts', t') && Acts(t', p, task)
    ensures t' == t.(g := Spawned(t.g, p), current := Some(t.txn.value.desiredCurrent), previous := t.txn.value.desiredPrevious,
                     txn := None, phase := Acting(task))
  {
    MaintFollowsReap(s, acts, t);
    hide Reaches, Exec, Enabled;
    acts', t' := Begins(s, acts, t, p, task);
    acts', t' := GrowPlan(s, acts', t', LookForRecord);
    acts', t' := Visit(s, acts', t', p);
    acts', t' := Leave(s, acts', t');
  }

  // One visit to the guard that replays the record.
  lemma Visit(s: Channel, acts: seq<Action>, t: Channel, p: Proc) returns (acts': seq<Action>, t': Channel)
    requires Reaches(s, acts, t) && t.phase.Queued? && t.txn.Some?
    requires t.g.maint == Some(p) && InstallerOutside(t) && t.g.dir.Absent? && p !in t.g.robbed
    ensures Reaches(s, acts', t')
    ensures t' == t.(current := Some(t.txn.value.desiredCurrent), previous := t.txn.value.desiredPrevious, txn := None,
                     phase := Leaving(t.phase.goal, true))
  {
    hide Reaches, Exec, Enabled;
    acts', t' := Claim(s, acts, t, p);
    acts', t' := Replayed(s, acts', t');
    acts', t' := Drop(s, acts', t', p);
    ClaimAndDrop(t.g, p);
  }

  // ---------- rollback and installation ----------

  lemma ActRollback(s: Channel, acts: seq<Action>, t: Channel, p: Proc) returns (acts': seq<Action>, t': Channel)
    requires Reaches(s, acts, t) && Acts(t, p, Rollback) && t.current.Some? && t.previous.Some?
    ensures Reaches(s, acts', t') && t' == t.(current := t.previous, previous := t.current, phase := Ending)
  {
    MaintFollowsReap(s, acts, t);
    hide Reaches;
    acts', t' := PlanSwap(s, acts, t, p);
    acts', t' := Visit(s, acts', t', p);
    acts', t' := Leave(s, acts', t');
  }

  lemma PlanSwap(s: Channel, acts: seq<Action>, t: Channel, p: Proc) returns (acts': seq<Action>, t': Channel)
    requires Reaches(s, acts, t) && Acts(t, p, Rollback) && t.current.Some? && t.previous.Some?
    requires t.current.value in t.releases && t.previous.value in t.releases
    ensures Reaches(s, acts', t') && t' == t.(txn := Some(Record(t.previous.value, t.current)), phase := Queued(ThenEnd))
  {
    hide Reaches, Exec, Enabled;
    acts', t' := GrowPlan(s, acts, t, ReadBoth);
    acts', t' := GrowPlan(s, acts', t', WriteSwap);
  }

  // What comes after a completed replay: the operation it was in the way of, pruning, or the end.
  lemma Leave(s: Channel, acts: seq<Action>, t: Channel) returns (acts': seq<Action>, t': Channel)
    requires Reaches(s, acts, t) && t.phase.Leaving? && t.phase.ok && InstallerOutside(t)
    ensures Reaches(s, acts', t') && t' == t.(phase := t'.phase)
    ensures match t.phase.goal
            case ThenTask(task) => t'.phase == Acting(task)
            case ThenPrune => t'.phase == PruneQueued
            case ThenEnd => t'.phase == Ending
  {
    hide Reaches;
    acts', t' := Grow(s, acts, t, Replay(LeaveReplay));
  }

  lemma ActReuse(s: Channel, acts: seq<Action>, t: Channel, p: Proc, r: Rel) returns (acts': seq<Action>, t': Channel)
    requires Reaches(s, acts, t) && Acts(t, p, Install(r)) && r in t.releases && t.current != Some(r)
    ensures Reaches(s, acts', t') && t' == t.(current := Some(r), previous := t.current, phase := PruneQueued)
  {
    hide Reaches;
    acts', t' := NotePresent(s, acts, t, p, r);
    acts', t' := WritePromotion(s, acts', t');
    acts', t' := Promote(s, acts', t', p);
  }

  lemma NotePresent(s: Channel, acts: seq<Action>, t: Channel, p: Proc, r: Rel) returns (acts': seq<Action>, t': Channel)
    requires Reaches(s, acts, t) && Acts(t, p, Install(r)) && r in t.releases
    ensures Reaches(s, acts', t') && t' == t.(phase := Noted(r, t.current))
  {
    LinkedAreReleases(s, acts, t);
    hide Reaches, Exec, Enabled;
    acts', t' := GrowPlan(s, acts, t, Reuse);
    acts', t' := GrowPlan(s, acts', t', NoteCurrent);
  }

  lemma WritePromotion(s: Channel, acts: seq<Action>, t: Channel) returns (acts': seq<Action>, t': Channel)
    requires Reaches(s, acts, t) && t.phase.Noted? && t.phase.prior != Some(t.phase.rel) && t.g.maint.Some?
    ensures Reaches(s, acts', t')
    ensures t' == t.(txn := Some(Record(t.phase.rel, t.phase.prior)), phase := Queued(ThenPrune))
  {
    hide Reaches, Exec, Enabled;
    acts', t' := GrowPlan(s, acts, t, WriteRecord);
    acts', t' := GrowPlan(s, acts', t', PublishLauncher);
  }

  lemma ActBuild(s: Channel, acts: seq<Action>, t: Channel, p: Proc, r: Rel) returns (acts': seq<Action>, t': Channel)
    requires Reaches(s, acts, t) && Acts(t, p, Install(r)) && r !in t.releases
    ensures Reaches(s, acts', t')
    ensures t' == t.(releases := t.releases[r := Release(Synced, false)], current := Some(r), previous := t.current, phase := PruneQueued)
  {
    hide Reaches, Exec, Enabled;
    acts', t' := GrowPlan(s, acts, t, StartBuild);
    acts', t' := BuildAll(s, acts', t');
    assert t' == t.(phase := Building(r, Synced));
    acts', t' := WriteOut(s, acts', t');
    acts', t' := Promote(s, acts', t', p);
  }

  // ---------- what a user asks for ----------

  /**
   A rollback swaps the two links and changes nothing else: from every state at rest with both links and no record,
   there is a run that ends with `current` the old `previous`, `previous` the old `current`, no record, and the same
   releases, leases and sessions.
   */
  lemma RollbackWorks(t: Channel, p: Proc) returns (acts: seq<Action>)
    requires Valid(t) && Resting(t, p) && t.txn.None? && t.current.Some? && t.previous.Some?
    ensures IsRun(t, acts)
    ensures After(t, acts) == t.(g := Spawned(t.g, p), current := t.previous, previous := t.current, phase := Ending)
  {
    assert Reaches(t, [], t);
    var e;
    acts, e := BeginsFree(t, [], t, p, Rollback);
    acts, e := ActRollback(t, acts, e, p);
  }

  /**
   Installing a release that is present promotes it without building it again; one that is not present is built and
   published first. The old `current` becomes `previous`. Installing the current release keeps the pair.
   */
  lemma InstallWorks(t: Channel, p: Proc, r: Rel) returns (acts: seq<Action>)
    requires Valid(t) && Resting(t, p) && t.txn.None?
    ensures IsRun(t, acts)
    ensures var releases := if r in t.releases then t.releases else t.releases[r := Release(Synced, false)];
            After(t, acts) ==
            if t.current == Some(r) then t.(g := Spawned(t.g, p), phase := PruneQueued)
            else t.(g := Spawned(t.g, p), releases := releases, current := Some(r), previous := t.current, phase := PruneQueued)
  {
    assert Reaches(t, [], t);
    var e;
    acts, e := BeginsFree(t, [], t, p, Install(r));
    acts, e := ActInstall(t, acts, e, p, r);
  }

  lemma ActInstall(s: Channel, acts: seq<Action>, t: Channel, p: Proc, r: Rel) returns (acts': seq<Action>, t': Channel)
    requires Reaches(s, acts, t) && Acts(t, p, Install(r))
    ensures Reaches(s, acts', t')
    ensures var releases := if r in t.releases then t.releases else t.releases[r := Release(Synced, false)];
            t' == if t.current == Some(r) then t.(phase := PruneQueued)
                  else t.(releases := releases, current := Some(r), previous := t.current, phase := PruneQueued)
  {
    MaintFollowsReap(s, acts, t);
    hide Reaches, Exec, Enabled;
    if t.current == Some(r) {
      acts', t' := NotePresent(s, acts, t, p, r);
      acts', t' := GrowPlan(s, acts', t', AlreadyCurrent);
    } else if r in t.releases {
      acts', t' := ActReuse(s, acts, t, p, r);
    } else {
      acts', t' := ActBuild(s, acts, t, p, r);
    }
  }

  /**
   A record left by an installer that died is completed first, and then the requested operation is done on top of it:
   a rollback swaps the pair the record asked for, an installation promotes over the release it asked for.
   */
  lemma LeftoverThenTask(t: Channel, p: Proc, task: Task) returns (acts: seq<Action>)
    requires Valid(t) && Resting(t, p) && t.txn.Some?
    requires task.Rollback? ==> t.txn.value.desiredPrevious.Some?
    ensures IsRun(t, acts) && After(t, acts).txn.None?
    ensures var rec, e := t.txn.value, After(t, acts);
            match task
            case Rollback => e.current == rec.desiredPrevious && e.previous == Some(rec.desiredCurrent) && e.releases == t.releases
            case Install(r) =>
              && r in e.releases && (forall x :: x in t.releases ==> x in e.releases)
              && if rec.desiredCurrent == r then e.current == Some(r) && e.previous == rec.desiredPrevious
                 else e.current == Some(r) && e.previous == Some(rec.desiredCurrent)
  {
    assert Reaches(t, [], t);
    MaintFollowsReap(t, [], t);
    var e;
    acts, e := BeginsWithRecord(t, [], t, p, task);
    match task
    case Rollback => acts, e := ActRollback(t, acts, e, p);
    case Install(r) => acts, e := ActInstall(t, acts, e, p, r);
  }

  // ---------- sessions ----------

  function Joined(g: Guard.Guard, p: Proc): Guard.Guard
  {
    g.(stage := g.stage[p := Guard.Outside], spent := g.spent + {p})
  }

  /**
   While the guard is free a session can start, whatever the installer is doing: it runs the release `current`
   names, and a complete lease of its own lies there from before it runs.
   */
  lemma LaunchWorks(t: Channel, p: Proc) returns (acts: seq<Action>)
    requires Valid(t) && t.g.dir.Absent? && p !in t.g.spent && t.current.Some?
    ensures IsRun(t, acts)
    ensures var r := t.current.value;
            After(t, acts) == t.(g := Joined(t.g, p), leases := t.leases[(r, p) := Complete], runners := t.runners[p := Running(r)])
  {
    assert Reaches(t, [], t);
    NewcomerIsUnknown(t, p);
    var e;
    acts, e := Session(t, [], t, p, t.current.value);
  }

  lemma Session(s: Channel, acts: seq<Action>, t: Channel, p: Proc, r: Rel) returns (acts': seq<Action>, t': Channel)
    requires Reaches(s, acts, t) && t.g.dir.Absent? && p !in t.g.spent && t.g.maint != Some(p)
    requires p !in t.g.robbed && t.current == Some(r) && r in t.releases
    ensures Reaches(s, acts', t')
    ensures t' == t.(g := Joined(t.g, p), leases := t.leases[(r, p) := Complete], runners := t.runners[p := Running(r)])
  {
    hide Reaches;
    acts', t' := Enter(s, acts, t, p);
    acts', t' := Take(s, acts', t', p, r);
    acts', t' := DropAndRun(s, acts', t', p, r);
    assert t'.g == Joined(t.g, p) by { ClaimAndDrop(Joined(t.g, p), p); }
    assert t'.runners == t.runners[p := Running(r)];
  }

  lemma NewcomerIsUnknown(t: Channel, p: Proc)
    requires Valid(t) && p !in t.g.spent
    ensures t.g.maint != Some(p) && p !in t.g.stage && p !in t.g.robbed
    ensures t.current.Some? ==> t.current.value in t.releases
  {
    assert p !in Guard.Insiders(t.g);
  }

  lemma Enter(s: Channel, acts: seq<Action>, t: Channel, p: Proc) returns (acts': seq<Action>, t': Channel)
    requires Reaches(s, acts, t) && t.g.dir.Absent? && p !in t.g.spent && t.g.maint != Some(p)
    ensures Reaches(s, acts', t') && t' == t.(g := Claimed(Joined(t.g, p), p), runners := t.runners[p := Starting])
  {
    hide Reaches;
    acts', t' := Grow(s, acts, t, StartRunner(p));
    acts', t' := Claim(s, acts', t', p);
  }

  lemma Take(s: Channel, acts: seq<Action>, t: Channel, p: Proc, r: Rel) returns (acts': seq<Action>, t': Channel)
    requires Reaches(s, acts, t) && p in t.runners && t.runners[p].Starting? && Guard.Holds(t.g, p)
    requires t.current == Some(r) && r in t.releases
    ensures Reaches(s, acts', t')
    ensures t' == t.(leases := t.leases[(r, p) := Complete], runners := t.runners[p := Leased(r)])
  {
    hide Reaches;
    acts', t' := Grow(s, acts, t, Run(p, Resolve));
    acts', t' := Grow(s, acts', t', Run(p, OpenLease));
    acts', t' := Grow(s, acts', t', Run(p, WriteLease));
    assert t'.runners == t.runners[p := Leased(r)];
    assert t'.leases == t.leases[(r, p) := Complete];
  }

  lemma DropAndRun(s: Channel, acts: seq<Action>, t: Channel, p: Proc, r: Rel) returns (acts': seq<Action>, t': Channel)
    requires Reaches(s, acts, t) && p in t.runners && t.runners[p] == Leased(r) && Guard.Holds(t.g, p)
    requires t.g.dir == Guard.Present(Guard.Owner(t.g.stage[p].token))
    ensures Reaches(s, acts', t') && t' == t.(g := Dropped(t.g, p), runners := t.runners[p := Running(r)])
  {
    hide Reaches;
    acts', t' := Drop(s, acts, t, p);
    acts', t' := Grow(s, acts', t', Run(p, Launch));
  }

  /** A session that ends removes its own lease and no other. */
  lemma QuitRemovesOwnLease(t: Channel, p: Proc)
    requires Valid(t) && p in t.runners && t.runners[p].Running?
    ensures Enabled(t, Run(p, Quit))
    ensures var e := Exec(t, Run(p, Quit));
            && e == t.(leases := e.leases, runners := t.runners[p := Failed])
            && e.leases.Keys == t.leases.Keys - {(t.runners[p].rel, p)}
            && forall k :: k in e.leases ==> e.leases[k] == t.leases[k]
  {
    assert Guard.At(t.g, p);
  }

  // ---------- failures ----------

  // A section of the installer that runs under the guard.
  predicate UnderGuard(phase: Phase)
  {
    phase.ReplayCurrent? || phase.ReplayPrevious? || phase.ReplayForget? || phase.PruneReading? || phase.PruneScanning? || phase.PruneLeases?
  }

  // The installer is outside the guard, or in such a section with its own claim in place.
  predicate Regular(t: Channel, p: Proc)
  {
    && t.g.maint == Some(p) && Guard.At(t.g, p)
    && (InstallerOutside(t)
        || (UnderGuard(t.phase) && Guard.Holds(t.g, p) && t.g.dir == Guard.Present(Guard.Owner(t.g.stage[p].token))))
  }

  /**
   Whatever operation of the installer throws, the installer comes to its end without doing anything else, and it does
   not leave the guard behind: if it was inside, its claim is gone; links, record, releases and leases stay as they are.
   */
  lemma ThrowReleases(t: Channel, p: Proc) returns (acts: seq<Action>)
    requires Valid(t) && Enabled(t, Throw) && Regular(t, p)
    ensures IsRun(t, [Throw] + acts)
    ensures After(t, [Throw] + acts) == t.(g := if Guard.Holds(t.g, p) then Dropped(t.g, p) else t.g, phase := Ending)
  {
    ThrowLeads(t);
    hide Exec, Enabled;
    var u := Exec(t, Throw);
    var e;
    acts, e := Started(t, Throw);
    if Guard.Holds(t.g, p) { acts, e := DropRegular(u, p); }
    hide Reaches, IsRun, After;
    acts, e := LeaveFailed(u, acts, e, p);
    Then(t, Throw, acts, e);
  }

  lemma ThrowLeads(t: Channel)
    requires Valid(t) && Enabled(t, Throw)
    ensures var u := Exec(t, Throw);
            && u == t.(phase := u.phase) && (UnderGuard(t.phase) ==> u.phase.Leaving? || u.phase.PruneLeaving?)
            && (u.phase.Ending? || (u.phase.Leaving? && !u.phase.ok) || (u.phase.PruneLeaving? && !u.phase.ok))
  {
  }

  lemma DropRegular(u: Channel, p: Proc) returns (acts: seq<Action>, e: Channel)
    requires Valid(u) && (u.phase.Leaving? || u.phase.PruneLeaving?) && u.g.maint == Some(p) && Guard.Holds(u.g, p)
    requires u.g.dir == Guard.Present(Guard.Owner(u.g.stage[p].token))
    ensures Reaches(u, acts, e) && e == u.(g := Dropped(u.g, p)) && InstallerOutside(e)
  {
    assert Reaches(u, [], u) && u.g.reap.NotReaping?;
    hide Reaches;
    acts, e := Drop(u, [], u, p);
  }

  // After a failure the installer leaves for its end.
  lemma LeaveFailed(s: Channel, acts: seq<Action>, t: Channel, p: Proc) returns (acts': seq<Action>, t': Channel)
    requires Reaches(s, acts, t) && InstallerOutside(t)
    requires t.phase.Ending? || (t.phase.Leaving? && !t.phase.ok) || (t.phase.PruneLeaving? && !t.phase.ok)
    ensures Reaches(s, acts', t') && t' == t.(phase := Ending)
  {
    hide Reaches;
    acts', t' := acts, t;
    if t.phase.Leaving? { acts', t' := Grow(s, acts, t, Replay(LeaveReplay)); }
    if t.phase.PruneLeaving? { acts', t' := Grow(s, acts, t, Prune(LeavePrune)); }
  }

  /**
   A release of the guard that finds another claim in place leaves that claim alone. After a replay the installer then
   stops instead of going on to its goal; after pruning it carries on and deletes what it has retired.
   */
  lemma RefusedRelease(t: Channel, p: Proc) returns (acts: seq<Action>)
    requires Valid(t) && t.g.maint == Some(p) && Guard.Holds(t.g, p) && t.g.dir != Guard.Present(Guard.Owner(t.g.stage[p].token))
    requires (t.phase.Leaving? || t.phase.PruneLeaving?) && t.phase.ok
    ensures IsRun(t, acts)
    ensures After(t, acts) == t.(g := Dropped(t.g, p).(dir := t.g.dir), phase := if t.phase.Leaving? then Ending else Deleting)
  {
    assert Reaches(t, [], t) && t.g.reap.NotReaping?;
    var e;
    hide Reaches, Valid;
    acts, e := Refused(t, [], t, p);
    acts, e := LeaveRefused(t, acts, e);
  }

  lemma Refused(s: Channel, acts: seq<Action>, t: Channel, p: Proc) returns (acts': seq<Action>, t': Channel)
    requires Reaches(s, acts, t) && t.g.maint == Some(p) && Guard.Holds(t.g, p) && p !in t.runners && t.g.reap.NotReaping?
    requires t.g.dir != Guard.Present(Guard.Owner(t.g.stage[p].token)) && (t.phase.Leaving? || t.phase.PruneLeaving?)
    ensures Reaches(s, acts', t') && InstallerOutside(t')
    ensures t' == t.(g := Dropped(t.g, p).(dir := t.g.dir),
                     phase := if t.phase.Leaving? then Leaving(t.phase.goal, false) else t.phase)
  {
    hide Reaches;
    acts', t' := Grow(s, acts, t, OnGuard(Guard.RefuseDrop(p)));
  }

  lemma LeaveRefused(s: Channel, acts: seq<Action>, t: Channel) returns (acts': seq<Action>, t': Channel)
    requires Reaches(s, acts, t) && InstallerOutside(t)
    requires (t.phase.Leaving? && !t.phase.ok) || (t.phase.PruneLeaving? && t.phase.ok)
    ensures Reaches(s, acts', t') && t' == t.(phase := if t.phase.Leaving? then Ending else Deleting)
  {
    hide Reaches;
    if t.phase.Leaving? {
      acts', t' := Grow(s, acts, t, Replay(LeaveReplay));
    } else {
      acts', t' := Grow(s, acts, t, Prune(LeavePrune));
    }
  }

  /**
   A claim of the guard that cannot be described is removed, and the error thrown: the installer comes to its end
   without having replayed or pruned anything, and a launcher has failed; nothing else changes.
   */
  lemma AbandonedClaimFails(t: Channel, p: Proc) returns (acts: seq<Action>)
    requires Valid(t) && Enabled(t, OnGuard(Guard.AbandonClaim(p)))
    ensures IsRun(t, [OnGuard(Guard.AbandonClaim(p))] + acts)
    ensures After(t, [OnGuard(Guard.AbandonClaim(p))] + acts) ==
            if p in t.runners then t.(g := Dropped(t.g, p), runners := t.runners[p := Failed])
            else t.(g := Dropped(t.g, p), phase := Ending)
  {
    ClaimGivenUp(t, p);
    hide *;
    var u := Exec(t, OnGuard(Guard.AbandonClaim(p)));
    var e;
    acts, e := Started(t, OnGuard(Guard.AbandonClaim(p)));
    acts, e := RemoveAndLeave(u, acts, e, p);
    Then(t, OnGuard(Guard.AbandonClaim(p)), acts, e);
  }

  lemma RemoveAndLeave(s: Channel, acts: seq<Action>, t: Channel, p: Proc) returns (acts': seq<Action>, t': Channel)
    requires Reaches(s, acts, t) && Guard.At(t.g, p) && t.g.stage[p].Dropping?
    requires if p in t.runners then t.runners[p].Failed?
             else t.g.maint == Some(p) && t.g.reap.NotReaping?
                  && ((t.phase.Leaving? && !t.phase.ok) || (t.phase.PruneLeaving? && !t.phase.ok))
    ensures Reaches(s, acts', t')
    ensures t' == t.(g := Dropped(t.g, p), phase := if p in t.runners then t.phase else Ending)
  {
    hide Reaches;
    acts', t' := RemoveClaim(s, acts, t, p);
    if p !in t.runners { acts', t' := LeaveFailed(s, acts', t', p); }
  }

  // A run that is built from its second step on.
  lemma Started(t: Channel, a: Action) returns (acts: seq<Action>, e: Channel)
    requires Valid(t) && Enabled(t, a)
    ensures acts == [] && e == Exec(t, a) && Reaches(e, acts, e)
  {
    ValidStep(t, a);
    acts, e := [], Exec(t, a);
  }

  lemma Then(t: Channel, a: Action, acts: seq<Action>, e: Channel)
    requires Enabled(t, a) && Reaches(Exec(t, a), acts, e)
    ensures IsRun(t, [a] + acts) && After(t, [a] + acts) == e
  {
    hide Enabled, Exec, Valid;
    assert ([a] + acts)[1..] == acts;
  }

  lemma ClaimGivenUp(t: Channel, p: Proc)
    requires Valid(t) && Enabled(t, OnGuard(Guard.AbandonClaim(p)))
    ensures var u := Exec(t, OnGuard(Guard.AbandonClaim(p)));
            && Guard.At(u.g, p) && u.g.stage[p].Dropping? && Dropped(u.g, p) == Dropped(t.g, p)
            && u.g.maint == t.g.maint && u.g.reap == t.g.reap
            && if p in t.runners then u == t.(g := u.g, runners := t.runners[p := Failed])
               else u == t.(g := u.g, phase := u.phase) && t.g.maint == Some(p) && t.g.reap.NotReaping?
                    && ((u.phase.Leaving? && !u.phase.ok) || (u.phase.PruneLeaving? && !u.phase.ok))
  {
    GuardGivenUp(t.g, p);
    assert Guard.Valid(t.g);
    hide Guard.Exec, Guard.Enabled, Dropped, Guard.Valid, Core, PhaseFits;
  }

  lemma GuardGivenUp(g: Guard.Guard, p: Proc)
    requires Guard.Valid(g) && Guard.Enabled(g, Guard.AbandonClaim(p))
    ensures var h := Guard.Exec(g, Guard.AbandonClaim(p));
            && Guard.At(h, p) && h.stage[p].Dropping? && Dropped(h, p) == Dropped(g, p) && h.maint == g.maint && h.reap == g.reap
    ensures g.maint == Some(p) ==> g.reap.NotReaping?
  {
  }

  lemma RemoveClaim(s: Channel, acts: seq<Action>, t: Channel, p: Proc) returns (acts': seq<Action>, t': Channel)
    requires Reaches(s, acts, t) && MayDrop(t, p) && Guard.At(t.g, p) && t.g.stage[p].Dropping?
    ensures Reaches(s, acts', t') && t' == t.(g := Dropped(t.g, p))
  {
    hide Reaches;
    acts', t' := GrowGuard(s, acts, t, Guard.UnlinkOwner(p));
    acts', t' := GrowGuard(s, acts', t', Guard.RemoveDir(p));
  }

  /** A release once marked for sessions without a lease is there and marked for ever. */
  lemma {:induction false} MarkIsForever(s: Channel, acts: seq<Action>, r: Rel)
    requires Valid(s) && IsRun(s, acts) && r in s.releases && s.releases[r].marked
    ensures r in After(s, acts).releases && After(s, acts).releases[r].marked
    decreases acts
  {
    if acts != [] {
      ValidStep(s, acts[0]);
      MarkedStays(s, acts[0], r);
      MarkIsForever(Exec(s, acts[0]), acts[1..], r);
    }
  }

  lemma MarkedStays(s: Channel, a: Action, r: Rel)
    requires PhaseFits(s) && Enabled(s, a) && r in s.releases && s.releases[r].marked
    ensures r in Exec(s, a).releases && Exec(s, a).releases[r].marked
  {
    hide Guard.Exec, Guard.Enabled, GuardAllowed, AfterThrow, ReplayEnabled, RunnerEnabled, ThrowEnabled, Links, LeaseFiles, Present;
    if a.Plan? {
      hide PruneEnabled, PruneExec;
    } else {
      hide PlanEnabled, PlanExec;
    }
  }

  /** Marking is open to every promotion until its record is written, and it lasts. */
  lemma MarkLasts(s: Channel, acts: seq<Action>)
    requires Valid(s) && s.phase.Noted?
    ensures Enabled(s, Plan(Mark))
    ensures IsRun(Exec(s, Plan(Mark)), acts) ==>
              var e := After(Exec(s, Plan(Mark)), acts); s.phase.rel in e.releases && e.releases[s.phase.rel].marked
  {
    ValidStep(s, Plan(Mark));
    if IsRun(Exec(s, Plan(Mark)), acts) { MarkIsForever(Exec(s, Plan(Mark)), acts, s.phase.rel); }
  }
}
