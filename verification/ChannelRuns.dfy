/** What users of a release channel can rely on in every run, however its guard is disturbed. */
module ChannelRuns {
  import opened Common
  import opened Channel
  import opened ChannelSafety
  import Guard

  lemma ReachableValid(acts: seq<Action>)
    requires IsRun(EMPTY, acts)
    ensures Valid(After(EMPTY, acts))
  {
    ValidRun(EMPTY, acts);
  }

  // ---------- the links ----------

  /** `current` and `previous` always name existing, fully built releases, after every crash too. */
  lemma LinksNeverDangle(acts: seq<Action>)
    requires IsRun(EMPTY, acts)
    ensures var s := After(EMPTY, acts); Present(s, s.current) && Present(s, s.previous)
  {
    ReachableValid(acts);
  }

  /** Once `current` is set it stays set, so a launcher that enters the guard later can always resolve it. */
  lemma {:induction false} CurrentStaysSet(s: Channel, acts: seq<Action>, p: Proc)
    requires Valid(s) && IsRun(s, acts) && s.current.Some?
    ensures var s' := After(s, acts);
            && s'.current.Some?
            && (p in s'.runners && s'.runners[p].Starting? && Guard.Holds(s'.g, p) ==> Enabled(s', Run(p, Resolve)))
    decreases acts
  {
    if acts != [] {
      ValidStep(s, acts[0]);
      CurrentStaysSet(Exec(s, acts[0]), acts[1..], p);
    }
  }

  /** With no record pending, `current` and `previous` name different releases. */
  lemma LinksDiffer(acts: seq<Action>)
    requires IsRun(EMPTY, acts)
    ensures var s := After(EMPTY, acts); s.txn.None? && s.current.Some? ==> s.current != s.previous
  {
    ReachableValid(acts);
  }

  /**
   The rollback window: while a record is pending both links may name the same release, yet
   both releases of the record and both releases linked now are in place.
   */
  lemma NothingLostWhilePending(acts: seq<Action>)
    requires IsRun(EMPTY, acts) && After(EMPTY, acts).txn.Some?
    ensures var s := After(EMPTY, acts);
            && Present(s, Some(s.txn.value.desiredCurrent)) && Present(s, s.txn.value.desiredPrevious)
            && Present(s, s.current) && Present(s, s.previous)
            && !Enabled(s, Prune(Retire)) && !Enabled(s, Prune(EnterPrune))
  {
    ReachableValid(acts);
  }

  // ---------- crash replay ----------

  // Up to the moment the record disappears it is `t`, and each link is the one of `before` or the
  // one `t` asks for; at that moment the links are exactly what `t` asks for.
  ghost predicate Converging(s: Channel, acts: seq<Action>, t: Record, before: Pair)
    requires IsRun(s, acts)
    decreases acts
  {
    && s.txn == Some(t)
    && (s.current == before.current || s.current == Some(t.desiredCurrent))
    && (s.previous == before.previous || s.previous == t.desiredPrevious)
    && (acts == [] ||
        var s' := Exec(s, acts[0]);
        if s'.txn.None? then s'.current == Some(t.desiredCurrent) && s'.previous == t.desiredPrevious
        else Converging(s', acts[1..], t, before))
  }

  lemma PendingStep(s: Channel, a: Action)
    requires PhaseFits(s) && s.txn.Some? && Enabled(s, a)
    ensures var s' := Exec(s, a);
            && (s'.txn == s.txn || (s'.txn.None? && Pair(s.current, s.previous) == Logical(s)))
            && (s'.current == s.current || s'.current == Logical(s).current)
            && (s'.previous == s.previous || s'.previous == Logical(s).previous)
            && (s'.txn.None? ==> s'.current == s.current && s'.previous == s.previous)
  {
    if !a.Replay? { OnlyReplayMovesLinks(s, a); }
  }

  lemma OnlyReplayMovesLinks(s: Channel, a: Action)
    requires PhaseFits(s) && s.txn.Some? && Enabled(s, a) && !a.Replay?
    ensures var s' := Exec(s, a); s'.current == s.current && s'.previous == s.previous && s'.txn == s.txn
  {
    assert a != Plan(WriteRecord) && a != Plan(WriteSwap);
    hide Exec, Enabled, PhaseFits;
    OthersKeepLinks(s, a);
  }

  /**
   From any state with a pending record, whatever crashes, failures and retries follow, the links
   converge: the record outlives both swaps and disappears only when both links are as desired.
   */
  lemma {:induction false} ReplayConverges(s: Channel, acts: seq<Action>, t: Record, before: Pair)
    requires Valid(s) && IsRun(s, acts) && s.txn == Some(t)
    requires s.current == before.current || s.current == Some(t.desiredCurrent)
    requires s.previous == before.previous || s.previous == t.desiredPrevious
    ensures Converging(s, acts, t, before)
    decreases acts
  {
    if acts != [] {
      var s' := Exec(s, acts[0]);
      ValidStep(s, acts[0]);
      PendingStep(s, acts[0]);
      if s'.txn.Some? { ReplayConverges(s', acts[1..], t, before); }
    }
  }

  // ---------- the pair as an atomic register ----------

  datatype Commit = Promoted(rel: Rel) | RolledBack

  function Apply(pair: Pair, c: Commit): Pair {
    match c
    case Promoted(r) => Pair(Some(r), pair.current)
    case RolledBack => Pair(pair.previous, pair.current)
  }

  function ApplyAll(pair: Pair, cs: seq<Commit>): Pair
    decreases cs
  {
    if cs == [] then pair else ApplyAll(Apply(pair, cs[0]), cs[1..])
  }

  // A promotion or rollback takes effect when its record is renamed into place.
  function Committed(s: Channel, a: Action): seq<Commit>
    requires Enabled(s, a)
  {
    if a == Plan(WriteRecord) then [Promoted(s.phase.rel)]
    else if a == Plan(WriteSwap) then [RolledBack]
    else []
  }

  function Commits(s: Channel, acts: seq<Action>): seq<Commit>
    requires IsRun(s, acts)
    decreases acts
  {
    if acts == [] then [] else Committed(s, acts[0]) + Commits(Exec(s, acts[0]), acts[1..])
  }

  lemma StepRefinesRegister(s: Channel, a: Action)
    requires Valid(s) && Enabled(s, a)
    ensures Logical(Exec(s, a)) == ApplyAll(Logical(s), Committed(s, a))
    ensures a == Plan(WriteRecord) ==> s.current != Some(s.phase.rel)
    ensures a == Plan(WriteSwap) ==> s.current.Some? && s.previous.Some?
  {
    hide Core, ApplyAll;
    if a == Plan(WriteRecord) {
      Singleton(Logical(s), Promoted(s.phase.rel));
    } else if a == Plan(WriteSwap) {
      Singleton(Logical(s), RolledBack);
    } else {
      OthersKeepPair(s, a);
      NoCommits(Logical(s));
    }
  }

  lemma NoCommits(pair: Pair)
    ensures ApplyAll(pair, []) == pair
  {
  }

  // Replaying makes the links what the record says; nothing else touches links or record.
  lemma OthersKeepPair(s: Channel, a: Action)
    requires PhaseFits(s) && Enabled(s, a) && a != Plan(WriteRecord) && a != Plan(WriteSwap)
    ensures Logical(Exec(s, a)) == Logical(s)
  {
    hide Guard.Exec, Guard.Enabled, GuardAllowed, RunnerEnabled, PruneEnabled, ThrowEnabled, AfterThrow, Present;
    if !a.Replay? { OthersKeepLinks(s, a); }
  }

  lemma OthersKeepLinks(s: Channel, a: Action)
    requires Enabled(s, a) && !a.Replay? && a != Plan(WriteRecord) && a != Plan(WriteSwap)
    ensures var s' := Exec(s, a); s'.current == s.current && s'.previous == s.previous && s'.txn == s.txn
  {
    hide Guard.Exec, Guard.Enabled, GuardAllowed, PlanEnabled, PlanExec, ThrowEnabled, AfterThrow;
    if a.Plan? { OtherPlansKeepLinks(s, a.step); }
  }

  lemma OtherPlansKeepLinks(s: Channel, a: PlanAction)
    requires PlanEnabled(s, a) && !a.WriteRecord? && !a.WriteSwap?
    ensures var s' := PlanExec(s, a); s'.current == s.current && s'.previous == s.previous && s'.txn == s.txn
  {
  }

  lemma Singleton(pair: Pair, c: Commit)
    ensures ApplyAll(pair, [c]) == Apply(pair, c)
  {
    assert [c][1..] == [];
    assert ApplyAll(Apply(pair, c), []) == Apply(pair, c);
  }

  lemma {:induction false} ApplyAllConcat(pair: Pair, a: seq<Commit>, b: seq<Commit>)
    ensures ApplyAll(pair, a + b) == ApplyAll(ApplyAll(pair, a), b)
    decreases a
  {
    if a == [] {
      assert a + b == b;
    } else {
      assert (a + b)[1..] == a[1..] + b;
      ApplyAllConcat(Apply(pair, a[0]), a[1..], b);
    }
  }

  /**
   The crash-prone protocol refines an atomic pair: over every run the pair the channel stands for is
   the fold of the committed promotions and rollbacks. No crash, failure, replay or collection changes it.
   */
  lemma {:induction false} RunRefinesRegister(s: Channel, acts: seq<Action>)
    requires Valid(s) && IsRun(s, acts)
    ensures Logical(After(s, acts)) == ApplyAll(Logical(s), Commits(s, acts))
    decreases acts
  {
    if acts != [] {
      ValidStep(s, acts[0]);
      StepRefinesRegister(s, acts[0]);
      RunRefinesRegister(Exec(s, acts[0]), acts[1..]);
      ApplyAllConcat(Logical(s), Committed(s, acts[0]), Commits(Exec(s, acts[0]), acts[1..]));
    }
  }

  /**
   Between two states without a pending record: no commit keeps both links, one promotion of `r`
   turns (c, p) into (r, c), and two rollbacks restore the links, however often any of this crashed.
   In particular a rollback that crashed after writing its record and is then requested again
   undoes itself: the retry first replays it and then commits a second swap.
   */
  lemma LinksFollowCommits(s: Channel, acts: seq<Action>)
    requires Valid(s) && IsRun(s, acts) && s.txn.None? && After(s, acts).txn.None?
    ensures var s' := After(s, acts); var cs := Commits(s, acts);
            && (cs == [] ==> s'.current == s.current && s'.previous == s.previous)
            && (|cs| == 1 && cs[0].Promoted? ==> s'.current == Some(cs[0].rel) && s'.previous == s.current)
            && (cs == [RolledBack] ==> s'.current == s.previous && s'.previous == s.current)
            && (cs == [RolledBack, RolledBack] ==> s'.current == s.current && s'.previous == s.previous)
  {
    var cs := Commits(s, acts);
    RunRefinesRegister(s, acts);
    if |cs| == 1 {
      assert cs == [cs[0]];
      Singleton(Logical(s), cs[0]);
    } else if cs == [RolledBack, RolledBack] {
      assert cs == [RolledBack] + [RolledBack];
      ApplyAllConcat(Logical(s), [RolledBack], [RolledBack]);
      Singleton(Logical(s), RolledBack);
      Singleton(Apply(Logical(s), RolledBack), RolledBack);
    }
  }

  // ---------- building runs ----------

  lemma {:induction false} Snoc(s: Channel, acts: seq<Action>, a: Action)
    requires IsRun(s, acts) && Enabled(After(s, acts), a)
    ensures IsRun(s, acts + [a]) && After(s, acts + [a]) == Exec(After(s, acts), a)
    decreases acts
  {
    hide Enabled, Exec;
    if acts == [] {
      assert acts + [a] == [a] && [a][1..] == [];
      assert IsRun(Exec(s, a), []);
    } else {
      assert (acts + [a])[1..] == acts[1..] + [a];
      Snoc(Exec(s, acts[0]), acts[1..], a);
    }
  }

  ghost predicate Reaches(s: Channel, acts: seq<Action>, t: Channel)
  {
    IsRun(s, acts) && After(s, acts) == t && Valid(t)
  }

  // One more action at the end of a run.
  lemma Grow(s: Channel, acts: seq<Action>, t: Channel, a: Action) returns (acts': seq<Action>, t': Channel)
    requires Reaches(s, acts, t) && Enabled(t, a)
    ensures Reaches(s, acts', t') && t' == Exec(t, a)
  {
    hide Enabled, Exec, Valid;
    Snoc(s, acts, a);
    ValidStep(t, a);
    acts', t' := acts + [a], Exec(t, a);
  }

  lemma GrowGuard(s: Channel, acts: seq<Action>, t: Channel, a: Guard.Action) returns (acts': seq<Action>, t': Channel)
    requires Reaches(s, acts, t) && Guard.Enabled(t.g, a) && GuardAllowed(t, a)
    requires !a.AbandonClaim? && !a.Leak? && !a.RefuseDrop?
    ensures Reaches(s, acts', t') && t' == t.(g := Guard.Exec(t.g, a))
  {
    hide Reaches, Guard.Exec, Guard.Enabled;
    acts', t' := Grow(s, acts, t, OnGuard(a));
  }

  lemma GrowPlan(s: Channel, acts: seq<Action>, t: Channel, a: PlanAction) returns (acts': seq<Action>, t': Channel)
    requires Reaches(s, acts, t) && PlanEnabled(t, a)
    ensures Reaches(s, acts', t') && t' == PlanExec(t, a)
  {
    hide Reaches, PlanEnabled, PlanExec;
    acts', t' := Grow(s, acts, t, Plan(a));
  }

  // A process outside claims the free guard.
  lemma Claim(s: Channel, acts: seq<Action>, t: Channel, p: Proc) returns (acts': seq<Action>, t': Channel)
    requires Reaches(s, acts, t) && MayClaim(t, p) && Guard.At(t.g, p) && t.g.stage[p].Outside?
    requires t.g.dir.Absent? && (t.g.maint == Some(p) ==> t.g.reap.NotReaping?)
    ensures Reaches(s, acts', t')
    ensures t' == t.(g := Claimed(t.g, p))
  {
    hide Reaches;
    acts', t' := GrowGuard(s, acts, t, Guard.MakeDir(p, 0));
    acts', t' := GrowGuard(s, acts', t', Guard.CreateOwner(p));
    acts', t' := GrowGuard(s, acts', t', Guard.CompleteOwner(p));
  }

  function Claimed(g: Guard.Guard, p: Proc): Guard.Guard
  {
    g.(stage := g.stage[p := Guard.Holding(Guard.Token(p, 0))], dir := Guard.Present(Guard.Owner(Guard.Token(p, 0))))
  }

  // A holder drops the guard it claimed.
  lemma Drop(s: Channel, acts: seq<Action>, t: Channel, p: Proc) returns (acts': seq<Action>, t': Channel)
    requires Reaches(s, acts, t) && MayDrop(t, p) && Guard.Holds(t.g, p)
    requires t.g.dir == Guard.Present(Guard.Owner(t.g.stage[p].token))
    ensures Reaches(s, acts', t')
    ensures t' == t.(g := Dropped(t.g, p))
  {
    hide Reaches;
    acts', t' := GrowGuard(s, acts, t, Guard.Compare(p));
    acts', t' := GrowGuard(s, acts', t', Guard.UnlinkOwner(p));
    acts', t' := GrowGuard(s, acts', t', Guard.RemoveDir(p));
  }

  function Dropped(g: Guard.Guard, p: Proc): Guard.Guard
  {
    g.(stage := g.stage[p := Guard.Outside], dir := Guard.Absent, robbed := g.robbed - {p})
  }

  lemma ClaimAndDrop(g: Guard.Guard, p: Proc)
    requires Guard.At(g, p) && g.stage[p].Outside? && g.dir.Absent? && p !in g.robbed
    ensures Dropped(Claimed(g, p), p) == g
  {
    assert g.stage[p := Guard.Holding(Guard.Token(p, 0))][p := Guard.Outside] == g.stage;
    assert g.robbed - {p} == g.robbed;
  }

  // Under the guard, the record is replayed.
  lemma Replayed(s: Channel, acts: seq<Action>, t: Channel) returns (acts': seq<Action>, t': Channel)
    requires Reaches(s, acts, t) && t.phase.Queued? && InstallerHolds(t) && t.txn.Some?
    ensures Reaches(s, acts', t')
    ensures t' == t.(current := Some(t.txn.value.desiredCurrent), previous := t.txn.value.desiredPrevious, txn := None,
                     phase := Leaving(t.phase.goal, true))
  {
    hide Reaches;
    acts', t' := Grow(s, acts, t, Replay(EnterReplay));
    acts', t' := Grow(s, acts', t', Replay(SwapCurrent));
    acts', t' := Grow(s, acts', t', Replay(SwapPrevious));
    acts', t' := Grow(s, acts', t', Replay(ForgetRecord));
  }

  // ---------- when an interrupted operation can still be completed ----------

  ghost function Fresh(used: set<Proc>): (p: Proc)
    ensures p !in used && forall q :: q in used ==> q < p
  {
    if used == {} then 0
    else
      var q :| q in used;
      var p := Fresh(used - {q});
      assert forall x :: x in used ==> x == q || x in used - {q};
      if p <= q then q + 1 else p
  }

  // Every process is gone: the state an interrupted machine is found in.
  predicate Quiet(s: Channel) { s.g.stage == map[] }

  lemma Begin(s: Channel, p: Proc) returns (acts: seq<Action>, t: Channel)
    requires Valid(s) && Quiet(s) && s.txn.Some? && p !in s.g.spent
    ensures Reaches(s, acts, t)
    ensures t.txn == s.txn && t.phase == Queued(ThenTask(Rollback)) && t.g.maint == Some(p) && InstallerOutside(t)
    ensures t.g.dir == s.g.dir && t.g.stage == map[p := Guard.Outside]
  {
    assert s.g.maint.None? && s.phase.Idle?;
    assert Reaches(s, [], s);
    hide Reaches, Valid;
    acts, t := Grow(s, [], s, StartInstaller(p, Rollback));
    PendingIsRecoverable(s, acts, t);
    acts, t := Grow(s, acts, t, Plan(LookForRecord));
  }

  lemma PendingIsRecoverable(s: Channel, acts: seq<Action>, t: Channel)
    requires Reaches(s, acts, t) && t.txn.Some?
    ensures Recoverable(t, t.txn.value)
  {
  }

  // A dead owner's claim is read, probed, renamed away and removed.
  lemma Reclaim(s: Channel, acts: seq<Action>, t: Channel, p: Proc) returns (acts': seq<Action>, t': Channel)
    requires Reaches(s, acts, t) && t.phase.Queued? && t.g.maint == Some(p) && InstallerOutside(t)
    requires t.g.dir.Present? && t.g.dir.owner.Owner? && t.g.dir.owner.token.proc !in t.g.stage && t.g.stage.Keys == {p}
    ensures Reaches(s, acts', t') && t' == t.(g := t'.g) && t'.g.dir.Absent? && t'.g.maint == Some(p) && InstallerOutside(t')
  {
    hide Reaches;
    acts', t' := GrowGuard(s, acts, t, Guard.ReadOwner(p));
    acts', t' := GrowGuard(s, acts', t', Guard.Probe(p));
    acts', t' := GrowGuard(s, acts', t', Guard.Retire(p));
    acts', t' := GrowGuard(s, acts', t', Guard.Inspect(p));
  }

  // With an orphaned guard and no reaper on its way nobody ever holds it, so no record is ever forgotten.
  lemma {:induction false} OrphanBlocksReplay(s: Channel, acts: seq<Action>)
    requires Valid(s) && Guard.Orphaned(s.g) && !Guard.InFlight(s.g) && s.txn.Some? && IsRun(s, acts)
    ensures After(s, acts).txn.Some?
    decreases acts
  {
    hide Valid, Enabled, Exec, Guard.Orphaned, Guard.InFlight;
    if acts != [] {
      var s' := Exec(s, acts[0]);
      ValidStep(s, acts[0]);
      OrphanStep(s, acts[0]);
      OrphanBlocksReplay(s', acts[1..]);
    }
  }

  lemma OrphanStep(s: Channel, a: Action)
    requires Valid(s) && Guard.Orphaned(s.g) && !Guard.InFlight(s.g) && s.txn.Some? && Enabled(s, a)
    ensures var s' := Exec(s, a); Guard.Orphaned(s'.g) && !Guard.InFlight(s'.g) && s'.txn.Some?
  {
    GuardStep(s, a);
    OrphanKeepsRecord(s, a);
    assert Guard.Valid(s.g);
    hide Valid, Enabled, Exec;
    if OnTheGuard(a) != [] { Guard.OrphanStep(s.g, OnTheGuard(a)[0]); }
  }

  lemma OrphanKeepsRecord(s: Channel, a: Action)
    requires Valid(s) && Guard.Orphaned(s.g) && s.txn.Some? && Enabled(s, a)
    ensures Exec(s, a).txn.Some?
  {
    if a.Replay? {
      assert s.g.maint.Some? ==> !Guard.Inside(s.g, s.g.maint.value);
    } else {
      assert PhaseFits(s);
      hide Core, Exec, Enabled;
      OnlyReplayMovesLinks(s, a);
    }
  }

  /**
   When all processes are gone, an interrupted promotion or rollback can still be brought to its
   end if and only if the guard is not an orphaned claim, one without a complete owner record.
   */
  lemma CompletableIffNotOrphaned(s: Channel)
    requires Valid(s) && Quiet(s) && s.txn.Some?
    ensures (exists acts :: IsRun(s, acts) && After(s, acts).txn.None?) <==> !Guard.Orphaned(s.g)
  {
    QuietIsNotInFlight(s);
    hide *;
    if Guard.Orphaned(s.g) {
      forall acts | IsRun(s, acts) ensures After(s, acts).txn.Some? { OrphanBlocksReplay(s, acts); }
    } else {
      var acts := Completed(s);
    }
  }

  lemma QuietIsNotInFlight(s: Channel)
    requires Valid(s) && Quiet(s)
    ensures !Guard.InFlight(s.g)
  {
  }

  lemma Completed(s: Channel) returns (acts: seq<Action>)
    requires Valid(s) && Quiet(s) && s.txn.Some? && !Guard.Orphaned(s.g)
    ensures IsRun(s, acts) && After(s, acts).txn.None?
  {
    var t;
    acts, t := ReachForgotten(s);
    hide Valid;
  }

  lemma ReachForgotten(s: Channel) returns (acts: seq<Action>, t: Channel)
    requires Valid(s) && Quiet(s) && s.txn.Some? && !Guard.Orphaned(s.g)
    ensures Reaches(s, acts, t) && t.txn.None?
  {
    assert s.g.dir.Present? ==> s.g.dir.owner.Owner? && s.g.dir.owner.token.proc in s.g.spent;
    hide Reaches, Valid;
    var p := Fresh(s.g.spent);
    acts, t := Begin(s, p);
    if s.g.dir.Present? { acts, t := Reclaim(s, acts, t, p); }
    acts, t := Claim(s, acts, t, p);
    acts, t := Replayed(s, acts, t);
  }

  // ---------- the protocol can move ----------

  // An installer of a new release comes as far as waiting for the guard.
  lemma Prepare(s: Channel, acts: seq<Action>, t: Channel, p: Proc, r: Rel) returns (acts': seq<Action>, t': Channel)
    requires Reaches(s, acts, t) && t.phase.Idle? && t.g.maint.None? && p !in t.g.spent && t.txn.None? && r !in t.releases
    ensures Reaches(s, acts', t')
    ensures t' == t.(g := Spawned(t.g, p), releases := t.releases[r := Release(Synced, false)],
                     txn := Some(Record(r, t.current)), phase := Queued(ThenPrune))
  {
    hide Reaches, Enabled, Exec;
    acts', t' := StartInstall(s, acts, t, p, r);
    acts', t' := BuildAll(s, acts', t');
    assert t' == t.(g := Spawned(t.g, p), phase := Building(r, Synced));
    hide Spawned;
    acts', t' := WriteOut(s, acts', t');
  }

  function Spawned(g: Guard.Guard, p: Proc): Guard.Guard
  {
    g.(stage := g.stage[p := Guard.Outside], spent := g.spent + {p}, maint := Some(p))
  }

  lemma StartInstall(s: Channel, acts: seq<Action>, t: Channel, p: Proc, r: Rel) returns (acts': seq<Action>, t': Channel)
    requires Reaches(s, acts, t) && t.phase.Idle? && t.g.maint.None? && p !in t.g.spent && t.txn.None? && r !in t.releases
    ensures Reaches(s, acts', t') && t' == t.(g := Spawned(t.g, p), phase := Building(r, Created))
  {
    hide Reaches;
    acts', t' := Grow(s, acts, t, StartInstaller(p, Install(r)));
    acts', t' := Grow(s, acts', t', Plan(LookForRecord));
    acts', t' := Grow(s, acts', t', Plan(StartBuild));
  }

  lemma WriteOut(s: Channel, acts: seq<Action>, t: Channel) returns (acts': seq<Action>, t': Channel)
    requires Reaches(s, acts, t) && t.phase.Building? && t.phase.built == Synced && t.g.maint.Some?
    requires t.phase.rel !in t.releases
    ensures Reaches(s, acts', t')
    ensures t' == t.(releases := t.releases[t.phase.rel := Release(Synced, false)],
                     txn := Some(Record(t.phase.rel, t.current)), phase := Queued(ThenPrune))
  {
    hide Reaches, Exec, Enabled;
    acts', t' := Note(s, acts, t);
    acts', t' := GrowPlan(s, acts', t', WriteRecord);
    acts', t' := GrowPlan(s, acts', t', PublishLauncher);
  }

  lemma Note(s: Channel, acts: seq<Action>, t: Channel) returns (acts': seq<Action>, t': Channel)
    requires Reaches(s, acts, t) && t.phase.Building? && t.phase.built == Synced && t.g.maint.Some?
    requires t.phase.rel !in t.releases
    ensures Reaches(s, acts', t') && t.current != Some(t.phase.rel)
    ensures t' == t.(releases := t.releases[t.phase.rel := Release(Synced, false)], phase := Noted(t.phase.rel, t.current))
  {
    LinkedAreReleases(s, acts, t);
    hide Reaches, Exec, Enabled;
    acts', t' := GrowPlan(s, acts, t, PublishRelease);
    acts', t' := GrowPlan(s, acts', t', NoteCurrent);
  }

  lemma LinkedAreReleases(s: Channel, acts: seq<Action>, t: Channel)
    requires Reaches(s, acts, t)
    ensures t.current.Some? ==> t.current.value in t.releases
  {
  }

  lemma BuildAll(s: Channel, acts: seq<Action>, t: Channel) returns (acts': seq<Action>, t': Channel)
    requires Reaches(s, acts, t) && t.phase.Building? && t.g.maint.Some?
    ensures Reaches(s, acts', t') && t' == t.(phase := Building(t.phase.rel, Synced))
  {
    hide Reaches;
    acts', t' := acts, t;
    while t'.phase.built != Synced
      invariant Reaches(s, acts', t') && t'.phase.Building? && t' == t.(phase := Building(t.phase.rel, t'.phase.built))
      decreases StepsLeft(t'.phase.built)
    {
      acts', t' := Grow(s, acts', t', Plan(Build));
    }
  }

  function StepsLeft(b: Built): nat {
    match b
    case Created => 5
    case Unpacked => 4
    case Installed => 3
    case Verified => 2
    case Described => 1
    case Synced => 0
  }

  // With the guard free, the promotion goes through and comes to pruning.
  lemma Promote(s: Channel, acts: seq<Action>, t: Channel, p: Proc) returns (acts': seq<Action>, t': Channel)
    requires Reaches(s, acts, t) && t.phase == Queued(ThenPrune) && t.txn.Some?
    requires t.g.maint == Some(p) && InstallerOutside(t) && t.g.dir.Absent? && p !in t.g.robbed
    ensures Reaches(s, acts', t')
    ensures t' == t.(current := Some(t.txn.value.desiredCurrent), previous := t.txn.value.desiredPrevious, txn := None,
                     phase := PruneQueued)
  {
    hide Reaches;
    acts', t' := Claim(s, acts, t, p);
    acts', t' := Replayed(s, acts', t');
    acts', t' := Drop(s, acts', t', p);
    ClaimAndDrop(t.g, p);
    acts', t' := Grow(s, acts', t', Replay(LeaveReplay));
  }
}
