/**
 What garbage collection does when it runs undisturbed, exactly: which releases, leases and tombstones are left.
 And what a lease that cannot be removed means for its release.
 */
module ChannelCollect {
  import opened Common
  import opened Channel
  import opened ChannelSafety
  import opened ChannelRuns
  import Guard

  // The lease `k` is complete and its process lives.
  predicate Live(t: Channel, k: (Rel, Proc))
  {
    k in t.leases && t.leases[k] == Complete && k.1 in t.g.stage
  }

  predicate InUse(t: Channel, r: Rel)
  {
    exists q: Proc :: q in LeaseFiles(t, r) && Live(t, (r, q))
  }

  // Collection does not look at the leases of a release that is linked or marked.
  predicate Spared(t: Channel, r: Rel)
  {
    r in Links(t) || r !in t.releases || t.releases[r].marked
  }

  // What is left of releases and leases when all but `todo` have been looked at.
  function ReleasesLeft(t: Channel, todo: set<Rel>): map<Rel, Release>
  {
    map r | r in t.releases && (r in todo || Spared(t, r) || InUse(t, r)) :: t.releases[r]
  }

  function LeasesLeft(t: Channel, todo: set<Rel>): map<(Rel, Proc), Lease>
  {
    map k | k in t.leases && (k.0 in todo || Spared(t, k.0) || Live(t, k)) :: t.leases[k]
  }

  // Of the releases looked at, those that do not stay.
  function Gone(t: Channel, todo: set<Rel>): set<Rel> { t.releases.Keys - ReleasesLeft(t, todo).Keys }

  function Partly(t: Channel, todo: set<Rel>): Channel
  {
    t.(releases := ReleasesLeft(t, todo), leases := LeasesLeft(t, todo), tombs := t.tombs + Gone(t, todo),
       phase := PruneScanning(Links(t), todo))
  }

  /**
   Pruning with the guard free, from the claim to the end: exactly those releases stay that are linked, marked, or
   have a complete lease of a living process; of the releases looked at exactly those leases stay; of the tombstones,
   old and new, exactly those that cannot be deleted stay; and nothing else changes.
   */
  lemma PruneCollects(t: Channel, p: Proc, stuck: set<Rel>) returns (acts: seq<Action>)
    requires Valid(t) && t.phase.PruneQueued? && t.g.maint == Some(p) && InstallerOutside(t) && t.g.dir.Absent?
    requires t.current.Some?
    ensures IsRun(t, acts)
    ensures After(t, acts) == t.(releases := ReleasesLeft(t, {}), leases := LeasesLeft(t, {}),
                                 tombs := (t.tombs + Gone(t, {})) * stuck, phase := Ending)
  {
    assert Reaches(t, [], t) && p !in t.g.robbed;
    var e;
    acts, e := Collected(t, [], t, p, stuck);
  }

  lemma Collected(s: Channel, acts: seq<Action>, t: Channel, p: Proc, stuck: set<Rel>) returns (acts': seq<Action>, t': Channel)
    requires Reaches(s, acts, t) && t.phase.PruneQueued? && t.g.maint == Some(p) && InstallerOutside(t) && t.g.dir.Absent?
    requires t.current.Some? && p !in t.g.robbed
    ensures Reaches(s, acts', t')
    ensures t' == t.(releases := ReleasesLeft(t, {}), leases := LeasesLeft(t, {}), tombs := (t.tombs + Gone(t, {})) * stuck,
                     phase := Ending)
  {
    hide Reaches, ReleasesLeft, LeasesLeft, Gone;
    var u;
    acts', u := Listed(s, acts, t, p);
    acts', t' := ScanAll(s, acts', u, u.releases.Keys);
    acts', t' := Swept(s, acts', t', p, stuck);
    ClaimDoesNotMatter(t, u);
    ClaimAndDrop(t.g, p);
  }

  // Claiming the guard changes nothing that collection looks at.
  lemma ClaimDoesNotMatter(t: Channel, u: Channel)
    requires u == t.(g := u.g, phase := u.phase) && u.g.stage.Keys == t.g.stage.Keys
    ensures ReleasesLeft(u, {}) == ReleasesLeft(t, {}) && LeasesLeft(u, {}) == LeasesLeft(t, {}) && Gone(u, {}) == Gone(t, {})
  {
    assert forall r: Rel :: LeaseFiles(u, r) == LeaseFiles(t, r);
    assert forall k: (Rel, Proc) :: Live(u, k) == Live(t, k);
    assert Links(u) == Links(t);
  }

  lemma Listed(s: Channel, acts: seq<Action>, t: Channel, p: Proc) returns (acts': seq<Action>, t': Channel)
    requires Reaches(s, acts, t) && t.phase.PruneQueued? && t.g.maint == Some(p) && InstallerOutside(t) && t.g.dir.Absent?
    requires t.current.Some?
    ensures Reaches(s, acts', t')
    ensures t' == t.(g := Claimed(t.g, p), phase := PruneScanning(Links(t), t.releases.Keys))
  {
    hide Reaches;
    acts', t' := Claim(s, acts, t, p);
    acts', t' := Grow(s, acts', t', Prune(EnterPrune));
    acts', t' := Grow(s, acts', t', Prune(ReadProtected));
  }

  // ---------- the scan ----------

  lemma ScanAll(s: Channel, acts: seq<Action>, t: Channel, all: set<Rel>) returns (acts': seq<Action>, t': Channel)
    requires Reaches(s, acts, t) && t.g.maint.Some? && t.phase == PruneScanning(Links(t), all) && all == t.releases.Keys
    ensures Reaches(s, acts', t') && t' == Partly(t, {})
  {
    acts', t' := acts, t;
    var todo := all;
    NothingLookedAt(t);
    hide Reaches, Partly;
    while todo != {}
      invariant todo <= all && Reaches(s, acts', t') && t' == Partly(t, todo)
      decreases todo
    {
      var r :| r in todo;
      acts', t' := ScanOne(s, acts', t', t, todo, r);
      todo := todo - {r};
    }
  }

  lemma NothingLookedAt(t: Channel)
    requires t.phase == PruneScanning(Links(t), t.releases.Keys)
    ensures t == Partly(t, t.releases.Keys)
  {
    assert ReleasesLeft(t, t.releases.Keys) == t.releases;
    assert LeasesLeft(t, t.releases.Keys) == t.leases;
  }

  lemma ScanOne(s: Channel, acts: seq<Action>, u: Channel, t: Channel, todo: set<Rel>, r: Rel)
    returns (acts': seq<Action>, t': Channel)
    requires Reaches(s, acts, u) && u == Partly(t, todo) && r in todo && r in t.releases && t.g.maint.Some?
    ensures Reaches(s, acts', t') && t' == Partly(t, todo - {r})
  {
    hide Reaches;
    if Spared(t, r) {
      acts', t' := Grow(s, acts, u, Prune(Skip(r)));
      SparedStays(t, todo, r);
    } else {
      acts', t' := Judge(s, acts, u, t, todo, r);
    }
  }

  lemma SparedStays(t: Channel, todo: set<Rel>, r: Rel)
    requires r in todo && Spared(t, r)
    ensures ReleasesLeft(t, todo - {r}) == ReleasesLeft(t, todo) && LeasesLeft(t, todo - {r}) == LeasesLeft(t, todo)
  {
  }

  lemma Judge(s: Channel, acts: seq<Action>, u: Channel, t: Channel, todo: set<Rel>, r: Rel)
    returns (acts': seq<Action>, t': Channel)
    requires Reaches(s, acts, u) && u == Partly(t, todo) && r in todo && !Spared(t, r) && t.g.maint.Some?
    ensures Reaches(s, acts', t') && t' == Partly(t, todo - {r})
  {
    SameLeases(t, todo, r);
    hide Reaches, InUse, ReleasesLeft, LeasesLeft;
    acts', t' := StartScan(s, acts, u, r);
    acts', t' := JudgeFiles(s, acts', t', u, r);
    acts', t' := Decide(s, acts', t', r);
  }

  // As long as a release has not been looked at, its leases are those of the start.
  lemma SameLeases(t: Channel, todo: set<Rel>, r: Rel)
    requires r in todo && !Spared(t, r)
    ensures var u := Partly(t, todo);
            && r in u.releases && !u.releases[r].marked && r !in u.phase.protected
            && (InUse(u, r) <==> InUse(t, r)) && ReleasesLeft(t, todo - {r}) == (if InUse(t, r) then u.releases else u.releases - {r})
            && LeasesLeft(t, todo - {r}) == FilesLeft(u, r, {})
            && t.tombs + Gone(t, todo - {r}) == (if InUse(t, r) then u.tombs else u.tombs + {r})
  {
  }

  // The leases of `u` when all files of release `r` but `files` have been judged.
  function FilesLeft(u: Channel, r: Rel, files: set<Proc>): map<(Rel, Proc), Lease>
  {
    map k | k in u.leases && (k.0 != r || k.1 in files || Live(u, k)) :: u.leases[k]
  }

  lemma StartScan(s: Channel, acts: seq<Action>, t: Channel, r: Rel) returns (acts': seq<Action>, t': Channel)
    requires Reaches(s, acts, t) && t.phase.PruneScanning? && r in t.phase.todo && r !in t.phase.protected && t.g.maint.Some?
    requires r in t.releases && !t.releases[r].marked
    ensures Reaches(s, acts', t')
    ensures t' == t.(phase := PruneLeases(t.phase.protected, t.phase.todo - {r}, r, LeaseFiles(t, r), false, None))
  {
    hide Reaches;
    acts', t' := Grow(s, acts, t, Prune(ScanRelease(r)));
  }

  // `u` in the middle of judging the leases of `r`: all but those of `files` have been judged.
  function Judging(u: Channel, r: Rel, files: set<Proc>, active: bool): Channel
    requires u.phase.PruneScanning?
  {
    u.(leases := FilesLeft(u, r, files),
       phase := PruneLeases(u.phase.protected, u.phase.todo - {r}, r, files, active, None))
  }

  lemma JudgeFiles(s: Channel, acts: seq<Action>, t: Channel, u: Channel, r: Rel) returns (acts': seq<Action>, t': Channel)
    requires Reaches(s, acts, t) && u.g.maint.Some? && u.phase.PruneScanning?
    requires t == u.(phase := PruneLeases(u.phase.protected, u.phase.todo - {r}, r, LeaseFiles(u, r), false, None))
    ensures Reaches(s, acts', t') && t' == Judging(u, r, {}, InUse(u, r))
  {
    acts', t' := acts, t;
    var files, active := LeaseFiles(u, r), false;
    assert FilesLeft(u, r, files) == u.leases;
    assert t == Judging(u, r, files, active);
    hide Reaches, Judging;
    while files != {}
      invariant files <= LeaseFiles(u, r) && Reaches(s, acts', t') && t' == Judging(u, r, files, active)
      invariant active <==> exists q: Proc :: q in LeaseFiles(u, r) - files && Live(u, (r, q))
      decreases files
    {
      var q :| q in files;
      acts', t' := JudgeOne(s, acts', t', u, r, files, active, q);
      files, active := files - {q}, active || Live(u, (r, q));
    }
  }

  lemma JudgeOne(s: Channel, acts: seq<Action>, t: Channel, u: Channel, r: Rel, files: set<Proc>, active: bool, q: Proc)
    returns (acts': seq<Action>, t': Channel)
    requires Reaches(s, acts, t) && u.phase.PruneScanning? && u.g.maint.Some? && files <= LeaseFiles(u, r) && q in files
    requires t == Judging(u, r, files, active)
    ensures Reaches(s, acts', t') && t' == Judging(u, r, files - {q}, active || Live(u, (r, q)))
  {
    ListedLease(u, r, files, q);
    hide Reaches, FilesLeft, Live, LeaseFiles;
    if Live(u, (r, q)) {
      acts', t' := Look(s, acts, t, q, true);
    } else {
      acts', t' := Look(s, acts, t, q, false);
      acts', t' := Clear(s, acts', t');
    }
  }

  lemma ListedLease(u: Channel, r: Rel, files: set<Proc>, q: Proc)
    requires files <= LeaseFiles(u, r) && q in files
    ensures CompleteLease(u.(leases := FilesLeft(u, r, files)), r, q) && !Live(u, (r, q)) ==> q !in u.g.stage
    ensures FilesLeft(u, r, files - {q})
            == if Live(u, (r, q)) then FilesLeft(u, r, files) else FilesLeft(u, r, files) - {(r, q)}
  {
    assert (r, q) in u.leases;
  }

  lemma Look(s: Channel, acts: seq<Action>, t: Channel, q: Proc, active: bool) returns (acts': seq<Action>, t': Channel)
    requires Reaches(s, acts, t) && t.g.maint.Some? && t.phase.PruneLeases? && q in t.phase.files && t.phase.stale.None?
    requires CompleteLease(t, t.phase.rel, q) && !active ==> q !in t.g.stage
    ensures Reaches(s, acts', t')
    ensures t' == t.(phase := PruneLeases(t.phase.protected, t.phase.todo, t.phase.rel, t.phase.files - {q},
                                          t.phase.active || active, if active then None else Some(q)))
  {
    hide Reaches;
    acts', t' := Grow(s, acts, t, Prune(ScanLease(q, active)));
  }

  lemma Clear(s: Channel, acts: seq<Action>, t: Channel) returns (acts': seq<Action>, t': Channel)
    requires Reaches(s, acts, t) && t.g.maint.Some? && t.phase.PruneLeases? && t.phase.stale.Some?
    ensures Reaches(s, acts', t')
    ensures t' == t.(leases := t.leases - {(t.phase.rel, t.phase.stale.value)}, phase := t.phase.(stale := None))
  {
    hide Reaches;
    acts', t' := Grow(s, acts, t, Prune(DropLease(true)));
  }

  lemma Decide(s: Channel, acts: seq<Action>, t: Channel, r: Rel) returns (acts': seq<Action>, t': Channel)
    requires Reaches(s, acts, t) && t.phase.PruneLeases? && t.phase.rel == r && t.phase.files == {} && t.phase.stale.None?
    requires t.g.maint.Some? && r in t.releases
    ensures Reaches(s, acts', t')
    ensures t' == t.(releases := if t.phase.active then t.releases else t.releases - {r},
                     tombs := if t.phase.active then t.tombs else t.tombs + {r},
                     phase := PruneScanning(t.phase.protected, t.phase.todo))
  {
    hide Reaches;
    if t.phase.active {
      acts', t' := Grow(s, acts, t, Prune(Keep));
    } else {
      acts', t' := Grow(s, acts, t, Prune(Retire));
    }
  }

  // ---------- the rest ----------

  // The guard is dropped, and every tombstone deleted that can be.
  lemma Swept(s: Channel, acts: seq<Action>, t: Channel, p: Proc, stuck: set<Rel>) returns (acts': seq<Action>, t': Channel)
    requires Reaches(s, acts, t) && t.phase.PruneScanning? && t.phase.todo == {} && t.g.maint == Some(p)
    requires Guard.Holds(t.g, p) && t.g.dir == Guard.Present(Guard.Owner(t.g.stage[p].token)) && t.g.reap.NotReaping?
    ensures Reaches(s, acts', t') && t' == t.(g := Dropped(t.g, p), tombs := t.tombs * stuck, phase := Ending)
  {
    hide Reaches;
    acts', t' := Grow(s, acts, t, Prune(EndScan));
    acts', t' := Drop(s, acts', t', p);
    acts', t' := Grow(s, acts', t', Prune(LeavePrune));
    acts', t' := DeleteOthers(s, acts', t', stuck);
  }

  lemma DeleteOthers(s: Channel, acts: seq<Action>, t: Channel, stuck: set<Rel>) returns (acts': seq<Action>, t': Channel)
    requires Reaches(s, acts, t) && t.phase.Deleting? && t.g.maint.Some?
    ensures Reaches(s, acts', t') && t' == t.(tombs := t.tombs * stuck, phase := Ending)
  {
    hide Reaches;
    acts', t' := acts, t;
    var todo := t.tombs - stuck;
    while todo != {}
      invariant todo <= t.tombs && todo !! stuck && Reaches(s, acts', t') && t' == t.(tombs := t.tombs * stuck + todo)
      decreases todo
    {
      var r :| r in todo;
      acts', t' := Grow(s, acts', t', Prune(Delete(r)));
      todo := todo - {r};
    }
    acts', t' := Grow(s, acts', t', Prune(EndDelete));
  }

  // ---------- a lease that cannot be removed ----------

  // The scan of the current release is over or given up.
  predicate EndsJudgement(s: Channel, a: Action)
  {
    a == Prune(Keep) || a == Throw || (a.Crash? && IsInstaller(s, a.p))
  }

  lemma ActiveStays(s: Channel, a: Action)
    requires Valid(s) && Enabled(s, a) && s.phase.PruneLeases? && s.phase.active && !EndsJudgement(s, a)
    ensures a != Prune(Retire)
    ensures var e := Exec(s, a); e.phase.PruneLeases? && e.phase.active && e.phase.rel == s.phase.rel
  {
    assert s.g.maint.Some? && s.g.maint.value !in s.runners;
    hide Guard.Exec, Guard.Enabled, AfterThrow, Core, PhaseFits;
    if a.OnGuard? {
      hide PlanEnabled, PlanExec, ReplayEnabled, ReplayExec, PruneEnabled, PruneExec, RunnerEnabled, RunnerExec;
    } else if a.Run? {
      hide PlanEnabled, PlanExec, ReplayEnabled, ReplayExec, PruneEnabled, PruneExec, GuardAllowed, GuardExec;
    } else {
      hide RunnerEnabled, RunnerExec, GuardAllowed, GuardExec;
    }
  }

  ghost predicate Judges(s: Channel, acts: seq<Action>)
    requires IsRun(s, acts)
    decreases acts
  {
    acts == [] || (!EndsJudgement(s, acts[0]) && Judges(Exec(s, acts[0]), acts[1..]))
  }

  /**
   A lease file that was judged inactive but could not be removed keeps its release: until the installer is done
   with that release, whatever else it finds, it cannot retire it.
   */
  lemma FailedRemovalKeepsRelease(s: Channel, acts: seq<Action>)
    requires Valid(s) && s.phase.PruneLeases? && s.phase.stale.Some?
    requires IsRun(Exec(s, Prune(DropLease(false))), acts) && Judges(Exec(s, Prune(DropLease(false))), acts)
    ensures !Enabled(After(Exec(s, Prune(DropLease(false))), acts), Prune(Retire))
  {
    ValidStep(s, Prune(DropLease(false)));
    StillActive(Exec(s, Prune(DropLease(false))), acts);
  }

  lemma {:induction false} StillActive(s: Channel, acts: seq<Action>)
    requires Valid(s) && s.phase.PruneLeases? && s.phase.active && IsRun(s, acts) && Judges(s, acts)
    ensures !Enabled(After(s, acts), Prune(Retire))
    decreases acts
  {
    if acts != [] {
      ValidStep(s, acts[0]);
      ActiveStays(s, acts[0]);
      StillActive(Exec(s, acts[0]), acts[1..]);
    }
  }

  // ---------- a lease that was removed ----------

  // `p` has been started and is past opening a lease.
  predicate PastOpening(s: Channel, p: Proc)
  {
    p in s.g.spent && (p in s.runners ==> !s.runners[p].Starting? && !s.runners[p].Resolved?)
  }

  lemma PastOpeningStep(s: Channel, a: Action, p: Proc, rel: Rel)
    requires Enabled(s, a) && PastOpening(s, p) && (rel, p) !in s.leases
    ensures PastOpening(Exec(s, a), p) && (rel, p) !in Exec(s, a).leases
  {
    if a.OnGuard? {
      GuardKeepsLeases(s, a.a);
    } else if a.Plan? || a.Replay? || a.Prune? || a.Throw? {
      InstallerOnlyRemoves(s, a);
    } else {
      hide AfterThrow, PlanEnabled, PlanExec, ReplayEnabled, ReplayExec, PruneEnabled, PruneExec, ThrowEnabled, GuardAllowed;
    }
  }

  lemma GuardKeepsLeases(s: Channel, a: Guard.Action)
    requires Enabled(s, OnGuard(a))
    ensures var e := Exec(s, OnGuard(a));
            && e.leases == s.leases && e.g.spent == s.g.spent && e.runners.Keys == s.runners.Keys
            && forall q :: q in s.runners ==> e.runners[q] == s.runners[q] || e.runners[q].Failed?
  {
    hide AfterThrow;
  }

  lemma InstallerOnlyRemoves(s: Channel, a: Action)
    requires Enabled(s, a) && (a.Plan? || a.Replay? || a.Prune? || a.Throw?)
    ensures Exec(s, a).g == s.g && Exec(s, a).runners == s.runners && Exec(s, a).leases.Keys <= s.leases.Keys
  {
    hide AfterThrow, GuardAllowed, GuardExec, Guard.Exec, Guard.Enabled, RunnerEnabled, RunnerExec, Links, LeaseFiles;
    if a.Plan? {
      hide PruneEnabled, PruneExec, ReplayEnabled, ReplayExec;
    } else if a.Prune? {
      hide PlanEnabled, PlanExec, ReplayEnabled, ReplayExec;
    } else {
      hide PlanEnabled, PlanExec, PruneEnabled, PruneExec;
    }
  }

  /**
   A lease that was removed never comes back, not even if its process is still writing it: the write goes to the file
   it opened.
   */
  lemma {:induction false} RemovedLeaseStaysRemoved(s: Channel, acts: seq<Action>, p: Proc, rel: Rel)
    requires Valid(s) && IsRun(s, acts) && PastOpening(s, p) && (rel, p) !in s.leases
    ensures (rel, p) !in After(s, acts).leases
    decreases acts
  {
    if acts != [] {
      ValidStep(s, acts[0]);
      PastOpeningStep(s, acts[0], p, rel);
      RemovedLeaseStaysRemoved(Exec(s, acts[0]), acts[1..], p, rel);
    }
  }
}
