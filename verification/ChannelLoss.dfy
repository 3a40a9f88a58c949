/**
 A run in which a launcher loses the release it has resolved, because a reaper takes a claim it did not examine.
 The launcher is doomed from then on: it never comes to run a session.
 */
module ChannelLoss {
  import opened Common
  import opened Channel
  import opened ChannelSafety
  import opened ChannelRuns
  import ChannelLaunch
  import ChannelSessions
  import Guard

  // Installer 0 installs release 10 and ends.
  lemma FirstRelease() returns (acts: seq<Action>, t: Channel)
    ensures Reaches(EMPTY, acts, t) && t.phase.Idle? && t.txn.None? && t.runners == map[] && t.leases == map[]
    ensures t.g == Guard.Guard(Guard.Absent, map[], {0}, None, Guard.NotReaping, {})
    ensures t.releases == map[10 := Release(Synced, false)] && t.current == Some(10)
  {
    hide Reaches;
    acts, t := FirstPromotion();
    acts, t := Grow(EMPTY, acts, t, Crash(0));
  }

  lemma FirstPromotion() returns (acts: seq<Action>, t: Channel)
    ensures Reaches(EMPTY, acts, t) && t.txn.None? && t.runners == map[] && t.leases == map[]
    ensures t.g == Guard.Guard(Guard.Absent, map[0 := Guard.Outside], {0}, Some(0), Guard.NotReaping, {})
    ensures t.releases == map[10 := Release(Synced, false)] && t.current == Some(10)
  {
    assert Reaches(EMPTY, [], EMPTY);
    hide Reaches, Exec, Enabled;
    acts, t := Prepare(EMPTY, [], EMPTY, 0, 10);
    acts, t := Promote(EMPTY, acts, t, 0);
  }

  // Launcher 1 holds the guard while installer 2, about to promote release 11, reads its record.
  lemma ReadOfOne() returns (acts: seq<Action>, t: Channel)
    ensures Reaches(EMPTY, acts, t) && t.phase == Queued(ThenPrune) && t.txn == Some(Record(11, Some(10)))
    ensures t.runners == map[1 := Starting] && t.leases == map[]
    ensures t.g.dir == Guard.Present(Guard.Owner(Guard.Token(1, 0))) && t.g.spent == {0, 1, 2} && t.g.maint == Some(2)
    ensures t.g.stage == map[1 := Guard.Holding(Guard.Token(1, 0)), 2 := Guard.Outside]
    ensures t.g.reap == Guard.Read(Guard.Token(1, 0), true) && t.g.robbed == {}
    ensures t.releases == map[10 := Release(Synced, false), 11 := Release(Synced, false)] && t.current == Some(10)
  {
    hide Reaches;
    acts, t := FirstRelease();
    acts, t := Grow(EMPTY, acts, t, StartRunner(1));
    acts, t := Claim(EMPTY, acts, t, 1);
    acts, t := Prepare(EMPTY, acts, t, 2, 11);
    acts, t := GrowGuard(EMPTY, acts, t, Guard.ReadOwner(2));
  }

  // Launcher 1 fails, drops the guard and ends.
  lemma OneEnds() returns (acts: seq<Action>, t: Channel)
    ensures Reaches(EMPTY, acts, t) && t.phase == Queued(ThenPrune) && t.txn == Some(Record(11, Some(10)))
    ensures t.runners == map[] && t.leases == map[]
    ensures t.g == Guard.Guard(Guard.Absent, map[2 := Guard.Outside], {0, 1, 2}, Some(2), Guard.Read(Guard.Token(1, 0), true), {})
    ensures t.releases == map[10 := Release(Synced, false), 11 := Release(Synced, false)] && t.current == Some(10)
  {
    hide Reaches;
    acts, t := ReadOfOne();
    acts, t := Grow(EMPTY, acts, t, Run(1, Fail));
    acts, t := Drop(EMPTY, acts, t, 1);
    acts, t := Grow(EMPTY, acts, t, Crash(1));
  }

  // Launcher 3 claims the guard and resolves release 10.
  lemma ThreeResolves() returns (acts: seq<Action>, t: Channel)
    ensures Reaches(EMPTY, acts, t) && t.phase == Queued(ThenPrune) && t.txn == Some(Record(11, Some(10)))
    ensures t.runners == map[3 := Resolved(10)] && t.leases == map[]
    ensures t.g.dir == Guard.Present(Guard.Owner(Guard.Token(3, 0))) && t.g.spent == {0, 1, 2, 3} && t.g.maint == Some(2)
    ensures t.g.stage == map[2 := Guard.Outside, 3 := Guard.Holding(Guard.Token(3, 0))]
    ensures t.g.reap == Guard.Read(Guard.Token(1, 0), true) && t.g.robbed == {}
    ensures t.releases == map[10 := Release(Synced, false), 11 := Release(Synced, false)]
  {
    hide Reaches;
    acts, t := OneEnds();
    acts, t := Grow(EMPTY, acts, t, StartRunner(3));
    acts, t := Claim(EMPTY, acts, t, 3);
    acts, t := Grow(EMPTY, acts, t, Run(3, Resolve));
  }

  // Installer 2 finds launcher 1 dead and renames launcher 3's claim away.
  lemma ThreeIsRobbed() returns (acts: seq<Action>, t: Channel)
    ensures Reaches(EMPTY, acts, t) && t.phase == Queued(ThenPrune) && t.txn == Some(Record(11, Some(10)))
    ensures t.runners == map[3 := Resolved(10)] && t.leases == map[]
    ensures t.g.dir.Absent? && t.g.spent == {0, 1, 2, 3} && t.g.maint == Some(2) && t.g.reap.NotReaping?
    ensures t.g.stage == map[2 := Guard.Outside, 3 := Guard.Holding(Guard.Token(3, 0))] && t.g.robbed == {3}
    ensures t.releases == map[10 := Release(Synced, false), 11 := Release(Synced, false)]
  {
    hide Reaches;
    acts, t := ThreeResolves();
    acts, t := GrowGuard(EMPTY, acts, t, Guard.Probe(2));
    acts, t := GrowGuard(EMPTY, acts, t, Guard.Retire(2));
    acts, t := GrowGuard(EMPTY, acts, t, Guard.Inspect(2));
  }

  // Installer 2 claims the guard beside launcher 3, promotes release 11 and ends; installer 4 promotes release 12.
  lemma TwoPromotions() returns (acts: seq<Action>, t: Channel)
    ensures Reaches(EMPTY, acts, t) && t.phase.PruneQueued? && t.runners == map[3 := Resolved(10)] && t.leases == map[]
    ensures t.g.dir.Absent? && t.g.maint == Some(4) && InstallerOutside(t) && 3 in t.g.stage
    ensures t.current == Some(12) && t.previous == Some(11) && 10 in t.releases && !t.releases[10].marked
  {
    hide Reaches;
    acts, t := ThreeIsRobbed();
    acts, t := Promote(EMPTY, acts, t, 2);
    acts, t := Grow(EMPTY, acts, t, Crash(2));
    acts, t := Prepare(EMPTY, acts, t, 4, 12);
    acts, t := Promote(EMPTY, acts, t, 4);
  }

  // Installer 4 goes on to prune and lists the leases of release 10: there are none.
  lemma ScanOfTen() returns (acts: seq<Action>, t: Channel)
    ensures Reaches(EMPTY, acts, t) && t.runners == map[3 := Resolved(10)] && 10 in t.releases
    ensures t.phase.PruneLeases? && t.phase.rel == 10 && t.phase.files == {} && !t.phase.active && t.phase.stale.None?
    ensures t.g.maint.Some?
  {
    hide Reaches;
    acts, t := TwoPromotions();
    assert LeaseFiles(t, 10) == {};
    acts, t := Claim(EMPTY, acts, t, 4);
    acts, t := Grow(EMPTY, acts, t, Prune(EnterPrune));
    acts, t := Grow(EMPTY, acts, t, Prune(ReadProtected));
    acts, t := Grow(EMPTY, acts, t, Prune(ScanRelease(10)));
  }

  // With an unaccounted user the run up to here has overlapped.
  lemma Unaccounted(acts: seq<Action>, t: Channel)
    requires Reaches(EMPTY, acts, t) && t.runners == map[3 := Resolved(10)]
    requires t.phase.PruneLeases? && t.phase.rel == 10 && t.phase.files == {} && !t.phase.active
    ensures !ChannelLaunch.NeverOverlaps(EMPTY, acts)
  {
    assert Uses(t, 3, 10) && !ChannelLaunch.ScanSheltered(t);
    ChannelLaunch.ShelteredIffNeverOverlaps(EMPTY, acts);
  }

  /** An overlap alone loses nothing: here a scan has overlapped launcher 3, and every live user still has its release. */
  lemma OverlapWithoutLoss() returns (acts: seq<Action>)
    ensures IsRun(EMPTY, acts) && !ChannelLaunch.NeverOverlaps(EMPTY, acts)
    ensures forall p, rel :: Uses(After(EMPTY, acts), p, rel) ==> rel in After(EMPTY, acts).releases
  {
    var t;
    acts, t := ScanOfTen();
    Unaccounted(acts, t);
  }

  /**
   One step later release 10 is retired, although launcher 3 is alive and has resolved it. But launcher 3 still
   believes to hold the guard, and its claim is gone: whatever follows, it never runs a session.
   */
  lemma LauncherLosesRelease() returns (acts: seq<Action>)
    ensures IsRun(EMPTY, acts)
    ensures var s := After(EMPTY, acts);
            && Uses(s, 3, 10) && 10 !in s.releases && 10 in s.tombs && ChannelSessions.Doomed(s, 3)
            && forall more :: IsRun(s, more) ==> (3 in After(s, more).runners ==> !After(s, more).runners[3].Running?)
  {
    var t;
    acts, t := ScanOfTen();
    acts, t := Grow(EMPTY, acts, t, Prune(Retire));
    ChannelSessions.UsedReleaseIsPresent(acts, 3, 10);
    forall more | IsRun(t, more) ensures 3 in After(t, more).runners ==> !After(t, more).runners[3].Running? {
      ChannelSessions.LoserNeverRuns(acts, more, 3, 10);
    }
  }
}
