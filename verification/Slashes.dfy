/** Roots given with trailing slashes: the parallel walker prints what the sequential one prints for the
    same roots given without them. */
module Slashes {
  import opened Basics
  import opened FileSystem
  import opened Paths
  import opened Filter
  import opened Listing
  import opened ParallelWalk
  import opened ParallelLaws
  import opened Agreement

  function StrippedRoot(root: Root): Root {
    StrippedDropsSlashesOnly(root.path);
    assert forall c :: c in Stripped(root.path) ==> c in root.path;
    root.(path := Stripped(root.path))
  }

  function StrippedRoots(roots: seq<Root>): seq<Root> {
    if roots == [] then [] else [StrippedRoot(roots[0])] + StrippedRoots(roots[1..])
  }

  /** A root leaves the same record and the same directory to walk with and without its trailing slashes. */
  lemma SlashesChangeNothing(cfg: Config, root: Root)
    ensures RootEvent(cfg, StrippedRoot(root)) == RootEvent(cfg, root) && RootTask(cfg, StrippedRoot(root)) == RootTask(cfg, root)
    ensures |root.path| < cfg.k.capacity ==> PlainRoot(cfg.k, StrippedRoot(root))
  {
    StrippedDropsSlashesOnly(root.path);
    StrippedIffPlain(Stripped(root.path));
    var st := RootStat(cfg.k, root);
    if st.Some? {
      var path := Stripped(root.path);
      var name := BasenameOf(path);
      assert RootAsPrinted(cfg.k, StrippedRoot(root), st.value) == RootAsPrinted(cfg.k, root, st.value);
    }
  }

  function RootAsPrinted(k: Walk, root: Root, st: Stat): Cand {
    var path := Stripped(root.path);
    var name := BasenameOf(path);
    RootCandidate(k, root, st).(path := path, basename := name, oracle := k.world.cwdStat(name, false))
  }

  /** Roots that are as for the comparison of the walkers, but for their trailing slashes. */
  ghost predicate SlashedComparable(cfg: Config, roots: seq<Root>) {
    Ordinary(cfg) && forall i :: 0 <= i < |roots| ==> RootFits(cfg, roots[i])
  }

  lemma {:induction false} StrippedRootsAreComparable(cfg: Config, roots: seq<Root>)
    requires SlashedComparable(cfg, roots)
    ensures Comparable(cfg, StrippedRoots(roots))
  {
    if roots != [] {
      assert forall i :: 0 <= i < |roots[1..]| ==> RootFits(cfg, roots[1..][i]) by {
        assert forall i :: 0 <= i < |roots[1..]| ==> roots[1..][i] == roots[i + 1];
      }
      StrippedRootsAreComparable(cfg, roots[1..]);
      assert RootFits(cfg, roots[0]);
      SlashesChangeNothing(cfg, roots[0]);
      StrippedDropsSlashesOnly(roots[0].path);
      StrippedIffPlain(Stripped(roots[0].path));
      assert RootFits(cfg, StrippedRoot(roots[0]));
      assert StrippedRoots(roots)[1..] == StrippedRoots(roots[1..]);
    }
  }

  lemma {:induction false} PlanOfStrippedRoots(cfg: Config, f: Weigher, roots: seq<Root>)
    ensures PlanRoots(cfg, f, StrippedRoots(roots)) == PlanRoots(cfg, f, roots)
  {
    if roots != [] {
      PlanOfStrippedRoots(cfg, f, roots[1..]);
      SlashesChangeNothing(cfg, roots[0]);
      assert StrippedRoots(roots)[1..] == StrippedRoots(roots[1..]);
    }
  }

  lemma SlashedRecordIsConserved(cfg: Config, roots: seq<Root>, workers: nat, actions: seq<Action>, s: State, x: string)
    requires SlashedComparable(cfg, roots) && Schedule(cfg, Start(roots, workers), actions, s) && workers > 0
    ensures multiset(AllRecords(s))[x] <= multiset(SequentialRecords(cfg, StrippedRoots(roots)))[x]
    ensures Uninterrupted(actions) && Finished(s) ==>
              multiset(AllRecords(s))[x] == multiset(SequentialRecords(cfg, StrippedRoots(roots)))[x]
  {
    var start := Start(roots, workers);
    SlashedStartHolds(cfg, roots, workers);
    SlashedStartCounts(cfg, roots, workers, x);
    LoggedCountsRecords(x, s);
    LoggedCountsRecords(x, start);
    ScheduleNeverGains(cfg, Only(x), start, actions, s);
    if Uninterrupted(actions) && Finished(s) {
      ScheduleConserves(cfg, Only(x), start, actions, s);
      ScheduleKeepsInv(cfg, start, actions, s);
      FinishedIffNothingOutstanding(cfg, s);
    }
  }

  lemma SlashedStartHolds(cfg: Config, roots: seq<Root>, workers: nat)
    requires SlashedComparable(cfg, roots)
    ensures Inv(cfg, Start(roots, workers)) && AllRecords(Start(roots, workers)) == []
  {
    EmptyLogs(Start(roots, workers).logs);
  }

  lemma SlashedStartCounts(cfg: Config, roots: seq<Root>, workers: nat, x: string)
    requires SlashedComparable(cfg, roots)
    ensures Outstanding(cfg, Only(x), Start(roots, workers)) == multiset(SequentialRecords(cfg, StrippedRoots(roots)))[x]
  {
    IdleHasNoWork(cfg, Only(x), Start(roots, workers).todo);
    PlanOfStrippedRoots(cfg, Only(x), roots);
    StrippedRootsAreComparable(cfg, roots);
    PlanCountsSequentialRecords(cfg, StrippedRoots(roots), x);
  }

  /** Under every schedule nothing is printed but what the sequential walk prints for the stripped roots, and
      exactly that when the walk finishes without a stop. */
  lemma SlashedScheduleAgrees(cfg: Config, roots: seq<Root>, workers: nat, actions: seq<Action>, s: State)
    requires SlashedComparable(cfg, roots) && Schedule(cfg, Start(roots, workers), actions, s) && workers > 0
    ensures multiset(AllRecords(s)) <= multiset(SequentialRecords(cfg, StrippedRoots(roots)))
    ensures Uninterrupted(actions) && Finished(s) ==>
              multiset(AllRecords(s)) == multiset(SequentialRecords(cfg, StrippedRoots(roots)))
  {
    forall x
      ensures multiset(AllRecords(s))[x] <= multiset(SequentialRecords(cfg, StrippedRoots(roots)))[x]
      ensures Uninterrupted(actions) && Finished(s) ==>
                multiset(AllRecords(s))[x] == multiset(SequentialRecords(cfg, StrippedRoots(roots)))[x]
    {
      SlashedRecordIsConserved(cfg, roots, workers, actions, s, x);
    }
  }
}
