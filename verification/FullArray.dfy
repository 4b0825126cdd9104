/** Reachable ends of parallel runs in which more buffers hold records than the iovec array has room for:
    the same root named once for each of 256 workers or more, each walk taken by another of them. */
module FullArray {
  import opened Basics
  import opened FileSystem
  import opened Paths
  import opened Filter
  import opened Listing
  import opened ParallelWalk
  import opened ParallelLaws
  import opened Agreement
  import opened Merge

  const LEAF: Entry := RawEntry("f", DtReg, Some(FILE_STAT), Some(FILE_STAT), None, None)
  const ROOT: Root := Root("r", Some(DIRECTORY_STAT), Some(DIRECTORY_STAT), Some(0), Some(0))
  const WORLD: World := World(map[0 := [LEAF]], n => 0, (p, s, f) => true, (s, f) => None, ROOT)
  const CONFIG: Config :=
    Config(Walk(WORLD, PredicateFromOptions(EVERYTHING, 0), false, None, PATH_CAPACITY, Parallel), '\n', false, false, 0)

  function Copies(n: nat): (roots: seq<Root>)
    ensures |roots| == n && forall i :: 0 <= i < n ==> roots[i] == ROOT
  {
    seq(n, i => ROOT)
  }

  lemma {:induction false} ScheduleAppend(s: State, actions: seq<Action>, s1: State, a: Action)
    requires Shaped(s) && Schedule(CONFIG, s, actions, s1) && Shaped(s1) && Enabled(s1, a)
    ensures Schedule(CONFIG, s, actions + [a], Apply(CONFIG, s1, a))
    decreases |actions|
  {
    var all := actions + [a];
    if actions == [] {
      assert all[1..] == [] && all[0] == a;
    } else {
      ScheduleAppend(Apply(CONFIG, s, actions[0]), actions[1..], s1, a);
      assert all[1..] == actions[1..] + [a] && all[0] == actions[0];
    }
  }

  /** After `i` roots: everything idle, and the first `i` workers have printed something. */
  ghost predicate Round(n: nat, i: nat, s: State) {
    && i <= n && Shaped(s) && |s.slots| == n && Idle(s)
    && |s.roots| == n - i && (forall j :: 0 <= j < |s.roots| ==> s.roots[j] == ROOT)
    && s.main.initialized && (i > 0 ==> Usable(s.main))
    && forall w :: 0 <= w < i ==> Usable(s.slots[w])
  }

  lemma RootIsPrinted()
    ensures RootEvent(CONFIG, ROOT) == Some("r") && RootTask(CONFIG, ROOT) == [OpenJob(0, "r", 0)]
  {
  }

  lemma LeafIsPrinted()
    ensures Expand(CONFIG.k, [LEAF], "r", 0) == [VisitJob("r/f", 1, LEAF), DescendJob("r/f", 1, LEAF)]
    ensures VisitEvent(CONFIG, Deliver(CONFIG.k, "r/f", 1, LEAF)) == Some("r/f") && Queued(CONFIG, "r/f", 1, LEAF) == []
  {
    assert [LEAF][1..] == [] && Join("r", "f") == "r/f" && !IsHidden(LEAF.name);
    assert Expand(CONFIG.k, [], "r", 0) == [];
  }

  /** One root: started, taken by worker i, its file visited and offered for descent. */
  lemma NextRound(n: nat, i: nat, s: State) returns (s1: State, s2: State, s3: State, s4: State)
    requires i < n && Round(n, i, s)
    ensures Enabled(s, StartRoot) && s1 == Apply(CONFIG, s, StartRoot) && Shaped(s1)
    ensures Enabled(s1, Take(i, 0)) && s2 == Apply(CONFIG, s1, Take(i, 0)) && Shaped(s2)
    ensures Enabled(s2, Work(i)) && s3 == Apply(CONFIG, s2, Work(i)) && Shaped(s3)
    ensures Enabled(s3, Work(i)) && s4 == Apply(CONFIG, s3, Work(i)) && Round(n, i + 1, s4)
  {
    RootIsPrinted();
    LeafIsPrinted();
    s1 := Apply(CONFIG, s, StartRoot);
    assert Entries(WORLD, 0) == [LEAF];
    s2 := Apply(CONFIG, s1, Take(i, 0));
    assert s2.queue == [] && s2.todo[i] == [VisitJob("r/f", 1, LEAF), DescendJob("r/f", 1, LEAF)];
    s3 := Apply(CONFIG, s2, Work(i));
    assert s3.todo[i] == [DescendJob("r/f", 1, LEAF)];
    s4 := Apply(CONFIG, s3, Work(i));
    assert s4.todo[i] == [] && s4.queue == [];
  }

  lemma ScheduleAppendTwo(start: State, before: seq<Action>, s: State, a: Action, b: Action) returns (actions: seq<Action>)
    requires Shaped(start) && Schedule(CONFIG, start, before, s) && Uninterrupted(before) && Shaped(s)
    requires Enabled(s, a) && Works(a) && Shaped(Apply(CONFIG, s, a)) && Enabled(Apply(CONFIG, s, a), b) && Works(b)
    ensures Schedule(CONFIG, start, actions, Apply(CONFIG, Apply(CONFIG, s, a), b)) && Uninterrupted(actions)
  {
    ScheduleAppend(start, before, s, a);
    ScheduleAppend(start, before + [a], Apply(CONFIG, s, a), b);
    actions := before + [a] + [b];
  }

  lemma RoundContinues(n: nat, i: nat, start: State, before: seq<Action>, s: State) returns (actions: seq<Action>, s4: State)
    requires Shaped(start) && Schedule(CONFIG, start, before, s) && Uninterrupted(before) && i < n && Round(n, i, s)
    ensures Schedule(CONFIG, start, actions, s4) && Uninterrupted(actions) && Round(n, i + 1, s4)
  {
    var s1, s2, s3;
    s1, s2, s3, s4 := NextRound(n, i, s);
    actions := ScheduleAppendTwo(start, before, s, StartRoot, Take(i, 0));
    actions := ScheduleAppendTwo(start, actions, s2, Work(i), Work(i));
  }

  lemma {:induction false} RoundIsReached(n: nat, i: nat) returns (actions: seq<Action>, s: State)
    requires i <= n
    ensures Schedule(CONFIG, Start(Copies(n), n), actions, s) && Uninterrupted(actions) && Round(n, i, s)
  {
    actions, s := [], Start(Copies(n), n);
    if i > 0 {
      var before, s0 := RoundIsReached(n, i - 1);
      actions, s := RoundContinues(n, i - 1, Start(Copies(n), n), before, s0);
    }
  }

  lemma {:induction false} AllUsableCount(slots: seq<Slot>)
    requires forall i :: 0 <= i < |slots| ==> Usable(slots[i])
    ensures UsableCount(slots) == |slots|
  {
    if slots != [] {
      AllUsableCount(slots[1..]);
    }
  }

  lemma CopiesAreComparable(n: nat)
    ensures Comparable(CONFIG, Copies(n))
  {
    LeafIsPrinted();
    RootIsPrinted();
    assert Entries(WORLD, 0) == [LEAF] && [LEAF][1..] == [];
    assert Join("r", "f") == "r/f";
    assert EntryFits(CONFIG, LEAF, "r", 0);
    assert Fits(CONFIG, [], "r", 0);
    assert Fits(CONFIG, [LEAF], "r", 0);
  }

  /** With 256 workers or more and as many roots, every buffer and the main one may hold records, and the
      merge, which has room for 256, then writes fewer than were found. */
  lemma FullArrayLosesRecords(n: nat) returns (actions: seq<Action>, s: State)
    requires n >= MAX_IOVEC
    ensures Comparable(CONFIG, Copies(n)) && Schedule(CONFIG, Start(Copies(n), n), actions, s)
    ensures Uninterrupted(actions) && Finished(s) && UsableCount([s.main] + s.slots) > MAX_IOVEC
    ensures EmittedOf(Gather([s.main] + s.slots, MAX_IOVEC)) < |SequentialRecords(CONFIG, Copies(n))|
  {
    actions, s := RoundIsReached(n, n);
    AllUsableCount([s.main] + s.slots);
    CopiesAreComparable(n);
    StartHolds(CONFIG, Copies(n), n);
    ScheduleKeepsInv(CONFIG, Start(Copies(n), n), actions, s);
    EveryScheduleAgrees(CONFIG, Copies(n), n, actions, s);
    FewerAreGathered(s);
    assert |AllRecords(s)| == |multiset(AllRecords(s))| == |multiset(SequentialRecords(CONFIG, Copies(n)))|;
  }

  lemma FewerAreGathered(s: State)
    requires Inv(CONFIG, s) && UsableCount([s.main] + s.slots) > MAX_IOVEC
    ensures EmittedOf(Gather([s.main] + s.slots, MAX_IOVEC)) < |AllRecords(s)|
  {
    var slots, logs := [s.main] + s.slots, [s.mainLog] + s.logs;
    assert AllHold(CONFIG.separator, slots, logs);
    MergeKeepsRecordsWhole(CONFIG.separator, slots, logs, MAX_IOVEC);
    MergeIsCompleteIffRoom(CONFIG.separator, slots, logs, MAX_IOVEC);
    assert logs[1..] == s.logs;
  }

  ghost predicate Reaches(cfg: Config, roots: seq<Root>, workers: nat, actions: seq<Action>, s: State) {
    Schedule(cfg, Start(roots, workers), actions, s)
  }

  /** The array has room for every schedule of every run exactly when there are fewer than 256 workers. */
  lemma ArrayIsEnoughIff(workers: nat)
    ensures (forall cfg: Config, roots: seq<Root>, actions: seq<Action>, s: State ::
               Reaches(cfg, roots, workers, actions, s) ==> UsableCount([s.main] + s.slots) <= MAX_IOVEC)
       <==> workers < 256
  {
    if workers < MAX_IOVEC {
      forall cfg: Config, roots: seq<Root>, actions: seq<Action>, s: State | Reaches(cfg, roots, workers, actions, s)
        ensures UsableCount([s.main] + s.slots) <= MAX_IOVEC
      {
        FewWorkersFit(cfg, roots, workers, actions, s);
      }
    } else {
      var actions, s := FullArrayLosesRecords(workers);
      assert Reaches(CONFIG, Copies(workers), workers, actions, s);
    }
  }
}
