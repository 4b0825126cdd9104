/** The exact number of stat calls of a sequential run, read off the tree, and when it is as small as
    it can be. */
module StatCost {
  import opened Basics
  import opened FileSystem
  import opened Paths
  import opened Filter
  import opened Listing
  import opened SequentialWalk
  import opened RunLaws
  import opened ExitStatus
  import opened StatLaws

  // ----- the cost of a tree; with `hits`, of the calls that succeed only -----

  function FilterCost(k: Walk, hits: bool, c: Cand): nat { if hits && c.oracle.None? then 0 else EvaluateCalls(k, c) }

  function EntryCost(k: Walk, hits: bool, e: Entry, child: string, depth: nat): nat {
    var c := EntryCandidate(k, child, depth, e);
    FilterCost(k, hits, c) + (if hits && c.oracle.None? then 0 else PostCalls(k, c)) + if Checked(k, e, depth) then 1 else 0
  }

  function Cost(k: Walk, hits: bool, es: seq<Entry>, path: string, depth: nat): nat
    decreases k.capacity - |path|, |es|
  {
    if es == [] then 0
    else
      var child := Join(path, es[0].name);
      var rest := Cost(k, hits, es[1..], path, depth);
      if !Visible(k, es[0]) || |child| >= k.capacity then rest
      else EntryCost(k, hits, es[0], child, depth + 1) + Cost(k, hits, Below(k, es[0], depth + 1), child, depth + 1) + rest
  }

  lemma CostByEntry(k: Walk, hits: bool, es: seq<Entry>, path: string, depth: nat)
    requires es != []
    ensures Cost(k, hits, es, path, depth) == Cost(k, hits, [es[0]], path, depth) + Cost(k, hits, es[1..], path, depth)
  {
    assert [es[0]][1..] == [] && [es[0]][0] == es[0];
    assert Cost(k, hits, [], path, depth) == 0;
  }

  function RootCost(k: Walk, hits: bool, root: Root): nat {
    var st := RootStat(k, root);
    if st.None? then if hits then 0 else 1
    else if |root.path| >= k.capacity then 1
    else 1 + FilterCost(k, hits, RootCandidate(k, root, st.value)) + CostBelowRoot(k, hits, root, st.value)
  }

  function CostBelowRoot(k: Walk, hits: bool, root: Root, st: Stat): nat {
    var t := RootTarget(k, root, st);
    if t.Some? then Cost(k, hits, Entries(k.world, t.value), root.path, 0) else 0
  }

  function RootsCost(k: Walk, oneFileSystem: bool, hits: bool, roots: seq<Root>): nat
    decreases |roots|
  {
    if roots == [] then 0
    else
      var k1 := k.(device := DeviceAfter(k, oneFileSystem, roots[0]));
      RootCost(k1, hits, roots[0]) + RootsCost(k1, oneFileSystem, hits, roots[1..])
  }

  // ----- every run spends at most that, and an undisturbed one just that -----

  function Measured(hits: bool, r: Run): nat { if hits then r.statHits else r.statCalls }

  ghost predicate Spends(env: Env, hits: bool, r: Run, r': Run, n: nat) {
    && r.calls <= r'.calls && (r.stop ==> r'.stop)
    && Measured(hits, r') <= Measured(hits, r) + n
    && (Quiet(env, r, r') && !r'.stop ==> Measured(hits, r') == Measured(hits, r) + n)
  }

  lemma SpendsChain(env: Env, hits: bool, r: Run, r1: Run, r2: Run, a: nat, b: nat)
    requires Spends(env, hits, r, r1, a) && Spends(env, hits, r1, r2, b)
    ensures Spends(env, hits, r, r2, a + b)
    ensures Quiet(env, r, r2) <==> Quiet(env, r, r1) && Quiet(env, r1, r2)
  {
    QuietChain(env, r, r1, r2);
  }

  /** A call that is no stat. */
  lemma OneCallSpends(env: Env, hits: bool, r: Run, r': Run, c: Call)
    requires r'.calls == r.calls + [c] && Measured(hits, r') == Measured(hits, r) && (r.stop ==> r'.stop)
    ensures Spends(env, hits, r, r', 0)
    ensures Quiet(env, r, r') <==> Sound(env, c, |r.calls|)
  {
    assert r'.calls[|r.calls|] == c;
  }

  lemma EmitSpends(k: Walk, env: Env, hits: bool, c: Cand, r: Run)
    ensures var (r', ok) := EmitIfMatch(k, env, c, r);
            && Spends(env, hits, r, r', FilterCost(k, hits, c)) && (ok <==> Quiet(env, r, r'))
            && Measured(hits, r') == Measured(hits, r) + FilterCost(k, hits, c)
  {
    var (r', ok) := EmitIfMatch(k, env, c, r);
    if r'.calls != r.calls {
      assert r'.calls[|r.calls|] == Write(c.path, c.depth, ok);
    }
  }

  lemma OpenSubdirSpends(k: Walk, env: Env, hits: bool, e: Entry, child: string, depth: nat, r: Run)
    requires IsDirectory(k, e) && ShouldDescend(k, e.name, depth)
    ensures var (r', id) := OpenSubdir(k, env, e, child, r);
            && Spends(env, hits, r, r', if Checked(k, e, depth) then 1 else 0)
            && (id.Some? ==> id == Target(k, e, depth)) && (Quiet(env, r, r') ==> id == Target(k, e, depth))
  {
    var id := if k.follow then e.open else e.lopen;
    var didOpen := env.opens(|r.calls|) && id.Some?;
    var r' := OpenSubdir(k, env, e, child, r).0;
    assert r'.calls[|r.calls|] == OpenDirectory(child, didOpen);
    if didOpen && k.device.Some? {
      assert r'.calls[|r.calls| + 1].CheckDevice?;
    }
  }

  lemma AttendedSpends(k: Walk, env: Env, hits: bool, e: Entry, child: string, depth: nat, r: Run)
    ensures var (r', id) := Attended(k, env, e, child, depth, r);
            && Spends(env, hits, r, r', EntryCost(k, hits, e, child, depth))
            && (id.Some? ==> id == Target(k, e, depth)) && (Quiet(env, r, r') ==> id == Target(k, e, depth))
            && (!EmitIfMatch(k, env, EntryCandidate(k, child, depth, e), r).1 ==> !Quiet(env, r, r'))
  {
    var c := EntryCandidate(k, child, depth, e);
    var (r1, ok) := EmitIfMatch(k, env, c, r);
    EmitSpends(k, env, hits, c, r);
    if ok {
      var r2 := PostStat(AfterEvaluate(k.world.glob, k.p, c), r1);
      var n := if hits && c.oracle.None? then 0 else PostCalls(k, c);
      assert Spends(env, hits, r1, r2, n);
      SpendsChain(env, hits, r, r1, r2, FilterCost(k, hits, c), n);
      if IsDirectory(k, e) && ShouldDescend(k, e.name, depth) {
        OpenSubdirSpends(k, env, hits, e, child, depth, r2);
        SpendsChain(env, hits, r, r2, OpenSubdir(k, env, e, child, r2).0, FilterCost(k, hits, c) + n,
                    if Checked(k, e, depth) then 1 else 0);
      }
    }
  }

  lemma {:induction false} DirectorySpends(k: Walk, env: Env, hits: bool, id: nat, path: string, depth: nat, r: Run)
    ensures Spends(env, hits, r, WalkDirectory(k, env, id, path, depth, r).0, Cost(k, hits, Entries(k.world, id), path, depth))
    decreases k.capacity - |path|, |Entries(k.world, id)| + 1
  {
    var ok := env.readerCreates(|r.calls|);
    var r1 := Called(r, CreateReader(path, ok));
    if ok {
      OneCallSpends(env, hits, r, r1, CreateReader(path, ok));
      EntriesSpend(k, env, hits, Entries(k.world, id), path, depth, r1);
      SpendsChain(env, hits, r, r1, WalkEntries(k, env, Entries(k.world, id), path, depth, r1).0, 0,
                  Cost(k, hits, Entries(k.world, id), path, depth));
    } else {
      OneCallSpends(env, hits, r, Complained(r1, path), CreateReader(path, ok));
    }
  }

  lemma {:induction false} FollowedSpends(k: Walk, env: Env, hits: bool, id: nat, path: string, depth: nat, r: Run)
    ensures Spends(env, hits, r, Followed(k, env, path, depth, (r, Some(id))), Cost(k, hits, Entries(k.world, id), path, depth))
    decreases k.capacity - |path|, |Entries(k.world, id)| + 2
  {
    DirectorySpends(k, env, hits, id, path, depth, r);
    var r1 := WalkDirectory(k, env, id, path, depth, r).0;
    PollIsSilent(env, r1);
    SpendsChain(env, hits, r, r1, Poll(env, r1), Cost(k, hits, Entries(k.world, id), path, depth), 0);
  }

  lemma {:induction false} EntriesSpend(k: Walk, env: Env, hits: bool, es: seq<Entry>, path: string, depth: nat, r: Run)
    ensures Spends(env, hits, r, WalkEntries(k, env, es, path, depth, r).0, Cost(k, hits, es, path, depth))
    decreases k.capacity - |path|, |es|
  {
    var (r0, more) := Next(env, path, r);
    NextIsSilent(env, path, r);
    if more && es != [] {
      var (r1, goOn) := WalkEntry(k, env, es[0], path, depth, r0);
      var here, rest := Cost(k, hits, [es[0]], path, depth), Cost(k, hits, es[1..], path, depth);
      CostByEntry(k, hits, es, path, depth);
      EntrySpends(k, env, hits, es[0], path, depth, r0);
      SpendsChain(env, hits, r, r0, r1, 0, here);
      if goOn {
        EntriesSpend(k, env, hits, es[1..], path, depth, r1);
        SpendsChain(env, hits, r, r1, WalkEntries(k, env, es[1..], path, depth, r1).0, here, rest);
      }
    }
  }

  lemma {:induction false} EntrySpends(k: Walk, env: Env, hits: bool, e: Entry, path: string, depth: nat, r: Run)
    ensures var (r', goOn) := WalkEntry(k, env, e, path, depth, r);
            Spends(env, hits, r, r', Cost(k, hits, [e], path, depth)) && (goOn || r'.stop || !Quiet(env, r, r'))
    decreases k.capacity - |path|, 0
  {
    var child := Join(path, e.name);
    assert [e][1..] == [];
    if Visible(k, e) && |child| < k.capacity {
      var (r1, id) := Attended(k, env, e, child, depth + 1, r);
      VisitHasTwoParts(k, env, e, child, depth + 1, r);
      AttendedSpends(k, env, hits, e, child, depth + 1, r);
      if id.Some? {
        FollowedSpends(k, env, hits, id.value, child, depth + 1, r1);
        SpendsChain(env, hits, r, r1, Followed(k, env, child, depth + 1, (r1, id)),
                    EntryCost(k, hits, e, child, depth + 1), Cost(k, hits, Below(k, e, depth + 1), child, depth + 1));
      }
    }
  }

  lemma OpenRootSpends(k: Walk, env: Env, hits: bool, root: Root, st: Stat, r: Run)
    requires EntersRoot(k, st)
    ensures Spends(env, hits, r, OpenRoot(k, env, root, r).0, CostBelowRoot(k, hits, root, st))
  {
    var t := RootTarget(k, root, st);
    var didOpen := env.opens(|r.calls|) && t.Some?;
    var r1 := Called(r, OpenDirectory(root.path, didOpen));
    if didOpen {
      OneCallSpends(env, hits, r, r1, OpenDirectory(root.path, didOpen));
      DirectorySpends(k, env, hits, t.value, root.path, 0, r1);
      SpendsChain(env, hits, r, r1, OpenRoot(k, env, root, r).0, 0, CostBelowRoot(k, hits, root, st));
    } else {
      OneCallSpends(env, hits, r, Complained(r1, root.path), OpenDirectory(root.path, didOpen));
    }
  }

  lemma StatedRootSpends(k: Walk, env: Env, hits: bool, root: Root, st: Stat, r: Run)
    requires RootStat(k, root) == Some(st) && |root.path| < k.capacity
    ensures Spends(env, hits, r, WalkStatedRoot(k, env, root, st, r).0, RootCost(k, hits, root) - 1)
  {
    var c := RootCandidate(k, root, st);
    var r1 := Called(r, CheckLength(root.path, true));
    OneCallSpends(env, hits, r, r1, CheckLength(root.path, true));
    var (r2, ok) := EmitIfMatch(k, env, c, r1);
    EmitSpends(k, env, hits, c, r1);
    SpendsChain(env, hits, r, r1, r2, 0, FilterCost(k, hits, c));
    if ok && EntersRoot(k, st) {
      OpenRootSpends(k, env, hits, root, st, r2);
      SpendsChain(env, hits, r, r2, OpenRoot(k, env, root, r2).0, FilterCost(k, hits, c), CostBelowRoot(k, hits, root, st));
    }
  }

  lemma RootSpends(k: Walk, env: Env, hits: bool, root: Root, r: Run)
    ensures Spends(env, hits, r, WalkRoot(k, env, root, r).0, RootCost(k, hits, root))
  {
    var st := RootStat(k, root);
    var r1 := Called(Stated(r, st.Some?), StatRoot(root.path, st.Some?));
    OneCallSpends(env, hits, Stated(r, st.Some?), r1, StatRoot(root.path, st.Some?));
    assert Spends(env, hits, r, r1, if hits && st.None? then 0 else 1);
    if st.Some? && |root.path| < k.capacity {
      StatedRootSpends(k, env, hits, root, st.value, r1);
      SpendsChain(env, hits, r, r1, WalkRoot(k, env, root, r).0, 1, RootCost(k, hits, root) - 1);
    } else if st.Some? {
      var r2 := WalkRoot(k, env, root, r).0;
      OneCallSpends(env, hits, r1, r2, CheckLength(root.path, false));
      SpendsChain(env, hits, r, r1, r2, 1, 0);
    }
  }

  lemma {:induction false} RootsSpend(k: Walk, oneFileSystem: bool, env: Env, hits: bool, roots: seq<Root>, r: Run)
    ensures Spends(env, hits, r, WalkRoots(k, oneFileSystem, env, roots, r).0, RootsCost(k, oneFileSystem, hits, roots))
    decreases |roots|
  {
    var r0 := Poll(env, r);
    PollIsSilent(env, r);
    if roots != [] && !r0.stop {
      var k1 := k.(device := DeviceAfter(k, oneFileSystem, roots[0]));
      var r1 := WalkRoot(k1, env, roots[0], r0).0;
      RootSpends(k1, env, hits, roots[0], r0);
      SpendsChain(env, hits, r, r0, r1, 0, RootCost(k1, hits, roots[0]));
      RootsSpend(k1, oneFileSystem, env, hits, roots[1..], r1);
      SpendsChain(env, hits, r, r1, WalkRoots(k1, oneFileSystem, env, roots[1..], r1).0,
                  RootCost(k1, hits, roots[0]), RootsCost(k1, oneFileSystem, hits, roots[1..]));
    }
  }

  // ----- when the cost is nothing -----

  predicate FreeCandidate(k: Walk, c: Cand) {
    c.resolved && !(c.follow && c.kind == Symlink) && !NeedsStat(k.world.glob, k.p, c)
  }

  /** Everything listed below is free of stats, and no directory is opened under a device check. */
  ghost predicate FreeBelow(k: Walk, es: seq<Entry>, path: string, depth: nat) {
    && (forall c :: c in List(k, es, path, depth) ==> FreeCandidate(k, c))
    && (forall e :: e in es && Visible(k, e) && |Join(path, e.name)| < k.capacity ==> !Checked(k, e, depth + 1))
  }

  lemma {:induction false} CostIsZeroIff(k: Walk, es: seq<Entry>, path: string, depth: nat)
    ensures Cost(k, false, es, path, depth) == 0 <==> FreeBelow(k, es, path, depth)
    decreases k.capacity - |path|, |es|
  {
    if es != [] {
      var e, child := es[0], Join(path, es[0].name);
      CostIsZeroIff(k, es[1..], path, depth);
      assert es == [e] + es[1..];
      if Visible(k, e) && |child| < k.capacity {
        CostIsZeroIff(k, Below(k, e, depth + 1), child, depth + 1);
        FreeStep(k, es, path, depth);
      }
    }
  }

  lemma FreeStep(k: Walk, es: seq<Entry>, path: string, depth: nat)
    requires es != [] && Visible(k, es[0]) && |Join(path, es[0].name)| < k.capacity
    ensures var e, child := es[0], Join(path, es[0].name);
            FreeBelow(k, es, path, depth) <==>
              EntryCost(k, false, e, child, depth + 1) == 0 && FreeBelow(k, Below(k, e, depth + 1), child, depth + 1)
              && FreeBelow(k, es[1..], path, depth)
  {
    var e, child := es[0], Join(path, es[0].name);
    var here, below, rest := EntryCandidate(k, child, depth + 1, e), List(k, Below(k, e, depth + 1), child, depth + 1),
                             List(k, es[1..], path, depth);
    assert List(k, es, path, depth) == [here] + below + rest;
    assert es == [e] + es[1..];
    assert EntryCost(k, false, e, child, depth + 1) == 0 <==> FreeCandidate(k, here) && !Checked(k, e, depth + 1);
    if !Checked(k, e, depth + 1) && k.device.Some? {
      assert Below(k, e, depth + 1) == [];
    }
  }

  /** The root is not stat'd a second time, and everything below it is free. */
  ghost predicate FreeRoot(k: Walk, root: Root) {
    var st := RootStat(k, root);
    st.None? || |root.path| >= k.capacity
    || (!NeedsStat(k.world.glob, k.p, RootCandidate(k, root, st.value))
        && (var t := RootTarget(k, root, st.value); t.Some? ==> FreeBelow(k, Entries(k.world, t.value), root.path, 0)))
  }

  ghost predicate FreeRoots(k: Walk, oneFileSystem: bool, roots: seq<Root>)
    decreases |roots|
  {
    roots == []
    || var k1 := k.(device := DeviceAfter(k, oneFileSystem, roots[0]));
       FreeRoot(k1, roots[0]) && FreeRoots(k1, oneFileSystem, roots[1..])
  }

  lemma {:induction false} RootsCostOneEachIff(k: Walk, oneFileSystem: bool, roots: seq<Root>)
    ensures |roots| <= RootsCost(k, oneFileSystem, false, roots)
    ensures RootsCost(k, oneFileSystem, false, roots) == |roots| <==> FreeRoots(k, oneFileSystem, roots)
    decreases |roots|
  {
    if roots != [] {
      var k1 := k.(device := DeviceAfter(k, oneFileSystem, roots[0]));
      RootCostIsOneIff(k1, roots[0]);
      RootsCostOneEachIff(k1, oneFileSystem, roots[1..]);
    }
  }

  lemma RootCostIsOneIff(k: Walk, root: Root)
    ensures 1 <= RootCost(k, false, root)
    ensures RootCost(k, false, root) == 1 <==> FreeRoot(k, root)
  {
    var st := RootStat(k, root);
    if st.Some? && RootTarget(k, root, st.value).Some? {
      CostIsZeroIff(k, Entries(k.world, RootTarget(k, root, st.value).value), root.path, 0);
    }
  }

  /** The stat calls of a whole run, roots and device checks included. Whatever fails, they are at most
      the cost of the tree; a run without faults or a stop makes exactly that many. The cost is one call
      per root, its least value, exactly when nothing listed needs a stat: no test that needs one, no
      unknown type, no link to follow, and no directory opened under a device check. */
  lemma StatsAreCounted(k: Walk, oneFileSystem: bool, env: Env, roots: seq<Root>, r: Run)
    ensures var r', all := WalkAll(k, oneFileSystem, env, roots, r).0, Roots(k.world, roots);
            var calls, hits := RootsCost(k, oneFileSystem, false, all), RootsCost(k, oneFileSystem, true, all);
            && r'.statCalls - r.statCalls <= calls && r'.statHits - r.statHits <= hits
            && (Quiet(env, r, r') && !r'.stop ==> r'.statCalls - r.statCalls == calls && r'.statHits - r.statHits == hits)
            && |all| <= calls
            && (calls == |all| <==> FreeRoots(k, oneFileSystem, all))
  {
    RootsCostOneEachIff(k, oneFileSystem, Roots(k.world, roots));
    if roots == [] {
      var k1 := k.(device := DeviceAfter(k, oneFileSystem, k.world.dot));
      RootSpends(k1, env, false, k.world.dot, r);
      RootSpends(k1, env, true, k.world.dot, r);
      assert [k.world.dot][1..] == [];
    } else {
      RootsSpend(k, oneFileSystem, env, false, roots, r);
      RootsSpend(k, oneFileSystem, env, true, roots, r);
    }
  }

  // ----- what a user can tell beforehand -----

  predicate TypesKnown(es: seq<Entry>) { forall e :: e in es ==> e.dtype != DtOther }

  /** No stat test, links not followed, no confinement to one file system, and every `d_type` known. */
  predicate Free(k: Walk) {
    && !k.p.requireStat && !k.follow && k.device.None?
    && forall id :: id in k.world.directories ==> TypesKnown(k.world.directories[id])
  }

  /** The root's own type is known, or no type is asked for. */
  predicate TypedRoot(k: Walk, root: Root) { k.p.o.kind.Some? && root.lstat.Some? ==> root.lstat.value.kind != Any }

  lemma {:induction false} FreeWalkCostsNothing(k: Walk, es: seq<Entry>, path: string, depth: nat)
    requires Free(k) && TypesKnown(es)
    ensures Cost(k, false, es, path, depth) == 0
    decreases k.capacity - |path|, |es|
  {
    if es != [] {
      var child := Join(path, es[0].name);
      FreeWalkCostsNothing(k, es[1..], path, depth);
      if Visible(k, es[0]) && |child| < k.capacity {
        FreeWalkCostsNothing(k, Below(k, es[0], depth + 1), child, depth + 1);
      }
    }
  }

  lemma {:induction false} FreeWalkStatsRootsOnly(k: Walk, roots: seq<Root>)
    requires Free(k) && forall root :: root in roots ==> TypedRoot(k, root)
    ensures FreeRoots(k, false, roots)
    decreases |roots|
  {
    if roots != [] {
      assert k.(device := DeviceAfter(k, false, roots[0])) == k && roots[0] in roots;
      var st := RootStat(k, roots[0]);
      if st.Some? && RootTarget(k, roots[0], st.value).Some? {
        var es := Entries(k.world, RootTarget(k, roots[0], st.value).value);
        FreeWalkCostsNothing(k, es, roots[0].path, 0);
        CostIsZeroIff(k, es, roots[0].path, 0);
      }
      FreeWalkStatsRootsOnly(k, roots[1..]);
    }
  }

  const LONE_DIRECTORY: Entry := RawEntry("d", DtDir, Some(DIRECTORY_STAT), Some(DIRECTORY_STAT), Some(1), Some(1))
  const TREE: World := World(map[0 := [LONE_DIRECTORY]], n => 0, (p, s, f) => true, (s, f) => None,
                             Root("r", Some(DIRECTORY_STAT), Some(DIRECTORY_STAT), Some(0), Some(0)))
  const PLAIN: Walk := Walk(TREE, PredicateFromOptions(EVERYTHING, 0), false, None, PATH_CAPACITY, Sequential)

  lemma TreeCosts(device: Option<int>)
    ensures RootCost(PLAIN.(device := device), false, TREE.dot) == if device.Some? then 2 else 1
  {
    var k := PLAIN.(device := device);
    var e, child := LONE_DIRECTORY, Join("r", "d");
    assert Entries(TREE, 0) == [e] && [e][1..] == [] && !IsHidden(e.name) && e.name !in IGNORED;
    assert Checked(k, e, 1) <==> device.Some?;
    assert Below(k, e, 1) == [];
    assert EntryCost(k, false, e, child, 1) == if device.Some? then 1 else 0;
    assert Cost(k, false, [e], "r", 0) == if device.Some? then 1 else 0;
    assert RootTarget(k, TREE.dot, DIRECTORY_STAT) == Some(0);
    assert CostBelowRoot(k, false, TREE.dot, DIRECTORY_STAT) == Cost(k, false, [e], "r", 0);
  }

  /** With no test at all, links not followed and every type known, a directory under the root is still
      stat'd when the walk is confined to one file system: the run makes two calls, not one. */
  lemma ConfinementCostsAStat(env: Env, r: Run)
    requires NeverFails(env) && (forall n :: !env.signal(n)) && Fresh(r)
    ensures Free(PLAIN) && TypedRoot(PLAIN, TREE.dot)
    ensures WalkAll(PLAIN, false, env, [TREE.dot], r).0.statCalls == r.statCalls + 1
    ensures WalkAll(PLAIN, true, env, [TREE.dot], r).0.statCalls == r.statCalls + 2
  {
    assert TypesKnown([LONE_DIRECTORY]);
    assert [TREE.dot][1..] == [];
    TreeCosts(None);
    TreeCosts(Some(0));
    UndisturbedSpends(PLAIN, false, env, [TREE.dot], r);
    UndisturbedSpends(PLAIN, true, env, [TREE.dot], r);
  }

  lemma UndisturbedSpends(k: Walk, oneFileSystem: bool, env: Env, roots: seq<Root>, r: Run)
    requires WellBuilt(k.p) && k.capacity <= PATH_CAPACITY
    requires NeverFails(env) && (forall n :: !env.signal(n)) && Fresh(r)
    ensures WalkAll(k, oneFileSystem, env, roots, r).0.statCalls
         == r.statCalls + RootsCost(k, oneFileSystem, false, Roots(k.world, roots))
  {
    SoundEnvironmentIsQuiet(k, oneFileSystem, env, roots, r);
    FreshOutcome(k, oneFileSystem, env, roots, r);
    StatsAreCounted(k, oneFileSystem, env, roots, r);
  }
}
