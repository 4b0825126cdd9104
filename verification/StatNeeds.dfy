/** Which entries a run stats: those whose type is open, and those that everything but the tests of size,
    times and mode accepts. */
module StatNeeds {
  import opened Basics
  import opened FileSystem
  import opened Paths
  import opened Filter
  import opened FilterLaws
  import opened Listing
  import opened SequentialWalk
  import opened RunLaws
  import opened StatLaws
  import opened StatCost

  /** The type is unknown, or a link that is to be followed. */
  predicate TypeIsOpen(c: Cand) { !c.resolved || (c.follow && c.kind == Symlink) }

  /** A stat test is active, the facts are not there, and every other test holds. */
  predicate AllButStatHolds(k: Walk, c: Cand) {
    k.p.requireStat && !c.populated && Satisfies(k.world.glob, WithoutStatTests(k.p), c)
  }

  function NeedsAnyStat(k: Walk): Cand -> bool { (c: Cand) => TypeIsOpen(c) || AllButStatHolds(k, c) }

  function PassesAllElse(k: Walk): Cand -> bool { (c: Cand) => AllButStatHolds(k, c) }

  function LooksLikeDirectory(): Cand -> bool {
    (c: Cand) => if TypeIsOpen(c) then c.oracle.Some? && c.oracle.value.kind == Directory else c.kind == Directory
  }

  /** Entries that may be opened under a device check; none when the walk is not confined. */
  function CheckedAtMost(k: Walk, cs: seq<Cand>): nat { if k.device.None? then 0 else |Keep(LooksLikeDirectory(), cs)| }

  lemma EntryCostBound(k: Walk, e: Entry, child: string, depth: nat)
    ensures var c := EntryCandidate(k, child, depth, e);
            EntryCost(k, false, e, child, depth) <= (if NeedsAnyStat(k)(c) then 2 else 0) + CheckedAtMost(k, [c])
  {
    var c := EntryCandidate(k, child, depth, e);
    StatIsLastResort(k.world.glob, k.p, c);
    FstatatCost(k, e, child, depth);
    KeepOne(LooksLikeDirectory(), c);
  }

  lemma KeepCounts<T>(f: T -> bool, a: T, b: seq<T>, c: seq<T>)
    ensures |Keep(f, [a] + b + c)| == (if f(a) then 1 else 0) + |Keep(f, b)| + |Keep(f, c)|
  {
    KeepConcat(f, [a], b);
    KeepConcat(f, [a] + b, c);
    KeepOne(f, a);
  }

  /** The stat calls a tree costs: at most two for every listed entry whose type is open or which all but
      the stat tests accept, and one for every directory of a confined walk. */
  lemma {:induction false} CostIsBounded(k: Walk, es: seq<Entry>, path: string, depth: nat)
    ensures var cs := List(k, es, path, depth);
            Cost(k, false, es, path, depth) <= 2 * |Keep(NeedsAnyStat(k), cs)| + CheckedAtMost(k, cs)
    decreases k.capacity - |path|, |es|
  {
    if es != [] {
      var child := Join(path, es[0].name);
      CostIsBounded(k, es[1..], path, depth);
      if Visible(k, es[0]) && |child| < k.capacity {
        var below := List(k, Below(k, es[0], depth + 1), child, depth + 1);
        var here, rest := EntryCandidate(k, child, depth + 1, es[0]), List(k, es[1..], path, depth);
        CostIsBounded(k, Below(k, es[0], depth + 1), child, depth + 1);
        EntryCostBound(k, es[0], child, depth + 1);
        KeepCounts(NeedsAnyStat(k), here, below, rest);
        KeepCounts(LooksLikeDirectory(), here, below, rest);
        KeepOne(LooksLikeDirectory(), here);
      }
    }
  }

  // ----- the exact number when every type is known -----

  /** Links not followed, no confinement, and every `d_type` known. */
  predicate TypesAreKnown(k: Walk) {
    && !k.follow && k.device.None?
    && forall id :: id in k.world.directories ==> TypesKnown(k.world.directories[id])
  }

  lemma PlainEntryCost(k: Walk, e: Entry, child: string, depth: nat)
    requires TypesAreKnown(k) && e.dtype != DtOther
    ensures EntryCost(k, false, e, child, depth) == if PassesAllElse(k)(EntryCandidate(k, child, depth, e)) then 1 else 0
  {
    StatIsLastResort(k.world.glob, k.p, EntryCandidate(k, child, depth, e));
  }

  /** One call for every listed entry that all but the stat tests accept. */
  lemma {:induction false} PlainCost(k: Walk, es: seq<Entry>, path: string, depth: nat)
    requires TypesAreKnown(k) && TypesKnown(es)
    ensures Cost(k, false, es, path, depth) == |Keep(PassesAllElse(k), List(k, es, path, depth))|
    decreases k.capacity - |path|, |es|
  {
    if es != [] {
      var child := Join(path, es[0].name);
      assert es[0] in es && forall e :: e in es[1..] ==> e in es;
      PlainCost(k, es[1..], path, depth);
      if Visible(k, es[0]) && |child| < k.capacity {
        PlainCost(k, Below(k, es[0], depth + 1), child, depth + 1);
        PlainEntryCost(k, es[0], child, depth + 1);
        KeepCounts(PassesAllElse(k), EntryCandidate(k, child, depth + 1, es[0]),
                   List(k, Below(k, es[0], depth + 1), child, depth + 1), List(k, es[1..], path, depth));
      }
    }
  }

  lemma PlainRootCost(k: Walk, root: Root)
    requires TypesAreKnown(k) && TypedRoot(k, root)
    ensures RootCost(k, false, root) == 1 + |Keep(PassesAllElse(k), ListRoot(k, root))|
  {
    var st := RootStat(k, root);
    if st.Some? && |root.path| < k.capacity {
      var c, t := RootCandidate(k, root, st.value), RootTarget(k, root, st.value);
      var sub := if t.Some? then List(k, Entries(k.world, t.value), root.path, 0) else [];
      KeepCounts(PassesAllElse(k), c, sub, []);
      assert [c] + sub + [] == [c] + sub;
      if t.Some? {
        PlainCost(k, Entries(k.world, t.value), root.path, 0);
      }
    }
  }

  lemma {:induction false} PlainRootsCost(k: Walk, roots: seq<Root>)
    requires TypesAreKnown(k) && forall root :: root in roots ==> TypedRoot(k, root)
    ensures RootsCost(k, false, false, roots) == |roots| + |Keep(PassesAllElse(k), ListRoots(k, false, roots))|
    decreases |roots|
  {
    if roots != [] {
      assert k.(device := DeviceAfter(k, false, roots[0])) == k && roots[0] in roots;
      PlainRootCost(k, roots[0]);
      PlainRootsCost(k, roots[1..]);
      KeepConcat(PassesAllElse(k), ListRoot(k, roots[0]), ListRoots(k, false, roots[1..]));
    }
  }

  /** Where every type is known, links are not followed and the walk is not confined: a run makes at most
      one stat call per root and one per listed entry that everything but the stat tests accepts, whatever
      fails; and a run without faults or a stop makes exactly those. */
  lemma StatsAreForMatches(k: Walk, env: Env, roots: seq<Root>, r: Run)
    requires TypesAreKnown(k) && forall root :: root in Roots(k.world, roots) ==> TypedRoot(k, root)
    ensures var r', all := WalkAll(k, false, env, roots, r).0, Roots(k.world, roots);
            var calls := |all| + |Keep(PassesAllElse(k), ListRoots(k, false, all))|;
            && r'.statCalls <= r.statCalls + calls
            && (Quiet(env, r, r') && !r'.stop ==> r'.statCalls == r.statCalls + calls)
  {
    StatsAreCounted(k, false, env, roots, r);
    PlainRootsCost(k, Roots(k.world, roots));
  }
}
