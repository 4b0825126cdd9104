/** Pruning is exact: cutting branches during the walk loses nothing the filter would have kept. */
module Pruning {
  import opened Basics
  import opened FileSystem
  import opened Paths
  import opened Filter
  import opened Listing

  /** The same walk with no maximum depth. */
  function Unlimited(k: Walk): Walk { k.(p := k.p.(o := k.p.o.(maxDepth := None))) }

  /** A test that, like the filter's, passes nothing deeper than `m`. */
  ghost predicate Bounded(f: Cand -> bool, m: Option<nat>) {
    m.Some? ==> forall c :: f(c) ==> c.depth <= m.value
  }

  /** Whatever a walk with a maximum depth declines to enter holds only rejected candidates. */
  lemma {:induction false} TooDeepIsRejected(k: Walk, f: Cand -> bool, m: nat, es: seq<Entry>, path: string, depth: nat)
    requires Bounded(f, Some(m)) && depth >= m
    ensures Keep(f, List(k, es, path, depth)) == []
  {
    forall c | c in List(k, es, path, depth) ensures !f(c) {
      Deeper(k, es, path, depth, c);
    }
    KeepNone(f, List(k, es, path, depth));
  }

  lemma BelowWithoutDepth(k: Walk, u: Walk, e: Entry, depth: nat)
    requires u == Unlimited(k)
    ensures DepthAllows(k, depth) ==> Below(k, e, depth) == Below(u, e, depth)
    ensures !DepthAllows(k, depth) ==> Below(k, e, depth) == []
  {
  }

  /** One entry of the next lemma. */
  lemma DepthPruningStep(k: Walk, u: Walk, f: Cand -> bool, es: seq<Entry>, path: string, depth: nat, child: string)
    requires u == Unlimited(k) && es != [] && child == Join(path, es[0].name)
    requires Keep(f, List(k, es[1..], path, depth)) == Keep(f, List(u, es[1..], path, depth))
    requires Visible(k, es[0]) && |child| < k.capacity ==>
               Keep(f, List(k, Below(k, es[0], depth + 1), child, depth + 1))
               == Keep(f, List(u, Below(u, es[0], depth + 1), child, depth + 1))
    ensures Keep(f, List(k, es, path, depth)) == Keep(f, List(u, es, path, depth))
  {
    if Visible(k, es[0]) && |child| < k.capacity {
      KeepTogether(f, EntryCandidate(k, child, depth + 1, es[0]),
        List(k, Below(k, es[0], depth + 1), child, depth + 1), List(u, Below(u, es[0], depth + 1), child, depth + 1),
        List(k, es[1..], path, depth), List(u, es[1..], path, depth));
    }
  }

  /** Under either descent rule, the candidates the filter keeps are those it keeps of the unlimited listing. */
  lemma {:induction false} DepthPruningKeepsMatches(k: Walk, u: Walk, f: Cand -> bool, es: seq<Entry>, path: string, depth: nat)
    requires Bounded(f, k.p.o.maxDepth) && u == Unlimited(k)
    ensures Keep(f, List(k, es, path, depth)) == Keep(f, List(u, es, path, depth))
    decreases k.capacity - |path|, |es|, 1
  {
    if es != [] {
      var child := Join(path, es[0].name);
      DepthPruningKeepsMatches(k, u, f, es[1..], path, depth);
      if Visible(k, es[0]) && |child| < k.capacity {
        DepthPruningBelow(k, u, f, es[0], child, depth + 1);
      }
      DepthPruningStep(k, u, f, es, path, depth, child);
    }
  }

  lemma {:induction false} DepthPruningBelow(k: Walk, u: Walk, f: Cand -> bool, e: Entry, child: string, depth: nat)
    requires Bounded(f, k.p.o.maxDepth) && u == Unlimited(k)
    ensures Keep(f, List(k, Below(k, e, depth), child, depth)) == Keep(f, List(u, Below(u, e, depth), child, depth))
    decreases k.capacity - |child|
  {
    BelowWithoutDepth(k, u, e, depth);
    if DepthAllows(k, depth) {
      DepthPruningKeepsMatches(k, u, f, Below(u, e, depth), child, depth);
    } else {
      TooDeepIsRejected(u, f, k.p.o.maxDepth.value, Below(u, e, depth), child, depth);
    }
  }

  lemma KeepTogether<T>(f: T -> bool, x: T, a: seq<T>, a': seq<T>, b: seq<T>, b': seq<T>)
    requires Keep(f, a) == Keep(f, a') && Keep(f, b) == Keep(f, b')
    ensures Keep(f, [x] + a + b) == Keep(f, [x] + a' + b')
  {
    SplitKeep(f, [x], a, b);
    SplitKeep(f, [x], a', b');
  }

  lemma SplitKeep<T>(f: T -> bool, a: seq<T>, b: seq<T>, c: seq<T>)
    ensures Keep(f, a + b + c) == Keep(f, a) + Keep(f, b) + Keep(f, c)
  {
    KeepConcat(f, a + b, c);
    KeepConcat(f, a, b);
  }

  lemma DepthPruningOfRoot(k: Walk, root: Root)
    ensures var f := Accepted(k.world.glob, k.p);
            Keep(f, ListRoot(k, root)) == Keep(f, ListRoot(Unlimited(k), root))
  {
    var st := RootStat(k, root);
    if st.Some? && |root.path| < k.capacity {
      var f, u := Accepted(k.world.glob, k.p), Unlimited(k);
      var t := RootTarget(u, root, st.value);
      if t.Some? {
        var head := [RootCandidate(k, root, st.value)];
        var es := Entries(k.world, t.value);
        KeepConcat(f, head, List(u, es, root.path, 0));
        if k.p.o.maxDepth == Some(0) {
          TooDeepIsRejected(u, f, 0, es, root.path, 0);
        } else {
          DepthPruningKeepsMatches(k, u, f, es, root.path, 0);
          KeepConcat(f, head, List(k, es, root.path, 0));
        }
      }
    }
  }

  lemma {:induction false} DepthPruningOfRoots(k: Walk, oneFileSystem: bool, roots: seq<Root>)
    ensures var f := Accepted(k.world.glob, k.p);
            Keep(f, ListRoots(k, oneFileSystem, roots)) == Keep(f, ListRoots(Unlimited(k), oneFileSystem, roots))
    decreases |roots|
  {
    if roots != [] {
      var f, u := Accepted(k.world.glob, k.p), Unlimited(k);
      var device := DeviceAfter(k, oneFileSystem, roots[0]);
      var k1, u1 := k.(device := device), u.(device := device);
      assert Unlimited(k1) == u1;
      DepthPruningOfRoot(k1, roots[0]);
      DepthPruningOfRoots(k1, oneFileSystem, roots[1..]);
      KeepConcat(f, ListRoot(k1, roots[0]), ListRoots(k1, oneFileSystem, roots[1..]));
      KeepConcat(f, ListRoot(u1, roots[0]), ListRoots(u1, oneFileSystem, roots[1..]));
    }
  }

  lemma MaxDepthIsOneConjunct(k: Walk, c: Cand)
    requires k.p.o.maxDepth.Some?
    ensures Satisfies(k.world.glob, k.p, c)
       <==> Satisfies(k.world.glob, Unlimited(k).p, c) && c.depth <= k.p.o.maxDepth.value
  {
    assert KnownFacts(k.p, c) == KnownFacts(Unlimited(k).p, c);
  }

  /** The output with a maximum depth m is the unlimited output restricted to depth at most m,
      for both descent rules, any minimum depth and any roots. */
  lemma MaxDepthIsAFilter(k: Walk, oneFileSystem: bool, roots: seq<Root>)
    requires k.p.o.maxDepth.Some?
    ensures var u := Unlimited(k);
            Matches(k, ListRoots(k, oneFileSystem, roots))
            == Matches(u, Keep(AtMost(k.p.o.maxDepth.value), ListRoots(u, oneFileSystem, roots)))
  {
    var u := Unlimited(k);
    var f, g, h := Accepted(u.world.glob, u.p), AtMost(k.p.o.maxDepth.value), Accepted(k.world.glob, k.p);
    DepthPruningOfRoots(k, oneFileSystem, roots);
    forall c ensures h(c) <==> f(c) && g(c) {
      MaxDepthIsOneConjunct(k, c);
    }
    KeepBoth(f, g, h, ListRoots(u, oneFileSystem, roots));
  }

  /** The two descent rules give the same output, although they enter different directories. */
  lemma {:induction false} DescentRulesAgree(k: Walk, oneFileSystem: bool, roots: seq<Root>)
    ensures Matches(k.(rule := Sequential), ListRoots(k.(rule := Sequential), oneFileSystem, roots))
         == Matches(k.(rule := Parallel), ListRoots(k.(rule := Parallel), oneFileSystem, roots))
  {
    DepthPruningOfRoots(k.(rule := Sequential), oneFileSystem, roots);
    DepthPruningOfRoots(k.(rule := Parallel), oneFileSystem, roots);
    UnlimitedIgnoresRule(Unlimited(k), oneFileSystem, roots);
  }

  lemma {:induction false} UnlimitedIgnoresRule(u: Walk, oneFileSystem: bool, roots: seq<Root>)
    requires u.p.o.maxDepth.None?
    ensures ListRoots(u.(rule := Sequential), oneFileSystem, roots) == ListRoots(u.(rule := Parallel), oneFileSystem, roots)
    decreases |roots|
  {
    if roots != [] {
      var s, p := u.(rule := Sequential), u.(rule := Parallel);
      var device := DeviceAfter(u, oneFileSystem, roots[0]);
      assert device == DeviceAfter(s, oneFileSystem, roots[0]) == DeviceAfter(p, oneFileSystem, roots[0]);
      UnlimitedIgnoresRule(u.(device := device), oneFileSystem, roots[1..]);
      var st := RootStat(u, roots[0]);
      if st.Some? && RootTarget(u, roots[0], st.value).Some? {
        ListIgnoresRule(s.(device := device), p.(device := device),
          Entries(u.world, RootTarget(u, roots[0], st.value).value), roots[0].path, 0);
      }
    }
  }

  lemma BelowIgnoresRule(s: Walk, p: Walk, e: Entry, depth: nat)
    requires s.p.o.maxDepth.None? && s.rule == Sequential && p == s.(rule := Parallel)
    ensures Below(s, e, depth) == Below(p, e, depth)
  {
  }

  lemma {:induction false} ListIgnoresRule(s: Walk, p: Walk, es: seq<Entry>, path: string, depth: nat)
    requires s.p.o.maxDepth.None? && s.rule == Sequential && p == s.(rule := Parallel)
    ensures List(s, es, path, depth) == List(p, es, path, depth)
    decreases s.capacity - |path|, |es|
  {
    if es != [] {
      var child, rest := Join(path, es[0].name), es[1..];
      ListIgnoresRule(s, p, rest, path, depth);
      if Visible(s, es[0]) && |child| < s.capacity {
        var below := Below(s, es[0], depth + 1);
        BelowIgnoresRule(s, p, es[0], depth + 1);
        ListIgnoresRule(s, p, below, child, depth + 1);
      }
    }
  }

  // ----- the path-length cut-off -----

  lemma BelowIgnoresCapacity(k: Walk, small: Walk, e: Entry, depth: nat)
    requires small == k.(capacity := small.capacity)
    ensures Below(small, e, depth) == Below(k, e, depth)
  {
  }

  /** Dropping the entries that do not fit a smaller buffer drops exactly the candidates whose
      own path does not fit: nothing below a dropped directory could have fitted. */
  lemma {:induction false} CutoffKeepsWhatFits(k: Walk, small: Walk, es: seq<Entry>, path: string, depth: nat)
    requires small == k.(capacity := small.capacity) && small.capacity <= k.capacity
    ensures List(small, es, path, depth) == Keep(ShorterThan(small.capacity), List(k, es, path, depth))
    decreases k.capacity - |path|, |es|
  {
    if es != [] {
      var f := ShorterThan(small.capacity);
      var child, rest := Join(path, es[0].name), es[1..];
      CutoffKeepsWhatFits(k, small, rest, path, depth);
      if Visible(k, es[0]) && |child| < k.capacity {
        var below := Below(k, es[0], depth + 1);
        BelowIgnoresCapacity(k, small, es[0], depth + 1);
        var head := EntryCandidate(k, child, depth + 1, es[0]);
        var sub := List(k, below, child, depth + 1);
        SplitKeep(f, [head], sub, List(k, rest, path, depth));
        KeepOne(f, head);
        if |child| < small.capacity {
          CutoffKeepsWhatFits(k, small, below, child, depth + 1);
        } else {
          forall c | c in sub ensures !f(c) {
            Deeper(k, below, child, depth + 1, c);
          }
          KeepNone(f, sub);
        }
      }
    }
  }

  lemma CutoffOfRoot(k: Walk, capacity: nat, root: Root)
    requires capacity <= k.capacity
    ensures ListRoot(k.(capacity := capacity), root) == Keep(ShorterThan(capacity), ListRoot(k, root))
  {
    var st := RootStat(k, root);
    if st.Some? && |root.path| < k.capacity {
      var f, t := ShorterThan(capacity), RootTarget(k, root, st.value);
      var head := [RootCandidate(k, root, st.value)];
      var sub := if t.Some? then List(k, Entries(k.world, t.value), root.path, 0) else [];
      KeepConcat(f, head, sub);
      KeepOne(f, head[0]);
      if t.Some? {
        CutoffKeepsWhatFits(k, k.(capacity := capacity), Entries(k.world, t.value), root.path, 0);
        if |root.path| >= capacity {
          forall c | c in sub ensures !f(c) {
            Deeper(k, Entries(k.world, t.value), root.path, 0, c);
          }
          KeepNone(f, sub);
        }
      }
    }
  }

  /** A walk with the program's buffer lists exactly what any larger buffer would list, less the
      paths of more than 4095 bytes. */
  lemma {:induction false} CutoffIsExact(k: Walk, capacity: nat, oneFileSystem: bool, roots: seq<Root>)
    requires capacity <= k.capacity
    ensures ListRoots(k.(capacity := capacity), oneFileSystem, roots)
         == Keep(ShorterThan(capacity), ListRoots(k, oneFileSystem, roots))
    decreases |roots|
  {
    if roots != [] {
      var k1 := k.(device := DeviceAfter(k, oneFileSystem, roots[0]));
      var small := k.(capacity := capacity);
      assert k1.(capacity := capacity) == small.(device := DeviceAfter(small, oneFileSystem, roots[0]));
      CutoffOfRoot(k1, capacity, roots[0]);
      CutoffIsExact(k1, capacity, oneFileSystem, roots[1..]);
      KeepConcat(ShorterThan(capacity), ListRoot(k1, roots[0]), ListRoots(k1, oneFileSystem, roots[1..]));
    }
  }
}
