/** Which directories a sequential run opens, read off its log of calls. */
module OpenLaws {
  import opened Basics
  import opened FileSystem
  import opened Paths
  import opened Filter
  import opened Listing
  import opened SequentialWalk
  import opened RunLaws
  import opened StatLaws

  /** The paths of the directories a run tried to open, in order. */
  function OpenAttempts(calls: seq<Call>): seq<string> {
    if calls == [] then [] else (if calls[0].OpenDirectory? then [calls[0].path] else []) + OpenAttempts(calls[1..])
  }

  /** A candidate that is a directory: a root by its own stat, an entry by its `d_type`, or by stat when
      that does not tell or is a link to follow. */
  predicate IsDirectoryCandidate(c: Cand) {
    if c.depth > 0 && (!c.resolved || (c.follow && c.kind == Symlink)) then c.oracle.Some? && c.oracle.value.kind == Directory
    else c.kind == Directory
  }

  /** A directory to be opened: no deeper than the maximum depth, and at depth 0 only if that is not 0;
      below the roots, also not ignored. */
  function Enterable(p: Predicate): Cand -> bool {
    (c: Cand) =>
      && IsDirectoryCandidate(c)
      && (p.o.maxDepth.Some? ==> c.depth <= p.o.maxDepth.value && p.o.maxDepth.value != 0)
      && (c.depth > 0 && p.o.respectIgnoreDefaults ==> c.basename !in IGNORED)
  }

  function ToEnter(k: Walk, cs: seq<Cand>): seq<string> { PathsOf(Keep(Enterable(k.p), cs)) }

  /** From `r` to `r'`, directories were tried among those `expected`, in order; all of them if no fault
      was met and no stop came. */
  ghost predicate Attempts(env: Env, r: Run, r': Run, expected: seq<string>) {
    var tried := OpenAttempts(NewCalls(r, r'));
    && r.calls <= r'.calls && (r.stop ==> r'.stop)
    && Subsequence(tried, expected)
    && (Quiet(env, r, r') && !r'.stop ==> tried == expected)
  }

  // ----- chaining -----

  lemma {:induction false} OpenAttemptsConcat(a: seq<Call>, b: seq<Call>)
    ensures OpenAttempts(a + b) == OpenAttempts(a) + OpenAttempts(b)
  {
    if a == [] {
      assert a + b == b;
    } else {
      OpenAttemptsConcat(a[1..], b);
      assert (a + b)[0] == a[0] && (a + b)[1..] == a[1..] + b;
      Associative(if a[0].OpenDirectory? then [a[0].path] else [], OpenAttempts(a[1..]), OpenAttempts(b));
    }
  }

  lemma ToEnterConcat(k: Walk, a: seq<Cand>, b: seq<Cand>)
    ensures ToEnter(k, a + b) == ToEnter(k, a) + ToEnter(k, b)
  {
    KeepConcat(Enterable(k.p), a, b);
    PathsOfConcat(Keep(Enterable(k.p), a), Keep(Enterable(k.p), b));
  }

  lemma ToEnterOne(k: Walk, c: Cand)
    ensures ToEnter(k, [c]) == if Enterable(k.p)(c) then [c.path] else []
  {
    KeepOne(Enterable(k.p), c);
    assert PathsOf([c]) == [c.path] + PathsOf([c][1..]);
  }

  lemma AttemptsChain(env: Env, r: Run, r1: Run, r2: Run, a: seq<string>, b: seq<string>)
    requires Attempts(env, r, r1, a) && Attempts(env, r1, r2, b)
    ensures Attempts(env, r, r2, a + b)
    ensures Quiet(env, r, r2) <==> Quiet(env, r, r1) && Quiet(env, r1, r2)
  {
    var p, q := OpenAttempts(NewCalls(r, r1)), OpenAttempts(NewCalls(r1, r2));
    NewCallsChain(r, r1, r2);
    OpenAttemptsConcat(NewCalls(r, r1), NewCalls(r1, r2));
    QuietChain(env, r, r1, r2);
    SubsequenceConcat(p, a, q, b);
  }

  lemma AttemptsCut(env: Env, r: Run, r1: Run, a: seq<string>, b: seq<string>)
    requires Attempts(env, r, r1, a) && (r1.stop || !Quiet(env, r, r1))
    ensures Attempts(env, r, r1, a + b)
  {
    var tried := OpenAttempts(NewCalls(r, r1));
    SubsequenceConcat(tried, a, [], b);
    assert tried + [] == tried;
  }

  lemma OneCallAttempts(env: Env, r: Run, r': Run, c: Call)
    requires r'.calls == r.calls + [c] && (r.stop ==> r'.stop)
    ensures Attempts(env, r, r', if c.OpenDirectory? then [c.path] else [])
    ensures Quiet(env, r, r') <==> Sound(env, c, |r.calls|)
  {
    assert NewCalls(r, r') == [c] && r'.calls[|r.calls|] == c;
    assert OpenAttempts([c][1..]) == [];
    if c.OpenDirectory? {
      assert Subsequence([c.path][1..], [c.path][1..]);
    }
  }

  lemma NoCallAttempts(env: Env, r: Run, r': Run)
    requires r'.calls == r.calls && (r.stop ==> r'.stop)
    ensures Attempts(env, r, r', [])
  {
    assert NewCalls(r, r') == [];
  }

  // ----- the parts of a walk -----

  lemma PollAttempts(env: Env, r: Run)
    ensures Attempts(env, r, Poll(env, r), [])
  {
    if r.stop {
      NoCallAttempts(env, r, r);
    } else {
      OneCallAttempts(env, r, Poll(env, r), Signal(env.signal(|r.calls|)));
    }
  }

  lemma NextAttempts(env: Env, path: string, r: Run)
    ensures var (r', more) := Next(env, path, r);
            Attempts(env, r, r', []) && (more || r'.stop || !Quiet(env, r, r'))
  {
    NextIsSilent(env, path, r);
    PollAttempts(env, r);
    var r0 := Poll(env, r);
    if !r0.stop {
      OneCallAttempts(env, r0, Next(env, path, r).0, ReadEntry(path, env.readsEntry(|r0.calls|)));
      AttemptsChain(env, r, r0, Next(env, path, r).0, [], []);
    }
  }

  lemma EmitAttempts(k: Walk, env: Env, c: Cand, r: Run)
    ensures var (r', ok) := EmitIfMatch(k, env, c, r);
            Attempts(env, r, r', []) && (!ok ==> !Quiet(env, r, r'))
  {
    var (r', ok) := EmitIfMatch(k, env, c, r);
    if r'.calls == r.calls {
      NoCallAttempts(env, r, r');
    } else {
      OneCallAttempts(env, r, r', Write(c.path, c.depth, ok));
    }
  }

  lemma OpenSubdirAttempts(k: Walk, env: Env, e: Entry, child: string, depth: nat, r: Run)
    requires IsDirectory(k, e) && ShouldDescend(k, e.name, depth)
    ensures var (r', id) := OpenSubdir(k, env, e, child, r);
            && Attempts(env, r, r', [child])
            && (id.Some? ==> id == Target(k, e, depth)) && (Quiet(env, r, r') ==> id == Target(k, e, depth))
  {
    var id := if k.follow then e.open else e.lopen;
    var didOpen := env.opens(|r.calls|) && id.Some?;
    var r1 := Called(r, OpenDirectory(child, didOpen));
    OneCallAttempts(env, r, r1, OpenDirectory(child, didOpen));
    if didOpen && k.device.Some? {
      var r2 := OpenSubdir(k, env, e, child, r).0;
      OneCallAttempts(env, r1, r2, CheckDevice(child, env.fstats(|r1.calls|) && k.world.device(id.value) == k.device.value));
      AttemptsChain(env, r, r1, r2, [child], []);
      assert [child] + [] == [child];
    } else if !didOpen {
      OneCallAttempts(env, r, OpenSubdir(k, env, e, child, r).0, OpenDirectory(child, didOpen));
    }
  }

  lemma EnterableIffDescended(k: Walk, e: Entry, child: string, depth: nat)
    requires k.rule.Sequential? && depth > 0 && Visible(k, e)
    ensures Enterable(k.p)(EntryCandidate(k, child, depth, e)) <==> IsDirectory(k, e) && ShouldDescend(k, e.name, depth)
  {
  }

  /** An entry that is visited is tried exactly when its candidate is a directory to be opened. */
  lemma AttendedAttempts(k: Walk, env: Env, e: Entry, child: string, depth: nat, r: Run)
    requires k.rule.Sequential? && depth > 0 && Visible(k, e)
    ensures var (r', id) := Attended(k, env, e, child, depth, r);
            && Attempts(env, r, r', ToEnter(k, [EntryCandidate(k, child, depth, e)]))
            && (id.Some? ==> id == Target(k, e, depth)) && (Quiet(env, r, r') ==> id == Target(k, e, depth))
            && (!EmitIfMatch(k, env, EntryCandidate(k, child, depth, e), r).1 ==> !Quiet(env, r, r'))
  {
    var c := EntryCandidate(k, child, depth, e);
    var (r1, ok) := EmitIfMatch(k, env, c, r);
    var enter := IsDirectory(k, e) && ShouldDescend(k, e.name, depth);
    EmitAttempts(k, env, c, r);
    ToEnterOne(k, c);
    EnterableIffDescended(k, e, child, depth);
    if !ok {
      AttemptsCut(env, r, r1, [], ToEnter(k, [c]));
      assert [] + ToEnter(k, [c]) == ToEnter(k, [c]);
    } else {
      var r2 := PostStat(AfterEvaluate(k.world.glob, k.p, c), r1);
      NoCallAttempts(env, r1, r2);
      AttemptsChain(env, r, r1, r2, [], []);
      if enter {
        OpenSubdirAttempts(k, env, e, child, depth, r2);
        AttemptsChain(env, r, r2, OpenSubdir(k, env, e, child, r2).0, [], [child]);
        assert [] + [child] == [child];
      }
    }
  }

  lemma {:induction false} DirectoryAttempts(k: Walk, env: Env, id: nat, path: string, depth: nat, r: Run)
    requires k.rule.Sequential?
    ensures Attempts(env, r, WalkDirectory(k, env, id, path, depth, r).0, ToEnter(k, List(k, Entries(k.world, id), path, depth)))
    decreases k.capacity - |path|, 1, 0
  {
    var expected := ToEnter(k, List(k, Entries(k.world, id), path, depth));
    var ok := env.readerCreates(|r.calls|);
    var r1 := Called(r, CreateReader(path, ok));
    assert [] + expected == expected;
    if ok {
      OneCallAttempts(env, r, r1, CreateReader(path, ok));
      EntriesAttempt(k, env, Entries(k.world, id), path, depth, r1);
      AttemptsChain(env, r, r1, WalkEntries(k, env, Entries(k.world, id), path, depth, r1).0, [], expected);
    } else {
      OneCallAttempts(env, r, Complained(r1, path), CreateReader(path, ok));
      AttemptsCut(env, r, Complained(r1, path), [], expected);
    }
  }

  lemma {:induction false} FollowedAttempts(k: Walk, env: Env, id: nat, path: string, depth: nat, r: Run)
    requires k.rule.Sequential?
    ensures Attempts(env, r, Followed(k, env, path, depth, (r, Some(id))), ToEnter(k, List(k, Entries(k.world, id), path, depth)))
    decreases k.capacity - |path|, 2, 0
  {
    var expected := ToEnter(k, List(k, Entries(k.world, id), path, depth));
    DirectoryAttempts(k, env, id, path, depth, r);
    var r1 := WalkDirectory(k, env, id, path, depth, r).0;
    PollAttempts(env, r1);
    AttemptsChain(env, r, r1, Poll(env, r1), expected, []);
    assert expected + [] == expected;
  }

  lemma {:induction false} EntriesAttempt(k: Walk, env: Env, es: seq<Entry>, path: string, depth: nat, r: Run)
    requires k.rule.Sequential?
    ensures Attempts(env, r, WalkEntries(k, env, es, path, depth, r).0, ToEnter(k, List(k, es, path, depth)))
    decreases k.capacity - |path|, 0, |es|
  {
    var (r0, more) := Next(env, path, r);
    NextAttempts(env, path, r);
    var expected := ToEnter(k, List(k, es, path, depth));
    assert [] + expected == expected;
    if !more {
      AttemptsCut(env, r, r0, [], expected);
    } else if es != [] {
      var (r1, goOn) := WalkEntry(k, env, es[0], path, depth, r0);
      var here, rest := ToEnter(k, ListEntry(k, es[0], path, depth)), ToEnter(k, List(k, es[1..], path, depth));
      assert List(k, es, path, depth) == ListEntry(k, es[0], path, depth) + List(k, es[1..], path, depth);
      ToEnterConcat(k, ListEntry(k, es[0], path, depth), List(k, es[1..], path, depth));
      EntryAttempts(k, env, es[0], path, depth, r0);
      AttemptsChain(env, r, r0, r1, [], here);
      assert [] + here == here;
      if goOn {
        EntriesAttempt(k, env, es[1..], path, depth, r1);
        AttemptsChain(env, r, r1, WalkEntries(k, env, es[1..], path, depth, r1).0, here, rest);
      } else {
        AttemptsCut(env, r, r1, here, rest);
      }
    }
  }

  lemma {:induction false} EntryAttempts(k: Walk, env: Env, e: Entry, path: string, depth: nat, r: Run)
    requires k.rule.Sequential?
    ensures var (r', goOn) := WalkEntry(k, env, e, path, depth, r);
            Attempts(env, r, r', ToEnter(k, ListEntry(k, e, path, depth))) && (goOn || r'.stop || !Quiet(env, r, r'))
    decreases k.capacity - |path|, 0, 0
  {
    var child := Join(path, e.name);
    if Visible(k, e) && |child| < k.capacity {
      VisitAttempts(k, env, e, child, depth + 1, r);
      ToEnterConcat(k, [EntryCandidate(k, child, depth + 1, e)], List(k, Below(k, e, depth + 1), child, depth + 1));
    } else {
      NoCallAttempts(env, r, r);
    }
  }

  lemma {:induction false} VisitAttempts(k: Walk, env: Env, e: Entry, child: string, depth: nat, r: Run)
    requires k.rule.Sequential? && depth > 0 && Visible(k, e)
    ensures var (r', goOn) := VisitAndDescend(k, env, e, child, depth, r);
            && Attempts(env, r, r', ToEnter(k, [EntryCandidate(k, child, depth, e)]) + ToEnter(k, List(k, Below(k, e, depth), child, depth)))
            && (goOn || r'.stop || !Quiet(env, r, r'))
    decreases k.capacity - |child|, 4, 0
  {
    var attended := Attended(k, env, e, child, depth, r);
    AttendedAttempts(k, env, e, child, depth, r);
    BelowAttempts(k, env, e, child, depth, r, attended, ToEnter(k, [EntryCandidate(k, child, depth, e)]));
    VisitHasTwoParts(k, env, e, child, depth, r);
  }

  lemma {:induction false} BelowAttempts(
      k: Walk, env: Env, e: Entry, child: string, depth: nat, r: Run, attended: (Run, Option<nat>), here: seq<string>)
    requires k.rule.Sequential? && Attempts(env, r, attended.0, here)
    requires attended.1.Some? ==> attended.1 == Target(k, e, depth)
    requires Quiet(env, r, attended.0) ==> attended.1 == Target(k, e, depth)
    ensures Attempts(env, r, Followed(k, env, child, depth, attended), here + ToEnter(k, List(k, Below(k, e, depth), child, depth)))
    ensures Quiet(env, r, Followed(k, env, child, depth, attended)) ==> Quiet(env, r, attended.0)
    decreases k.capacity - |child|, 3, 0
  {
    var below := ToEnter(k, List(k, Below(k, e, depth), child, depth));
    if attended.1.Some? {
      FollowedAttempts(k, env, attended.1.value, child, depth, attended.0);
      AttemptsChain(env, r, attended.0, Followed(k, env, child, depth, attended), here, below);
    } else if Quiet(env, r, attended.0) {
      assert Below(k, e, depth) == [] && here + below == here;
    } else {
      AttemptsCut(env, r, attended.0, here, below);
    }
  }

  function BelowRootOpened(k: Walk, root: Root, st: Stat): seq<string> {
    var t := RootTarget(k, root, st);
    if t.Some? then ToEnter(k, List(k, Entries(k.world, t.value), root.path, 0)) else []
  }

  lemma OpenRootAttempts(k: Walk, env: Env, root: Root, st: Stat, r: Run)
    requires k.rule.Sequential? && EntersRoot(k, st)
    ensures Attempts(env, r, OpenRoot(k, env, root, r).0, [root.path] + BelowRootOpened(k, root, st))
  {
    var t := RootTarget(k, root, st);
    var didOpen := env.opens(|r.calls|) && t.Some?;
    var r1 := Called(r, OpenDirectory(root.path, didOpen));
    if didOpen {
      OneCallAttempts(env, r, r1, OpenDirectory(root.path, didOpen));
      DirectoryAttempts(k, env, t.value, root.path, 0, r1);
      AttemptsChain(env, r, r1, OpenRoot(k, env, root, r).0, [root.path], BelowRootOpened(k, root, st));
    } else {
      OneCallAttempts(env, r, Complained(r1, root.path), OpenDirectory(root.path, didOpen));
      if t.Some? {
        AttemptsCut(env, r, Complained(r1, root.path), [root.path], BelowRootOpened(k, root, st));
      } else {
        assert [root.path] + BelowRootOpened(k, root, st) == [root.path];
      }
    }
  }

  lemma RootToEnter(k: Walk, root: Root, st: Stat)
    requires RootStat(k, root) == Some(st) && |root.path| < k.capacity
    ensures ToEnter(k, ListRoot(k, root)) == if EntersRoot(k, st) then [root.path] + BelowRootOpened(k, root, st) else []
  {
    var c, t := RootCandidate(k, root, st), RootTarget(k, root, st);
    var sub := if t.Some? then List(k, Entries(k.world, t.value), root.path, 0) else [];
    ToEnterConcat(k, [c], sub);
    ToEnterOne(k, c);
    assert ToEnter(k, sub) == BelowRootOpened(k, root, st);
  }

  lemma StatedRootAttempts(k: Walk, env: Env, root: Root, st: Stat, r: Run)
    requires k.rule.Sequential? && RootStat(k, root) == Some(st)
    ensures Attempts(env, r, WalkStatedRoot(k, env, root, st, r).0, ToEnter(k, ListRoot(k, root)))
  {
    var fits, expected := |root.path| < k.capacity, ToEnter(k, ListRoot(k, root));
    var r1 := Called(r, CheckLength(root.path, fits));
    if fits {
      var c := RootCandidate(k, root, st);
      OneCallAttempts(env, r, r1, CheckLength(root.path, fits));
      EmitAttempts(k, env, c, r1);
      var (r2, ok) := EmitIfMatch(k, env, c, r1);
      AttemptsChain(env, r, r1, r2, [], []);
      RootToEnter(k, root, st);
      assert [] + expected == expected;
      if !ok {
        AttemptsCut(env, r, r2, [], expected);
      } else if EntersRoot(k, st) {
        OpenRootAttempts(k, env, root, st, r2);
        AttemptsChain(env, r, r2, OpenRoot(k, env, root, r2).0, [], expected);
      }
    } else {
      OneCallAttempts(env, r, Complained(r1, root.path), CheckLength(root.path, fits));
    }
  }

  lemma RootAttempts(k: Walk, env: Env, root: Root, r: Run)
    requires k.rule.Sequential?
    ensures Attempts(env, r, WalkRoot(k, env, root, r).0, ToEnter(k, ListRoot(k, root)))
  {
    var st, expected := RootStat(k, root), ToEnter(k, ListRoot(k, root));
    var r1 := Called(Stated(r, st.Some?), StatRoot(root.path, st.Some?));
    if st.None? {
      OneCallAttempts(env, r, Complained(r1, root.path), StatRoot(root.path, false));
    } else {
      OneCallAttempts(env, r, r1, StatRoot(root.path, true));
      StatedRootAttempts(k, env, root, st.value, r1);
      AttemptsChain(env, r, r1, WalkRoot(k, env, root, r).0, [], expected);
      assert [] + expected == expected;
    }
  }

  lemma {:induction false} RootsAttempt(k: Walk, oneFileSystem: bool, env: Env, roots: seq<Root>, r: Run)
    requires k.rule.Sequential?
    ensures Attempts(env, r, WalkRoots(k, oneFileSystem, env, roots, r).0, ToEnter(k, ListRoots(k, oneFileSystem, roots)))
    decreases |roots|
  {
    var r0, expected := Poll(env, r), ToEnter(k, ListRoots(k, oneFileSystem, roots));
    PollAttempts(env, r);
    assert [] + expected == expected;
    if roots == [] {
      NoCallAttempts(env, r, r);
    } else if r0.stop {
      AttemptsCut(env, r, r0, [], expected);
    } else {
      var k1 := k.(device := DeviceAfter(k, oneFileSystem, roots[0]));
      var r1 := WalkRoot(k1, env, roots[0], r0).0;
      var here, rest := ToEnter(k, ListRoot(k1, roots[0])), ToEnter(k, ListRoots(k1, oneFileSystem, roots[1..]));
      ToEnterConcat(k, ListRoot(k1, roots[0]), ListRoots(k1, oneFileSystem, roots[1..]));
      RootAttempts(k1, env, roots[0], r0);
      RootsAttempt(k1, oneFileSystem, env, roots[1..], r1);
      AttemptsChain(env, r0, r1, WalkRoots(k1, oneFileSystem, env, roots[1..], r1).0, here, rest);
      AttemptsChain(env, r, r0, WalkRoots(k1, oneFileSystem, env, roots[1..], r1).0, [], expected);
    }
  }

  /** The directories a run tries to open are, in order, among the listed ones that are to be opened; a
      run without faults or a stop tries all of them. No directory deeper than the maximum depth is tried. */
  lemma OpenedAreListed(k: Walk, oneFileSystem: bool, env: Env, roots: seq<Root>, r: Run)
    requires k.rule.Sequential? && r.calls == []
    ensures var r', all := WalkAll(k, oneFileSystem, env, roots, r).0, ListRoots(k, oneFileSystem, Roots(k.world, roots));
            && Subsequence(OpenAttempts(r'.calls), ToEnter(k, all))
            && (Quiet(env, r, r') && !r'.stop ==> OpenAttempts(r'.calls) == ToEnter(k, all))
  {
    var r' := WalkAll(k, oneFileSystem, env, roots, r).0;
    if roots == [] {
      var k1 := k.(device := DeviceAfter(k, oneFileSystem, k.world.dot));
      RootAttempts(k1, env, k.world.dot, r);
      assert [k.world.dot][1..] == [] && ListRoots(k1, oneFileSystem, []) == [];
      assert ListRoots(k, oneFileSystem, [k.world.dot]) == ListRoot(k1, k.world.dot);
    } else {
      RootsAttempt(k, oneFileSystem, env, roots, r);
    }
    assert NewCalls(r, r') == r'.calls;
  }
}
