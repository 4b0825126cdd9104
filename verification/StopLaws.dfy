/** How soon a sequential run stops once the signal is raised, and the order of its calls. Both are read
    off the log of calls, whatever else fails. */
module StopLaws {
  import opened Basics
  import opened FileSystem
  import opened Paths
  import opened Filter
  import opened Listing
  import opened SequentialWalk
  import opened RunLaws
  import opened ExitStatus

  // ----- after the signal -----

  /** The signal is up from call number `m` on. */
  ghost predicate Raised(env: Env, m: nat) { forall n :: n >= m ==> env.signal(n) }

  ghost predicate NoLateRead(m: nat, calls: seq<Call>) { forall n :: m < n < |calls| ==> !calls[n].ReadEntry? }

  ghost predicate NoLateWrite(m: nat, calls: seq<Call>) { forall n :: m < n < |calls| ==> !calls[n].Write? }

  ghost predicate OneLateWrite(m: nat, calls: seq<Call>) {
    forall i, j :: m < i < j < |calls| ==> !(calls[i].Write? && calls[j].Write?)
  }

  /** At most six calls are made from the signal on, none of them reads an entry and at most one writes;
      a run that has not noticed yet has made `slack` at most. */
  ghost predicate Obeys(m: nat, slack: nat, r: Run) {
    && |r.calls| <= m + 6 && (!r.stop ==> |r.calls| <= m + slack)
    && NoLateRead(m, r.calls) && OneLateWrite(m, r.calls)
  }

  lemma CallObeys(m: nat, slack: nat, r: Run, r': Run, c: Call)
    requires Obeys(m, slack, r) && !r.stop && slack < 6
    requires r'.calls == r.calls + [c] && r'.stop == r.stop
    requires !c.ReadEntry? || slack == 0
    requires c.Write? ==> NoLateWrite(m, r.calls)
    ensures Obeys(m, slack + 1, r')
    ensures !c.Write? && NoLateWrite(m, r.calls) ==> NoLateWrite(m, r'.calls)
  {
    assert forall n :: 0 <= n < |r.calls| ==> r'.calls[n] == r.calls[n];
  }

  lemma PollObeys(env: Env, m: nat, r: Run)
    requires Raised(env, m) && Obeys(m, 5, r)
    ensures Obeys(m, 0, Poll(env, r))
  {
    var r' := Poll(env, r);
    assert forall n :: 0 <= n < |r.calls| ==> r'.calls[n] == r.calls[n];
  }

  lemma NextObeys(env: Env, m: nat, path: string, r: Run)
    requires Raised(env, m) && Obeys(m, 5, r)
    ensures var (r', more) := Next(env, path, r); Obeys(m, 1, r') && (more ==> !r'.stop)
  {
    PollObeys(env, m, r);
    var r0 := Poll(env, r);
    if !r0.stop {
      CallObeys(m, 0, r0, Next(env, path, r).0, ReadEntry(path, env.readsEntry(|r0.calls|)));
    }
  }

  lemma EmitObeys(k: Walk, env: Env, m: nat, slack: nat, c: Cand, r: Run)
    requires Obeys(m, slack, r) && !r.stop && slack < 6 && NoLateWrite(m, r.calls)
    ensures var r' := EmitIfMatch(k, env, c, r).0; Obeys(m, slack + 1, r') && !r'.stop
  {
    var (r', ok) := EmitIfMatch(k, env, c, r);
    if r'.calls != r.calls {
      CallObeys(m, slack, r, r', Write(c.path, c.depth, ok));
    }
  }

  lemma OpenSubdirObeys(k: Walk, env: Env, m: nat, e: Entry, child: string, r: Run)
    requires Obeys(m, 2, r) && !r.stop
    ensures var r' := OpenSubdir(k, env, e, child, r).0; Obeys(m, 4, r') && !r'.stop
  {
    var id := if k.follow then e.open else e.lopen;
    var didOpen := env.opens(|r.calls|) && id.Some?;
    var r1 := Called(r, OpenDirectory(child, didOpen));
    CallObeys(m, 2, r, r1, OpenDirectory(child, didOpen));
    if didOpen && k.device.Some? {
      var answered := env.fstats(|r1.calls|);
      CallObeys(m, 3, r1, OpenSubdir(k, env, e, child, r).0,
                CheckDevice(child, answered && k.world.device(id.value) == k.device.value));
    }
  }

  lemma {:induction false} DirectoryObeys(k: Walk, env: Env, m: nat, id: nat, path: string, depth: nat, r: Run)
    requires Raised(env, m) && Obeys(m, 4, r) && !r.stop
    ensures Obeys(m, 5, WalkDirectory(k, env, id, path, depth, r).0)
    decreases k.capacity - |path|, |Entries(k.world, id)| + 1
  {
    var ok := env.readerCreates(|r.calls|);
    var r1 := Called(r, CreateReader(path, ok));
    CallObeys(m, 4, r, r1, CreateReader(path, ok));
    if ok {
      EntriesObey(k, env, m, Entries(k.world, id), path, depth, r1);
    }
  }

  lemma {:induction false} EntriesObey(k: Walk, env: Env, m: nat, es: seq<Entry>, path: string, depth: nat, r: Run)
    requires Raised(env, m) && Obeys(m, 5, r)
    ensures Obeys(m, 5, WalkEntries(k, env, es, path, depth, r).0)
    decreases k.capacity - |path|, |es|
  {
    var (r0, more) := Next(env, path, r);
    NextObeys(env, m, path, r);
    if more && es != [] {
      var (r1, goOn) := WalkEntry(k, env, es[0], path, depth, r0);
      EntryObeys(k, env, m, es[0], path, depth, r0);
      if goOn {
        EntriesObey(k, env, m, es[1..], path, depth, r1);
      }
    }
  }

  lemma {:induction false} EntryObeys(k: Walk, env: Env, m: nat, e: Entry, path: string, depth: nat, r: Run)
    requires Raised(env, m) && Obeys(m, 1, r) && !r.stop
    ensures Obeys(m, 5, WalkEntry(k, env, e, path, depth, r).0)
    decreases k.capacity - |path|, 0
  {
    var child := Join(path, e.name);
    if Visible(k, e) && |child| < k.capacity {
      var c := EntryCandidate(k, child, depth + 1, e);
      var (r1, ok) := EmitIfMatch(k, env, c, r);
      EmitObeys(k, env, m, 1, c, r);
      if ok {
        DescentObeys(k, env, m, e, child, depth + 1, PostStat(AfterEvaluate(k.world.glob, k.p, c), r1));
      }
    }
  }

  lemma {:induction false} DescentObeys(k: Walk, env: Env, m: nat, e: Entry, child: string, depth: nat, r: Run)
    requires Raised(env, m) && Obeys(m, 2, r) && !r.stop
    ensures Obeys(m, 5, Descend(k, env, e, child, depth, r).0)
    decreases k.capacity - |child|
  {
    if IsDirectory(k, e) && ShouldDescend(k, e.name, depth) {
      var (r1, id) := OpenSubdir(k, env, e, child, r);
      OpenSubdirObeys(k, env, m, e, child, r);
      if id.Some? {
        DirectoryObeys(k, env, m, id.value, child, depth, r1);
        PollObeys(env, m, WalkDirectory(k, env, id.value, child, depth, r1).0);
      }
    }
  }

  lemma OpenRootObeys(k: Walk, env: Env, m: nat, root: Root, r: Run)
    requires Raised(env, m) && Obeys(m, 3, r) && !r.stop
    ensures Obeys(m, 5, OpenRoot(k, env, root, r).0)
  {
    var id := if k.follow then root.open else root.lopen;
    var didOpen := env.opens(|r.calls|) && id.Some?;
    var r1 := Called(r, OpenDirectory(root.path, didOpen));
    CallObeys(m, 3, r, r1, OpenDirectory(root.path, didOpen));
    if didOpen {
      DirectoryObeys(k, env, m, id.value, root.path, 0, r1);
    }
  }

  lemma RootObeys(k: Walk, env: Env, m: nat, root: Root, r: Run)
    requires Raised(env, m) && Obeys(m, 0, r) && !r.stop
    ensures Obeys(m, 5, WalkRoot(k, env, root, r).0)
  {
    var st, fits := RootStat(k, root), |root.path| < k.capacity;
    var r1 := Called(Stated(r, st.Some?), StatRoot(root.path, st.Some?));
    CallObeys(m, 0, r, r1, StatRoot(root.path, st.Some?));
    if st.Some? {
      var r2 := Called(r1, CheckLength(root.path, fits));
      CallObeys(m, 1, r1, r2, CheckLength(root.path, fits));
      if fits {
        var c := RootCandidate(k, root, st.value);
        EmitObeys(k, env, m, 2, c, r2);
        var (r3, ok) := EmitIfMatch(k, env, c, r2);
        if ok && EntersRoot(k, st.value) {
          OpenRootObeys(k, env, m, root, r3);
        }
      }
    }
  }

  lemma {:induction false} RootsObey(k: Walk, oneFileSystem: bool, env: Env, m: nat, roots: seq<Root>, r: Run)
    requires Raised(env, m) && Obeys(m, 5, r)
    ensures Obeys(m, 5, WalkRoots(k, oneFileSystem, env, roots, r).0)
    decreases |roots|
  {
    var r0 := Poll(env, r);
    PollObeys(env, m, r);
    if roots != [] && !r0.stop {
      var k1 := k.(device := DeviceAfter(k, oneFileSystem, roots[0]));
      RootObeys(k1, env, m, roots[0], r0);
      RootsObey(k1, oneFileSystem, env, m, roots[1..], WalkRoot(k1, env, roots[0], r0).0);
    }
  }

  /** A stop is heeded at once: from the call at which the signal is first up, a run makes at most six
      calls more. None of them reads an entry, and at most one of them writes a record. */
  lemma StopIsHeeded(k: Walk, oneFileSystem: bool, env: Env, roots: seq<Root>, r: Run, m: nat)
    requires Sticky(env) && env.signal(m) && Fresh(r)
    ensures var calls := WalkAll(k, oneFileSystem, env, roots, r).0.calls;
            && |calls| <= m + 6
            && (forall n :: m < n < |calls| ==> !calls[n].ReadEntry?)
            && (forall i, j :: m < i < j < |calls| ==> !(calls[i].Write? && calls[j].Write?))
  {
    if roots == [] {
      RootObeys(k.(device := DeviceAfter(k, oneFileSystem, k.world.dot)), env, m, k.world.dot, r);
    } else {
      RootsObey(k, oneFileSystem, env, m, roots, r);
    }
  }

  // ----- the order of calls -----

  /** Call number `n` follows up the calls before it: the paths stat'd at first are among `names`, and
      their length is checked right after; a device is checked right after its directory was opened, a
      reader is created right after that, and entries are read from readers that were created; all under
      one and the same path. */
  ghost predicate FollowsUp(names: seq<string>, calls: seq<Call>, n: nat)
    requires n < |calls|
  {
    match calls[n]
    case StatRoot(path, _) => path in names
    case CheckLength(path, _) => n > 0 && calls[n - 1] == StatRoot(path, true)
    case CheckDevice(path, _) => n > 0 && calls[n - 1] == OpenDirectory(path, true)
    case CreateReader(path, _) => n > 0 && (calls[n - 1] == OpenDirectory(path, true) || calls[n - 1] == CheckDevice(path, true))
    case ReadEntry(path, _) => CreateReader(path, true) in calls[..n]
    case _ => true
  }

  ghost predicate Orderly(names: seq<string>, calls: seq<Call>) { forall n :: 0 <= n < |calls| ==> FollowsUp(names, calls, n) }

  /** The log ends with a directory that was opened, and checked if need be. */
  predicate JustOpened(calls: seq<Call>, path: string) {
    calls != [] && (calls[|calls| - 1] == OpenDirectory(path, true) || calls[|calls| - 1] == CheckDevice(path, true))
  }

  lemma CallIsOrderly(names: seq<string>, calls: seq<Call>, c: Call)
    requires Orderly(names, calls) && FollowsUp(names, calls + [c], |calls|)
    ensures Orderly(names, calls + [c])
  {
    forall n | 0 <= n < |calls| ensures FollowsUp(names, calls + [c], n) {
      assert FollowsUp(names, calls, n);
      assert (calls + [c])[..n] == calls[..n];
    }
  }

  lemma PollIsOrderly(names: seq<string>, env: Env, r: Run)
    requires Orderly(names, r.calls)
    ensures Orderly(names, Poll(env, r).calls) && r.calls <= Poll(env, r).calls
  {
    CallIsOrderly(names, r.calls, Signal(env.signal(|r.calls|)));
  }

  lemma NextIsOrderly(names: seq<string>, env: Env, path: string, r: Run)
    requires Orderly(names, r.calls) && CreateReader(path, true) in r.calls
    ensures var r' := Next(env, path, r).0; Orderly(names, r'.calls) && r.calls <= r'.calls
  {
    PollIsOrderly(names, env, r);
    var r0 := Poll(env, r);
    var c := ReadEntry(path, env.readsEntry(|r0.calls|));
    assert (r0.calls + [c])[..|r0.calls|] == r0.calls;
    assert forall x :: x in r.calls ==> x in r0.calls;
    CallIsOrderly(names, r0.calls, c);
  }

  lemma EmitIsOrderly(names: seq<string>, k: Walk, env: Env, c: Cand, r: Run)
    requires Orderly(names, r.calls)
    ensures var r' := EmitIfMatch(k, env, c, r).0; Orderly(names, r'.calls) && r.calls <= r'.calls
  {
    CallIsOrderly(names, r.calls, Write(c.path, c.depth, EmitIfMatch(k, env, c, r).1));
  }

  lemma OpenSubdirIsOrderly(names: seq<string>, k: Walk, env: Env, e: Entry, child: string, r: Run)
    requires Orderly(names, r.calls)
    ensures var (r', id) := OpenSubdir(k, env, e, child, r);
            Orderly(names, r'.calls) && r.calls <= r'.calls && (id.Some? ==> JustOpened(r'.calls, child))
  {
    var id := if k.follow then e.open else e.lopen;
    var didOpen := env.opens(|r.calls|) && id.Some?;
    var r1 := Called(r, OpenDirectory(child, didOpen));
    CallIsOrderly(names, r.calls, OpenDirectory(child, didOpen));
    if didOpen && k.device.Some? {
      var same := env.fstats(|r1.calls|) && k.world.device(id.value) == k.device.value;
      CallIsOrderly(names, r1.calls, CheckDevice(child, same));
    }
  }

  lemma {:induction false} DirectoryIsOrderly(names: seq<string>, k: Walk, env: Env, id: nat, path: string, depth: nat, r: Run)
    requires Orderly(names, r.calls) && JustOpened(r.calls, path)
    ensures var r' := WalkDirectory(k, env, id, path, depth, r).0; Orderly(names, r'.calls) && r.calls <= r'.calls
    decreases k.capacity - |path|, |Entries(k.world, id)| + 1
  {
    var ok := env.readerCreates(|r.calls|);
    var r1 := Called(r, CreateReader(path, ok));
    CallIsOrderly(names, r.calls, CreateReader(path, ok));
    if ok {
      EntriesAreOrderly(names, k, env, Entries(k.world, id), path, depth, r1);
    }
  }

  lemma {:induction false} EntriesAreOrderly(names: seq<string>, k: Walk, env: Env, es: seq<Entry>, path: string, depth: nat, r: Run)
    requires Orderly(names, r.calls) && CreateReader(path, true) in r.calls
    ensures var r' := WalkEntries(k, env, es, path, depth, r).0; Orderly(names, r'.calls) && r.calls <= r'.calls
    decreases k.capacity - |path|, |es|
  {
    var (r0, more) := Next(env, path, r);
    NextIsOrderly(names, env, path, r);
    if more && es != [] {
      var (r1, goOn) := WalkEntry(k, env, es[0], path, depth, r0);
      EntryIsOrderly(names, k, env, es[0], path, depth, r0);
      if goOn {
        EntriesAreOrderly(names, k, env, es[1..], path, depth, r1);
      }
    }
  }

  lemma {:induction false} EntryIsOrderly(names: seq<string>, k: Walk, env: Env, e: Entry, path: string, depth: nat, r: Run)
    requires Orderly(names, r.calls)
    ensures var r' := WalkEntry(k, env, e, path, depth, r).0; Orderly(names, r'.calls) && r.calls <= r'.calls
    decreases k.capacity - |path|, 0
  {
    var child := Join(path, e.name);
    if Visible(k, e) && |child| < k.capacity {
      var c := EntryCandidate(k, child, depth + 1, e);
      EmitIsOrderly(names, k, env, c, r);
      var (r1, ok) := EmitIfMatch(k, env, c, r);
      if ok {
        DescentIsOrderly(names, k, env, e, child, depth + 1, PostStat(AfterEvaluate(k.world.glob, k.p, c), r1));
      }
    }
  }

  lemma {:induction false} DescentIsOrderly(names: seq<string>, k: Walk, env: Env, e: Entry, child: string, depth: nat, r: Run)
    requires Orderly(names, r.calls)
    ensures var r' := Descend(k, env, e, child, depth, r).0; Orderly(names, r'.calls) && r.calls <= r'.calls
    decreases k.capacity - |child|
  {
    if IsDirectory(k, e) && ShouldDescend(k, e.name, depth) {
      var (r1, id) := OpenSubdir(k, env, e, child, r);
      OpenSubdirIsOrderly(names, k, env, e, child, r);
      if id.Some? {
        DirectoryIsOrderly(names, k, env, id.value, child, depth, r1);
        PollIsOrderly(names, env, WalkDirectory(k, env, id.value, child, depth, r1).0);
      }
    }
  }

  lemma RootIsOrderly(names: seq<string>, k: Walk, env: Env, root: Root, r: Run)
    requires Orderly(names, r.calls) && root.path in names
    ensures Orderly(names, WalkRoot(k, env, root, r).0.calls)
  {
    var st, fits := RootStat(k, root), |root.path| < k.capacity;
    var r1 := Called(Stated(r, st.Some?), StatRoot(root.path, st.Some?));
    CallIsOrderly(names, r.calls, StatRoot(root.path, st.Some?));
    if st.Some? {
      CallIsOrderly(names, r1.calls, CheckLength(root.path, fits));
      if fits {
        StatedRootIsOrderly(names, k, env, root, st.value, Called(r1, CheckLength(root.path, fits)));
      }
    }
  }

  lemma StatedRootIsOrderly(names: seq<string>, k: Walk, env: Env, root: Root, st: Stat, r: Run)
    requires Orderly(names, r.calls)
    ensures var (r1, ok) := EmitIfMatch(k, env, RootCandidate(k, root, st), r);
            Orderly(names, r1.calls) && Orderly(names, OpenRoot(k, env, root, r1).0.calls)
  {
    EmitIsOrderly(names, k, env, RootCandidate(k, root, st), r);
    var r1 := EmitIfMatch(k, env, RootCandidate(k, root, st), r).0;
    var id := if k.follow then root.open else root.lopen;
    var didOpen := env.opens(|r1.calls|) && id.Some?;
    CallIsOrderly(names, r1.calls, OpenDirectory(root.path, didOpen));
    if didOpen {
      DirectoryIsOrderly(names, k, env, id.value, root.path, 0, Called(r1, OpenDirectory(root.path, didOpen)));
    }
  }

  lemma {:induction false} RootsAreOrderly(names: seq<string>, k: Walk, oneFileSystem: bool, env: Env, roots: seq<Root>, r: Run)
    requires Orderly(names, r.calls) && forall root :: root in roots ==> root.path in names
    ensures Orderly(names, WalkRoots(k, oneFileSystem, env, roots, r).0.calls)
    decreases |roots|
  {
    var r0 := Poll(env, r);
    PollIsOrderly(names, env, r);
    if roots != [] && !r0.stop {
      var k1 := k.(device := DeviceAfter(k, oneFileSystem, roots[0]));
      assert roots[0] in roots && forall root :: root in roots[1..] ==> root in roots;
      RootIsOrderly(names, k1, env, roots[0], r0);
      RootsAreOrderly(names, k1, oneFileSystem, env, roots[1..], WalkRoot(k1, env, roots[0], r0).0);
    }
  }

  function RootPaths(roots: seq<Root>): seq<string> { if roots == [] then [] else [roots[0].path] + RootPaths(roots[1..]) }

  lemma {:induction false} RootPathsAreThere(roots: seq<Root>)
    ensures forall root :: root in roots ==> root.path in RootPaths(roots)
  {
    if roots != [] {
      RootPathsAreThere(roots[1..]);
      assert forall root :: root in roots ==> root == roots[0] || root in roots[1..];
    }
  }

  /** In every run, each call follows up the ones before it, and the first stats are of the roots. */
  lemma CallsAreOrderly(k: Walk, oneFileSystem: bool, env: Env, roots: seq<Root>, r: Run)
    requires Fresh(r)
    ensures Orderly(RootPaths(Roots(k.world, roots)), WalkAll(k, oneFileSystem, env, roots, r).0.calls)
  {
    var names := RootPaths(Roots(k.world, roots));
    RootPathsAreThere(Roots(k.world, roots));
    if roots == [] {
      assert k.world.dot in Roots(k.world, roots);
      RootIsOrderly(names, k.(device := DeviceAfter(k, oneFileSystem, k.world.dot)), env, k.world.dot, r);
    } else {
      RootsAreOrderly(names, k, oneFileSystem, env, roots, r);
    }
  }
}
