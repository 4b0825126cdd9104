/** What exit status 0 says about a sequential run, and what it does not. */
module ExitStatus {
  import opened Basics
  import opened FileSystem
  import opened Paths
  import opened Filter
  import opened Listing
  import opened Output
  import opened SequentialWalk
  import opened RunLaws

  /** The exit status `main` computes after a walk. */
  function ExitCode(interrupted: bool, walkOk: bool, errorCount: nat): (code: nat)
    ensures code in {0, 1, 130}
  {
    if interrupted then 130
    else if !walkOk && errorCount == 0 then 1
    else if errorCount == 0 then 0 else 1
  }

  // ----- which failed writes the walk's answer shows -----

  /** No write between two states, for a candidate at depth at most `d`, failed. */
  ghost predicate Kept(r: Run, r': Run, d: nat) {
    forall n :: |r.calls| <= n < |r'.calls| && r'.calls[n].Write? && r'.calls[n].depth <= d ==> r'.calls[n].ok
  }

  ghost predicate WritesBelow(r: Run, r': Run, d: nat) {
    forall n :: |r.calls| <= n < |r'.calls| && r'.calls[n].Write? ==> r'.calls[n].depth > d
  }

  ghost predicate Grows(r: Run, r': Run) { r.calls <= r'.calls && r.errors <= r'.errors && (r.stop ==> r'.stop) }

  /** The answer for a stretch of a run: without a stop or a new error it is true exactly when no write
      at depth at most `d` failed. */
  ghost predicate Shows(r: Run, r': Run, d: nat, ok: bool) {
    Grows(r, r') && (!r'.stop && r'.errors == r.errors ==> (ok <==> Kept(r, r', d)))
  }

  lemma ShowsChain(r: Run, r1: Run, r2: Run, d: nat, ok1: bool, ok2: bool)
    requires Shows(r, r1, d, ok1) && Shows(r1, r2, d, ok2)
    ensures Shows(r, r2, d, ok1 && ok2)
  {
    KeptChain(r, r1, r2, d);
  }

  lemma KeptChain(r: Run, r1: Run, r2: Run, d: nat)
    requires r.calls <= r1.calls <= r2.calls
    ensures Kept(r, r2, d) <==> Kept(r, r1, d) && Kept(r1, r2, d)
  {
    assert forall n :: 0 <= n < |r1.calls| ==> r2.calls[n] == r1.calls[n];
  }

  lemma BelowChain(r: Run, r1: Run, r2: Run, d: nat)
    requires r.calls <= r1.calls <= r2.calls && WritesBelow(r, r1, d) && WritesBelow(r1, r2, d)
    ensures WritesBelow(r, r2, d)
  {
    assert forall n :: 0 <= n < |r1.calls| ==> r2.calls[n] == r1.calls[n];
  }

  lemma NextShows(env: Env, path: string, r: Run, d: nat)
    ensures var (r', more) := Next(env, path, r);
            Grows(r, r') && WritesBelow(r, r', d) && Kept(r, r', d) && (more || r'.stop || r'.errors != r.errors)
  {
  }

  lemma {:induction false} DirectoryShows(k: Walk, env: Env, id: nat, path: string, depth: nat, r: Run)
    ensures var (r', ok) := WalkDirectory(k, env, id, path, depth, r);
            Shows(r, r', depth + 1, ok) && WritesBelow(r, r', depth)
    decreases k.capacity - |path|, 1, 0
  {
    var ok := env.readerCreates(|r.calls|);
    var r1 := Called(r, CreateReader(path, ok));
    if ok {
      var (r2, answer) := WalkEntries(k, env, Entries(k.world, id), path, depth, r1);
      EntriesShow(k, env, Entries(k.world, id), path, depth, r1);
      ShowsChain(r, r1, r2, depth + 1, true, answer);
      BelowChain(r, r1, r2, depth);
    }
  }

  /** A directory's answer shows the writes for its own entries and no deeper ones. */
  lemma {:induction false} EntriesShow(k: Walk, env: Env, es: seq<Entry>, path: string, depth: nat, r: Run)
    ensures var (r', ok) := WalkEntries(k, env, es, path, depth, r);
            Shows(r, r', depth + 1, ok) && WritesBelow(r, r', depth)
    decreases k.capacity - |path|, 0, |es|
  {
    var (r0, more) := Next(env, path, r);
    NextShows(env, path, r, depth);
    NextShows(env, path, r, depth + 1);
    if more && es != [] {
      var (r1, goOn) := WalkEntry(k, env, es[0], path, depth, r0);
      EntryShows(k, env, es[0], path, depth, r0);
      ShowsChain(r, r0, r1, depth + 1, true, goOn);
      BelowChain(r, r0, r1, depth);
      if goOn {
        var (r2, ok) := WalkEntries(k, env, es[1..], path, depth, r1);
        EntriesShow(k, env, es[1..], path, depth, r1);
        ShowsChain(r, r1, r2, depth + 1, goOn, ok);
        BelowChain(r, r1, r2, depth);
      }
    }
  }

  lemma {:induction false} EntryShows(k: Walk, env: Env, e: Entry, path: string, depth: nat, r: Run)
    ensures var (r', goOn) := WalkEntry(k, env, e, path, depth, r);
            Shows(r, r', depth + 1, goOn) && WritesBelow(r, r', depth)
    decreases k.capacity - |path|, 0, 0
  {
    var child := Join(path, e.name);
    if Visible(k, e) && |child| < k.capacity {
      VisitShows(k, env, e, child, depth, r);
    }
  }

  lemma {:induction false} VisitShows(k: Walk, env: Env, e: Entry, child: string, depth: nat, r: Run)
    ensures var (r', goOn) := VisitAndDescend(k, env, e, child, depth + 1, r);
            Shows(r, r', depth + 1, goOn) && WritesBelow(r, r', depth)
    decreases k.capacity - |child|, 3, 0
  {
    var c := EntryCandidate(k, child, depth + 1, e);
    var (r1, ok) := EmitIfMatch(k, env, c, r);
    EmitShows(k, env, c, r, depth + 1);
    if ok {
      var r2 := PostStat(AfterEvaluate(k.world.glob, k.p, c), r1);
      var (r3, goOn) := Descend(k, env, e, child, depth + 1, r2);
      DescentShows(k, env, e, child, depth + 1, r2);
      ShowsChain(r, r2, r3, depth + 1, ok, goOn);
      BelowChain(r, r2, r3, depth);
    }
  }

  lemma EmitShows(k: Walk, env: Env, c: Cand, r: Run, d: nat)
    requires c.depth <= d
    ensures var (r', ok) := EmitIfMatch(k, env, c, r);
            && Shows(r, r', d, ok) && r'.stop == r.stop && r'.errors == r.errors
            && (c.depth > 0 ==> WritesBelow(r, r', c.depth - 1))
  {
    var (r', ok) := EmitIfMatch(k, env, c, r);
    assert r'.calls != r.calls ==> r'.calls[|r.calls|] == Write(c.path, c.depth, ok);
  }

  /** Entering a subdirectory says nothing of the writes made there. */
  lemma {:induction false} DescentShows(k: Walk, env: Env, e: Entry, child: string, depth: nat, r: Run)
    ensures var (r', goOn) := Descend(k, env, e, child, depth, r);
            Shows(r, r', depth, goOn) && WritesBelow(r, r', depth)
    decreases k.capacity - |child|, 2, 0
  {
    if IsDirectory(k, e) && ShouldDescend(k, e.name, depth) {
      var (r1, id) := OpenSubdir(k, env, e, child, r);
      OpenSubdirShows(k, env, e, child, depth, r);
      if id.Some? {
        DirectoryShows(k, env, id.value, child, depth, r1);
        var (r2, ok) := WalkDirectory(k, env, id.value, child, depth, r1);
        BelowChain(r, r1, r2, depth);
        PollShows(env, r2, depth);
        BelowChain(r, r2, Poll(env, r2), depth);
      }
    }
  }

  lemma OpenSubdirShows(k: Walk, env: Env, e: Entry, child: string, depth: nat, r: Run)
    ensures var r' := OpenSubdir(k, env, e, child, r).0; Grows(r, r') && r'.stop == r.stop && WritesBelow(r, r', depth)
  {
  }

  lemma PollShows(env: Env, r: Run, depth: nat)
    ensures Grows(r, Poll(env, r)) && WritesBelow(r, Poll(env, r), depth)
  {
  }

  lemma OpenRootShows(k: Walk, env: Env, root: Root, r: Run)
    ensures var (r', ok) := OpenRoot(k, env, root, r); Shows(r, r', 1, ok)
  {
    var id := if k.follow then root.open else root.lopen;
    var didOpen := env.opens(|r.calls|) && id.Some?;
    if didOpen {
      var r1 := Called(r, OpenDirectory(root.path, didOpen));
      DirectoryShows(k, env, id.value, root.path, 0, r1);
      ShowsChain(r, r1, OpenRoot(k, env, root, r).0, 1, true, OpenRoot(k, env, root, r).1);
    }
  }

  lemma RootShows(k: Walk, env: Env, root: Root, r: Run)
    ensures var (r', ok) := WalkRoot(k, env, root, r); Shows(r, r', 1, ok)
  {
    var st := RootStat(k, root);
    if st.Some? && |root.path| < k.capacity {
      var r1 := Called(Called(Stated(r, true), StatRoot(root.path, true)), CheckLength(root.path, true));
      var c := RootCandidate(k, root, st.value);
      var (r2, ok) := EmitIfMatch(k, env, c, r1);
      EmitShows(k, env, c, r1, 1);
      assert Shows(r, r1, 1, true);
      ShowsChain(r, r1, r2, 1, true, ok);
      if ok && EntersRoot(k, st.value) {
        OpenRootShows(k, env, root, r2);
        ShowsChain(r, r2, OpenRoot(k, env, root, r2).0, 1, ok, OpenRoot(k, env, root, r2).1);
      }
    }
  }

  lemma {:induction false} RootsShow(k: Walk, oneFileSystem: bool, env: Env, roots: seq<Root>, r: Run)
    ensures var (r', ok) := WalkRoots(k, oneFileSystem, env, roots, r); Shows(r, r', 1, ok)
    decreases |roots|
  {
    var r0 := Poll(env, r);
    if roots != [] && !r0.stop {
      var k1 := k.(device := DeviceAfter(k, oneFileSystem, roots[0]));
      var (r1, ok) := WalkRoot(k1, env, roots[0], r0);
      var (r2, restOk) := WalkRoots(k1, oneFileSystem, env, roots[1..], r1);
      assert Shows(r, r0, 1, true);
      RootShows(k1, env, roots[0], r0);
      RootsShow(k1, oneFileSystem, env, roots[1..], r1);
      ShowsChain(r, r0, r1, 1, true, ok);
      ShowsChain(r, r1, r2, 1, ok, restOk);
    }
  }

  // ----- the laws of a whole run -----

  /** A run that has made no call, printed nothing and recorded no error. */
  predicate Fresh(r: Run) { !r.stop && r.calls == [] && r.errors == [] && r.sink == EMPTY_SINK }

  /** The output after the flush that closes it. */
  function Closed(env: Env, r: Run): Sink { Flush(env.channel, r.sink).0 }

  /** No oracle ever reports a fault; the signal may still come. */
  ghost predicate NeverFails(env: Env) {
    && (forall n :: env.readerCreates(n) && env.readsEntry(n) && env.opens(n) && env.fstats(n))
    && (forall n :: env.channel.answers(n).Flushed?)
  }

  lemma FreshOutcome(k: Walk, oneFileSystem: bool, env: Env, roots: seq<Root>, r: Run)
    requires WellBuilt(k.p) && Fresh(r) && k.capacity <= PATH_CAPACITY
    ensures var r' := WalkAll(k, oneFileSystem, env, roots, r).0;
            Outcome(env, r, r', Expected(k, oneFileSystem, roots)) && Printed(r, r') == r'.sink.records && NewCalls(r, r') == r'.calls
  {
    RunOutcome(k, oneFileSystem, env, roots, r);
  }

  /** The last flush delivers what is pending, or leaves a byte behind. */
  lemma ClosingDelivers(env: Env, r: Run, r': Run)
    requires Fresh(r) && Extends(env, r, r') && Streams(env, r, r')
    ensures var s, separator := Closed(env, r'), env.channel.separator;
            && s.records == r'.sink.records
            && (FlushedBetween(env.channel, 0, s.flushes) ==> AllWritten(r, r') && s.delivered == Frame(separator, r'.sink.records))
            && (!FlushedBetween(env.channel, 0, s.flushes) ==>
                  !AllWritten(r, r') || |s.delivered| < |Frame(separator, r'.sink.records)|)
            && |s.delivered| <= |Frame(separator, r'.sink.records)|
  {
    FlushKeepsBytes(env.channel, r'.sink);
    assert Printed(r, r') == r'.sink.records;
  }

  /** Faults are contained and reported. Whatever fails and whenever a stop arrives, what is printed is
      the expected output with some records left out, in order; the errors recorded are the paths of
      the calls that failed, one for each and in order; and if every flush delivered, the descriptor
      holds the printed records whole. */
  lemma FaultsOnlyOmit(k: Walk, oneFileSystem: bool, env: Env, roots: seq<Root>, r: Run)
    requires WellBuilt(k.p) && Fresh(r) && k.capacity <= PATH_CAPACITY
    ensures var r' := WalkAll(k, oneFileSystem, env, roots, r).0;
            && Subsequence(r'.sink.records, Expected(k, oneFileSystem, roots))
            && r'.errors == FailedPaths(r'.calls)
            && (FlushedBetween(env.channel, 0, Closed(env, r').flushes) ==>
                  Closed(env, r').delivered == Frame(env.channel.separator, r'.sink.records))
  {
    FreshOutcome(k, oneFileSystem, env, roots, r);
    ClosingDelivers(env, r, WalkAll(k, oneFileSystem, env, roots, r).0);
  }

  /** A run that met no fault printed a prefix of the expected output, and all of it unless it was stopped. */
  lemma QuietRunPrintsPrefix(k: Walk, oneFileSystem: bool, env: Env, roots: seq<Root>, r: Run)
    requires WellBuilt(k.p) && Fresh(r) && k.capacity <= PATH_CAPACITY
    requires Quiet(env, r, WalkAll(k, oneFileSystem, env, roots, r).0)
    ensures var r' := WalkAll(k, oneFileSystem, env, roots, r).0;
            && r'.sink.records <= Expected(k, oneFileSystem, roots)
            && (!r'.stop ==> r'.sink.records == Expected(k, oneFileSystem, roots))
  {
    FreshOutcome(k, oneFileSystem, env, roots, r);
  }

  /** In an environment that never fails, a run meets no fault. */
  lemma SoundEnvironmentIsQuiet(k: Walk, oneFileSystem: bool, env: Env, roots: seq<Root>, r: Run)
    requires WellBuilt(k.p) && Fresh(r) && k.capacity <= PATH_CAPACITY && NeverFails(env)
    ensures Quiet(env, r, WalkAll(k, oneFileSystem, env, roots, r).0)
  {
    FreshOutcome(k, oneFileSystem, env, roots, r);
    NeverFailingIsQuiet(env, r, WalkAll(k, oneFileSystem, env, roots, r).0);
  }

  lemma NeverFailingIsQuiet(env: Env, r: Run, r': Run)
    requires NeverFails(env) && Streams(env, r, r')
    ensures Quiet(env, r, r')
  {
    assert AllWritten(r, r');
    forall n | |r.calls| <= n < |r'.calls| ensures Sound(env, r'.calls[n], n) {
      assert r'.calls[n].Write? ==> r'.calls[n].ok;
    }
  }

  /** Interruption leaves a prefix: when nothing fails, whenever the signal is raised, the descriptor
      ends up with the first records of the expected output; with all of them if it never is. */
  lemma InterruptionLeavesPrefix(k: Walk, oneFileSystem: bool, env: Env, roots: seq<Root>, r: Run)
    requires WellBuilt(k.p) && Fresh(r) && k.capacity <= PATH_CAPACITY && NeverFails(env)
    ensures var r' := WalkAll(k, oneFileSystem, env, roots, r).0;
            var expected := Expected(k, oneFileSystem, roots);
            && r'.sink.records <= expected
            && Closed(env, r').delivered == Frame(env.channel.separator, r'.sink.records)
            && ((forall n :: !env.signal(n)) ==> r'.sink.records == expected)
  {
    SoundEnvironmentIsQuiet(k, oneFileSystem, env, roots, r);
    QuietRunPrintsPrefix(k, oneFileSystem, env, roots, r);
    FaultsOnlyOmit(k, oneFileSystem, env, roots, r);
    FreshOutcome(k, oneFileSystem, env, roots, r);
  }

  /** Of a run that was not stopped: the exit status is 0 exactly when no error was recorded and no
      write failed for a root or for an entry directly under a root. */
  lemma StatusIsZeroIff(k: Walk, oneFileSystem: bool, env: Env, roots: seq<Root>, r: Run)
    requires Fresh(r)
    ensures var (r', ok) := WalkAll(k, oneFileSystem, env, roots, r);
            !r'.stop ==> (ExitCode(false, ok, |r'.errors|) == 0 <==> r'.errors == [] && Kept(r, r', 1))
  {
    if roots == [] {
      RootShows(k.(device := DeviceAfter(k, oneFileSystem, k.world.dot)), env, k.world.dot, r);
    } else {
      RootsShow(k, oneFileSystem, env, roots, r);
    }
  }

  /** A run that recorded no error and was not stopped met no fault but failed writes. */
  lemma NoErrorMeansQuiet(env: Env, r: Run, r': Run)
    requires Fresh(r) && Extends(env, r, r') && r'.errors == []
    ensures Quiet(env, r, r') <==> AllWritten(r, r')
  {
    assert NewCalls(r, r') == r'.calls;
    NoFailedPathNoFailure(r'.calls);
  }

  /** Of a run that was not stopped and recorded no error, so of every run with status 0: the descriptor
      holds exactly the expected output if and only if every flush delivered, the one at close included. */
  lemma DeliveredIffFlushed(k: Walk, oneFileSystem: bool, env: Env, roots: seq<Root>, r: Run)
    requires WellBuilt(k.p) && Fresh(r) && k.capacity <= PATH_CAPACITY
    ensures var r' := WalkAll(k, oneFileSystem, env, roots, r).0;
            !r'.stop && r'.errors == [] ==>
              (Closed(env, r').delivered == Frame(env.channel.separator, Expected(k, oneFileSystem, roots))
               <==> FlushedBetween(env.channel, 0, Closed(env, r').flushes))
  {
    var r' := WalkAll(k, oneFileSystem, env, roots, r).0;
    var expected := Expected(k, oneFileSystem, roots);
    FreshOutcome(k, oneFileSystem, env, roots, r);
    ClosingDelivers(env, r, r');
    FrameShorter(env.channel.separator, r'.sink.records, expected);
    if r'.errors == [] {
      NoErrorMeansQuiet(env, r, r');
    }
  }

  /** A signal that has been raised stays raised. */
  ghost predicate Sticky(env: Env) {
    forall m: nat, n: nat :: m <= n && env.signal(m) ==> env.signal(n)
  }

  /** The status computed from the signal's answer after the walk. It is 0 exactly when no stop came, no
      call failed and no write failed for a root or an entry directly under one; what is delivered is then
      the expected output if and only if every flush delivered. */
  lemma StatusAndOutput(k: Walk, oneFileSystem: bool, env: Env, roots: seq<Root>, r: Run)
    requires WellBuilt(k.p) && Fresh(r) && k.capacity <= PATH_CAPACITY && Sticky(env)
    ensures var (r', ok) := WalkAll(k, oneFileSystem, env, roots, r);
            var zero := ExitCode(env.signal(|r'.calls|), ok, |r'.errors|) == 0;
            && (zero <==> !env.signal(|r'.calls|) && FailedPaths(r'.calls) == [] && Kept(r, r', 1))
            && (zero ==> (Closed(env, r').delivered == Frame(env.channel.separator, Expected(k, oneFileSystem, roots))
                          <==> FlushedBetween(env.channel, 0, Closed(env, r').flushes)))
  {
    var r' := WalkAll(k, oneFileSystem, env, roots, r).0;
    FreshOutcome(k, oneFileSystem, env, roots, r);
    FaultsOnlyOmit(k, oneFileSystem, env, roots, r);
    assert r'.stop ==> env.signal(|r'.calls|);
    StatusIsZeroIff(k, oneFileSystem, env, roots, r);
    DeliveredIffFlushed(k, oneFileSystem, env, roots, r);
  }
}
