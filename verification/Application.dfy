/** One run of the program, from options to exit status, with either walker. */
module Application {
  import opened Basics
  import opened FileSystem
  import opened Paths
  import opened Filter
  import opened Listing
  import opened Output
  import opened SequentialWalk
  import opened RunLaws
  import opened ExitStatus
  import opened ParallelWalk
  import opened Agreement
  import opened Merge
  import opened EndToEnd

  /** The sequential run: walk, ask once more whether to stop, compute the status, close the output and
      drop the answer of its flush. Status 0 means that no stop came, that no call failed and that no
      write failed for a root or an entry directly under one; and the descriptor then holds exactly the
      expected output if and only if every flush delivered. */
  method RunSequential(world: World, o: Options, now: int, follow: bool, oneFileSystem: bool, roots: seq<Root>,
                       nullTerminated: bool, env: Env)
    returns (exitCode: nat, output: Output, calls: seq<Call>)
    requires env.channel.separator == if nullTerminated then '\0' else '\n'
    ensures fresh(output) && output.emittedCount == |output.records|
    ensures Subsequence(output.records, Expected(Walk(world, PredicateFromOptions(o, now), follow, None, PATH_CAPACITY, Sequential),
                                                 oneFileSystem, roots))
    ensures exitCode in {0, 1, 130} && (exitCode == 130 <==> env.signal(|calls|))
    ensures Sticky(env) ==>
              (exitCode == 0 <==>
                 && !env.signal(|calls|) && FailedPaths(calls) == []
                 && forall n :: 0 <= n < |calls| && calls[n].Write? && calls[n].depth <= 1 ==> calls[n].ok)
    ensures Sticky(env) && exitCode == 0 ==>
              var k := Walk(world, PredicateFromOptions(o, now), follow, None, PATH_CAPACITY, Sequential);
              (output.delivered == Frame(env.channel.separator, Expected(k, oneFileSystem, roots))
               <==> FlushedBetween(env.channel, 0, output.flushes))
  {
    var p := PredicateFromOptions(o, now);
    output := new Output(nullTerminated, env.channel.answers);
    var walker := new Walker(world, p, follow, oneFileSystem, env, output);
    ghost var k, r := walker.Context(), walker.State();
    var walkOk := walker.WalkSequential(roots);
    ghost var r' := walker.State();
    calls := walker.calls;
    exitCode := ExitCode(env.signal(|calls|), walkOk, |walker.errors|);
    FaultsOnlyOmit(k, oneFileSystem, env, roots, r);
    if Sticky(env) {
      StatusAndOutput(k, oneFileSystem, env, roots, r);
    }
    var _ := output.Close();
    assert output.State() == Closed(env, r');
    FlushKeepsBytes(env.channel, r'.sink);
  }

  /** The number of roots that cannot be stat'd; each of them is an error. */
  method FailedRoots(k: Walk, roots: seq<Root>) returns (failed: nat)
    ensures failed == 0 <==> forall i :: 0 <= i < |roots| ==> RootStat(k, roots[i]).Some?
    ensures failed <= |roots|
  {
    failed := 0;
    for i := 0 to |roots|
      invariant failed <= i
      invariant failed == 0 <==> forall j :: 0 <= j < i ==> RootStat(k, roots[j]).Some?
    {
      if RootStat(k, roots[i]).None? {
        failed := failed + 1;
      }
    }
  }

  /** Workers quit and directories are discarded only once the signal has been raised; it is asked at
      every step of the schedule. */
  ghost predicate Heeds(signal: nat -> bool, actions: seq<Action>) {
    forall i :: 0 <= i < |actions| ==> Works(actions[i]) || signal(i)
  }

  /** The parallel run, from the moment the engine has joined for the last time: merge, write, ask once
      more whether to stop, and compute the status. `engineErrors` is what the engine reported; the
      writer holds nothing, so its flush succeeds. Status 0 means exactly that there was no stop and no
      error and that every gathered byte was delivered; and with fewer than 256 workers those bytes are
      the records of the sequential walk. */
  method RunParallel(cfg: Config, roots: seq<Root>, workers: nat, ghost actions: seq<Action>, s: State, engineErrors: seq<string>,
                     signal: nat -> bool, joined: nat, fd: Descriptor, ghost quiet: nat)
    returns (exitCode: nat, emitted: nat)
    requires Schedule(cfg, Start(roots, workers), actions, s) && Finished(s) && workers > 0
    requires Heeds(signal, actions) && |actions| <= joined
    requires forall m: nat, n: nat :: m <= n && signal(m) ==> signal(n)
    requires forall k :: k >= quiet ==> fd.script(k) != Interrupted
    modifies fd
    ensures exitCode in {0, 1, 130} && (exitCode == 130 <==> signal(joined))
    ensures exitCode == 0 <==>
              && !signal(joined) && engineErrors == [] && (forall i :: 0 <= i < |roots| ==> RootStat(cfg.k, roots[i]).Some?)
              && fd.written == old(fd.written) + BytesOf(Gather([s.main] + s.slots, MAX_IOVEC))
    ensures exitCode == 0 && Comparable(cfg, roots) && (workers < MAX_IOVEC || UsableCount([s.main] + s.slots) <= MAX_IOVEC) ==>
              && fd.written == old(fd.written) + Frame(cfg.separator, AllRecords(s))
              && multiset(AllRecords(s)) == multiset(SequentialRecords(cfg, roots))
              && emitted == |SequentialRecords(cfg, roots)|
  {
    var failed := FailedRoots(cfg.k, roots);
    var mergeOk;
    mergeOk, emitted := WriteMerged(s.main, s.slots, true, fd, quiet);
    exitCode := ExitCode(signal(joined), failed == 0 && mergeOk, |engineErrors| + failed);
    if !signal(joined) && Comparable(cfg, roots) && (workers < MAX_IOVEC || UsableCount([s.main] + s.slots) <= MAX_IOVEC) {
      assert Uninterrupted(actions);
      MergedStreamHoldsExpected(cfg, roots, workers, actions, s);
    }
  }
}
