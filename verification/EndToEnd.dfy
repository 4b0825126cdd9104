/** From the command line's roots to the bytes on the descriptor, for both walkers. */
module EndToEnd {
  import opened Basics
  import opened FileSystem
  import opened Paths
  import opened Filter
  import opened Listing
  import opened Output
  import opened SequentialWalk
  import opened RunLaws
  import opened ExitStatus
  import opened ParallelWalk
  import opened ParallelLaws
  import opened Agreement
  import opened Merge

  // ----- no path holds a NUL -----

  lemma {:induction false} ListedPathHasNoNul(k: Walk, es: seq<Entry>, path: string, depth: nat, c: Cand)
    requires c in List(k, es, path, depth) && '\0' !in path
    ensures '\0' !in c.path
    decreases k.capacity - |path|, |es|
  {
    var child := Join(path, es[0].name);
    if c in List(k, es[1..], path, depth) {
      ListedPathHasNoNul(k, es[1..], path, depth, c);
    } else if c != EntryCandidate(k, child, depth + 1, es[0]) {
      ListedPathHasNoNul(k, Below(k, es[0], depth + 1), child, depth + 1, c);
    }
  }

  lemma {:induction false} RootsHaveNoNul(k: Walk, oneFileSystem: bool, roots: seq<Root>, c: Cand)
    requires c in ListRoots(k, oneFileSystem, roots)
    ensures '\0' !in c.path
    decreases |roots|
  {
    var k1 := k.(device := DeviceAfter(k, oneFileSystem, roots[0]));
    if c in ListRoot(k1, roots[0]) {
      var st := RootStat(k1, roots[0]).value;
      if c != RootCandidate(k1, roots[0], st) {
        ListedPathHasNoNul(k1, Entries(k.world, RootTarget(k1, roots[0], st).value), roots[0].path, 0, c);
      }
    } else {
      RootsHaveNoNul(k1, oneFileSystem, roots[1..], c);
    }
  }

  lemma {:induction false} MatchesComeFromListing(f: Cand -> bool, cs: seq<Cand>, i: nat) returns (c: Cand)
    requires i < |PathsOf(Keep(f, cs))|
    ensures c in cs && c.path == PathsOf(Keep(f, cs))[i]
  {
    var kept := Keep(f, cs[1..]);
    if f(cs[0]) {
      assert Keep(f, cs)[1..] == kept;
      if i == 0 {
        c := cs[0];
      } else {
        c := MatchesComeFromListing(f, cs[1..], i - 1);
      }
    } else {
      assert Keep(f, cs) == kept;
      c := MatchesComeFromListing(f, cs[1..], i);
    }
  }

  /** In NUL mode the separator never occurs in a record. */
  lemma RecordsAreNulFree(k: Walk, oneFileSystem: bool, roots: seq<Root>)
    ensures SeparatorFree('\0', Matches(k, ListRoots(k, oneFileSystem, roots)))
  {
    var f, cs := Accepted(k.world.glob, k.p), ListRoots(k, oneFileSystem, roots);
    forall i | 0 <= i < |Matches(k, cs)| ensures '\0' !in Matches(k, cs)[i] {
      var c := MatchesComeFromListing(f, cs, i);
      RootsHaveNoNul(k, oneFileSystem, roots, c);
    }
  }

  /** What a reader of the descriptor recovers, in NUL mode, whatever else happened, when every flush
      delivered: the records printed, which are the expected ones with some omitted. */
  lemma NulStreamSplits(k: Walk, oneFileSystem: bool, env: Env, roots: seq<Root>, r: Run)
    requires WellBuilt(k.p) && Fresh(r) && env.channel.separator == '\0' && k.capacity <= PATH_CAPACITY
    ensures var r' := WalkAll(k, oneFileSystem, env, roots, r).0;
            FlushedBetween(env.channel, 0, Closed(env, r').flushes) ==>
              && Split('\0', Closed(env, r').delivered) == r'.sink.records
              && Subsequence(r'.sink.records, Expected(k, oneFileSystem, roots))
  {
    FaultsOnlyOmit(k, oneFileSystem, env, roots, r);
    RecordsAreNulFree(k, oneFileSystem, Roots(k.world, roots));
    var r' := WalkAll(k, oneFileSystem, env, roots, r).0;
    SubsequenceStaysFree('\0', r'.sink.records, Expected(k, oneFileSystem, roots));
    FramingRoundTrips('\0', r'.sink.records);
  }

  lemma {:induction false} SubsequenceStaysFree(separator: char, a: seq<string>, b: seq<string>)
    requires Subsequence(a, b) && SeparatorFree(separator, b)
    ensures SeparatorFree(separator, a)
    decreases |b|
  {
    if a != [] {
      if a[0] == b[0] && Subsequence(a[1..], b[1..]) {
        SubsequenceStaysFree(separator, a[1..], b[1..]);
        assert a == [a[0]] + a[1..];
      } else {
        SubsequenceStaysFree(separator, a, b[1..]);
      }
    }
  }

  // ----- the end of a parallel run -----

  /** Flush what the writer holds, then write the gathered buffers; the emitted count is added
      whether or not the write succeeds. */
  method WriteMerged(main: Slot, slots: seq<Slot>, flushOk: bool, fd: Descriptor, ghost quiet: nat)
    returns (ok: bool, emitted: nat)
    requires forall k :: k >= quiet ==> fd.script(k) != Interrupted
    modifies fd
    ensures emitted == EmittedOf(Gather([main] + slots, MAX_IOVEC))
    ensures old(fd.written) <= fd.written <= old(fd.written) + BytesOf(Gather([main] + slots, MAX_IOVEC))
    ensures ok ==> fd.written == old(fd.written) + BytesOf(Gather([main] + slots, MAX_IOVEC))
    ensures flushOk && !ok ==> fd.written != old(fd.written) + BytesOf(Gather([main] + slots, MAX_IOVEC))
  {
    var builder := new IovecBuilder();
    builder.CollectAll(main, slots);
    ghost var gathered := Gather([main] + slots, MAX_IOVEC);
    BuilderData(builder.iov[..builder.count], gathered);
    ok, emitted := true, builder.totalEmitted;
    if builder.count > 0 {
      ok := flushOk;
      if ok {
        ok := WriteAllIovec(fd, builder.iov, builder.count, quiet);
      }
    }
  }

  // ----- the walkers print the same -----

  /** The stream of a finished parallel run, with fewer than 256 workers or whenever no more than 256 buffers
      hold something, is made of exactly the records the sequential walker is expected to print. */
  lemma MergedStreamHoldsExpected(cfg: Config, roots: seq<Root>, workers: nat, actions: seq<Action>, s: State)
    requires Comparable(cfg, roots) && Schedule(cfg, Start(roots, workers), actions, s) && workers > 0 && Finished(s)
    requires Uninterrupted(actions) && (workers < MAX_IOVEC || UsableCount([s.main] + s.slots) <= MAX_IOVEC)
    ensures var buffers := Gather([s.main] + s.slots, MAX_IOVEC);
            && BytesOf(buffers) == Frame(cfg.separator, AllRecords(s))
            && EmittedOf(buffers) == |SequentialRecords(cfg, roots)|
            && multiset(AllRecords(s)) == multiset(SequentialRecords(cfg, roots))
  {
    EveryScheduleAgrees(cfg, roots, workers, actions, s);
    FewWorkersFit(cfg, roots, workers, actions, s);
    StartHolds(cfg, roots, workers);
    ScheduleKeepsInv(cfg, Start(roots, workers), actions, s);
    MergedStreamIsFramed(cfg, s);
    assert |AllRecords(s)| == |multiset(AllRecords(s))| == |multiset(SequentialRecords(cfg, roots))|;
  }

  /** In any state the walk can be in, the merged stream is the framing of all the records logged. */
  lemma MergedStreamIsFramed(cfg: Config, s: State)
    requires Inv(cfg, s) && UsableCount([s.main] + s.slots) <= MAX_IOVEC
    ensures var buffers := Gather([s.main] + s.slots, MAX_IOVEC);
            BytesOf(buffers) == Frame(cfg.separator, AllRecords(s)) && EmittedOf(buffers) == |AllRecords(s)|
  {
    var slots, logs := [s.main] + s.slots, [s.mainLog] + s.logs;
    assert AllHold(cfg.separator, slots, logs);
    MergeKeepsRecordsWhole(cfg.separator, slots, logs, MAX_IOVEC);
    MergeIsCompleteIffRoom(cfg.separator, slots, logs, MAX_IOVEC);
    assert logs[1..] == s.logs;
  }

  /** On the same tree, with fewer than 256 workers or buffers that fit, for every schedule of the one and
      every environment in which the other meets no fault and no stop, splitting what reaches either
      descriptor gives the same records, equally often: always in NUL mode, and in newline mode when no
      path holds a newline. */
  lemma WalkersPrintTheSame(cfg: Config, env: Env, roots: seq<Root>, workers: nat, actions: seq<Action>, s: State, r: Run)
    requires WellBuilt(cfg.k.p) && cfg.k.capacity <= PATH_CAPACITY && Fresh(r) && env.channel.separator == cfg.separator
    requires Comparable(cfg, Roots(cfg.k.world, roots)) && workers > 0
    requires Schedule(cfg, Start(Roots(cfg.k.world, roots), workers), actions, s) && Uninterrupted(actions) && Finished(s)
    requires workers < MAX_IOVEC || UsableCount([s.main] + s.slots) <= MAX_IOVEC
    ensures var r' := WalkAll(cfg.k.(rule := Sequential), false, env, roots, r).0;
            var merged, readable := BytesOf(Gather([s.main] + s.slots, MAX_IOVEC)),
                                    cfg.separator == '\0' || SeparatorFree(cfg.separator, r'.sink.records);
            Quiet(env, r, r') && !r'.stop && FlushedBetween(env.channel, 0, Closed(env, r').flushes) && readable ==>
              multiset(Split(cfg.separator, merged)) == multiset(Split(cfg.separator, Closed(env, r').delivered))
  {
    var k := cfg.k.(rule := Sequential);
    var r' := WalkAll(k, false, env, roots, r).0;
    if Quiet(env, r, r') && !r'.stop {
      QuietRunPrintsPrefix(k, false, env, roots, r);
      FaultsOnlyOmit(k, false, env, roots, r);
      MergedStreamHoldsExpected(cfg, Roots(cfg.k.world, roots), workers, actions, s);
      RecordsAreNulFree(k, false, Roots(cfg.k.world, roots));
      FramingRoundTrips(cfg.separator, r'.sink.records);
      if SeparatorFree(cfg.separator, r'.sink.records) {
        PermutationStaysFree(cfg.separator, AllRecords(s), r'.sink.records);
        FramingRoundTrips(cfg.separator, AllRecords(s));
      }
    }
  }

  lemma PermutationStaysFree(separator: char, a: seq<string>, b: seq<string>)
    requires multiset(a) == multiset(b) && SeparatorFree(separator, b)
    ensures SeparatorFree(separator, a)
  {
    forall i | 0 <= i < |a| ensures separator !in a[i] {
      assert a[i] in multiset(a);
      assert a[i] in b;
    }
  }
}
