/** What a sequential run prints, for every pattern of stop signals and faults. */
module RunLaws {
  import opened Basics
  import opened FileSystem
  import opened Paths
  import opened Filter
  import opened Listing
  import opened Output
  import opened SequentialWalk

  // ----- reading the log of calls -----

  /** The calls made between two states of a run. */
  function NewCalls(r: Run, r': Run): seq<Call> {
    if |r.calls| <= |r'.calls| then r'.calls[|r.calls|..] else []
  }

  /** The records printed between two states of a run. */
  function Printed(r: Run, r': Run): seq<string> {
    if |r.sink.records| <= |r'.sink.records| then r'.sink.records[|r.sink.records|..] else []
  }

  /** A call or check, other than a write, that the program saw fail. */
  predicate Fails(c: Call) { !c.Signal? && !c.Write? && !c.ok }

  /** The paths of the failed calls, in order. */
  function FailedPaths(calls: seq<Call>): seq<string> {
    if calls == [] then [] else (if Fails(calls[0]) then [calls[0].path] else []) + FailedPaths(calls[1..])
  }

  /** The n-th call met no fault: its oracle answered true, or its record was written. An entry that
      the file system itself denies is no fault. */
  predicate Sound(env: Env, c: Call, n: nat) {
    match c
    case CreateReader(_, _) => env.readerCreates(n)
    case ReadEntry(_, _) => env.readsEntry(n)
    case OpenDirectory(_, _) => env.opens(n)
    case CheckDevice(_, _) => env.fstats(n)
    case Write(_, _, ok) => ok
    case _ => true
  }

  ghost predicate Quiet(env: Env, r: Run, r': Run) {
    forall n :: |r.calls| <= n < |r'.calls| ==> Sound(env, r'.calls[n], n)
  }

  ghost predicate AllWritten(r: Run, r': Run) {
    forall n :: |r.calls| <= n < |r'.calls| && r'.calls[n].Write? ==> r'.calls[n].ok
  }

  ghost predicate Signalled(env: Env, m: nat, n: nat) { exists i :: m <= i < n && env.signal(i) }

  lemma {:induction false} FailedPathsConcat(a: seq<Call>, b: seq<Call>)
    ensures FailedPaths(a + b) == FailedPaths(a) + FailedPaths(b)
  {
    if a == [] {
      assert a + b == b;
    } else {
      FailedPathsConcat(a[1..], b);
      assert (a + b)[0] == a[0] && (a + b)[1..] == a[1..] + b;
      Associative(if Fails(a[0]) then [a[0].path] else [], FailedPaths(a[1..]), FailedPaths(b));
    }
  }

  lemma {:induction false} NoFailedPathNoFailure(calls: seq<Call>)
    requires FailedPaths(calls) == []
    ensures forall n :: 0 <= n < |calls| ==> !Fails(calls[n])
  {
    if calls != [] {
      NoFailedPathNoFailure(calls[1..]);
      assert forall n :: 0 < n < |calls| ==> calls[n] == calls[1..][n - 1];
    }
  }

  // ----- what one stretch of a run does -----

  /** What every stretch keeps: nothing printed, logged or reported is taken back; the errors it adds
      are the paths of its failed calls, in order; a call that succeeded met no fault; and the stop
      flag is raised only by the signal. */
  ghost predicate Extends(env: Env, r: Run, r': Run) {
    && r.sink.records <= r'.sink.records && r.calls <= r'.calls && r.sink.flushes <= r'.sink.flushes
    && r'.errors == r.errors + FailedPaths(NewCalls(r, r'))
    && (forall n :: |r.calls| <= n < |r'.calls| ==> Fails(r'.calls[n]) || r'.calls[n].Write? || Sound(env, r'.calls[n], n))
    && (r.stop ==> r'.stop)
    && (r'.stop ==> r.stop || Signalled(env, |r.calls|, |r'.calls|))
  }

  /** A write fails exactly when a flush does; while none does, the stream grows by the framing of
      the records printed, and it never grows by more. */
  ghost predicate Streams(env: Env, r: Run, r': Run) {
    && (AllWritten(r, r') <==> FlushedBetween(env.channel, r.sink.flushes, r'.sink.flushes))
    && (AllWritten(r, r') ==> Stream(r'.sink) == Stream(r.sink) + Frame(env.channel.separator, Printed(r, r')))
    && |Stream(r'.sink)| <= |Stream(r.sink)| + |Frame(env.channel.separator, Printed(r, r'))|
  }

  /** How the records printed from `r` to `r'` relate to the records `expected`. */
  ghost predicate Prints(env: Env, r: Run, r': Run, expected: seq<string>) {
    var printed := Printed(r, r');
    && Subsequence(printed, expected)
    && (Quiet(env, r, r') ==> printed <= expected)
    && (Quiet(env, r, r') && !r'.stop ==> printed == expected)
    && (!AllWritten(r, r') ==> |printed| < |expected|)
    && (r.stop ==> printed == [])
  }

  ghost predicate Outcome(env: Env, r: Run, r': Run, expected: seq<string>) {
    Extends(env, r, r') && Streams(env, r, r') && Prints(env, r, r', expected)
  }

  /** A stretch that does not touch the output. */
  ghost predicate Silent(env: Env, r: Run, r': Run) { Extends(env, r, r') && r'.sink == r.sink && AllWritten(r, r') }

  lemma NoCall(env: Env, r: Run, r': Run)
    requires r'.calls == r.calls && r'.errors == r.errors && r'.sink == r.sink && r'.stop == r.stop
    ensures Silent(env, r, r') && Quiet(env, r, r')
  {
    assert NewCalls(r, r') == [];
  }

  lemma OneCall(env: Env, r: Run, r': Run, c: Call)
    requires r'.calls == r.calls + [c] && r'.sink == r.sink && !c.Write?
    requires r'.errors == r.errors + if Fails(c) then [c.path] else []
    requires !Fails(c) ==> Sound(env, c, |r.calls|)
    requires r'.stop == (r.stop || (c.Signal? && env.signal(|r.calls|)))
    ensures Silent(env, r, r') && (Quiet(env, r, r') <==> Sound(env, c, |r.calls|))
  {
    assert NewCalls(r, r') == [c];
    assert FailedPaths([c]) == (if Fails(c) then [c.path] else []) + FailedPaths([c][1..]);
    assert r'.calls[|r.calls|] == c;
  }

  lemma NewCallsChain(r: Run, r1: Run, r2: Run)
    requires r.calls <= r1.calls <= r2.calls
    ensures NewCalls(r, r2) == NewCalls(r, r1) + NewCalls(r1, r2)
    ensures forall n :: |r.calls| <= n < |r1.calls| ==> r2.calls[n] == r1.calls[n]
  {
  }

  lemma PrintedChain(r: Run, r1: Run, r2: Run)
    requires r.sink.records <= r1.sink.records <= r2.sink.records
    ensures Printed(r, r2) == Printed(r, r1) + Printed(r1, r2)
  {
  }

  lemma QuietChain(env: Env, r: Run, r1: Run, r2: Run)
    requires r.calls <= r1.calls <= r2.calls
    ensures Quiet(env, r, r2) <==> Quiet(env, r, r1) && Quiet(env, r1, r2)
    ensures AllWritten(r, r2) <==> AllWritten(r, r1) && AllWritten(r1, r2)
  {
    NewCallsChain(r, r1, r2);
  }

  lemma ErrorsChain(r: Run, r1: Run, r2: Run)
    requires r.calls <= r1.calls <= r2.calls
    requires r1.errors == r.errors + FailedPaths(NewCalls(r, r1)) && r2.errors == r1.errors + FailedPaths(NewCalls(r1, r2))
    ensures r2.errors == r.errors + FailedPaths(NewCalls(r, r2))
  {
    NewCallsChain(r, r1, r2);
    FailedPathsConcat(NewCalls(r, r1), NewCalls(r1, r2));
    Associative(r.errors, FailedPaths(NewCalls(r, r1)), FailedPaths(NewCalls(r1, r2)));
  }

  lemma ExtendsChain(env: Env, r: Run, r1: Run, r2: Run)
    requires Extends(env, r, r1) && Extends(env, r1, r2)
    ensures Extends(env, r, r2)
    ensures Quiet(env, r, r2) <==> Quiet(env, r, r1) && Quiet(env, r1, r2)
    ensures AllWritten(r, r2) <==> AllWritten(r, r1) && AllWritten(r1, r2)
    ensures Printed(r, r2) == Printed(r, r1) + Printed(r1, r2)
  {
    NewCallsChain(r, r1, r2);
    PrintedChain(r, r1, r2);
    QuietChain(env, r, r1, r2);
    ErrorsChain(r, r1, r2);
  }

  lemma SilentChain(env: Env, r: Run, r1: Run, r2: Run)
    requires Silent(env, r, r1) && Silent(env, r1, r2)
    ensures Silent(env, r, r2)
    ensures Quiet(env, r, r2) <==> Quiet(env, r, r1) && Quiet(env, r1, r2)
  {
    ExtendsChain(env, r, r1, r2);
  }

  lemma StreamsChain(env: Env, r: Run, r1: Run, r2: Run)
    requires Extends(env, r, r1) && Extends(env, r1, r2) && Streams(env, r, r1) && Streams(env, r1, r2)
    ensures Streams(env, r, r2)
  {
    ExtendsChain(env, r, r1, r2);
    var separator := env.channel.separator;
    FrameConcat(separator, Printed(r, r1), Printed(r1, r2));
    Associative(Stream(r.sink), Frame(separator, Printed(r, r1)), Frame(separator, Printed(r1, r2)));
  }

  lemma PrintsChain(env: Env, r: Run, r1: Run, r2: Run, a: seq<string>, b: seq<string>)
    requires Extends(env, r, r1) && Extends(env, r1, r2) && Prints(env, r, r1, a) && Prints(env, r1, r2, b)
    ensures Prints(env, r, r2, a + b)
  {
    ExtendsChain(env, r, r1, r2);
    var p, q := Printed(r, r1), Printed(r1, r2);
    SubsequenceConcat(p, a, q, b);
    SubsequenceLength(p, a);
    SubsequenceLength(q, b);
    PrefixConcat(p, a, q, b);
  }

  lemma PrefixConcat(p: seq<string>, a: seq<string>, q: seq<string>, b: seq<string>)
    ensures p == a && q <= b ==> p + q <= a + b
    ensures p <= a && q == [] ==> p + q <= a + b
  {
  }

  lemma Chain(env: Env, r: Run, r1: Run, r2: Run, a: seq<string>, b: seq<string>)
    requires Outcome(env, r, r1, a) && Outcome(env, r1, r2, b)
    ensures Outcome(env, r, r2, a + b)
  {
    ExtendsChain(env, r, r1, r2);
    StreamsChain(env, r, r1, r2);
    PrintsChain(env, r, r1, r2, a, b);
  }

  lemma NothingPrinted(env: Env, r: Run, r': Run, expected: seq<string>)
    requires Silent(env, r, r')
    requires expected == [] || r'.stop || !Quiet(env, r, r')
    ensures Outcome(env, r, r', expected)
  {
    assert Printed(r, r') == [];
  }

  /** A silent stretch before another changes nothing of what the other prints. */
  lemma AfterSilence(env: Env, r: Run, r1: Run, r2: Run, expected: seq<string>)
    requires Silent(env, r, r1) && Outcome(env, r1, r2, expected)
    ensures Outcome(env, r, r2, expected)
    ensures Quiet(env, r, r2) <==> Quiet(env, r, r1) && Quiet(env, r1, r2)
  {
    NothingPrinted(env, r, r1, []);
    Chain(env, r, r1, r2, [], expected);
    ExtendsChain(env, r, r1, r2);
    assert [] + expected == expected;
  }

  lemma BeforeSilence(env: Env, r: Run, r1: Run, r2: Run, expected: seq<string>)
    requires Outcome(env, r, r1, expected) && Silent(env, r1, r2)
    ensures Outcome(env, r, r2, expected)
    ensures Quiet(env, r, r2) <==> Quiet(env, r, r1) && Quiet(env, r1, r2)
  {
    NothingPrinted(env, r1, r2, []);
    Chain(env, r, r1, r2, expected, []);
    ExtendsChain(env, r, r1, r2);
    assert expected + [] == expected;
  }

  lemma Cut(env: Env, r: Run, r1: Run, a: seq<string>, b: seq<string>)
    requires Outcome(env, r, r1, a) && (r1.stop || !Quiet(env, r, r1))
    ensures Outcome(env, r, r1, a + b)
  {
    var p := Printed(r, r1);
    SubsequenceConcat(p, a, [], b);
    assert p + [] == p;
  }

  // ----- the parts of a walk -----

  lemma PollIsSilent(env: Env, r: Run)
    ensures Silent(env, r, Poll(env, r)) && Quiet(env, r, Poll(env, r))
  {
    if r.stop {
      NoCall(env, r, r);
    } else {
      OneCall(env, r, Poll(env, r), Signal(env.signal(|r.calls|)));
    }
  }

  lemma NextIsSilent(env: Env, path: string, r: Run)
    ensures var (r', more) := Next(env, path, r);
            && Silent(env, r, r')
            && (if more then Quiet(env, r, r') && !r'.stop else r'.stop || !Quiet(env, r, r'))
  {
    var r0 := Poll(env, r);
    PollIsSilent(env, r);
    if !r0.stop {
      var r' := Next(env, path, r).0;
      OneCall(env, r0, r', ReadEntry(path, env.readsEntry(|r0.calls|)));
      SilentChain(env, r, r0, r');
    }
  }

  lemma OpenSubdirIsSilent(k: Walk, env: Env, e: Entry, child: string, depth: nat, r: Run)
    requires IsDirectory(k, e) && ShouldDescend(k, e.name, depth)
    ensures var (r', id) := OpenSubdir(k, env, e, child, r);
            && Silent(env, r, r')
            && (if id.Some? then Quiet(env, r, r') && Below(k, e, depth) == Entries(k.world, id.value)
                else !Quiet(env, r, r') || Below(k, e, depth) == [])
  {
    var id := if k.follow then e.open else e.lopen;
    var didOpen := env.opens(|r.calls|) && id.Some?;
    var r1 := Called(r, OpenDirectory(child, didOpen));
    if didOpen && k.device.Some? {
      var r2 := OpenSubdir(k, env, e, child, r).0;
      OneCall(env, r, r1, OpenDirectory(child, didOpen));
      OneCall(env, r1, r2, CheckDevice(child, env.fstats(|r1.calls|) && k.world.device(id.value) == k.device.value));
      SilentChain(env, r, r1, r2);
    } else {
      OneCall(env, r, OpenSubdir(k, env, e, child, r).0, OpenDirectory(child, didOpen));
    }
  }

  /** One write adds one call, and one record unless a flush failed. */
  lemma OneWrite(env: Env, c: Cand, r: Run, r': Run, ok: bool)
    requires |c.path| < EMIT_STACK_CAPACITY && (r'.sink, ok) == Emitted(env.channel, r.sink, c.path)
    requires r'.calls == r.calls + [Write(c.path, c.depth, ok)] && r'.errors == r.errors && r'.stop == r.stop
    ensures Extends(env, r, r') && Streams(env, r, r')
    ensures (ok <==> Quiet(env, r, r')) && (ok <==> AllWritten(r, r')) && Printed(r, r') == if ok then [c.path] else []
  {
    EmitAddsOneRecord(env.channel, r.sink, c.path);
    var w := Write(c.path, c.depth, ok);
    assert NewCalls(r, r') == [w] && r'.calls[|r.calls|] == w;
    assert FailedPaths([w]) == FailedPaths([w][1..]);
    assert Printed(r, r') == if ok then [c.path] else [];
  }

  lemma EmitOutcome(k: Walk, env: Env, c: Cand, r: Run)
    requires WellBuilt(k.p) && !r.stop && |c.path| < EMIT_STACK_CAPACITY
    ensures var (r', ok) := EmitIfMatch(k, env, c, r);
            Outcome(env, r, r', Matches(k, [c])) && r'.stop == r.stop && (ok <==> Quiet(env, r, r'))
  {
    var (r', ok) := EmitIfMatch(k, env, c, r);
    MatchesOne(k, c);
    if Satisfies(k.world.glob, k.p, c) {
      OneWrite(env, c, r, r', ok);
    } else {
      NoCall(env, r, r');
      NothingPrinted(env, r, r', Matches(k, [c]));
    }
  }

  lemma {:induction false} DirectoryOutcome(k: Walk, env: Env, id: nat, path: string, depth: nat, r: Run)
    requires WellBuilt(k.p) && k.capacity <= PATH_CAPACITY
    ensures var (r', ok) := WalkDirectory(k, env, id, path, depth, r);
            Outcome(env, r, r', Matches(k, List(k, Entries(k.world, id), path, depth))) && (ok ==> !r'.stop)
    decreases k.capacity - |path|, |Entries(k.world, id)| + 1
  {
    var expected := Matches(k, List(k, Entries(k.world, id), path, depth));
    var ok := env.readerCreates(|r.calls|);
    var r1 := Called(r, CreateReader(path, ok));
    if ok {
      OneCall(env, r, r1, CreateReader(path, ok));
      EntriesOutcome(k, env, Entries(k.world, id), path, depth, r1);
      AfterSilence(env, r, r1, WalkEntries(k, env, Entries(k.world, id), path, depth, r1).0, expected);
    } else {
      OneCall(env, r, Complained(r1, path), CreateReader(path, ok));
      NothingPrinted(env, r, Complained(r1, path), expected);
    }
  }

  /** Entering a subdirectory: the parent goes on exactly when no stop is pending. */
  lemma {:induction false} DescendOutcome(k: Walk, env: Env, e: Entry, child: string, depth: nat, r: Run)
    requires WellBuilt(k.p) && k.capacity <= PATH_CAPACITY
    ensures var (r', goOn) := Descend(k, env, e, child, depth, r);
            && Outcome(env, r, r', Matches(k, List(k, Below(k, e, depth), child, depth)))
            && (goOn || r'.stop) && (!r.stop ==> (goOn <==> !r'.stop))
    decreases k.capacity - |child|
  {
    var expected := Matches(k, List(k, Below(k, e, depth), child, depth));
    if !(IsDirectory(k, e) && ShouldDescend(k, e.name, depth)) {
      assert Below(k, e, depth) == [];
      NoCall(env, r, r);
      NothingPrinted(env, r, r, expected);
    } else {
      OpenSubdirIsSilent(k, env, e, child, depth, r);
      var (r1, id) := OpenSubdir(k, env, e, child, r);
      if id.None? {
        NothingPrinted(env, r, r1, expected);
      } else {
        DirectoryOutcome(k, env, id.value, child, depth, r1);
        var (r2, ok) := WalkDirectory(k, env, id.value, child, depth, r1);
        AfterSilence(env, r, r1, r2, expected);
        if !ok {
          PollIsSilent(env, r2);
          BeforeSilence(env, r, r2, Poll(env, r2), expected);
        }
      }
    }
  }

  lemma {:induction false} EntryOutcome(k: Walk, env: Env, e: Entry, path: string, depth: nat, r: Run)
    requires WellBuilt(k.p) && !r.stop && k.capacity <= PATH_CAPACITY
    ensures var (r', goOn) := WalkEntry(k, env, e, path, depth, r);
            && Outcome(env, r, r', Matches(k, ListEntry(k, e, path, depth)))
            && (goOn || r'.stop || !Quiet(env, r, r'))
    decreases k.capacity - |path|, 0
  {
    var child := Join(path, e.name);
    if !Visible(k, e) || |child| >= k.capacity {
      NoCall(env, r, r);
      NothingPrinted(env, r, r, []);
    } else {
      var c := EntryCandidate(k, child, depth + 1, e);
      var sub := List(k, Below(k, e, depth + 1), child, depth + 1);
      var (r1, ok) := EmitIfMatch(k, env, c, r);
      EmitOutcome(k, env, c, r);
      MatchesConcat(k, [c], sub);
      if ok {
        var r2 := PostStat(AfterEvaluate(k.world.glob, k.p, c), r1);
        NoCall(env, r1, r2);
        BeforeSilence(env, r, r1, r2, Matches(k, [c]));
        DescendOutcome(k, env, e, child, depth + 1, r2);
        Chain(env, r, r2, Descend(k, env, e, child, depth + 1, r2).0, Matches(k, [c]), Matches(k, sub));
      } else {
        Cut(env, r, r1, Matches(k, [c]), Matches(k, sub));
      }
    }
  }

  /** What is printed for the entries left in a directory, and for everything below them. */
  lemma {:induction false} EntriesOutcome(k: Walk, env: Env, es: seq<Entry>, path: string, depth: nat, r: Run)
    requires WellBuilt(k.p) && k.capacity <= PATH_CAPACITY
    ensures var (r', ok) := WalkEntries(k, env, es, path, depth, r);
            Outcome(env, r, r', Matches(k, List(k, es, path, depth))) && (ok ==> !r'.stop)
    decreases k.capacity - |path|, |es|
  {
    var (r0, more) := Next(env, path, r);
    NextIsSilent(env, path, r);
    if !more || es == [] {
      NothingPrinted(env, r, r0, Matches(k, List(k, es, path, depth)));
    } else {
      var (r1, goOn) := WalkEntry(k, env, es[0], path, depth, r0);
      var here, rest := Matches(k, ListEntry(k, es[0], path, depth)), Matches(k, List(k, es[1..], path, depth));
      ListByEntry(k, es, path, depth);
      EntryOutcome(k, env, es[0], path, depth, r0);
      AfterSilence(env, r, r0, r1, here);
      if goOn {
        EntriesOutcome(k, env, es[1..], path, depth, r1);
        Chain(env, r, r1, WalkEntries(k, env, es[1..], path, depth, r1).0, here, rest);
      } else {
        Cut(env, r, r1, here, rest);
      }
    }
  }

  function BelowRoot(k: Walk, root: Root, st: Stat): seq<Cand> {
    var t := RootTarget(k, root, st);
    if t.Some? then List(k, Entries(k.world, t.value), root.path, 0) else []
  }

  lemma OpenRootOutcome(k: Walk, env: Env, root: Root, st: Stat, r: Run)
    requires WellBuilt(k.p) && EntersRoot(k, st) && k.capacity <= PATH_CAPACITY
    ensures Outcome(env, r, OpenRoot(k, env, root, r).0, Matches(k, BelowRoot(k, root, st)))
  {
    var t := RootTarget(k, root, st);
    var didOpen := env.opens(|r.calls|) && t.Some?;
    var r1 := Called(r, OpenDirectory(root.path, didOpen));
    if didOpen {
      OneCall(env, r, r1, OpenDirectory(root.path, didOpen));
      DirectoryOutcome(k, env, t.value, root.path, 0, r1);
      AfterSilence(env, r, r1, OpenRoot(k, env, root, r).0, Matches(k, BelowRoot(k, root, st)));
    } else {
      OneCall(env, r, Complained(r1, root.path), OpenDirectory(root.path, didOpen));
      NothingPrinted(env, r, Complained(r1, root.path), Matches(k, BelowRoot(k, root, st)));
    }
  }

  lemma StatedRootOutcome(k: Walk, env: Env, root: Root, st: Stat, r: Run)
    requires WellBuilt(k.p) && !r.stop && RootStat(k, root) == Some(st) && k.capacity <= PATH_CAPACITY
    ensures Outcome(env, r, WalkStatedRoot(k, env, root, st, r).0, Matches(k, ListRoot(k, root)))
  {
    var fits := |root.path| < k.capacity;
    var r1 := Called(r, CheckLength(root.path, fits));
    if fits {
      var c, sub := RootCandidate(k, root, st), BelowRoot(k, root, st);
      OneCall(env, r, r1, CheckLength(root.path, fits));
      var (r2, ok) := EmitIfMatch(k, env, c, r1);
      EmitOutcome(k, env, c, r1);
      AfterSilence(env, r, r1, r2, Matches(k, [c]));
      MatchesConcat(k, [c], sub);
      if !ok {
        Cut(env, r, r2, Matches(k, [c]), Matches(k, sub));
      } else if EntersRoot(k, st) {
        OpenRootOutcome(k, env, root, st, r2);
        Chain(env, r, r2, OpenRoot(k, env, root, r2).0, Matches(k, [c]), Matches(k, sub));
      } else {
        assert [c] + sub == [c];
      }
    } else {
      OneCall(env, r, Complained(r1, root.path), CheckLength(root.path, fits));
      NothingPrinted(env, r, Complained(r1, root.path), Matches(k, ListRoot(k, root)));
    }
  }

  lemma RootOutcome(k: Walk, env: Env, root: Root, r: Run)
    requires WellBuilt(k.p) && !r.stop && k.capacity <= PATH_CAPACITY
    ensures Outcome(env, r, WalkRoot(k, env, root, r).0, Matches(k, ListRoot(k, root)))
  {
    var st := RootStat(k, root);
    var r1 := Called(Stated(r, st.Some?), StatRoot(root.path, st.Some?));
    if st.None? {
      OneCall(env, r, Complained(r1, root.path), StatRoot(root.path, false));
      NothingPrinted(env, r, Complained(r1, root.path), []);
    } else {
      OneCall(env, r, r1, StatRoot(root.path, true));
      StatedRootOutcome(k, env, root, st.value, r1);
      AfterSilence(env, r, r1, WalkRoot(k, env, root, r).0, Matches(k, ListRoot(k, root)));
    }
  }

  lemma {:induction false} RootsOutcome(k: Walk, oneFileSystem: bool, env: Env, roots: seq<Root>, r: Run)
    requires WellBuilt(k.p) && k.capacity <= PATH_CAPACITY
    ensures Outcome(env, r, WalkRoots(k, oneFileSystem, env, roots, r).0, Matches(k, ListRoots(k, oneFileSystem, roots)))
    decreases |roots|
  {
    var expected := Matches(k, ListRoots(k, oneFileSystem, roots));
    var r0 := Poll(env, r);
    PollIsSilent(env, r);
    if roots == [] {
      NoCall(env, r, r);
      NothingPrinted(env, r, r, expected);
    } else if r0.stop {
      NothingPrinted(env, r, r0, expected);
    } else {
      var k1 := k.(device := DeviceAfter(k, oneFileSystem, roots[0]));
      var here, rest := Matches(k, ListRoot(k1, roots[0])), Matches(k, ListRoots(k1, oneFileSystem, roots[1..]));
      MatchesConcat(k, ListRoot(k1, roots[0]), ListRoots(k1, oneFileSystem, roots[1..]));
      RootOutcome(k1, env, roots[0], r0);
      var r1 := WalkRoot(k1, env, roots[0], r0).0;
      AfterSilence(env, r, r0, r1, here);
      RootsOutcome(k1, oneFileSystem, env, roots[1..], r1);
      Chain(env, r, r1, WalkRoots(k1, oneFileSystem, env, roots[1..], r1).0, here, rest);
    }
  }

  function Roots(w: World, roots: seq<Root>): seq<Root> { if roots == [] then [w.dot] else roots }

  /** The output the command line asks for. */
  function Expected(k: Walk, oneFileSystem: bool, roots: seq<Root>): seq<string> {
    Matches(k, ListRoots(k, oneFileSystem, Roots(k.world, roots)))
  }

  /** What is printed by a whole run. */
  lemma RunOutcome(k: Walk, oneFileSystem: bool, env: Env, roots: seq<Root>, r: Run)
    requires WellBuilt(k.p) && !r.stop && k.capacity <= PATH_CAPACITY
    ensures Outcome(env, r, WalkAll(k, oneFileSystem, env, roots, r).0, Expected(k, oneFileSystem, roots))
  {
    if roots == [] {
      var k1 := k.(device := DeviceAfter(k, oneFileSystem, k.world.dot));
      RootOutcome(k1, env, k.world.dot, r);
      assert ListRoots(k, oneFileSystem, [k.world.dot]) == ListRoot(k1, k.world.dot) + ListRoots(k1, oneFileSystem, [k.world.dot][1..]);
      assert ListRoots(k, oneFileSystem, [k.world.dot]) == ListRoot(k1, k.world.dot);
    } else {
      RootsOutcome(k, oneFileSystem, env, roots, r);
    }
  }
}
