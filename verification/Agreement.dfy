/** The two walkers print the same records. */
module Agreement {
  import opened Basics
  import opened FileSystem
  import opened Paths
  import opened Filter
  import opened FilterLaws
  import opened Listing
  import opened Pruning
  import opened ParallelWalk
  import opened ParallelLaws

  /** lstat succeeds, and reports a file, a directory or a link unless no type is asked for. */
  predicate Regular(k: Walk, e: Entry) { e.lstat.Some? && (e.lstat.value.kind != Any || k.p.o.kind.None?) }

  predicate AllRegular(k: Walk, es: seq<Entry>) { forall e :: e in es ==> Regular(k, e) }

  /** Where the walkers agree: links not followed, no confinement to one file system, regular entries. */
  predicate Ordinary(cfg: Config) {
    && !cfg.oneFileSystem && !cfg.k.follow && cfg.k.device.None? && cfg.k.rule.Parallel?
    && forall id :: id in cfg.k.world.directories ==> AllRegular(cfg.k, cfg.k.world.directories[id])
  }

  /** A root given without trailing slashes, that fits the buffer. */
  predicate PlainRoot(k: Walk, root: Root) {
    |root.path| < k.capacity && (|root.path| > 1 ==> root.path[|root.path| - 1] != '/')
  }

  /** A visit prints the entry's path exactly when the filter accepts the sequential candidate:
      what the engine says up front is what the lazy evaluation would have found out. */
  lemma VisitAgrees(cfg: Config, e: Entry, path: string, depth: nat)
    requires Ordinary(cfg) && Regular(cfg.k, e)
    ensures var child := Join(path, e.name);
            VisitEvent(cfg, Deliver(cfg.k, child, depth, e))
            == if Satisfies(cfg.k.world.glob, cfg.k.p, EntryCandidate(cfg.k, child, depth, e)) then Some(child) else None
  {
    BasenameOfJoin(path, e.name);
  }

  /** The callback queues the directory the listing enters. */
  lemma DescentAgrees(cfg: Config, e: Entry, path: string, depth: nat)
    requires Ordinary(cfg) && Regular(cfg.k, e)
    ensures var child, t := Join(path, e.name), Target(cfg.k, e, depth);
            Queued(cfg, child, depth, e) == if t.Some? then [OpenJob(t.value, child, depth)] else []
  {
    BasenameOfJoin(path, e.name);
    assert cfg.k.(rule := Parallel) == cfg.k;
  }

  lemma VisitCounts(cfg: Config, x: string, e: Entry, path: string, depth: nat)
    requires Ordinary(cfg) && Regular(cfg.k, e)
    ensures var child := Join(path, e.name);
            Only(x)(VisitEvent(cfg, Deliver(cfg.k, child, depth, e)))
            == multiset(Matches(cfg.k, [EntryCandidate(cfg.k, child, depth, e)]))[x]
  {
    VisitAgrees(cfg, e, path, depth);
    MatchesOne(cfg.k, EntryCandidate(cfg.k, Join(path, e.name), depth, e));
  }

  lemma CountsAdd(a: seq<string>, b: seq<string>, x: string)
    ensures multiset(a + b)[x] == multiset(a)[x] + multiset(b)[x]
  {
  }

  /** Weighing one record, the plan of a directory is the number of times its listing matches it. */
  lemma {:induction false} PlanIsListing(cfg: Config, x: string, es: seq<Entry>, path: string, depth: nat)
    requires Ordinary(cfg) && AllRegular(cfg.k, es)
    ensures PlanEntries(cfg, Only(x), es, path, depth) == multiset(Matches(cfg.k, List(cfg.k, es, path, depth)))[x]
    decreases cfg.k.capacity - |path|, |es|, 1
  {
    if es != [] {
      PlanIsEntryListing(cfg, x, es[0], path, depth);
      PlanIsListing(cfg, x, es[1..], path, depth);
      ListByEntry(cfg.k, es, path, depth);
    }
  }

  lemma EntryListingCounts(k: Walk, x: string, c: Cand, sub: seq<Cand>)
    ensures multiset(Matches(k, [c] + sub))[x] == multiset(Matches(k, [c]))[x] + multiset(Matches(k, sub))[x]
  {
    MatchesConcat(k, [c], sub);
    CountsAdd(Matches(k, [c]), Matches(k, sub), x);
  }

  lemma {:induction false} PlanIsEntryListing(cfg: Config, x: string, e: Entry, path: string, depth: nat)
    requires Ordinary(cfg) && Regular(cfg.k, e)
    ensures PlanEntry(cfg, Only(x), e, path, depth) == multiset(Matches(cfg.k, ListEntry(cfg.k, e, path, depth)))[x]
    decreases cfg.k.capacity - |path|, 0, 0
  {
    var child := Join(path, e.name);
    if Visible(cfg.k, e) && |child| < cfg.k.capacity {
      var c := EntryCandidate(cfg.k, child, depth + 1, e);
      var sub := List(cfg.k, Below(cfg.k, e, depth + 1), child, depth + 1);
      VisitCounts(cfg, x, e, path, depth + 1);
      EntryListingCounts(cfg.k, x, c, sub);
      PlanIsSublisting(cfg, x, e, path, depth + 1);
    }
  }

  lemma {:induction false} PlanIsSublisting(cfg: Config, x: string, e: Entry, path: string, depth: nat)
    requires Ordinary(cfg) && Regular(cfg.k, e) && |Join(path, e.name)| < cfg.k.capacity
    ensures var child := Join(path, e.name);
            PlanTasks(cfg, Only(x), Queued(cfg, child, depth, e), child, depth)
            == multiset(Matches(cfg.k, List(cfg.k, Below(cfg.k, e, depth), child, depth)))[x]
    decreases cfg.k.capacity - |Join(path, e.name)|
  {
    DescentAgrees(cfg, e, path, depth);
    var t := Target(cfg.k, e, depth);
    if t.Some? {
      PlanIsListing(cfg, x, Entries(cfg.k.world, t.value), Join(path, e.name), depth);
    }
  }

  /** What a visited entry is judged by: what the engine says of it, or, when that leaves the type open and
      a type is asked for, what its basename is in the working directory. */
  function VisitJudgedBy(cfg: Config, d: Delivered, name: string): Option<Stat> {
    if d.populated && (d.kind != Any || cfg.k.p.o.kind.None?) then Some(Stat(d.kind, d.size, d.mtime, d.perm, d.device))
    else cfg.k.world.cwdStat(name, cfg.k.follow)
  }

  lemma DeliveredFacts(cfg: Config, d: Delivered, name: string, st: Stat)
    requires IsBasename(d.path, name) && d.size >= 0 && (d.populated || d.kind == Any)
    requires VisitJudgedBy(cfg, d, name) == Some(st)
    ensures var p, c := cfg.k.p, DeliveredCandidate(cfg.k, d);
            && c.path == d.path && c.basename == name && c.depth == d.depth
            && (p.o.kind.Some? ==> KnownKind(c) == Some(st.kind))
            && KnownFacts(p, c).Some? && FactsOf(KnownFacts(p, c).value, st)
  {
    BasenameOfIsBasename(d.path);
    BasenameIsUnique(d.path, name, BasenameOf(d.path));
  }

  /** A visit prints the delivered path exactly when the entry is not foreign and every test holds of its
      path, of the part of it after the last slash, of its depth and of the facts it is judged by. */
  lemma VisitIsJudgedEagerly(cfg: Config, d: Delivered, name: string)
    requires WellBuilt(cfg.k.p) && IsBasename(d.path, name) && d.size >= 0 && (d.populated || d.kind == Any)
    requires VisitJudgedBy(cfg, d, name).Some?
    ensures VisitEvent(cfg, d)
         == if !(cfg.oneFileSystem && cfg.deviceKnown && d.device != cfg.rootDevice)
               && EagerlyAccepts(cfg.k.world.glob, cfg.k.p, d.path, name, d.depth, VisitJudgedBy(cfg, d, name).value)
            then Some(d.path) else None
  {
    var st := VisitJudgedBy(cfg, d, name).value;
    DeliveredFacts(cfg, d, name, st);
    FactsDecide(cfg.k.world.glob, cfg.k.p, DeliveredCandidate(cfg.k, d), st);
  }

  /** Dropping trailing slashes changes a root path exactly when it is longer than one byte and ends in a slash. */
  lemma {:induction false} StrippedIffPlain(path: string)
    ensures |Stripped(path)| <= |path|
    ensures Stripped(path) == path <==> |path| <= 1 || path[|path| - 1] != '/'
    decreases |path|
  {
    if |path| > 1 && path[|path| - 1] == '/' {
      StrippedIffPlain(path[..|path| - 1]);
    }
  }

  /** What is left of a root path: a beginning of it, without anything but slashes dropped, that ends in
      no slash unless it is a single byte, and is empty only if the path was. */
  lemma {:induction false} StrippedDropsSlashesOnly(path: string)
    ensures var s := Stripped(path);
            && s <= path && (forall i :: |s| <= i < |path| ==> path[i] == '/')
            && (|s| > 1 ==> s[|s| - 1] != '/') && (path != "" ==> s != "")
    decreases |path|
  {
    if |path| > 1 && path[|path| - 1] == '/' {
      StrippedDropsSlashesOnly(path[..|path| - 1]);
    }
  }

  lemma RootEventIsOfItsCandidate(cfg: Config, root: Root, name: string)
    requires IsBasename(Stripped(root.path), name)
    ensures var st, path := RootStat(cfg.k, root), Stripped(root.path);
            RootEvent(cfg, root)
            == if st.Some? && Satisfies(cfg.k.world.glob, cfg.k.p, RootAs(cfg.k, root, st.value, path, name)) then Some(path) else None
  {
    BasenameOfIsBasename(Stripped(root.path));
    BasenameIsUnique(Stripped(root.path), name, BasenameOf(Stripped(root.path)));
  }

  /** The parallel walker prints a root, without its trailing slashes, exactly when it can be stat'd and
      every test holds of what is printed and of the facts the root is judged by. */
  lemma RootEventIsJudgedEagerly(cfg: Config, root: Root, name: string)
    requires IsBasename(Stripped(root.path), name) && WellBuilt(cfg.k.p)
    ensures var st, path := if cfg.k.follow then root.stat else root.lstat, Stripped(root.path);
            var judge := if st.Some? then JudgedBy(cfg.k, cfg.k.p.o, name, st.value) else None;
            RootEvent(cfg, root)
            == if judge.Some? && EagerlyAccepts(cfg.k.world.glob, cfg.k.p, path, name, 0, judge.value) then Some(path) else None
  {
    var st := RootStat(cfg.k, root);
    RootEventIsOfItsCandidate(cfg, root, name);
    if st.Some? {
      RootSatisfiesEagerly(cfg.k, cfg.k.p, root, st.value, Stripped(root.path), name);
    }
  }

  lemma RootEventAgrees(cfg: Config, root: Root, st: Stat)
    requires PlainRoot(cfg.k, root) && RootStat(cfg.k, root) == Some(st)
    ensures RootEvent(cfg, root)
         == if Satisfies(cfg.k.world.glob, cfg.k.p, RootCandidate(cfg.k, root, st)) then Some(root.path) else None
  {
    StrippedIffPlain(root.path);
    var c := RootCandidate(cfg.k, root, st);
    assert c == c.(path := root.path, basename := BasenameOf(root.path), oracle := cfg.k.world.cwdStat(BasenameOf(root.path), false));
  }

  lemma RootCounts(cfg: Config, x: string, root: Root, st: Stat)
    requires PlainRoot(cfg.k, root) && RootStat(cfg.k, root) == Some(st)
    ensures Only(x)(RootEvent(cfg, root)) == multiset(Matches(cfg.k, [RootCandidate(cfg.k, root, st)]))[x]
  {
    RootEventAgrees(cfg, root, st);
    MatchesOne(cfg.k, RootCandidate(cfg.k, root, st));
  }

  lemma RootTaskAgrees(cfg: Config, x: string, root: Root, st: Stat)
    requires Ordinary(cfg) && PlainRoot(cfg.k, root) && RootStat(cfg.k, root) == Some(st)
    ensures var t := RootTarget(cfg.k, root, st);
            PlanJobs(cfg, Only(x), RootTask(cfg, root))
            == multiset(Matches(cfg.k, if t.Some? then List(cfg.k, Entries(cfg.k.world, t.value), root.path, 0) else []))[x]
  {
    StrippedIffPlain(root.path);
    var t := RootTarget(cfg.k, root, st);
    if t.Some? {
      PlanIsListing(cfg, x, Entries(cfg.k.world, t.value), root.path, 0);
      PlanOfOne(cfg, Only(x), OpenJob(t.value, root.path, 0));
    }
  }

  lemma PlanIsRootListing(cfg: Config, x: string, root: Root)
    requires Ordinary(cfg) && PlainRoot(cfg.k, root)
    ensures PlanRoot(cfg, Only(x), root) == multiset(Matches(cfg.k, ListRoot(cfg.k, root)))[x]
  {
    var st := RootStat(cfg.k, root);
    if st.Some? {
      var c, t := RootCandidate(cfg.k, root, st.value), RootTarget(cfg.k, root, st.value);
      RootCounts(cfg, x, root, st.value);
      RootTaskAgrees(cfg, x, root, st.value);
      var sub := if t.Some? then List(cfg.k, Entries(cfg.k.world, t.value), root.path, 0) else [];
      MatchesConcat(cfg.k, [c], sub);
      CountsAdd(Matches(cfg.k, [c]), Matches(cfg.k, sub), x);
    }
  }

  lemma {:induction false} PlanIsRootsListing(cfg: Config, x: string, roots: seq<Root>)
    requires Ordinary(cfg) && forall i :: 0 <= i < |roots| ==> PlainRoot(cfg.k, roots[i])
    ensures PlanRoots(cfg, Only(x), roots) == multiset(Matches(cfg.k, ListRoots(cfg.k, false, roots)))[x]
    decreases |roots|
  {
    if roots != [] {
      PlanIsRootListing(cfg, x, roots[0]);
      PlanIsRootsListing(cfg, x, roots[1..]);
      assert cfg.k.(device := DeviceAfter(cfg.k, false, roots[0])) == cfg.k;
      MatchesConcat(cfg.k, ListRoot(cfg.k, roots[0]), ListRoots(cfg.k, false, roots[1..]));
    }
  }

  // ----- what the hypothesis on path lengths says -----

  /** The same walk with a buffer of another size. */
  function WithCapacity(cfg: Config, n: nat): Walk { cfg.k.(capacity := n) }

  lemma {:induction false} FittingIsNotCut(cfg: Config, n: nat, es: seq<Entry>, path: string, depth: nat, c: Cand)
    requires Ordinary(cfg) && AllRegular(cfg.k, es) && Fits(cfg, es, path, depth)
    requires c in List(WithCapacity(cfg, n), es, path, depth)
    ensures |c.path| < cfg.k.capacity
    decreases n - |path|, |es|
  {
    var k, child := WithCapacity(cfg, n), Join(path, es[0].name);
    if c in List(k, es[1..], path, depth) {
      FittingIsNotCut(cfg, n, es[1..], path, depth, c);
    } else if c != EntryCandidate(k, child, depth + 1, es[0]) {
      SameBelow(cfg, n, es[0], path, depth + 1);
      FittingIsNotCut(cfg, n, Below(k, es[0], depth + 1), child, depth + 1, c);
    }
  }

  lemma {:induction false} UnfittingIsCut(cfg: Config, es: seq<Entry>, path: string, depth: nat) returns (n: nat, c: Cand)
    requires Ordinary(cfg) && AllRegular(cfg.k, es) && |path| < cfg.k.capacity && !Fits(cfg, es, path, depth)
    ensures n > cfg.k.capacity && c in List(WithCapacity(cfg, n), es, path, depth) && |c.path| >= cfg.k.capacity
    decreases cfg.k.capacity - |path|, |es|
  {
    var child := Join(path, es[0].name);
    if EntryFits(cfg, es[0], path, depth) {
      n, c := UnfittingIsCut(cfg, es[1..], path, depth);
    } else if |child| >= cfg.k.capacity {
      n, c := |child| + 1, EntryCandidate(cfg.k, child, depth + 1, es[0]);
    } else {
      SameBelow(cfg, 0, es[0], path, depth + 1);
      n, c := UnfittingIsCut(cfg, Below(cfg.k, es[0], depth + 1), child, depth + 1);
      SameBelow(cfg, n, es[0], path, depth + 1);
    }
  }

  lemma SameBelow(cfg: Config, n: nat, e: Entry, path: string, depth: nat)
    requires Ordinary(cfg) && Regular(cfg.k, e)
    ensures Below(WithCapacity(cfg, n), e, depth) == Below(cfg.k, e, depth) && AllRegular(cfg.k, Below(cfg.k, e, depth))
    ensures var child := Join(path, e.name);
            TasksFit(cfg, Queued(cfg, child, depth, e), child, depth) <==> Fits(cfg, Below(cfg.k, e, depth), child, depth)
  {
    DescentAgrees(cfg, e, path, depth);
    BelowIgnoresCapacity(cfg.k, WithCapacity(cfg, n), e, depth);
  }

  /** The hypothesis holds exactly when no buffer, however large, would make the walk list a path
      that this one cannot hold. */
  lemma FitsIffNothingIsCut(cfg: Config, es: seq<Entry>, path: string, depth: nat)
    requires Ordinary(cfg) && AllRegular(cfg.k, es) && |path| < cfg.k.capacity
    ensures Fits(cfg, es, path, depth)
       <==> forall n: nat, c: Cand :: c in List(WithCapacity(cfg, n), es, path, depth) ==> |c.path| < cfg.k.capacity
  {
    if Fits(cfg, es, path, depth) {
      forall n: nat, c: Cand | c in List(WithCapacity(cfg, n), es, path, depth) ensures |c.path| < cfg.k.capacity {
        FittingIsNotCut(cfg, n, es, path, depth, c);
      }
    } else {
      var n, c := UnfittingIsCut(cfg, es, path, depth);
    }
  }

  // ----- what has been printed -----

  function RecordsOfAll(logs: seq<seq<Event>>): seq<string> {
    if logs == [] then [] else RecordsOf(logs[0]) + RecordsOfAll(logs[1..])
  }

  /** All the records in the main buffer and the slots, in the order the merge visits them. */
  function AllRecords(s: State): seq<string> { RecordsOf(s.mainLog) + RecordsOfAll(s.logs) }

  lemma {:induction false} WeightCountsRecords(x: string, log: seq<Event>)
    ensures WeightOf(Only(x), log) == multiset(RecordsOf(log))[x]
  {
    if log != [] {
      WeightCountsRecords(x, log[1..]);
    }
  }

  lemma {:induction false} WeightCountsAllRecords(x: string, logs: seq<seq<Event>>)
    ensures WeightOfAll(Only(x), logs) == multiset(RecordsOfAll(logs))[x]
  {
    if logs != [] {
      WeightCountsRecords(x, logs[0]);
      WeightCountsAllRecords(x, logs[1..]);
    }
  }

  /** The hypotheses under which the walkers are compared. */
  ghost predicate Comparable(cfg: Config, roots: seq<Root>) {
    && Ordinary(cfg)
    && forall i :: 0 <= i < |roots| ==> PlainRoot(cfg.k, roots[i]) && RootFits(cfg, roots[i])
  }

  /** The records the sequential walker is expected to print for these roots. */
  function SequentialRecords(cfg: Config, roots: seq<Root>): seq<string> {
    var k := cfg.k.(rule := Sequential);
    Matches(k, ListRoots(k, false, roots))
  }

  lemma StartHolds(cfg: Config, roots: seq<Root>, workers: nat)
    requires Comparable(cfg, roots)
    ensures Inv(cfg, Start(roots, workers)) && AllRecords(Start(roots, workers)) == []
    ensures forall f :: Outstanding(cfg, f, Start(roots, workers)) == PlanRoots(cfg, f, roots)
  {
    var s := Start(roots, workers);
    forall f ensures Outstanding(cfg, f, s) == PlanRoots(cfg, f, roots) {
      IdleHasNoWork(cfg, f, s.todo);
    }
    EmptyLogs(s.logs);
  }

  lemma {:induction false} EmptyLogs(logs: seq<seq<Event>>)
    requires forall w :: 0 <= w < |logs| ==> logs[w] == []
    ensures RecordsOfAll(logs) == []
  {
    if logs != [] {
      EmptyLogs(logs[1..]);
    }
  }

  /** One record along one schedule without a stop: printed so far plus still to come is its number in
      the sequential output. */
  lemma RecordIsConserved(cfg: Config, roots: seq<Root>, workers: nat, actions: seq<Action>, s: State, x: string)
    requires Comparable(cfg, roots) && Schedule(cfg, Start(roots, workers), actions, s) && Uninterrupted(actions)
    ensures multiset(AllRecords(s))[x] + Outstanding(cfg, Only(x), s) == multiset(SequentialRecords(cfg, roots))[x]
  {
    StartHolds(cfg, roots, workers);
    ScheduleConserves(cfg, Only(x), Start(roots, workers), actions, s);
    LoggedCountsRecords(x, s);
    LoggedCountsRecords(x, Start(roots, workers));
    PlanCountsSequentialRecords(cfg, roots, x);
  }

  lemma LoggedCountsRecords(x: string, s: State)
    ensures Logged(Only(x), s) == multiset(AllRecords(s))[x]
  {
    WeightCountsRecords(x, s.mainLog);
    WeightCountsAllRecords(x, s.logs);
  }

  lemma PlanCountsSequentialRecords(cfg: Config, roots: seq<Root>, x: string)
    requires Comparable(cfg, roots)
    ensures PlanRoots(cfg, Only(x), roots) == multiset(SequentialRecords(cfg, roots))[x]
  {
    PlanIsRootsListing(cfg, x, roots);
    DescentRulesAgree(cfg.k, false, roots);
    assert cfg.k.(rule := Parallel) == cfg.k;
  }

  /** At every point of every schedule, also when a stop makes workers quit and directories be discarded
      while later roots are still handled, nothing has been printed that the sequential walk does not
      print, nor more often. */
  lemma EveryScheduleStaysWithin(cfg: Config, roots: seq<Root>, workers: nat, actions: seq<Action>, s: State)
    requires Comparable(cfg, roots) && Schedule(cfg, Start(roots, workers), actions, s)
    ensures multiset(AllRecords(s)) <= multiset(SequentialRecords(cfg, roots))
  {
    StartHolds(cfg, roots, workers);
    forall x ensures multiset(AllRecords(s))[x] <= multiset(SequentialRecords(cfg, roots))[x] {
      ScheduleNeverGains(cfg, Only(x), Start(roots, workers), actions, s);
      LoggedCountsRecords(x, s);
      LoggedCountsRecords(x, Start(roots, workers));
      PlanCountsSequentialRecords(cfg, roots, x);
    }
  }

  /** Whatever the schedule, a walk that finishes without a stop has printed exactly the records of the
      sequential walk; it took as many steps as were planned, so every schedule can be continued to such
      an end and none is longer. */
  lemma EveryScheduleAgrees(cfg: Config, roots: seq<Root>, workers: nat, actions: seq<Action>, s: State)
    requires Comparable(cfg, roots) && Schedule(cfg, Start(roots, workers), actions, s) && Uninterrupted(actions) && workers > 0
    ensures |actions| <= PlanRoots(cfg, EachStep(), roots)
    ensures Finished(s) <==> |actions| == PlanRoots(cfg, EachStep(), roots)
    ensures Finished(s) ==> multiset(AllRecords(s)) == multiset(SequentialRecords(cfg, roots))
  {
    StartHolds(cfg, roots, workers);
    ScheduleConserves(cfg, EachStep(), Start(roots, workers), actions, s);
    ScheduleKeepsInv(cfg, Start(roots, workers), actions, s);
    FinishedIffNothingOutstanding(cfg, s);
    if Finished(s) {
      forall x ensures multiset(AllRecords(s))[x] == multiset(SequentialRecords(cfg, roots))[x] {
        RecordIsConserved(cfg, roots, workers, actions, s, x);
      }
    }
  }
}
