/** What confinement to one file system means for each walker: the parallel one walks the tree from which
    the entries of other devices are erased, the sequential one the tree in which directories of other
    devices do not open. */
module Confinement {
  import opened Basics
  import opened FileSystem
  import opened Paths
  import opened Filter
  import opened Listing
  import opened ParallelWalk
  import opened ParallelLaws
  import opened Agreement

  // ----- the callbacks -----

  function Unconfined(cfg: Config): Config { cfg.(oneFileSystem := false) }

  /** Once the root device is known, a confined callback takes nothing of another device, and treats an
      entry of the root device as it would without confinement. */
  lemma CallbacksStayHome(cfg: Config, slot: Slot, d: Delivered, mem: Memory)
    requires cfg.oneFileSystem && cfg.deviceKnown
    ensures VisitEvent(cfg, d).Some? || ShouldDescendInto(cfg, d) ==> d.device == cfg.rootDevice
    ensures d.device != cfg.rootDevice ==> VisitIn(cfg, mem, slot, d) == (slot, true, [])
    ensures d.device == cfg.rootDevice ==>
              && VisitEvent(cfg, d) == VisitEvent(Unconfined(cfg), d)
              && VisitIn(cfg, mem, slot, d) == VisitIn(Unconfined(cfg), mem, slot, d)
              && (ShouldDescendInto(cfg, d) <==> ShouldDescendInto(Unconfined(cfg), d))
  {
  }

  // ----- erasing what lies on other devices -----

  predicate Home(cfg: Config, e: Entry) { e.lstat.Some? && e.lstat.value.device == cfg.rootDevice }

  function AtHome(cfg: Config, es: seq<Entry>): seq<Entry> {
    if es == [] then [] else (if Home(cfg, es[0]) then [es[0]] else []) + AtHome(cfg, es[1..])
  }

  /** The same configuration, not confined, on the tree without the entries of other devices. */
  function Erased(cfg: Config): Config {
    var w := cfg.k.world;
    cfg.(oneFileSystem := false,
         k := cfg.k.(world := w.(directories := map id | id in w.directories :: AtHome(cfg, w.directories[id]))))
  }

  /** A confined configuration and roots on which everything else is as for the comparison of the walkers. */
  ghost predicate ConfinedComparable(cfg: Config, roots: seq<Root>) {
    && cfg.oneFileSystem && cfg.deviceKnown && Ordinary(Unconfined(cfg))
    && forall i :: 0 <= i < |roots| ==> PlainRoot(cfg.k, roots[i]) && RootFits(cfg, roots[i])
  }

  lemma {:induction false} HomeEntriesAreRegular(cfg: Config, es: seq<Entry>)
    requires AllRegular(cfg.k, es)
    ensures forall e :: e in AtHome(cfg, es) ==> e in es && Home(cfg, e) && Regular(Erased(cfg).k, e)
  {
    if es != [] {
      assert es[0] in es && forall e :: e in es[1..] ==> e in es;
      HomeEntriesAreRegular(cfg, es[1..]);
      assert AtHome(cfg, es) == (if Home(cfg, es[0]) then [es[0]] else []) + AtHome(cfg, es[1..]);
      assert Regular(cfg.k, es[0]) ==> Regular(Erased(cfg).k, es[0]);
    }
  }

  lemma ErasedIsOrdinary(cfg: Config)
    requires Ordinary(Unconfined(cfg))
    ensures Ordinary(Erased(cfg))
  {
    forall id | id in cfg.k.world.directories ensures AllRegular(Erased(cfg).k, AtHome(cfg, cfg.k.world.directories[id])) {
      HomeEntriesAreRegular(cfg, cfg.k.world.directories[id]);
    }
  }

  /** A foreign entry leaves no record and queues nothing; any other is treated as in the erased tree. */
  lemma EntryIsErased(cfg: Config, e: Entry, path: string, depth: nat)
    requires cfg.oneFileSystem && cfg.deviceKnown && e.lstat.Some?
    ensures var d, d' := Deliver(cfg.k, path, depth, e), Deliver(Erased(cfg).k, path, depth, e);
            if Home(cfg, e)
            then VisitEvent(cfg, d) == VisitEvent(Erased(cfg), d') && Queued(cfg, path, depth, e) == Queued(Erased(cfg), path, depth, e)
            else VisitEvent(cfg, d) == None && Queued(cfg, path, depth, e) == []
  {
  }

  lemma AtHomeFirst(cfg: Config, es: seq<Entry>)
    requires es != []
    ensures Home(cfg, es[0]) ==> AtHome(cfg, es) != [] && AtHome(cfg, es)[0] == es[0] && AtHome(cfg, es)[1..] == AtHome(cfg, es[1..])
    ensures !Home(cfg, es[0]) ==> AtHome(cfg, es) == AtHome(cfg, es[1..])
  {
  }

  /** Counting one record, the plan of a confined walk is the plan of the erased tree. */
  lemma {:induction false} PlanIsErased(cfg: Config, x: string, es: seq<Entry>, path: string, depth: nat)
    requires cfg.oneFileSystem && cfg.deviceKnown && Ordinary(Unconfined(cfg)) && AllRegular(cfg.k, es)
    ensures PlanEntries(cfg, Only(x), es, path, depth) == PlanEntries(Erased(cfg), Only(x), AtHome(cfg, es), path, depth)
    decreases cfg.k.capacity - |path|, |es|, 1
  {
    if es != [] {
      AtHomeFirst(cfg, es);
      PlanOfEntryIsErased(cfg, x, es[0], path, depth);
      PlanIsErased(cfg, x, es[1..], path, depth);
    }
  }

  lemma {:induction false} PlanOfEntryIsErased(cfg: Config, x: string, e: Entry, path: string, depth: nat)
    requires cfg.oneFileSystem && cfg.deviceKnown && Ordinary(Unconfined(cfg)) && Regular(cfg.k, e)
    ensures PlanEntry(cfg, Only(x), e, path, depth) == if Home(cfg, e) then PlanEntry(Erased(cfg), Only(x), e, path, depth) else 0
    decreases cfg.k.capacity - |path|, 0, 0
  {
    var child := Join(path, e.name);
    EntryIsErased(cfg, e, child, depth + 1);
    if |child| < cfg.k.capacity {
      PlanOfTasksIsErased(cfg, x, Queued(cfg, child, depth + 1, e), child, depth + 1);
    }
  }

  lemma {:induction false} PlanOfTasksIsErased(cfg: Config, x: string, ts: seq<Task>, path: string, depth: nat)
    requires cfg.oneFileSystem && cfg.deviceKnown && Ordinary(Unconfined(cfg))
    ensures PlanTasks(cfg, Only(x), ts, path, depth) == PlanTasks(Erased(cfg), Only(x), ts, path, depth)
    decreases cfg.k.capacity - |path|
  {
    if ts != [] {
      PlanIsErased(cfg, x, Entries(cfg.k.world, ts[0].id), path, depth);
    }
  }

  lemma {:induction false} PlanOfRootsIsErased(cfg: Config, x: string, roots: seq<Root>)
    requires cfg.oneFileSystem && cfg.deviceKnown && Ordinary(Unconfined(cfg))
    ensures PlanRoots(cfg, Only(x), roots) == PlanRoots(Erased(cfg), Only(x), roots)
  {
    if roots != [] {
      PlanOfRootsIsErased(cfg, x, roots[1..]);
      var ts := RootTask(cfg, roots[0]);
      assert RootTask(Erased(cfg), roots[0]) == ts && RootEvent(Erased(cfg), roots[0]) == RootEvent(cfg, roots[0]);
      if ts != [] {
        PlanOfOne(cfg, Only(x), ts[0]);
        PlanOfOne(Erased(cfg), Only(x), ts[0]);
        PlanOfTasksIsErased(cfg, x, ts, ts[0].path, ts[0].depth);
      }
    }
  }

  // ----- paths that fit still fit -----

  lemma {:induction false} FitsErased(cfg: Config, es: seq<Entry>, path: string, depth: nat)
    requires cfg.oneFileSystem && cfg.deviceKnown && Ordinary(Unconfined(cfg)) && AllRegular(cfg.k, es)
    requires Fits(cfg, es, path, depth)
    ensures Fits(Erased(cfg), AtHome(cfg, es), path, depth)
    decreases cfg.k.capacity - |path|, |es|
  {
    if es != [] {
      var child := Join(path, es[0].name);
      AtHomeFirst(cfg, es);
      FitsErased(cfg, es[1..], path, depth);
      assert es[0] in es && EntryFits(cfg, es[0], path, depth);
      EntryFitsErased(cfg, es[0], path, depth);
    }
  }

  lemma {:induction false} EntryFitsErased(cfg: Config, e: Entry, path: string, depth: nat)
    requires cfg.oneFileSystem && cfg.deviceKnown && Ordinary(Unconfined(cfg)) && Regular(cfg.k, e)
    requires EntryFits(cfg, e, path, depth)
    ensures Home(cfg, e) ==> EntryFits(Erased(cfg), e, path, depth)
    decreases cfg.k.capacity - |path|, 0
  {
    var child := Join(path, e.name);
    EntryIsErased(cfg, e, child, depth + 1);
    var ts := Queued(cfg, child, depth + 1, e);
    if Visible(cfg.k, e) && ts != [] {
      assert TasksFit(cfg, ts, child, depth + 1);
      FitsErased(cfg, Entries(cfg.k.world, ts[0].id), child, depth + 1);
    }
  }

  lemma ErasedIsComparable(cfg: Config, roots: seq<Root>)
    requires ConfinedComparable(cfg, roots)
    ensures Comparable(Erased(cfg), roots)
  {
    ErasedIsOrdinary(cfg);
    forall i | 0 <= i < |roots| ensures PlainRoot(Erased(cfg).k, roots[i]) && RootFits(Erased(cfg), roots[i]) {
      var ts := RootTask(cfg, roots[i]);
      assert RootTask(Erased(cfg), roots[i]) == ts;
      if ts != [] {
        FitsErased(cfg, Entries(cfg.k.world, ts[0].id), Stripped(roots[i].path), 0);
      }
    }
  }

  // ----- every schedule -----

  lemma ConfinedStartHolds(cfg: Config, roots: seq<Root>, workers: nat)
    requires ConfinedComparable(cfg, roots)
    ensures Inv(cfg, Start(roots, workers)) && AllRecords(Start(roots, workers)) == []
  {
    EmptyLogs(Start(roots, workers).logs);
  }

  lemma ConfinedStartCounts(cfg: Config, roots: seq<Root>, workers: nat, x: string)
    requires ConfinedComparable(cfg, roots)
    ensures Outstanding(cfg, Only(x), Start(roots, workers)) == multiset(SequentialRecords(Erased(cfg), roots))[x]
  {
    IdleHasNoWork(cfg, Only(x), Start(roots, workers).todo);
    PlanOfRootsIsErased(cfg, x, roots);
    ErasedIsComparable(cfg, roots);
    PlanCountsSequentialRecords(Erased(cfg), roots, x);
  }

  /** A confined parallel walk prints, under every schedule, nothing but what the sequential walker prints
      of the erased tree; and when it finishes without a stop, exactly that. */
  lemma ConfinedScheduleAgrees(cfg: Config, roots: seq<Root>, workers: nat, actions: seq<Action>, s: State)
    requires ConfinedComparable(cfg, roots) && Schedule(cfg, Start(roots, workers), actions, s) && workers > 0
    ensures multiset(AllRecords(s)) <= multiset(SequentialRecords(Erased(cfg), roots))
    ensures Uninterrupted(actions) && Finished(s) ==> multiset(AllRecords(s)) == multiset(SequentialRecords(Erased(cfg), roots))
  {
    forall x
      ensures multiset(AllRecords(s))[x] <= multiset(SequentialRecords(Erased(cfg), roots))[x]
      ensures Uninterrupted(actions) && Finished(s) ==>
                multiset(AllRecords(s))[x] == multiset(SequentialRecords(Erased(cfg), roots))[x]
    {
      ConfinedRecordIsConserved(cfg, roots, workers, actions, s, x);
    }
  }

  lemma ConfinedRecordIsConserved(cfg: Config, roots: seq<Root>, workers: nat, actions: seq<Action>, s: State, x: string)
    requires ConfinedComparable(cfg, roots) && Schedule(cfg, Start(roots, workers), actions, s) && workers > 0
    ensures multiset(AllRecords(s))[x] <= multiset(SequentialRecords(Erased(cfg), roots))[x]
    ensures Uninterrupted(actions) && Finished(s) ==>
              multiset(AllRecords(s))[x] == multiset(SequentialRecords(Erased(cfg), roots))[x]
  {
    ConfinedStartHolds(cfg, roots, workers);
    ConfinedStartCounts(cfg, roots, workers, x);
    LoggedCountsRecords(x, s);
    LoggedCountsRecords(x, Start(roots, workers));
    ScheduleNeverGains(cfg, Only(x), Start(roots, workers), actions, s);
    if Uninterrupted(actions) && Finished(s) {
      ScheduleConserves(cfg, Only(x), Start(roots, workers), actions, s);
      ScheduleKeepsInv(cfg, Start(roots, workers), actions, s);
      FinishedIffNothingOutstanding(cfg, s);
    }
  }

  /** `x` is the path of an entry that lies on the root device. */
  ghost predicate HomePath(cfg: Config, x: string) {
    exists id, e, path :: id in cfg.k.world.directories && e in cfg.k.world.directories[id] && Home(cfg, e) && x == Join(path, e.name)
  }

  /** Every event a worker has logged, or may still log, is of an entry on the root device. */
  ghost predicate OfKnownEntries(cfg: Config, s: State) {
    && (forall w, job :: 0 <= w < |s.todo| && job in s.todo[w] ==> KnownJob(cfg, job))
    && (forall w, i :: 0 <= w < |s.logs| && 0 <= i < |s.logs[w]| && s.logs[w][i].Some? ==> HomePath(cfg, s.logs[w][i].value))
  }

  /** The job is about an entry of some directory, at a path that ends in its name. */
  ghost predicate KnownJob(cfg: Config, job: EntryJob) {
    exists id, parent :: id in cfg.k.world.directories && job.e in cfg.k.world.directories[id] && job.path == Join(parent, job.e.name)
  }

  lemma {:induction false} ExpandedJobsAreKnown(cfg: Config, id: nat, es: seq<Entry>, path: string, depth: nat)
    requires id in cfg.k.world.directories && forall e :: e in es ==> e in cfg.k.world.directories[id]
    ensures forall job :: job in Expand(cfg.k, es, path, depth) ==> KnownJob(cfg, job)
  {
    if es != [] {
      assert es[0] in es && forall e :: e in es[1..] ==> e in es;
      ExpandedJobsAreKnown(cfg, id, es[1..], path, depth);
      var child := Join(path, es[0].name);
      assert KnownJob(cfg, VisitJob(child, depth + 1, es[0])) && KnownJob(cfg, DescendJob(child, depth + 1, es[0]));
    }
  }

  lemma VisitedIsHome(cfg: Config, job: EntryJob)
    requires cfg.oneFileSystem && cfg.deviceKnown && Ordinary(Unconfined(cfg)) && KnownJob(cfg, job) && job.VisitJob?
    ensures var event := VisitEvent(cfg, Deliver(cfg.k, job.path, job.depth, job.e)); event.Some? ==> HomePath(cfg, event.value)
  {
    var id, parent :| id in cfg.k.world.directories && job.e in cfg.k.world.directories[id] && job.path == Join(parent, job.e.name);
    assert Regular(cfg.k, job.e);
    EntryIsErased(cfg, job.e, job.path, job.depth);
  }

  lemma StepStaysHome(cfg: Config, s: State, a: Action)
    requires cfg.oneFileSystem && cfg.deviceKnown && Ordinary(Unconfined(cfg))
    requires Shaped(s) && Enabled(s, a) && OfKnownEntries(cfg, s)
    ensures OfKnownEntries(cfg, Apply(cfg, s, a))
  {
    if a.Take? {
      var t := s.queue[a.i];
      if t.id in cfg.k.world.directories {
        ExpandedJobsAreKnown(cfg, t.id, Entries(cfg.k.world, t.id), t.path, t.depth);
      } else {
        assert Expand(cfg.k, Entries(cfg.k.world, t.id), t.path, t.depth) == [];
      }
    } else if a.Work? {
      var job := s.todo[a.w][0];
      assert job in s.todo[a.w] && forall x :: x in s.todo[a.w][1..] ==> x in s.todo[a.w];
      if job.VisitJob? {
        VisitedIsHome(cfg, job);
      }
    }
  }

  lemma {:induction false} ScheduleStaysHome(cfg: Config, s: State, actions: seq<Action>, s': State)
    requires cfg.oneFileSystem && cfg.deviceKnown && Ordinary(Unconfined(cfg))
    requires Shaped(s) && OfKnownEntries(cfg, s) && Schedule(cfg, s, actions, s')
    ensures OfKnownEntries(cfg, s')
    decreases |actions|
  {
    if actions != [] {
      StepStaysHome(cfg, s, actions[0]);
      ScheduleStaysHome(cfg, Apply(cfg, s, actions[0]), actions[1..], s');
    }
  }

  /** Under every schedule, stops included, each record of a worker is of an entry on the root device. */
  lemma WorkersStayHome(cfg: Config, roots: seq<Root>, workers: nat, actions: seq<Action>, s: State)
    requires cfg.oneFileSystem && cfg.deviceKnown && Ordinary(Unconfined(cfg))
    requires Schedule(cfg, Start(roots, workers), actions, s)
    ensures forall w, i :: 0 <= w < |s.logs| && 0 <= i < |s.logs[w]| && s.logs[w][i].Some? ==> HomePath(cfg, s.logs[w][i].value)
  {
    ScheduleStaysHome(cfg, Start(roots, workers), actions, s);
  }

  // ----- the sequential walker -----

  /** The entry, made unable to open a directory of another device. */
  function Sealed(k: Walk, e: Entry): Entry {
    e.(lopen := if e.lopen.Some? && OnDevice(k, e.lopen.value) then e.lopen else None,
       open := if e.open.Some? && OnDevice(k, e.open.value) then e.open else None)
  }

  predicate OnDevice(k: Walk, id: nat) { k.device.Some? ==> k.world.device(id) == k.device.value }

  function SealedEntries(k: Walk, es: seq<Entry>): seq<Entry> {
    if es == [] then [] else [Sealed(k, es[0])] + SealedEntries(k, es[1..])
  }

  /** The walk that is not confined, on the tree in which no directory of another device opens. */
  function SealedWalk(k: Walk): Walk {
    k.(device := None,
       world := k.world.(directories := map id | id in k.world.directories :: SealedEntries(k, k.world.directories[id])))
  }

  lemma SealedTarget(k: Walk, e: Entry, depth: nat)
    ensures Target(SealedWalk(k), Sealed(k, e), depth) == Target(k, e, depth)
    ensures Below(SealedWalk(k), Sealed(k, e), depth) == SealedEntries(k, Below(k, e, depth))
  {
  }

  /** A confined walk lists what an unconfined one lists of the sealed tree: directories of other devices
      are listed, and not entered. */
  lemma {:induction false} ConfinedListingIsSealed(k: Walk, es: seq<Entry>, path: string, depth: nat)
    ensures List(k, es, path, depth) == List(SealedWalk(k), SealedEntries(k, es), path, depth)
    decreases k.capacity - |path|, |es|
  {
    if es != [] {
      var child := Join(path, es[0].name);
      assert SealedEntries(k, es)[1..] == SealedEntries(k, es[1..]);
      ConfinedListingIsSealed(k, es[1..], path, depth);
      if Visible(k, es[0]) && |child| < k.capacity {
        SealedTarget(k, es[0], depth + 1);
        ConfinedListingIsSealed(k, Below(k, es[0], depth + 1), child, depth + 1);
      }
    }
  }

  lemma ConfinedRootIsSealed(k: Walk, root: Root)
    ensures ListRoot(k, root) == ListRoot(SealedWalk(k), root)
  {
    var st := RootStat(k, root);
    if st.Some? && RootTarget(k, root, st.value).Some? {
      ConfinedListingIsSealed(k, Entries(k.world, RootTarget(k, root, st.value).value), root.path, 0);
    }
  }
}
