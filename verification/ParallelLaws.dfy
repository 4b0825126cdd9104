/** Every schedule prints what the sequential walk prints: however events are weighed, the weight
    logged so far and the weight the waiting work will still cause have the same sum after every step. */
module ParallelLaws {
  import opened Basics
  import opened FileSystem
  import opened Paths
  import opened Listing
  import opened Output
  import opened ParallelWalk

  /** A way to weigh events: `EachStep` counts steps, `Only` counts the printings of one path. */
  type Weigher = Event -> nat

  function EachStep(): Weigher { (event: Event) => 1 }

  function Only(path: string): Weigher { (event: Event) => if event == Some(path) then 1 else 0 }

  // ----- the weight of the work still to come -----

  /** The events of the entries `es`, and of everything below them. */
  function PlanEntries(cfg: Config, f: Weigher, es: seq<Entry>, path: string, depth: nat): nat
    decreases cfg.k.capacity - |path|, |es|, 1
  {
    if es == [] then 0
    else PlanEntry(cfg, f, es[0], path, depth) + PlanEntries(cfg, f, es[1..], path, depth)
  }

  function PlanEntry(cfg: Config, f: Weigher, e: Entry, path: string, depth: nat): nat
    decreases cfg.k.capacity - |path|, 0, 0
  {
    var child := Join(path, e.name);
    if !Visible(cfg.k, e) || |child| >= cfg.k.capacity then 0
    else
      f(VisitEvent(cfg, Deliver(cfg.k, child, depth + 1, e))) + f(None)
      + PlanTasks(cfg, f, Queued(cfg, child, depth + 1, e), child, depth + 1)
  }

  /** The events of opening the directory at `path`, when there is one to open. */
  function PlanTasks(cfg: Config, f: Weigher, ts: seq<Task>, path: string, depth: nat): nat
    decreases cfg.k.capacity - |path|
  {
    if ts == [] then 0 else f(None) + PlanEntries(cfg, f, Entries(cfg.k.world, ts[0].id), path, depth)
  }

  function Plan(cfg: Config, f: Weigher, job: Job): nat {
    match job
    case OpenJob(id, path, depth) => PlanTasks(cfg, f, [job], path, depth)
    case VisitJob(path, depth, e) => f(VisitEvent(cfg, Deliver(cfg.k, path, depth, e)))
    case DescendJob(path, depth, e) => f(None) + PlanTasks(cfg, f, Queued(cfg, path, depth, e), path, depth)
  }

  function PlanJobs(cfg: Config, f: Weigher, jobs: seq<Job>): nat {
    if jobs == [] then 0 else Plan(cfg, f, jobs[0]) + PlanJobs(cfg, f, jobs[1..])
  }

  function PlanWorkers(cfg: Config, f: Weigher, todo: seq<seq<Job>>): nat {
    if todo == [] then 0 else PlanJobs(cfg, f, todo[0]) + PlanWorkers(cfg, f, todo[1..])
  }

  function PlanRoot(cfg: Config, f: Weigher, root: Root): nat {
    f(RootEvent(cfg, root)) + PlanJobs(cfg, f, RootTask(cfg, root))
  }

  function PlanRoots(cfg: Config, f: Weigher, roots: seq<Root>): nat {
    if roots == [] then 0 else PlanRoot(cfg, f, roots[0]) + PlanRoots(cfg, f, roots[1..])
  }

  function Outstanding(cfg: Config, f: Weigher, s: State): nat {
    PlanJobs(cfg, f, s.queue) + PlanWorkers(cfg, f, s.todo) + PlanRoots(cfg, f, s.roots)
  }

  function WeightOf(f: Weigher, log: seq<Event>): nat {
    if log == [] then 0 else f(log[0]) + WeightOf(f, log[1..])
  }

  function WeightOfAll(f: Weigher, logs: seq<seq<Event>>): nat {
    if logs == [] then 0 else WeightOf(f, logs[0]) + WeightOfAll(f, logs[1..])
  }

  function Logged(f: Weigher, s: State): nat { WeightOf(f, s.mainLog) + WeightOfAll(f, s.logs) }

  // ----- sums over sequences -----

  lemma {:induction false} PlanJobsFirst(cfg: Config, f: Weigher, job: Job, rest: seq<Job>)
    ensures PlanJobs(cfg, f, [job] + rest) == Plan(cfg, f, job) + PlanJobs(cfg, f, rest)
  {
    assert ([job] + rest)[1..] == rest;
  }

  lemma {:induction false} PlanJobsConcat(cfg: Config, f: Weigher, a: seq<Job>, b: seq<Job>)
    ensures PlanJobs(cfg, f, a + b) == PlanJobs(cfg, f, a) + PlanJobs(cfg, f, b)
  {
    if a == [] {
      assert a + b == b;
    } else {
      PlanJobsConcat(cfg, f, a[1..], b);
      assert a + b == [a[0]] + (a[1..] + b);
      PlanJobsFirst(cfg, f, a[0], a[1..] + b);
    }
  }

  lemma PlanJobsWithout(cfg: Config, f: Weigher, jobs: seq<Job>, i: nat)
    requires i < |jobs|
    ensures PlanJobs(cfg, f, jobs) == Plan(cfg, f, jobs[i]) + PlanJobs(cfg, f, jobs[..i] + jobs[i + 1..])
  {
    assert jobs == jobs[..i] + jobs[i..] && jobs[i..][1..] == jobs[i + 1..];
    PlanJobsConcat(cfg, f, jobs[..i], jobs[i..]);
    PlanJobsConcat(cfg, f, jobs[..i], jobs[i + 1..]);
  }

  /** Changing one worker's work changes the sum by just that. */
  lemma {:induction false} PlanWorkersUpdate(cfg: Config, f: Weigher, todo: seq<seq<Job>>, w: nat, jobs: seq<Job>)
    requires w < |todo|
    ensures PlanWorkers(cfg, f, todo[w := jobs]) + PlanJobs(cfg, f, todo[w]) == PlanWorkers(cfg, f, todo) + PlanJobs(cfg, f, jobs)
  {
    var todo' := todo[w := jobs];
    if w == 0 {
      assert todo'[1..] == todo[1..];
    } else {
      PlanWorkersUpdate(cfg, f, todo[1..], w - 1, jobs);
      assert todo'[1..] == todo[1..][w - 1 := jobs];
    }
  }

  lemma {:induction false} WeightOfConcat(f: Weigher, a: seq<Event>, b: seq<Event>)
    ensures WeightOf(f, a + b) == WeightOf(f, a) + WeightOf(f, b)
  {
    if a == [] {
      assert a + b == b;
    } else {
      WeightOfConcat(f, a[1..], b);
      assert (a + b)[1..] == a[1..] + b;
    }
  }

  lemma WeightOfAppend(f: Weigher, log: seq<Event>, event: Event)
    ensures WeightOf(f, log + [event]) == WeightOf(f, log) + f(event)
  {
    WeightOfConcat(f, log, [event]);
    assert [event][1..] == [];
  }

  lemma {:induction false} WeightOfAllAppend(f: Weigher, logs: seq<seq<Event>>, w: nat, event: Event)
    requires w < |logs|
    ensures WeightOfAll(f, logs[w := logs[w] + [event]]) == WeightOfAll(f, logs) + f(event)
  {
    var logs' := logs[w := logs[w] + [event]];
    if w == 0 {
      WeightOfAppend(f, logs[0], event);
      assert logs'[1..] == logs[1..];
    } else {
      WeightOfAllAppend(f, logs[1..], w - 1, event);
      assert logs'[1..] == logs[1..][w - 1 := logs[1..][w - 1] + [event]];
    }
  }

  // ----- every path fits -----

  /** The hypothesis on the tree: no visible path reached from here is longer than the capacity allows. */
  ghost predicate Fits(cfg: Config, es: seq<Entry>, path: string, depth: nat)
    decreases cfg.k.capacity - |path|, |es|, 1
  {
    es == [] || (EntryFits(cfg, es[0], path, depth) && Fits(cfg, es[1..], path, depth))
  }

  ghost predicate EntryFits(cfg: Config, e: Entry, path: string, depth: nat)
    decreases cfg.k.capacity - |path|, 0, 0
  {
    Visible(cfg.k, e) ==>
      var child := Join(path, e.name);
      |child| < cfg.k.capacity && TasksFit(cfg, Queued(cfg, child, depth + 1, e), child, depth + 1)
  }

  ghost predicate TasksFit(cfg: Config, ts: seq<Task>, path: string, depth: nat)
    decreases cfg.k.capacity - |path|
  {
    ts == [] || Fits(cfg, Entries(cfg.k.world, ts[0].id), path, depth)
  }

  ghost predicate JobFits(cfg: Config, job: Job) {
    match job
    case OpenJob(id, path, depth) => TasksFit(cfg, [job], path, depth)
    case VisitJob(_, _, _) => true
    case DescendJob(path, depth, e) => TasksFit(cfg, Queued(cfg, path, depth, e), path, depth)
  }

  ghost predicate RootFits(cfg: Config, root: Root) {
    |root.path| < cfg.k.capacity && TasksFit(cfg, RootTask(cfg, root), Stripped(root.path), 0)
  }

  ghost predicate AllFit(cfg: Config, s: State) {
    && (forall i :: 0 <= i < |s.queue| ==> JobFits(cfg, s.queue[i]))
    && (forall w :: 0 <= w < |s.todo| ==> JobsFit(cfg, s.todo[w]))
    && (forall i :: 0 <= i < |s.roots| ==> RootFits(cfg, s.roots[i]))
  }

  ghost predicate JobsFit(cfg: Config, jobs: seq<Job>) { forall i :: 0 <= i < |jobs| ==> JobFits(cfg, jobs[i]) }

  function EntryJobs(k: Walk, e: Entry, path: string, depth: nat): seq<Job> {
    var child := Join(path, e.name);
    if Visible(k, e) then [VisitJob(child, depth + 1, e), DescendJob(child, depth + 1, e)] else []
  }

  lemma EntryKeepsPlan(cfg: Config, f: Weigher, e: Entry, path: string, depth: nat)
    requires EntryFits(cfg, e, path, depth)
    ensures PlanJobs(cfg, f, EntryJobs(cfg.k, e, path, depth)) == PlanEntry(cfg, f, e, path, depth)
    ensures JobsFit(cfg, EntryJobs(cfg.k, e, path, depth))
  {
    if Visible(cfg.k, e) {
      var child := Join(path, e.name);
      PlanOfTwo(cfg, f, VisitJob(child, depth + 1, e), DescendJob(child, depth + 1, e));
    }
  }

  lemma PlanOfOne(cfg: Config, f: Weigher, a: Job)
    ensures PlanJobs(cfg, f, [a]) == Plan(cfg, f, a)
  {
    assert [a][1..] == [];
  }

  lemma PlanOfTwo(cfg: Config, f: Weigher, a: Job, b: Job)
    ensures PlanJobs(cfg, f, [a, b]) == Plan(cfg, f, a) + Plan(cfg, f, b)
  {
    PlanOfOne(cfg, f, b);
    assert [a, b][1..] == [b];
  }

  /** Reading a directory turns its plan into the plans of its entries. */
  lemma {:induction false} ExpandKeepsPlan(cfg: Config, f: Weigher, es: seq<Entry>, path: string, depth: nat)
    requires Fits(cfg, es, path, depth)
    ensures PlanJobs(cfg, f, Expand(cfg.k, es, path, depth)) == PlanEntries(cfg, f, es, path, depth)
    ensures JobsFit(cfg, Expand(cfg.k, es, path, depth))
    decreases |es|
  {
    if es != [] {
      ExpandKeepsPlan(cfg, f, es[1..], path, depth);
      EntryKeepsPlan(cfg, f, es[0], path, depth);
      PlanJobsConcat(cfg, f, EntryJobs(cfg.k, es[0], path, depth), Expand(cfg.k, es[1..], path, depth));
    }
  }

  // ----- one step -----

  /** What a step does: the weight of one planned event becomes the weight of one logged event. */
  ghost predicate Advances(cfg: Config, f: Weigher, s: State, a: Action)
    requires Shaped(s) && Enabled(s, a) && Works(a)
  {
    var s', event := Apply(cfg, s, a), EventOf(cfg, s, a);
    && Outstanding(cfg, f, s) == Outstanding(cfg, f, s') + f(event)
    && Logged(f, s') == Logged(f, s) + f(event)
  }

  lemma TakeAdvances(cfg: Config, f: Weigher, s: State, w: nat, i: nat)
    requires Shaped(s) && AllFit(cfg, s) && Enabled(s, Take(w, i))
    ensures Advances(cfg, f, s, Take(w, i))
  {
    var t := s.queue[i];
    var jobs := Expand(cfg.k, Entries(cfg.k.world, t.id), t.path, t.depth);
    ExpandKeepsPlan(cfg, f, Entries(cfg.k.world, t.id), t.path, t.depth);
    PlanJobsWithout(cfg, f, s.queue, i);
    PlanWorkersUpdate(cfg, f, s.todo, w, jobs);
    WeightOfAllAppend(f, s.logs, w, None);
  }

  lemma WorkPlan(cfg: Config, f: Weigher, s: State, w: nat)
    requires Shaped(s) && Enabled(s, Work(w)) && s.todo[w][0].DescendJob?
    ensures var job := s.todo[w][0];
            PlanJobs(cfg, f, s.queue + Queued(cfg, job.path, job.depth, job.e)) + f(None)
            == PlanJobs(cfg, f, s.queue) + Plan(cfg, f, job)
  {
    var job := s.todo[w][0];
    var ts := Queued(cfg, job.path, job.depth, job.e);
    PlanJobsConcat(cfg, f, s.queue, ts);
    if ts != [] {
      PlanOfOne(cfg, f, ts[0]);
    }
  }

  lemma WorkAdvances(cfg: Config, f: Weigher, s: State, w: nat)
    requires Shaped(s) && AllFit(cfg, s) && Enabled(s, Work(w))
    ensures Advances(cfg, f, s, Work(w))
  {
    PlanWorkersUpdate(cfg, f, s.todo, w, s.todo[w][1..]);
    WeightOfAllAppend(f, s.logs, w, EventOf(cfg, s, Work(w)));
    if s.todo[w][0].DescendJob? {
      WorkPlan(cfg, f, s, w);
    }
  }

  lemma StartAdvances(cfg: Config, f: Weigher, s: State)
    requires Shaped(s) && Enabled(s, StartRoot)
    ensures Advances(cfg, f, s, StartRoot)
  {
    WeightOfAppend(f, s.mainLog, EventOf(cfg, s, StartRoot));
  }

  lemma StepAdvances(cfg: Config, f: Weigher, s: State, a: Action)
    requires Shaped(s) && AllFit(cfg, s) && Enabled(s, a) && Works(a)
    ensures Advances(cfg, f, s, a)
  {
    match a
    case StartRoot => StartAdvances(cfg, f, s);
    case Take(w, i) => TakeAdvances(cfg, f, s, w, i);
    case Work(w) => WorkAdvances(cfg, f, s, w);
  }

  /** Abandoning work after a stop logs nothing and plans nothing new. */
  lemma AbandoningLoses(cfg: Config, f: Weigher, s: State, a: Action)
    requires Shaped(s) && Enabled(s, a) && !Works(a)
    ensures Outstanding(cfg, f, Apply(cfg, s, a)) <= Outstanding(cfg, f, s) && Logged(f, Apply(cfg, s, a)) == Logged(f, s)
  {
    if a.Quit? {
      PlanWorkersUpdate(cfg, f, s.todo, a.w, []);
    } else {
      PlanJobsWithout(cfg, f, s.queue, a.i);
    }
  }

  // ----- what every step keeps -----

  function RecordsOf(log: seq<Event>): seq<string> {
    if log == [] then [] else (if log[0].Some? then [log[0].value] else []) + RecordsOf(log[1..])
  }

  /** A buffer holds exactly the records logged for it, framed, and counts them. */
  predicate SlotHolds(separator: char, slot: Slot, log: seq<Event>) {
    && slot.bytes == Frame(separator, RecordsOf(log))
    && slot.emitted == |RecordsOf(log)|
    && (!slot.initialized ==> RecordsOf(log) == [])
  }

  ghost predicate BuffersHold(cfg: Config, s: State)
    requires Shaped(s)
  {
    && s.main.initialized && SlotHolds(cfg.separator, s.main, s.mainLog)
    && forall w :: 0 <= w < |s.slots| ==> SlotHolds(cfg.separator, s.slots[w], s.logs[w])
  }

  ghost predicate Inv(cfg: Config, s: State) { Shaped(s) && AllFit(cfg, s) && BuffersHold(cfg, s) }

  lemma {:induction false} RecordsOfConcat(a: seq<Event>, b: seq<Event>)
    ensures RecordsOf(a + b) == RecordsOf(a) + RecordsOf(b)
  {
    if a == [] {
      assert a + b == b;
    } else {
      RecordsOfConcat(a[1..], b);
      assert (a + b)[1..] == a[1..] + b;
      Associative(if a[0].Some? then [a[0].value] else [], RecordsOf(a[1..]), RecordsOf(b));
    }
  }

  lemma RecordedHolds(separator: char, slot: Slot, log: seq<Event>, event: Event)
    requires SlotHolds(separator, slot, log)
    ensures RecordsOf(log + [event]) == RecordsOf(log) + if event.Some? then [event.value] else []
    ensures slot.initialized || event.None? ==> SlotHolds(separator, Recorded(separator, slot, event), log + [event])
    ensures SlotHolds(separator, Recorded(separator, slot.(initialized := true), event), log + [event])
  {
    RecordsOfConcat(log, [event]);
    assert [event][1..] == [];
    if event.Some? {
      FrameConcat(separator, RecordsOf(log), [event.value]);
      FrameOne(separator, event.value);
      assert slot.bytes + event.value + [separator] == slot.bytes + (event.value + [separator]);
    } else {
      assert RecordsOf(log) + [] == RecordsOf(log);
    }
  }

  lemma StepKeepsBuffers(cfg: Config, s: State, a: Action)
    requires Inv(cfg, s) && Enabled(s, a)
    ensures BuffersHold(cfg, Apply(cfg, s, a))
  {
    if a.Work? {
      WorkKeepsBuffers(cfg, s, a.w);
    } else if a.StartRoot? {
      RecordedHolds(cfg.separator, s.main, s.mainLog, EventOf(cfg, s, a));
    } else if a.Take? {
      RecordedHolds(cfg.separator, s.slots[a.w], s.logs[a.w], None);
    }
  }

  lemma WorkKeepsBuffers(cfg: Config, s: State, w: nat)
    requires Inv(cfg, s) && Enabled(s, Work(w))
    ensures BuffersHold(cfg, Apply(cfg, s, Work(w)))
  {
    if s.todo[w][0].VisitJob? {
      VisitHolds(cfg, s, w);
    } else {
      RecordedHolds(cfg.separator, s.slots[w], s.logs[w], None);
    }
  }

  lemma VisitHolds(cfg: Config, s: State, w: nat)
    requires Inv(cfg, s) && Enabled(s, Work(w)) && s.todo[w][0].VisitJob?
    ensures SlotHolds(cfg.separator, Apply(cfg, s, Work(w)).slots[w], s.logs[w] + [EventOf(cfg, s, Work(w))])
  {
    var slot := s.slots[w];
    RecordedHolds(cfg.separator, slot, s.logs[w], EventOf(cfg, s, Work(w)));
    assert slot.(initialized := true) == if slot.initialized then slot else Slot(true, "", 0);
  }

  lemma StepKeepsFit(cfg: Config, s: State, a: Action)
    requires Shaped(s) && AllFit(cfg, s) && Enabled(s, a)
    ensures AllFit(cfg, Apply(cfg, s, a))
  {
    match a
    case StartRoot =>
      assert RootFits(cfg, s.roots[0]);
    case Take(w, i) =>
      var t := s.queue[i];
      assert JobFits(cfg, t);
      ExpandKeepsPlan(cfg, EachStep(), Entries(cfg.k.world, t.id), t.path, t.depth);
    case Work(w) =>
      assert JobsFit(cfg, s.todo[w]) && JobFits(cfg, s.todo[w][0]);
    case Quit(w) =>
    case Discard(i) =>
  }

  lemma StepKeepsInv(cfg: Config, s: State, a: Action)
    requires Inv(cfg, s) && Enabled(s, a)
    ensures Inv(cfg, Apply(cfg, s, a))
  {
    StepKeepsFit(cfg, s, a);
    StepKeepsBuffers(cfg, s, a);
  }

  // ----- every schedule -----

  lemma {:induction false} ScheduleKeepsShape(cfg: Config, s: State, actions: seq<Action>, s': State)
    requires Shaped(s) && Schedule(cfg, s, actions, s')
    ensures Shaped(s') && |s'.slots| == |s.slots|
    decreases |actions|
  {
    if actions != [] {
      ScheduleKeepsShape(cfg, Apply(cfg, s, actions[0]), actions[1..], s');
    }
  }

  lemma {:induction false} ScheduleKeepsInv(cfg: Config, s: State, actions: seq<Action>, s': State)
    requires Inv(cfg, s) && Schedule(cfg, s, actions, s')
    ensures Inv(cfg, s') && |s'.todo| == |s.todo|
    decreases |actions|
  {
    if actions != [] {
      StepKeepsInv(cfg, s, actions[0]);
      ScheduleKeepsInv(cfg, Apply(cfg, s, actions[0]), actions[1..], s');
    }
  }

  /** Weight is conserved along every schedule without a stop, and every step uses up one planned event. */
  lemma {:induction false} ScheduleConserves(cfg: Config, f: Weigher, s: State, actions: seq<Action>, s': State)
    requires Inv(cfg, s) && Schedule(cfg, s, actions, s') && Uninterrupted(actions)
    ensures Outstanding(cfg, f, s) + Logged(f, s) == Outstanding(cfg, f, s') + Logged(f, s')
    ensures Outstanding(cfg, EachStep(), s) == Outstanding(cfg, EachStep(), s') + |actions|
    decreases |actions|
  {
    if actions != [] {
      StepKeepsInv(cfg, s, actions[0]);
      StepAdvances(cfg, f, s, actions[0]);
      StepAdvances(cfg, EachStep(), s, actions[0]);
      ScheduleConserves(cfg, f, Apply(cfg, s, actions[0]), actions[1..], s');
    }
  }

  /** Along every schedule, stops included, weight is only ever lost. */
  lemma {:induction false} ScheduleNeverGains(cfg: Config, f: Weigher, s: State, actions: seq<Action>, s': State)
    requires Inv(cfg, s) && Schedule(cfg, s, actions, s')
    ensures Outstanding(cfg, f, s') + Logged(f, s') <= Outstanding(cfg, f, s) + Logged(f, s)
    decreases |actions|
  {
    if actions != [] {
      StepKeepsInv(cfg, s, actions[0]);
      if Works(actions[0]) {
        StepAdvances(cfg, f, s, actions[0]);
      } else {
        AbandoningLoses(cfg, f, s, actions[0]);
      }
      ScheduleNeverGains(cfg, f, Apply(cfg, s, actions[0]), actions[1..], s');
    }
  }

  /** A walk that is not finished can always go on: with at least one worker there is no deadlock. */
  lemma NoDeadlock(s: State) returns (a: Action)
    requires Shaped(s) && |s.todo| > 0 && !Finished(s)
    ensures Enabled(s, a) && Works(a)
  {
    if w :| 0 <= w < |s.todo| && s.todo[w] != [] {
      a := Work(w);
    } else if s.queue != [] {
      a := Take(0, 0);
    } else {
      a := StartRoot;
    }
  }

  lemma {:induction false} IdleHasNoWork(cfg: Config, f: Weigher, todo: seq<seq<EntryJob>>)
    requires forall w :: 0 <= w < |todo| ==> todo[w] == []
    ensures PlanWorkers(cfg, f, todo) == 0
  {
    if todo != [] {
      IdleHasNoWork(cfg, f, todo[1..]);
    }
  }

  /** Every schedule has the same number of steps left: it is finished exactly when they are used up. */
  lemma FinishedIffNothingOutstanding(cfg: Config, s: State)
    requires Inv(cfg, s) && |s.todo| > 0
    ensures Finished(s) <==> Outstanding(cfg, EachStep(), s) == 0
    ensures Finished(s) ==> forall f :: Outstanding(cfg, f, s) == 0
  {
    if Finished(s) {
      forall f ensures Outstanding(cfg, f, s) == 0 {
        IdleHasNoWork(cfg, f, s.todo);
      }
    } else {
      var a := NoDeadlock(s);
      StepAdvances(cfg, EachStep(), s, a);
    }
  }
}
