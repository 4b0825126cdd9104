/** The parallel walker: the callbacks this program hands to the walk engine, and the engine's
    contract as a state machine whose steps any number of workers may take in any order. */
module ParallelWalk {
  import opened Basics
  import opened FileSystem
  import opened Paths
  import opened Filter
  import opened Listing

  // ----- the callbacks -----

  /** An entry as the engine delivers it. */
  datatype Delivered = Delivered(
    path: string, depth: nat, kind: EntryType, size: int, mtime: int, perm: nat, populated: bool, device: int)

  /** What the callbacks share; the device and its flag are atomics in the source. */
  datatype Config = Config(k: Walk, separator: char, oneFileSystem: bool, deviceKnown: bool, rootDevice: int)

  predicate Foreign(cfg: Config, d: Delivered) {
    cfg.oneFileSystem && cfg.deviceKnown && d.device != cfg.rootDevice
  }

  /** Stat answers for these candidates would be looked up by basename in the working directory. */
  function DeliveredCandidate(k: Walk, d: Delivered): Cand {
    var name := BasenameOf(d.path);
    Cand(d.path, name, d.depth, d.kind, d.kind != Any, d.size, d.mtime, d.perm, d.populated, k.follow, k.world.cwdStat(name, k.follow))
  }

  /** The record a visit leaves, if any. */
  type Event = Option<string>

  function VisitEvent(cfg: Config, d: Delivered): Event {
    if !Foreign(cfg, d) && Satisfies(cfg.k.world.glob, cfg.k.p, DeliveredCandidate(cfg.k, d)) then Some(d.path) else None
  }

  datatype Slot = Slot(initialized: bool, bytes: string, emitted: nat)

  const EMPTY_SLOT: Slot := Slot(false, "", 0)

  /** What the allocator grants during one callback: the worker's slot, its first reservation, room for
      the path, room for the separator. */
  datatype Memory = Memory(slot: bool, reserve: bool, path: bool, separator: bool)

  const PLENTY: Memory := Memory(true, true, true, true)

  /** Appending a record; when only the separator finds no room, the path stays behind without one. */
  function Appended(separator: char, mem: Memory, bytes: string, path: string): (string, bool) {
    if !mem.path then (bytes, false)
    else if !mem.separator then (bytes + path, false)
    else (bytes + path + [separator], true)
  }

  /** A slot in which the event is recorded as far as memory allows, and the errors to report. */
  function RecordedIn(separator: char, mem: Memory, slot: Slot, event: Event): (Slot, seq<string>) {
    if event.None? then (slot, [])
    else
      var (bytes, ok) := Appended(separator, mem, slot.bytes, event.value);
      if ok then (slot.(bytes := bytes, emitted := slot.emitted + 1), []) else (slot.(bytes := bytes), [event.value])
  }

  /** The slot after a visit, the callback's answer and the errors it records. */
  function VisitIn(cfg: Config, mem: Memory, slot: Slot, d: Delivered): (Slot, bool, seq<string>) {
    if Foreign(cfg, d) then (slot, true, [])
    else if !mem.slot then (slot, false, [])
    else if !slot.initialized && !mem.reserve then (slot.(bytes := ""), false, [])
    else
      var ready := if slot.initialized then slot else Slot(true, "", 0);
      var (slot', errors) := RecordedIn(cfg.separator, mem, ready, VisitEvent(cfg, d));
      (slot', true, errors)
  }

  /** The steps of the state machine are those with memory to spare. */
  function Recorded(separator: char, slot: Slot, event: Event): Slot { RecordedIn(separator, PLENTY, slot, event).0 }

  function SlotAfterVisit(cfg: Config, slot: Slot, d: Delivered): Slot { VisitIn(cfg, PLENTY, slot, d).0 }

  /** With memory to spare a visit records its event in a slot that is ready, answers true and reports nothing. */
  lemma VisitWithPlenty(cfg: Config, slot: Slot, d: Delivered)
    ensures var ready := if slot.initialized then slot else Slot(true, "", 0);
            VisitIn(cfg, PLENTY, slot, d) == (if Foreign(cfg, d) then slot else Recorded(cfg.separator, ready, VisitEvent(cfg, d)), true, [])
    ensures forall path: string :: Recorded(cfg.separator, slot, Some(path))
                                   == slot.(bytes := slot.bytes + path + [cfg.separator], emitted := slot.emitted + 1)
    ensures Recorded(cfg.separator, slot, None) == slot
  {
  }

  predicate ShouldDescendInto(cfg: Config, d: Delivered) {
    var name := BasenameOf(d.path);
    && DepthAllows(cfg.k.(rule := Parallel), d.depth)
    && !(cfg.k.p.o.respectIgnoreDefaults && name in IGNORED)
    && !(!cfg.k.p.o.includeHidden && name != "" && name[0] == '.')
    && !Foreign(cfg, d)
  }

  method EvaluateDelivered(k: Walk, d: Delivered) returns (accepted: bool)
    requires WellBuilt(k.p)
    ensures accepted <==> Satisfies(k.world.glob, k.p, DeliveredCandidate(k, d))
  {
    var basename := Basename(d.path);
    var c := new Candidate(Cand(d.path, basename, d.depth, d.kind, d.kind != Any, d.size, d.mtime, d.perm, d.populated,
                                k.follow, k.world.cwdStat(basename, k.follow)));
    var decision := Evaluate(k.world.glob, k.p, c);
    accepted := decision == Accept;
  }

  class WorkerSlot {
    var outputBytes: string
    var emittedCount: nat
    var initialized: bool

    function View(): Slot
      reads this
    {
      Slot(initialized, outputBytes, emittedCount)
    }

    constructor ()
      ensures View() == EMPTY_SLOT
    {
      outputBytes, emittedCount, initialized := "", 0, false;
    }

    method Ensure(mem: Memory) returns (ok: bool)
      modifies this
      ensures ok <==> mem.slot && (old(initialized) || mem.reserve)
      ensures ok ==> View() == if old(initialized) then old(View()) else Slot(true, "", 0)
      ensures !ok ==> View() == if mem.slot then old(View()).(bytes := "") else old(View())
    {
      if !mem.slot {
        return false;
      }
      if !initialized {
        outputBytes := "";
        if !mem.reserve {
          return false;
        }
        emittedCount, initialized := 0, true;
      }
      ok := true;
    }

    method AppendMatch(path: string, separator: char, mem: Memory) returns (ok: bool)
      modifies this`outputBytes
      ensures (outputBytes, ok) == Appended(separator, mem, old(outputBytes), path)
    {
      if !mem.path {
        return false;
      }
      outputBytes := outputBytes + path;
      if !mem.separator {
        return false;
      }
      outputBytes := outputBytes + [separator];
      ok := true;
    }

    /** The visit callback: evaluate the entry and append it to this worker's buffer. */
    method Visit(cfg: Config, d: Delivered, mem: Memory) returns (ok: bool, errors: seq<string>)
      requires WellBuilt(cfg.k.p)
      modifies this
      ensures (View(), ok, errors) == VisitIn(cfg, mem, old(View()), d)
    {
      if cfg.oneFileSystem && cfg.deviceKnown && d.device != cfg.rootDevice {
        return true, [];
      }
      ok := Ensure(mem);
      errors := [];
      if !ok {
        return;
      }
      var accepted := EvaluateDelivered(cfg.k, d);
      if accepted {
        var appended := AppendMatch(d.path, cfg.separator, mem);
        if appended {
          emittedCount := emittedCount + 1;
        } else {
          errors := [d.path];
        }
      }
    }
  }

  /** The should-descend callback. */
  method ShouldDescendCallback(cfg: Config, d: Delivered) returns (descend: bool)
    ensures descend <==> ShouldDescendInto(cfg, d)
  {
    if cfg.k.p.o.maxDepth.Some? && d.depth >= cfg.k.p.o.maxDepth.value {
      return false;
    }
    var basename := Basename(d.path);
    if cfg.k.p.o.respectIgnoreDefaults {
      var ignored := IgnoredDirectoryName(basename);
      if ignored {
        return false;
      }
    }
    if !cfg.k.p.o.includeHidden && |basename| > 0 && basename[0] == '.' {
      return false;
    }
    if cfg.oneFileSystem && cfg.deviceKnown && d.device != cfg.rootDevice {
      return false;
    }
    descend := true;
  }

  /** The root path with its trailing slashes dropped; the first byte is kept. */
  function Stripped(path: string): string {
    if |path| > 1 && path[|path| - 1] == '/' then Stripped(path[..|path| - 1]) else path
  }

  method StripSlashes(path: string) returns (stripped: string)
    ensures stripped == Stripped(path)
  {
    var length := |path|;
    assert path[..length] == path;
    while length > 1 && path[length - 1] == '/'
      invariant 0 <= length <= |path|
      invariant Stripped(path[..length]) == Stripped(path)
    {
      assert path[..length][..length - 1] == path[..length - 1];
      length := length - 1;
    }
    stripped := path[..length];
  }

  // ----- the engine -----

  /** The engine delivers an entry with what lstat says of it. */
  function Deliver(k: Walk, path: string, depth: nat, e: Entry): Delivered {
    match e.lstat
    case Some(st) => Delivered(path, depth, st.kind, NonNegative(st.size), st.mtime, st.mode % MODE_BITS, true, st.device)
    case None => Delivered(path, depth, Any, 0, 0, 0, false, 0)
  }

  /** Work that is waiting: a directory to read, an entry to visit, an entry to offer for descent. */
  datatype Job =
    | OpenJob(id: nat, path: string, depth: nat)
    | VisitJob(path: string, depth: nat, e: Entry)
    | DescendJob(path: string, depth: nat, e: Entry)

  type Task = j: Job | j.OpenJob? witness OpenJob(0, "", 0)

  type EntryJob = j: Job | !j.OpenJob? witness VisitJob("", 0, RawEntry("a", DtReg, None, None, None, None))

  /** The shared queue of directories, what each worker has still to do in the directory it took,
      and the buffers. The logs are history: one event for every step taken. */
  datatype State = State(
    roots: seq<Root>, queue: seq<Task>, todo: seq<seq<EntryJob>>, main: Slot, slots: seq<Slot>,
    mainLog: seq<Event>, logs: seq<seq<Event>>)

  /** The main thread starts the next root; worker `w` takes the i-th queued directory; worker `w`
      does the next thing it has to do. Once the stop signal is up, the engine's workers quit what
      they have begun and queued directories are discarded, while the main thread, which does not look
      at the signal, still goes on to the next root. */
  datatype Action = StartRoot | Take(w: nat, i: nat) | Work(w: nat) | Quit(w: nat) | Discard(i: nat)

  /** Not one of the two actions that follow a stop. */
  predicate Works(a: Action) { !a.Quit? && !a.Discard? }

  predicate Uninterrupted(actions: seq<Action>) { forall i :: 0 <= i < |actions| ==> Works(actions[i]) }

  /** The engine has joined: nothing queued, every worker idle. */
  predicate Idle(s: State) { s.queue == [] && forall w :: 0 <= w < |s.todo| ==> s.todo[w] == [] }

  predicate Finished(s: State) { Idle(s) && s.roots == [] }

  predicate Enabled(s: State, a: Action) {
    match a
    case StartRoot => s.roots != [] && Idle(s)
    case Take(w, i) => w < |s.todo| && i < |s.queue| && s.todo[w] == []
    case Work(w) => w < |s.todo| && s.todo[w] != []
    case Quit(w) => w < |s.todo| && s.todo[w] != []
    case Discard(i) => i < |s.queue|
  }

  predicate Shaped(s: State) { |s.todo| == |s.slots| == |s.logs| }

  /** The jobs of a directory: each entry is visited once and offered for descent once; hidden
      entries are skipped unless asked for. */
  function Expand(k: Walk, es: seq<Entry>, path: string, depth: nat): seq<EntryJob> {
    if es == [] then []
    else
      var child := Join(path, es[0].name);
      (if Visible(k, es[0]) then [VisitJob(child, depth + 1, es[0]), DescendJob(child, depth + 1, es[0])] else [])
      + Expand(k, es[1..], path, depth)
  }

  /** The directory queued when an entry is offered for descent. */
  function Queued(cfg: Config, path: string, depth: nat, e: Entry): seq<Task> {
    var d := Deliver(cfg.k, path, depth, e);
    if d.kind == Directory && ShouldDescendInto(cfg, d) && e.lopen.Some? then [OpenJob(e.lopen.value, path, depth)] else []
  }

  function RootEvent(cfg: Config, root: Root): Event {
    var st := RootStat(cfg.k, root);
    if st.None? then None
    else
      var path := Stripped(root.path);
      var name := BasenameOf(path);
      var c := RootCandidate(cfg.k, root, st.value).(path := path, basename := name, oracle := cfg.k.world.cwdStat(name, false));
      if Satisfies(cfg.k.world.glob, cfg.k.p, c) then Some(path) else None
  }

  function RootTask(cfg: Config, root: Root): seq<Task> {
    var st := RootStat(cfg.k, root);
    if st.Some? && RootTarget(cfg.k, root, st.value).Some?
    then [OpenJob(RootTarget(cfg.k, root, st.value).value, Stripped(root.path), 0)] else []
  }

  /** Filters the root into the main buffer. */
  method EmitRoot(cfg: Config, root: Root, st: Stat, path: string, main: WorkerSlot, mem: Memory) returns (errors: seq<string>)
    requires WellBuilt(cfg.k.p) && RootStat(cfg.k, root) == Some(st) && path == Stripped(root.path)
    modifies main
    ensures main.View() == RecordedIn(cfg.separator, mem, old(main.View()), RootEvent(cfg, root)).0
    ensures errors == if RecordedIn(cfg.separator, mem, old(main.View()), RootEvent(cfg, root)).1 == [] then [] else [root.path]
  {
    errors := [];
    var basename := Basename(path);
    var size := if st.size >= 0 then st.size else 0;
    var c := new Candidate(Cand(path, basename, 0, st.kind, st.kind != Any, size, st.mtime, st.mode % MODE_BITS, true, false,
                                cfg.k.world.cwdStat(basename, false)));
    var decision := Evaluate(cfg.k.world.glob, cfg.k.p, c);
    if decision == Accept {
      var appended := main.AppendMatch(path, cfg.separator, mem);
      if appended {
        main.emittedCount := main.emittedCount + 1;
      } else {
        errors := [root.path];
      }
    }
  }

  /** The error a root leaves before its walk: it cannot be stat'd, or finds no room in the main buffer. */
  function RootErrors(cfg: Config, mem: Memory, main: Slot, root: Root): seq<string> {
    if RootStat(cfg.k, root).None? || RecordedIn(cfg.separator, mem, main, RootEvent(cfg, root)).1 != [] then [root.path] else []
  }

  /** The device and its flag after a root: the first root that can be stat'd sets both. */
  function Published(cfg: Config, root: Root): Config {
    var st := RootStat(cfg.k, root);
    if cfg.oneFileSystem && !cfg.deviceKnown && st.Some? then cfg.(deviceKnown := true, rootDevice := st.value.device) else cfg
  }

  /** One root: publish its device, filter it into the main buffer, and hand its directory to the engine. */
  method HandleRoot(cfg: Config, root: Root, main: WorkerSlot, mem: Memory)
    returns (ok: bool, task: seq<Task>, errors: seq<string>, shared: Config)
    requires WellBuilt(cfg.k.p)
    modifies main
    ensures ok <==> RootStat(cfg.k, root).Some?
    ensures main.View() == RecordedIn(cfg.separator, mem, old(main.View()), RootEvent(cfg, root)).0
    ensures task == RootTask(cfg, root) && errors == RootErrors(cfg, mem, old(main.View()), root)
    ensures shared == Published(cfg, root)
  {
    var answer := if cfg.k.follow then root.stat else root.lstat;
    if answer.None? {
      return false, [], [root.path], cfg;
    }
    var st := answer.value;
    var path := StripSlashes(root.path);
    shared := cfg;
    if cfg.oneFileSystem && !cfg.deviceKnown {
      shared := cfg.(deviceKnown := true, rootDevice := st.device);
    }
    errors := EmitRoot(cfg, root, st, path, main, mem);
    ok, task := true, [];
    if st.kind != Directory || cfg.k.p.o.maxDepth == Some(0) {
      return;
    }
    var id := if cfg.k.follow then root.open else root.lopen;
    if id.Some? {
      task := [OpenJob(id.value, path, 0)];
    }
  }

  function EventOf(cfg: Config, s: State, a: Action): Event
    requires Enabled(s, a) && Works(a)
  {
    match a
    case StartRoot => RootEvent(cfg, s.roots[0])
    case Take(_, _) => None
    case Work(w) =>
      var job := s.todo[w][0];
      if job.VisitJob? then VisitEvent(cfg, Deliver(cfg.k, job.path, job.depth, job.e)) else None
  }

  function Apply(cfg: Config, s: State, a: Action): State
    requires Shaped(s) && Enabled(s, a)
  {
    match a
    case StartRoot =>
      var event := EventOf(cfg, s, a);
      s.(roots := s.roots[1..], queue := RootTask(cfg, s.roots[0]),
         main := Recorded(cfg.separator, s.main, event), mainLog := s.mainLog + [event])
    case Take(w, i) =>
      var t := s.queue[i];
      s.(queue := s.queue[..i] + s.queue[i + 1..], todo := s.todo[w := Expand(cfg.k, Entries(cfg.k.world, t.id), t.path, t.depth)],
         logs := s.logs[w := s.logs[w] + [EventOf(cfg, s, a)]])
    case Quit(w) => s.(todo := s.todo[w := []])
    case Discard(i) => s.(queue := s.queue[..i] + s.queue[i + 1..])
    case Work(w) =>
      var job := s.todo[w][0];
      var s' := s.(todo := s.todo[w := s.todo[w][1..]],
                   logs := s.logs[w := s.logs[w] + [EventOf(cfg, s, a)]]);
      match job
      case VisitJob(path, depth, e) =>
        s'.(slots := s.slots[w := SlotAfterVisit(cfg, s.slots[w], Deliver(cfg.k, path, depth, e))])
      case DescendJob(path, depth, e) => s'.(queue := s.queue + Queued(cfg, path, depth, e))
  }

  /** What the main thread does with a root, when there is memory to spare, is the step of the state
      machine; the only error is that of a root that cannot be stat'd. */
  lemma StartRootIsHandled(cfg: Config, s: State)
    requires Shaped(s) && Enabled(s, StartRoot)
    ensures var s', root := Apply(cfg, s, StartRoot), s.roots[0];
            && s'.main == RecordedIn(cfg.separator, PLENTY, s.main, RootEvent(cfg, root)).0
            && s'.queue == RootTask(cfg, root)
            && RootErrors(cfg, PLENTY, s.main, root) == if RootStat(cfg.k, root).None? then [root.path] else []
  {
  }

  /** A schedule that leads from `s` to `s'`. */
  ghost predicate Schedule(cfg: Config, s: State, actions: seq<Action>, s': State)
    requires Shaped(s)
    decreases |actions|
  {
    if actions == [] then s == s'
    else Enabled(s, actions[0]) && Schedule(cfg, Apply(cfg, s, actions[0]), actions[1..], s')
  }

  function Start(roots: seq<Root>, workers: nat): State {
    State(roots, [], seq(workers, i => []), Slot(true, "", 0), seq(workers, i => EMPTY_SLOT), [], seq(workers, i => []))
  }
}
