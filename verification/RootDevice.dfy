/** Publishing the root device to the workers: two atomics, written one after the other by the main
    thread before the first walk starts and read one after the other by the callbacks. */
module RootDevice {
  import opened Basics
  import FileSystem
  import Listing
  import ParallelWalk

  /** Where the main thread is. `Store` is between the exchange that set the flag and the store of
      the device. */
  datatype MainPc = Stating | Exchange(d: int) | Store(d: int) | Walk | Walking

  /** Where a callback is: `visit` loads the device and then the flag, `should_descend` the flag and
      then the device. */
  datatype WorkerPc = Outside | VisitHolds(d: int) | DescendHolds(flag: nat)

  /** `roots` are the devices of the roots still to come, `None` where stat fails; `seen` is every
      pair of flag and device some callback has acted on. */
  datatype State = State(
    roots: seq<Option<int>>, pc: MainPc, flag: nat, device: int, workers: seq<WorkerPc>, seen: seq<(nat, int)>)

  datatype Action =
    | StatRoot | TryExchange | StoreDevice | StartWalk | SkipWalk | Join
    | VisitLoadDevice(w: nat) | VisitLoadFlag(w: nat) | DescendLoadFlag(w: nat) | DescendLoadDevice(w: nat)

  predicate Enabled(s: State, a: Action) {
    match a
    case StatRoot => s.pc.Stating? && s.roots != []
    case TryExchange => s.pc.Exchange?
    case StoreDevice => s.pc.Store?
    case StartWalk => s.pc.Walk?
    case SkipWalk => s.pc.Walk?
    case Join => s.pc.Walking? && forall w :: 0 <= w < |s.workers| ==> s.workers[w].Outside?
    case VisitLoadDevice(w) => s.pc.Walking? && w < |s.workers| && s.workers[w].Outside?
    case VisitLoadFlag(w) => s.pc.Walking? && w < |s.workers| && s.workers[w].VisitHolds?
    case DescendLoadFlag(w) => s.pc.Walking? && w < |s.workers| && s.workers[w].Outside?
    case DescendLoadDevice(w) => s.pc.Walking? && w < |s.workers| && s.workers[w].DescendHolds?
  }

  function Apply(s: State, a: Action): State
    requires Enabled(s, a)
  {
    match a
    case StatRoot =>
      s.(roots := s.roots[1..], pc := if s.roots[0].Some? then Exchange(s.roots[0].value) else Stating)
    case TryExchange => if s.flag == 0 then s.(flag := 1, pc := Store(s.pc.d)) else s.(pc := Walk)
    case StoreDevice => s.(device := s.pc.d, pc := Walk)
    case StartWalk => s.(pc := Walking)
    case SkipWalk => s.(pc := Stating)
    case Join => s.(pc := Stating)
    case VisitLoadDevice(w) => s.(workers := s.workers[w := VisitHolds(s.device)])
    case VisitLoadFlag(w) => s.(workers := s.workers[w := Outside], seen := s.seen + [(s.flag, s.workers[w].d)])
    case DescendLoadFlag(w) => s.(workers := s.workers[w := DescendHolds(s.flag)])
    case DescendLoadDevice(w) => s.(workers := s.workers[w := Outside], seen := s.seen + [(s.workers[w].flag, s.device)])
  }

  function Start(roots: seq<Option<int>>, workers: nat): State {
    State(roots, Stating, 0, 0, seq(workers, i => Outside), [])
  }

  /** The device of the first root that can be stat'd. */
  function FirstDevice(roots: seq<Option<int>>): Option<int> {
    if roots == [] then None else if roots[0].Some? then roots[0] else FirstDevice(roots[1..])
  }

  ghost predicate Schedule(s: State, actions: seq<Action>, s': State)
    decreases |actions|
  {
    if actions == [] then s == s' else Enabled(s, actions[0]) && Schedule(Apply(s, actions[0]), actions[1..], s')
  }

  /** `first` is the device that must be published: still to come while the flag is 0, on its way
      while a store is pending, and in place from then on. */
  ghost predicate Inv(first: Option<int>, s: State) {
    && (s.flag == 0 || s.flag == 1)
    && (s.flag == 0 ==> (s.pc.Stating? || s.pc.Exchange?) && first == if s.pc.Exchange? then Some(s.pc.d) else FirstDevice(s.roots))
    && (s.pc.Store? ==> s.flag == 1 && first == Some(s.pc.d))
    && (s.flag == 1 && !s.pc.Store? ==> first == Some(s.device))
    && (forall w :: 0 <= w < |s.workers| ==>
          && (!s.pc.Walking? ==> s.workers[w].Outside?)
          && (s.workers[w].VisitHolds? ==> first == Some(s.workers[w].d))
          && (s.workers[w].DescendHolds? ==> s.workers[w].flag == 1))
    && (forall i :: 0 <= i < |s.seen| ==> s.seen[i].0 == 1 && first == Some(s.seen[i].1))
  }

  lemma StepKeepsInv(first: Option<int>, s: State, a: Action)
    requires Inv(first, s) && Enabled(s, a)
    ensures Inv(first, Apply(s, a))
  {
  }

  lemma {:induction false} ScheduleKeepsInv(first: Option<int>, s: State, actions: seq<Action>, s': State)
    requires Inv(first, s) && Schedule(s, actions, s')
    ensures Inv(first, s')
    decreases |actions|
  {
    if actions != [] {
      StepKeepsInv(first, s, actions[0]);
      ScheduleKeepsInv(first, Apply(s, actions[0]), actions[1..], s');
    }
  }

  /** In every run, every callback acts on flag 1 and the device of the first root that was stat'd:
      never on the initial 0, and never on a later root's device. */
  lemma CallbacksSeeTheFirstRoot(roots: seq<Option<int>>, workers: nat, actions: seq<Action>, s: State)
    requires Schedule(Start(roots, workers), actions, s)
    ensures forall i :: 0 <= i < |s.seen| ==> s.seen[i].0 == 1 && FirstDevice(roots) == Some(s.seen[i].1)
  {
    ScheduleKeepsInv(FirstDevice(roots), Start(roots, workers), actions, s);
  }

  // ----- the device in the callbacks' configuration -----

  /** The device the callbacks compare with, if they do. */
  function SharedDevice(cfg: ParallelWalk.Config): Option<int> {
    if cfg.oneFileSystem && cfg.deviceKnown then Some(cfg.rootDevice) else None
  }

  function PublishedByAll(cfg: ParallelWalk.Config, roots: seq<FileSystem.Root>): ParallelWalk.Config
    decreases |roots|
  {
    if roots == [] then cfg else PublishedByAll(ParallelWalk.Published(cfg, roots[0]), roots[1..])
  }

  function DevicesOf(k: Listing.Walk, roots: seq<FileSystem.Root>): seq<Option<int>> {
    if roots == [] then []
    else
      var st := Listing.RootStat(k, roots[0]);
      [if st.Some? then Some(st.value.device) else None] + DevicesOf(k, roots[1..])
  }

  /** A root of the parallel walk publishes the device the sequential walk would be confined to from then on. */
  lemma PublishingIsConfining(cfg: ParallelWalk.Config, root: FileSystem.Root)
    ensures SharedDevice(ParallelWalk.Published(cfg, root))
         == Listing.DeviceAfter(cfg.k.(device := SharedDevice(cfg)), cfg.oneFileSystem, root)
  {
  }

  /** Handling all roots publishes the device of the first one that was stat'd. */
  lemma {:induction false} RootsPublishTheFirstDevice(cfg: ParallelWalk.Config, roots: seq<FileSystem.Root>)
    requires cfg.oneFileSystem
    ensures SharedDevice(PublishedByAll(cfg, roots))
         == if cfg.deviceKnown then Some(cfg.rootDevice) else FirstDevice(DevicesOf(cfg.k, roots))
    decreases |roots|
  {
    if roots != [] {
      RootsPublishTheFirstDevice(ParallelWalk.Published(cfg, roots[0]), roots[1..]);
      assert DevicesOf(cfg.k, roots)[1..] == DevicesOf(cfg.k, roots[1..]);
    }
  }
}
