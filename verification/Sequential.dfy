/** The sequential walker: a recursive walk over one shared path buffer. */
module SequentialWalk {
  import opened Basics
  import opened FileSystem
  import opened Paths
  import opened Filter
  import opened Listing
  import opened Output

  /** The calls that may fail or be interrupted, each asked with the number of calls made so far,
      so every pattern of stop signals and faults is some `Env`. A missing signal handler is a
      `signal` that is never true. */
  datatype Env = Env(
    signal: nat -> bool, readerCreates: nat -> bool, readsEntry: nat -> bool, opens: nat -> bool, fstats: nat -> bool,
    channel: Channel)

  /** One call or check of the program and its answer, as the program saw it. */
  datatype Call =
    | Signal(ok: bool)
    | StatRoot(path: string, ok: bool)
    | CheckLength(path: string, ok: bool)
    | OpenDirectory(path: string, ok: bool)
    | CheckDevice(path: string, ok: bool)
    | CreateReader(path: string, ok: bool)
    | ReadEntry(path: string, ok: bool)
    | Write(path: string, depth: nat, ok: bool)

  /** The state of a run: the latched stop flag, every call made and its answer, the error list, the
      stat calls of every kind, and the output. */
  datatype Run = Run(
    stop: bool, calls: seq<Call>, errors: seq<string>, visits: nat, statCalls: nat, statHits: nat, sink: Sink)

  // ----- the run as a function of the environment -----

  function Called(r: Run, c: Call): Run { r.(calls := r.calls + [c]) }

  /** One stat call more, and one that succeeded when it answered. */
  function Stated(r: Run, answered: bool): Run {
    r.(statCalls := r.statCalls + 1, statHits := r.statHits + if answered then 1 else 0)
  }

  function Complained(r: Run, path: string): Run { r.(errors := r.errors + [path]) }

  /** The stop flag is latched: once true, the handler is not asked again. */
  function Poll(env: Env, r: Run): Run {
    if r.stop then r
    else
      var raised := env.signal(|r.calls|);
      Called(r, Signal(raised)).(stop := raised)
  }

  function Evaluated(k: Walk, c: Cand, r: Run): Run {
    var n := if NeedsStat(k.world.glob, k.p, c) then 1 else 0;
    r.(visits := r.visits + 1, statCalls := r.statCalls + n,
       statHits := r.statHits + if c.oracle.Some? then n else 0)
  }

  /** The answer is false when the record had to be written and was not. */
  function EmitIfMatch(k: Walk, env: Env, c: Cand, r: Run): (Run, bool) {
    var r1 := Evaluated(k, c, r);
    if Verdict(k.world.glob, k.p, c) != Accept then (r1, true)
    else
      var (sink, ok) := Emitted(env.channel, r1.sink, c.path);
      (Called(r1, Write(c.path, c.depth, ok)).(sink := sink), ok)
  }

  /** The check after the filter: stat again if the type is still unknown or is a link to follow. */
  predicate NeedsPostStat(c: Cand) { !c.resolved || (c.follow && c.kind == Symlink) }

  predicate IsDirectoryAfter(c: Cand) {
    if NeedsPostStat(c) && c.oracle.Some? then Populated(c, c.oracle.value).kind == Directory
    else c.resolved && c.kind == Directory
  }

  function PostStat(c: Cand, r: Run): Run {
    var n := if NeedsPostStat(c) then 1 else 0;
    r.(statCalls := r.statCalls + n, statHits := r.statHits + if c.oracle.Some? then n else 0)
  }

  /** Opening a subdirectory, with the device check of a walk confined to one file system. */
  function OpenSubdir(k: Walk, env: Env, e: Entry, child: string, r: Run): (Run, Option<nat>) {
    var id := if k.follow then e.open else e.lopen;
    var didOpen := env.opens(|r.calls|) && id.Some?;
    var r1 := Called(r, OpenDirectory(child, didOpen));
    if !didOpen then (Complained(r1, child), None)
    else if k.device.None? then (r1, id)
    else
      var answered := env.fstats(|r1.calls|);
      var same := answered && k.world.device(id.value) == k.device.value;
      var r2 := Called(Stated(r1, answered), CheckDevice(child, same));
      if same then (r2, id) else (Complained(r2, child), None)
  }

  /** The head of the directory loop: the stop check, then the reader. */
  function Next(env: Env, path: string, r: Run): (Run, bool) {
    var r0 := Poll(env, r);
    if r0.stop then (r0, false)
    else
      var ok := env.readsEntry(|r0.calls|);
      var r1 := Called(r0, ReadEntry(path, ok));
      (if ok then r1 else Complained(r1, path), ok)
  }

  function WalkDirectory(k: Walk, env: Env, id: nat, path: string, depth: nat, r: Run): (Run, bool)
    decreases k.capacity - |path|, 1
  {
    var ok := env.readerCreates(|r.calls|);
    var r1 := Called(r, CreateReader(path, ok));
    if ok then WalkEntries(k, env, Entries(k.world, id), path, depth, r1) else (Complained(r1, path), false)
  }

  /** The loop over the remaining entries `es` of the directory at `path`. */
  function WalkEntries(k: Walk, env: Env, es: seq<Entry>, path: string, depth: nat, r: Run): (Run, bool)
    decreases k.capacity - |path|, 0, |es|
  {
    var (r0, more) := Next(env, path, r);
    if !more then (r0, false)
    else if es == [] then (r0, true)
    else
      var (r1, goOn) := WalkEntry(k, env, es[0], path, depth, r0);
      if goOn then WalkEntries(k, env, es[1..], path, depth, r1) else (r1, false)
  }

  /** One entry of the directory at `path`; the answer says whether the loop goes on. */
  function WalkEntry(k: Walk, env: Env, e: Entry, path: string, depth: nat, r: Run): (Run, bool)
    decreases k.capacity - |path|, 0, 0
  {
    var child := Join(path, e.name);
    if !Visible(k, e) || |child| >= k.capacity then (r, true) else VisitAndDescend(k, env, e, child, depth + 1, r)
  }

  /** Emit the entry if it matches, then enter it if it is a directory; a failed write ends the directory. */
  function VisitAndDescend(k: Walk, env: Env, e: Entry, child: string, depth: nat, r: Run): (Run, bool)
    decreases k.capacity - |child|, 3
  {
    var c := EntryCandidate(k, child, depth, e);
    var (r1, ok) := EmitIfMatch(k, env, c, r);
    if !ok then (r1, false)
    else Descend(k, env, e, child, depth, PostStat(AfterEvaluate(k.world.glob, k.p, c), r1))
  }

  /** A subdirectory that fails does not end its parent, unless a stop is pending. */
  function Descend(k: Walk, env: Env, e: Entry, child: string, depth: nat, r: Run): (Run, bool)
    decreases k.capacity - |child|, 2
  {
    if !(IsDirectory(k, e) && ShouldDescend(k, e.name, depth)) then (r, true)
    else
      var (r1, id) := OpenSubdir(k, env, e, child, r);
      if id.None? then (r1, true)
      else
        var (r2, ok) := WalkDirectory(k, env, id.value, child, depth, r1);
        var r3 := if ok then r2 else Poll(env, r2);
        (r3, ok || !r3.stop)
  }

  predicate EntersRoot(k: Walk, st: Stat) { st.kind == Directory && k.p.o.maxDepth != Some(0) }

  function WalkRoot(k: Walk, env: Env, root: Root, r: Run): (Run, bool) {
    var st := RootStat(k, root);
    var r1 := Called(Stated(r, st.Some?), StatRoot(root.path, st.Some?));
    if st.None? then (Complained(r1, root.path), false) else WalkStatedRoot(k, env, root, st.value, r1)
  }

  function WalkStatedRoot(k: Walk, env: Env, root: Root, st: Stat, r: Run): (Run, bool) {
    var fits := |root.path| < k.capacity;
    var r1 := Called(r, CheckLength(root.path, fits));
    if !fits then (Complained(r1, root.path), false)
    else
      var (r2, ok) := EmitIfMatch(k, env, RootCandidate(k, root, st), r1);
      if ok && EntersRoot(k, st) then OpenRoot(k, env, root, r2) else (r2, ok)
  }

  function OpenRoot(k: Walk, env: Env, root: Root, r: Run): (Run, bool) {
    var id := if k.follow then root.open else root.lopen;
    var didOpen := env.opens(|r.calls|) && id.Some?;
    var r1 := Called(r, OpenDirectory(root.path, didOpen));
    if didOpen then WalkDirectory(k, env, id.value, root.path, 0, r1) else (Complained(r1, root.path), false)
  }

  function WalkRoots(k: Walk, oneFileSystem: bool, env: Env, roots: seq<Root>, r: Run): (Run, bool)
    decreases |roots|
  {
    if roots == [] then (r, true)
    else
      var r0 := Poll(env, r);
      if r0.stop then (r0, true)
      else
        var k1 := k.(device := DeviceAfter(k, oneFileSystem, roots[0]));
        var (r1, ok) := WalkRoot(k1, env, roots[0], r0);
        var (r2, restOk) := WalkRoots(k1, oneFileSystem, env, roots[1..], r1);
        (r2, ok && restOk)
  }

  /** With no root given the walk starts at ".", without asking the signal handler first. */
  function WalkAll(k: Walk, oneFileSystem: bool, env: Env, roots: seq<Root>, r: Run): (Run, bool) {
    if roots == [] then WalkRoot(k.(device := DeviceAfter(k, oneFileSystem, k.world.dot)), env, k.world.dot, r)
    else WalkRoots(k, oneFileSystem, env, roots, r)
  }

  /** Whether the walk enters a directory does not depend on the filter: the same answer comes out
      whether evaluation called stat and rewrote the type, failed to stat, or never tried. */
  lemma DescentIgnoresFilter(k: Walk, p: Predicate, path: string, depth: nat, e: Entry)
    ensures IsDirectoryAfter(AfterEvaluate(k.world.glob, p, EntryCandidate(k, path, depth, e))) <==> IsDirectory(k, e)
  {
  }

  // ----- the walker itself -----

  class Walker {
    const world: World
    const p: Predicate
    const follow: bool
    const oneFileSystem: bool
    const env: Env
    const output: Output
    var rootDevice: Option<int>
    var stopRequested: bool
    var errors: seq<string>
    var calls: seq<Call>
    ghost var visits: nat
    ghost var statCalls: nat
    ghost var statHits: nat

    ghost predicate Valid()
      reads this, output
    {
      WellBuilt(p) && env.channel == output.ch && output.Valid()
    }

    function Context(): Walk
      reads this
    {
      Walk(world, p, follow, rootDevice, PATH_CAPACITY, Sequential)
    }

    ghost function State(): Run
      reads this, output
    {
      Run(stopRequested, calls, errors, visits, statCalls, statHits, output.State())
    }

    constructor (world: World, p: Predicate, follow: bool, oneFileSystem: bool, env: Env, output: Output)
      requires WellBuilt(p) && env.channel == output.ch && output.Valid()
      ensures Valid() && this.world == world && this.p == p && this.follow == follow
      ensures this.oneFileSystem == oneFileSystem && this.env == env && this.output == output
      ensures rootDevice == None && State() == Run(false, [], [], 0, 0, 0, output.State())
    {
      this.world, this.p, this.follow, this.oneFileSystem := world, p, follow, oneFileSystem;
      this.env, this.output := env, output;
      rootDevice, stopRequested, errors, calls := None, false, [], [];
      visits, statCalls, statHits := 0, 0, 0;
    }

    method ShouldStop() returns (stop: bool)
      modifies this`stopRequested, this`calls
      ensures State() == Poll(env, old(State())) && stop == stopRequested
    {
      if stopRequested {
        return true;
      }
      var raised := env.signal(|calls|);
      calls := calls + [Signal(raised)];
      if raised {
        stopRequested := true;
        return true;
      }
      stop := false;
    }

    method EmitMatch(c: Candidate, buffer: array<char>, length: nat) returns (ok: bool)
      requires Valid() && length <= buffer.Length && buffer[..length] == c.path
      requires c.statCalls == c.statHits == 0
      modifies c, output, this`calls, this`visits, this`statCalls, this`statHits
      ensures Valid() && (State(), ok) == EmitIfMatch(Context(), env, old(c.View()), old(State()))
      ensures c.View() == AfterEvaluate(world.glob, p, old(c.View()))
    {
      var decision := Evaluate(world.glob, p, c);
      visits := visits + 1;
      statCalls, statHits := statCalls + c.statCalls, statHits + c.statHits;
      assert State() == Evaluated(Context(), old(c.View()), old(State()));
      if decision != Accept {
        return true;
      }
      ok := output.Emit(buffer, length);
      calls := calls + [Write(c.path, c.depth, ok)];
    }

    method ShouldDescendDirectory(name: Name, depth: nat) returns (descend: bool)
      ensures descend <==> ShouldDescend(Context(), name, depth)
    {
      if p.o.maxDepth.Some? && depth > p.o.maxDepth.value {
        return false;
      }
      if p.o.respectIgnoreDefaults {
        var ignored := IgnoredDirectoryName(name);
        if ignored {
          return false;
        }
      }
      descend := !(!p.o.includeHidden && IsHidden(name));
    }

    /** Opens the subdirectory, or records the error under the path in the buffer. */
    method OpenOrRecord(e: Entry, child: string) returns (id: Option<nat>)
      modifies this`calls, this`errors, this`statCalls, this`statHits
      ensures (State(), id) == OpenSubdir(Context(), env, e, child, old(State()))
    {
      id := if follow then e.open else e.lopen;
      var didOpen := env.opens(|calls|) && id.Some?;
      calls := calls + [OpenDirectory(child, didOpen)];
      if !didOpen {
        errors := errors + [child];
        return None;
      }
      if rootDevice.Some? {
        var answered := env.fstats(|calls|);
        var same := answered && world.device(id.value) == rootDevice.value;
        statCalls, statHits := statCalls + 1, statHits + if answered then 1 else 0;
        calls := calls + [CheckDevice(child, same)];
        if !same {
          errors := errors + [child];
          return None;
        }
      }
    }

    /** The candidate for the entry whose path is in the buffer; the name and the path are read
        back from the buffer as C strings. */
    method CandidateInBuffer(e: Entry, buffer: array<char>, length: nat, depth: nat) returns (c: Candidate)
      requires length < buffer.Length && buffer[length] == '\0' && '\0' !in buffer[..length]
      requires |e.name| <= length && buffer[length - |e.name|..length] == e.name
      ensures fresh(c) && c.View() == EntryCandidate(Context(), buffer[..length], depth, e)
      ensures c.statCalls == c.statHits == 0
    {
      CStringStopsAtNul(buffer[..], length);
      CStringStopsAtNul(buffer[length - |e.name|..], |e.name|);
      var oracle := if follow then e.stat else e.lstat;
      c := new Candidate(Cand(CString(buffer[..]), CString(buffer[length - |e.name|..]), depth,
                              TypeOfDType(e.dtype), e.dtype != DtOther, 0, 0, 0, false, follow, oracle));
    }

    /** Whether the filtered candidate is a directory, with a stat when its type is still open. */
    method FindIsDirectory(c: Candidate) returns (isDirectory: bool)
      modifies c, this`statCalls, this`statHits
      ensures isDirectory == IsDirectoryAfter(old(c.View()))
      ensures State() == PostStat(old(c.View()), old(State()))
    {
      isDirectory := c.resolved && c.kind == Directory;
      if !c.resolved || (c.follow && c.kind == Symlink) {
        ghost var calls, hits := c.statCalls, c.statHits;
        var stated := c.PopulateStat();
        statCalls, statHits := statCalls + (c.statCalls - calls), statHits + (c.statHits - hits);
        if stated {
          isDirectory := c.kind == Directory;
        }
      }
    }

    /** Emits the entry whose path is in the buffer if it matches, and finds out whether it is a directory. */
    method VisitEntry(e: Entry, buffer: array<char>, length: nat, depth: nat) returns (ok: bool, isDirectory: bool)
      requires Valid() && length < buffer.Length && buffer[length] == '\0' && '\0' !in buffer[..length]
      requires |e.name| <= length && buffer[length - |e.name|..length] == e.name
      modifies output, this`calls, this`visits, this`statCalls, this`statHits
      ensures Valid()
      ensures var c := EntryCandidate(Context(), buffer[..length], depth, e);
              var (r, emitted) := EmitIfMatch(Context(), env, c, old(State()));
              && ok == emitted
              && State() == (if ok then PostStat(AfterEvaluate(world.glob, p, c), r) else r)
              && (ok ==> isDirectory == IsDirectory(Context(), e))
    {
      var c := CandidateInBuffer(e, buffer, length, depth);
      ok := EmitMatch(c, buffer, length);
      isDirectory := false;
      if ok {
        DescentIgnoresFilter(Context(), p, buffer[..length], depth, e);
        isDirectory := FindIsDirectory(c);
      }
    }

    /** Enters the directory whose path is in the buffer, if the walk may. */
    method DescendInto(e: Entry, isDirectory: bool, buffer: array<char>, length: nat, depth: nat) returns (goOn: bool)
      requires Valid() && buffer.Length == PATH_CAPACITY && length < PATH_CAPACITY
      requires '\0' !in buffer[..length] && buffer[length] == '\0' && isDirectory == IsDirectory(Context(), e)
      modifies this`stopRequested, this`calls, this`errors, this`visits, this`statCalls, this`statHits
      modifies output, buffer
      ensures Valid()
      ensures buffer[..length] == old(buffer[..length])
      ensures (State(), goOn) == Descend(Context(), env, e, old(buffer[..length]), depth, old(State()))
      decreases PATH_CAPACITY - length, 3
    {
      goOn := true;
      if !isDirectory {
        return;
      }
      var descend := ShouldDescendDirectory(e.name, depth);
      if !descend {
        return;
      }
      CStringStopsAtNul(buffer[..], length);
      var subdir := OpenOrRecord(e, CString(buffer[..]));
      if subdir.None? {
        return;
      }
      var recurseOk := IterateEntries(subdir.value, buffer, length, depth);
      if !recurseOk {
        var stop := ShouldStop();
        goOn := !stop;
      }
    }

    /** One entry: append its name, emit and descend, and cut the buffer back. After a failed write
        the buffer is left as it is; only the bytes before `pathLength` are still meaningful. */
    method ProcessEntry(e: Entry, buffer: array<char>, pathLength: nat, depth: nat) returns (goOn: bool)
      requires Valid() && buffer.Length == PATH_CAPACITY && pathLength < PATH_CAPACITY
      requires '\0' !in buffer[..pathLength] && buffer[pathLength] == '\0'
      modifies this`stopRequested, this`calls, this`errors, this`visits, this`statCalls, this`statHits
      modifies output, buffer
      ensures Valid()
      ensures buffer[..pathLength] == old(buffer[..pathLength])
      ensures goOn ==> buffer[pathLength] == '\0'
      ensures (State(), goOn) == WalkEntry(Context(), env, e, old(buffer[..pathLength]), depth, old(State()))
      decreases PATH_CAPACITY - pathLength, 0
    {
      ghost var path := buffer[..pathLength];
      if !p.o.includeHidden && IsHidden(e.name) {
        return true;
      }
      var fits, length := AppendPath(buffer, pathLength, e.name);
      if !fits {
        Truncate(buffer, pathLength);
        return true;
      }
      ghost var child := Join(path, e.name);
      assert child[..pathLength] == path && child[length - |e.name|..] == e.name;
      assert buffer[length - |e.name|..length] == buffer[..length][length - |e.name|..];
      var emitted;
      goOn, emitted := ProcessAppended(e, buffer, length, depth + 1);
      assert buffer[..pathLength] == buffer[..length][..pathLength];
      if emitted {
        Truncate(buffer, pathLength);
      }
    }

    /** The entry whose path has just been appended; `emitted` is false when its write failed. */
    method ProcessAppended(e: Entry, buffer: array<char>, length: nat, depth: nat) returns (goOn: bool, emitted: bool)
      requires Valid() && buffer.Length == PATH_CAPACITY && length < PATH_CAPACITY
      requires '\0' !in buffer[..length] && buffer[length] == '\0'
      requires |e.name| <= length && buffer[length - |e.name|..length] == e.name
      modifies this`stopRequested, this`calls, this`errors, this`visits, this`statCalls, this`statHits
      modifies output, buffer
      ensures Valid()
      ensures buffer[..length] == old(buffer[..length])
      ensures goOn ==> emitted
      ensures (State(), goOn) == VisitAndDescend(Context(), env, e, old(buffer[..length]), depth, old(State()))
      decreases PATH_CAPACITY - length, 4
    {
      var isDirectory;
      emitted, isDirectory := VisitEntry(e, buffer, length, depth);
      goOn := emitted;
      if emitted {
        goOn := DescendInto(e, isDirectory, buffer, length, depth);
      }
    }

    /** The walk of one directory. The bytes of the buffer before `pathLength` are the same on
        every return, whether or not the last entry was truncated away. */
    method IterateEntries(id: nat, buffer: array<char>, pathLength: nat, depth: nat) returns (ok: bool)
      requires Valid() && buffer.Length == PATH_CAPACITY && pathLength < PATH_CAPACITY
      requires '\0' !in buffer[..pathLength] && buffer[pathLength] == '\0'
      modifies this`stopRequested, this`calls, this`errors, this`visits, this`statCalls, this`statHits
      modifies output, buffer
      ensures Valid()
      ensures buffer[..pathLength] == old(buffer[..pathLength])
      ensures (State(), ok) == WalkDirectory(Context(), env, id, old(buffer[..pathLength]), depth, old(State()))
      decreases PATH_CAPACITY - pathLength, 2
    {
      CStringStopsAtNul(buffer[..], pathLength);
      ok := env.readerCreates(|calls|);
      calls := calls + [CreateReader(CString(buffer[..]), ok)];
      if !ok {
        errors := errors + [CString(buffer[..])];
        return;
      }
      ok := ReadEntries(Entries(world, id), buffer, pathLength, depth);
    }

    /** The reader loop: `es` is what the reader has to give. */
    method ReadEntries(es: seq<Entry>, buffer: array<char>, pathLength: nat, depth: nat) returns (ok: bool)
      requires Valid() && buffer.Length == PATH_CAPACITY && pathLength < PATH_CAPACITY
      requires '\0' !in buffer[..pathLength] && buffer[pathLength] == '\0'
      modifies this`stopRequested, this`calls, this`errors, this`visits, this`statCalls, this`statHits
      modifies output, buffer
      ensures Valid()
      ensures buffer[..pathLength] == old(buffer[..pathLength])
      ensures (State(), ok) == WalkEntries(Context(), env, es, old(buffer[..pathLength]), depth, old(State()))
      decreases PATH_CAPACITY - pathLength, 1
    {
      ghost var path, k := buffer[..pathLength], Context();
      ghost var goal := WalkEntries(k, env, es, path, depth, State());
      assert es[0..] == es;
      var i := 0;
      while true
        invariant Valid() && 0 <= i <= |es|
        invariant buffer[..pathLength] == path && buffer[pathLength] == '\0'
        invariant WalkEntries(k, env, es[i..], path, depth, State()) == goal
        decreases |es| - i
      {
        var more := NextEntry(buffer, pathLength);
        if !more || i == |es| {
          return more;
        }
        assert es[i..][0] == es[i] && es[i..][1..] == es[i + 1..];
        var goOn := ProcessEntry(es[i], buffer, pathLength, depth);
        if !goOn {
          return false;
        }
        i := i + 1;
      }
    }

    /** The head of the loop: ask the signal handler, then the reader. */
    method NextEntry(buffer: array<char>, pathLength: nat) returns (ok: bool)
      requires pathLength < buffer.Length && '\0' !in buffer[..pathLength] && buffer[pathLength] == '\0'
      modifies this`stopRequested, this`calls, this`errors
      ensures (State(), ok) == Next(env, buffer[..pathLength], old(State()))
    {
      var stop := ShouldStop();
      if stop {
        return false;
      }
      CStringStopsAtNul(buffer[..], pathLength);
      ok := env.readsEntry(|calls|);
      calls := calls + [ReadEntry(CString(buffer[..]), ok)];
      if !ok {
        errors := errors + [CString(buffer[..])];
      }
    }

    /** The root is stat'd, filtered and, when it is a directory, opened and walked in a buffer of its own. */
    method VisitRoot(root: Root) returns (ok: bool)
      requires Valid()
      modifies this, output
      ensures Valid()
      ensures Context() == old(Context()).(device := DeviceAfter(old(Context()), oneFileSystem, root))
      ensures (State(), ok) == WalkRoot(Context(), env, root, old(State()))
    {
      var answer := if follow then root.stat else root.lstat;
      calls := calls + [StatRoot(root.path, answer.Some?)];
      statCalls, statHits := statCalls + 1, statHits + if answer.Some? then 1 else 0;
      if answer.None? {
        errors := errors + [root.path];
        return false;
      }
      var st := answer.value;
      if oneFileSystem && rootDevice.None? {
        rootDevice := Some(st.device);
      }
      ok := VisitStatedRoot(root, st);
    }

    /** The part of the visit that follows the stat. */
    method VisitStatedRoot(root: Root, st: Stat) returns (ok: bool)
      requires Valid() && RootStat(Context(), root) == Some(st)
      modifies this`stopRequested, this`calls, this`errors, this`visits, this`statCalls, this`statHits
      modifies output
      ensures Valid()
      ensures (State(), ok) == WalkStatedRoot(Context(), env, root, st, old(State()))
    {
      var length := |root.path|;
      calls := calls + [CheckLength(root.path, length < PATH_CAPACITY)];
      if length >= PATH_CAPACITY {
        errors := errors + [root.path];
        return false;
      }
      var buffer := NewBuffer(root.path);
      ok := EmitRoot(root, st, buffer, length);
      if ok && st.kind == Directory && p.o.maxDepth != Some(0) {
        ok := EnterRoot(root, buffer, length);
      }
    }

    method EnterRoot(root: Root, buffer: array<char>, length: nat) returns (ok: bool)
      requires Valid() && buffer.Length == PATH_CAPACITY && length == |root.path| < PATH_CAPACITY
      requires buffer[..length] == root.path && buffer[length] == '\0'
      modifies this`stopRequested, this`calls, this`errors, this`visits, this`statCalls, this`statHits
      modifies output, buffer
      ensures Valid()
      ensures (State(), ok) == OpenRoot(Context(), env, root, old(State()))
    {
      var id := if follow then root.open else root.lopen;
      ok := env.opens(|calls|) && id.Some?;
      calls := calls + [OpenDirectory(root.path, ok)];
      if !ok {
        errors := errors + [root.path];
        return;
      }
      ok := IterateEntries(id.value, buffer, length, 0);
    }

    method EmitRoot(root: Root, st: Stat, buffer: array<char>, length: nat) returns (ok: bool)
      requires Valid() && length == |root.path| < buffer.Length
      requires buffer[..length] == root.path && buffer[length] == '\0'
      modifies output, this`calls, this`visits, this`statCalls, this`statHits
      ensures Valid()
      ensures (State(), ok) == EmitIfMatch(Context(), env, RootCandidate(Context(), root, st), old(State()))
    {
      CStringStopsAtNul(buffer[..], length);
      var basename := Basename(root.path);
      var size := if st.size >= 0 then st.size else 0;
      var c := new Candidate(Cand(CString(buffer[..]), basename, 0, st.kind, st.kind != Any, size, st.mtime,
                                  st.mode % MODE_BITS, true, false, world.cwdStat(basename, false)));
      ok := EmitMatch(c, buffer, length);
    }

    method WalkSequential(roots: seq<Root>) returns (anyOk: bool)
      requires Valid()
      modifies this, output
      ensures Valid()
      ensures (State(), anyOk) == WalkAll(old(Context()), oneFileSystem, env, roots, old(State()))
    {
      if |roots| == 0 {
        anyOk := VisitRoot(world.dot);
        return;
      }
      anyOk := true;
      ghost var k0, goal := Context(), WalkRoots(Context(), oneFileSystem, env, roots, State());
      var i := 0;
      while i < |roots|
        invariant Valid() && 0 <= i <= |roots|
        invariant Context() == k0.(device := rootDevice)
        invariant var (r, rest) := WalkRoots(Context(), oneFileSystem, env, roots[i..], State());
                  (r, anyOk && rest) == goal
      {
        assert roots[i..][0] == roots[i] && roots[i..][1..] == roots[i + 1..];
        var stop := ShouldStop();
        if stop {
          break;
        }
        var ok := VisitRoot(roots[i]);
        if !ok {
          anyOk := false;
        }
        i := i + 1;
      }
    }
  }
}
