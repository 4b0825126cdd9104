/** How many stat calls a sequential run makes, of any kind: `fstatat` for roots, for the filter and for
    the check after it, and `fstat` on the directories opened by a walk confined to one file system. */
module StatLaws {
  import opened FileSystem
  import opened Basics
  import opened Paths
  import opened Filter
  import opened Listing
  import opened SequentialWalk
  import opened RunLaws

  // ----- one entry -----

  /** The `fstatat` calls made for one entry: by the filter, then by the check that follows it. */
  function EvaluateCalls(k: Walk, c: Cand): nat { if NeedsStat(k.world.glob, k.p, c) then 1 else 0 }

  function PostCalls(k: Walk, c: Cand): nat {
    if NeedsPostStat(AfterEvaluate(k.world.glob, k.p, c)) then 1 else 0
  }

  /** The entry is a directory that the walk opens and then checks with `fstat`. */
  predicate Checked(k: Walk, e: Entry, depth: nat) {
    k.device.Some? && IsDirectory(k, e) && ShouldDescend(k, e.name, depth) && (if k.follow then e.open else e.lopen).Some?
  }

  /** What is done for an entry itself, before the entries below it, and the directory to go on with. */
  function Attended(k: Walk, env: Env, e: Entry, child: string, depth: nat, r: Run): (Run, Option<nat>) {
    var c := EntryCandidate(k, child, depth, e);
    var (r1, ok) := EmitIfMatch(k, env, c, r);
    var r2 := PostStat(AfterEvaluate(k.world.glob, k.p, c), r1);
    if !ok then (r1, None)
    else if IsDirectory(k, e) && ShouldDescend(k, e.name, depth) then OpenSubdir(k, env, e, child, r2)
    else (r2, None)
  }

  function Followed(k: Walk, env: Env, child: string, depth: nat, attended: (Run, Option<nat>)): Run {
    if attended.1.None? then attended.0
    else
      var (r, ok) := WalkDirectory(k, env, attended.1.value, child, depth, attended.0);
      if ok then r else Poll(env, r)
  }

  /** These are the two parts of a visit; it ends the directory only after a failed write or with a stop. */
  lemma VisitHasTwoParts(k: Walk, env: Env, e: Entry, child: string, depth: nat, r: Run)
    ensures var (r', goOn) := VisitAndDescend(k, env, e, child, depth, r);
            && r' == Followed(k, env, child, depth, Attended(k, env, e, child, depth, r))
            && (goOn || r'.stop || !EmitIfMatch(k, env, EntryCandidate(k, child, depth, e), r).1)
  {
  }

  /** Two `fstatat` calls are made only when both fail, and then the entry is not taken for a directory;
      none is made exactly when type and predicate need none. */
  lemma FstatatCost(k: Walk, e: Entry, child: string, depth: nat)
    ensures var c := EntryCandidate(k, child, depth, e);
            var calls := EvaluateCalls(k, c) + PostCalls(k, c);
            && (calls == 2 ==> c.oracle.None? && !IsDirectory(k, e))
            && (calls == 0 <==> e.dtype != DtOther && !(k.follow && e.dtype == DtLnk) && !NeedsStat(k.world.glob, k.p, c))
  {
  }

  lemma OpenSubdirCounts(k: Walk, env: Env, e: Entry, child: string, depth: nat, r: Run)
    requires IsDirectory(k, e) && ShouldDescend(k, e.name, depth)
    ensures var r', check := OpenSubdir(k, env, e, child, r).0, Checked(k, e, depth) && env.opens(|r.calls|);
            && r'.visits == r.visits
            && r'.statCalls == r.statCalls + (if check then 1 else 0)
            && r'.statHits == r.statHits + if check && env.fstats(|r.calls| + 1) then 1 else 0
  {
  }

  lemma AttendedCounts(k: Walk, env: Env, e: Entry, child: string, depth: nat, r: Run)
    ensures var c, r' := EntryCandidate(k, child, depth, e), Attended(k, env, e, child, depth, r).0;
            var (r1, ok) := EmitIfMatch(k, env, c, r);
            var calls, check := EvaluateCalls(k, c) + (if ok then PostCalls(k, c) else 0), ok && Checked(k, e, depth) && env.opens(|r1.calls|);
            && r'.visits == r.visits + 1
            && r'.statCalls == r.statCalls + calls + (if check then 1 else 0)
            && r'.statHits == r.statHits + (if c.oracle.Some? then calls else 0) + if check && env.fstats(|r1.calls| + 1) then 1 else 0
  {
    var c := EntryCandidate(k, child, depth, e);
    var (r1, ok) := EmitIfMatch(k, env, c, r);
    if ok {
      var r2 := PostStat(AfterEvaluate(k.world.glob, k.p, c), r1);
      assert AfterEvaluate(k.world.glob, k.p, c).oracle == c.oracle;
      if IsDirectory(k, e) && ShouldDescend(k, e.name, depth) {
        OpenSubdirCounts(k, env, e, child, depth, r2);
      }
    }
  }

  /** An entry whose record was written, or needed none, costs no call exactly when its type is known, it
      is not a link to follow, the filter needs no stat, and it is not opened under a device check. It
      costs at most two calls; two only if both `fstatat` fail or one of them is the device check, and two
      that succeed only in the latter case. */
  lemma EntryStatCost(k: Walk, env: Env, e: Entry, child: string, depth: nat, r: Run)
    ensures var c, r' := EntryCandidate(k, child, depth, e), Attended(k, env, e, child, depth, r).0;
            var (r1, ok) := EmitIfMatch(k, env, c, r);
            var calls, hits := r'.statCalls - r.statCalls, r'.statHits - r.statHits;
            && (calls == 0 <==>
                  && !NeedsStat(k.world.glob, k.p, c)
                  && (ok ==> && e.dtype != DtOther && !(k.follow && e.dtype == DtLnk)
                             && !(Checked(k, e, depth) && env.opens(|r1.calls|))))
            && 0 <= hits <= calls <= 2
            && (calls == 2 ==> c.oracle.None? || Checked(k, e, depth))
            && (hits == 2 ==> Checked(k, e, depth))
  {
    AttendedCounts(k, env, e, child, depth, r);
    FstatatCost(k, e, child, depth);
  }

  // ----- bounds by what was visited -----

  /** Between two states: at most two calls per entry visited and `spare` more; and, when no directory is
      checked, at most one success per entry visited and `spare` more. */
  predicate Thrifty(unchecked: bool, spare: nat, r: Run, r': Run) {
    var visits, calls, hits := r'.visits - r.visits, r'.statCalls - r.statCalls, r'.statHits - r.statHits;
    0 <= hits <= calls <= 2 * visits + spare && (unchecked ==> hits <= visits + spare)
  }

  lemma {:induction false} DirectoryIsThrifty(k: Walk, env: Env, id: nat, path: string, depth: nat, r: Run)
    ensures Thrifty(k.device.None?, 0, r, WalkDirectory(k, env, id, path, depth, r).0)
    decreases k.capacity - |path|, |Entries(k.world, id)| + 1
  {
    var ok := env.readerCreates(|r.calls|);
    if ok {
      EntriesAreThrifty(k, env, Entries(k.world, id), path, depth, Called(r, CreateReader(path, ok)));
    }
  }

  lemma {:induction false} EntriesAreThrifty(k: Walk, env: Env, es: seq<Entry>, path: string, depth: nat, r: Run)
    ensures Thrifty(k.device.None?, 0, r, WalkEntries(k, env, es, path, depth, r).0)
    decreases k.capacity - |path|, |es|
  {
    var (r0, more) := Next(env, path, r);
    if more && es != [] {
      EntryIsThrifty(k, env, es[0], path, depth, r0);
      var (r1, goOn) := WalkEntry(k, env, es[0], path, depth, r0);
      if goOn {
        EntriesAreThrifty(k, env, es[1..], path, depth, r1);
      }
    }
  }

  lemma {:induction false} EntryIsThrifty(k: Walk, env: Env, e: Entry, path: string, depth: nat, r: Run)
    ensures Thrifty(k.device.None?, 0, r, WalkEntry(k, env, e, path, depth, r).0)
    decreases k.capacity - |path|, 0
  {
    var child := Join(path, e.name);
    if Visible(k, e) && |child| < k.capacity {
      var (r1, id) := Attended(k, env, e, child, depth + 1, r);
      VisitHasTwoParts(k, env, e, child, depth + 1, r);
      EntryStatCost(k, env, e, child, depth + 1, r);
      AttendedCounts(k, env, e, child, depth + 1, r);
      if id.Some? {
        DirectoryIsThrifty(k, env, id.value, child, depth + 1, r1);
      }
    }
  }

  lemma OpenedRootIsThrifty(k: Walk, env: Env, root: Root, r: Run)
    ensures Thrifty(k.device.None?, 0, r, OpenRoot(k, env, root, r).0)
  {
    var id := if k.follow then root.open else root.lopen;
    if id.Some? {
      DirectoryIsThrifty(k, env, id.value, root.path, 0, Called(r, OpenDirectory(root.path, true)));
    }
  }

  lemma RootIsThrifty(k: Walk, env: Env, root: Root, r: Run)
    ensures Thrifty(k.device.None?, 1, r, WalkRoot(k, env, root, r).0)
  {
    var st := RootStat(k, root);
    if st.Some? && |root.path| < k.capacity {
      var r1 := Called(Called(Stated(r, true), StatRoot(root.path, true)), CheckLength(root.path, true));
      var r2 := EmitIfMatch(k, env, RootCandidate(k, root, st.value), r1).0;
      assert Thrifty(k.device.None?, 1, r, r2);
      OpenedRootIsThrifty(k, env, root, r2);
    }
  }

  lemma {:induction false} RootsAreThrifty(k: Walk, oneFileSystem: bool, env: Env, roots: seq<Root>, r: Run)
    ensures Thrifty(k.device.None? && !oneFileSystem, |roots|, r, WalkRoots(k, oneFileSystem, env, roots, r).0)
    decreases |roots|
  {
    var r0 := Poll(env, r);
    if roots != [] && !r0.stop {
      var k1 := k.(device := DeviceAfter(k, oneFileSystem, roots[0]));
      RootIsThrifty(k1, env, roots[0], r0);
      RootsAreThrifty(k1, oneFileSystem, env, roots[1..], WalkRoot(k1, env, roots[0], r0).0);
    }
  }

  /** Over a whole run, whatever fails: at most two calls per entry visited and one per root; and at most
      one success per entry visited and one per root, unless the walk is confined to one file system. */
  lemma StatsAreLazy(k: Walk, oneFileSystem: bool, env: Env, roots: seq<Root>, r: Run)
    ensures Thrifty(k.device.None? && !oneFileSystem, |Roots(k.world, roots)|, r, WalkAll(k, oneFileSystem, env, roots, r).0)
  {
    if roots == [] {
      RootIsThrifty(k.(device := DeviceAfter(k, oneFileSystem, k.world.dot)), env, k.world.dot, r);
    } else {
      RootsAreThrifty(k, oneFileSystem, env, roots, r);
    }
  }
}
