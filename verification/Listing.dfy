/** The specification both walkers are measured against: the candidates reachable from the
    roots, in pre-order, and the paths among them that the predicate accepts. */
module Listing {
  import opened Basics
  import opened FileSystem
  import opened Paths
  import opened Filter

  /** The two walkers test the depth of a directory differently before descending. */
  datatype DescentRule = Sequential | Parallel

  /** What a walk is given. `device` is set when the walk is confined to one file system. */
  datatype Walk = Walk(world: World, p: Predicate, follow: bool, device: Option<int>, capacity: nat, rule: DescentRule)

  const IGNORED: seq<string> := [
    ".git", ".hg", ".svn", ".bzr", "CVS", ".cache", "node_modules", "target",
    "__pycache__", ".venv", ".tox", ".mypy_cache", ".pytest_cache", ".ruff_cache", ".ccls-cache"]

  method IgnoredDirectoryName(name: string) returns (ignored: bool)
    ensures ignored <==> name in IGNORED
  {
    for i := 0 to |IGNORED|
      invariant name !in IGNORED[..i]
    {
      if |IGNORED[i]| == |name| && IGNORED[i] == name {
        return true;
      }
    }
    ignored := false;
  }

  predicate IsHidden(name: Name) { name[0] == '.' && |name| > 1 }

  /** An entry as first handed to the filter, before any stat. */
  function EntryCandidate(k: Walk, path: string, depth: nat, e: Entry): Cand {
    Cand(path, e.name, depth, TypeOfDType(e.dtype), e.dtype != DtOther, 0, 0, 0, false, k.follow, StatOf(k, e))
  }

  function StatOf(k: Walk, e: Entry): Option<Stat> { if k.follow then e.stat else e.lstat }

  /** A directory, through its link when links are followed; what stat says when `d_type` does not tell. */
  predicate IsDirectory(k: Walk, e: Entry) {
    if e.dtype == DtDir then true
    else if e.dtype == DtOther || (k.follow && e.dtype == DtLnk) then StatOf(k, e).Some? && StatOf(k, e).value.kind == Directory
    else false
  }

  predicate Visible(k: Walk, e: Entry) { k.p.o.includeHidden || !IsHidden(e.name) }

  predicate DepthAllows(k: Walk, depth: nat) {
    k.p.o.maxDepth.Some? ==> if k.rule.Sequential? then depth <= k.p.o.maxDepth.value else depth < k.p.o.maxDepth.value
  }

  predicate ShouldDescend(k: Walk, name: Name, depth: nat) {
    && DepthAllows(k, depth)
    && !(k.p.o.respectIgnoreDefaults && name in IGNORED)
    && !(!k.p.o.includeHidden && IsHidden(name))
  }

  function Opens(k: Walk, e: Entry): Option<nat> {
    var id := if k.follow then e.open else e.lopen;
    if id.Some? && k.device.Some? && k.world.device(id.value) != k.device.value then None else id
  }

  /** The directory an entry at `depth` leads to, if the walk goes there. */
  function Target(k: Walk, e: Entry, depth: nat): Option<nat> {
    if IsDirectory(k, e) && ShouldDescend(k, e.name, depth) then Opens(k, e) else None
  }

  function Below(k: Walk, e: Entry, depth: nat): seq<Entry> {
    var t := Target(k, e, depth);
    if t.Some? then Entries(k.world, t.value) else []
  }

  /** The candidates under a directory whose remaining entries are `es`. Directories may form
      cycles: what ends the recursion is that each level lengthens a path below `capacity`. */
  function List(k: Walk, es: seq<Entry>, path: string, depth: nat): seq<Cand>
    decreases k.capacity - |path|, |es|
  {
    if es == [] then []
    else
      var child := Join(path, es[0].name);
      var rest := List(k, es[1..], path, depth);
      if !Visible(k, es[0]) || |child| >= k.capacity then rest
      else [EntryCandidate(k, child, depth + 1, es[0])] + List(k, Below(k, es[0], depth + 1), child, depth + 1) + rest
  }

  /** A root is stat'd before it is filtered; a later stat of it would go by its basename. */
  function RootCandidate(k: Walk, root: Root, st: Stat): Cand {
    var name := BasenameOf(root.path);
    Cand(root.path, name, 0, st.kind, st.kind != Any, NonNegative(st.size), st.mtime, st.mode % MODE_BITS, true, false,
         k.world.cwdStat(name, false))
  }

  function RootStat(k: Walk, root: Root): Option<Stat> { if k.follow then root.stat else root.lstat }

  function RootTarget(k: Walk, root: Root, st: Stat): Option<nat> {
    if st.kind == Directory && k.p.o.maxDepth != Some(0) then (if k.follow then root.open else root.lopen) else None
  }

  function ListRoot(k: Walk, root: Root): seq<Cand> {
    var st := RootStat(k, root);
    if st.None? || |root.path| >= k.capacity then []
    else
      var t := RootTarget(k, root, st.value);
      [RootCandidate(k, root, st.value)] + if t.Some? then List(k, Entries(k.world, t.value), root.path, 0) else []
  }

  /** With `oneFileSystem`, the first root that can be stat'd fixes the device for the whole run. */
  function DeviceAfter(k: Walk, oneFileSystem: bool, root: Root): Option<int> {
    if oneFileSystem && k.device.None? && RootStat(k, root).Some? then Some(RootStat(k, root).value.device) else k.device
  }

  function ListRoots(k: Walk, oneFileSystem: bool, roots: seq<Root>): seq<Cand>
    decreases |roots|
  {
    if roots == [] then []
    else
      var k1 := k.(device := DeviceAfter(k, oneFileSystem, roots[0]));
      ListRoot(k1, roots[0]) + ListRoots(k1, oneFileSystem, roots[1..])
  }

  // ----- selecting from a listing -----

  function Keep<T>(f: T -> bool, s: seq<T>): seq<T> {
    if s == [] then [] else (if f(s[0]) then [s[0]] else []) + Keep(f, s[1..])
  }

  function PathsOf(cs: seq<Cand>): seq<string> {
    if cs == [] then [] else [cs[0].path] + PathsOf(cs[1..])
  }

  function Accepted(glob: Matcher, p: Predicate): Cand -> bool { c => Satisfies(glob, p, c) }

  function AtMost(m: nat): Cand -> bool { (c: Cand) => c.depth <= m }

  function ShorterThan(n: nat): Cand -> bool { (c: Cand) => |c.path| < n }

  /** The paths the predicate accepts, in order: the expected output. */
  function Matches(k: Walk, cs: seq<Cand>): seq<string> {
    PathsOf(Keep(Accepted(k.world.glob, k.p), cs))
  }

  lemma {:induction false} KeepConcat<T>(f: T -> bool, a: seq<T>, b: seq<T>)
    ensures Keep(f, a + b) == Keep(f, a) + Keep(f, b)
  {
    if a == [] {
      assert a + b == b;
    } else {
      KeepConcat(f, a[1..], b);
      assert (a + b)[1..] == a[1..] + b;
      Associative(if f(a[0]) then [a[0]] else [], Keep(f, a[1..]), Keep(f, b));
    }
  }

  lemma {:induction false} PathsOfConcat(a: seq<Cand>, b: seq<Cand>)
    ensures PathsOf(a + b) == PathsOf(a) + PathsOf(b)
  {
    if a == [] {
      assert a + b == b;
    } else {
      PathsOfConcat(a[1..], b);
      assert (a + b)[1..] == a[1..] + b;
      Associative([a[0].path], PathsOf(a[1..]), PathsOf(b));
    }
  }

  lemma MatchesConcat(k: Walk, a: seq<Cand>, b: seq<Cand>)
    ensures Matches(k, a + b) == Matches(k, a) + Matches(k, b)
  {
    var f := Accepted(k.world.glob, k.p);
    KeepConcat(f, a, b);
    PathsOfConcat(Keep(f, a), Keep(f, b));
  }

  lemma KeepOne<T>(f: T -> bool, x: T)
    ensures Keep(f, [x]) == if f(x) then [x] else []
  {
    assert Keep(f, [x][1..]) == [];
  }

  lemma MatchesOne(k: Walk, c: Cand)
    ensures Matches(k, [c]) == if Satisfies(k.world.glob, k.p, c) then [c.path] else []
  {
    var f := Accepted(k.world.glob, k.p);
    KeepOne(f, c);
    assert PathsOf([c]) == [c.path] + PathsOf([c][1..]);
  }

  lemma {:induction false} KeepNone<T>(f: T -> bool, s: seq<T>)
    requires forall x :: x in s ==> !f(x)
    ensures Keep(f, s) == []
  {
    if s != [] {
      assert s[0] in s;
      KeepNone(f, s[1..]);
    }
  }

  lemma {:induction false} KeepBoth<T>(f: T -> bool, g: T -> bool, h: T -> bool, s: seq<T>)
    requires forall x :: h(x) <==> f(x) && g(x)
    ensures Keep(h, s) == Keep(f, Keep(g, s))
  {
    if s != [] {
      KeepBoth(f, g, h, s[1..]);
      KeepConcat(f, if g(s[0]) then [s[0]] else [], Keep(g, s[1..]));
      assert Keep(f, [s[0]]) == (if f(s[0]) then [s[0]] else []) + Keep(f, [s[0]][1..]);
    }
  }

  /** The part of the listing one entry contributes. */
  function ListEntry(k: Walk, e: Entry, path: string, depth: nat): seq<Cand> {
    var child := Join(path, e.name);
    if !Visible(k, e) || |child| >= k.capacity then []
    else [EntryCandidate(k, child, depth + 1, e)] + List(k, Below(k, e, depth + 1), child, depth + 1)
  }

  lemma ListByEntry(k: Walk, es: seq<Entry>, path: string, depth: nat)
    requires es != []
    ensures Matches(k, List(k, es, path, depth))
         == Matches(k, ListEntry(k, es[0], path, depth)) + Matches(k, List(k, es[1..], path, depth))
  {
    MatchesConcat(k, ListEntry(k, es[0], path, depth), List(k, es[1..], path, depth));
    assert List(k, es, path, depth) == ListEntry(k, es[0], path, depth) + List(k, es[1..], path, depth);
  }

  // ----- shape of a listing -----

  /** Everything below a directory is deeper than it and has a longer path. */
  lemma {:induction false} Deeper(k: Walk, es: seq<Entry>, path: string, depth: nat, c: Cand)
    requires c in List(k, es, path, depth)
    ensures c.depth > depth && |c.path| > |path|
    decreases k.capacity - |path|, |es|
  {
    var child := Join(path, es[0].name);
    if c in List(k, es[1..], path, depth) {
      Deeper(k, es[1..], path, depth, c);
    } else if c != EntryCandidate(k, child, depth + 1, es[0]) {
      Deeper(k, Below(k, es[0], depth + 1), child, depth + 1, c);
    }
  }

  /** Every level below the first adds a separator and a name, so depth is at most about half the path. */
  lemma {:induction false} DepthCostsTwoBytes(k: Walk, es: seq<Entry>, path: string, depth: nat, c: Cand)
    requires c in List(k, es, path, depth)
    ensures |c.path| < k.capacity
    ensures |c.path| - |path| >= 2 * (c.depth - depth) - if path == "" || path[|path| - 1] == '/' then 1 else 0
    decreases k.capacity - |path|, |es|
  {
    var child := Join(path, es[0].name);
    if c in List(k, es[1..], path, depth) {
      DepthCostsTwoBytes(k, es[1..], path, depth, c);
    } else if c != EntryCandidate(k, child, depth + 1, es[0]) {
      DepthCostsTwoBytes(k, Below(k, es[0], depth + 1), child, depth + 1, c);
    }
  }

  /** No candidate, hence no directory the walk enters, is nested deeper than half the buffer,
      however the directories are linked. */
  lemma NestingIsBounded(k: Walk, root: Root, c: Cand)
    requires c in ListRoot(k, root)
    ensures 2 * c.depth <= k.capacity - |root.path|
    ensures k.capacity == PATH_CAPACITY && root.path != "" ==> c.depth <= 2047
  {
    var t := RootTarget(k, root, RootStat(k, root).value);
    if c != RootCandidate(k, root, RootStat(k, root).value) {
      DepthCostsTwoBytes(k, Entries(k.world, t.value), root.path, 0, c);
    }
  }

  // ----- an independent reading: routes -----

  /** What a walk may enter at `depth`, and the directory it finds there, said without the walk's own
      tests: a directory by its `d_type`, or by stat when that does not tell or links are followed; within
      the depth limit; not ignored; and opened on the right device. */
  predicate Leads(k: Walk, e: Entry, depth: nat, id: nat) {
    var answer := if k.follow then e.stat else e.lstat;
    && (e.dtype == DtDir || ((e.dtype == DtOther || (e.dtype == DtLnk && k.follow)) && answer.Some? && answer.value.kind == Directory))
    && (k.p.o.maxDepth.Some? ==> depth <= k.p.o.maxDepth.value && (k.rule.Parallel? ==> depth != k.p.o.maxDepth.value))
    && !(k.p.o.respectIgnoreDefaults && e.name in IGNORED)
    && Some(id) == (if k.follow then e.open else e.lopen)
    && (k.device.Some? ==> k.world.device(id) == k.device.value)
  }

  /** `route` names the entries passed through from a directory holding `es` to the candidate `c`:
      each is in the one before and fits, none is hidden unless asked for, and each but the last leads on. */
  ghost predicate Route(k: Walk, es: seq<Entry>, path: string, depth: nat, route: seq<Entry>, c: Cand)
    decreases |route|
  {
    && route != [] && route[0] in es
    && (k.p.o.includeHidden || route[0].name[0] != '.')
    && var child := Join(path, route[0].name);
       && |child| < k.capacity
       && if |route| == 1 then c == EntryCandidate(k, child, depth + 1, route[0])
          else exists id ::
                 Leads(k, route[0], depth + 1, id) && Route(k, Entries(k.world, id), child, depth + 1, route[1..], c)
  }

  /** A visible entry leads on exactly when it has a target. */
  lemma LeadsToTarget(k: Walk, e: Entry, depth: nat, id: nat)
    requires Visible(k, e)
    ensures Leads(k, e, depth, id) <==> Target(k, e, depth) == Some(id)
  {
    assert e.name != ".";
  }

  lemma VisibleIsNotHidden(k: Walk, e: Entry)
    ensures Visible(k, e) <==> k.p.o.includeHidden || e.name[0] != '.'
  {
    assert e.name != "." && |e.name| == 1 ==> e.name == [e.name[0]];
  }

  /** A listed candidate has a route. */
  lemma {:induction false} ListedHasRoute(k: Walk, es: seq<Entry>, path: string, depth: nat, c: Cand) returns (route: seq<Entry>)
    requires c in List(k, es, path, depth)
    ensures Route(k, es, path, depth, route, c)
    decreases k.capacity - |path|, |es|
  {
    var e := es[0];
    var child := Join(path, e.name);
    VisibleIsNotHidden(k, e);
    if c in List(k, es[1..], path, depth) {
      route := ListedHasRoute(k, es[1..], path, depth, c);
    } else if c == EntryCandidate(k, child, depth + 1, e) {
      route := [e];
    } else {
      var tail := ListedHasRoute(k, Below(k, e, depth + 1), child, depth + 1, c);
      LeadsToTarget(k, e, depth + 1, Target(k, e, depth + 1).value);
      route := [e] + tail;
      assert route[1..] == tail;
    }
  }

  /** A route leads to a listed candidate. */
  lemma {:induction false} RouteIsListed(k: Walk, es: seq<Entry>, path: string, depth: nat, route: seq<Entry>, c: Cand)
    requires Route(k, es, path, depth, route, c)
    ensures c in List(k, es, path, depth)
    decreases |route|, |es|
  {
    var child := Join(path, es[0].name);
    VisibleIsNotHidden(k, es[0]);
    if route[0] == es[0] {
      if |route| > 1 {
        var id :| Leads(k, route[0], depth + 1, id) && Route(k, Entries(k.world, id), child, depth + 1, route[1..], c);
        LeadsToTarget(k, es[0], depth + 1, id);
        RouteIsListed(k, Below(k, es[0], depth + 1), child, depth + 1, route[1..], c);
      }
    } else {
      assert route[0] in es[1..];
      RouteIsListed(k, es[1..], path, depth, route, c);
    }
  }

  ghost predicate Reachable(k: Walk, es: seq<Entry>, path: string, depth: nat, c: Cand) {
    exists route :: Route(k, es, path, depth, route, c)
  }

  /** The listing holds exactly the candidates that some route reaches. */
  lemma ListedIffReachable(k: Walk, es: seq<Entry>, path: string, depth: nat, c: Cand)
    ensures c in List(k, es, path, depth) <==> Reachable(k, es, path, depth, c)
  {
    if c in List(k, es, path, depth) {
      var route := ListedHasRoute(k, es, path, depth, c);
    } else if Reachable(k, es, path, depth, c) {
      var route :| Route(k, es, path, depth, route, c);
      RouteIsListed(k, es, path, depth, route, c);
    }
  }

  /** What a root lists: itself, when it can be stat'd as the walk stats and fits; and what is reachable
      in the directory it opens, unless the depth limit is 0. */
  lemma RootListedIff(k: Walk, root: Root, c: Cand)
    ensures c in ListRoot(k, root) <==>
              var st, id := if k.follow then root.stat else root.lstat, if k.follow then root.open else root.lopen;
              && st.Some? && |root.path| < k.capacity
              && (c == RootCandidate(k, root, st.value)
                  || (st.value.kind == Directory && k.p.o.maxDepth != Some(0) && id.Some?
                      && Reachable(k, Entries(k.world, id.value), root.path, 0, c)))
  {
    var st, id := RootStat(k, root), if k.follow then root.open else root.lopen;
    if st.Some? && id.Some? {
      ListedIffReachable(k, Entries(k.world, id.value), root.path, 0, c);
    }
  }

  // ----- each path once -----

  predicate DistinctNames(es: seq<Entry>) {
    forall i, j :: 0 <= i < j < |es| ==> es[i].name != es[j].name
  }

  /** `path` is `stem`, or continues it with a slash. */
  predicate Under(stem: string, path: string) {
    |stem| <= |path| && path[..|stem|] == stem && (|path| > |stem| ==> path[|stem|] == '/')
  }

  lemma ListedFirstOrLater(k: Walk, es: seq<Entry>, path: string, depth: nat, c: Cand)
    requires c in List(k, es, path, depth) && c !in List(k, es[1..], path, depth)
    ensures var child := Join(path, es[0].name);
            |child| < k.capacity && (c.path == child || c in List(k, Below(k, es[0], depth + 1), child, depth + 1))
  {
  }

  lemma {:induction false} ListedUnderSomeEntry(k: Walk, es: seq<Entry>, path: string, depth: nat, c: Cand) returns (i: nat)
    requires c in List(k, es, path, depth)
    ensures i < |es| && Under(Join(path, es[i].name), c.path)
    decreases k.capacity - |path|, |es|
  {
    var child := Join(path, es[0].name);
    if c in List(k, es[1..], path, depth) {
      i := ListedUnderSomeEntry(k, es[1..], path, depth, c);
      i := i + 1;
    } else {
      i := 0;
      ListedFirstOrLater(k, es, path, depth, c);
      if c.path != child {
        var below := Below(k, es[0], depth + 1);
        var j := ListedUnderSomeEntry(k, below, child, depth + 1, c);
        UnderChild(child, below[j].name, c.path);
      }
    }
  }

  /** Two entries of one directory cannot lead to the same path. */
  lemma SiblingsAreDisjoint(path: string, a: Name, b: Name, c: string)
    requires a != b && Under(Join(path, a), c)
    ensures !Under(Join(path, b), c)
  {
    var ja, jb := Join(path, a), Join(path, b);
    assert a == ja[|ja| - |a|..] && b == jb[|jb| - |b|..];
    assert |a| < |b| ==> jb[|ja|] == b[|a|];
    assert |b| < |a| ==> ja[|jb|] == a[|b|];
    assert |jb| <= |c| && c[..|jb|] == jb ==> forall i :: 0 <= i < |jb| ==> c[i] == jb[i];
    assert forall i :: 0 <= i < |ja| ==> c[i] == c[..|ja|][i] == ja[i];
  }

  ghost predicate NoPathTwice(cs: seq<Cand>) {
    forall i, j :: 0 <= i < j < |cs| ==> cs[i].path != cs[j].path
  }

  /** When no directory holds a name twice, no path is listed twice, so none is printed twice. */
  lemma {:induction false} EachPathOnce(k: Walk, es: seq<Entry>, path: string, depth: nat)
    requires DistinctNames(es)
    requires forall id :: id in k.world.directories ==> DistinctNames(k.world.directories[id])
    ensures NoPathTwice(List(k, es, path, depth))
    decreases k.capacity - |path|, |es|
  {
    if es != [] {
      var child := Join(path, es[0].name);
      var rest := List(k, es[1..], path, depth);
      EachPathOnce(k, es[1..], path, depth);
      if Visible(k, es[0]) && |child| < k.capacity {
        var head := EntryCandidate(k, child, depth + 1, es[0]);
        var sub := List(k, Below(k, es[0], depth + 1), child, depth + 1);
        EachPathOnce(k, Below(k, es[0], depth + 1), child, depth + 1);
        forall c | c in rest ensures !Under(child, c.path) {
          var i := ListedUnderSomeEntry(k, es[1..], path, depth, c);
          SiblingsAreDisjoint(path, es[1..][i].name, es[0].name, c.path);
        }
        forall c | c in sub ensures Under(child, c.path) && c.path != child {
          var i := ListedUnderSomeEntry(k, Below(k, es[0], depth + 1), child, depth + 1, c);
          UnderChild(child, Below(k, es[0], depth + 1)[i].name, c.path);
        }
        assert Under(child, head.path);
        assert forall i :: 0 <= i < |sub| ==> sub[i] in sub;
        assert forall i :: 0 <= i < |rest| ==> rest[i] in rest;
      }
    }
  }

  lemma UnderChild(path: string, name: Name, c: string)
    requires path != "" && path[|path| - 1] != '/' && Under(Join(path, name), c)
    ensures Under(path, c) && |c| > |path|
  {
    var child := Join(path, name);
    assert c[..|path|] == c[..|child|][..|path|] == path;
    assert c[|path|] == c[..|child|][|path|];
  }

  lemma RootListsEachPathOnce(k: Walk, root: Root)
    requires forall id :: id in k.world.directories ==> DistinctNames(k.world.directories[id])
    ensures NoPathTwice(ListRoot(k, root))
  {
    var st := RootStat(k, root);
    if st.Some? && |root.path| < k.capacity && RootTarget(k, root, st.value).Some? {
      var es := Entries(k.world, RootTarget(k, root, st.value).value);
      EachPathOnce(k, es, root.path, 0);
      forall c | c in List(k, es, root.path, 0) ensures c.path != root.path {
        Deeper(k, es, root.path, 0, c);
      }
      assert forall i :: 0 <= i < |List(k, es, root.path, 0)| ==> List(k, es, root.path, 0)[i] in List(k, es, root.path, 0);
    }
  }
}
