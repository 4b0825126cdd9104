/** Following links is walking the tree in which every link has been replaced by what it leads to. */
module Following {
  import opened Basics
  import opened FileSystem
  import opened Paths
  import opened Filter
  import opened Listing

  /** What an entry is once links are resolved; a link that leads nowhere, or to no file or directory,
      is of no known type. */
  function Resolved(e: Entry): Entry {
    var dtype := if e.dtype != DtLnk then e.dtype
                 else if e.stat.Some? && e.stat.value.kind == File then DtReg
                 else if e.stat.Some? && e.stat.value.kind == Directory then DtDir
                 else DtOther;
    RawEntry(e.name, dtype, e.stat, e.stat, e.open, e.open)
  }

  function ResolvedEntries(es: seq<Entry>): seq<Entry> {
    if es == [] then [] else [Resolved(es[0])] + ResolvedEntries(es[1..])
  }

  function ResolvedRoot(root: Root): Root { Root(root.path, root.stat, root.stat, root.open, root.open) }

  /** The walk that follows no link, on the tree without links. */
  function ResolvedWalk(k: Walk): Walk {
    k.(follow := false,
       world := k.world.(directories := map id | id in k.world.directories :: ResolvedEntries(k.world.directories[id])))
  }

  lemma ResolvedTarget(k: Walk, e: Entry, depth: nat)
    requires k.follow
    ensures Target(ResolvedWalk(k), Resolved(e), depth) == Target(k, e, depth)
    ensures Below(ResolvedWalk(k), Resolved(e), depth) == ResolvedEntries(Below(k, e, depth))
  {
  }

  /** When no type is asked for, a resolved entry satisfies what the followed one does. */
  lemma ResolvedSatisfies(k: Walk, e: Entry, path: string, depth: nat)
    requires k.follow && k.p.o.kind.None?
    ensures Satisfies(k.world.glob, k.p, EntryCandidate(k, path, depth, e))
       <==> Satisfies(k.world.glob, k.p, EntryCandidate(ResolvedWalk(k), path, depth, Resolved(e)))
  {
  }

  lemma PathsOfFirst(c: Cand, cs: seq<Cand>)
    ensures PathsOf([c] + cs) == [c.path] + PathsOf(cs)
  {
    assert ([c] + cs)[1..] == cs;
  }

  /** The paths listed are the same; and so are those printed, if no type is asked for. */
  lemma {:induction false} FollowingIsResolving(k: Walk, es: seq<Entry>, path: string, depth: nat)
    requires k.follow
    ensures PathsOf(List(k, es, path, depth)) == PathsOf(List(ResolvedWalk(k), ResolvedEntries(es), path, depth))
    ensures k.p.o.kind.None? ==>
              Matches(k, List(k, es, path, depth)) == Matches(ResolvedWalk(k), List(ResolvedWalk(k), ResolvedEntries(es), path, depth))
    decreases k.capacity - |path|, |es|
  {
    if es != [] {
      var k', child := ResolvedWalk(k), Join(path, es[0].name);
      assert ResolvedEntries(es)[1..] == ResolvedEntries(es[1..]);
      FollowingIsResolving(k, es[1..], path, depth);
      if Visible(k, es[0]) && |child| < k.capacity {
        var c, c' := EntryCandidate(k, child, depth + 1, es[0]), EntryCandidate(k', child, depth + 1, Resolved(es[0]));
        var sub, rest := List(k, Below(k, es[0], depth + 1), child, depth + 1), List(k, es[1..], path, depth);
        var sub' := List(k', ResolvedEntries(Below(k, es[0], depth + 1)), child, depth + 1);
        var rest' := List(k', ResolvedEntries(es[1..]), path, depth);
        ResolvedTarget(k, es[0], depth + 1);
        FollowingIsResolving(k, Below(k, es[0], depth + 1), child, depth + 1);
        assert List(k', ResolvedEntries(es), path, depth) == [c'] + sub' + rest';
        SameTogether(k, [c], sub, rest, k', [c'], sub', rest') by {
          PathsOfFirst(c, []);
          PathsOfFirst(c', []);
          assert [c] + [] == [c] && [c'] + [] == [c'];
          if k.p.o.kind.None? {
            ResolvedSatisfies(k, es[0], child, depth + 1);
            MatchesOne(k, c);
            MatchesOne(k', c');
          }
        }
      }
    }
  }

  lemma SameTogether(k: Walk, a: seq<Cand>, b: seq<Cand>, c: seq<Cand>, k': Walk, a': seq<Cand>, b': seq<Cand>, c': seq<Cand>)
    requires PathsOf(a) == PathsOf(a') && PathsOf(b) == PathsOf(b') && PathsOf(c) == PathsOf(c')
    requires k.p.o.kind.None? ==> Matches(k, a) == Matches(k', a') && Matches(k, b) == Matches(k', b') && Matches(k, c) == Matches(k', c')
    ensures PathsOf(a + b + c) == PathsOf(a' + b' + c')
    ensures k.p.o.kind.None? ==> Matches(k, a + b + c) == Matches(k', a' + b' + c')
  {
    PathsOfConcat(a, b);
    PathsOfConcat(a + b, c);
    PathsOfConcat(a', b');
    PathsOfConcat(a' + b', c');
    MatchesConcat(k, a, b);
    MatchesConcat(k, a + b, c);
    MatchesConcat(k', a', b');
    MatchesConcat(k', a' + b', c');
  }

  /** The same for a root, whose own facts are those of what it leads to whatever is asked for. */
  lemma FollowedRootIsResolved(k: Walk, root: Root)
    requires k.follow
    ensures PathsOf(ListRoot(k, root)) == PathsOf(ListRoot(ResolvedWalk(k), ResolvedRoot(root)))
    ensures k.p.o.kind.None? ==> Matches(k, ListRoot(k, root)) == Matches(ResolvedWalk(k), ListRoot(ResolvedWalk(k), ResolvedRoot(root)))
  {
    var k', root' := ResolvedWalk(k), ResolvedRoot(root);
    var st := root.stat;
    assert RootStat(k, root) == st == RootStat(k', root');
    if st.Some? && |root.path| < k.capacity {
      var c, t := RootCandidate(k, root, st.value), RootTarget(k, root, st.value);
      assert RootCandidate(k', root', st.value) == c && RootTarget(k', root', st.value) == t;
      var sub := if t.Some? then List(k, Entries(k.world, t.value), root.path, 0) else [];
      var sub' := if t.Some? then List(k', ResolvedEntries(Entries(k.world, t.value)), root.path, 0) else [];
      if t.Some? {
        FollowingIsResolving(k, Entries(k.world, t.value), root.path, 0);
      }
      MatchesOne(k, c);
      MatchesOne(k', c);
      SameTogether(k, [c], sub, [], k', [c], sub', []);
      assert [c] + sub + [] == [c] + sub && [c] + sub' + [] == [c] + sub';
    }
  }
}
