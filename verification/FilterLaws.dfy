/** Lazy evaluation compared with a filter that always stats first, and what decides about a root. */
module FilterLaws {
  import opened Basics
  import opened FileSystem
  import opened Paths
  import opened Filter
  import opened Listing

  /** Stat first, then test everything on what stat said. */
  predicate EagerlyAccepts(glob: Matcher, p: Predicate, path: string, name: string, depth: nat, st: Stat) {
    && p.o.minDepth <= depth && (p.o.maxDepth.Some? ==> depth <= p.o.maxDepth.value)
    && (p.o.kind.Some? ==> st.kind == p.o.kind.value)
    && (p.o.name.Some? ==> glob(p.o.name.value.pattern, name, p.o.name.value.caseInsensitive))
    && (p.o.path.Some? ==> glob(p.o.path.value, path, false))
    && (p.o.size.Some? ==> Compare(if st.size < 0 then 0 else st.size, p.o.size.value.value, p.o.size.value.op))
    && (p.o.mtime.Some? ==> Compare(p.now - st.mtime, p.o.mtime.value.value, p.o.mtime.value.op))
    && (p.o.newer.Some? ==> p.o.newer.value < st.mtime)
    && (p.o.perm.Some? ==> st.mode % MODE_BITS == p.o.perm.value % MODE_BITS)
  }

  /** An entry that can be stat'd is accepted lazily exactly when it is accepted eagerly. */
  lemma LazyIsEager(k: Walk, o: Options, now: int, path: string, depth: nat, e: Entry, st: Stat)
    requires StatOf(k, e) == Some(st) && !(k.follow && e.dtype == DtLnk)
    ensures var p := PredicateFromOptions(o, now);
            Verdict(k.world.glob, p, EntryCandidate(k, path, depth, e))
            == if EagerlyAccepts(k.world.glob, p, path, e.name, depth, st) then Accept else Reject
  {
    var p, c := PredicateFromOptions(o, now), EntryCandidate(k, path, depth, e);
    assert KnownKind(c) == Some(st.kind);
    BuiltPredicateDecides(k.world.glob, o, now, c);
  }

  const LINKS_ONLY: Options := Options(None, None, Some(Symlink), None, None, None, None, None, 0, true, false)

  /** The two agree on every predicate except for a link that is followed: there the type test looks at
      the link, and every other test at its target. */
  lemma LazyIsEagerIff(k: Walk, path: string, depth: nat, e: Entry, st: Stat)
    requires StatOf(k, e) == Some(st)
    ensures (forall o: Options, now: int ::
               Verdict(k.world.glob, PredicateFromOptions(o, now), EntryCandidate(k, path, depth, e)) == Accept
               <==> EagerlyAccepts(k.world.glob, PredicateFromOptions(o, now), path, e.name, depth, st))
       <==> !(k.follow && e.dtype == DtLnk)
  {
    var c := EntryCandidate(k, path, depth, e);
    if k.follow && e.dtype == DtLnk {
      var p := PredicateFromOptions(LINKS_ONLY, 0);
      assert Verdict(k.world.glob, p, c) == Accept && !EagerlyAccepts(k.world.glob, p, path, e.name, depth, st);
    } else {
      forall o: Options, now: int
        ensures Verdict(k.world.glob, PredicateFromOptions(o, now), c) == Accept
           <==> EagerlyAccepts(k.world.glob, PredicateFromOptions(o, now), path, e.name, depth, st)
      {
        LazyIsEager(k, o, now, path, depth, e, st);
      }
    }
  }

  /** An entry that cannot be stat'd is accepted exactly when nothing about it needs a stat. */
  lemma UnstatableIsAcceptedIff(k: Walk, o: Options, now: int, path: string, depth: nat, e: Entry)
    requires StatOf(k, e) == None
    ensures var p, c := PredicateFromOptions(o, now), EntryCandidate(k, path, depth, e);
            Verdict(k.world.glob, p, c) == Accept
            <==> DepthHolds(p, c) && NamesHold(k.world.glob, p, c) && !AnyStatTest(p)
                 && (o.kind.Some? ==> e.dtype != DtOther && TypeOfDType(e.dtype) == o.kind.value)
  {
    var p, c := PredicateFromOptions(o, now), EntryCandidate(k, path, depth, e);
    BuiltPredicateDecides(k.world.glob, o, now, c);
    assert KnownKind(c) == if e.dtype == DtOther then None else Some(TypeOfDType(e.dtype));
  }

  // ----- when the filter stats -----

  /** The predicate without its tests of size, times and mode. */
  function WithoutStatTests(p: Predicate): Predicate {
    Predicate(p.o.(size := None, mtime := None, newer := None, perm := None), false, p.now)
  }

  /** A stat is the last resort. When no type has to be learned, the filter stats exactly if it has a stat
      test, the facts are not there yet, and everything else accepts the candidate; when one has to be,
      exactly if the depth is within bounds. */
  lemma StatIsLastResort(glob: Matcher, p: Predicate, c: Cand)
    ensures c.resolved || p.o.kind.None? ==>
              (NeedsStat(glob, p, c) <==> p.requireStat && !c.populated && Verdict(glob, WithoutStatTests(p), c) == Accept)
    ensures !c.resolved && p.o.kind.Some? ==>
              (NeedsStat(glob, p, c) <==> p.o.minDepth <= c.depth && (p.o.maxDepth.Some? ==> c.depth <= p.o.maxDepth.value))
  {
    assert c.resolved ==> KnownKind(c) == Some(c.kind);
  }

  // ----- roots -----

  /** What a root is judged by: its own stat, or, when its kind is none the program names and a type is
      asked for, what its basename is in the working directory. */
  function JudgedBy(k: Walk, o: Options, name: string, st: Stat): Option<Stat> {
    if st.kind != Any || o.kind.None? then Some(st) else k.world.cwdStat(name, false)
  }

  /** The facts of a stat, as the tests see them. */
  predicate FactsOf(f: Facts, st: Stat) {
    f.size == NonNegative(st.size) && f.mtime == st.mtime && (f.perm == st.mode || f.perm == st.mode % MODE_BITS)
  }

  lemma MaskedTwice(mode: nat)
    ensures mode % MODE_BITS % MODE_BITS == mode % MODE_BITS
  {
  }

  /** When the type and the facts that evaluation goes by are those of one stat, it accepts what is accepted eagerly. */
  lemma FactsDecide(glob: Matcher, p: Predicate, c: Cand, st: Stat)
    requires WellBuilt(p) && (p.o.kind.Some? ==> KnownKind(c) == Some(st.kind))
    requires KnownFacts(p, c).Some? && FactsOf(KnownFacts(p, c).value, st)
    ensures Satisfies(glob, p, c) <==> EagerlyAccepts(glob, p, c.path, c.basename, c.depth, st)
  {
    MaskedTwice(st.mode);
  }

  /** The candidate for a root that is printed as `path`, whose name is `name`. */
  function RootAs(k: Walk, root: Root, st: Stat, path: string, name: string): Cand {
    RootCandidate(k, root, st).(path := path, basename := name, oracle := k.world.cwdStat(name, false))
  }

  lemma RootSatisfiesEagerly(k: Walk, p: Predicate, root: Root, st: Stat, path: string, name: string)
    requires WellBuilt(p)
    ensures var judge := JudgedBy(k, p.o, name, st);
            Satisfies(k.world.glob, p, RootAs(k, root, st, path, name))
            <==> judge.Some? && EagerlyAccepts(k.world.glob, p, path, name, 0, judge.value)
  {
    var judge, c := JudgedBy(k, p.o, name, st), RootAs(k, root, st, path, name);
    if judge.Some? {
      FactsDecide(k.world.glob, p, c, judge.value);
    } else {
      assert KnownKind(c) == None;
    }
  }

  /** A root is accepted exactly when every test holds of its path, of the part of it after the last
      slash, of depth 0 and of the facts it is judged by. */
  lemma RootIsJudgedEagerly(k: Walk, o: Options, now: int, root: Root, st: Stat, name: string)
    requires IsBasename(root.path, name)
    ensures var p, judge := PredicateFromOptions(o, now), JudgedBy(k, o, name, st);
            Verdict(k.world.glob, p, RootCandidate(k, root, st))
            == if judge.Some? && EagerlyAccepts(k.world.glob, p, root.path, name, 0, judge.value) then Accept else Reject
  {
    BasenameOfIsBasename(root.path);
    BasenameIsUnique(root.path, name, BasenameOf(root.path));
    assert RootAs(k, root, st, root.path, name) == RootCandidate(k, root, st);
    RootSatisfiesEagerly(k, PredicateFromOptions(o, now), root, st, root.path, name);
    BuiltPredicateDecides(k.world.glob, o, now, RootCandidate(k, root, st));
  }

  /** The working directory answering `fstatat` as `cwd` says. */
  function In(k: Walk, cwd: (string, bool) -> Option<Stat>): Walk { k.(world := k.world.(cwdStat := cwd)) }

  function RootVerdict(k: Walk, o: Options, now: int, cwd: (string, bool) -> Option<Stat>, root: Root, st: Stat): Decision {
    Verdict(k.world.glob, PredicateFromOptions(o, now), RootCandidate(In(k, cwd), root, st))
  }

  function TypeOnly(kind: Option<EntryType>): Options { Options(None, None, kind, None, None, None, None, None, 0, true, false) }

  /** A root's verdict depends on nothing but its own stat exactly when its kind is one the program
      names, or no type is asked for. Otherwise it is stat'd again by its basename in the working
      directory, and what lies there decides. */
  lemma RootVerdictIsItsOwnIff(k: Walk, kind: Option<EntryType>, root: Root, st: Stat)
    ensures (forall o: Options, now: int, cwd: (string, bool) -> Option<Stat>, cwd': (string, bool) -> Option<Stat> ::
               o.kind == kind ==> RootVerdict(k, o, now, cwd, root, st) == RootVerdict(k, o, now, cwd', root, st))
       <==> st.kind != Any || kind.None?
  {
    if st.kind == Any && kind.Some? {
      var nothing: (string, bool) -> Option<Stat> := (name, follow) => None;
      var something: (string, bool) -> Option<Stat> := (name, follow) => Some(Stat(kind.value, 0, 0, 0, 0));
      assert RootVerdict(k, TypeOnly(kind), 0, nothing, root, st) == Reject;
      assert RootVerdict(k, TypeOnly(kind), 0, something, root, st) == Accept;
    } else {
      forall o: Options, now: int, cwd: (string, bool) -> Option<Stat>, cwd': (string, bool) -> Option<Stat> | o.kind == kind
        ensures RootVerdict(k, o, now, cwd, root, st) == RootVerdict(k, o, now, cwd', root, st)
      {
        OwnFactsDecide(k, o, now, cwd, cwd', root, st);
      }
    }
  }

  lemma OwnFactsDecide(
      k: Walk, o: Options, now: int, cwd: (string, bool) -> Option<Stat>, cwd': (string, bool) -> Option<Stat>, root: Root, st: Stat)
    requires st.kind != Any || o.kind.None?
    ensures RootVerdict(k, o, now, cwd, root, st) == RootVerdict(k, o, now, cwd', root, st)
  {
    var p := PredicateFromOptions(o, now);
    var c, c' := RootCandidate(In(k, cwd), root, st), RootCandidate(In(k, cwd'), root, st);
    BuiltPredicateDecides(k.world.glob, o, now, c);
    BuiltPredicateDecides(k.world.glob, o, now, c');
    assert KnownFacts(p, c) == KnownFacts(p, c');
  }
}
