/** The predicate engine: a short-circuit evaluator that calls stat only when it must. */
module Filter {
  import opened Basics
  import opened FileSystem

  datatype CompareOp = Equal | Greater | Less

  datatype Decision = Reject | Accept | StatRequired

  datatype Glob = Glob(pattern: string, caseInsensitive: bool)

  datatype Threshold = Threshold(op: CompareOp, value: int)

  /** The command-line options that select entries; an absent `has_` flag is `None`. */
  datatype Options = Options(
    name: Option<Glob>, path: Option<string>, kind: Option<EntryType>, size: Option<Threshold>,
    mtime: Option<Threshold>, newer: Option<int>, perm: Option<nat>, maxDepth: Option<nat>, minDepth: nat,
    includeHidden: bool, respectIgnoreDefaults: bool)

  /** The options of a command line that gives none. */
  const EVERYTHING: Options := Options(None, None, None, None, None, None, None, None, 0, false, true)

  /** The compiled predicate: the options, whether any of them needs stat, and the reference time. */
  datatype Predicate = Predicate(o: Options, requireStat: bool, now: int)

  function PredicateFromOptions(o: Options, now: int): Predicate {
    Predicate(o, o.size.Some? || o.mtime.Some? || o.newer.Some? || o.perm.Some?, now)
  }

  predicate AnyStatTest(p: Predicate) {
    p.o.size.Some? || p.o.mtime.Some? || p.o.newer.Some? || p.o.perm.Some?
  }

  predicate WellBuilt(p: Predicate) { p.requireStat <==> AnyStatTest(p) }

  const MODE_BITS: nat := 4096 // 07777 + 1: the mask keeps the low twelve bits

  /** The value of a candidate: `oracle` is what fstatat answers for it. */
  datatype Cand = Cand(
    path: string, basename: string, depth: nat, kind: EntryType, resolved: bool,
    size: int, mtime: int, perm: nat, populated: bool, follow: bool, oracle: Option<Stat>)

  function NonNegative(n: int): int { if n >= 0 then n else 0 }

  /** The candidate after a stat that succeeded. */
  function Populated(c: Cand, st: Stat): Cand {
    c.(kind := if !c.resolved || c.follow then st.kind else c.kind, resolved := true,
       size := NonNegative(st.size), mtime := st.mtime, perm := st.mode % MODE_BITS, populated := true)
  }

  // ----- what it means to be accepted, with no order of evaluation -----

  function Compare(left: int, right: int, op: CompareOp): bool {
    match op
    case Greater => left > right
    case Less => left < right
    case Equal => left == right
  }

  /** The type the filter tests: the one already resolved, else the one stat reports. */
  function KnownKind(c: Cand): Option<EntryType> {
    if c.resolved then Some(c.kind) else if c.oracle.Some? then Some(c.oracle.value.kind) else None
  }

  datatype Facts = Facts(size: int, mtime: int, perm: nat)

  /** Size, time and mode: the candidate's own when populated and not refreshed for its type, else stat's. */
  function KnownFacts(p: Predicate, c: Cand): Option<Facts> {
    if c.populated && (c.resolved || p.o.kind.None?) then Some(Facts(c.size, c.mtime, c.perm))
    else if c.oracle.Some? then
      Some(Facts(NonNegative(c.oracle.value.size), c.oracle.value.mtime, c.oracle.value.mode % MODE_BITS))
    else None
  }

  predicate DepthHolds(p: Predicate, c: Cand) {
    p.o.minDepth <= c.depth && (p.o.maxDepth.Some? ==> c.depth <= p.o.maxDepth.value)
  }

  predicate NamesHold(glob: Matcher, p: Predicate, c: Cand) {
    && (p.o.name.Some? ==> glob(p.o.name.value.pattern, c.basename, p.o.name.value.caseInsensitive))
    && (p.o.path.Some? ==> glob(p.o.path.value, c.path, false))
  }

  predicate BasicsHold(glob: Matcher, p: Predicate, c: Cand) {
    DepthHolds(p, c) && (p.o.kind.Some? ==> KnownKind(c) == p.o.kind) && NamesHold(glob, p, c)
  }

  predicate FactsHold(p: Predicate, f: Facts) {
    && (p.o.size.Some? ==> Compare(f.size, p.o.size.value.value, p.o.size.value.op))
    && (p.o.mtime.Some? ==> Compare(p.now - f.mtime, p.o.mtime.value.value, p.o.mtime.value.op))
    && (p.o.newer.Some? ==> f.mtime > p.o.newer.value)
    && (p.o.perm.Some? ==> f.perm % MODE_BITS == p.o.perm.value % MODE_BITS)
  }

  /** The plain conjunction of every active condition. */
  predicate Satisfies(glob: Matcher, p: Predicate, c: Cand) {
    && BasicsHold(glob, p, c)
    && (p.requireStat || AnyStatTest(p) ==> KnownFacts(p, c).Some? && FactsHold(p, KnownFacts(p, c).value))
  }

  /** When evaluation has to stat: to learn a type it must test, or, once every cheaper
      test has passed, to learn size, time or mode. */
  predicate NeedsStat(glob: Matcher, p: Predicate, c: Cand) {
    && DepthHolds(p, c)
    && if p.o.kind.Some? && !c.resolved then true
       else (p.o.kind.Some? ==> c.kind == p.o.kind.value) && NamesHold(glob, p, c) && p.requireStat && !c.populated
  }

  function AfterEvaluate(glob: Matcher, p: Predicate, c: Cand): Cand {
    if NeedsStat(glob, p, c) && c.oracle.Some? then Populated(c, c.oracle.value) else c
  }

  /** A stat test is active but the predicate was built without saying so. */
  predicate StatForgotten(glob: Matcher, p: Predicate, c: Cand) {
    BasicsHold(glob, p, c) && AnyStatTest(p) && !p.requireStat && !AfterEvaluate(glob, p, c).populated
  }

  function Verdict(glob: Matcher, p: Predicate, c: Cand): Decision {
    if StatForgotten(glob, p, c) then StatRequired else if Satisfies(glob, p, c) then Accept else Reject
  }

  // ----- the evaluator -----

  class Candidate {
    const path: string
    const basename: string
    const depth: nat
    const follow: bool
    const oracle: Option<Stat>
    var kind: EntryType
    var resolved: bool
    var size: int
    var mtime: int
    var perm: nat
    var populated: bool
    ghost var statCalls: nat
    ghost var statHits: nat

    function View(): Cand
      reads this
    {
      Cand(path, basename, depth, kind, resolved, size, mtime, perm, populated, follow, oracle)
    }

    constructor (c: Cand)
      ensures View() == c && statCalls == 0 && statHits == 0
    {
      path, basename, depth, follow, oracle := c.path, c.basename, c.depth, c.follow, c.oracle;
      kind, resolved, size, mtime, perm, populated := c.kind, c.resolved, c.size, c.mtime, c.perm, c.populated;
      statCalls, statHits := 0, 0;
    }

    method PopulateStat() returns (ok: bool)
      modifies this
      ensures ok <==> oracle.Some?
      ensures View() == if oracle.Some? then Populated(old(View()), oracle.value) else old(View())
      ensures statCalls == old(statCalls) + 1
      ensures statHits == old(statHits) + if oracle.Some? then 1 else 0
    {
      statCalls := statCalls + 1;
      if oracle.None? {
        return false;
      }
      var st := oracle.value;
      if !resolved || follow {
        kind := st.kind;
        resolved := true;
      }
      size := if st.size >= 0 then st.size else 0;
      mtime := st.mtime;
      perm := st.mode % MODE_BITS;
      populated := true;
      statHits := statHits + 1;
      ok := true;
    }
  }

  function CheckDepth(p: Predicate, c: Cand): Decision {
    if c.depth < p.o.minDepth then Reject
    else if p.o.maxDepth.Some? && c.depth > p.o.maxDepth.value then Reject
    else Accept
  }

  function CheckType(p: Predicate, c: Cand): Decision {
    if p.o.kind.None? then Accept
    else if !c.resolved then StatRequired
    else if c.kind == p.o.kind.value then Accept else Reject
  }

  function CheckName(glob: Matcher, p: Predicate, c: Cand): Decision {
    if p.o.name.None? then Accept
    else if glob(p.o.name.value.pattern, c.basename, p.o.name.value.caseInsensitive) then Accept else Reject
  }

  function CheckPath(glob: Matcher, p: Predicate, c: Cand): Decision {
    if p.o.path.None? then Accept else if glob(p.o.path.value, c.path, false) then Accept else Reject
  }

  function CheckSize(p: Predicate, c: Cand): Decision {
    if p.o.size.None? then Accept
    else if !c.populated then StatRequired
    else if Compare(c.size, p.o.size.value.value, p.o.size.value.op) then Accept else Reject
  }

  function CheckMtime(p: Predicate, c: Cand): Decision {
    if p.o.mtime.None? then Accept
    else if !c.populated then StatRequired
    else if Compare(p.now - c.mtime, p.o.mtime.value.value, p.o.mtime.value.op) then Accept else Reject
  }

  function CheckNewer(p: Predicate, c: Cand): Decision {
    if p.o.newer.None? then Accept
    else if !c.populated then StatRequired
    else if c.mtime > p.o.newer.value then Accept else Reject
  }

  function CheckPerm(p: Predicate, c: Cand): Decision {
    if p.o.perm.None? then Accept
    else if !c.populated then StatRequired
    else if c.perm % MODE_BITS == p.o.perm.value % MODE_BITS then Accept else Reject
  }

  /** The lazy evaluator decides what the plain conjunction decides, stats exactly when
      `NeedsStat` says, at most once, and leaves the candidate otherwise as it was. */
  method Evaluate(glob: Matcher, p: Predicate, c: Candidate) returns (decision: Decision)
    modifies c
    ensures decision == Verdict(glob, p, old(c.View()))
    ensures c.View() == AfterEvaluate(glob, p, old(c.View()))
    ensures c.statCalls == old(c.statCalls) + if NeedsStat(glob, p, old(c.View())) then 1 else 0
    ensures c.statHits == old(c.statHits) + if NeedsStat(glob, p, old(c.View())) && c.oracle.Some? then 1 else 0
  {
    decision := CheckDepth(p, c.View());
    if decision != Accept {
      return;
    }

    decision := CheckType(p, c.View());
    if decision == Reject {
      return;
    }
    if decision == StatRequired {
      var ok := c.PopulateStat();
      if !ok {
        return Reject;
      }
      decision := CheckType(p, c.View());
      if decision != Accept {
        return;
      }
    }

    decision := CheckName(glob, p, c.View());
    if decision != Accept {
      return;
    }

    decision := CheckPath(glob, p, c.View());
    if decision != Accept {
      return;
    }

    if p.requireStat && !c.populated {
      var ok := c.PopulateStat();
      if !ok {
        return Reject;
      }
    }

    decision := CheckSize(p, c.View());
    if decision != Accept {
      return;
    }
    decision := CheckMtime(p, c.View());
    if decision != Accept {
      return;
    }
    decision := CheckNewer(p, c.View());
    if decision != Accept {
      return;
    }
    decision := CheckPerm(p, c.View());
  }

  // ----- laws -----

  /** A predicate made from options never asks its caller to stat: the verdict is the conjunction. */
  lemma BuiltPredicateDecides(glob: Matcher, o: Options, now: int, c: Cand)
    ensures var p := PredicateFromOptions(o, now);
            WellBuilt(p) && Verdict(glob, p, c) == if Satisfies(glob, p, c) then Accept else Reject
  {
  }
}
