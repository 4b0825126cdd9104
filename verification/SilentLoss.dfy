/** Two runs that end with exit status 0 although output was lost. In one the flush at close fails.
    In the other a write fails below the root's own directory, whose walk carries on. */
module SilentLoss {
  import opened Basics
  import opened FileSystem
  import opened Paths
  import opened Filter
  import opened Listing
  import opened Output
  import opened SequentialWalk
  import opened RunLaws
  import opened ExitStatus

  function WalkOf(w: World): Walk {
    Walk(w, PredicateFromOptions(EVERYTHING, 0), false, None, PATH_CAPACITY, Sequential)
  }

  function AllMatch(): Matcher { (p: string, s: string, f: bool) => true }

  function WorldOf(directories: map<nat, seq<Entry>>, root: Root): World {
    World(directories, n => 0, AllMatch(), (s, f) => None, root)
  }

  /** Nothing fails but the first flush, which delivers no byte. */
  const ENV: Env := Env(n => false, n => true, n => true, n => true, n => true,
                        Channel('\n', n => if n == 0 then Torn(0, false) else Flushed))

  const START: Run := Run(false, [], [], 0, 0, 0, EMPTY_SINK)

  predicate Calm(r: Run) { !r.stop && r.errors == [] }

  /** Status 0, and the descriptor does not hold the expected output. */
  ghost predicate LosesSilently(k: Walk, roots: seq<Root>) {
    var (r', ok) := WalkAll(k, false, ENV, roots, START);
    && !r'.stop && ExitCode(false, ok, |r'.errors|) == 0
    && Closed(ENV, r').delivered != Frame('\n', Expected(k, false, roots))
  }

  lemma FailedFlushLoses(k: Walk, roots: seq<Root>)
    requires WellBuilt(k.p) && k.capacity <= PATH_CAPACITY
    requires var (r', ok) := WalkAll(k, false, ENV, roots, START); ok && Calm(r') && Closed(ENV, r').flushes > 0
    ensures LosesSilently(k, roots)
  {
    DeliveredIffFlushed(k, false, ENV, roots, START);
    assert !ENV.channel.answers(0).Flushed?;
  }

  /** One emission: the record is buffered, or the first flush is made and fails. */
  lemma EmitsOrFails(k: Walk, c: Cand, r: Run)
    requires k == WalkOf(k.world) && k.world.glob == AllMatch() && Calm(r) && |c.path| < PATH_CAPACITY && r.sink.flushes == 0
    ensures var (r', ok) := EmitIfMatch(k, ENV, c, r);
            && Calm(r')
            && (ok <==> |r.sink.pending| + |c.path| + 1 <= BUFFER_CAPACITY)
            && (ok ==> |r'.sink.pending| == |r.sink.pending| + |c.path| + 1 && r'.sink.flushes == 0)
            && (!ok ==> r'.sink.flushes == 1)
  {
    assert Satisfies(k.world.glob, k.p, c);
  }

  lemma WalksOneRoot(k: Walk, root: Root)
    requires k.device == None
    ensures WalkAll(k, false, ENV, [root], START) == WalkRoot(k, ENV, root, Poll(ENV, START))
  {
    var r0 := Poll(ENV, START);
    assert k.(device := None) == k && [root][1..] == [];
    var (r1, ok) := WalkRoot(k, ENV, root, r0);
    assert WalkRoots(k, false, ENV, [], r1) == (r1, true);
  }

  // ----- the flush at close -----

  const FILE_ROOT: Root := Root("r", Some(FILE_STAT), Some(FILE_STAT), None, None)

  /** One file is listed; its record waits in the buffer and the flush at close fails. */
  lemma CloseLosesEverything()
    ensures LosesSilently(WalkOf(WorldOf(map[], FILE_ROOT)), [FILE_ROOT])
  {
    var k := WalkOf(WorldOf(map[], FILE_ROOT));
    var r0 := Poll(ENV, START);
    var r1 := Called(Called(Stated(r0, true), StatRoot("r", true)), CheckLength("r", true));
    var c := RootCandidate(k, FILE_ROOT, FILE_STAT);
    EmitsOrFails(k, c, r1);
    WalksOneRoot(k, FILE_ROOT);
    assert WalkRoot(k, ENV, FILE_ROOT, r0) == EmitIfMatch(k, ENV, c, r1);
    FailedFlushLoses(k, [FILE_ROOT]);
  }

  // ----- a deep write -----

  const SUBDIR: Entry := RawEntry("d", DtDir, Some(DIRECTORY_STAT), Some(DIRECTORY_STAT), Some(1), Some(1))

  function Repeated(c: char, n: nat): (s: string)
    ensures |s| == n && forall i :: 0 <= i < n ==> s[i] == c
  {
    seq(n, i => c)
  }

  predicate SmallFile(e: Entry) { e.dtype == DtReg && e.name[0] == 'f' && |e.name| <= 20 }

  function FileNamed(n: nat): (e: Entry)
    ensures n < 20 ==> SmallFile(e)
  {
    var name := Repeated('f', n + 1);
    assert name[0] == 'f';
    RawEntry(name, DtReg, Some(FILE_STAT), Some(FILE_STAT), None, None)
  }

  /** Files named f, ff, fff and so on. */
  function Files(n: nat): (es: seq<Entry>)
    requires n <= 20
    ensures |es| == n && forall i :: 0 <= i < n ==> SmallFile(es[i])
  {
    seq(n, i requires 0 <= i < n => FileNamed(i))
  }

  /** The path r/r/r/.../r, whose every name is one byte. */
  function Chain(n: nat): (s: RootPath)
    ensures |s| == 2 * n + 1 && s[2 * n] == 'r'
  {
    seq(2 * n + 1, i => if i % 2 == 0 then 'r' else '/')
  }

  const LONG: RootPath := Chain(2000)
  const LONG_ROOT: Root := Root(LONG, Some(DIRECTORY_STAT), Some(DIRECTORY_STAT), Some(0), Some(0))

  /** A directory d at the end of that path, with twenty files in it: more than 80000 bytes of output. */
  const DEEP: World := WorldOf(map[0 := [SUBDIR], 1 := Files(20)], LONG_ROOT)

  /** Files are buffered until the buffer is full; then the flush fails, and the directory ends. */
  lemma {:induction false} FilesFillTheBuffer(es: seq<Entry>, path: string, r: Run)
    requires forall i :: 0 <= i < |es| ==> SmallFile(es[i])
    requires Calm(r) && r.sink.flushes == 0 && 4000 <= |path| <= 4010
    requires |r.sink.pending| <= BUFFER_CAPACITY < |r.sink.pending| + 4000 * |es|
    ensures var (r', ok) := WalkEntries(WalkOf(DEEP), ENV, es, path, 1, r); !ok && Calm(r') && r'.sink.flushes == 1
    decreases |es|
  {
    var k := WalkOf(DEEP);
    var (r0, more) := Next(ENV, path, r);
    assert more && Calm(r0) && r0.sink == r.sink;
    var child := Join(path, es[0].name);
    var c := EntryCandidate(k, child, 2, es[0]);
    EmitsOrFails(k, c, r0);
    var (r1, ok) := EmitIfMatch(k, ENV, c, r0);
    assert !IsHidden(es[0].name) && !IsDirectory(k, es[0]);
    if ok {
      var r2 := PostStat(AfterEvaluate(k.world.glob, k.p, c), r1);
      assert Descend(k, ENV, es[0], child, 2, r2) == (r2, true);
      assert VisitAndDescend(k, ENV, es[0], child, 2, r0) == (r2, true);
      FilesFillTheBuffer(es[1..], path, r2);
    } else {
      assert WalkEntry(k, ENV, es[0], path, 1, r0) == (r1, false);
    }
  }

  lemma SubdirectoryFails(path: string, r: Run)
    requires Calm(r) && r.sink.flushes == 0 && 4000 <= |path| <= 4010 && |r.sink.pending| <= BUFFER_CAPACITY
    ensures var (r', ok) := WalkDirectory(WalkOf(DEEP), ENV, 1, path, 1, r); !ok && Calm(r') && r'.sink.flushes == 1
  {
    FilesFillTheBuffer(Files(20), path, Called(r, CreateReader(path, true)));
  }

  lemma RootDirectoryGoesOn(r: Run)
    requires Calm(r) && r.sink.flushes == 0 && |r.sink.pending| <= 5000
    ensures var (r', ok) := WalkDirectory(WalkOf(DEEP), ENV, 0, LONG, 0, r); ok && Calm(r') && r'.sink.flushes == 1
  {
    var k, child := WalkOf(DEEP), Join(LONG, SUBDIR.name);
    var r0 := Next(ENV, LONG, Called(r, CreateReader(LONG, true))).0;
    var c := EntryCandidate(k, child, 1, SUBDIR);
    EmitsOrFails(k, c, r0);
    var r1 := PostStat(AfterEvaluate(k.world.glob, k.p, c), EmitIfMatch(k, ENV, c, r0).0);
    SubdirGoesOn(child, r1);
    var r2 := Descend(k, ENV, SUBDIR, child, 1, r1).0;
    assert WalkEntry(k, ENV, SUBDIR, LONG, 0, r0) == (r2, true);
    var end := WalkEntries(k, ENV, [], LONG, 0, r2);
    assert end.1 && Calm(end.0) && end.0.sink == r2.sink;
    assert [SUBDIR][1..] == [];
    assert WalkEntries(k, ENV, [SUBDIR], LONG, 0, Called(r, CreateReader(LONG, true))) == end;
  }

  lemma SubdirGoesOn(child: string, r: Run)
    requires Calm(r) && r.sink.flushes == 0 && 4000 <= |child| <= 4010 && |r.sink.pending| <= BUFFER_CAPACITY
    ensures var (r', goOn) := Descend(WalkOf(DEEP), ENV, SUBDIR, child, 1, r); goOn && Calm(r') && r'.sink.flushes == 1
  {
    var k := WalkOf(DEEP);
    assert SUBDIR.name !in IGNORED;
    var (r1, id) := OpenSubdir(k, ENV, SUBDIR, child, r);
    assert id == Some(1) && Calm(r1) && r1.sink == r.sink;
    SubdirectoryFails(child, r1);
  }

  /** The failed write ends directory d, no error is recorded, and the status is 0. */
  lemma DeepWriteLosesSilently()
    ensures LosesSilently(WalkOf(DEEP), [LONG_ROOT])
  {
    var k := WalkOf(DEEP);
    var r0 := Poll(ENV, START);
    var r1 := Called(Called(Stated(r0, true), StatRoot(LONG, true)), CheckLength(LONG, true));
    var c := RootCandidate(k, LONG_ROOT, DIRECTORY_STAT);
    EmitsOrFails(k, c, r1);
    var (r2, ok) := EmitIfMatch(k, ENV, c, r1);
    RootDirectoryGoesOn(Called(r2, OpenDirectory(LONG, true)));
    WalksOneRoot(k, LONG_ROOT);
    assert WalkRoot(k, ENV, LONG_ROOT, r0) == OpenRoot(k, ENV, LONG_ROOT, r2);
    FailedFlushLoses(k, [LONG_ROOT]);
  }
}
