/** The output stream: records are a path and a separator. */
module Output {
  import opened Basics

  /** The stream that holds exactly the given records, in order. */
  function Frame(separator: char, records: seq<string>): string {
    if records == [] then "" else records[0] + [separator] + Frame(separator, records[1..])
  }

  /** What a consumer such as `xargs -0` does: cut after every separator; an unterminated tail is dropped. */
  function Split(separator: char, stream: string): seq<string> {
    SplitFrom(separator, stream, "")
  }

  function SplitFrom(separator: char, stream: string, pending: string): seq<string>
    decreases |stream|
  {
    if stream == "" then []
    else if stream[0] == separator then [pending] + SplitFrom(separator, stream[1..], "")
    else SplitFrom(separator, stream[1..], pending + [stream[0]])
  }

  predicate SeparatorFree(separator: char, records: seq<string>) {
    forall i :: 0 <= i < |records| ==> separator !in records[i]
  }

  lemma {:induction false} FrameConcat(separator: char, a: seq<string>, b: seq<string>)
    ensures Frame(separator, a + b) == Frame(separator, a) + Frame(separator, b)
  {
    if a == [] {
      assert a + b == b;
    } else {
      FrameConcat(separator, a[1..], b);
      assert (a + b)[1..] == a[1..] + b;
      Associative(a[0] + [separator], Frame(separator, a[1..]), Frame(separator, b));
    }
  }

  lemma {:induction false} FrameOne(separator: char, record: string)
    ensures Frame(separator, [record]) == record + [separator]
  {
    assert Frame(separator, [record][1..]) == "";
  }

  /** Splitting reads a separator-free record whole. */
  lemma {:induction false} SplitRecord(separator: char, record: string, rest: string, pending: string)
    requires separator !in record
    ensures SplitFrom(separator, record + [separator] + rest, pending) == [pending + record] + Split(separator, rest)
    decreases |record|
  {
    var stream := record + [separator] + rest;
    if record == "" {
      assert stream[1..] == rest && pending + record == pending;
    } else {
      SplitRecord(separator, record[1..], rest, pending + [record[0]]);
      assert stream[1..] == record[1..] + [separator] + rest;
      assert pending + [record[0]] + record[1..] == pending + record;
    }
  }

  function Separators(separator: char, s: string): nat {
    if s == "" then 0 else (if s[0] == separator then 1 else 0) + Separators(separator, s[1..])
  }

  lemma {:induction false} SeparatorsConcat(separator: char, a: string, b: string)
    ensures Separators(separator, a + b) == Separators(separator, a) + Separators(separator, b)
  {
    if a == "" {
      assert a + b == b;
    } else {
      SeparatorsConcat(separator, a[1..], b);
      assert (a + b)[1..] == a[1..] + b;
    }
  }

  lemma {:induction false} SeparatorsAbsent(separator: char, s: string)
    ensures Separators(separator, s) == 0 <==> separator !in s
  {
    if s != "" {
      SeparatorsAbsent(separator, s[1..]);
      assert s == [s[0]] + s[1..];
    }
  }

  lemma {:induction false} SplitCount(separator: char, stream: string, pending: string)
    ensures |SplitFrom(separator, stream, pending)| == Separators(separator, stream)
    decreases |stream|
  {
    if stream != "" {
      SplitCount(separator, stream[1..], if stream[0] == separator then "" else pending + [stream[0]]);
    }
  }

  lemma {:induction false} FrameSeparators(separator: char, records: seq<string>)
    ensures Separators(separator, Frame(separator, records)) >= |records|
    ensures Separators(separator, Frame(separator, records)) == |records| <==> SeparatorFree(separator, records)
  {
    if records != [] {
      FrameSeparators(separator, records[1..]);
      SeparatorsConcat(separator, records[0] + [separator], Frame(separator, records[1..]));
      SeparatorsConcat(separator, records[0], [separator]);
      SeparatorsAbsent(separator, records[0]);
      assert Separators(separator, [separator]) == 1 + Separators(separator, [separator][1..]);
      assert records == [records[0]] + records[1..];
    }
  }

  lemma {:induction false} SplitFrame(separator: char, records: seq<string>)
    requires SeparatorFree(separator, records)
    ensures Split(separator, Frame(separator, records)) == records
  {
    if records != [] {
      SplitRecord(separator, records[0], Frame(separator, records[1..]), "");
      SplitFrame(separator, records[1..]);
      assert "" + records[0] == records[0];
    }
  }

  /** The stream gives the records back exactly when no record contains the separator. */
  lemma FramingRoundTrips(separator: char, records: seq<string>)
    ensures Split(separator, Frame(separator, records)) == records <==> SeparatorFree(separator, records)
  {
    if SeparatorFree(separator, records) {
      SplitFrame(separator, records);
    } else {
      FrameSeparators(separator, records);
      SplitCount(separator, Frame(separator, records), "");
    }
  }

  /** Fewer records make a shorter stream. */
  lemma {:induction false} FrameShorter(separator: char, a: seq<string>, b: seq<string>)
    requires Subsequence(a, b)
    ensures |Frame(separator, a)| <= |Frame(separator, b)|
    ensures |a| < |b| ==> |Frame(separator, a)| < |Frame(separator, b)|
    decreases |b|
  {
    SubsequenceLength(a, b);
    if a != [] && b != [] {
      if a[0] == b[0] && Subsequence(a[1..], b[1..]) {
        FrameShorter(separator, a[1..], b[1..]);
      } else {
        FrameShorter(separator, a, b[1..]);
      }
    }
  }

  // ----- the buffered writer -----

  const BUFFER_CAPACITY: nat := 65536
  const EMIT_STACK_CAPACITY: nat := 4097

  /** What becomes of one flush: everything pending reaches the descriptor, or only the first `taken`
      bytes do, not all, and the writer may keep the rest or drop it. */
  datatype FlushAnswer = Flushed | Torn(taken: nat, kept: bool)

  /** `answers(n)` is what becomes of the n-th flush that has something to write. */
  datatype Channel = Channel(separator: char, answers: nat -> FlushAnswer)

  /** What has reached the descriptor, what waits in the buffer, the flushes made, and the records
      that were emitted. */
  datatype Sink = Sink(delivered: string, pending: string, flushes: nat, records: seq<string>)

  const EMPTY_SINK: Sink := Sink("", "", 0, [])

  /** Every byte the writer still answers for. */
  function Stream(s: Sink): string { s.delivered + s.pending }

  function Flush(ch: Channel, s: Sink): (Sink, bool) {
    if s.pending == "" then (s, true)
    else
      match ch.answers(s.flushes)
      case Flushed => (s.(delivered := s.delivered + s.pending, pending := "", flushes := s.flushes + 1), true)
      case Torn(taken, kept) =>
        var n := if taken < |s.pending| then taken else |s.pending| - 1;
        (s.(delivered := s.delivered + s.pending[..n], pending := if kept then s.pending[n..] else "", flushes := s.flushes + 1),
         false)
  }

  /** Bytes are buffered; what is pending is flushed first when they do not fit, and bytes that no
      buffer holds are written at once. */
  function Written(ch: Channel, s: Sink, data: string): (Sink, bool) {
    var (s1, ok) := if |s.pending| + |data| > BUFFER_CAPACITY then Flush(ch, s) else (s, true);
    if !ok then (s1, false)
    else if |data| > BUFFER_CAPACITY then Flush(ch, s1.(pending := data))
    else (s1.(pending := s1.pending + data), true)
  }

  /** The writes of one `emit`; a path too long for the stack buffer takes two. */
  function RecordWritten(ch: Channel, s: Sink, path: string): (Sink, bool) {
    if |path| + 1 <= EMIT_STACK_CAPACITY then Written(ch, s, path + [ch.separator])
    else
      var (s1, ok) := Written(ch, s, path);
      if ok then Written(ch, s1, [ch.separator]) else (s1, false)
  }

  function Emitted(ch: Channel, s: Sink, path: string): (Sink, bool) {
    var (s1, ok) := RecordWritten(ch, s, path);
    if ok then (s1.(records := s.records + [path]), true) else (s1, false)
  }

  /** Every flush from the m-th up to the n-th delivered all it had. */
  ghost predicate FlushedBetween(ch: Channel, m: nat, n: nat) {
    forall i :: m <= i < n ==> ch.answers(i).Flushed?
  }

  /** As long as no flush failed, the bytes delivered and pending are the framing of the records. */
  ghost predicate WellFramed(ch: Channel, s: Sink) {
    FlushedBetween(ch, 0, s.flushes) ==> Stream(s) == Frame(ch.separator, s.records)
  }

  lemma FlushKeepsBytes(ch: Channel, s: Sink)
    ensures var (s', ok) := Flush(ch, s);
            && s'.records == s.records && s.flushes <= s'.flushes
            && (ok <==> FlushedBetween(ch, s.flushes, s'.flushes))
            && (ok ==> s'.delivered == Stream(s) && s'.pending == "")
            && (!ok ==> |s'.delivered| < |Stream(s)| && |Stream(s')| <= |Stream(s)|)
            && s.delivered <= s'.delivered <= Stream(s)
  {
    var (s', ok) := Flush(ch, s);
    if !ok {
      assert !ch.answers(s.flushes).Flushed?;
    }
  }

  /** A write fails exactly when a flush it made did; a write that succeeds adds its bytes at the end. */
  lemma WriteAddsBytes(ch: Channel, s: Sink, data: string)
    ensures var (s', ok) := Written(ch, s, data);
            && s'.records == s.records && s.flushes <= s'.flushes
            && (ok <==> FlushedBetween(ch, s.flushes, s'.flushes))
            && (ok ==> Stream(s') == Stream(s) + data)
            && (!ok && |data| <= BUFFER_CAPACITY ==> |Stream(s')| <= |Stream(s)|)
            && s.delivered <= s'.delivered <= Stream(s) + data
  {
    FlushKeepsBytes(ch, s);
    var (s1, ok) := if |s.pending| + |data| > BUFFER_CAPACITY then Flush(ch, s) else (s, true);
    Associative(s.delivered, s.pending, data);
    if ok && |data| > BUFFER_CAPACITY {
      FlushKeepsBytes(ch, s1.(pending := data));
    }
  }

  /** Both branches of `emit` add exactly one record, or fail because a flush did; then the record is
      not counted, and no byte beyond those of that record is delivered. */
  lemma EmitAddsOneRecord(ch: Channel, s: Sink, path: string)
    ensures var (s', ok) := Emitted(ch, s, path);
            && s.flushes <= s'.flushes
            && (ok <==> FlushedBetween(ch, s.flushes, s'.flushes))
            && s'.records == (if ok then s.records + [path] else s.records)
            && (ok ==> Stream(s') == Stream(s) + Frame(ch.separator, [path]))
            && (!ok && |path| < EMIT_STACK_CAPACITY ==> |Stream(s')| <= |Stream(s)|)
            && s.delivered <= s'.delivered <= Stream(s) + Frame(ch.separator, [path])
  {
    FrameOne(ch.separator, path);
    if |path| + 1 <= EMIT_STACK_CAPACITY {
      WriteAddsBytes(ch, s, path + [ch.separator]);
    } else {
      WriteAddsBytes(ch, s, path);
      var (s1, ok) := Written(ch, s, path);
      Associative(Stream(s), path, [ch.separator]);
      if ok {
        WriteAddsBytes(ch, s1, [ch.separator]);
      }
    }
  }

  lemma EmitKeepsFraming(ch: Channel, s: Sink, path: string)
    requires WellFramed(ch, s)
    ensures WellFramed(ch, Emitted(ch, s, path).0)
  {
    EmitAddsOneRecord(ch, s, path);
    FrameConcat(ch.separator, s.records, [path]);
  }

  class Output {
    const ch: Channel
    var delivered: string
    var pending: string
    var flushes: nat
    var emittedCount: nat
    ghost var records: seq<string>

    ghost function State(): Sink
      reads this
    {
      Sink(delivered, pending, flushes, records)
    }

    ghost predicate Valid()
      reads this
    {
      emittedCount == |records| && WellFramed(ch, State())
    }

    constructor (nullTerminated: bool, answers: nat -> FlushAnswer)
      ensures ch == Channel(if nullTerminated then '\0' else '\n', answers)
      ensures Valid() && State() == EMPTY_SINK
    {
      ch := Channel(if nullTerminated then '\0' else '\n', answers);
      delivered, pending, flushes, emittedCount, records := "", "", 0, 0, [];
    }

    method FlushBuffer() returns (ok: bool)
      modifies this`delivered, this`pending, this`flushes
      ensures (State(), ok) == Flush(ch, old(State()))
    {
      if |pending| == 0 {
        return true;
      }
      var answer := ch.answers(flushes);
      flushes := flushes + 1;
      if answer.Flushed? {
        delivered, pending := delivered + pending, "";
        return true;
      }
      var n := if answer.taken < |pending| then answer.taken else |pending| - 1;
      delivered, pending := delivered + pending[..n], if answer.kept then pending[n..] else "";
      ok := false;
    }

    method WriteBytes(data: string) returns (ok: bool)
      modifies this`delivered, this`pending, this`flushes
      ensures (State(), ok) == Written(ch, old(State()), data)
    {
      if |pending| + |data| > BUFFER_CAPACITY {
        ok := FlushBuffer();
        if !ok {
          return;
        }
      }
      if |data| > BUFFER_CAPACITY {
        pending := data;
        ok := FlushBuffer();
      } else {
        pending := pending + data;
        ok := true;
      }
    }

    /** The bytes are read through the caller's pointer, which is not written to. */
    method WriteRecord(path: array<char>, pathLength: nat) returns (ok: bool)
      requires pathLength <= path.Length
      modifies this`delivered, this`pending, this`flushes
      ensures (State(), ok) == RecordWritten(ch, old(State()), path[..pathLength])
    {
      if pathLength + 1 <= EMIT_STACK_CAPACITY {
        var combined := new char[EMIT_STACK_CAPACITY];
        forall i | 0 <= i < pathLength {
          combined[i] := path[i];
        }
        combined[pathLength] := ch.separator;
        assert combined[..pathLength + 1] == path[..pathLength] + [ch.separator];
        ok := WriteBytes(combined[..pathLength + 1]);
      } else {
        ok := WriteBytes(path[..pathLength]);
        if ok {
          ok := WriteBytes([ch.separator]);
        }
      }
    }

    method Emit(path: array<char>, pathLength: nat) returns (ok: bool)
      requires Valid() && pathLength <= path.Length
      modifies this
      ensures Valid()
      ensures (State(), ok) == Emitted(ch, old(State()), path[..pathLength])
      ensures emittedCount == old(emittedCount) + if ok then 1 else 0
    {
      EmitKeepsFraming(ch, State(), path[..pathLength]);
      ok := WriteRecord(path, pathLength);
      if ok {
        emittedCount := emittedCount + 1;
        records := records + [path[..pathLength]];
      }
    }

    /** The flush at close; the program's exit status does not depend on the answer. */
    method Close() returns (ok: bool)
      requires Valid()
      modifies this`delivered, this`pending, this`flushes
      ensures Valid()
      ensures (State(), ok) == Flush(ch, old(State()))
    {
      FlushKeepsBytes(ch, State());
      ok := FlushBuffer();
    }
  }
}
