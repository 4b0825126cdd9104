/** The end of a parallel run: gather the buffers into an iovec array and write it out. */
module Merge {
  import opened Basics
  import opened FileSystem
  import opened Output
  import opened ParallelWalk
  import opened ParallelLaws
  import opened Agreement

  const MAX_IOVEC: nat := 256
  const IOV_MAX: nat := 1024

  /** A base pointer into some memory, and a length. */
  datatype RawIovec = RawIovec(memory: string, offset: nat, length: nat)

  type Iovec = v: RawIovec | v.offset + v.length <= |v.memory| witness RawIovec("", 0, 0)

  function Data(v: Iovec): string { v.memory[v.offset..v.offset + v.length] }

  function DataOf(vs: seq<Iovec>): string { if vs == [] then "" else Data(vs[0]) + DataOf(vs[1..]) }

  // ----- gathering -----

  predicate Usable(slot: Slot) { slot.initialized && slot.bytes != "" }

  /** The buffers that go into an array with room for `room` more. */
  function Gather(slots: seq<Slot>, room: nat): seq<Slot> {
    if slots == [] then []
    else if Usable(slots[0]) && room > 0 then [slots[0]] + Gather(slots[1..], room - 1)
    else Gather(slots[1..], room)
  }

  function UsableCount(slots: seq<Slot>): nat {
    if slots == [] then 0 else (if Usable(slots[0]) then 1 else 0) + UsableCount(slots[1..])
  }

  lemma {:induction false} UsableAtMostAll(slots: seq<Slot>)
    ensures UsableCount(slots) <= |slots|
  {
    if slots != [] {
      UsableAtMostAll(slots[1..]);
    }
  }

  /** Fewer than 256 workers never fill more buffers than the array has room for. */
  lemma FewWorkersFit(cfg: Config, roots: seq<Root>, workers: nat, actions: seq<Action>, s: State)
    requires Schedule(cfg, Start(roots, workers), actions, s)
    ensures UsableCount([s.main] + s.slots) <= workers + 1
    ensures workers < MAX_IOVEC ==> UsableCount([s.main] + s.slots) <= MAX_IOVEC
  {
    ScheduleKeepsShape(cfg, Start(roots, workers), actions, s);
    UsableAtMostAll([s.main] + s.slots);
  }

  function BytesOf(slots: seq<Slot>): string { if slots == [] then "" else slots[0].bytes + BytesOf(slots[1..]) }

  function EmittedOf(slots: seq<Slot>): nat { if slots == [] then 0 else slots[0].emitted + EmittedOf(slots[1..]) }

  /** The records of the buffers that are gathered. */
  function GatheredRecords(slots: seq<Slot>, logs: seq<seq<Event>>, room: nat): seq<string>
    requires |slots| == |logs|
  {
    if slots == [] then []
    else if Usable(slots[0]) && room > 0 then RecordsOf(logs[0]) + GatheredRecords(slots[1..], logs[1..], room - 1)
    else GatheredRecords(slots[1..], logs[1..], room)
  }

  ghost predicate AllHold(separator: char, slots: seq<Slot>, logs: seq<seq<Event>>) {
    |slots| == |logs| && forall w :: 0 <= w < |slots| ==> SlotHolds(separator, slots[w], logs[w])
  }

  /** The merged stream is made of whole records, each buffer's in its own order, and the count
      that is added is their number. */
  lemma {:induction false} MergeKeepsRecordsWhole(separator: char, slots: seq<Slot>, logs: seq<seq<Event>>, room: nat)
    requires AllHold(separator, slots, logs)
    ensures BytesOf(Gather(slots, room)) == Frame(separator, GatheredRecords(slots, logs, room))
    ensures EmittedOf(Gather(slots, room)) == |GatheredRecords(slots, logs, room)|
    decreases |slots|
  {
    if slots != [] {
      assert SlotHolds(separator, slots[0], logs[0]);
      var more := if Usable(slots[0]) && room > 0 then room - 1 else room;
      MergeKeepsRecordsWhole(separator, slots[1..], logs[1..], more);
      FrameConcat(separator, RecordsOf(logs[0]), GatheredRecords(slots[1..], logs[1..], more));
    }
  }

  /** Nothing is lost exactly when the buffers that hold something fit the array; beyond that,
      whole buffers are dropped without an error. */
  lemma {:induction false} MergeIsCompleteIffRoom(separator: char, slots: seq<Slot>, logs: seq<seq<Event>>, room: nat)
    requires AllHold(separator, slots, logs)
    ensures UsableCount(slots) <= room ==> GatheredRecords(slots, logs, room) == RecordsOfAll(logs)
    ensures UsableCount(slots) > room ==> |GatheredRecords(slots, logs, room)| < |RecordsOfAll(logs)|
    decreases |slots|
  {
    if slots != [] {
      assert SlotHolds(separator, slots[0], logs[0]);
      assert RecordsOf(logs[0]) == [] ==> slots[0].bytes == "";
      MergeIsCompleteIffRoom(separator, slots[1..], logs[1..], if Usable(slots[0]) && room > 0 then room - 1 else room);
    }
  }

  class IovecBuilder {
    const iov: array<Iovec>
    var count: nat
    var totalEmitted: nat

    ghost predicate Holds(slots: seq<Slot>)
      reads this, iov
    {
      && iov.Length == MAX_IOVEC && count == |slots| <= MAX_IOVEC
      && (forall i :: 0 <= i < count ==> iov[i] == RawIovec(slots[i].bytes, 0, |slots[i].bytes|) && iov[i].length > 0)
      && totalEmitted == EmittedOf(slots)
    }

    constructor ()
      ensures Holds([]) && fresh(iov)
    {
      iov := new Iovec[MAX_IOVEC];
      count, totalEmitted := 0, 0;
    }

    method Collect(slot: Slot, ghost slots: seq<Slot>)
      requires Holds(slots)
      modifies this, iov
      ensures Holds(if Usable(slot) && |slots| < MAX_IOVEC then slots + [slot] else slots)
    {
      if !slot.initialized || |slot.bytes| == 0 || count >= MAX_IOVEC {
        return;
      }
      iov[count] := RawIovec(slot.bytes, 0, |slot.bytes|);
      count := count + 1;
      totalEmitted := totalEmitted + slot.emitted;
      EmittedOfAppend(slots, slot);
    }

    /** The main buffer first, then every worker's in slot order. */
    method CollectAll(main: Slot, slots: seq<Slot>)
      requires Holds([])
      modifies this, iov
      ensures Holds(Gather([main] + slots, MAX_IOVEC))
    {
      var all := [main] + slots;
      for i := 0 to |all|
        invariant Holds(Gather(all[..i], MAX_IOVEC))
      {
        GatherAppend(all[..i], all[i], MAX_IOVEC);
        assert all[..i + 1] == all[..i] + [all[i]];
        Collect(all[i], Gather(all[..i], MAX_IOVEC));
      }
      assert all[..|all|] == all;
    }
  }

  lemma {:induction false} EmittedOfAppend(slots: seq<Slot>, slot: Slot)
    ensures EmittedOf(slots + [slot]) == EmittedOf(slots) + slot.emitted
  {
    if slots == [] {
      assert EmittedOf([slot][1..]) == 0;
    } else {
      EmittedOfAppend(slots[1..], slot);
      assert (slots + [slot])[1..] == slots[1..] + [slot];
    }
  }

  lemma {:induction false} GatherAppend(slots: seq<Slot>, slot: Slot, room: nat)
    ensures |Gather(slots, room)| <= room
    ensures Gather(slots + [slot], room)
         == if Usable(slot) && |Gather(slots, room)| < room then Gather(slots, room) + [slot] else Gather(slots, room)
    decreases |slots|
  {
    if slots == [] {
      assert Gather([slot][1..], room) == [];
    } else {
      GatherAppend(slots[1..], slot, if Usable(slots[0]) && room > 0 then room - 1 else room);
      assert (slots + [slot])[1..] == slots[1..] + [slot];
    }
  }

  lemma {:induction false} BuilderData(vs: seq<Iovec>, slots: seq<Slot>)
    requires |vs| == |slots| && forall i :: 0 <= i < |vs| ==> vs[i] == RawIovec(slots[i].bytes, 0, |slots[i].bytes|)
    ensures DataOf(vs) == BytesOf(slots)
  {
    if vs != [] {
      BuilderData(vs[1..], slots[1..]);
      assert Data(vs[0]) == slots[0].bytes;
    }
  }

  // ----- writing -----

  /** What the kernel does with one writev: interrupted, refused, or some bytes accepted. */
  datatype WriteEvent = Interrupted | Refused | Accepts(n: nat)

  datatype WriteResult = Eintr | Failure | Wrote(n: nat)

  class Descriptor {
    const script: nat -> WriteEvent
    var calls: nat
    var written: string

    constructor (script: nat -> WriteEvent)
      ensures this.script == script && written == "" && calls == 0
    {
      this.script, calls, written := script, 0, "";
    }

    /** writev() of POSIX.1-2017: on success a count of bytes, positive when there was data, and
        that many leading bytes delivered. */
    method Writev(data: string) returns (result: WriteResult)
      modifies this
      ensures calls == old(calls) + 1
      ensures result == Eintr <==> script(old(calls)) == Interrupted
      ensures result == Failure <==> script(old(calls)) == Refused
      ensures result.Wrote? ==> result.n <= |data| && (data != "" ==> result.n > 0) && written == old(written) + data[..result.n]
      ensures !result.Wrote? ==> written == old(written)
    {
      var event := script(calls);
      calls := calls + 1;
      match event {
        case Interrupted => result := Eintr;
        case Refused => result := Failure;
        case Accepts(n) =>
          var m := if n > |data| then |data| else if n == 0 && |data| > 0 then 1 else n;
          written := written + data[..m];
          result := Wrote(m);
      }
    }
  }

  lemma {:induction false} DataOfConcat(a: seq<Iovec>, b: seq<Iovec>)
    ensures DataOf(a + b) == DataOf(a) + DataOf(b)
  {
    if a == [] {
      assert a + b == b;
    } else {
      DataOfConcat(a[1..], b);
      assert (a + b)[1..] == a[1..] + b;
      Associative(Data(a[0]), DataOf(a[1..]), DataOf(b));
    }
  }

  predicate AllNonEmpty(vs: seq<Iovec>) { forall i :: 0 <= i < |vs| ==> vs[i].length > 0 }

  /** One turn of the inner loop: the first iovec is dropped whole, or shortened. */
  function Turn(vs: seq<Iovec>, n: nat): (seq<Iovec>, nat)
    requires vs != []
  {
    if n >= vs[0].length then (vs[1..], n - vs[0].length)
    else ([Shortened(vs[0], n)] + vs[1..], 0)
  }

  lemma TurnKeepsData(vs: seq<Iovec>, n: nat)
    requires vs != [] && n <= |DataOf(vs)| && AllNonEmpty(vs)
    ensures var (vs', n') := Turn(vs, n);
            AllNonEmpty(vs') && n' <= |DataOf(vs')| && DataOf(vs')[n'..] == DataOf(vs)[n..]
  {
    var v, rest := vs[0], vs[1..];
    assert vs == [v] + rest;
    DataOfCons(v, rest);
    DropFromConcat(Data(v), DataOf(rest), n);
    if n < v.length {
      DataOfCons(Shortened(v, n), rest);
    }
  }

  function Shortened(v: Iovec, n: nat): Iovec
    requires n <= v.length
    ensures Data(Shortened(v, n)) == Data(v)[n..]
  {
    RawIovec(v.memory, v.offset + n, v.length - n)
  }

  lemma DataOfCons(v: Iovec, rest: seq<Iovec>)
    ensures DataOf([v] + rest) == Data(v) + DataOf(rest)
  {
    assert ([v] + rest)[1..] == rest;
  }

  lemma DropFromConcat(a: string, b: string, n: nat)
    requires n <= |a + b|
    ensures (a + b)[n..] == if n >= |a| then b[n - |a|..] else a[n..] + b
  {
  }

  /** Drops the first `written` bytes of the remaining data by moving the iovecs in place. */
  method Advance(iov: array<Iovec>, start: nat, end: nat, written: nat) returns (first: nat)
    requires start <= end <= iov.Length && AllNonEmpty(iov[start..end])
    requires written <= |DataOf(iov[start..end])|
    modifies iov
    ensures start <= first <= end && AllNonEmpty(iov[first..end])
    ensures DataOf(iov[first..end]) == DataOf(old(iov[start..end]))[written..]
  {
    ghost var vs := iov[start..end];
    ghost var goal := DataOf(vs)[written..];
    first := start;
    var remaining: nat := written;
    while remaining > 0 && first < end
      invariant start <= first <= end && vs == iov[first..end] && AllNonEmpty(vs)
      invariant remaining <= |DataOf(vs)| && DataOf(vs)[remaining..] == goal
      decreases end - first, remaining
    {
      TurnKeepsData(vs, remaining);
      ghost var turned := Turn(vs, remaining);
      if remaining >= iov[first].length {
        remaining := remaining - iov[first].length;
        first := first + 1;
      } else {
        iov[first] := Shortened(iov[first], remaining);
        remaining := 0;
      }
      vs := turned.0;
    }
    EmptyHasNoData(vs);
  }

  lemma EmptyHasNoData(vs: seq<Iovec>)
    ensures vs == [] ==> DataOf(vs) == ""
  {
  }

  /** Whatever short writes and interruptions happen, the descriptor receives a prefix of the data,
      and all of it exactly when the answer is true. It ends because interruptions do (none from
      call number `quiet` on) and every other successful call delivers a byte: no iovec is empty. */
  method WriteAllIovec(fd: Descriptor, iov: array<Iovec>, count: nat, ghost quiet: nat) returns (ok: bool)
    requires count <= iov.Length && AllNonEmpty(iov[..count])
    requires forall k :: k >= quiet ==> fd.script(k) != Interrupted
    modifies fd, iov
    ensures old(fd.written) <= fd.written <= old(fd.written) + DataOf(old(iov[..count]))
    ensures ok <==> fd.written == old(fd.written) + DataOf(old(iov[..count]))
  {
    ghost var goal := fd.written + DataOf(iov[..count]);
    var first := 0;
    while first < count
      invariant 0 <= first <= count && AllNonEmpty(iov[first..count])
      invariant old(fd.written) <= fd.written
      invariant fd.written + DataOf(iov[first..count]) == goal
      decreases |DataOf(iov[first..count])|, if quiet > fd.calls then quiet - fd.calls else 0
    {
      var vs, clamped := iov[first..count], if count - first > IOV_MAX then IOV_MAX else count - first;
      BatchIsPrefix(vs, clamped);
      ghost var before := fd.written;
      var result := fd.Writev(DataOf(vs[..clamped]));
      match result {
        case Eintr =>
        case Failure =>
          HasData(vs);
          return false;
        case Wrote(n) =>
          DeliveredMoves(before, DataOf(vs), DataOf(vs[..clamped]), n);
          first := Advance(iov, first, count, n);
      }
    }
    ok := true;
  }

  lemma BatchIsPrefix(vs: seq<Iovec>, n: nat)
    requires 0 < n <= |vs| && AllNonEmpty(vs)
    ensures DataOf(vs[..n]) <= DataOf(vs) && DataOf(vs[..n]) != ""
  {
    var batch, later := vs[..n], vs[n..];
    assert vs == batch + later && batch[0] == vs[0];
    DataOfConcat(batch, later);
    HasData(batch);
  }

  lemma HasData(vs: seq<Iovec>)
    requires vs != [] && vs[0].length > 0
    ensures DataOf(vs) != ""
  {
    assert |Data(vs[0])| == vs[0].length;
  }

  lemma DeliveredMoves(before: string, data: string, batch: string, n: nat)
    requires batch <= data && n <= |batch|
    ensures (before + batch[..n]) + data[n..] == before + data
  {
    assert batch[..n] == data[..n];
  }
}
