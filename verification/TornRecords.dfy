/** Buffers for which memory sometimes ran out. A record whose separator found no room leaves its path
    behind without one; this module says exactly when that shows, in one buffer and in the merged stream,
    and which records are lost without an error. */
module TornRecords {
  import opened Basics
  import opened FileSystem
  import opened Output
  import opened ParallelWalk
  import opened Merge

  // ----- streams with torn records -----

  /** What one append leaves: a whole record, which is counted, or a path without its separator. */
  datatype Piece = Whole(path: string) | Cut(path: string)

  function BytesOfPieces(separator: char, ps: seq<Piece>): string {
    if ps == [] then "" else ps[0].path + (if ps[0].Whole? then [separator] else []) + BytesOfPieces(separator, ps[1..])
  }

  function Counted(ps: seq<Piece>): seq<string> {
    if ps == [] then [] else (if ps[0].Whole? then [ps[0].path] else []) + Counted(ps[1..])
  }

  /** The records a reader sees: a torn path runs into the next whole record. */
  function Lines(ps: seq<Piece>, pending: string): seq<string>
    decreases |ps|
  {
    if ps == [] then []
    else if ps[0].Whole? then [pending + ps[0].path] + Lines(ps[1..], "")
    else Lines(ps[1..], pending + ps[0].path)
  }

  /** Nothing but empty paths was torn. */
  predicate NothingCut(ps: seq<Piece>) { forall p :: p in ps && p.Cut? ==> p.path == "" }

  /** No torn path is followed by a whole record. */
  predicate CutsTrail(ps: seq<Piece>) {
    ps == [] || (CutsTrail(ps[1..]) && (ps[0].Cut? && ps[0].path != "" ==> Counted(ps[1..]) == []))
  }

  predicate PlainPaths(separator: char, ps: seq<Piece>) { forall p :: p in ps ==> separator !in p.path }

  lemma {:induction false} PiecesConcat(separator: char, a: seq<Piece>, b: seq<Piece>)
    ensures BytesOfPieces(separator, a + b) == BytesOfPieces(separator, a) + BytesOfPieces(separator, b)
    ensures Counted(a + b) == Counted(a) + Counted(b)
  {
    if a == [] {
      assert a + b == b;
    } else {
      PiecesConcat(separator, a[1..], b);
      assert (a + b)[0] == a[0] && (a + b)[1..] == a[1..] + b;
      Associative(a[0].path + if a[0].Whole? then [separator] else [], BytesOfPieces(separator, a[1..]), BytesOfPieces(separator, b));
      Associative(if a[0].Whole? then [a[0].path] else [], Counted(a[1..]), Counted(b));
    }
  }

  lemma BytesOfPiece(separator: char, p: Piece)
    ensures BytesOfPieces(separator, [p]) == p.path + if p.Whole? then [separator] else []
    ensures Counted([p]) == if p.Whole? then [p.path] else []
  {
    assert [p][1..] == [];
  }

  lemma CountedFirst(ps: seq<Piece>)
    requires ps != []
    ensures ps[0].Whole? ==> Counted(ps) != [] && Counted(ps)[0] == ps[0].path && Counted(ps)[1..] == Counted(ps[1..])
    ensures ps[0].Cut? ==> Counted(ps) == Counted(ps[1..])
  {
  }

  /** The bytes are the framing of the counted records exactly when nothing was torn; otherwise there are more. */
  lemma {:induction false} FramedIffNothingCut(separator: char, ps: seq<Piece>)
    ensures |BytesOfPieces(separator, ps)| >= |Frame(separator, Counted(ps))|
    ensures BytesOfPieces(separator, ps) == Frame(separator, Counted(ps)) <==> NothingCut(ps)
    ensures !NothingCut(ps) ==> |BytesOfPieces(separator, ps)| > |Frame(separator, Counted(ps))|
  {
    if ps != [] {
      FramedIffNothingCut(separator, ps[1..]);
      assert ps == [ps[0]] + ps[1..];
      assert NothingCut(ps) <==> (ps[0].Cut? ==> ps[0].path == "") && NothingCut(ps[1..]);
      var rest, frame := BytesOfPieces(separator, ps[1..]), Frame(separator, Counted(ps[1..]));
      CountedFirst(ps);
      if ps[0].Whole? {
        var record := ps[0].path + [separator];
        assert BytesOfPieces(separator, ps) == record + rest && Frame(separator, Counted(ps)) == record + frame;
        assert (record + rest)[|record|..] == rest && (record + frame)[|record|..] == frame;
      } else {
        assert ps[0].path + [] == ps[0].path;
        assert |BytesOfPieces(separator, ps)| == |ps[0].path| + |rest|;
      }
    }
  }

  lemma {:induction false} SplitPlain(separator: char, path: string, rest: string, pending: string)
    requires separator !in path
    ensures SplitFrom(separator, path + rest, pending) == SplitFrom(separator, rest, pending + path)
    decreases |path|
  {
    if path == "" {
      assert path + rest == rest && pending + path == pending;
    } else {
      SplitPlain(separator, path[1..], rest, pending + [path[0]]);
      assert (path + rest)[1..] == path[1..] + rest;
      assert pending + [path[0]] + path[1..] == pending + path;
    }
  }

  lemma {:induction false} SplitGivesLines(separator: char, ps: seq<Piece>, pending: string)
    requires PlainPaths(separator, ps)
    ensures SplitFrom(separator, BytesOfPieces(separator, ps), pending) == Lines(ps, pending)
    decreases |ps|
  {
    if ps != [] {
      var path, rest := ps[0].path, BytesOfPieces(separator, ps[1..]);
      assert ps[0] in ps && forall p :: p in ps[1..] ==> p in ps;
      if ps[0].Whole? {
        SplitRecord(separator, path, rest, pending);
        SplitGivesLines(separator, ps[1..], "");
      } else {
        assert path + [] == path;
        SplitPlain(separator, path, rest, pending);
        SplitGivesLines(separator, ps[1..], pending + path);
      }
    }
  }

  lemma {:induction false} LinesAreCountedIff(ps: seq<Piece>, pending: string)
    ensures Lines(ps, pending) == Counted(ps) <==> Counted(ps) == [] || (pending == "" && CutsTrail(ps))
    decreases |ps|
  {
    if ps != [] {
      var path := ps[0].path;
      CountedFirst(ps);
      if ps[0].Whole? {
        LinesAreCountedIff(ps[1..], "");
        NoRecordNoCutShows(ps[1..]);
        assert Lines(ps, pending)[0] == pending + path && Lines(ps, pending)[1..] == Lines(ps[1..], "");
        assert pending + path == path <==> pending == "" by {
          assert |pending + path| == |pending| + |path|;
          assert "" + path == path;
        }
        assert Counted(ps) == [path] + Counted(ps[1..]) && Lines(ps, pending) == [pending + path] + Lines(ps[1..], "");
      } else {
        LinesAreCountedIff(ps[1..], pending + path);
        NoRecordNoCutShows(ps[1..]);
      }
    }
  }

  lemma {:induction false} NoRecordNoCutShows(ps: seq<Piece>)
    ensures Counted(ps) == [] ==> CutsTrail(ps)
  {
    if ps != [] {
      NoRecordNoCutShows(ps[1..]);
    }
  }

  /** A reader gets the counted records back exactly when no torn path is followed by a whole record. */
  lemma ReadBackIff(separator: char, ps: seq<Piece>)
    requires PlainPaths(separator, ps)
    ensures Split(separator, BytesOfPieces(separator, ps)) == Counted(ps) <==> CutsTrail(ps)
  {
    SplitGivesLines(separator, ps, "");
    LinesAreCountedIff(ps, "");
    NoRecordNoCutShows(ps);
  }

  // ----- a sequence of callbacks on one slot -----

  datatype Visited = Visited(d: Delivered, mem: Memory)

  /** The slot can be used: it exists, and is initialized or can be. */
  predicate Ready(slot: Slot, mem: Memory) { mem.slot && (slot.initialized || mem.reserve) }

  /** What an append leaves in a slot that is ready. */
  function PieceOf(mem: Memory, event: Event): seq<Piece> {
    if event.None? || !mem.path then [] else if mem.separator then [Whole(event.value)] else [Cut(event.value)]
  }

  function AfterVisits(cfg: Config, slot: Slot, vs: seq<Visited>): Slot
    decreases |vs|
  {
    if vs == [] then slot else AfterVisits(cfg, VisitIn(cfg, vs[0].mem, slot, vs[0].d).0, vs[1..])
  }

  function ErrorsOfVisits(cfg: Config, slot: Slot, vs: seq<Visited>): seq<string>
    decreases |vs|
  {
    if vs == [] then []
    else
      var (slot1, _, errors) := VisitIn(cfg, vs[0].mem, slot, vs[0].d);
      errors + ErrorsOfVisits(cfg, slot1, vs[1..])
  }

  function PiecesOfVisits(cfg: Config, slot: Slot, vs: seq<Visited>): seq<Piece>
    decreases |vs|
  {
    if vs == [] then []
    else
      (if Ready(slot, vs[0].mem) then PieceOf(vs[0].mem, VisitEvent(cfg, vs[0].d)) else [])
      + PiecesOfVisits(cfg, VisitIn(cfg, vs[0].mem, slot, vs[0].d).0, vs[1..])
  }

  /** The accepted records that met a slot that is not ready. */
  function Refused(cfg: Config, slot: Slot, vs: seq<Visited>): seq<string>
    decreases |vs|
  {
    if vs == [] then []
    else
      var event := VisitEvent(cfg, vs[0].d);
      (if event.Some? && !Ready(slot, vs[0].mem) then [event.value] else [])
      + Refused(cfg, VisitIn(cfg, vs[0].mem, slot, vs[0].d).0, vs[1..])
  }

  function AcceptedRecords(cfg: Config, vs: seq<Visited>): seq<string> {
    if vs == [] then []
    else (if VisitEvent(cfg, vs[0].d).Some? then [VisitEvent(cfg, vs[0].d).value] else []) + AcceptedRecords(cfg, vs[1..])
  }

  /** A slot no callback has initialized holds nothing. */
  predicate Sane(slot: Slot) { !slot.initialized ==> slot == EMPTY_SLOT }

  lemma VisitAddsPieces(cfg: Config, slot: Slot, mem: Memory, d: Delivered)
    requires Sane(slot)
    ensures var slot', ps := VisitIn(cfg, mem, slot, d).0, if Ready(slot, mem) then PieceOf(mem, VisitEvent(cfg, d)) else [];
            && Sane(slot') && slot'.bytes == slot.bytes + BytesOfPieces(cfg.separator, ps)
            && slot'.emitted == slot.emitted + |Counted(ps)|
  {
    var event := VisitEvent(cfg, d);
    if event.Some? && mem.path {
      BytesOfPiece(cfg.separator, if mem.separator then Whole(event.value) else Cut(event.value));
      Associative(slot.bytes, event.value, [cfg.separator]);
    }
  }

  lemma {:induction false} VisitsAddPieces(cfg: Config, slot: Slot, vs: seq<Visited>)
    requires Sane(slot)
    ensures var slot', ps := AfterVisits(cfg, slot, vs), PiecesOfVisits(cfg, slot, vs);
            && Sane(slot') && slot'.bytes == slot.bytes + BytesOfPieces(cfg.separator, ps)
            && slot'.emitted == slot.emitted + |Counted(ps)|
    decreases |vs|
  {
    if vs != [] {
      var slot1 := VisitIn(cfg, vs[0].mem, slot, vs[0].d).0;
      var ps := if Ready(slot, vs[0].mem) then PieceOf(vs[0].mem, VisitEvent(cfg, vs[0].d)) else [];
      VisitAddsPieces(cfg, slot, vs[0].mem, vs[0].d);
      VisitsAddPieces(cfg, slot1, vs[1..]);
      PiecesConcat(cfg.separator, ps, PiecesOfVisits(cfg, slot1, vs[1..]));
      Associative(slot.bytes, BytesOfPieces(cfg.separator, ps), BytesOfPieces(cfg.separator, PiecesOfVisits(cfg, slot1, vs[1..])));
    }
  }

  /** An accepted path, not empty, finds room in a slot that is ready and its separator does not. */
  predicate Tears(cfg: Config, slot: Slot, v: Visited) {
    VisitEvent(cfg, v.d).Some? && v.d.path != "" && Ready(slot, v.mem) && v.mem.path && !v.mem.separator
  }

  lemma {:induction false} NothingCutIff(cfg: Config, slot: Slot, vs: seq<Visited>)
    ensures NothingCut(PiecesOfVisits(cfg, slot, vs)) <==>
              forall i :: 0 <= i < |vs| ==> !Tears(cfg, AfterVisits(cfg, slot, vs[..i]), vs[i])
    decreases |vs|
  {
    if vs != [] {
      var slot1, rest := VisitIn(cfg, vs[0].mem, slot, vs[0].d).0, vs[1..];
      NothingCutIff(cfg, slot1, rest);
      assert AfterVisits(cfg, slot, vs[..0]) == slot;
      forall i | 0 <= i < |rest|
        ensures AfterVisits(cfg, slot, vs[..i + 1]) == AfterVisits(cfg, slot1, rest[..i]) && vs[i + 1] == rest[i]
      {
        assert vs[..i + 1][1..] == rest[..i];
      }
      NothingCutStep(cfg, slot, vs);
    }
  }

  lemma NothingCutStep(cfg: Config, slot: Slot, vs: seq<Visited>)
    requires vs != []
    ensures NothingCut(PiecesOfVisits(cfg, slot, vs)) <==>
              !Tears(cfg, slot, vs[0]) && NothingCut(PiecesOfVisits(cfg, VisitIn(cfg, vs[0].mem, slot, vs[0].d).0, vs[1..]))
  {
    var ps := if Ready(slot, vs[0].mem) then PieceOf(vs[0].mem, VisitEvent(cfg, vs[0].d)) else [];
    assert NothingCut(ps) <==> !Tears(cfg, slot, vs[0]) by {
      assert ps != [] ==> ps[0] in ps;
    }
  }

  /** After any callbacks, with any answers of the allocator: the buffer is the framing of the records it
      counts exactly when no callback tore a record; and a reader of it alone gets them back exactly when
      no torn path is followed by a whole record. */
  lemma BufferIsWholeIff(cfg: Config, vs: seq<Visited>)
    ensures var slot, ps := AfterVisits(cfg, EMPTY_SLOT, vs), PiecesOfVisits(cfg, EMPTY_SLOT, vs);
            && slot.emitted == |Counted(ps)|
            && (slot.bytes == Frame(cfg.separator, Counted(ps)) <==>
                  forall i :: 0 <= i < |vs| ==> !Tears(cfg, AfterVisits(cfg, EMPTY_SLOT, vs[..i]), vs[i]))
            && (PlainPaths(cfg.separator, ps) ==> (Split(cfg.separator, slot.bytes) == Counted(ps) <==> CutsTrail(ps)))
  {
    var ps := PiecesOfVisits(cfg, EMPTY_SLOT, vs);
    VisitsAddPieces(cfg, EMPTY_SLOT, vs);
    assert "" + BytesOfPieces(cfg.separator, ps) == BytesOfPieces(cfg.separator, ps);
    FramedIffNothingCut(cfg.separator, ps);
    NothingCutIff(cfg, EMPTY_SLOT, vs);
    if PlainPaths(cfg.separator, ps) {
      ReadBackIff(cfg.separator, ps);
    }
  }

  /** The first path finds room and its separator does not, then memory is there again: one record is
      counted, and a reader sees one that is both paths run together. */
  lemma FailedSeparatorGluesRecords(cfg: Config, d: Delivered, next: Delivered)
    requires VisitEvent(cfg, d).Some? && VisitEvent(cfg, next).Some?
    requires cfg.separator !in d.path && cfg.separator !in next.path
    ensures var vs := [Visited(d, PLENTY.(separator := false)), Visited(next, PLENTY)];
            && AfterVisits(cfg, EMPTY_SLOT, vs).emitted == 1
            && Split(cfg.separator, AfterVisits(cfg, EMPTY_SLOT, vs).bytes) == [d.path + next.path]
            && ErrorsOfVisits(cfg, EMPTY_SLOT, vs) == [d.path]
  {
    var vs := [Visited(d, PLENTY.(separator := false)), Visited(next, PLENTY)];
    var slot1 := VisitIn(cfg, vs[0].mem, EMPTY_SLOT, d).0;
    var slot2 := VisitIn(cfg, PLENTY, slot1, next).0;
    assert vs[1..] == [vs[1]] && [vs[1]][1..] == [];
    assert AfterVisits(cfg, slot1, [vs[1]]) == slot2 && ErrorsOfVisits(cfg, slot1, [vs[1]]) == [];
    assert slot2.bytes == d.path + next.path + [cfg.separator] + "";
    SplitRecord(cfg.separator, d.path + next.path, "", "");
    assert "" + (d.path + next.path) == d.path + next.path;
  }

  // ----- what is lost without an error -----

  /** One callback loses an accepted record and reports nothing exactly when its slot is not ready; it then
      answers false. In every other case the record is counted or reported. */
  lemma SilentRefusalIff(cfg: Config, slot: Slot, mem: Memory, d: Delivered)
    requires Sane(slot) && VisitEvent(cfg, d).Some?
    ensures var (slot', ok, errors) := VisitIn(cfg, mem, slot, d);
            && (slot'.emitted == slot.emitted && errors == [] <==> !Ready(slot, mem))
            && (ok <==> Ready(slot, mem))
            && (Ready(slot, mem) ==> slot'.emitted == slot.emitted + 1 <==> errors == [])
  {
  }

  lemma VisitAccounts(cfg: Config, slot: Slot, mem: Memory, d: Delivered)
    ensures var event, errors := VisitEvent(cfg, d), VisitIn(cfg, mem, slot, d).2;
            var ps := if Ready(slot, mem) then PieceOf(mem, event) else [];
            (if event.Some? then multiset{event.value} else multiset{})
            == multiset(Counted(ps)) + multiset(errors) + (if event.Some? && !Ready(slot, mem) then multiset{event.value} else multiset{})
  {
    var event := VisitEvent(cfg, d);
    if event.Some? {
      BytesOfPiece(cfg.separator, Whole(event.value));
      BytesOfPiece(cfg.separator, Cut(event.value));
    }
  }

  lemma SumsRegroup(a: multiset<string>, b: multiset<string>, c: multiset<string>,
                    a': multiset<string>, b': multiset<string>, c': multiset<string>)
    ensures (a + b + c) + (a' + b' + c') == (a + a') + (b + b') + (c + c')
  {
  }

  /** Every accepted record is counted, reported, or was refused without a word. */
  lemma {:induction false} VisitsAccount(cfg: Config, slot: Slot, vs: seq<Visited>)
    ensures multiset(AcceptedRecords(cfg, vs))
         == multiset(Counted(PiecesOfVisits(cfg, slot, vs))) + multiset(ErrorsOfVisits(cfg, slot, vs)) + multiset(Refused(cfg, slot, vs))
    decreases |vs|
  {
    if vs != [] {
      var event := VisitEvent(cfg, vs[0].d);
      var (slot1, _, errors) := VisitIn(cfg, vs[0].mem, slot, vs[0].d);
      var ps := if Ready(slot, vs[0].mem) then PieceOf(vs[0].mem, event) else [];
      var refused := if event.Some? && !Ready(slot, vs[0].mem) then [event.value] else [];
      VisitAccounts(cfg, slot, vs[0].mem, vs[0].d);
      VisitsAccount(cfg, slot1, vs[1..]);
      PiecesConcat(cfg.separator, ps, PiecesOfVisits(cfg, slot1, vs[1..]));
      SumsRegroup(multiset(Counted(ps)), multiset(errors), multiset(refused),
                  multiset(Counted(PiecesOfVisits(cfg, slot1, vs[1..]))), multiset(ErrorsOfVisits(cfg, slot1, vs[1..])),
                  multiset(Refused(cfg, slot1, vs[1..])));
    }
  }

  /** So nothing is lost silently exactly when every accepted record met a slot that was ready. */
  lemma NothingSilentlyLostIff(cfg: Config, vs: seq<Visited>)
    ensures var slot, errors := AfterVisits(cfg, EMPTY_SLOT, vs), ErrorsOfVisits(cfg, EMPTY_SLOT, vs);
            slot.emitted + |errors| == |AcceptedRecords(cfg, vs)| <==> Refused(cfg, EMPTY_SLOT, vs) == []
  {
    VisitsAccount(cfg, EMPTY_SLOT, vs);
    VisitsAddPieces(cfg, EMPTY_SLOT, vs);
    var accepted, counted := multiset(AcceptedRecords(cfg, vs)), multiset(Counted(PiecesOfVisits(cfg, EMPTY_SLOT, vs)));
    var errors, refused := multiset(ErrorsOfVisits(cfg, EMPTY_SLOT, vs)), multiset(Refused(cfg, EMPTY_SLOT, vs));
    assert |accepted| == |counted| + |errors| + |refused|;
  }

  // ----- the merged stream -----

  /** Each buffer holds its pieces and counts the whole ones. */
  ghost predicate SlotsHold(separator: char, slots: seq<Slot>, histories: seq<seq<Piece>>) {
    && |slots| == |histories|
    && forall w :: 0 <= w < |slots| ==>
         && slots[w].bytes == BytesOfPieces(separator, histories[w]) && slots[w].emitted == |Counted(histories[w])|
  }

  /** The pieces of the buffers that are gathered, in the order of the array. */
  function GatheredPieces(slots: seq<Slot>, histories: seq<seq<Piece>>, room: nat): seq<Piece>
    requires |slots| == |histories|
  {
    if slots == [] then []
    else if Usable(slots[0]) && room > 0 then histories[0] + GatheredPieces(slots[1..], histories[1..], room - 1)
    else GatheredPieces(slots[1..], histories[1..], room)
  }

  /** The buffers of any callbacks, and the main buffer after any roots, are such. */
  lemma VisitedSlotsHold(cfg: Config, main: Slot, mainPieces: seq<Piece>, visits: seq<seq<Visited>>)
    requires main.bytes == BytesOfPieces(cfg.separator, mainPieces) && main.emitted == |Counted(mainPieces)|
    ensures SlotsHold(cfg.separator, [main] + seq(|visits|, w requires 0 <= w < |visits| => AfterVisits(cfg, EMPTY_SLOT, visits[w])),
                      [mainPieces] + seq(|visits|, w requires 0 <= w < |visits| => PiecesOfVisits(cfg, EMPTY_SLOT, visits[w])))
  {
    forall w | 0 <= w < |visits|
      ensures AfterVisits(cfg, EMPTY_SLOT, visits[w]).bytes == BytesOfPieces(cfg.separator, PiecesOfVisits(cfg, EMPTY_SLOT, visits[w]))
      ensures AfterVisits(cfg, EMPTY_SLOT, visits[w]).emitted == |Counted(PiecesOfVisits(cfg, EMPTY_SLOT, visits[w]))|
    {
      VisitsAddPieces(cfg, EMPTY_SLOT, visits[w]);
      assert "" + BytesOfPieces(cfg.separator, PiecesOfVisits(cfg, EMPTY_SLOT, visits[w]))
          == BytesOfPieces(cfg.separator, PiecesOfVisits(cfg, EMPTY_SLOT, visits[w]));
    }
  }

  /** One root adds its piece to the main buffer. */
  lemma RootAddsPiece(cfg: Config, mem: Memory, main: Slot, pieces: seq<Piece>, root: Root)
    requires main.bytes == BytesOfPieces(cfg.separator, pieces) && main.emitted == |Counted(pieces)|
    ensures var main', more := RecordedIn(cfg.separator, mem, main, RootEvent(cfg, root)).0, PieceOf(mem, RootEvent(cfg, root));
            main'.bytes == BytesOfPieces(cfg.separator, pieces + more) && main'.emitted == |Counted(pieces + more)|
  {
    var event := RootEvent(cfg, root);
    PiecesConcat(cfg.separator, pieces, PieceOf(mem, event));
    if event.Some? && mem.path {
      BytesOfPiece(cfg.separator, if mem.separator then Whole(event.value) else Cut(event.value));
      Associative(main.bytes, event.value, [cfg.separator]);
    }
  }

  lemma {:induction false} MergeKeepsPieces(separator: char, slots: seq<Slot>, histories: seq<seq<Piece>>, room: nat)
    requires SlotsHold(separator, slots, histories)
    ensures BytesOf(Gather(slots, room)) == BytesOfPieces(separator, GatheredPieces(slots, histories, room))
    ensures EmittedOf(Gather(slots, room)) == |Counted(GatheredPieces(slots, histories, room))|
    decreases |slots|
  {
    if slots != [] {
      var more := if Usable(slots[0]) && room > 0 then room - 1 else room;
      MergeKeepsPieces(separator, slots[1..], histories[1..], more);
      PiecesConcat(separator, histories[0], GatheredPieces(slots[1..], histories[1..], more));
    }
  }

  /** The merged stream is the framing of the counted records exactly when no gathered buffer holds a torn
      path; and a reader gets them back exactly when no torn path is followed by a whole record, of the same
      buffer or of a later one. */
  lemma MergedStreamIsWholeIff(separator: char, slots: seq<Slot>, histories: seq<seq<Piece>>, room: nat)
    requires SlotsHold(separator, slots, histories)
    ensures var merged, ps := BytesOf(Gather(slots, room)), GatheredPieces(slots, histories, room);
            && EmittedOf(Gather(slots, room)) == |Counted(ps)|
            && (merged == Frame(separator, Counted(ps)) <==> NothingCut(ps))
            && (PlainPaths(separator, ps) ==> (Split(separator, merged) == Counted(ps) <==> CutsTrail(ps)))
  {
    var ps := GatheredPieces(slots, histories, room);
    MergeKeepsPieces(separator, slots, histories, room);
    FramedIffNothingCut(separator, ps);
    if PlainPaths(separator, ps) {
      ReadBackIff(separator, ps);
    }
  }

  /** Of two buffers that a reader of each alone gets back, the two together read back exactly when the
      first ends in no torn path or the second has no whole record. */
  lemma {:induction false} TornTailRunsOnIff(a: seq<Piece>, b: seq<Piece>)
    requires CutsTrail(a) && CutsTrail(b)
    ensures CutsTrail(a + b) <==> NothingCut(a) || Counted(b) == []
  {
    if a == [] {
      assert a + b == b;
    } else {
      TornTailRunsOnIff(a[1..], b);
      PiecesConcat('\n', a[1..], b);
      assert (a + b)[0] == a[0] && (a + b)[1..] == a[1..] + b && a == [a[0]] + a[1..];
      assert NothingCut(a) <==> (a[0].Cut? ==> a[0].path == "") && NothingCut(a[1..]);
    }
  }
}
