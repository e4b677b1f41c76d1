/**
 * What answered gap requests mean for the session, which succeeds only when the byte ranges and the slot
 * bitmap are both complete and no overlap conflict stopped it before.
 */
module Convergence {
  import opened MavlinkLog
  import opened Intervals
  import opened ReceivedRanges
  import opened ChunkCoverage
  import opened Transfer
  import opened GapFill
  import opened DeliveryOrder
  import opened Overlaps

  /** The session's exit test, on the history of accepted payloads. */
  ghost predicate Finished(ps: seq<Piece>, total: nat, detect: bool) {
    && Covered(ps) == Interval(0, total)
    && Slots(Marks(ps, ChunkCountForSize(total), detect)) == Interval(0, ChunkCountForSize(total))
  }

  /** The exit test holds and no payload was refused as a conflict on the way. */
  ghost predicate Succeeds(ps: seq<Piece>, total: nat, detect: bool) {
    Finished(ps, total, detect) && Conflicts(Marks(ps, ChunkCountForSize(total), detect)) == 0
  }

  /** Some payload started on the slot's boundary. */
  ghost predicate HasAligned(ps: seq<Piece>, slot: nat) {
    exists k :: 0 <= k < |ps| && ps[k].ofs == slot * CHUNK
  }

  lemma {:induction false} AlignedSnoc(ps: seq<Piece>, slot: nat)
    requires ps != []
    ensures HasAligned(ps, slot) <==> HasAligned(ps[..|ps| - 1], slot) || ps[|ps| - 1].ofs == slot * CHUNK
  {
    var front := ps[..|ps| - 1];
    if k :| 0 <= k < |front| && front[k].ofs == slot * CHUNK {
      assert ps[k].ofs == slot * CHUNK;
    }
    if k :| 0 <= k < |ps| && ps[k].ofs == slot * CHUNK {
      assert k < |front| ==> front[k].ofs == slot * CHUNK;
    }
  }

  /** The bitmap has a slot if and only if a payload started on its boundary. */
  lemma {:induction false} SlotMarkedIff(ps: seq<Piece>, total: nat, detect: bool, slot: nat)
    requires Within(ps, total)
    ensures slot in Slots(Marks(ps, ChunkCountForSize(total), detect)) <==> HasAligned(ps, slot)
  {
    if ps != [] {
      var front, last, n := ps[..|ps| - 1], ps[|ps| - 1], ChunkCountForSize(total);
      SlotMarkedIff(front, total, detect, slot);
      AlignedSnoc(ps, slot);
      LastMark(front, last, n, detect, slot);
      assert last.ofs < total;
    }
  }

  lemma {:induction false} LastMark(front: seq<Piece>, last: Piece, n: nat, detect: bool, slot: nat)
    requires last.data != [] && ChunkSlotIndex(last.ofs) < n
    ensures slot in Slots(Marks(front, n, detect) + ChunkCoverageTracker.MarksFor(n, last.ofs, last.data, detect)) <==>
            slot in Slots(Marks(front, n, detect)) || last.ofs == slot * CHUNK
  {
    var h := Marks(front, n, detect);
    SlotsSnoc(h, Mark(ChunkSlotIndex(last.ofs), Fingerprint(last.data), detect));
    assert h + [] == h;
  }

  lemma {:induction false} MarkedInside(ps: seq<Piece>, total: nat, detect: bool)
    requires Within(ps, total)
    ensures Slots(Marks(ps, ChunkCountForSize(total), detect)) <= Interval(0, ChunkCountForSize(total))
  {
    if ps != [] {
      var last, n := ps[|ps| - 1], ChunkCountForSize(total);
      MarkedInside(ps[..|ps| - 1], total, detect);
      var h := Marks(ps[..|ps| - 1], n, detect);
      SlotsSnoc(h, Mark(ChunkSlotIndex(last.ofs), Fingerprint(last.data), detect));
      assert h + [] == h;
    }
  }

  /** The exit test: every byte is covered, and every slot had a payload that started on its boundary. */
  lemma {:induction false} FinishedIff(ps: seq<Piece>, total: nat, detect: bool)
    requires Within(ps, total)
    ensures Finished(ps, total, detect) <==>
            Covered(ps) == Interval(0, total) && forall slot: nat :: slot < ChunkCountForSize(total) ==> HasAligned(ps, slot)
  {
    MarkedInside(ps, total, detect);
    forall slot: nat ensures slot in Slots(Marks(ps, ChunkCountForSize(total), detect)) <==> HasAligned(ps, slot) {
      SlotMarkedIff(ps, total, detect, slot);
    }
  }

  ghost predicate EverySlotAligned(ps: seq<Piece>, total: nat) {
    forall slot: nat :: slot < ChunkCountForSize(total) ==> HasAligned(ps, slot)
  }

  /** A session succeeds if and only if bytes, slot starts and, with detection on, fingerprints are as they should be. */
  lemma {:induction false} SucceedsIff(ps: seq<Piece>, total: nat, detect: bool)
    requires Within(ps, total)
    ensures Succeeds(ps, total, detect) <==>
            && Covered(ps) == Interval(0, total) && EverySlotAligned(ps, total)
            && (detect ==> PrintsAgree(ps, ChunkCountForSize(total)))
  {
    FinishedIff(ps, total, detect);
    NoConflictIffPrintsAgree(ps, ChunkCountForSize(total));
    MarksDetect(ps, ChunkCountForSize(total), detect);
  }

  /**
   * After two fully answered rounds, whatever else arrived, the session succeeds if and only if every slot had a
   * payload that started on its boundary and, with detection on, the payloads of each slot share a fingerprint.
   */
  lemma {:induction false} TwoRoundsSucceedIff(total: nat, detect: bool, ps0: seq<Piece>, ps1: seq<Piece>, ps2: seq<Piece>,
                                               g0: seq<Range>, g1: seq<Range>)
    requires Within(ps2, total) && GapsOf(g0, total, Covered(ps0)) && GapsOf(g1, total, Covered(ps1))
    requires Covered(ps0) + Requested(g0) <= Covered(ps1) && Covered(ps1) + Requested(g1) <= Covered(ps2)
    ensures Covered(ps2) == Interval(0, total)
    ensures Succeeds(ps2, total, detect) <==>
            EverySlotAligned(ps2, total) && (detect ==> PrintsAgree(ps2, ChunkCountForSize(total)))
  {
    CoveredWithin(ps2, total);
    TwoRoundsCoverBytes(total, Covered(ps0), Covered(ps1), Covered(ps2), g0, g1);
    SucceedsIff(ps2, total, detect);
  }

  /** When every payload is slot-shaped and cut from one log, two fully answered rounds make the session succeed. */
  lemma {:induction false} TwoRoundsSucceedSlots(total: nat, detect: bool, ps0: seq<Piece>, ps1: seq<Piece>, ps2: seq<Piece>,
                                                 g0: seq<Range>, g1: seq<Range>, log: seq<byte>)
    requires Within(ps2, total) && AllMatch(ps2, log) && forall i :: 0 <= i < |ps2| ==> SlotShaped(ps2[i], total)
    requires GapsOf(g0, total, Covered(ps0)) && GapsOf(g1, total, Covered(ps1))
    requires Covered(ps0) + Requested(g0) <= Covered(ps1) && Covered(ps1) + Requested(g1) <= Covered(ps2)
    ensures Succeeds(ps2, total, detect)
  {
    TwoRoundsSucceedIff(total, detect, ps0, ps1, ps2, g0, g1);
    CompletionAgrees(ps2, total, detect);
    MatchingSlotsNeverConflict(ps2, total, log);
    MarksDetect(ps2, ChunkCountForSize(total), detect);
  }

  // ---- Whatever the log holds ----

  /** The offsets that payloads of these shapes cover. */
  ghost function Spanned(shapes: seq<Shape>): set<int> {
    if shapes == [] then {}
    else Spanned(shapes[..|shapes| - 1]) + Interval(shapes[|shapes| - 1].ofs, shapes[|shapes| - 1].ofs + shapes[|shapes| - 1].len)
  }

  ghost predicate EverySlotStarted(shapes: seq<Shape>, total: nat) {
    forall slot: nat :: slot < ChunkCountForSize(total) ==> Starts(shapes, slot)
  }

  ghost predicate Starts(shapes: seq<Shape>, slot: nat) {
    exists k :: 0 <= k < |shapes| && shapes[k].ofs == slot * CHUNK
  }

  /** Shapes of payloads as they arrive: inside the log and at most 255 bytes long. */
  ghost predicate Deliverable(shapes: seq<Shape>, total: nat) {
    Fit(shapes, total) && forall i :: 0 <= i < |shapes| ==> shapes[i].len <= 255
  }

  lemma {:induction false} SpannedIsCovered(shapes: seq<Shape>, log: seq<byte>)
    requires Fit(shapes, |log|)
    ensures Covered(PiecesOf(shapes, log)) == Spanned(shapes)
  {
    if shapes != [] {
      var front, last := shapes[..|shapes| - 1], shapes[|shapes| - 1];
      SpannedIsCovered(front, log);
      assert PiecesOf(shapes, log) == PiecesOf(front, log) + [Piece(last.ofs, Slice(log, last))];
      CoveredSnoc(PiecesOf(front, log), Piece(last.ofs, Slice(log, last)));
    }
  }

  lemma {:induction false} StartsIsAligned(shapes: seq<Shape>, log: seq<byte>, slot: nat)
    ensures HasAligned(PiecesOf(shapes, log), slot) <==> Starts(shapes, slot)
  {
    var ps := PiecesOf(shapes, log);
    if k :| 0 <= k < |shapes| && shapes[k].ofs == slot * CHUNK {
      assert ps[k].ofs == slot * CHUNK;
    }
  }

  lemma {:induction false} SucceedsOn(shapes: seq<Shape>, log: seq<byte>, detect: bool)
    requires Deliverable(shapes, |log|)
    ensures Succeeds(PiecesOf(shapes, log), |log|, detect) <==>
            && Spanned(shapes) == Interval(0, |log|) && EverySlotStarted(shapes, |log|)
            && (detect ==> Conflicts(Marks(PiecesOf(shapes, log), ChunkCountForSize(|log|), true)) == 0)
  {
    var ps := PiecesOf(shapes, log);
    assert Within(ps, |log|);
    SucceedsIff(ps, |log|, detect);
    SpannedIsCovered(shapes, log);
    NoConflictIffPrintsAgree(ps, ChunkCountForSize(|log|));
    forall slot: nat ensures HasAligned(ps, slot) <==> Starts(shapes, slot) {
      StartsIsAligned(shapes, log, slot);
    }
  }

  /** Cover every byte, start every slot and, with detection on, are seen at one length per slot. */
  ghost predicate Complete(shapes: seq<Shape>, total: nat, detect: bool) {
    Spanned(shapes) == Interval(0, total) && EverySlotStarted(shapes, total) && (detect ==> SameSeenLengths(shapes))
  }

  ghost predicate SucceedsOnEvery(shapes: seq<Shape>, total: nat, detect: bool) {
    forall log: seq<byte> :: |log| == total ==> Succeeds(PiecesOf(shapes, log), total, detect)
  }

  /** Payloads of these shapes make a session succeed, whatever log they are cut from, if and only if they are complete. */
  lemma {:induction false} AlwaysSucceedsIff(shapes: seq<Shape>, total: nat, detect: bool)
    requires Deliverable(shapes, total)
    ensures SucceedsOnEvery(shapes, total, detect) <==> Complete(shapes, total, detect)
  {
    if Complete(shapes, total, detect) {
      NoFalseConflictIff(shapes, total);
      forall log: seq<byte> | |log| == total ensures Succeeds(PiecesOf(shapes, log), total, detect) {
        SucceedsOn(shapes, log, detect);
      }
    }
    if SucceedsOnEvery(shapes, total, detect) {
      SuccessIsComplete(shapes, total, detect);
    }
  }

  lemma {:induction false} SuccessIsComplete(shapes: seq<Shape>, total: nat, detect: bool)
    requires Deliverable(shapes, total) && SucceedsOnEvery(shapes, total, detect)
    ensures Complete(shapes, total, detect)
  {
    var plain: seq<byte> := seq(total, _ => 0);
    SucceedsOn(shapes, plain, detect);
    if detect && !SameSeenLengths(shapes) {
      var log := Refused(shapes, total);
    }
  }

  /** Complete but for the lengths: on some log every byte is there and every slot started, and the session is stopped. */
  lemma {:induction false} Refused(shapes: seq<Shape>, total: nat) returns (log: seq<byte>)
    requires Deliverable(shapes, total) && Complete(shapes, total, false) && !SameSeenLengths(shapes)
    ensures |log| == total
    ensures var ps := PiecesOf(shapes, log); AllMatch(ps, log) && Finished(ps, total, true) && !Succeeds(ps, total, true)
  {
    log := FalseConflict(shapes, total);
    var ps := PiecesOf(shapes, log);
    assert Within(ps, total);
    SpannedIsCovered(shapes, log);
    forall slot: nat ensures HasAligned(ps, slot) <==> Starts(shapes, slot) {
      StartsIsAligned(shapes, log, slot);
    }
    FinishedIff(ps, total, true);
  }

  // ---- A session that covers every byte and is not done ----

  function Shifted(log: seq<byte>): Piece
    requires |log| == 180
  {
    Piece(5, log[5..95])
  }

  /** The exact answers to the two gap requests that a payload at offset 5 leaves. */
  function GapAnswers(log: seq<byte>): seq<Piece>
    requires |log| == 180
  {
    [Piece(0, log[..5]), Piece(95, log[95..])]
  }

  lemma {:induction false} ShiftedCovers(log: seq<byte>)
    requires |log| == 180
    ensures Covered([Shifted(log)]) == Interval(5, 95)
    ensures Covered([Shifted(log)] + GapAnswers(log)) == Interval(0, 180)
    ensures Covered(GapAnswers(log)) == Interval(0, 5) + Interval(95, 180)
  {
    var a, b, c := Shifted(log), GapAnswers(log)[0], GapAnswers(log)[1];
    CoveredSnoc([], a);
    CoveredSnoc([a], b);
    CoveredSnoc([a, b], c);
    CoveredSnoc([], b);
    CoveredSnoc([b], c);
    assert [] + [a] == [a] && [a] + [b] == [a, b] && [a, b] + [c] == [a] + [b, c];
    assert [] + [b] == [b] && [b] + [c] == [b, c];
  }

  lemma {:induction false} ShiftedGaps(received: set<int>)
    requires received == Interval(5, 95)
    ensures GapsOf([Range(0, 5), Range(95, 180)], 180, received)
    ensures Requested([Range(0, 5), Range(95, 180)]) == Interval(0, 5) + Interval(95, 180)
  {
    var g, k := Range(0, 5), Range(95, 180);
    assert [g, k][..1] == [g] && [g][..0] == [];
    assert RequestStart(g) == 0 && RequestStart(k) == 95;
    CanonicalSnoc([], g);
    CanonicalSnoc([g], k);
    BytesSnoc([], g);
    BytesSnoc([g], k);
    assert [] + [g] == [g] && [g] + [k] == [g, k];
  }

  /**
   * A payload off the chunk grid, then exactly what the gap requests ask for: every byte is there, so no
   * further gap is requested, and yet the second slot is never marked.
   */
  lemma {:induction false} CoveredIsNotFinished(log: seq<byte>, detect: bool)
    requires |log| == 180
    ensures var ps0, answers := [Shifted(log)], GapAnswers(log); var gaps := [Range(0, 5), Range(95, 180)];
            && GapsOf(gaps, 180, Covered(ps0)) && Requested(gaps) == Covered(answers)
            && AllMatch(ps0 + answers, log) && Covered(ps0 + answers) == Interval(0, 180)
            && !Finished(ps0 + answers, 180, detect)
  {
    var ps := [Shifted(log)] + GapAnswers(log);
    ShiftedCovers(log);
    ShiftedGaps(Covered([Shifted(log)]));
    assert Within(ps, 180) && !HasAligned(ps, 1) && 1 < ChunkCountForSize(180);
    FinishedIff(ps, 180, detect);
  }

  /** The same shapes, and then the retry stream delivers both chunks whole. */
  function RetryShapes(): seq<Shape> {
    [Shape(5, 90), Shape(0, 5), Shape(95, 85), Shape(0, 90), Shape(90, 90)]
  }

  /**
   * Every byte is there and every slot was started, by payloads that all agree with the log, and yet the session
   * is stopped: the answer to the first gap request and the whole first chunk are taken for a contradiction.
   */
  lemma {:induction false} RetryIsRefused() returns (log: seq<byte>)
    ensures |log| == 180
    ensures var ps := PiecesOf(RetryShapes(), log);
            AllMatch(ps, log) && Finished(ps, 180, true) && !Succeeds(ps, 180, true)
  {
    var shapes := RetryShapes();
    RetryIsComplete();
    assert shapes[1].ofs == shapes[3].ofs && SeenLength(shapes[1]) != SeenLength(shapes[3]);
    log := Refused(shapes, 180);
  }

  lemma {:induction false} RetryIsComplete()
    ensures Deliverable(RetryShapes(), 180) && Complete(RetryShapes(), 180, false)
  {
    var shapes := RetryShapes();
    assert shapes[3].ofs == 0 * CHUNK && shapes[4].ofs == 1 * CHUNK;
    assert Starts(shapes, 0) && Starts(shapes, 1) && ChunkCountForSize(180) == 2;
    assert shapes == shapes[..4] + [shapes[4]] && shapes[..4] == shapes[..3] + [shapes[3]];
    SpannedSnoc(shapes[..4], shapes[4]);
    SpannedSnoc(shapes[..3], shapes[3]);
    SpannedInside(shapes[..3], 180);
  }

  lemma {:induction false} SpannedSnoc(shapes: seq<Shape>, s: Shape)
    ensures Spanned(shapes + [s]) == Spanned(shapes) + Interval(s.ofs, s.ofs + s.len)
  {
    assert (shapes + [s])[..|shapes|] == shapes;
  }

  lemma {:induction false} SpannedInside(shapes: seq<Shape>, total: nat)
    requires Fit(shapes, total)
    ensures Spanned(shapes) <= Interval(0, total)
  {
    if shapes != [] {
      SpannedInside(shapes[..|shapes| - 1], total);
    }
  }
}
