/**
 * What a transfer amounts to, as a function of the accepted payloads in arrival order: the file
 * image, the covered offsets, the hashed stream and the slot history.
 */
module Transfer {
  import opened MavlinkLog
  import opened Intervals
  import opened Crc32
  import opened ChunkCoverage

  /** One LOG_DATA message; its count is the length of its data, an 8-bit field. */
  datatype Chunk = Chunk(offset: nat, data: seq<byte>)

  type WireChunk = c: Chunk | c.offset < U32 && |c.data| <= 255 witness Chunk(0, [])

  /** An accepted payload, clipped to the end of the log. */
  datatype Piece = Piece(ofs: nat, data: seq<byte>)

  /** The payload a chunk contributes to a transfer of `total` bytes: none, or one non-empty piece. */
  function Clip(c: Chunk, total: nat): seq<Piece> {
    if c.offset >= total || c.data == [] then []
    else if c.offset + |c.data| > total then [Piece(c.offset, c.data[..total - c.offset])]
    else [Piece(c.offset, c.data)]
  }

  ghost predicate Within(ps: seq<Piece>, total: nat) {
    forall i :: 0 <= i < |ps| ==> 0 < |ps[i].data| <= 255 && ps[i].ofs + |ps[i].data| <= total
  }

  // ---- The four views ----

  ghost function Covered(ps: seq<Piece>): set<int> {
    if ps == [] then {}
    else Covered(ps[..|ps| - 1]) + Interval(ps[|ps| - 1].ofs, ps[|ps| - 1].ofs + |ps[|ps| - 1].data|)
  }

  function Stream(ps: seq<Piece>): seq<byte> {
    if ps == [] then [] else Stream(ps[..|ps| - 1]) + ps[|ps| - 1].data
  }

  /** Seek to `ofs` and write: a gap behind the end of the file reads as zeros. */
  function WriteAt(file: seq<byte>, ofs: nat, data: seq<byte>): (r: seq<byte>)
    ensures |r| == if |file| < ofs + |data| then ofs + |data| else |file|
    ensures forall x :: ofs <= x < ofs + |data| ==> r[x] == data[x - ofs]
    ensures forall x :: 0 <= x < |file| && !(ofs <= x < ofs + |data|) ==> r[x] == file[x]
  {
    var f := if |file| < ofs then file + seq(ofs - |file|, _ => 0) else file;
    f[..ofs] + data + if ofs + |data| < |f| then f[ofs + |data|..] else []
  }

  function Image(ps: seq<Piece>): seq<byte> {
    if ps == [] then [] else WriteAt(Image(ps[..|ps| - 1]), ps[|ps| - 1].ofs, ps[|ps| - 1].data)
  }

  ghost function Marks(ps: seq<Piece>, slotCount: nat, detect: bool): seq<Mark> {
    if ps == [] then []
    else Marks(ps[..|ps| - 1], slotCount, detect) +
         ChunkCoverageTracker.MarksFor(slotCount, ps[|ps| - 1].ofs, ps[|ps| - 1].data, detect)
  }

  lemma {:induction false} Snoc(ps: seq<Piece>, p: Piece, slotCount: nat, detect: bool)
    ensures Covered(ps + [p]) == Covered(ps) + Interval(p.ofs, p.ofs + |p.data|)
    ensures Stream(ps + [p]) == Stream(ps) + p.data
    ensures Image(ps + [p]) == WriteAt(Image(ps), p.ofs, p.data)
    ensures Marks(ps + [p], slotCount, detect) ==
            Marks(ps, slotCount, detect) + ChunkCoverageTracker.MarksFor(slotCount, p.ofs, p.data, detect)
  {
    assert (ps + [p])[..|ps|] == ps;
  }

  lemma {:induction false} CoveredSnoc(ps: seq<Piece>, p: Piece)
    ensures Covered(ps + [p]) == Covered(ps) + Interval(p.ofs, p.ofs + |p.data|)
  {
    assert (ps + [p])[..|ps|] == ps;
  }

  lemma {:induction false} CoveredWithin(ps: seq<Piece>, total: nat)
    requires Within(ps, total)
    ensures Covered(ps) <= Interval(0, total)
  {
    if ps != [] {
      CoveredWithin(ps[..|ps| - 1], total);
    }
  }

  // ---- The file is exact ----

  /** The payload is what the log holds at that offset. */
  ghost predicate Matches(p: Piece, log: seq<byte>) {
    p.ofs + |p.data| <= |log| && forall i :: 0 <= i < |p.data| ==> p.data[i] == log[p.ofs + i]
  }

  ghost predicate AllMatch(ps: seq<Piece>, log: seq<byte>) {
    forall i :: 0 <= i < |ps| ==> Matches(ps[i], log)
  }

  /** Every covered offset of the file holds the log's byte, whatever order the pieces came in. */
  lemma {:induction false} ImageMatches(ps: seq<Piece>, total: nat, log: seq<byte>)
    requires Within(ps, total) && AllMatch(ps, log)
    ensures |Image(ps)| <= total
    ensures forall x :: x in Covered(ps) ==> 0 <= x < |Image(ps)| && x < |log| && Image(ps)[x] == log[x]
  {
    if ps != [] {
      var front, last := ps[..|ps| - 1], ps[|ps| - 1];
      ImageMatches(front, total, log);
      assert Matches(last, log);
      forall x | x in Covered(ps) ensures 0 <= x < |Image(ps)| && x < |log| && Image(ps)[x] == log[x] {
        if last.ofs <= x < last.ofs + |last.data| {
          assert last.data[x - last.ofs] == log[last.ofs + (x - last.ofs)];
        } else {
          assert x in Covered(front);
        }
      }
    }
  }

  /** A complete transfer of matching payloads is the log, byte for byte. */
  lemma {:induction false} CompleteIsExact(ps: seq<Piece>, total: nat, log: seq<byte>)
    requires Within(ps, total) && AllMatch(ps, log) && total <= |log|
    requires Covered(ps) == Interval(0, total)
    ensures Image(ps) == log[..total]
  {
    ImageMatches(ps, total, log);
    if total > 0 {
      assert total - 1 in Covered(ps);
    }
    SamePrefix(Image(ps), Covered(ps), log, total);
  }

  lemma {:induction false} SamePrefix(image: seq<byte>, covered: set<int>, log: seq<byte>, total: nat)
    requires |image| == total <= |log| && covered == Interval(0, total)
    requires forall x :: x in covered ==> 0 <= x < |image| && x < |log| && image[x] == log[x]
    ensures image == log[..total]
  {
    forall x | 0 <= x < total ensures image[x] == log[x] {
      assert x in covered;
    }
  }

  // ---- The two trackers ----

  /** Chunk-aligned, and a full chunk unless it reaches the end of the log. */
  ghost predicate SlotShaped(p: Piece, total: nat) {
    p.ofs % CHUNK == 0 && 0 < |p.data| <= CHUNK && p.ofs + |p.data| <= total &&
    (|p.data| == CHUNK || p.ofs + |p.data| == total)
  }

  /** The offsets of one slot of a log of `total` bytes. */
  ghost function SlotBytes(slot: int, total: nat): set<int> {
    Interval(slot * CHUNK, if (slot + 1) * CHUNK <= total then (slot + 1) * CHUNK else total)
  }

  ghost predicate IsUnionOfSlots(bytes: set<int>, slots: set<int>, total: nat) {
    forall x :: 0 <= x < total ==> (x in bytes <==> x / CHUNK in slots)
  }

  lemma {:induction false} SlotShapedIsSlot(p: Piece, total: nat)
    requires SlotShaped(p, total)
    ensures Interval(p.ofs, p.ofs + |p.data|) == SlotBytes(ChunkSlotIndex(p.ofs), total)
    ensures ChunkSlotIndex(p.ofs) < ChunkCountForSize(total)
    ensures forall x :: 0 <= x < total ==> (p.ofs <= x < p.ofs + |p.data| <==> x / CHUNK == ChunkSlotIndex(p.ofs))
  {
  }

  lemma {:induction false} UnionSnoc(bytes: set<int>, slots: set<int>, p: Piece, total: nat)
    requires IsUnionOfSlots(bytes, slots, total) && SlotShaped(p, total)
    ensures IsUnionOfSlots(bytes + Interval(p.ofs, p.ofs + |p.data|), slots + {ChunkSlotIndex(p.ofs)}, total)
    ensures ChunkSlotIndex(p.ofs) < ChunkCountForSize(total)
  {
    SlotShapedIsSlot(p, total);
  }

  /** The covered offsets are exactly those of the received slots, at every point of the session. */
  lemma {:induction false} TrackersAgree(ps: seq<Piece>, total: nat, detect: bool)
    requires forall i :: 0 <= i < |ps| ==> SlotShaped(ps[i], total)
    ensures IsUnionOfSlots(Covered(ps), Slots(Marks(ps, ChunkCountForSize(total), detect)), total)
    ensures Slots(Marks(ps, ChunkCountForSize(total), detect)) <= Interval(0, ChunkCountForSize(total))
  {
    if ps != [] {
      var n := ChunkCountForSize(total);
      var front, last := ps[..|ps| - 1], ps[|ps| - 1];
      TrackersAgree(front, total, detect);
      var h := Marks(front, n, detect);
      UnionSnoc(Covered(front), Slots(h), last, total);
      SlotsSnoc(h, Mark(ChunkSlotIndex(last.ofs), Fingerprint(last.data), detect));
    }
  }

  /** So the ranges are complete exactly when the bitmap is. */
  lemma {:induction false} CompletionAgrees(ps: seq<Piece>, total: nat, detect: bool)
    requires forall i :: 0 <= i < |ps| ==> SlotShaped(ps[i], total)
    ensures Covered(ps) == Interval(0, total) <==>
            Slots(Marks(ps, ChunkCountForSize(total), detect)) == Interval(0, ChunkCountForSize(total))
  {
    TrackersAgree(ps, total, detect);
    CoveredWithin(ps, total);
    var n := ChunkCountForSize(total);
    var slots := Slots(Marks(ps, n, detect));
    if Covered(ps) == Interval(0, total) {
      forall s | 0 <= s < n ensures s in slots {
        assert s * CHUNK in Covered(ps);
        assert (s * CHUNK) / CHUNK == s;
      }
    }
    if slots == Interval(0, n) {
      forall x | 0 <= x < total ensures x in Covered(ps) {
        assert x / CHUNK in slots;
      }
    }
  }

  // ---- Overlap detection ----

  lemma {:induction false} MarksDetect(ps: seq<Piece>, n: nat, detect: bool)
    ensures forall k :: 0 <= k < |Marks(ps, n, detect)| ==> Marks(ps, n, detect)[k].detect == detect
    ensures !detect ==> Conflicts(Marks(ps, n, detect)) == 0
  {
    if ps != [] {
      var last := ps[|ps| - 1];
      var h := Marks(ps[..|ps| - 1], n, detect);
      MarksDetect(ps[..|ps| - 1], n, detect);
      ChunkCoverage.Snoc(h, Mark(ChunkSlotIndex(last.ofs), Fingerprint(last.data), detect));
      assert h + [] == h;
    }
  }

  /** Matching slot-shaped payloads never raise an overlap conflict. */
  lemma {:induction false} MatchingSlotsNeverConflict(ps: seq<Piece>, total: nat, log: seq<byte>)
    requires AllMatch(ps, log) && forall i :: 0 <= i < |ps| ==> SlotShaped(ps[i], total)
    ensures Conflicts(Marks(ps, ChunkCountForSize(total), true)) == 0
    ensures forall s: nat :: s in Slots(Marks(ps, ChunkCountForSize(total), true)) ==>
              FirstPrint(Marks(ps, ChunkCountForSize(total), true), s) == SlotPrint(s, total, log)
  {
    if ps != [] {
      var n := ChunkCountForSize(total);
      var front, last := ps[..|ps| - 1], ps[|ps| - 1];
      MatchingSlotsNeverConflict(front, total, log);
      assert Matches(last, log);
      SlotShapedIsSlot(last, total);
      PieceIsSlotData(last, total, log);
      ChunkCoverage.Snoc(Marks(front, n, true), Mark(ChunkSlotIndex(last.ofs), Fingerprint(last.data), true));
    }
  }

  /** The bytes of the log in one slot. */
  ghost function SlotData(slot: nat, total: nat, log: seq<byte>): seq<byte> {
    var hi := if (slot + 1) * CHUNK <= total then (slot + 1) * CHUNK else total;
    if slot * CHUNK <= hi <= |log| then log[slot * CHUNK..hi] else []
  }

  ghost function SlotPrint(slot: nat, total: nat, log: seq<byte>): Word {
    Fingerprint(SlotData(slot, total, log))
  }

  lemma {:induction false} PieceIsSlotData(p: Piece, total: nat, log: seq<byte>)
    requires SlotShaped(p, total) && Matches(p, log)
    ensures p.data == SlotData(ChunkSlotIndex(p.ofs), total, log)
  {
    var slot := ChunkSlotIndex(p.ofs);
    assert p.ofs == slot * CHUNK;
    assert p.data == log[p.ofs..p.ofs + |p.data|];
  }
}
