/**
 * Overlap detection compares fingerprints of zero-padded payloads. This module settles when agreeing
 * payloads, all cut from one log, can still be taken for contradicting ones.
 */
module Overlaps {
  import opened MavlinkLog
  import opened Triggers
  import opened Crc32
  import opened ChunkCoverage
  import opened Transfer
  import opened DeliveryOrder

  // ---- Conflicts in terms of the payloads ----

  /** The tracker looks at this payload. */
  predicate Recorded(p: Piece, slotCount: nat) {
    p.data != [] && p.ofs % CHUNK == 0 && ChunkSlotIndex(p.ofs) < slotCount
  }

  lemma {:induction false} MarkOfPiece(ps: seq<Piece>, n: nat, k: nat) returns (i: nat)
    requires k < |ps| && Recorded(ps[k], n)
    ensures i < |Marks(ps, n, true)|
    ensures Marks(ps, n, true)[i] == Mark(ChunkSlotIndex(ps[k].ofs), Fingerprint(ps[k].data), true)
    decreases |ps|
  {
    var front := ps[..|ps| - 1];
    if k == |ps| - 1 {
      i := |Marks(front, n, true)|;
    } else {
      i := MarkOfPiece(front, n, k);
    }
  }

  lemma {:induction false} PieceOfMark(ps: seq<Piece>, n: nat, i: nat) returns (k: nat)
    requires i < |Marks(ps, n, true)|
    ensures k < |ps| && Recorded(ps[k], n)
    ensures Marks(ps, n, true)[i] == Mark(ChunkSlotIndex(ps[k].ofs), Fingerprint(ps[k].data), true)
    decreases |ps|
  {
    var front := ps[..|ps| - 1];
    if i < |Marks(front, n, true)| {
      k := PieceOfMark(front, n, i);
    } else {
      k := |ps| - 1;
    }
  }

  ghost predicate PrintsAgree(ps: seq<Piece>, n: nat) {
    forall i, j :: 0 <= i < |ps| && 0 <= j < |ps| && Recorded(ps[i], n) && Recorded(ps[j], n) && ps[i].ofs == ps[j].ofs ==>
      Fingerprint(ps[i].data) == Fingerprint(ps[j].data)
  }

  /** No conflict is counted if and only if the recorded payloads of each slot share a fingerprint. */
  lemma {:induction false} NoConflictIffPrintsAgree(ps: seq<Piece>, n: nat)
    ensures Conflicts(Marks(ps, n, true)) == 0 <==> PrintsAgree(ps, n)
  {
    var h := Marks(ps, n, true);
    MarksDetect(ps, n, true);
    NoConflictIffOnePrint(h);
    if OnePrintPerSlot(h) {
      forall i, j | 0 <= i < |ps| && 0 <= j < |ps| && Recorded(ps[i], n) && Recorded(ps[j], n) && ps[i].ofs == ps[j].ofs
        ensures Fingerprint(ps[i].data) == Fingerprint(ps[j].data)
      {
        var a := MarkOfPiece(ps, n, i);
        var b := MarkOfPiece(ps, n, j);
        assert h[a].slot == h[b].slot;
      }
    }
    if PrintsAgree(ps, n) {
      forall a, b | 0 <= a < |h| && 0 <= b < |h| && h[a].slot == h[b].slot ensures h[a].fp == h[b].fp {
        var i := PieceOfMark(ps, n, a);
        var j := PieceOfMark(ps, n, b);
        assert ps[i].ofs == ps[j].ofs;
      }
    }
  }

  // ---- Payloads cut from a log ----

  /** The payloads of these shapes, cut from the log. */
  function PiecesOf(shapes: seq<Shape>, log: seq<byte>): (ps: seq<Piece>)
    ensures |ps| == |shapes| && forall i :: 0 <= i < |ps| ==> ps[i] == Piece(shapes[i].ofs, Slice(log, shapes[i]))
  {
    seq(|shapes|, i requires 0 <= i < |shapes| => Piece(shapes[i].ofs, Slice(log, shapes[i])))
  }

  /** As much of a payload as the fingerprint sees. */
  function SeenLength(s: Shape): nat {
    if s.len < CHUNK then s.len else CHUNK
  }

  /** Aligned payloads of one slot are seen at one length. */
  predicate SameSeenLengths(shapes: seq<Shape>) {
    forall i, j :: 0 <= i < |shapes| && 0 <= j < |shapes| && shapes[i].ofs == shapes[j].ofs && shapes[i].ofs % CHUNK == 0 ==>
      SeenLength(shapes[i]) == SeenLength(shapes[j])
  }

  lemma {:induction false} SamePadding(log: seq<byte>, s: Shape, t: Shape)
    requires s.ofs == t.ofs && s.ofs + s.len <= |log| && t.ofs + t.len <= |log| && SeenLength(s) == SeenLength(t)
    ensures Padded(Slice(log, s)) == Padded(Slice(log, t))
  {
    if s.len != t.len {
      assert Slice(log, s)[..CHUNK] == Slice(log, t)[..CHUNK];
    }
  }

  /** The log that is zero but for one byte. */
  function Spike(total: nat, at: nat, v: byte): seq<byte> {
    seq(total, x => if x == at then v else 0)
  }

  /** The padding of a slice of a spiked log: the spike shows if the slice reaches it. */
  lemma {:induction false} SpikePadding(total: nat, s: Shape, k: nat, v: byte)
    requires s.ofs + s.len <= total && s.ofs + k < total && k < CHUNK
    ensures var data := Slice(Spike(total, s.ofs + k, v), s);
            Padded(data) == Spike(CHUNK, k, if k < s.len then v else 0)
  {
    var data := Slice(Spike(total, s.ofs + k, v), s);
    forall i | 0 <= i < CHUNK ensures Padded(data)[i] == Spike(CHUNK, k, if k < s.len then v else 0)[i] {
      if i < s.len {
        assert data[i] == Spike(total, s.ofs + k, v)[s.ofs + i];
      }
    }
  }

  /** The spike value shows in the fingerprint. */
  ghost predicate Shows(k: nat, v: byte) {
    forall x {:trigger Unfold(x)} :: Unfold(x) && x == v ==>
      NonEmptyPrint(Crc(Spike(CHUNK, k, x), 0)) != NonEmptyPrint(Crc(Spike(CHUNK, k, 0), 0))
  }

  /** At most one spike value can hide behind the fold of 0 onto 1. */
  lemma {:induction false} SomeSpikeShows(k: nat) returns (v: byte)
    requires k < CHUNK
    ensures Shows(k, v)
  {
    var flat := Spike(CHUNK, k, 0);
    CrcSeparates(Spike(CHUNK, k, 1), flat, k, 0);
    CrcSeparates(Spike(CHUNK, k, 2), flat, k, 0);
    CrcSeparates(Spike(CHUNK, k, 1), Spike(CHUNK, k, 2), k, 0);
    v := if NonEmptyPrint(Crc(Spike(CHUNK, k, 1), 0)) != NonEmptyPrint(Crc(flat, 0)) then 1 else 2;
    OneHides(Crc(flat, 0), Crc(Spike(CHUNK, k, 1), 0), Crc(Spike(CHUNK, k, 2), 0));
  }

  lemma {:induction false} OneHides(a: Word, b: Word, c: Word)
    requires a != b && a != c && b != c
    ensures NonEmptyPrint(b) != NonEmptyPrint(a) || NonEmptyPrint(c) != NonEmptyPrint(a)
  {
  }

  lemma {:induction false} PrintsByPadding(p: seq<byte>, q: seq<byte>, k: nat, v: byte)
    requires Padded(p) == Spike(CHUNK, k, 0) && Padded(q) == Spike(CHUNK, k, v) && Shows(k, v)
    ensures Fingerprint(p) != Fingerprint(q)
  {
    assert Unfold(v);
  }

  /** A shorter and a longer payload of one slot: some log makes the fingerprints differ. */
  lemma {:induction false} ShorterConflicts(s: Shape, t: Shape, total: nat) returns (log: seq<byte>)
    requires s.ofs == t.ofs && s.ofs + s.len <= total && t.ofs + t.len <= total && SeenLength(s) < SeenLength(t)
    ensures |log| == total && Fingerprint(Slice(log, s)) != Fingerprint(Slice(log, t))
  {
    var v := SomeSpikeShows(s.len);
    log := Spike(total, s.ofs + s.len, v);
    SpikePadding(total, s, s.len, v);
    SpikePadding(total, t, s.len, v);
    PrintsByPadding(Slice(log, s), Slice(log, t), s.len, v);
  }

  lemma {:induction false} LengthsConflict(s: Shape, t: Shape, total: nat) returns (log: seq<byte>)
    requires s.ofs == t.ofs && s.ofs + s.len <= total && t.ofs + t.len <= total && SeenLength(s) != SeenLength(t)
    ensures |log| == total && Fingerprint(Slice(log, s)) != Fingerprint(Slice(log, t))
  {
    if SeenLength(s) < SeenLength(t) {
      log := ShorterConflicts(s, t, total);
    } else {
      log := ShorterConflicts(t, s, total);
    }
  }

  /** A log on which payloads of different lengths for one slot are taken for a contradiction. */
  lemma {:induction false} FalseConflict(shapes: seq<Shape>, total: nat) returns (log: seq<byte>)
    requires Fit(shapes, total) && !SameSeenLengths(shapes)
    ensures |log| == total && AllMatch(PiecesOf(shapes, log), log)
    ensures Conflicts(Marks(PiecesOf(shapes, log), ChunkCountForSize(total), true)) > 0
  {
    var i, j :| 0 <= i < |shapes| && 0 <= j < |shapes| && shapes[i].ofs == shapes[j].ofs && shapes[i].ofs % CHUNK == 0
                && SeenLength(shapes[i]) != SeenLength(shapes[j]);
    log := LengthsConflict(shapes[i], shapes[j], total);
    PiecesMatch(shapes, log);
    PrintsDiffer(shapes, log, i, j);
    NoConflictIffPrintsAgree(PiecesOf(shapes, log), ChunkCountForSize(total));
  }

  lemma {:induction false} PiecesMatch(shapes: seq<Shape>, log: seq<byte>)
    requires Fit(shapes, |log|)
    ensures AllMatch(PiecesOf(shapes, log), log)
  {
  }

  lemma {:induction false} PrintsDiffer(shapes: seq<Shape>, log: seq<byte>, i: nat, j: nat)
    requires Fit(shapes, |log|) && i < |shapes| && j < |shapes| && shapes[i].ofs == shapes[j].ofs
    requires shapes[i].ofs % CHUNK == 0 && Fingerprint(Slice(log, shapes[i])) != Fingerprint(Slice(log, shapes[j]))
    ensures !PrintsAgree(PiecesOf(shapes, log), ChunkCountForSize(|log|))
  {
    var ps := PiecesOf(shapes, log);
    InsideIsRecorded(shapes[i], log, |log|);
    InsideIsRecorded(shapes[j], log, |log|);
    assert ps[i].ofs == ps[j].ofs;
  }

  lemma {:induction false} InsideIsRecorded(s: Shape, log: seq<byte>, total: nat)
    requires s.len > 0 && s.ofs + s.len <= total == |log| && s.ofs % CHUNK == 0
    ensures Recorded(Piece(s.ofs, Slice(log, s)), ChunkCountForSize(total))
  {
  }

  /**
   * Payloads of these shapes are free of conflicts whatever log they are cut from, if and only if the
   * aligned payloads of each slot have the same length up to a chunk.
   */
  lemma {:induction false} NoFalseConflictIff(shapes: seq<Shape>, total: nat)
    requires Fit(shapes, total)
    ensures (forall log: seq<byte> :: |log| == total ==>
               Conflicts(Marks(PiecesOf(shapes, log), ChunkCountForSize(total), true)) == 0) <==>
            SameSeenLengths(shapes)
  {
    if SameSeenLengths(shapes) {
      forall log: seq<byte> | |log| == total
        ensures Conflicts(Marks(PiecesOf(shapes, log), ChunkCountForSize(total), true)) == 0
      {
        SameLengthsAgree(shapes, log, ChunkCountForSize(total));
        NoConflictIffPrintsAgree(PiecesOf(shapes, log), ChunkCountForSize(total));
      }
    } else {
      var log := FalseConflict(shapes, total);
    }
  }

  lemma {:induction false} SameLengthsAgree(shapes: seq<Shape>, log: seq<byte>, n: nat)
    requires Fit(shapes, |log|) && SameSeenLengths(shapes)
    ensures PrintsAgree(PiecesOf(shapes, log), n)
  {
    var ps := PiecesOf(shapes, log);
    forall i, j | 0 <= i < |ps| && 0 <= j < |ps| && Recorded(ps[i], n) && Recorded(ps[j], n) && ps[i].ofs == ps[j].ofs
      ensures Fingerprint(ps[i].data) == Fingerprint(ps[j].data)
    {
      SamePadding(log, shapes[i], shapes[j]);
    }
  }
}
