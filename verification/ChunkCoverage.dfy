/** The packed slot bitmap with CRC fingerprints, seen as the history of recorded payloads. */
module ChunkCoverage {
  import opened MavlinkLog
  import opened Intervals
  import opened Crc32

  // ---- Packed bits ----

  function Bit(i: nat): byte
    requires i < 8
  {
    1 << i
  }

  lemma {:induction false} BitValue(i: nat)
    requires i < 8
    ensures Bit(i) == if i == 0 then 1 else if i == 1 then 2 else if i == 2 then 4 else if i == 3 then 8
                      else if i == 4 then 16 else if i == 5 then 32 else if i == 6 then 64 else 128
  {
  }

  lemma {:induction false} BitsDisjoint(i: nat, j: nat)
    requires i < 8 && j < 8 && i != j
    ensures Bit(i) & Bit(j) == 0 && Bit(i) != 0
  {
    BitValue(i);
    BitValue(j);
  }

  lemma {:induction false} BitSet(b: byte, m: byte, n: byte)
    ensures m & n == 0 ==> (b | m) & n == b & n
    ensures m != 0 ==> (b | m) & m != 0
  {
  }

  predicate BitmapTest(bitmap: seq<byte>, slot: nat) {
    slot / 8 < |bitmap| && bitmap[slot / 8] & Bit(slot % 8) != 0
  }

  function BitmapSet(bitmap: seq<byte>, slot: nat): (r: seq<byte>)
    ensures |r| == |bitmap|
  {
    if slot / 8 < |bitmap| then bitmap[slot / 8 := bitmap[slot / 8] | Bit(slot % 8)] else bitmap
  }

  /** Setting one slot's bit changes that slot's test and no other's. */
  lemma {:induction false} BitmapSetTest(bitmap: seq<byte>, slot: nat, other: nat)
    requires slot / 8 < |bitmap|
    ensures BitmapTest(BitmapSet(bitmap, slot), other) <==> other == slot || BitmapTest(bitmap, other)
  {
    var i, j := slot % 8, other % 8;
    BitValue(i);
    BitSet(bitmap[slot / 8], Bit(i), Bit(j));
    if i != j {
      BitsDisjoint(i, j);
    }
  }

  // ---- Fingerprints ----

  /** The payload copied into a zeroed chunk. */
  function Padded(data: seq<byte>): (r: seq<byte>)
    ensures |r| == CHUNK
  {
    if |data| >= CHUNK then data[..CHUNK] else data + seq(CHUNK - |data|, _ => 0)
  }

  function NonEmptyPrint(crc: Word): Word {
    if crc == 0 then 1 else crc
  }

  function Fingerprint(data: seq<byte>): Word {
    NonEmptyPrint(Crc(Padded(data), 0))
  }

  /** Payloads that differ in one padded byte collide only through the fold of 0 onto 1. */
  lemma {:induction false} FingerprintCollision(p: seq<byte>, q: seq<byte>, k: nat)
    requires k < CHUNK && Padded(p)[k] != Padded(q)[k]
    requires forall i :: 0 <= i < CHUNK && i != k ==> Padded(p)[i] == Padded(q)[i]
    ensures Fingerprint(p) == Fingerprint(q) <==> {Crc(Padded(p), 0), Crc(Padded(q), 0)} == {0, 1}
  {
    CrcSeparates(Padded(p), Padded(q), k, 0);
    PrintsMeet(Crc(Padded(p), 0), Crc(Padded(q), 0));
  }

  lemma {:induction false} PrintsMeet(x: Word, y: Word)
    requires x != y
    ensures NonEmptyPrint(x) == NonEmptyPrint(y) <==> {x, y} == {0, 1}
  {
    if {x, y} == {0, 1} {
      assert x in {0, 1} && y in {0, 1};
    }
    if NonEmptyPrint(x) == NonEmptyPrint(y) {
      assert (x == 0 && y == 1) || (x == 1 && y == 0);
    }
  }

  /** Never the empty marker 0, and the CRC of the padded payload wherever that is not 0 itself. */
  method FingerprintForSlot(data: seq<byte>) returns (fp: Word)
    ensures fp == Fingerprint(data)
    ensures fp != 0 && (Crc(Padded(data), 0) != 0 ==> fp == Crc(Padded(data), 0))
    ensures fp == 1 <==> Crc(Padded(data), 0) in {0, 1}
  {
    var crc := ComputeCrc32(Padded(data), 0);
    fp := NonEmptyPrint(crc);
  }

  /** A fingerprint sees the first chunk only, and cannot tell missing bytes from zero bytes. */
  lemma {:induction false} PrintSeesPadding(data: seq<byte>, zeros: nat)
    requires |data| + zeros <= CHUNK || |data| >= CHUNK
    ensures Fingerprint(data + seq(zeros, _ => 0)) == Fingerprint(data)
  {
    PaddingExtends(data, zeros);
  }

  lemma {:induction false} PaddingExtends(data: seq<byte>, zeros: nat)
    requires |data| + zeros <= CHUNK || |data| >= CHUNK
    ensures Padded(data + seq(zeros, _ => 0)) == Padded(data)
  {
  }

  // ---- The recorded history ----

  /** One accepted aligned payload: its slot, its fingerprint, and whether overlaps were being detected. */
  datatype Mark = Mark(slot: nat, fp: Word, detect: bool)

  ghost function Slots(h: seq<Mark>): set<int> {
    if h == [] then {} else Slots(h[..|h| - 1]) + {h[|h| - 1].slot}
  }

  /** The first fingerprint recorded for a slot. */
  ghost function FirstPrint(h: seq<Mark>, slot: nat): Word
    requires slot in Slots(h)
  {
    if slot in Slots(h[..|h| - 1]) then FirstPrint(h[..|h| - 1], slot) else h[|h| - 1].fp
  }

  ghost predicate Conflicting(h: seq<Mark>, m: Mark) {
    m.detect && m.slot in Slots(h) && FirstPrint(h, m.slot) != m.fp
  }

  ghost function Conflicts(h: seq<Mark>): nat {
    if h == [] then 0
    else Conflicts(h[..|h| - 1]) + if Conflicting(h[..|h| - 1], h[|h| - 1]) then 1 else 0
  }

  lemma {:induction false} Snoc(h: seq<Mark>, m: Mark)
    ensures Slots(h + [m]) == Slots(h) + {m.slot}
    ensures Conflicts(h + [m]) == Conflicts(h) + if Conflicting(h, m) then 1 else 0
    ensures forall s: nat :: s in Slots(h) ==> FirstPrint(h + [m], s) == FirstPrint(h, s)
    ensures m.slot !in Slots(h) ==> FirstPrint(h + [m], m.slot) == m.fp
  {
    assert (h + [m])[..|h|] == h;
  }

  lemma {:induction false} SlotsSnoc(h: seq<Mark>, m: Mark)
    ensures Slots(h + [m]) == Slots(h) + {m.slot}
  {
    assert (h + [m])[..|h|] == h;
  }

  lemma {:induction false} InSlots(h: seq<Mark>, i: nat)
    requires i < |h|
    ensures h[i].slot in Slots(h)
    decreases |h|
  {
    if i < |h| - 1 {
      InSlots(h[..|h| - 1], i);
    }
  }

  ghost predicate OnePrintPerSlot(h: seq<Mark>) {
    forall i, j :: 0 <= i < |h| && 0 <= j < |h| && h[i].slot == h[j].slot ==> h[i].fp == h[j].fp
  }

  /** Without conflicts every mark carries its slot's first fingerprint. */
  lemma {:induction false} MarksMatchFirst(h: seq<Mark>, i: nat)
    requires Conflicts(h) == 0 && (forall k :: 0 <= k < |h| ==> h[k].detect) && i < |h|
    ensures h[i].slot in Slots(h) && FirstPrint(h, h[i].slot) == h[i].fp
    decreases |h|
  {
    InSlots(h, i);
    if i < |h| - 1 {
      MarksMatchFirst(h[..|h| - 1], i);
    }
  }

  lemma {:induction false} FirstPrintIsRecorded(h: seq<Mark>, slot: nat) returns (i: nat)
    requires slot in Slots(h)
    ensures i < |h| && h[i].slot == slot && h[i].fp == FirstPrint(h, slot)
  {
    if slot in Slots(h[..|h| - 1]) {
      i := FirstPrintIsRecorded(h[..|h| - 1], slot);
    } else {
      i := |h| - 1;
    }
  }

  /** With detection on, the conflict counter stays zero if and only if no slot saw two fingerprints. */
  lemma {:induction false} NoConflictIffOnePrint(h: seq<Mark>)
    requires forall k :: 0 <= k < |h| ==> h[k].detect
    ensures Conflicts(h) == 0 <==> OnePrintPerSlot(h)
  {
    if Conflicts(h) == 0 {
      forall i, j | 0 <= i < |h| && 0 <= j < |h| && h[i].slot == h[j].slot ensures h[i].fp == h[j].fp {
        MarksMatchFirst(h, i);
        MarksMatchFirst(h, j);
      }
    } else {
      var front, last := h[..|h| - 1], h[|h| - 1];
      if Conflicting(front, last) {
        var i := FirstPrintIsRecorded(front, last.slot);
        assert h[i].slot == h[|h| - 1].slot && h[i].fp != h[|h| - 1].fp;
      } else {
        NoConflictIffOnePrint(front);
        var i, j :| 0 <= i < |front| && 0 <= j < |front| && front[i].slot == front[j].slot && front[i].fp != front[j].fp;
        assert h[i].slot == h[j].slot && h[i].fp != h[j].fp;
      }
    }
  }

  class ChunkCoverageTracker {
    const totalSize: nat
    const slotCount: nat
    var slotsReceived: nat
    var overlapConflicts: nat
    var bitmap: seq<byte>
    var fingerprints: seq<Word>
    ghost var history: seq<Mark>

    ghost predicate Valid()
      reads this
    {
      && slotCount == ChunkCountForSize(totalSize)
      && |bitmap| == (slotCount + 7) / 8
      && |fingerprints| == slotCount
      && Slots(history) <= Interval(0, slotCount)
      && (forall s: nat :: s < slotCount ==> (BitmapTest(bitmap, s) <==> s in Slots(history)))
      && (forall s: nat :: s in Slots(history) ==> fingerprints[s] == FirstPrint(history, s))
      && slotsReceived == |Slots(history)|
      && overlapConflicts == Conflicts(history)
    }

    constructor (total: nat)
      ensures Valid() && history == [] && totalSize == total
    {
      totalSize := total;
      slotCount := ChunkCountForSize(total);
      slotsReceived, overlapConflicts := 0, 0;
      bitmap := seq((ChunkCountForSize(total) + 7) / 8, _ => 0);
      fingerprints := seq(ChunkCountForSize(total), _ => 0);
      history := [];
      new;
      forall s: nat | s < slotCount ensures !BitmapTest(bitmap, s) {
        ZeroTest(Bit(s % 8));
      }
    }

    static lemma {:induction false} ZeroTest(m: byte)
      ensures 0 & m == 0
    {
    }

    /** What one `record` call adds to the history: aligned, non-empty payloads inside the log. */
    static ghost function MarksFor(slotCount: nat, offset: nat, data: seq<byte>, detect: bool): seq<Mark> {
      if data == [] || offset % CHUNK != 0 || ChunkSlotIndex(offset) >= slotCount then []
      else [Mark(ChunkSlotIndex(offset), Fingerprint(data), detect)]
    }

    method Record(offset: nat, data: seq<byte>, detect: bool) returns (ok: bool)
      requires Valid()
      modifies this
      ensures Valid()
      ensures history == old(history) + MarksFor(slotCount, offset, data, detect)
      ensures ok <==> MarksFor(slotCount, offset, data, detect) == [] || overlapConflicts == 0 || !detect
    {
      if |data| == 0 {
        return true;
      }
      if offset % CHUNK != 0 {
        return true;
      }
      var slot := ChunkSlotIndex(offset);
      if slot >= slotCount {
        return true;
      }
      var fp := FingerprintForSlot(data);
      MarkSlot(slot, fp, detect);
      ok := overlapConflicts == 0 || !detect;
    }

    method MarkSlot(slot: nat, fp: Word, detect: bool)
      requires Valid()
      modifies this
      ensures Valid()
      ensures history == if slot < slotCount then old(history) + [Mark(slot, fp, detect)] else old(history)
    {
      if slot >= slotCount {
        return;
      }
      var wasSet := BitmapTest(bitmap, slot);
      if !wasSet {
        SetSlot(slot, fp, detect);
        return;
      }
      RepeatSlot(slot, fp, detect);
    }

    /** Later payloads of a slot only count a conflict. */
    method RepeatSlot(slot: nat, fp: Word, detect: bool)
      requires Valid() && slot < slotCount && slot in Slots(history)
      modifies this
      ensures Valid() && history == old(history) + [Mark(slot, fp, detect)]
    {
      Snoc(history, Mark(slot, fp, detect));
      if detect && fingerprints[slot] != fp {
        overlapConflicts := overlapConflicts + 1;
      }
      history := history + [Mark(slot, fp, detect)];
      assert Slots(history) == old(Slots(history));
    }

    /** The first payload of a slot sets its bit, its fingerprint and the counter. */
    method SetSlot(slot: nat, fp: Word, detect: bool)
      requires Valid() && slot < slotCount && slot !in Slots(history)
      modifies this
      ensures Valid() && history == old(history) + [Mark(slot, fp, detect)]
    {
      Snoc(history, Mark(slot, fp, detect));
      forall s: nat ensures BitmapTest(BitmapSet(bitmap, slot), s) <==> s == slot || BitmapTest(bitmap, s) {
        BitmapSetTest(bitmap, slot, s);
      }
      bitmap := BitmapSet(bitmap, slot);
      fingerprints := fingerprints[slot := fp];
      slotsReceived := slotsReceived + 1;
      history := history + [Mark(slot, fp, detect)];
    }

    method AllSlotsReceived() returns (all: bool)
      requires Valid()
      ensures all <==> Slots(history) == Interval(0, slotCount)
    {
      IntervalSize(0, slotCount);
      SubsetSize(Slots(history), Interval(0, slotCount));
      if slotCount == 0 {
        all := totalSize == 0;
      } else {
        all := slotsReceived >= slotCount;
      }
    }
  }
}
