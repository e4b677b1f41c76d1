/** The chunk offsets that are read back from the flight controller to cross-check a download. */
module SampleOffsets {
  import opened MavlinkLog

  type Rng = bv64

  function ShiftLeft13(s: Rng): Rng {
    s ^ (s << 13)
  }

  function ShiftRight7(s: Rng): Rng {
    s ^ (s >> 7)
  }

  function ShiftLeft17(s: Rng): Rng {
    s ^ (s << 17)
  }

  /** One xorshift64 step. */
  function XorShift(s: Rng): Rng {
    ShiftLeft17(ShiftRight7(ShiftLeft13(s)))
  }

  lemma {:induction false} ShiftLeft13NonZero(s: Rng)
    requires s != 0
    ensures ShiftLeft13(s) != 0
  {
  }

  lemma {:induction false} ShiftRight7NonZero(s: Rng)
    requires s != 0
    ensures ShiftRight7(s) != 0
  {
  }

  lemma {:induction false} ShiftLeft17NonZero(s: Rng)
    requires s != 0
    ensures ShiftLeft17(s) != 0
  {
  }

  /** The generator never reaches its fixed point 0. */
  lemma {:induction false} XorShiftNonZero(s: Rng)
    requires s != 0
    ensures XorShift(s) != 0
  {
    ShiftLeft13NonZero(s);
    ShiftRight7NonZero(ShiftLeft13(s));
    ShiftLeft17NonZero(ShiftRight7(ShiftLeft13(s)));
  }

  function Nybble(c: char): Rng {
    if '0' <= c <= '9' then (c as int - '0' as int) as Rng
    else if 'a' <= c <= 'f' then (10 + c as int - 'a' as int) as Rng
    else if 'A' <= c <= 'F' then (10 + c as int - 'A' as int) as Rng
    else 0
  }

  /** Mixes in the digest byte written at position `i`, shifted by twice the position. */
  function MixByte(seed: Rng, hex: string, i: nat): Rng {
    if i < |hex| && i < 16 then
      var lo := if i + 1 < |hex| then hex[i + 1] else '0';
      seed ^ (((Nybble(hex[i]) << 4) | Nybble(lo)) << (2 * i))
    else seed
  }

  /** The digest bytes from position `i` on, among the first sixteen characters, mixed in one after the other. */
  function MixedFrom<S>(mix: (S, string, nat) -> S, seed: S, hex: string, i: nat): S
    decreases 16 - i
  {
    if i < |hex| && i < 16 then MixedFrom(mix, mix(seed, hex, i), hex, i + 2) else seed
  }

  /** The mixing loop. */
  method MixAll<S>(mix: (S, string, nat) -> S, start: S, hex: string) returns (seed: S)
    ensures seed == MixedFrom(mix, start, hex, 0)
  {
    seed := start;
    var i := 0;
    while i < |hex| && i < 16
      invariant 0 <= i && MixedFrom(mix, seed, hex, i) == MixedFrom(mix, start, hex, 0)
    {
      seed := mix(seed, hex, i);
      i := i + 2;
    }
  }

  function SeedStart(id: bv16, logSize: bv32): Rng {
    (id as Rng << 32) ^ (logSize as Rng)
  }

  /** The log id, its size and the first sixteen digest characters, mixed; 1 in place of 0. */
  method SeedFromParams(id: bv16, logSize: bv32, sha256Hex: string) returns (seed: Rng)
    ensures seed != 0
    ensures var mixed := MixedFrom(MixByte, SeedStart(id, logSize), sha256Hex, 0); seed == mixed || (mixed == 0 && seed == 1)
  {
    seed := MixAll(MixByte, SeedStart(id, logSize), sha256Hex);
    if seed == 0 {
      seed := 1;
    }
  }

  /** A chunk-aligned offset that leaves a whole chunk inside a file of `size` bytes. */
  predicate WholeChunk(size: nat, offset: nat) {
    offset % CHUNK == 0 && offset + CHUNK <= size
  }

  /** An ordered set of offsets, as `std::set` iterates it. */
  ghost predicate StrictlyIncreasing(s: seq<nat>) {
    forall i, j :: 0 <= i < j < |s| ==> s[i] < s[j]
  }

  ghost predicate AllWhole(size: nat, s: seq<nat>) {
    forall i :: 0 <= i < |s| ==> WholeChunk(size, s[i])
  }

  /** Inserts in order, once. */
  method Insert(s: seq<nat>, x: nat) returns (r: seq<nat>)
    requires StrictlyIncreasing(s)
    ensures StrictlyIncreasing(r)
    ensures forall y :: y in r <==> y in s || y == x
    ensures |s| <= |r|
  {
    var i := 0;
    while i < |s| && s[i] < x
      invariant i <= |s| && forall j :: 0 <= j < i ==> s[j] < x
    {
      i := i + 1;
    }
    if i < |s| && s[i] == x {
      return s;
    }
    r := s[..i] + [x] + s[i..];
    assert forall y :: y in s ==> y in s[..i] || y in s[i..];
  }

  /** The anchors: start, second chunk, quarters, and the last two chunks. `3 * size` wraps at 32 bits. */
  function Anchors(size: nat): seq<nat>
    requires CHUNK <= size < U32
  {
    [0, CHUNK, size / 4, size / 2, (3 * size) % U32 / 4]
    + (if size >= 2 * CHUNK then [size - 2 * CHUNK] else [])
    + [size - CHUNK]
  }

  method AddAnchor(offsets: seq<nat>, size: nat, offset: nat) returns (r: seq<nat>)
    requires StrictlyIncreasing(offsets) && AllWhole(size, offsets) && size >= CHUNK
    ensures StrictlyIncreasing(r) && AllWhole(size, r)
    ensures forall y :: y in offsets ==> y in r
    ensures forall y :: y in r ==> y in offsets || y == AlignDownToChunk(offset)
    ensures offset + CHUNK <= size ==> AlignDownToChunk(offset) in r
  {
    r := offsets;
    if offset <= size - CHUNK {
      r := Insert(offsets, AlignDownToChunk(offset));
      WholeAfterInsert(size, offsets, r, AlignDownToChunk(offset));
    }
  }

  lemma {:induction false} WholeAfterInsert(size: nat, s: seq<nat>, r: seq<nat>, x: nat)
    requires AllWhole(size, s) && WholeChunk(size, x)
    requires forall y :: y in r <==> y in s || y == x
    ensures AllWhole(size, r)
  {
    forall i | 0 <= i < |r| ensures WholeChunk(size, r[i]) {
      assert r[i] in r;
    }
  }

  /** Every anchor that leaves a whole chunk is present. */
  ghost predicate HasAnchors(size: nat, anchors: seq<nat>, s: seq<nat>) {
    forall i :: 0 <= i < |anchors| && anchors[i] + CHUNK <= size ==> AlignDownToChunk(anchors[i]) in s
  }

  /** Nothing but aligned anchors is present. */
  ghost predicate OnlyAnchors(anchors: seq<nat>, s: seq<nat>) {
    forall y :: y in s ==> IsAnchor(anchors, y)
  }

  ghost predicate IsAnchor(anchors: seq<nat>, y: nat) {
    exists i :: 0 <= i < |anchors| && AlignDownToChunk(anchors[i]) == y
  }

  method AddAnchors(size: nat) returns (offsets: seq<nat>)
    requires CHUNK <= size < U32
    ensures StrictlyIncreasing(offsets) && AllWhole(size, offsets)
    ensures HasAnchors(size, Anchors(size), offsets) && OnlyAnchors(Anchors(size), offsets)
  {
    var anchors := Anchors(size);
    offsets := [];
    for i := 0 to |anchors|
      invariant StrictlyIncreasing(offsets) && AllWhole(size, offsets)
      invariant HasAnchors(size, anchors[..i], offsets) && OnlyAnchors(anchors[..i], offsets)
    {
      var more := AddAnchor(offsets, size, anchors[i]);
      OneMoreAnchor(size, anchors, i, offsets, more);
      offsets := more;
    }
    assert anchors[..|anchors|] == anchors;
  }

  lemma {:induction false} OneMoreAnchor(size: nat, anchors: seq<nat>, i: nat, before: seq<nat>, after: seq<nat>)
    requires i < |anchors| && HasAnchors(size, anchors[..i], before) && OnlyAnchors(anchors[..i], before)
    requires forall y :: y in before ==> y in after
    requires forall y :: y in after ==> y in before || y == AlignDownToChunk(anchors[i])
    requires anchors[i] + CHUNK <= size ==> AlignDownToChunk(anchors[i]) in after
    ensures HasAnchors(size, anchors[..i + 1], after) && OnlyAnchors(anchors[..i + 1], after)
  {
    forall y | y in after ensures IsAnchor(anchors[..i + 1], y) {
      if y in before {
        var k :| 0 <= k < i && AlignDownToChunk(anchors[..i][k]) == y;
        assert anchors[..i + 1][k] == anchors[..i][k];
      } else {
        assert anchors[..i + 1][i] == anchors[i];
      }
    }
  }

  /** The generator state after `n` steps. */
  function After<G>(next: G -> G, seed: G, n: nat): G {
    if n == 0 then seed else next(After(next, seed, n - 1))
  }

  /** The generator is never stuck at 0. */
  lemma {:induction false} NeverZero(seed: Rng, n: nat)
    requires seed != 0
    ensures After(XorShift, seed, n) != 0
  {
    if n > 0 {
      NeverZero(seed, n - 1);
      XorShiftNonZero(After(XorShift, seed, n - 1));
    }
  }

  /** The offsets of the first `draws` picks. */
  ghost function Drawn<G>(next: G -> G, slotOf: G -> nat, seed: G, draws: nat): set<nat> {
    if draws == 0 then {} else Drawn(next, slotOf, seed, draws - 1) + {slotOf(After(next, seed, draws)) * CHUNK}
  }

  /**
   * The random fill: the anchors and the first draws, all of them whole chunks. It stops when the list is
   * long enough or after twenty draws per wanted sample, whatever the generator yields.
   */
  method FillFrom<G(!new)>(anchored: seq<nat>, size: nat, totalSamples: nat, next: G -> G, slotOf: G -> nat, seed: G)
    returns (offsets: seq<nat>, ghost draws: nat)
    requires StrictlyIncreasing(anchored) && AllWhole(size, anchored) && CHUNK <= size
    requires forall g :: slotOf(g) <= ChunkSlotIndex(size - CHUNK)
    ensures StrictlyIncreasing(offsets) && AllWhole(size, offsets)
    ensures forall y :: y in offsets <==> y in anchored || y in Drawn(next, slotOf, seed, draws)
    ensures |anchored| >= totalSamples ==> draws == 0
    ensures |offsets| < totalSamples ==> draws == (totalSamples - |anchored|) * 20
  {
    offsets := anchored;
    var randomWant := if totalSamples > |offsets| then totalSamples - |offsets| else 0;
    var rng, attempts := seed, 0;
    while |offsets| < totalSamples && attempts < randomWant * 20
      invariant StrictlyIncreasing(offsets) && AllWhole(size, offsets)
      invariant rng == After(next, seed, attempts) && 0 <= attempts <= randomWant * 20
      invariant |anchored| <= |offsets|
      invariant forall y :: y in offsets <==> y in anchored || y in Drawn(next, slotOf, seed, attempts)
      decreases randomWant * 20 - attempts
    {
      attempts := attempts + 1;
      rng := next(rng);
      var slot := slotOf(rng);
      SlotIsWhole(size, slot);
      var more := Insert(offsets, slot * CHUNK);
      WholeAfterInsert(size, offsets, more, slot * CHUNK);
      offsets := more;
    }
    draws := attempts;
  }

  /** The low 32 bits, reduced to a slot number. */
  function SlotOf(rng: Rng, slots: nat): (slot: nat)
    requires slots > 0
    ensures slot < slots
  {
    (rng & 0xFFFF_FFFF) as nat % slots
  }

  lemma {:induction false} SlotIsWhole(size: nat, slot: nat)
    requires CHUNK <= size && slot <= ChunkSlotIndex(size - CHUNK)
    ensures WholeChunk(size, slot * CHUNK)
  {
  }

  /** Either the anchor was sampled, or the list is full with smaller offsets. */
  ghost predicate Sampled(offsets: seq<nat>, totalSamples: int, anchor: nat) {
    anchor in offsets || (|offsets| == totalSamples && offsets != [] && offsets[|offsets| - 1] < anchor)
  }

  /** Whole chunks of the file only, in order, at most `totalSamples`, starting with the first chunk. */
  method BuildFcSampleOffsets(size: nat, totalSamples: int, id: bv16, logSize: bv32, sha256Hex: string)
    returns (offsets: seq<nat>)
    requires size < U32
    ensures StrictlyIncreasing(offsets) && AllWhole(size, offsets)
    ensures size < CHUNK || totalSamples <= 0 ==> offsets == []
    ensures size >= CHUNK && totalSamples > 0 ==> 0 < |offsets| <= totalSamples && offsets[0] == 0
    ensures size >= CHUNK && totalSamples > 0 ==>
              forall a :: a in Anchors(size) && a + CHUNK <= size ==> Sampled(offsets, totalSamples, AlignDownToChunk(a))
  {
    if size < CHUNK || totalSamples <= 0 {
      return [];
    }
    var anchored := AddAnchors(size);
    var seed := SeedFromParams(id, logSize, sha256Hex);
    var slots := ChunkSlotIndex(size - CHUNK) + 1;
    ghost var draws;
    offsets, draws := FillFrom(anchored, size, totalSamples, XorShift, rng => SlotOf(rng, slots), seed);
    FirstIsZero(size, anchored, offsets);
    if |offsets| > totalSamples {
      Truncated(size, offsets, totalSamples);
      offsets := offsets[..totalSamples];
    }
  }

  lemma {:induction false} FirstIsLeast(s: seq<nat>, i: nat)
    requires StrictlyIncreasing(s) && i < |s|
    ensures s[0] <= s[i]
  {
    assert 0 < i ==> s[0] < s[i];
  }

  lemma {:induction false} FirstIsZero(size: nat, anchored: seq<nat>, s: seq<nat>)
    requires CHUNK <= size < U32
    requires HasAnchors(size, Anchors(size), anchored) && StrictlyIncreasing(s)
    requires forall y :: y in anchored ==> y in s
    ensures s != [] && s[0] == 0
    ensures forall a :: a in Anchors(size) && a + CHUNK <= size ==> AlignDownToChunk(a) in s
  {
    assert Anchors(size)[0] == 0;
    assert AlignDownToChunk(0) == 0 && 0 in s;
    var i :| 0 <= i < |s| && s[i] == 0;
    FirstIsLeast(s, i);
  }

  lemma {:induction false} Truncated(size: nat, s: seq<nat>, n: nat)
    requires StrictlyIncreasing(s) && 0 < n < |s|
    ensures forall y :: y in s ==> Sampled(s[..n], n, y)
  {
    forall y | y in s ensures Sampled(s[..n], n, y) {
      var i :| 0 <= i < |s| && s[i] == y;
      if i < n {
        assert s[..n][i] == y;
      }
    }
  }
}
