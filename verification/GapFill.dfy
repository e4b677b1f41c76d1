/** Re-requesting what is missing: one request per gap, and two answered rounds cover every byte. */
module GapFill {
  import opened MavlinkLog
  import opened Intervals
  import opened ReceivedRanges

  const STREAM_REQUEST_COUNT: nat := 0xFFFF_FFFF

  datatype Request = Request(start: nat, count: nat)

  /** The first chunk boundary at or after `offset`. */
  function AlignUpToChunk(offset: nat): (r: nat)
    ensures offset <= r < offset + CHUNK && r % CHUNK == 0
    ensures forall b: nat :: offset <= b && b % CHUNK == 0 ==> r <= b
  {
    var down := AlignDownToChunk(offset);
    if down < offset then down + CHUNK else down
  }

  /** A gap is asked for from its first chunk boundary, or from its start if it contains none. */
  function RequestStart(g: Range): nat {
    if AlignUpToChunk(g.lo) >= g.hi then g.lo else AlignUpToChunk(g.lo)
  }

  /** `gaps` lists the maximal missing intervals of a transfer of `total` bytes. */
  ghost predicate GapsOf(gaps: seq<Range>, total: nat, received: set<int>) {
    Canonical(gaps) && Bytes(gaps) == Interval(0, total) - received
  }

  /** The offsets covered by the requests for a list of gaps. */
  ghost function Requested(gaps: seq<Range>): set<int> {
    if gaps == [] then {} else
    Requested(gaps[..|gaps| - 1]) + Interval(RequestStart(gaps[|gaps| - 1]), gaps[|gaps| - 1].hi)
  }

  /** Sends the merged gap requests; the sent messages are the result. */
  method RequestMergedGaps(ranges: ReceivedRanges, total: nat) returns (sent: seq<Request>, ghost gaps: seq<Range>)
    requires ranges.Valid() && ranges.Received() <= Interval(0, total) && total < 0x8000_0000
    ensures GapsOf(gaps, total, ranges.Received())
    ensures |sent| == |gaps|
    ensures forall i :: 0 <= i < |sent| ==> Answers(gaps[i], sent[i])
    ensures forall i, x :: 0 <= i < |sent| && x in Interval(sent[i].start, sent[i].start + sent[i].count) ==>
              x in Interval(0, total) && x !in ranges.Received()
  {
    var list := MissingRanges(ranges, total);
    gaps := list;
    sent := RequestEach(list, total);
    RequestsAreMissing(list, sent, total, ranges.Received());
  }

  /** The request asks for the gap from its request start to its end. */
  predicate Answers(g: Range, r: Request) {
    r.count > 0 && r.start == RequestStart(g) && r.start + r.count == g.hi
  }

  method MissingRanges(ranges: ReceivedRanges, total: nat) returns (list: seq<Range>)
    requires ranges.Valid() && ranges.Received() <= Interval(0, total)
    ensures GapsOf(list, total, ranges.Received())
  {
    list := ranges.Gaps(total);
    EndBounds(ranges.ranges);
    assert End(ranges.ranges) <= total;
  }

  /** The loop over the gaps. */
  method RequestEach(list: seq<Range>, total: nat) returns (sent: seq<Request>)
    requires Canonical(list) && Bytes(list) <= Interval(0, total) && total < 0x8000_0000
    ensures |sent| == |list| && forall i :: 0 <= i < |sent| ==> Answers(list[i], sent[i])
  {
    sent := [];
    for i := 0 to |list|
      invariant |sent| == i
      invariant forall j :: 0 <= j < i ==> Answers(list[j], sent[j])
    {
      GapIsMissing(list, i, total);
      var one := RequestOneGap(list[i]);
      sent := sent + one;
    }
  }

  lemma {:induction false} RequestsAreMissing(gaps: seq<Range>, sent: seq<Request>, total: nat, received: set<int>)
    requires GapsOf(gaps, total, received) && |sent| == |gaps|
    requires forall i :: 0 <= i < |sent| ==> Answers(gaps[i], sent[i])
    ensures forall i, x :: 0 <= i < |sent| && x in Interval(sent[i].start, sent[i].start + sent[i].count) ==>
              x in Interval(0, total) && x !in received
  {
    forall i, x | 0 <= i < |sent| && x in Interval(sent[i].start, sent[i].start + sent[i].count)
      ensures x in Interval(0, total) && x !in received
    {
      assert Answers(gaps[i], sent[i]);
      RequestedByteIsMissing(gaps, i, x);
    }
  }

  lemma {:induction false} RequestedByteIsMissing(gaps: seq<Range>, i: nat, x: int)
    requires i < |gaps| && RequestStart(gaps[i]) <= x < gaps[i].hi
    ensures x in Bytes(gaps)
  {
    InBytes(gaps, x);
    assert gaps[i] in gaps;
  }

  lemma {:induction false} GapIsMissing(gaps: seq<Range>, i: nat, total: nat)
    requires Canonical(gaps) && Bytes(gaps) <= Interval(0, total) && i < |gaps|
    ensures gaps[i].lo < gaps[i].hi <= total
  {
    CanonicalPairs(gaps);
    assert gaps[i] in gaps;
    InBytes(gaps, gaps[i].hi - 1);
  }

  /** The request loop for one gap: the inner coalescing loop makes it run exactly once. */
  method RequestOneGap(g: Range) returns (sent: seq<Request>)
    requires g.lo < g.hi < 0x8000_0000
    ensures sent == [Request(RequestStart(g), g.hi - RequestStart(g))]
  {
    var start := AlignDownToChunk(g.lo);
    if start < g.lo {
      start := start + CHUNK;
    }
    if start >= g.hi {
      start := g.lo;
    }
    var end, reqStart := g.hi, start;
    sent := [];
    while reqStart < end
      invariant (reqStart == start && sent == []) || (reqStart == end && sent == [Request(start, end - start)])
    {
      var reqCount := end - reqStart;
      var coalesced := CHUNK;
      while reqStart + coalesced < end
        invariant reqStart + coalesced < U32
      {
        coalesced := coalesced + CHUNK;
      }
      reqCount := if coalesced < reqCount then coalesced else reqCount;
      reqCount := if STREAM_REQUEST_COUNT < reqCount then STREAM_REQUEST_COUNT else reqCount;
      sent := sent + [Request(reqStart, reqCount)];
      reqStart := reqStart + reqCount;
    }
  }

  lemma {:induction false} InRequested(gaps: seq<Range>, x: int)
    ensures x in Requested(gaps) <==> exists g :: g in gaps && RequestStart(g) <= x < g.hi
  {
    if gaps != [] {
      var front, last := gaps[..|gaps| - 1], gaps[|gaps| - 1];
      InRequested(front, x);
      assert gaps == front + [last];
    }
  }

  /** What a fully answered round leaves missing contains no chunk boundary. */
  lemma {:induction false} LeftoverIsUnaligned(gaps: seq<Range>, x: int)
    requires x in Bytes(gaps) && x !in Requested(gaps)
    ensures x % CHUNK != 0
  {
    InBytes(gaps, x);
    InRequested(gaps, x);
    var g :| g in gaps && g.lo <= x < g.hi;
    assert x < RequestStart(g);
  }

  /**
   * Two rounds whose requests are answered in full cover every byte, whatever was missing before and
   * whatever else arrives meanwhile. What the session makes of that is settled in `Convergence`.
   */
  lemma {:induction false} TwoRoundsCoverBytes(total: nat, r0: set<int>, r1: set<int>, r2: set<int>, g0: seq<Range>, g1: seq<Range>)
    requires GapsOf(g0, total, r0) && GapsOf(g1, total, r1)
    requires r0 + Requested(g0) <= r1 && r1 + Requested(g1) <= r2 <= Interval(0, total)
    ensures r2 == Interval(0, total)
  {
    forall x | x in Interval(0, total) ensures x in r2 {
      if x !in r1 {
        InBytes(g1, x);
        var g :| g in g1 && g.lo <= x < g.hi;
        if RequestStart(g) != g.lo {
          var boundary := AlignUpToChunk(g.lo);
          InBytes(g1, boundary);
          assert boundary in Bytes(g1);
          LeftoverIsUnaligned(g0, boundary);
          assert false;
        }
        InRequested(g1, x);
      }
    }
  }

  /**
   * One exactly answered round covers every byte if and only if every gap starts on a chunk boundary
   * or lies inside a single chunk.
   */
  lemma {:induction false} OneRoundCoversBytesIff(total: nat, r0: set<int>, g0: seq<Range>)
    requires GapsOf(g0, total, r0) && r0 <= Interval(0, total)
    ensures r0 + Requested(g0) == Interval(0, total) <==>
            forall g :: g in g0 ==> g.lo % CHUNK == 0 || g.hi <= AlignDownToChunk(g.lo) + CHUNK
  {
    CanonicalPairs(g0);
    if g :| g in g0 && g.lo % CHUNK != 0 && g.hi > AlignDownToChunk(g.lo) + CHUNK {
      InBytes(g0, g.lo);
      assert g.lo in Bytes(g0);
      FirstByteUnrequested(g0, g);
    } else {
      forall x | x in Interval(0, total) ensures x in r0 + Requested(g0) {
        InBytes(g0, x);
        InRequested(g0, x);
      }
      RequestedIsMissing(g0);
    }
  }

  lemma {:induction false} FirstByteUnrequested(gaps: seq<Range>, g: Range)
    requires Canonical(gaps) && g in gaps && RequestStart(g) != g.lo
    ensures g.lo !in Requested(gaps)
  {
    CanonicalPairs(gaps);
    InRequested(gaps, g.lo);
  }

  lemma {:induction false} RequestedIsMissing(gaps: seq<Range>)
    ensures Requested(gaps) <= Bytes(gaps)
  {
    forall x | x in Requested(gaps) ensures x in Bytes(gaps) {
      InRequested(gaps, x);
      InBytes(gaps, x);
    }
  }
}
