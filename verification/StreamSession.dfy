/** The streaming download session: receive loop, gap filling, retries and back-offs. */
module StreamSession {
  import opened MavlinkLog
  import opened Triggers
  import opened Intervals
  import opened ReceivedRanges
  import opened ChunkCoverage
  import opened Sha256
  import opened Transfer
  import opened StreamDigests
  import opened GapFill
  import Convergence

  datatype Failure = NoFailure | LogDataTimeout | TransportClosed | LinkTimeout | NoProgress
                   | IncompleteDownload | VerificationFailed | OverlapConflict | Cancelled

  /** The settings the session reads; times in milliseconds. */
  datatype Settings = Settings(retryCount: int, stallAbortAttempts: int, busyRetryAttempts: int,
                               downloadTimeoutMs: int, gapFillIdleMs: int, detectOverlap: bool)

  /**
   * Everything the session observes, tick by tick: what draining its queue returns, how much more
   * than one millisecond a tick takes, the cancel flag at a pass and inside the receive loop, the
   * zero-length LOG_DATA counter and the link.
   */
  datatype World = World(batch: nat -> seq<WireChunk>, delay: nat -> nat,
                         cancelled: nat -> bool, cancelledAtPass: nat -> bool, zeroLength: nat -> nat,
                         connected: nat -> bool, heartbeatFresh: nat -> bool)

  function Now(w: World, t: nat): nat {
    if t == 0 then 0 else Now(w, t - 1) + 1 + w.delay(t - 1)
  }

  function ClassifyTimeout(connected: bool, heartbeat: bool): TimeoutReason {
    if !connected then TransportClosed else if !heartbeat then LinkTimeout else LogDataTimeout
  }

  type TimeoutReason = f: Failure | f in {LogDataTimeout, TransportClosed, LinkTimeout} witness LogDataTimeout

  datatype Outcome = Done | Conflict | TimedOut(why: TimeoutReason) | Stopped | Waiting

  /** `passes` counts the streaming requests sent, `busyWaits` the back-offs among them. */
  datatype Result = Result(success: bool, failure: Failure, sha256: string, probeSha256: string, probeBytes: int,
                           passes: nat, busyWaits: nat)

  // ---- The retry budgets ----

  /** Attempts used, back-offs used, fruitless attempts in a row, and the failure noted so far. */
  datatype Budget = Budget(attempt: nat, busyWaits: nat, noProgress: int, failure: Failure)

  datatype Verdict = Again(budget: Budget) | Abort(why: Failure)

  /**
   * What follows a pass that did not complete the transfer: `before` and `after` count the bytes
   * received, `zeroSeen` says whether zero-length LOG_DATA arrived meanwhile.
   */
  function AfterPass(b: Budget, s: Settings, failure: Failure, before: nat, after: nat, zeroSeen: bool): Verdict {
    var fruitless := if after > before then 0 else b.noProgress;
    if after == 0 && zeroSeen && b.busyWaits < s.busyRetryAttempts then
      Again(Budget(b.attempt, b.busyWaits + 1, fruitless, NoFailure))
    else if after <= before && fruitless + 1 >= s.stallAbortAttempts then
      Abort(if failure == NoFailure then NoProgress else failure)
    else
      Again(Budget(b.attempt + 1, b.busyWaits, if after <= before then fruitless + 1 else fruitless, failure))
  }

  datatype PassStep = Finished | Failed(why: Failure) | Continue(budget: Budget)

  /** One more attempt, or one more back-off. */
  ghost predicate Spends(b: Budget, next: Budget, s: Settings) {
    || (next.attempt == b.attempt + 1 && next.busyWaits == b.busyWaits)
    || (next.attempt == b.attempt && next.busyWaits == b.busyWaits + 1 <= s.busyRetryAttempts)
  }

  /** A pass uses up an attempt or, before the first byte only, a back-off; never both, never neither. */
  lemma {:induction false} PassSpendsOne(b: Budget, s: Settings, failure: Failure, before: nat, after: nat, zeroSeen: bool)
    ensures var v := AfterPass(b, s, failure, before, after, zeroSeen);
            if v.Abort? then v.why != NoFailure && v.why in {failure, NoProgress}
            else Spends(b, v.budget, s) && (v.budget.attempt == b.attempt ==> after == 0) && v.budget.failure in {failure, NoFailure}
  {
  }

  // ---- What the world delivers ----

  function Accepted(chunks: seq<WireChunk>, total: nat): seq<Piece> {
    if chunks == [] then [] else Accepted(chunks[..|chunks| - 1], total) + Clip(chunks[|chunks| - 1], total)
  }

  lemma {:induction false} AcceptedStep(chunks: seq<WireChunk>, i: nat, total: nat, start: seq<Piece>)
    requires i < |chunks|
    ensures start + Accepted(chunks[..i], total) + Clip(chunks[i], total) == start + Accepted(chunks[..i + 1], total)
  {
    assert chunks[..i + 1][..i] == chunks[..i];
  }

  /** `p` is the clipped payload of some chunk the world delivered. */
  ghost predicate FromWorld(p: Piece, w: World, total: nat) {
    exists t: nat, i: nat :: i < |w.batch(t)| && Clip(w.batch(t)[i], total) == [p]
  }

  ghost predicate AllFromWorld(ps: seq<Piece>, w: World, total: nat) {
    forall i :: 0 <= i < |ps| ==> FromWorld(ps[i], w, total)
  }

  /** A chunk agrees with the log wherever it overlaps it; bytes past the end are unconstrained. */
  ghost predicate ChunkMatches(c: Chunk, log: seq<byte>) {
    forall k :: 0 <= k < |c.data| && c.offset + k < |log| ==> c.data[k] == log[c.offset + k]
  }

  /** Every delivered chunk agrees with the log: any order, repeats, losses, overlaps and over-long tails. */
  ghost predicate Honest(w: World, log: seq<byte>, total: nat) {
    total <= |log| && forall t: nat, i: nat :: i < |w.batch(t)| ==> ChunkMatches(w.batch(t)[i], log)
  }

  lemma {:induction false} AcceptedFromBatch(chunks: seq<WireChunk>, w: World, t: nat, total: nat)
    requires |chunks| <= |w.batch(t)| && chunks == w.batch(t)[..|chunks|]
    ensures AllFromWorld(Accepted(chunks, total), w, total)
  {
    if chunks != [] {
      var n := |chunks| - 1;
      AcceptedFromBatch(chunks[..n], w, t, total);
      assert chunks[n] == w.batch(t)[n];
    }
  }

  lemma {:induction false} HonestPieceMatches(p: Piece, w: World, log: seq<byte>, total: nat)
    requires FromWorld(p, w, total) && Honest(w, log, total)
    ensures Matches(p, log)
  {
    var t: nat, i: nat :| i < |w.batch(t)| && Clip(w.batch(t)[i], total) == [p];
    assert ChunkMatches(w.batch(t)[i], log);
  }

  lemma {:induction false} CoveredGrows(ps: seq<Piece>, more: seq<Piece>)
    ensures Covered(ps) <= Covered(ps + more)
  {
    if more == [] {
      assert ps + more == ps;
    } else {
      CoveredGrows(ps, more[..|more| - 1]);
      assert (ps + more)[..|ps + more| - 1] == ps + more[..|more| - 1];
    }
  }

  /** One drained batch only adds payloads of the world, so the received set does not shrink. */
  lemma {:induction false} BatchGrows(before: seq<Piece>, w: World, t: nat, total: nat)
    requires AllFromWorld(before, w, total)
    ensures AllFromWorld(before + Accepted(w.batch(t), total), w, total)
    ensures |Covered(before)| <= |Covered(before + Accepted(w.batch(t), total))|
  {
    assert w.batch(t)[..|w.batch(t)|] == w.batch(t);
    AcceptedFromBatch(w.batch(t), w, t, total);
    CoveredGrows(before, Accepted(w.batch(t), total));
    SubsetSize(Covered(before), Covered(before + Accepted(w.batch(t), total)));
  }

  lemma {:induction false} PrefixFromWorld(before: seq<Piece>, chunks: seq<WireChunk>, n: nat, w: World, t: nat, total: nat)
    requires AllFromWorld(before, w, total) && chunks == w.batch(t) && n <= |chunks|
    ensures AllFromWorld(before + Accepted(chunks[..n], total), w, total)
  {
    AcceptedFromBatch(chunks[..n], w, t, total);
  }

  // ---- Worlds in which a transfer must succeed ----

  /** What is accepted once the batches of all ticks before `t` are drained. */
  function Delivered(w: World, t: nat, total: nat): seq<Piece> {
    if t == 0 then [] else Delivered(w, t - 1, total) + Accepted(w.batch(t - 1), total)
  }

  /** When the last new byte among them arrived. */
  ghost function LastNew(w: World, t: nat, total: nat): nat {
    if t == 0 then 0
    else if |Covered(Delivered(w, t, total))| > |Covered(Delivered(w, t - 1, total))| then Now(w, t - 1)
    else LastNew(w, t - 1, total)
  }

  /** As long as bytes are missing, new ones keep arriving within the timeout. */
  ghost predicate Prompt(w: World, total: nat, timeout: int) {
    forall t: nat :: t > 0 && Covered(Delivered(w, t, total)) != Interval(0, total) ==>
      Now(w, t - 1) - LastNew(w, t, total) < timeout
  }

  /** Every packet is chunk-aligned and full-size or reaching the end of the log. */
  ghost predicate SlotWorld(w: World, total: nat) {
    forall p :: FromWorld(p, w, total) ==> SlotShaped(p, total)
  }

  /** Prompt, in slot shape, never cancelled, and at least one attempt is configured. */
  ghost predicate Smooth(w: World, total: nat, s: Settings) {
    && Prompt(w, total, s.downloadTimeoutMs) && SlotWorld(w, total) && s.retryCount >= 0
    && !w.cancelledAtPass(0) && forall t: nat :: !w.cancelled(t)
  }

  lemma {:induction false} DeliveredFromWorld(w: World, t: nat, total: nat)
    ensures AllFromWorld(Delivered(w, t, total), w, total)
  {
    if t > 0 {
      var chunks := w.batch(t - 1);
      DeliveredFromWorld(w, t - 1, total);
      PrefixFromWorld(Delivered(w, t - 1, total), chunks, |chunks|, w, t - 1, total);
      assert chunks[..|chunks|] == chunks;
    }
  }

  /** Not done and without a conflict means bytes are missing, so the last new one is recent. */
  lemma {:induction false} SmoothIsOnTime(w: World, t: nat, total: nat, s: Settings)
    requires Smooth(w, total, s)
    ensures var ps := Delivered(w, t + 1, total);
            !Convergence.Succeeds(ps, total, s.detectOverlap)
            && Conflicts(Marks(ps, ChunkCountForSize(total), s.detectOverlap)) == 0 ==>
              Now(w, t) - LastNew(w, t + 1, total) < s.downloadTimeoutMs
  {
    var ps := Delivered(w, t + 1, total);
    DeliveredFromWorld(w, t + 1, total);
    CompletionAgrees(ps, total, s.detectOverlap);
  }

  /** In slot shape and cut from one log, payloads of the world never conflict. */
  lemma {:induction false} HonestSlotsAgree(ps: seq<Piece>, w: World, log: seq<byte>, total: nat)
    requires AllFromWorld(ps, w, total) && SlotWorld(w, total) && Honest(w, log, total)
    ensures OnePrintPerSlot(Marks(ps, ChunkCountForSize(total), true))
  {
    forall i | 0 <= i < |ps| ensures Matches(ps[i], log) && SlotShaped(ps[i], total) {
      assert FromWorld(ps[i], w, total);
      HonestPieceMatches(ps[i], w, log, total);
    }
    MatchingSlotsNeverConflict(ps, total, log);
    MarksDetect(ps, ChunkCountForSize(total), true);
    NoConflictIffOnePrint(Marks(ps, ChunkCountForSize(total), true));
  }

  function AtLeastZero(n: int): nat {
    if n < 0 then 0 else n
  }

  /** Milliseconds until the receive loop gives up, seen from tick `t`. */
  function TimeLeft(w: World, t: nat, dataTime: nat, timeout: int): nat {
    if dataTime + timeout > Now(w, t) then dataTime + timeout - Now(w, t) else 0
  }

  lemma {:induction false} TimeRunsDown(w: World, t: nat, dataTime: nat, timeout: int)
    requires Now(w, t) - dataTime < timeout
    ensures TimeLeft(w, t + 1, dataTime, timeout) < TimeLeft(w, t, dataTime, timeout)
  {
  }

  lemma {:induction false} CoveredSize(ps: seq<Piece>, total: nat)
    requires Within(ps, total)
    ensures |Covered(ps)| <= total
  {
    CoveredWithin(ps, total);
    SubsetSize(Covered(ps), Interval(0, total));
    IntervalSize(0, total);
  }

  lemma {:induction false} UnionSize(a: set<int>, b: set<int>)
    ensures |a + b| <= |a| + |b|
  {
    assert a + b == a + (b - a);
    SubsetSize(b - a, b);
  }

  lemma {:induction false} AddInterval(a: set<int>, lo: int, len: nat)
    ensures |a + Interval(lo, lo + len)| <= |a| + len
  {
    var b := Interval(lo, lo + len);
    assert |b| == len by {
      IntervalSize(lo, lo + len);
    }
    UnionSize(a, b);
  }

  /** Distinct offsets cannot outnumber the hashed bytes. */
  lemma {:induction false} StreamCovers(ps: seq<Piece>)
    ensures |Covered(ps)| <= |Stream(ps)|
  {
    if ps != [] {
      StreamCovers(ps[..|ps| - 1]);
      AddInterval(Covered(ps[..|ps| - 1]), ps[|ps| - 1].ofs, |ps[|ps| - 1].data|);
    }
  }

  /** The step from a conflict-free history: the next mark conflicts only by a second fingerprint. */
  lemma {:induction false} ConflictMeansTwoPrints(ps: seq<Piece>, p: Piece, n: nat, detect: bool)
    requires Conflicts(Marks(ps, n, detect)) == 0
    ensures Marks(ps + [p], n, detect) ==
            Marks(ps, n, detect) + ChunkCoverageTracker.MarksFor(n, p.ofs, p.data, detect)
    ensures ChunkCoverageTracker.MarksFor(n, p.ofs, p.data, detect) == [] || !detect ==>
              Conflicts(Marks(ps + [p], n, detect)) == 0
    ensures Conflicts(Marks(ps + [p], n, detect)) != 0 ==> detect && !OnePrintPerSlot(Marks(ps + [p], n, detect))
  {
    Transfer.Snoc(ps, p, n, detect);
    MarksDetect(ps + [p], n, detect);
    assert Marks(ps, n, detect) + [] == Marks(ps, n, detect);
    if detect {
      NoConflictIffOnePrint(Marks(ps + [p], n, detect));
    }
  }

  lemma {:induction false} ClipLength(c: Chunk, total: nat, len: nat)
    requires c.offset < total && 0 < |c.data|
    requires len == if c.offset + |c.data| > total then total - c.offset else |c.data|
    ensures Clip(c, total) == [Piece(c.offset, c.data[..len])]
  {
    assert c.data[..|c.data|] == c.data;
  }

  lemma {:induction false} WithinSnoc(ps: seq<Piece>, p: Piece, total: nat)
    requires Within(ps, total) && 0 < |p.data| <= 255 && p.ofs + |p.data| <= total
    ensures Within(ps + [p], total)
  {
  }

  /** The smaller of the setting and the size, as a 32-bit unsigned number. */
  function ProbeCount(total: nat, probeBytes: int): nat
    requires total < 0x8000_0000
  {
    var n := if probeBytes < total then probeBytes else total;
    if n >= 0 then n else n % U32
  }

  class StreamDownloadSession {
    const total: nat
    const probeBytes: int
    const writeFile: bool
    const settings: Settings
    // The locals that `run` hands to `processQueuedChunks` by reference.
    const ranges: ReceivedRanges
    const coverage: ChunkCoverageTracker
    const digests: StreamDigests
    /** The content of the partial file, opened truncated. */
    var file: seq<byte>
    /** The accepted payloads in arrival order. */
    ghost var pieces: seq<Piece>

    ghost predicate RangesAgree(ps: seq<Piece>)
      reads ranges
    {
      ranges.Valid() && ranges.Received() == Covered(ps)
    }

    ghost predicate CoverageAgrees(ps: seq<Piece>)
      reads coverage
    {
      && coverage.Valid() && coverage.totalSize == total && coverage.overlapConflicts == 0
      && coverage.history == Marks(ps, ChunkCountForSize(total), settings.detectOverlap)
    }

    ghost predicate DigestsAgree(ps: seq<Piece>)
      reads digests, digests.hasher, digests.hasher.state, digests.hasher.buffer
    {
      total < 0x8000_0000 && digests.Valid() && digests.hasher.Fed() == Stream(ps) && digests.probeN == ProbeN()
    }

    ghost predicate FileAgrees(ps: seq<Piece>)
      reads this`file
    {
      file == if writeFile then Image(ps) else []
    }

    /** Ranges, bitmap, hasher and file are four views of the same accepted payloads. */
    ghost predicate Valid()
      reads this, ranges, coverage, digests, digests.hasher, digests.hasher.state, digests.hasher.buffer
    {
      && total < 0x8000_0000 && -0x8000_0000 <= probeBytes && Within(pieces, total)
      && RangesAgree(pieces) && CoverageAgrees(pieces) && DigestsAgree(pieces) && FileAgrees(pieces)
    }

    function ProbeN(): nat
      requires total < 0x8000_0000
    {
      ProbeCount(total, probeBytes)
    }

    /** The probe length as it is reported: cast back to a signed number. */
    function SignedProbeN(): (n: int)
      requires total < 0x8000_0000 && -0x8000_0000 <= probeBytes
      ensures n == if probeBytes < total then probeBytes else total
    {
      if ProbeN() < 0x8000_0000 then ProbeN() else ProbeN() - U32
    }

    constructor (total: nat, probeBytes: int, writeFile: bool, settings: Settings)
      requires total < 0x8000_0000 && -0x8000_0000 <= probeBytes
      ensures Valid() && pieces == []
      ensures fresh(ranges) && fresh(coverage) && fresh(digests)
      ensures fresh(digests.hasher) && fresh(digests.hasher.state) && fresh(digests.hasher.buffer)
      ensures this.total == total && this.probeBytes == probeBytes && this.writeFile == writeFile && this.settings == settings
    {
      this.total, this.probeBytes, this.writeFile, this.settings := total, probeBytes, writeFile, settings;
      ranges := new ReceivedRanges();
      coverage := new ChunkCoverageTracker(total);
      var n := if probeBytes < total then probeBytes else total;
      digests := new StreamDigests(if n >= 0 then n else n % U32);
      file, pieces := [], [];
    }

    /** The tracker stopped the session at the last of these payloads: a slot saw two fingerprints. */
    ghost predicate Conflicted(ps: seq<Piece>)
      reads coverage
    {
      && settings.detectOverlap && Within(ps, total) && !OnePrintPerSlot(coverage.history)
      && coverage.history == Marks(ps, ChunkCountForSize(total), settings.detectOverlap)
    }

    /** The conflict is one among payloads of the world. */
    ghost predicate ConflictFrom(world: World)
      reads coverage
    {
      exists ps :: AllFromWorld(ps, world, total) && Conflicted(ps)
    }

    lemma {:induction false} HonestNeverConflicts(world: World, log: seq<byte>)
      requires SlotWorld(world, total) && Honest(world, log, total)
      ensures !ConflictFrom(world)
    {
      forall ps | AllFromWorld(ps, world, total) ensures !Conflicted(ps) {
        HonestSlotsAgree(ps, world, log, total);
      }
    }

    method RecordPiece(ofs: nat, data: seq<byte>, ghost after: seq<Piece>) returns (ok: bool)
      requires CoverageAgrees(pieces) && Within(after, total) && after == pieces + [Piece(ofs, data)]
      modifies coverage
      ensures ok ==> CoverageAgrees(after)
      ensures !ok ==> Conflicted(after)
    {
      ConflictMeansTwoPrints(pieces, Piece(ofs, data), ChunkCountForSize(total), settings.detectOverlap);
      ok := coverage.Record(ofs, data, settings.detectOverlap);
    }

    method HashPiece(ofs: nat, data: seq<byte>, ghost after: seq<Piece>)
      requires DigestsAgree(pieces) && 0 < |data| <= 255 && after == pieces + [Piece(ofs, data)]
      modifies digests, digests.hasher, digests.hasher.state, digests.hasher.buffer
      ensures DigestsAgree(after)
    {
      Transfer.Snoc(pieces, Piece(ofs, data), 0, false);
      digests.Take(data);
    }

    method AddPiece(ofs: nat, data: seq<byte>, ghost after: seq<Piece>)
      requires RangesAgree(pieces) && ofs + |data| < U32 && after == pieces + [Piece(ofs, data)]
      modifies ranges
      ensures RangesAgree(after)
    {
      Transfer.Snoc(pieces, Piece(ofs, data), 0, false);
      ranges.Add(ofs, |data|);
    }

    method WritePiece(ofs: nat, data: seq<byte>, ghost after: seq<Piece>)
      requires FileAgrees(pieces) && after == pieces + [Piece(ofs, data)]
      modifies this`file
      ensures FileAgrees(after)
    {
      Transfer.Snoc(pieces, Piece(ofs, data), 0, false);
      if writeFile {
        file := WriteAt(file, ofs, data);
      }
    }

    method WriteAndRecordPiece(ofs: nat, data: seq<byte>, ghost after: seq<Piece>) returns (ok: bool)
      requires FileAgrees(pieces) && CoverageAgrees(pieces) && Within(after, total) && after == pieces + [Piece(ofs, data)]
      modifies this`file, coverage
      ensures FileAgrees(after)
      ensures ok ==> CoverageAgrees(after)
      ensures !ok ==> Conflicted(after)
    {
      WritePiece(ofs, data, after);
      ok := RecordPiece(ofs, data, after);
    }

    /** Writes, records, hashes and merges one clipped payload; stops at an overlap conflict. */
    method AcceptPiece(ofs: nat, data: seq<byte>) returns (ok: bool)
      requires Valid() && 0 < |data| <= 255 && ofs + |data| <= total
      modifies this`file, this`pieces, ranges, coverage, digests, digests.hasher, digests.hasher.state, digests.hasher.buffer
      ensures ok ==> Valid() && pieces == old(pieces) + [Piece(ofs, data)]
      ensures !ok ==> Conflicted(old(pieces) + [Piece(ofs, data)])
    {
      ghost var after := pieces + [Piece(ofs, data)];
      WithinSnoc(pieces, Piece(ofs, data), total);
      ok := WriteAndRecordPiece(ofs, data, after);
      if ok {
        HashAndAddPiece(ofs, data, after);
      }
    }

    method HashAndAddPiece(ofs: nat, data: seq<byte>, ghost after: seq<Piece>)
      requires after == pieces + [Piece(ofs, data)] && Within(after, total) && total < 0x8000_0000
      requires -0x8000_0000 <= probeBytes
      requires 0 < |data| <= 255 && ofs + |data| <= total
      requires FileAgrees(after) && CoverageAgrees(after) && RangesAgree(pieces) && DigestsAgree(pieces)
      modifies this`pieces, ranges, digests, digests.hasher, digests.hasher.state, digests.hasher.buffer
      ensures Valid() && pieces == after
    {
      AddPiece(ofs, data, after);
      HashPiece(ofs, data, after);
      Publish(after);
    }

    ghost method Publish(after: seq<Piece>)
      requires Within(after, total) && total < 0x8000_0000 && -0x8000_0000 <= probeBytes
      requires FileAgrees(after) && CoverageAgrees(after) && RangesAgree(after) && DigestsAgree(after)
      modifies this`pieces
      ensures Valid() && pieces == after
    {
      pieces := after;
    }

    /** One pass of the chunk loop: skip, clip, accept. */
    method ProcessChunk(chunk: WireChunk) returns (ok: bool)
      requires Valid()
      modifies this`file, this`pieces, ranges, coverage, digests, digests.hasher, digests.hasher.state, digests.hasher.buffer
      ensures ok ==> Valid() && pieces == old(pieces) + Clip(chunk, total)
      ensures !ok ==> Conflicted(old(pieces) + Clip(chunk, total))
    {
      if chunk.offset >= total {
        return true;
      }
      var writeOfs, writeLen := chunk.offset, |chunk.data|;
      if writeOfs + writeLen > total {
        writeLen := total - writeOfs;
      }
      if writeLen == 0 {
        return true;
      }
      ClipLength(chunk, total, writeLen);
      ok := AcceptPiece(writeOfs, chunk.data[..writeLen]);
    }

    method ProcessQueuedChunks(chunks: seq<WireChunk>) returns (ok: bool)
      requires Valid()
      modifies this`file, this`pieces, ranges, coverage, digests, digests.hasher, digests.hasher.state, digests.hasher.buffer
      ensures ok ==> Valid() && pieces == old(pieces) + Accepted(chunks, total)
      ensures !ok ==> exists n :: 0 <= n <= |chunks| && Conflicted(old(pieces) + Accepted(chunks[..n], total))
    {
      ghost var start := pieces;
      for i := 0 to |chunks|
        invariant Valid() && pieces == start + Accepted(chunks[..i], total)
      {
        AcceptedStep(chunks, i, total, start);
        var accepted := ProcessChunk(chunks[i]);
        if !accepted {
          return false;
        }
      }
      assert chunks[..|chunks|] == chunks;
      ok := true;
    }

    /** Between two steps of the loops: the views agree and every payload came from the world. */
    ghost predicate Tracking(world: World)
      reads this, ranges, coverage, digests, digests.hasher, digests.hasher.state, digests.hasher.buffer
    {
      forall w {:trigger Unfold(w)} :: Unfold(w) && w == world ==> Valid() && AllFromWorld(pieces, w, total)
    }

    lemma {:induction false} TrackingMeans(world: World)
      ensures Tracking(world) <==> Valid() && AllFromWorld(pieces, world, total)
    {
      assert Unfold(world);
    }

    /** Processes what the queue holds at this tick. */
    method ProcessBatch(world: World, t: nat) returns (ok: bool)
      requires Tracking(world)
      modifies this`file, this`pieces, ranges, coverage, digests, digests.hasher, digests.hasher.state, digests.hasher.buffer
      ensures ok ==> Tracking(world) && old(|Covered(pieces)|) <= |Covered(pieces)|
      ensures ok ==> pieces == old(pieces) + Accepted(world.batch(t), total)
      ensures !ok ==> ConflictFrom(world)
    {
      TrackingMeans(world);
      ghost var before := pieces;
      var chunks := world.batch(t);
      ok := ProcessQueuedChunks(chunks);
      if ok {
        BatchGrows(before, world, t, total);
        TrackingMeans(world);
      } else {
        ghost var n :| 0 <= n <= |chunks| && Conflicted(before + Accepted(chunks[..n], total));
        PrefixFromWorld(before, chunks, n, world, t, total);
      }
    }

    method CountReceived(ghost world: World) returns (received: nat)
      requires Tracking(world)
      ensures received == |Covered(pieces)| <= total
    {
      TrackingMeans(world);
      CoveredSize(pieces, total);
      received := ranges.BytesReceived();
    }

    /** Drains the queue once; `received` counts the distinct bytes afterwards. */
    method DrainQueue(world: World, t: nat) returns (ok: bool, received: nat)
      requires Tracking(world)
      modifies this`file, this`pieces, ranges, coverage, digests, digests.hasher, digests.hasher.state, digests.hasher.buffer
      ensures ok ==> Tracking(world) && received == |Covered(pieces)| && old(|Covered(pieces)|) <= received <= total
      ensures ok ==> pieces == old(pieces) + Accepted(world.batch(t), total)
      ensures !ok ==> ConflictFrom(world)
    {
      received := 0;
      ok := ProcessBatch(world, t);
      if ok {
        received := CountReceived(world);
      }
    }

    /** The last new byte is the timeout or more ago and the session is not done. */
    ghost predicate Late(world: World, t: nat, dataTime: nat)
      reads this, coverage
    {
      && Now(world, t) - dataTime >= settings.downloadTimeoutMs
      && !Convergence.Succeeds(pieces, total, settings.detectOverlap)
      && Conflicts(Marks(pieces, ChunkCountForSize(total), settings.detectOverlap)) == 0
    }

    /** The rest of the loop body: finished, gap request, timeout, or another wait. */
    method Decide(world: World, t: nat, dataTime: nat, lastGap: int)
      returns (outcome: Outcome, gapTime: int, sent: seq<Request>)
      requires Tracking(world)
      ensures outcome.Done? <==> Convergence.Succeeds(pieces, total, settings.detectOverlap)
      ensures outcome.TimedOut? ==> Late(world, t, dataTime)
      ensures outcome.Waiting? ==> Now(world, t) - dataTime < settings.downloadTimeoutMs
      ensures !outcome.Conflict? && !outcome.Stopped?
      ensures forall i, x :: 0 <= i < |sent| && x in Interval(sent[i].start, sent[i].start + sent[i].count) ==>
                x in Interval(0, total) && x !in Covered(pieces)
      ensures Covered(pieces) == Interval(0, total) ==> sent == []
    {
      TrackingMeans(world);
      CoveredWithin(pieces, total);
      gapTime, sent := lastGap, [];
      var rangeComplete := ranges.Complete(total);
      var slotsComplete := coverage.AllSlotsReceived();
      if rangeComplete && slotsComplete {
        return Done, gapTime, sent;
      }
      var now := Now(world, t);
      if !rangeComplete && now - dataTime >= settings.gapFillIdleMs &&
         (lastGap < 0 || now - lastGap >= settings.gapFillIdleMs) {
        ghost var gaps;
        sent, gaps := RequestMergedGaps(ranges, total);
        gapTime := now;
      }
      if now - dataTime >= settings.downloadTimeoutMs {
        return TimedOut(ClassifyTimeout(world.connected(t), world.heartbeatFresh(t))), gapTime, sent;
      }
      outcome := Waiting;
    }

    /** One iteration of the receive loop. A wait follows new bytes, or time is left on the same data. */
    method Tick(world: World, t: nat, lastData: nat, lastGap: int, lastProgress: nat)
      returns (outcome: Outcome, dataTime: nat, gapTime: int, progress: nat)
      requires Tracking(world) && lastProgress == |Covered(pieces)|
      modifies this`file, this`pieces, ranges, coverage, digests, digests.hasher, digests.hasher.state, digests.hasher.buffer
      ensures outcome.Conflict? ==> ConflictFrom(world)
      ensures !outcome.Conflict? ==> Tracking(world) && lastProgress <= progress == |Covered(pieces)| <= total
      ensures !outcome.Conflict? ==> pieces == old(pieces) + Accepted(world.batch(t), total)
      ensures !outcome.Conflict? ==> dataTime == if progress > lastProgress then Now(world, t) else lastData
      ensures outcome.Done? ==> Covered(pieces) == Interval(0, total)
      ensures outcome.TimedOut? ==> Late(world, t, dataTime)
      ensures outcome.Waiting? && progress == lastProgress ==>
                TimeLeft(world, t + 1, dataTime, settings.downloadTimeoutMs) <
                TimeLeft(world, t, lastData, settings.downloadTimeoutMs)
      ensures !outcome.Stopped?
    {
      dataTime, gapTime, progress := lastData, lastGap, lastProgress;
      var ok, received := DrainQueue(world, t);
      if ok {
        if received > progress {
          dataTime := Now(world, t);
          progress := received;
        }
        var sent;
        outcome, gapTime, sent := Decide(world, t, dataTime, gapTime);
        if outcome.Waiting? {
          TimeRunsDown(world, t, dataTime, settings.downloadTimeoutMs);
        }
      } else {
        outcome := Conflict;
      }
    }

    /** Under a smooth world: everything delivered before tick `t` is in, and the time of the last new byte is known. */
    ghost predicate InStep(world: World, t: nat, dataTime: nat)
      reads this
    {
      forall w {:trigger Unfold(w)} :: Unfold(w) && w == world ==>
        Smooth(w, total, settings) && pieces == Delivered(w, t, total) && dataTime == LastNew(w, t, total)
    }

    lemma {:induction false} InStepMeans(world: World, t: nat, dataTime: nat)
      ensures InStep(world, t, dataTime) <==>
              Smooth(world, total, settings) && pieces == Delivered(world, t, total) && dataTime == LastNew(world, t, total)
    {
      assert Unfold(world);
    }

    lemma {:induction false} NeverLate(world: World, t: nat, dataTime: nat)
      requires InStep(world, t + 1, dataTime)
      ensures !Late(world, t, dataTime)
    {
      InStepMeans(world, t + 1, dataTime);
      SmoothIsOnTime(world, t, total, settings);
    }

    lemma {:induction false} NeverCancelled(world: World, t: nat, dataTime: nat)
      requires InStep(world, t, dataTime)
      ensures !world.cancelled(t)
    {
      InStepMeans(world, t, dataTime);
    }

    /** A tick under a smooth world keeps the session in step and does not time out. */
    method TickInStep(world: World, t: nat, lastData: nat, lastGap: int, lastProgress: nat)
      returns (outcome: Outcome, dataTime: nat, gapTime: int, progress: nat)
      requires Tracking(world) && lastProgress == |Covered(pieces)|
      modifies this`file, this`pieces, ranges, coverage, digests, digests.hasher, digests.hasher.state, digests.hasher.buffer
      ensures outcome.Conflict? ==> ConflictFrom(world)
      ensures !outcome.Conflict? ==> Tracking(world) && lastProgress <= progress == |Covered(pieces)| <= total
      ensures outcome.Done? ==> Covered(pieces) == Interval(0, total)
      ensures outcome.Waiting? && progress == lastProgress ==>
                TimeLeft(world, t + 1, dataTime, settings.downloadTimeoutMs) <
                TimeLeft(world, t, lastData, settings.downloadTimeoutMs)
      ensures !outcome.Stopped?
      ensures old(InStep(world, t, lastData)) && !outcome.Conflict? ==> InStep(world, t + 1, dataTime) && !outcome.TimedOut?
    {
      ghost var inStep := InStep(world, t, lastData);
      InStepMeans(world, t, lastData);
      outcome, dataTime, gapTime, progress := Tick(world, t, lastData, lastGap, lastProgress);
      if inStep && !outcome.Conflict? {
        InStepMeans(world, t + 1, dataTime);
        NeverLate(world, t, dataTime);
      }
    }

    /**
     * One pass of the receive loop. It terminates because every iteration either receives a new
     * byte or lets time run towards the timeout. Returns the next tick and the time of the last
     * gap request, -1 if there was none.
     */
    method ReceivePass(world: World, start: nat, lastGap: int, lastProgress: nat)
      returns (outcome: Outcome, next: nat, gapTime: int, progress: nat)
      requires Tracking(world) && lastProgress == |Covered(pieces)| <= total
      modifies this`file, this`pieces, ranges, coverage, digests, digests.hasher, digests.hasher.state, digests.hasher.buffer
      ensures outcome.Conflict? ==> ConflictFrom(world)
      ensures !outcome.Conflict? ==> Tracking(world) && lastProgress <= progress == |Covered(pieces)| <= total
      ensures outcome.Done? ==> Covered(pieces) == Interval(0, total)
      ensures !outcome.Waiting? && next > start
      ensures old(InStep(world, start, Now(world, start))) ==> outcome.Done? || outcome.Conflict?
    {
      var t, dataTime := start, Now(world, start);
      ghost var smooth := InStep(world, t, dataTime);
      outcome, gapTime, progress := Stopped, lastGap, lastProgress;
      while !world.cancelled(t)
        invariant t >= start && outcome == Stopped
        invariant smooth ==> InStep(world, t, dataTime)
        invariant Tracking(world) && lastProgress <= progress == |Covered(pieces)| <= total
        decreases total - progress, TimeLeft(world, t, dataTime, settings.downloadTimeoutMs)
      {
        outcome, dataTime, gapTime, progress := TickInStep(world, t, dataTime, gapTime, progress);
        if !outcome.Waiting? {
          break;
        }
        outcome := Stopped;
        t := t + 1;
      }
      if smooth && outcome == Stopped {
        NeverCancelled(world, t, dataTime);
      }
      next := t + 1;
    }

    static method NextStep(budget: Budget, settings: Settings, noted: Failure, before: nat, after: nat, zeroSeen: bool)
      returns (step: PassStep)
      requires budget.failure != OverlapConflict && noted != OverlapConflict
      ensures !step.Finished?
      ensures step.Continue? ==> Spends(budget, step.budget, settings) && step.budget.failure != OverlapConflict
      ensures step.Failed? ==> step.why != NoFailure && step.why != OverlapConflict
    {
      PassSpendsOne(budget, settings, noted, before, after, zeroSeen);
      var verdict := AfterPass(budget, settings, noted, before, after, zeroSeen);
      step := if verdict.Abort? then Failed(verdict.why) else Continue(verdict.budget);
    }

    /** One pass of the retry loop: a stream request, the receive loop, and the budgets. */
    method OnePass(world: World, start: nat, lastGap: int, lastProgress: nat, budget: Budget)
      returns (step: PassStep, next: nat, gapTime: int, progress: nat)
      requires Tracking(world) && lastProgress == |Covered(pieces)| <= total && budget.failure != OverlapConflict
      modifies this`file, this`pieces, ranges, coverage, digests, digests.hasher, digests.hasher.state, digests.hasher.buffer
      ensures step.Finished? ==> Tracking(world) && Covered(pieces) == Interval(0, total)
      ensures step.Continue? ==> Tracking(world) && progress == |Covered(pieces)| <= total
      ensures step.Continue? ==> Spends(budget, step.budget, settings) && step.budget.failure != OverlapConflict
      ensures step.Failed? ==> step.why != NoFailure
      ensures step == Failed(OverlapConflict) ==> ConflictFrom(world)
      ensures old(InStep(world, start, Now(world, start))) ==> step.Finished? || step == Failed(OverlapConflict)
    {
      var zeroBefore := world.zeroLength(start);
      var outcome;
      outcome, next, gapTime, progress := ReceivePass(world, start, lastGap, lastProgress);
      if outcome.Conflict? {
        step := Failed(OverlapConflict);
      } else if outcome.Done? {
        step := Finished;
      } else {
        var noted := if outcome.TimedOut? then outcome.why else budget.failure;
        var zeroSeen := world.zeroLength(next) > zeroBefore;
        step := NextStep(budget, settings, noted, lastProgress, progress, zeroSeen);
      }
    }

    lemma {:induction false} Attempted(world: World)
      requires InStep(world, 0, 0)
      ensures settings.retryCount >= 0 && !world.cancelledAtPass(0)
    {
      InStepMeans(world, 0, 0);
    }

    /** The retry loop. Every pass but the busy back-offs uses up one of `retryCount + 1` attempts. */
    method RunPasses(world: World) returns (success: bool, failure: Failure, passes: nat, busyWaits: nat)
      requires Tracking(world) && pieces == []
      modifies this`file, this`pieces, ranges, coverage, digests, digests.hasher, digests.hasher.state, digests.hasher.buffer
      ensures success ==> Tracking(world) && Covered(pieces) == Interval(0, total)
      ensures !success ==> failure != NoFailure
      ensures failure == OverlapConflict && !success ==> ConflictFrom(world)
      ensures old(InStep(world, 0, 0)) ==> success || failure == OverlapConflict
      ensures passes <= AtLeastZero(settings.retryCount + 1) + busyWaits && busyWaits <= AtLeastZero(settings.busyRetryAttempts)
    {
      ghost var smooth := InStep(world, 0, 0);
      passes := 0;
      var budget := Budget(0, 0, 0, NoFailure);
      var t, lastGap, progress := 0, -1, 0;
      if smooth {
        Attempted(world);
      }
      while budget.attempt <= settings.retryCount
        invariant budget.failure != OverlapConflict
        invariant smooth ==> t == 0 && budget.attempt == 0 && InStep(world, 0, 0)
        invariant Tracking(world) && progress == |Covered(pieces)| <= total
        invariant passes == budget.attempt + budget.busyWaits
        invariant budget.attempt <= AtLeastZero(settings.retryCount + 1)
        invariant budget.busyWaits <= AtLeastZero(settings.busyRetryAttempts)
        decreases settings.retryCount - budget.attempt, settings.busyRetryAttempts - budget.busyWaits
      {
        if world.cancelledAtPass(t) {
          return false, Cancelled, passes, budget.busyWaits;
        }
        passes := passes + 1;
        var step;
        step, t, lastGap, progress := OnePass(world, t, lastGap, progress, budget);
        if step.Finished? {
          return true, budget.failure, passes, budget.busyWaits;
        }
        if step.Failed? {
          return false, step.why, passes, budget.busyWaits;
        }
        budget := step.budget;
        t := t + 1;
      }
      success, failure, busyWaits := false, budget.failure, budget.busyWaits;
      if failure == NoFailure {
        TrackingMeans(world);
        var complete := ranges.Complete(total);
        failure := if complete then VerificationFailed else IncompleteDownload;
      }
    }

    /** What a successful session reports: coverage, file, fingerprints and the two digests. */
    ghost predicate Reported(world: World, r: Result)
      reads this, ranges, coverage
    {
      && Within(pieces, total) && AllFromWorld(pieces, world, total)
      && Covered(pieces) == Interval(0, total) && RangesAgree(pieces) && FileAgrees(pieces)
      && (settings.detectOverlap ==> OnePrintPerSlot(Marks(pieces, ChunkCountForSize(total), settings.detectOverlap)))
      && IsHexDigest(r.sha256, Stream(pieces)) && total <= |Stream(pieces)| && total < 0x8000_0000
      && (NoWrap(Stream(pieces), ProbeN()) ==> IsHexDigest(r.probeSha256, Probed(Stream(pieces), ProbeN())))
      && r.probeBytes == if total == 0 || probeBytes < total then probeBytes else total
    }

    /** An empty log is not asked for. */
    method ReportEmpty(world: World) returns (result: Result)
      requires Valid() && pieces == [] && total == 0
      ensures result.success && result.passes == 0 && result.busyWaits == 0 && Reported(world, result)
    {
      var empty := Sha256.HashHex([]);
      assert Interval(0, 0) == Covered([]);
      assert Probed(Stream([]), ProbeN()) == [];
      MarksDetect([], ChunkCountForSize(total), settings.detectOverlap);
      result := Result(true, NoFailure, empty, empty, probeBytes, 0, 0);
    }

    method ReportComplete(world: World, failure: Failure, passes: nat, busyWaits: nat) returns (result: Result)
      requires Valid() && AllFromWorld(pieces, world, total) && Covered(pieces) == Interval(0, total) && total > 0
      modifies digests, digests.hasher, digests.hasher.state, digests.hasher.buffer
      ensures result.success && result.passes == passes && result.busyWaits == busyWaits && Reported(world, result)
    {
      StreamCovers(pieces);
      IntervalSize(0, total);
      MarksDetect(pieces, ChunkCountForSize(total), settings.detectOverlap);
      if settings.detectOverlap {
        NoConflictIffOnePrint(coverage.history);
      }
      var full, probe := digests.Finish();
      result := Result(true, failure, full, probe, SignedProbeN(), passes, busyWaits);
    }

    /**
     * A whole session. On success the accepted payloads cover the log exactly once or more, the file
     * is their image, and the digests are those of the arrival-order stream and of its first
     * `ProbeN()` bytes.
     */
    method Run(world: World) returns (result: Result)
      requires Valid() && pieces == []
      modifies this`file, this`pieces, ranges, coverage, digests, digests.hasher, digests.hasher.state, digests.hasher.buffer
      ensures !result.success ==> result.failure != NoFailure
      ensures !result.success && result.failure == OverlapConflict ==> ConflictFrom(world)
      ensures result.passes <= AtLeastZero(settings.retryCount + 1) + result.busyWaits
      ensures result.busyWaits <= AtLeastZero(settings.busyRetryAttempts)
      ensures result.success ==> Reported(world, result)
      ensures Smooth(world, total, settings) ==> result.success || result.failure == OverlapConflict
    {
      if total == 0 {
        result := ReportEmpty(world);
        return;
      }
      TrackingMeans(world);
      InStepMeans(world, 0, 0);
      var success, failure, passes, busyWaits := RunPasses(world);
      if !success {
        return Result(false, failure, "", "", SignedProbeN(), passes, busyWaits);
      }
      TrackingMeans(world);
      result := ReportComplete(world, failure, passes, busyWaits);
    }
  }
}
