/** The DataFlash record walker, and the printer it undoes. */
module DataFlash {
  type octet = n: nat | n < 256

  const HEAD1: octet := 0xA3
  const HEAD2: octet := 0x95
  const FMT_TYPE: octet := 0x80
  const FMT_SIZE: nat := 3 + 1 + 1 + 4 + 16 + 64

  datatype Error = NoError | EmptyBuffer | TruncatedFmt | MessagePastEnd | NoFmtFound

  datatype ValidationResult = ValidationResult(ok: bool, error: Error, resyncs: nat, bad: nat, scanned: nat)

  datatype FormatEntry = FormatEntry(length: octet, defined: bool)

  /** One entry per message type. */
  type Formats = s: seq<FormatEntry> | |s| == 256 witness seq(256, _ => FormatEntry(0, false))

  function NoFormats(): Formats {
    seq(256, _ => FormatEntry(0, false))
  }

  // ---- The walker ----

  /**
   * The loop state: position, formats, counters and the end of the last record, and for the
   * accounting the bytes inside records and the short-length skips.
   */
  datatype Walker = Walker(pos: nat, formats: Formats, haveFmt: bool, resyncs: nat, bad: nat, scanned: nat,
                           recordBytes: nat, shortSkips: nat)

  datatype Move = Go(w: Walker) | Halt(error: Error, at: nat)

  /** One iteration of the loop. */
  function Step(data: seq<octet>, w: Walker): Move
    requires w.pos + 3 <= |data|
  {
    var msgType := data[w.pos + 2];
    if data[w.pos] != HEAD1 || data[w.pos + 1] != HEAD2 then
      Go(w.(pos := w.pos + 1, resyncs := w.resyncs + 1))
    else if msgType == FMT_TYPE then
      if w.pos + FMT_SIZE > |data| then Halt(TruncatedFmt, w.pos)
      else Go(Record(w, FMT_SIZE).(formats := SetFormat(w.formats, data[w.pos + 3], data[w.pos + 4]), haveFmt := true))
    else if !w.haveFmt then
      Go(w.(pos := w.pos + 1, resyncs := w.resyncs + 1))
    else if !w.formats[msgType].defined then
      Go(w.(pos := w.pos + 1, resyncs := w.resyncs + 1, bad := w.bad + 1))
    else if w.formats[msgType].length < 3 then
      Go(w.(pos := w.pos + 1, bad := w.bad + 1, shortSkips := w.shortSkips + 1))
    else if w.pos + w.formats[msgType].length > |data| then
      Halt(MessagePastEnd, w.pos)
    else
      Go(Record(w, w.formats[msgType].length))
  }

  function SetFormat(fm: Formats, typeId: octet, length: octet): Formats {
    fm[typeId := FormatEntry(length, true)]
  }

  /** Moves over one record of `n` bytes. */
  function Record(w: Walker, n: nat): Walker {
    w.(pos := w.pos + n, scanned := w.pos + n, recordBytes := w.recordBytes + n)
  }

  /** Where the loop ends: the last state, and the error that stopped it early, if any. */
  function Walk(data: seq<octet>, w: Walker): (r: (Walker, Error))
    decreases |data| - w.pos
  {
    if w.pos + 3 > |data| then (w, NoError) else
    match Step(data, w)
    case Go(next) => Walk(data, next)
    case Halt(error, at) => (w.(scanned := at), error)
  }

  function Start(): Walker {
    Walker(0, NoFormats(), false, 0, 0, 0, 0, 0)
  }

  function Validate(data: seq<octet>): ValidationResult {
    if data == [] then ValidationResult(false, EmptyBuffer, 0, 0, 0) else
    var (w, error) := Walk(data, Start());
    var verdict := if error == NoError && !w.haveFmt then NoFmtFound else error;
    ValidationResult(verdict == NoError, verdict, w.resyncs, w.bad, w.scanned)
  }

  method ValidateBytes(data: seq<octet>) returns (result: ValidationResult)
    ensures result == Validate(data)
  {
    if |data| == 0 {
      return ValidationResult(false, EmptyBuffer, 0, 0, 0);
    }
    var formats := new FormatEntry[256](_ => FormatEntry(0, false));
    assert formats[..] == NoFormats();
    var pos: nat, resyncs: nat, bad: nat, scanned: nat := 0, 0, 0, 0;
    var haveFmt := false;
    ghost var inside: nat := 0;
    ghost var skips: nat := 0;
    while pos + 3 <= |data|
      invariant Walk(data, Start()) == Walk(data, Walker(pos, formats[..], haveFmt, resyncs, bad, scanned, inside, skips))
    {
      if data[pos] != HEAD1 || data[pos + 1] != HEAD2 {
        pos, resyncs := pos + 1, resyncs + 1;
        continue;
      }
      var msgType := data[pos + 2];
      if msgType == FMT_TYPE {
        if pos + FMT_SIZE > |data| {
          return ValidationResult(false, TruncatedFmt, resyncs, bad, pos);
        }
        ghost var before := formats[..];
        formats[data[pos + 3]] := FormatEntry(data[pos + 4], true);
        assert formats[..] == SetFormat(before, data[pos + 3], data[pos + 4]);
        haveFmt := true;
        pos, scanned, inside := pos + FMT_SIZE, pos + FMT_SIZE, inside + FMT_SIZE;
        continue;
      }
      if !haveFmt {
        pos, resyncs := pos + 1, resyncs + 1;
        continue;
      }
      if !formats[msgType].defined {
        pos, bad, resyncs := pos + 1, bad + 1, resyncs + 1;
        continue;
      }
      var length := formats[msgType].length;
      if length < 3 {
        pos, bad, skips := pos + 1, bad + 1, skips + 1;
        continue;
      }
      if pos + length > |data| {
        return ValidationResult(false, MessagePastEnd, resyncs, bad, pos);
      }
      pos, scanned, inside := pos + length, pos + length, inside + length;
    }
    if !haveFmt {
      return ValidationResult(false, NoFmtFound, resyncs, bad, scanned);
    }
    result := ValidationResult(true, NoError, resyncs, bad, scanned);
  }

  // ---- Accounting ----

  /** Every byte before the position is inside a record, a resync or a short-length skip. */
  ghost predicate Accounted(w: Walker) {
    w.recordBytes + w.resyncs + w.shortSkips == w.pos && w.shortSkips <= w.bad <= w.shortSkips + w.resyncs
  }

  lemma {:induction false} WalkAccounts(data: seq<octet>, w: Walker)
    requires Accounted(w)
    ensures Accounted(Walk(data, w).0)
    ensures Walk(data, w).1 == NoError ==> Walk(data, w).0.pos + 3 > |data|
    ensures Walk(data, w).1 != NoError ==> Walk(data, w).0.scanned == Walk(data, w).0.pos
    decreases |data| - w.pos
  {
    if w.pos + 3 <= |data| && Step(data, w).Go? {
      WalkAccounts(data, Step(data, w).w);
    }
  }

  /**
   * At every exit, with or without an error: each byte before the final position lies inside a
   * record, or is a resync, or a short-length skip; an error exit reports that position as scanned,
   * a normal one stops within the last two bytes.
   */
  lemma {:induction false} EveryByteAccounted(data: seq<octet>)
    ensures var (w, error) := Walk(data, Start());
            && w.recordBytes + w.resyncs + w.shortSkips == w.pos
            && w.shortSkips <= w.bad <= w.shortSkips + w.resyncs
            && (if error == NoError then w.pos + 3 > |data| else w.scanned == w.pos)
  {
    WalkAccounts(data, Start());
  }

  // ---- The printer ----

  /** A record is its bytes: two header bytes, the message type, and the rest. */
  type LogRecord = seq<octet>

  datatype Records = End | Then(first: LogRecord, rest: Records)

  function PrintAll(rs: Records): seq<octet> {
    match rs
    case End => []
    case Then(first, rest) => first + PrintAll(rest)
  }

  /** A format definition, or a message of a type defined before with that definition's length. */
  predicate RecordFits(fm: Formats, r: LogRecord) {
    |r| >= 3 && r[0] == HEAD1 && r[1] == HEAD2 &&
    if r[2] == FMT_TYPE then |r| == FMT_SIZE else fm[r[2]].defined && fm[r[2]].length == |r|
  }

  /** The formats after a record: a format record carries a type id and a length. */
  function Define(fm: Formats, r: LogRecord): Formats
    requires RecordFits(fm, r)
  {
    if r[2] == FMT_TYPE then SetFormat(fm, r[3], r[4]) else fm
  }

  predicate WellFormed(fm: Formats, rs: Records)
    decreases rs
  {
    match rs
    case End => true
    case Then(first, rest) => RecordFits(fm, first) && WellFormed(Define(fm, first), rest)
  }

  /** `r` is printed at `pos`. */
  ghost predicate RecordAt(data: seq<octet>, pos: nat, r: LogRecord) {
    pos + |r| <= |data| && data[pos..pos + |r|] == r
  }

  /** From `pos` on, `data` holds the records `rs` one after the other, then at most two bytes. */
  ghost predicate RecordsAt(data: seq<octet>, pos: nat, fm: Formats, rs: Records)
    decreases rs
  {
    match rs
    case End => pos <= |data| <= pos + 2
    case Then(first, rest) =>
      RecordFits(fm, first) && RecordAt(data, pos, first) && RecordsAt(data, pos + |first|, Define(fm, first), rest)
  }

  /** The same in one slice: the printed log, then at most two bytes. */
  ghost predicate PrintedAt(data: seq<octet>, pos: nat, fm: Formats, rs: Records) {
    WellFormed(fm, rs) && pos + |PrintAll(rs)| <= |data| <= pos + |PrintAll(rs)| + 2 &&
    data[pos..pos + |PrintAll(rs)|] == PrintAll(rs)
  }

  lemma {:induction false} RecordsAreThePrintedLog(data: seq<octet>, pos: nat, fm: Formats, rs: Records)
    ensures RecordsAt(data, pos, fm, rs) <==> PrintedAt(data, pos, fm, rs)
    decreases rs
  {
    if rs.Then? && RecordFits(fm, rs.first) {
      RecordsAreThePrintedLog(data, pos + |rs.first|, Define(fm, rs.first), rs.rest);
      PrintedRecord(data, pos, fm, rs.first, rs.rest);
    }
  }

  lemma {:induction false} PrintedRecord(data: seq<octet>, pos: nat, fm: Formats, first: LogRecord, rest: Records)
    requires RecordFits(fm, first)
    ensures PrintedAt(data, pos, fm, Then(first, rest)) <==>
            RecordAt(data, pos, first) && PrintedAt(data, pos + |first|, Define(fm, first), rest)
  {
    if pos + |first| + |PrintAll(rest)| <= |data| {
      SliceSplits(data, pos, first, PrintAll(rest));
    }
  }

  lemma {:induction false} SliceSplits(data: seq<octet>, pos: nat, a: seq<octet>, b: seq<octet>)
    requires pos + |a| + |b| <= |data|
    ensures data[pos..pos + |a| + |b|] == a + b <==>
            data[pos..pos + |a|] == a && data[pos + |a|..pos + |a| + |b|] == b
  {
    var all := data[pos..pos + |a| + |b|];
    assert data[pos..pos + |a|] == all[..|a|] && data[pos + |a|..pos + |a| + |b|] == all[|a|..];
    assert all == all[..|a|] + all[|a|..];
    assert (a + b)[..|a|] == a && (a + b)[|a|..] == b;
  }

  /** Formats are only defined once a format record was seen. */
  ghost predicate Consistent(w: Walker) {
    forall t :: 0 <= t < 256 && w.formats[t].defined ==> w.haveFmt
  }

  /** The walker behind a record. */
  function Over(w: Walker, r: LogRecord): Walker
    requires RecordFits(w.formats, r)
  {
    Record(w, |r|).(formats := Define(w.formats, r), haveFmt := w.haveFmt || r[2] == FMT_TYPE)
  }

  /** At a printed record the walker steps over exactly that record. */
  lemma {:induction false} StepOverRecord(data: seq<octet>, w: Walker, r: LogRecord)
    requires Consistent(w) && RecordFits(w.formats, r) && RecordAt(data, w.pos, r)
    ensures Step(data, w) == Go(Over(w, r)) && Consistent(Over(w, r)) && Over(w, r).haveFmt
  {
    assert data[w.pos] == r[0] && data[w.pos + 1] == r[1] && data[w.pos + 2] == r[2];
    if r[2] == FMT_TYPE {
      assert data[w.pos + 3] == r[3] && data[w.pos + 4] == r[4];
    }
  }

  /** Printed records are walked without a resync or a bad message, to their end. */
  lemma {:induction false} WalkRecords(data: seq<octet>, w: Walker, rs: Records)
    requires Consistent(w) && RecordsAt(data, w.pos, w.formats, rs)
    ensures Walk(data, w).1 == NoError
    ensures Walk(data, w).0.resyncs == w.resyncs && Walk(data, w).0.bad == w.bad
    ensures rs.Then? ==> Walk(data, w).0.scanned == w.pos + |PrintAll(rs)| && Walk(data, w).0.haveFmt
    ensures rs.End? ==> Walk(data, w).0 == w
    decreases rs
  {
    if rs.Then? {
      StepOverRecord(data, w, rs.first);
      WalkRecords(data, Over(w, rs.first), rs.rest);
    }
  }

  /** A clean step moves over a record. */
  lemma {:induction false} StepReadsRecord(data: seq<octet>, w: Walker) returns (r: LogRecord)
    requires w.pos + 3 <= |data| && Step(data, w).Go?
    requires Step(data, w).w.resyncs == w.resyncs && Step(data, w).w.bad == w.bad
    ensures RecordFits(w.formats, r) && RecordAt(data, w.pos, r) && Step(data, w).w == Over(w, r)
  {
    r := data[w.pos..Step(data, w).w.pos];
    assert r[0] == data[w.pos] && r[1] == data[w.pos + 1] && r[2] == data[w.pos + 2];
    if r[2] == FMT_TYPE {
      assert r[3] == data[w.pos + 3] && r[4] == data[w.pos + 4];
    }
  }

  /** Counters never go down, so a clean walk only makes clean steps. */
  lemma {:induction false} CountersGrow(data: seq<octet>, w: Walker)
    ensures Walk(data, w).0.resyncs >= w.resyncs && Walk(data, w).0.bad >= w.bad
    decreases |data| - w.pos
  {
    if w.pos + 3 <= |data| && Step(data, w).Go? {
      CountersGrow(data, Step(data, w).w);
    }
  }

  lemma {:induction false} CleanStep(data: seq<octet>, w: Walker)
    requires w.pos + 3 <= |data| && Walk(data, w).1 == NoError
    requires Walk(data, w).0.resyncs == w.resyncs && Walk(data, w).0.bad == w.bad
    ensures Step(data, w).Go? && Walk(data, w) == Walk(data, Step(data, w).w)
    ensures Step(data, w).w.resyncs == w.resyncs && Step(data, w).w.bad == w.bad
    ensures w.pos < Step(data, w).w.pos <= |data|
  {
    CountersGrow(data, Step(data, w).w);
  }

  /** A walk that ends without error, resync or bad message read printed records. */
  lemma {:induction false} CleanWalkReads(data: seq<octet>, w: Walker) returns (rs: Records)
    requires w.pos <= |data| && Walk(data, w).1 == NoError
    requires Walk(data, w).0.resyncs == w.resyncs && Walk(data, w).0.bad == w.bad
    ensures RecordsAt(data, w.pos, w.formats, rs)
    ensures rs.End? ==> Walk(data, w).0 == w
    decreases |data| - w.pos
  {
    if w.pos + 3 > |data| {
      rs := End;
    } else {
      CleanStep(data, w);
      var r := StepReadsRecord(data, w);
      var rest := CleanWalkReads(data, Step(data, w).w);
      rs := Then(r, rest);
    }
  }

  /** The bytes determine the records. */
  lemma {:induction false} RecordsUnique(data: seq<octet>, pos: nat, fm: Formats, rs: Records, qs: Records)
    requires RecordsAt(data, pos, fm, rs) && RecordsAt(data, pos, fm, qs)
    ensures rs == qs
    decreases rs
  {
    if rs.Then? && qs.Then? {
      SameRecord(data, pos, fm, rs.first, qs.first);
      RecordsUnique(data, pos + |rs.first|, Define(fm, rs.first), rs.rest, qs.rest);
    }
  }

  /** A record's type byte settles its length. */
  lemma {:induction false} SameRecord(data: seq<octet>, pos: nat, fm: Formats, r: LogRecord, q: LogRecord)
    requires RecordFits(fm, r) && RecordFits(fm, q) && RecordAt(data, pos, r) && RecordAt(data, pos, q)
    ensures r == q
  {
    assert r[2] == data[pos..pos + |r|][2] == data[pos + 2];
    assert q[2] == data[pos..pos + |q|][2] == data[pos + 2];
  }

  // ---- The walker undoes the printer ----

  /** `data` is a printed well-formed log with at most two bytes behind it. */
  ghost predicate IsLogOf(data: seq<octet>, rs: Records) {
    rs.Then? && WellFormed(NoFormats(), rs) && PrintAll(rs) <= data && |data| <= |PrintAll(rs)| + 2
  }

  predicate Clean(v: ValidationResult) {
    v.ok && v.resyncs == 0 && v.bad == 0
  }

  lemma {:induction false} LogAsRecords(data: seq<octet>, rs: Records)
    ensures IsLogOf(data, rs) <==> rs.Then? && RecordsAt(data, 0, NoFormats(), rs)
  {
    RecordsAreThePrintedLog(data, 0, NoFormats(), rs);
  }

  lemma {:induction false} PrintedIsClean(data: seq<octet>, rs: Records)
    requires IsLogOf(data, rs)
    ensures Clean(Validate(data)) && Validate(data).scanned == |PrintAll(rs)|
  {
    LogAsRecords(data, rs);
    WalkRecords(data, Start(), rs);
  }

  lemma {:induction false} CleanIsPrinted(data: seq<octet>) returns (rs: Records)
    requires Clean(Validate(data))
    ensures IsLogOf(data, rs)
  {
    rs := CleanWalkReads(data, Start());
    LogAsRecords(data, rs);
  }

  /**
   * The walker accepts without a resync or a bad message exactly the printed well-formed logs, give
   * or take two trailing bytes; the records are then determined by the bytes, and the walker reports
   * where they end.
   */
  lemma {:induction false} CleanIffPrinted(data: seq<octet>)
    ensures Clean(Validate(data)) <==> exists rs :: IsLogOf(data, rs)
    ensures forall rs :: IsLogOf(data, rs) ==> Validate(data).scanned == |PrintAll(rs)|
    ensures forall rs, qs :: IsLogOf(data, rs) && IsLogOf(data, qs) ==> rs == qs
  {
    forall rs | IsLogOf(data, rs) ensures Clean(Validate(data)) && Validate(data).scanned == |PrintAll(rs)| {
      PrintedIsClean(data, rs);
    }
    if Clean(Validate(data)) {
      var rs := CleanIsPrinted(data);
    }
    forall rs, qs | IsLogOf(data, rs) && IsLogOf(data, qs) ensures rs == qs {
      LogAsRecords(data, rs);
      LogAsRecords(data, qs);
      RecordsUnique(data, 0, NoFormats(), rs, qs);
    }
  }
}
