/**
 * What an observer sees of the archive service: the history of everything that matters for losing or
 * keeping a flight log, and what the design demands of the past whenever such an event happens.
 * Nothing here mentions the service's own variables.
 */
module ArchiveEvents {
  type Digest = string
  type Day = nat       // a directory of final files
  type Partial = nat   // a temporary file

  /**
   * A final file: its directory, and its name, a timestamp with one-second resolution. The two come from
   * separate clock readings, so the second need not lie in the day.
   */
  datatype Path = Path(day: Day, second: nat)

  /** One recording on the flight controller; `serial` tells apart recordings that reuse an id. */
  datatype FlightLog = FlightLog(id: nat, size: nat, serial: nat)

  /** What a final name refers to. */
  datatype Content = Absent | Holds(log: FlightLog)

  /** A killed process loses what is in memory; a power loss also leaves some content under each name. */
  datatype Crash = Killed | PowerLoss(left: Path -> Content)

  /** A catalog row, keyed by digest. */
  datatype Row = Row(id: nat, size: nat, probe: Digest, path: Path)

  datatype Command = Start | Cancel | Refresh | Download(ids: set<nat>, all: bool) | Erase

  datatype Result = Downloaded(key: Digest) | Skipped(key: Digest) | Failed | Cancelled

  /** Who lowered the cancel flag: the start of a cycle, or a manual job. */
  datatype Reset = CycleReset | ManualReset | NoReset

  datatype Event =
    | Popped(cmd: Command)
    | CancelRaised
    | CancelLowered(why: Reset)
    | Enumerated(logs: seq<FlightLog>)
    | Matched(log: FlightLog, key: Digest, row: Row, seen: Digest)
    | Wrote(partial: Partial, log: FlightLog)
    | DirMade(day: Day)
    | Fsynced(partial: Partial)
    | Renamed(partial: Partial, path: Path, log: FlightLog)
    | DirSynced(day: Day)
    | Inserted(key: Digest, log: FlightLog, partial: Partial, path: Path, probe: Digest)
    | ArchiveDone(manual: bool, logs: seq<FlightLog>, results: seq<Result>)
    | Evicted(paths: set<Path>)
    | EraseCheckPassed
    | EraseSent(auto: bool, wiped: set<FlightLog>)
    | Crashed(how: Crash)

  /** A history, latest event outermost. */
  datatype Trace = Nothing | Then(past: Trace, event: Event)

  // ---- Readings of a history ----

  /** Whether cancel was raised since it was last lowered. */
  ghost predicate CancelPending(t: Trace) {
    match t
    case Nothing => false
    case Then(past, CancelRaised) => true
    case Then(past, CancelLowered(_)) => false
    case Then(past, Crashed(_)) => false
    case Then(past, _) => CancelPending(past)
  }

  ghost function LastReset(t: Trace): Reset {
    match t
    case Nothing => NoReset
    case Then(past, CancelLowered(why)) => why
    case Then(past, Crashed(_)) => NoReset
    case Then(past, _) => LastReset(past)
  }

  ghost function LastEnumeration(t: Trace): seq<FlightLog> {
    match t
    case Nothing => []
    case Then(past, Enumerated(logs)) => logs
    case Then(past, _) => LastEnumeration(past)
  }

  /** An erase command was popped and no erase has been sent since. */
  ghost predicate ManualCause(t: Trace) {
    match t
    case Nothing => false
    case Then(past, Popped(cmd)) => cmd == Erase || ManualCause(past)
    case Then(past, EraseSent(_, _)) => false
    case Then(past, Crashed(_)) => false
    case Then(past, _) => ManualCause(past)
  }

  ghost predicate AllArchived(logs: seq<FlightLog>, results: seq<Result>) {
    |results| == |logs| && forall k :: 0 <= k < |results| ==> results[k].Downloaded? || results[k].Skipped?
  }

  /** The Archive step that is still unspent: no later reset, enumeration, eviction, archive, erase or crash. */
  ghost predicate AutoCause(t: Trace) {
    match t
    case Nothing => false
    case Then(past, ArchiveDone(manual, logs, results)) => !manual && logs != [] && AllArchived(logs, results)
    case Then(past, CancelLowered(_)) => false
    case Then(past, Enumerated(_)) => false
    case Then(past, Evicted(_)) => false
    case Then(past, EraseSent(_, _)) => false
    case Then(past, Crashed(_)) => false
    case Then(past, _) => AutoCause(past)
  }

  /** The erase check passed and was not followed by another archive, reset, erase or crash. */
  ghost predicate CheckPending(t: Trace) {
    match t
    case Nothing => false
    case Then(past, EraseCheckPassed) => true
    case Then(past, ArchiveDone(_, _, _)) => false
    case Then(past, CancelLowered(_)) => false
    case Then(past, EraseSent(_, _)) => false
    case Then(past, Crashed(_)) => false
    case Then(past, _) => CheckPending(past)
  }

  /** The catalog after the history: rows are put by digest, never removed. */
  ghost function CatalogOf(t: Trace): map<Digest, Row> {
    match t
    case Nothing => map[]
    case Then(past, Inserted(key, log, _, path, probe)) => CatalogOf(past)[key := Row(log.id, log.size, probe, path)]
    case Then(past, _) => CatalogOf(past)
  }

  ghost predicate WroteIn(t: Trace, partial: Partial, log: FlightLog) {
    t.Then? && (t.event == Wrote(partial, log) || WroteIn(t.past, partial, log))
  }

  ghost predicate FsyncedIn(t: Trace, partial: Partial) {
    t.Then? && (t.event == Fsynced(partial) || FsyncedIn(t.past, partial))
  }

  ghost predicate RenamedIn(t: Trace, partial: Partial, path: Path) {
    t.Then? && ((t.event.Renamed? && t.event.partial == partial && t.event.path == path) || RenamedIn(t.past, partial, path))
  }

  /** The log was downloaded and catalogued under `key` since the last enumeration, eviction or crash. */
  ghost predicate InsertedHere(t: Trace, log: FlightLog, key: Digest) {
    match t
    case Nothing => false
    case Then(past, Inserted(k, l, _, _, _)) => (l == log && k == key) || InsertedHere(past, log, key)
    case Then(past, Enumerated(_)) => false
    case Then(past, Evicted(_)) => false
    case Then(past, Crashed(_)) => false
    case Then(past, _) => InsertedHere(past, log, key)
  }

  /** The log's probe matched the row under `key` since the last enumeration, eviction or crash. */
  ghost predicate MatchedHere(t: Trace, log: FlightLog, key: Digest) {
    match t
    case Nothing => false
    case Then(past, Matched(l, k, _, _)) => (l == log && k == key) || MatchedHere(past, log, key)
    case Then(past, Enumerated(_)) => false
    case Then(past, Evicted(_)) => false
    case Then(past, Crashed(_)) => false
    case Then(past, _) => MatchedHere(past, log, key)
  }

  /** The recording that the row under `key` was made from. */
  ghost function OwnerOf(t: Trace, key: Digest): Content {
    match t
    case Nothing => Absent
    case Then(past, Inserted(k, log, _, _, _)) => if k == key then Holds(log) else OwnerOf(past, key)
    case Then(past, _) => OwnerOf(past, key)
  }

  ghost predicate EnumeratedIn(t: Trace, log: FlightLog) {
    t.Then? && ((t.event.Enumerated? && log in t.event.logs) || EnumeratedIn(t.past, log))
  }

  ghost predicate WipedIn(t: Trace, log: FlightLog) {
    t.Then? && ((t.event.EraseSent? && log in t.event.wiped) || WipedIn(t.past, log))
  }

  /** What the name refers to: what the last rename brought or the last power loss left, unless evicted since. */
  ghost function FileAt(t: Trace, path: Path): Content {
    match t
    case Nothing => Absent
    case Then(past, Renamed(_, p, log)) => if p == path then Holds(log) else FileAt(past, path)
    case Then(past, Evicted(paths)) => if path in paths then Absent else FileAt(past, path)
    case Then(past, Crashed(how)) => if how.PowerLoss? then how.left(path) else FileAt(past, path)
    case Then(past, _) => FileAt(past, path)
  }

  /** The name held this at some point since its directory was last synced or power was last lost. */
  ghost predicate HeldSinceSync(t: Trace, path: Path, c: Content) {
    || FileAt(t, path) == c
    || match t
       case Nothing => false
       case Then(past, DirSynced(day)) => day != path.day && HeldSinceSync(past, path, c)
       case Then(past, Crashed(how)) => how.Killed? && HeldSinceSync(past, path, c)
       case Then(past, _) => HeldSinceSync(past, path, c)
  }

  /** The day's directory was created since power was last lost; nothing ever syncs its own entry. */
  ghost predicate DayIsNew(t: Trace, day: Day) {
    match t
    case Nothing => false
    case Then(past, DirMade(d)) => d == day || DayIsNew(past, day)
    case Then(past, Crashed(how)) => how.Killed? && DayIsNew(past, day)
    case Then(past, _) => DayIsNew(past, day)
  }

  // ---- What each event demands of the past ----

  /** A successful result names a catalog key that is this log's own digest, or that of its probe match. */
  ghost predicate Backed(t: Trace, log: FlightLog, r: Result) {
    match r
    case Downloaded(key) => key in CatalogOf(t) && InsertedHere(t, log, key)
    case Skipped(key) => key in CatalogOf(t) && MatchedHere(t, log, key)
    case _ => true
  }

  ghost predicate AllBacked(t: Trace, logs: seq<FlightLog>, results: seq<Result>) {
    |results| <= |logs| && forall k :: 0 <= k < |results| ==> Backed(t, logs[k], results[k])
  }

  ghost predicate Lawful(t: Trace, e: Event) {
    match e
    case Matched(log, key, row, seen) =>
      key in CatalogOf(t) && CatalogOf(t)[key] == row
      && row.id == log.id && row.size == log.size && row.probe == seen
    case Wrote(partial, _) => !FsyncedIn(t, partial)
    case Renamed(partial, _, log) => WroteIn(t, partial, log) && FsyncedIn(t, partial)
    case Inserted(_, log, partial, path, _) =>
      WroteIn(t, partial, log) && FsyncedIn(t, partial) && RenamedIn(t, partial, path) && FileAt(t, path) == Holds(log)
    case ArchiveDone(manual, logs, results) =>
      AllBacked(t, logs, results) && (!manual ==> logs == LastEnumeration(t))
    case EraseCheckPassed => AutoCause(t) && LastReset(t) == CycleReset && !CancelPending(t)
    case EraseSent(auto, _) => if auto then AutoCause(t) && CheckPending(t) else ManualCause(t)
    case _ => true
  }

  ghost predicate LawfulTrace(t: Trace) {
    t.Then? ==> LawfulTrace(t.past) && Lawful(t.past, t.event)
  }
}
