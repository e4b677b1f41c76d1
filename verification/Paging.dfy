/** Paginated log lists under a response size budget, and why a client that pages through loses nothing. */
module Paging {
  datatype LogEntry = LogEntry(id: nat, size: nat, timeUtc: nat, downloaded: bool)

  datatype Page = Page(count: nat, offset: int, stale: bool, truncated: bool, entries: seq<LogEntry>)

  /** What the client gets: a page, or the internal error. */
  datatype Response = PageResponse(page: Page) | InternalError

  /** Whether a page serialises within the byte budget. */
  type Budget = Page -> bool

  method BuildFcLogsPage(cached: seq<LogEntry>, stale: bool, offset: int, limit: int) returns (page: Page)
    ensures page == RequestedPage(cached, stale, offset, limit)
  {
    var start := if offset < 0 then 0 else offset;
    var stop := if |cached| < start + limit then |cached| else start + limit;
    var entries := [];
    var i := start;
    while i < stop
      invariant start <= i && (i <= stop || i == start)
      invariant entries == if i <= |cached| then cached[start..i] else []
    {
      entries := entries + [cached[i]];
      i := i + 1;
    }
    page := Page(|cached|, offset, stale, false, entries);
  }

  /** The window `[offset, offset + limit)` of the cached list, clipped to it. */
  function RequestedPage(cached: seq<LogEntry>, stale: bool, offset: int, limit: int): Page {
    var start := if offset < 0 then 0 else offset;
    var stop := if |cached| < start + limit then |cached| else start + limit;
    Page(|cached|, offset, stale, false, if start < stop then cached[start..stop] else [])
  }

  /** The page with only its first `n` entries, marked truncated. */
  function Shortened(page: Page, n: nat): Page
    requires n <= |page.entries|
  {
    page.(truncated := true, entries := page.entries[..n])
  }

  /** The ladder below `n` entries: halve until the page fits; none is left once 0 did not fit. */
  function Ladder(page: Page, n: nat, fits: Budget): Response
    requires n <= |page.entries|
  {
    if n == 0 then InternalError
    else if fits(Shortened(page, n / 2)) then PageResponse(Shortened(page, n / 2))
    else Ladder(page, n / 2, fits)
  }

  function Respond(page: Page, fits: Budget): Response {
    if fits(page) then PageResponse(page) else Ladder(page, |page.entries|, fits)
  }

  method BuildFcLogs(page: Page, fits: Budget) returns (response: Response)
    ensures response == Respond(page, fits)
  {
    if fits(page) {
      return PageResponse(page);
    }
    var reduced := page.(truncated := true);
    assert page.entries[..|page.entries|] == page.entries;
    while |reduced.entries| > 0
      invariant |reduced.entries| <= |page.entries| && reduced == Shortened(page, |reduced.entries|)
      invariant Respond(page, fits) == Ladder(page, |reduced.entries|, fits)
      decreases |reduced.entries|
    {
      var half := |reduced.entries| / 2;
      assert reduced.entries[..half] == page.entries[..half];
      reduced := reduced.(entries := reduced.entries[..half]);
      if fits(reduced) {
        return PageResponse(reduced);
      }
    }
    response := InternalError;
  }

  /** Every one-entry response to a request fits, truncated or not. */
  ghost predicate OneEntryFits(fits: Budget) {
    forall p: Page :: |p.entries| == 1 ==> fits(p)
  }

  /** The ladder returns a non-empty prefix of the requested entries: it tries size 1 before size 0. */
  lemma {:induction false} LadderKeepsOne(page: Page, n: nat, fits: Budget)
    requires OneEntryFits(fits) && 2 <= n <= |page.entries|
    ensures Ladder(page, n, fits).PageResponse?
    ensures 0 < |Ladder(page, n, fits).page.entries| < n && Ladder(page, n, fits).page.entries <= page.entries
  {
    var half := Shortened(page, n / 2);
    if !fits(half) {
      assert |half.entries| != 1;
      LadderKeepsOne(page, n / 2, fits);
    }
  }

  lemma {:induction false} RespondKeepsOne(page: Page, fits: Budget)
    requires OneEntryFits(fits) && page.entries != []
    ensures Respond(page, fits).PageResponse? && Respond(page, fits).page.entries != []
    ensures Respond(page, fits).page.entries <= page.entries
  {
    if !fits(page) {
      assert |page.entries| != 1;
      LadderKeepsOne(page, |page.entries|, fits);
    }
  }

  /** What a client collects that starts at `offset` and advances by the entries it got until it has `count`. */
  ghost function Collect(cached: seq<LogEntry>, stale: bool, offset: nat, limit: int, fits: Budget): seq<LogEntry>
    requires OneEntryFits(fits) && limit > 0 && offset <= |cached|
    decreases |cached| - offset
  {
    if offset == |cached| then [] else
    var page := RequestedPage(cached, stale, offset, limit);
    RespondKeepsOne(page, fits);
    var got := Respond(page, fits).page.entries;
    got + Collect(cached, stale, offset + |got|, limit, fits)
  }

  lemma {:induction false} WindowPrefix(cached: seq<LogEntry>, stale: bool, offset: nat, limit: int, got: seq<LogEntry>)
    requires limit > 0 && offset < |cached| && got <= RequestedPage(cached, stale, offset, limit).entries
    ensures offset + |got| <= |cached| && got + cached[offset + |got|..] == cached[offset..]
  {
    assert got == cached[offset..offset + |got|];
  }

  /** Paging is lossless: the client sees the rest of the list, each entry once, in order. */
  lemma {:induction false} PagingIsLossless(cached: seq<LogEntry>, stale: bool, offset: nat, limit: int, fits: Budget)
    requires OneEntryFits(fits) && limit > 0 && offset <= |cached|
    ensures Collect(cached, stale, offset, limit, fits) == cached[offset..]
    decreases |cached| - offset
  {
    if offset < |cached| {
      var page := RequestedPage(cached, stale, offset, limit);
      RespondKeepsOne(page, fits);
      var got := Respond(page, fits).page.entries;
      WindowPrefix(cached, stale, offset, limit, got);
      PagingIsLossless(cached, stale, offset + |got|, limit, fits);
    }
  }
}
