/**
 * `EventScanner`: a cursor over source-chain block numbers that only ever
 * scans blocks buried under `BlockConfirmations` newer blocks.
 */
module Scanner {
  import opened Wrappers
  import opened Events

  /** Blocks that must follow a block before its events are treated as final. */
  const BlockConfirmations: int := 6

  /** An inclusive block range `[fromBlock, toBlock]` given to the event query. */
  datatype Range = Range(fromBlock: int, toBlock: int)

  /**
   * What the node answered to the `DepositMade` query for a range: the logs,
   * `BlockNotFound`, or any other error.
   */
  datatype QueryOutcome = Entries(logs: seq<DepositEvent>) | BlockNotFound | QueryFault

  /** The result of one scan: the new cursor, the events returned, and the range queried, if any. */
  datatype ScanStep = ScanStep(cursor: int, events: seq<DepositEvent>, queried: Option<Range>)

  /** The cursor a new scanner starts from: the latest block, or 0 when it is unavailable. */
  function InitialCursor(latestAtStart: Option<int>): (c: int)
    ensures latestAtStart.None? ==> c == 0
    ensures latestAtStart.Some? ==> c == latestAtStart.value
  {
    latestAtStart.GetOr(0)
  }

  /** The range a scan queries, or `None` when there is no confirmed block past the cursor. */
  function PlanScan(last: int, latest: Option<int>): (r: Option<Range>)
    // a range is queried exactly when the latest block is known and a confirmed block lies past the cursor
    ensures r.Some? <==> latest.Some? && last < latest.value - BlockConfirmations
    // it starts right after the cursor, ends at the newest confirmed block, and is not empty
    ensures r.Some? ==> r.value.fromBlock == last + 1
    ensures r.Some? ==> r.value.toBlock == latest.value - BlockConfirmations
    ensures r.Some? ==> r.value.fromBlock <= r.value.toBlock
  {
    if latest.None? then None
    else
      var fromBlock := last + 1;
      var toBlock := latest.value - BlockConfirmations;
      if fromBlock > toBlock then None else Some(Range(fromBlock, toBlock))
  }

  /** The query only ever returns logs from inside the range it was asked about. */
  predicate HonoursRange(query: Range -> QueryOutcome, r: Range)
  {
    query(r).Entries? ==>
      forall e :: e in query(r).logs ==> r.fromBlock <= e.blockNumber <= r.toBlock
  }

  /** One call of `scan_for_events` from cursor `last`, against the node's answers. */
  function Scan(last: int, latest: Option<int>, query: Range -> QueryOutcome): (s: ScanStep)
    ensures s.queried == PlanScan(last, latest)
    // the cursor never moves back, and when it moves it lands on the newest confirmed block
    ensures last <= s.cursor
    ensures s.cursor != last ==>
      latest.Some? && s.cursor == latest.value - BlockConfirmations && last < s.cursor
    // no latest block, or no confirmed range: nothing returned, cursor held
    ensures s.queried.None? ==> s.cursor == last && s.events == []
    // the query succeeded: the cursor covers the range, whatever the number of logs
    ensures s.queried.Some? && query(s.queried.value).Entries? ==>
      s.cursor == s.queried.value.toBlock && s.events == query(s.queried.value).logs
    // BlockNotFound: the range is given up, the cursor still advances
    ensures s.queried.Some? && query(s.queried.value).BlockNotFound? ==>
      s.cursor == s.queried.value.toBlock && s.events == []
    // any other fault: the same range is retried next time
    ensures s.queried.Some? && query(s.queried.value).QueryFault? ==>
      s.cursor == last && s.events == []
    // events returned are only ever ones the query produced
    ensures s.events != [] ==> s.queried.Some? && query(s.queried.value) == Entries(s.events)
    // confirmation lag: nothing at or below the old cursor, nothing above latest - confirmations
    ensures s.queried.Some? && HonoursRange(query, s.queried.value) ==>
      forall e :: e in s.events ==>
        last < e.blockNumber <= latest.value - BlockConfirmations
  {
    match PlanScan(last, latest)
    case None => ScanStep(last, [], None)
    case Some(r) =>
      match query(r)
      case Entries(logs) => ScanStep(r.toBlock, logs, Some(r))
      case BlockNotFound => ScanStep(r.toBlock, [], Some(r))
      case QueryFault => ScanStep(last, [], Some(r))
  }

  /** latest = 100, cursor = 50: the range [51, 94] is queried and the cursor ends at 94. */
  lemma ScanScenarioAdvances(query: Range -> QueryOutcome)
    requires !query(Range(51, 94)).QueryFault?
    ensures Scan(50, Some(100), query).queried == Some(Range(51, 94))
    ensures Scan(50, Some(100), query).cursor == 94
  {
  }

  /** latest = 100, cursor = 94: from 95 > to 94, so nothing is queried and the cursor stays. */
  lemma ScanScenarioNoConfirmedRange(query: Range -> QueryOutcome)
    ensures Scan(94, Some(100), query) == ScanStep(94, [], None)
  {
  }

  class EventScanner {
    var lastScannedBlock: int

    /** `EventScanner.__init__`: start from the latest block the node reports, or 0. */
    constructor (latestAtStart: Option<int>)
      ensures lastScannedBlock == InitialCursor(latestAtStart)
    {
      lastScannedBlock := latestAtStart.GetOr(0);
    }

    /**
     * `scan_for_events`: `latest` is the node's answer for the latest block,
     * `query` its answer to the event query for a range. Also returns the
     * range that was queried, if any.
     */
    method ScanForEvents(latest: Option<int>, query: Range -> QueryOutcome)
      returns (events: seq<DepositEvent>, queried: Option<Range>)
      modifies this
      ensures ScanStep(lastScannedBlock, events, queried) == Scan(old(lastScannedBlock), latest, query)
      ensures old(lastScannedBlock) <= lastScannedBlock
    {
      queried := None;
      events := [];
      if latest.None? {
        return;
      }
      var fromBlock := lastScannedBlock + 1;
      var toBlock := latest.value - BlockConfirmations;
      if fromBlock > toBlock {
        return;
      }
      queried := Some(Range(fromBlock, toBlock));
      match query(Range(fromBlock, toBlock))
      case Entries(logs) =>
        lastScannedBlock := toBlock;
        events := logs;
      case BlockNotFound =>
        lastScannedBlock := toBlock;
      case QueryFault =>
    }
  }
}
