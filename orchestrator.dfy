/**
 * `BridgeOrchestrator`: built only when both bridge contracts resolve, it
 * then runs poll cycles, each a scan followed by the batch relayed in order.
 */
module Orchestrator {
  import opened Wrappers
  import opened Events
  import opened Compliance
  import opened Scanner
  import opened Relayer

  /**
   * What the outside world answers during one poll cycle: the latest source
   * block, the event query, and, for the `i`-th event of the batch, the
   * compliance service and the destination.
   */
  datatype CycleEnv = CycleEnv(
    latest: Option<int>,
    query: Range -> QueryOutcome,
    compliance: nat -> ServiceResult,
    destination: nat -> Destination)

  /** The relay's whole state: the scan cursor and the processed nonces. */
  datatype RelayState = RelayState(cursor: int, processed: set<nat>)

  /** One poll cycle: the state after it, the scan it made and the outcome of each event. */
  datatype CycleResult = CycleResult(state: RelayState, scan: ScanStep, outcomes: seq<RelayOutcome>)

  /** One iteration of the poll loop of `run`. */
  function Cycle(st: RelayState, env: CycleEnv): (r: CycleResult)
    ensures r.scan == Scan(st.cursor, env.latest, env.query)
    ensures r.state.cursor == r.scan.cursor
    ensures st.cursor <= r.state.cursor
    // one outcome per scanned event, and only relayed nonces join the set
    ensures |r.outcomes| == |r.scan.events|
    ensures r.state.processed == st.processed + RelayedNonces(r.outcomes)
    // events whose nonce was already processed before the cycle are skipped
    ensures forall j :: 0 <= j < |r.scan.events| && !FreshNonce(st.processed, r.scan.events[j].args) ==>
      r.outcomes[j] == SkippedDuplicate
    ensures forall j :: 0 <= j < |r.outcomes| && r.outcomes[j].Relayed? ==>
      r.scan.events[j].args.nonce == Some(r.outcomes[j].call.sourceNonce)
  {
    var scan := Scan(st.cursor, env.latest, env.query);
    var batch := ProcessBatch(st.processed, scan.events, env.compliance, env.destination);
    CycleResult(RelayState(scan.cursor, batch.0), scan, batch.1)
  }

  /** A bounded number of poll cycles, one per environment, in order. */
  function RunCycles(st: RelayState, envs: seq<CycleEnv>): (r: (RelayState, seq<CycleResult>))
    ensures |r.1| == |envs|
    ensures forall k :: 0 <= k < |r.1| ==> |r.1[k].outcomes| == |r.1[k].scan.events|
    // the cursor never moves back and no nonce leaves the set
    ensures st.cursor <= r.0.cursor
    ensures st.processed <= r.0.processed
    // every nonce relayed in any cycle is in the final set
    ensures forall k, i :: 0 <= k < |r.1| && 0 <= i < |r.1[k].outcomes| && r.1[k].outcomes[i].Relayed? ==>
      r.1[k].outcomes[i].call.sourceNonce in r.0.processed
  {
    if envs == [] then (st, [])
    else
      var last := |envs| - 1;
      var before := RunCycles(st, envs[..last]);
      var c := Cycle(before.0, envs[last]);
      (c.state, before.1 + [c])
  }

  /**
   * No reprocessing across cycles: an event relayed in cycle `k` makes every
   * event with the same nonce in a later cycle `k2` a skipped duplicate.
   */
  lemma {:induction false} RelayedNonceSkippedInLaterCycles(st: RelayState, envs: seq<CycleEnv>,
                                                            k: nat, i: nat, k2: nat, j: nat)
    requires k < k2 < |envs|
    requires i < |RunCycles(st, envs).1[k].outcomes|
    requires RunCycles(st, envs).1[k].outcomes[i].Relayed?
    requires j < |RunCycles(st, envs).1[k2].scan.events|
    requires RunCycles(st, envs).1[k2].scan.events[j].args.nonce ==
             Some(RunCycles(st, envs).1[k].outcomes[i].call.sourceNonce)
    ensures RunCycles(st, envs).1[k2].outcomes[j] == SkippedDuplicate
  {
    var last := |envs| - 1;
    var before := RunCycles(st, envs[..last]);
    var whole := RunCycles(st, envs);
    assert whole.1 == before.1 + [Cycle(before.0, envs[last])];
    if k2 == last {
      assert whole.1[k] == before.1[k];
      assert whole.1[k2] == Cycle(before.0, envs[last]);
    } else {
      assert envs[..last][..k2 + 1] == envs[..k2 + 1];
      assert whole.1[k] == before.1[k] && whole.1[k2] == before.1[k2];
      RelayedNonceSkippedInLaterCycles(st, envs[..last], k, i, k2, j);
    }
  }

  /** Cycle `k` of a run starts from the state the first `k` cycles left. */
  lemma {:induction false} RunCyclesAt(st: RelayState, envs: seq<CycleEnv>, k: nat)
    requires k < |envs|
    ensures RunCycles(st, envs).1[k] == Cycle(RunCycles(st, envs[..k]).0, envs[k])
  {
    var last := |envs| - 1;
    var before := RunCycles(st, envs[..last]);
    assert RunCycles(st, envs).1 == before.1 + [Cycle(before.0, envs[last])];
    if k < last {
      assert RunCycles(st, envs).1[k] == before.1[k];
      assert envs[..last][..k] == envs[..k];
      assert envs[..last][k] == envs[k];
      RunCyclesAt(st, envs[..last], k);
    } else {
      assert envs[..last] == envs[..k];
    }
  }

  /**
   * No reprocessing within a cycle of a run: after an event of cycle `k` is
   * relayed, every later event of the same cycle with that nonce is skipped.
   */
  lemma RelayedNonceSkippedLaterInSameCycle(st: RelayState, envs: seq<CycleEnv>,
                                            k: nat, i: nat, j: nat)
    requires k < |envs|
    requires i < j < |RunCycles(st, envs).1[k].scan.events|
    requires RunCycles(st, envs).1[k].outcomes[i].Relayed?
    requires RunCycles(st, envs).1[k].scan.events[j].args.nonce ==
             RunCycles(st, envs).1[k].scan.events[i].args.nonce
    ensures RunCycles(st, envs).1[k].outcomes[j] == SkippedDuplicate
  {
    RunCyclesAt(st, envs, k);
    var before := RunCycles(st, envs[..k]).0;
    var scan := Scan(before.cursor, envs[k].latest, envs[k].query);
    LaterDuplicateSkipped(before.processed, scan.events, envs[k].compliance, envs[k].destination, i, j);
  }

  class BridgeOrchestrator {
    const isInitialized: bool
    const scanner: EventScanner?
    const relayer: TransactionRelayer?

    /** The scanner and the relayer exist exactly when the orchestrator is initialized. */
    ghost predicate Valid()
      reads this
    {
      (isInitialized <==> scanner != null) && (isInitialized <==> relayer != null)
    }

    /** The cursor and nonce set held by the scanner and the relayer. */
    ghost function State(): RelayState
      reads this, scanner, relayer
      requires Valid() && isInitialized
    {
      RelayState(scanner.lastScannedBlock, relayer.processedNonces)
    }

    /**
     * `BridgeOrchestrator.__init__`: whether each bridge contract resolved on
     * its chain, and the source chain's latest block when the scanner starts.
     */
    constructor (sourceContractResolved: bool, destContractResolved: bool, latestAtStart: Option<int>)
      ensures Valid()
      ensures isInitialized <==> sourceContractResolved && destContractResolved
      ensures isInitialized ==> fresh(scanner) && fresh(relayer)
      ensures isInitialized ==> State() == RelayState(InitialCursor(latestAtStart), {})
    {
      if sourceContractResolved && destContractResolved {
        scanner := new EventScanner(latestAtStart);
        relayer := new TransactionRelayer();
        isInitialized := true;
      } else {
        scanner := null;
        relayer := null;
        isInitialized := false;
      }
    }

    /** One poll cycle: scan, then relay the batch strictly in list order. */
    method PollOnce(env: CycleEnv) returns (r: CycleResult)
      requires Valid() && isInitialized
      modifies scanner, relayer
      ensures r == Cycle(old(State()), env)
      ensures State() == r.state
    {
      var events, queried := scanner.ScanForEvents(env.latest, env.query);
      ghost var processedBefore := relayer.processedNonces;
      var outcomes: seq<RelayOutcome> := [];
      var i := 0;
      while i < |events|
        invariant 0 <= i <= |events|
        invariant scanner.lastScannedBlock == Scan(old(scanner.lastScannedBlock), env.latest, env.query).cursor
        invariant (relayer.processedNonces, outcomes) ==
                  ProcessBatch(processedBefore, events[..i], env.compliance, env.destination)
      {
        var outcome, _ := relayer.ProcessAndRelay(events[i], env.compliance(i), env.destination(i));
        assert events[..i + 1][..i] == events[..i];
        outcomes := outcomes + [outcome];
        i := i + 1;
      }
      assert events[..i] == events;
      r := CycleResult(RelayState(scanner.lastScannedBlock, relayer.processedNonces),
                       ScanStep(scanner.lastScannedBlock, events, queried), outcomes);
    }

    /**
     * `run`, bounded to one cycle per element of `envs` and without the
     * sleep; it does nothing at all when the orchestrator is not initialized.
     */
    method Run(envs: seq<CycleEnv>) returns (results: seq<CycleResult>)
      requires Valid()
      modifies scanner, relayer
      ensures !isInitialized ==> results == []
      ensures isInitialized ==> (State(), results) == RunCycles(old(State()), envs)
    {
      results := [];
      if !isInitialized {
        return;
      }
      var n := 0;
      while n < |envs|
        invariant 0 <= n <= |envs|
        invariant (State(), results) == RunCycles(old(State()), envs[..n])
      {
        var r := PollOnce(envs[n]);
        assert envs[..n + 1][..n] == envs[..n];
        results := results + [r];
        n := n + 1;
      }
      assert envs[..n] == envs;
    }
  }
}
