/**
 * `TransactionRelayer`: deduplicates deposit events by nonce, runs the
 * compliance gate on the sender, checks the release data, and hands the
 * release call to the destination. The set of processed nonces is its state.
 */
module Relayer {
  import opened Wrappers
  import opened Events
  import opened Compliance

  /** The `releaseTokens(recipient, amount, sourceNonce)` call sent to the destination contract. */
  datatype ReleaseCall = ReleaseCall(recipient: string, amount: nat, sourceNonce: nat)

  /**
   * The destination as `simulate_send_transaction` finds it: connector or
   * contract missing, a fault while building or sending, or ready.
   * `Unavailable` cannot arise inside an initialized orchestrator, which
   * builds the relayer only once the destination contract has resolved.
   */
  datatype Destination = Unavailable | Faulty | Ready

  /** What the send did; none of these escapes to the caller as an error. */
  datatype SendReport = NotAttempted | SendFailed | Delivered

  /** The branch `process_and_relay` took for one event. */
  datatype RelayOutcome =
    | SkippedDuplicate
    | RejectedCompliance
    | RejectedMalformed
    | Relayed(call: ReleaseCall, report: SendReport)

  /** One event's processing: its outcome, the nonce set afterwards, and the compliance decision if one was asked for. */
  datatype Step = Step(outcome: RelayOutcome, processed: set<nat>, compliance: Option<Decision>)

  /** The nonce is present and has not been processed yet. */
  predicate FreshNonce(processed: set<nat>, args: EventArgs)
  {
    args.nonce.Some? && args.nonce.value !in processed
  }

  /** The release data is present: a non-empty recipient and a non-zero amount. */
  predicate ReleaseDataPresent(args: EventArgs)
  {
    TruthyString(args.recipient) && TruthyAmount(args.amount)
  }

  /** The report of `simulate_send_transaction`, which swallows its own failures. */
  function SendReportFor(dest: Destination): (r: SendReport)
    ensures r == Delivered <==> dest == Ready
    ensures r == NotAttempted <==> dest == Unavailable
  {
    match dest
    case Unavailable => NotAttempted
    case Faulty => SendFailed
    case Ready => Delivered
  }

  /**
   * `process_and_relay` of one event, given the processed nonces, the
   * compliance service's answer (were it asked) and the destination's state.
   */
  function Process(processed: set<nat>, e: DepositEvent, service: ServiceResult, dest: Destination): (s: Step)
    // missing or already-processed nonce: skipped, nothing consulted, the set unchanged
    ensures !FreshNonce(processed, e.args) ==>
      s.outcome == SkippedDuplicate && s.compliance.None? && s.processed == processed
    // compliance is consulted exactly when the nonce is fresh and a sender is present
    ensures s.compliance.Some? <==> FreshNonce(processed, e.args) && TruthyString(e.args.sender)
    ensures s.compliance.Some? ==> s.compliance.value == CheckSanctions(e.args.sender.value, service)
    // missing or sanctioned sender
    ensures s.outcome == RejectedCompliance <==>
      FreshNonce(processed, e.args) &&
      (!TruthyString(e.args.sender) || CheckSanctions(e.args.sender.value, service).sanctioned)
    // a cleared sender but no recipient or a zero amount
    ensures s.outcome == RejectedMalformed <==>
      FreshNonce(processed, e.args) && TruthyString(e.args.sender) &&
      !CheckSanctions(e.args.sender.value, service).sanctioned && !ReleaseDataPresent(e.args)
    // every guard passed: exactly one release call with the event's data
    ensures s.outcome.Relayed? <==>
      FreshNonce(processed, e.args) && TruthyString(e.args.sender) &&
      !CheckSanctions(e.args.sender.value, service).sanctioned && ReleaseDataPresent(e.args)
    ensures s.outcome.Relayed? ==>
      s.outcome.call == ReleaseCall(e.args.recipient.value, e.args.amount.value, e.args.nonce.value) &&
      s.outcome.report == SendReportFor(dest)
    // the nonce enters the set only after the release call, whatever the send reported
    ensures s.outcome.Relayed? ==> s.processed == processed + {e.args.nonce.value}
    ensures !s.outcome.Relayed? ==> s.processed == processed
  {
    var args := e.args;
    if args.nonce.None? || args.nonce.value in processed then
      Step(SkippedDuplicate, processed, None)
    else if !TruthyString(args.sender) then
      Step(RejectedCompliance, processed, None)
    else
      var decision := CheckSanctions(args.sender.value, service);
      if decision.sanctioned then
        Step(RejectedCompliance, processed, Some(decision))
      else if !ReleaseDataPresent(args) then
        Step(RejectedMalformed, processed, Some(decision))
      else
        var call := ReleaseCall(args.recipient.value, args.amount.value, args.nonce.value);
        Step(Relayed(call, SendReportFor(dest)), processed + {args.nonce.value}, Some(decision))
  }

  /** The denylisted sender with nonce 7 is rejected and 7 is not recorded. */
  lemma DenylistedSenderScenario(processed: set<nat>, service: ServiceResult, dest: Destination,
                                 recipient: Option<string>, amount: Option<nat>)
    requires 7 !in processed
    ensures var e := DepositEvent(EventArgs(Some("0x000000000000000000000000000000000000dead"),
                                            recipient, amount, None, Some(7)), 0);
            Process(processed, e, service, dest) ==
              Step(RejectedCompliance, processed, Some(Decision(true, None)))
  {
    SanctionedAddressAnyCase(service);
  }

  /** The nonces of the events that were relayed. */
  function RelayedNonces(outcomes: seq<RelayOutcome>): set<nat>
  {
    set i | 0 <= i < |outcomes| && outcomes[i].Relayed? :: outcomes[i].call.sourceNonce
  }

  lemma RelayedNoncesSnoc(outcomes: seq<RelayOutcome>, o: RelayOutcome)
    ensures RelayedNonces(outcomes + [o]) ==
      RelayedNonces(outcomes) + (if o.Relayed? then {o.call.sourceNonce} else {})
  {
    var all := outcomes + [o];
    forall n | n in RelayedNonces(all)
      ensures n in RelayedNonces(outcomes) + (if o.Relayed? then {o.call.sourceNonce} else {})
    {
      var i :| 0 <= i < |all| && all[i].Relayed? && all[i].call.sourceNonce == n;
      if i < |outcomes| {
        assert outcomes[i] == all[i];
      }
    }
    forall n | n in RelayedNonces(outcomes) ensures n in RelayedNonces(all) {
      var i :| 0 <= i < |outcomes| && outcomes[i].Relayed? && outcomes[i].call.sourceNonce == n;
      assert all[i] == outcomes[i];
    }
    if o.Relayed? {
      assert all[|outcomes|] == o;
    }
  }

  /**
   * The events of one batch processed strictly in list order; event `i` is
   * checked with `compliance(i)` and sent with `destination(i)`.
   */
  function ProcessBatch(processed: set<nat>, events: seq<DepositEvent>,
                        compliance: nat -> ServiceResult, destination: nat -> Destination)
    : (r: (set<nat>, seq<RelayOutcome>))
    ensures |r.1| == |events|
    // nothing but the relayed nonces enters the set, and nothing leaves it
    ensures r.0 == processed + RelayedNonces(r.1)
    // a nonce processed before the batch is skipped wherever it appears in it
    ensures forall i :: 0 <= i < |events| && !FreshNonce(processed, events[i].args) ==>
      r.1[i] == SkippedDuplicate
    // a relayed event's call carries that event's own nonce
    ensures forall i :: 0 <= i < |events| && r.1[i].Relayed? ==>
      events[i].args.nonce == Some(r.1[i].call.sourceNonce)
  {
    if events == [] then (processed, [])
    else
      var k := |events| - 1;
      var before := ProcessBatch(processed, events[..k], compliance, destination);
      var step := Process(before.0, events[k], compliance(k), destination(k));
      RelayedNoncesSnoc(before.1, step.outcome);
      (step.processed, before.1 + [step.outcome])
  }

  /** Processing a prefix of a batch gives the prefix of the batch's outcomes. */
  lemma {:induction false} ProcessBatchPrefix(processed: set<nat>, events: seq<DepositEvent>,
                                             compliance: nat -> ServiceResult,
                                             destination: nat -> Destination, k: nat)
    requires k <= |events|
    ensures ProcessBatch(processed, events[..k], compliance, destination).1 ==
            ProcessBatch(processed, events, compliance, destination).1[..k]
  {
    if k < |events| {
      var n := |events| - 1;
      var whole := ProcessBatch(processed, events, compliance, destination).1;
      var init := ProcessBatch(processed, events[..n], compliance, destination).1;
      var step := Process(ProcessBatch(processed, events[..n], compliance, destination).0,
                          events[n], compliance(n), destination(n));
      assert whole == init + [step.outcome];
      assert whole[..k] == init[..k];
      assert events[..n][..k] == events[..k];
      ProcessBatchPrefix(processed, events[..n], compliance, destination, k);
    } else {
      assert events[..k] == events;
    }
  }

  /**
   * Within one batch, once an event is relayed, every later event carrying
   * the same nonce is skipped as a duplicate.
   */
  lemma {:induction false} LaterDuplicateSkipped(processed: set<nat>, events: seq<DepositEvent>,
                                                 compliance: nat -> ServiceResult,
                                                 destination: nat -> Destination, i: nat, j: nat)
    requires i < j < |events|
    requires ProcessBatch(processed, events, compliance, destination).1[i].Relayed?
    requires events[j].args.nonce == events[i].args.nonce
    ensures ProcessBatch(processed, events, compliance, destination).1[j] == SkippedDuplicate
  {
    var outs := ProcessBatch(processed, events, compliance, destination).1;
    var n := outs[i].call.sourceNonce;
    var upToJ := ProcessBatch(processed, events[..j], compliance, destination);
    ProcessBatchPrefix(processed, events, compliance, destination, j);
    assert upToJ.1[i] == outs[i];
    assert n in upToJ.0;
    ProcessBatchPrefix(processed, events, compliance, destination, j + 1);
    var upToJ1 := ProcessBatch(processed, events[..j + 1], compliance, destination);
    assert events[..j + 1][..j] == events[..j];
    assert events[..j + 1][j] == events[j];
    assert upToJ1.1[j] == outs[j];
  }

  /** No nonce is relayed twice in one batch. */
  lemma AtMostOneRelayPerNonce(processed: set<nat>, events: seq<DepositEvent>,
                               compliance: nat -> ServiceResult, destination: nat -> Destination,
                               i: nat, j: nat)
    requires i < |events| && j < |events| && i != j
    requires ProcessBatch(processed, events, compliance, destination).1[i].Relayed?
    requires ProcessBatch(processed, events, compliance, destination).1[j].Relayed?
    ensures ProcessBatch(processed, events, compliance, destination).1[i].call.sourceNonce !=
            ProcessBatch(processed, events, compliance, destination).1[j].call.sourceNonce
  {
    if i < j {
      if events[j].args.nonce == events[i].args.nonce {
        LaterDuplicateSkipped(processed, events, compliance, destination, i, j);
      }
    } else {
      if events[j].args.nonce == events[i].args.nonce {
        LaterDuplicateSkipped(processed, events, compliance, destination, j, i);
      }
    }
  }

  class TransactionRelayer {
    var processedNonces: set<nat>

    /** `TransactionRelayer.__init__`: no nonce processed yet. */
    constructor ()
      ensures processedNonces == {}
    {
      processedNonces := {};
    }

    /**
     * `simulate_send_transaction`: never raises; reports what happened instead.
     * The call's data only reaches the log and the printed output.
     */
    method SimulateSendTransaction(call: ReleaseCall, dest: Destination) returns (report: SendReport)
      ensures report == SendReportFor(dest)
      ensures report == Delivered <==> dest == Ready
    {
      report := SendReportFor(dest);
    }

    /**
     * `process_and_relay`: `service` is what the compliance service would
     * answer, `dest` the destination's state at send time.
     */
    method ProcessAndRelay(e: DepositEvent, service: ServiceResult, dest: Destination)
      returns (outcome: RelayOutcome, compliance: Option<Decision>)
      modifies this
      ensures Step(outcome, processedNonces, compliance) == Process(old(processedNonces), e, service, dest)
      ensures old(processedNonces) <= processedNonces
    {
      var args := e.args;
      compliance := None;
      if args.nonce.None? || args.nonce.value in processedNonces {
        return SkippedDuplicate, None;
      }
      var nonce := args.nonce.value;
      if args.sender.None? || args.sender.value == "" {
        return RejectedCompliance, None;
      }
      var decision := CheckSanctions(args.sender.value, service);
      compliance := Some(decision);
      if decision.sanctioned {
        return RejectedCompliance, compliance;
      }
      if !(TruthyString(args.recipient) && TruthyAmount(args.amount)) {
        return RejectedMalformed, compliance;
      }
      var call := ReleaseCall(args.recipient.value, args.amount.value, nonce);
      var report := SimulateSendTransaction(call, dest);
      processedNonces := processedNonces + {nonce};
      outcome := Relayed(call, report);
    }
  }
}
