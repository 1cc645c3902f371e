# Cross-chain deposit relay: a Dafny model

This project models the relay logic of `script.py`. The relay does four things:

- It watches a source chain for `DepositMade` events.
- It waits until a block has `BLOCK_CONFIRMATIONS = 6` newer blocks on top of it before scanning it.
- It drops events whose nonce is missing or already processed.
- It checks the sender with a compliance service that fails closed, then builds a simulated `releaseTokens(recipient, amount, sourceNonce)` call for the destination chain. The call is printed, not sent.

The Web3 and HTTP calls are replaced by parameters that carry their outcomes:

- the latest block number is an `Option<int>`;
- the event query is a function from a block range to `Entries(logs) | BlockNotFound | QueryFault`;
- the compliance service is `Ok | Fail`;
- the destination at send time is `Unavailable | Faulty | Ready`.

Modules:

- `Wrappers`: `Option`.
- `Events`: the decoded event, with optional `args` fields, and Python truthiness on them.
- `Compliance`: `MockAPIClient.is_address_sanctioned` as a pure decision.
- `Scanner`: the class `EventScanner`, whose `lastScannedBlock` field is updated in place. It is specified by the pure function `Scan`.
- `Relayer`: the class `TransactionRelayer`, whose `processedNonces` set is updated in place. It is specified by `Process` and `ProcessBatch`.
- `Orchestrator`: the class `BridgeOrchestrator`. Its bounded `Run` is specified by `Cycle` and `RunCycles`.

Each class method's postcondition ties the new field values and the results to the pure function of the old state. The properties are proved about those functions.

Behaviour of the code that the model keeps:

- **Failed sends.** `simulate_send_transaction` swallows its own failures (`script.py:250-252`, `275-276`). So `process_and_relay` records the nonce whatever the send did. No outcome leaves a nonce unrecorded after the release call. `Relayed` carries a `SendReport`, and the nonce is added for every report.
- **Batch order.** Events are relayed in the order the node returns them. Nothing sorts them by block.
- **Uninitialized `run`.** It logs and returns; nothing is raised.
- **Docstring.** The docstring of `process_and_relay` is closed with `""|"` at `script.py:214`. Read literally, that would turn the method's body into part of a string. The model follows the evidently intended body, lines 215-243.

## Model

| member | source | states |
|---|---|---|
| `Scanner.InitialCursor` | script.py:125 | a new scanner starts at the latest block, or at 0 when the node cannot say |
| `Scanner.PlanScan` | script.py:135-147 | a range is queried exactly when the latest block is known and `last + 1 <= latest - 6`; it then starts right after the cursor and ends at the newest confirmed block |
| `Scanner.Scan` | script.py:128-169 | the cursor never decreases; when it changes it becomes `latest - 6`, strictly above its old value; no latest block or no confirmed range returns nothing and holds the cursor; success sets the cursor to `toBlock` even with no logs; `BlockNotFound` advances it and returns nothing; any other fault holds it; returned events lie in `(last, latest - 6]` when the query honours its range |
| `Scanner.ScanScenarioAdvances` | script.py:142-157 | latest 100 and cursor 50 query `[51, 94]` and leave the cursor at 94 |
| `Scanner.ScanScenarioNoConfirmedRange` | script.py:142-147 | latest 100 and cursor 94 (from 95 > to 94) query nothing, return nothing and keep the cursor |
| `Scanner.EventScanner.constructor` | script.py:112-126 | the field starts at `InitialCursor` of the node's latest block |
| `Scanner.EventScanner.ScanForEvents` | script.py:128-169 | the new cursor, the returned events and the queried range are those of `Scan` from the old cursor; the cursor does not decrease |
| `Compliance.ToLower` | script.py:183 | lower-casing keeps the length, folds each character, and leaves no upper-case ASCII letter |
| `Compliance.DenylistIsCaseInsensitiveExactMatch` | script.py:183 | an address is denylisted exactly when it has the sanctioned address's length and agrees with it at every position ignoring case |
| `Compliance.CheckSanctions` | script.py:178-196 | a denylisted address is sanctioned and no service request is made; otherwise exactly one request `{address, "sanctions"}` is made, a failed call sanctions (fail-closed) and a successful one clears |
| `Compliance.SanctionedAddressAnyCase` | script.py:183-185 | the all-upper and all-lower spellings of `0x…dEaD` are refused without a service call |
| `Relayer.SendReportFor` | script.py:245-276 | the send is delivered exactly when the destination is ready, and not attempted exactly when the connector or contract is missing |
| `Relayer.Process` | script.py:215-243 | a missing or processed nonce is skipped with the set unchanged and compliance not consulted; compliance is consulted exactly when the nonce is fresh and the sender non-empty; a missing, empty or sanctioned sender is a compliance rejection; an empty recipient or a missing or zero amount is a malformed rejection; otherwise exactly one release call `(recipient, amount, nonce)` is made and then the nonce is added, whatever the send reported; every other path leaves the set unchanged |
| `Relayer.DenylistedSenderScenario` | script.py:226-229 | an event from `0x…dead` with fresh nonce 7 is rejected for compliance, with no service call, and 7 is not recorded |
| `Relayer.ProcessBatch` | script.py:321-322 | one outcome per event; the set afterwards is the old set plus exactly the relayed nonces; an event whose nonce was processed before the batch is skipped; a relayed call carries its event's nonce |
| `Relayer.ProcessBatchPrefix` | script.py:321-322 | processing a prefix of a batch yields that prefix of the outcomes (list order) |
| `Relayer.LaterDuplicateSkipped` | script.py:216-221 | within a batch, an event after a relayed event with the same nonce is skipped as a duplicate |
| `Relayer.AtMostOneRelayPerNonce` | script.py:219-243 | no two events of one batch are relayed with the same nonce |
| `Relayer.TransactionRelayer.constructor` | script.py:201-206 | the processed set starts empty |
| `Relayer.TransactionRelayer.SimulateSendTransaction` | script.py:245-276 | the send never fails outward; it returns the report `SendReportFor` gives for the destination |
| `Relayer.TransactionRelayer.ProcessAndRelay` | script.py:208-243 | the outcome, the compliance decision and the new set are those of `Process` on the old set; the set never shrinks |
| `Orchestrator.Cycle` | script.py:319-326 | a cycle scans first; the state's cursor is the scan's cursor, so it does not decrease; there is one outcome per scanned event; only relayed nonces join the set; events with an already processed nonce are skipped |
| `Orchestrator.RunCycles` | script.py:318-326 | over any number of cycles the cursor never decreases, no nonce leaves the set, and every nonce relayed in any cycle is in the final set |
| `Orchestrator.RelayedNonceSkippedInLaterCycles` | script.py:318-322 | a nonce relayed in one cycle makes every later event with that nonce, in any later cycle, a skipped duplicate |
| `Orchestrator.RunCyclesAt` | script.py:318-326 | cycle `k` of a run is one cycle from the state the first `k` cycles left |
| `Orchestrator.RelayedNonceSkippedLaterInSameCycle` | script.py:319-322 | within any cycle of a run, an event after a relayed event with the same nonce is skipped as a duplicate |
| `Orchestrator.BridgeOrchestrator.constructor` | script.py:281-303 | initialized exactly when both contracts resolved; only then do a fresh scanner (cursor from the latest block) and a relayer (empty set) exist |
| `Orchestrator.BridgeOrchestrator.PollOnce` | script.py:319-326 | one cycle: scan, then each event of the batch relayed in list order; the result and new state are `Cycle` of the old state |
| `Orchestrator.BridgeOrchestrator.Run` | script.py:305-326 | not initialized: nothing is done and nothing changes; otherwise the state and per-cycle results are `RunCycles` of the old state |

## Left out

- `BlockchainConnector` (script.py:67-107) is a thin Web3 wrapper. The model keeps only its results: the latest block as `Option<int>`, and whether each contract resolved as a boolean.
- Checksum addresses and contract construction are not modelled, for the same reason.
- The event filter (`create_filter`, `get_all_entries`, `dict(event)`) is ABI and library mechanics. It is the `query` parameter. `Scan`'s block bounds on returned events assume the node returns only logs inside the requested range (`HonoursRange`).
- The compliance HTTP POST, its 5-second timeout and `raise_for_status` are foreign I/O. They are the `ServiceResult` parameter, with `Fail` standing for any `RequestException`.
- `Compliance.ToLower`: folds ASCII letters only, not Python's full Unicode `str.lower()`. For the comparison with the fixed ASCII literal this gives the same answer, because no non-ASCII character lower-cases to one of `0`, `x`, `d`, `e`, `a`.
- The printed "simulated transaction" and the commented-out signing code have no state effect. The send is modelled only by its report.
- The send report `Delivered` stands for the simulated send (the log line and the prints) completing. No transaction is signed or broadcast, because that code is commented out (script.py:258-266).
- The destination state `Unavailable` cannot occur inside an initialized orchestrator, because the relayer exists only once the destination contract resolved, which needs a live connection (script.py:91-93, 296). `CycleEnv.destination` still allows it; no property depends on it.
- Environment and dotenv configuration, the ABI literals and logging have no logic to verify.
- `time.sleep`, `KeyboardInterrupt` handling, the catch-all `except` of the main loop, and the unbounded `while True` are timing and signals. `Run` performs one cycle per given environment instead.
- The relay state lives in memory only, as in the source. No persistence is modelled.
- `destinationChainId` is carried in the event but never read by the source.
