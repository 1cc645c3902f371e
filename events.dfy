/**
 * The decoded `DepositMade` log as the relay sees it: the event's `args`
 * dictionary, every entry of which may be missing, and the block the log
 * was emitted in.
 */
module Events {
  import opened Wrappers

  /** The `args` of a `DepositMade` log; `None` where the key is absent. */
  datatype EventArgs = EventArgs(
    sender: Option<string>,
    recipient: Option<string>,
    amount: Option<nat>,
    destinationChainId: Option<nat>,
    nonce: Option<nat>)

  /** An event with no `args` entry reads as if every argument were absent. */
  const NoArgs: EventArgs := EventArgs(None, None, None, None, None)

  datatype DepositEvent = DepositEvent(args: EventArgs, blockNumber: int)

  /** Python truthiness of an optional string: present and non-empty. */
  predicate TruthyString(s: Option<string>)
  {
    s.Some? && s.value != ""
  }

  /** Python truthiness of an optional integer: present and non-zero. */
  predicate TruthyAmount(a: Option<nat>)
  {
    a.Some? && a.value != 0
  }
}
