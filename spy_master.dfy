/** The `SpyMaster` zkApp (zkapp-2): agents' messages are validated and their numbers
    dispatched as reducer actions; `processBatch` folds the pending actions into the highest
    message number seen so far. */
module SpyMaster {
  import opened Fields
  import opened Results

  /** At most this many pending dispatching transactions are reduced in one `processBatch`. */
  const MAX_BATCH_SIZE: nat := 25

  datatype Message = Message(
    number: Field,
    agentID: Field,
    agentXLocation: Field,
    agentYLocation: Field,
    checkSum: Field)

  /** `validateMessage`: agent 0 is always valid; any other agent needs the checksum and the
      range conditions. The checksum is a field sum. */
  predicate ValidateMessage(message: Message) {
    var isZero := message.agentID == 0;
    var cond1 := message.checkSum == Add(Add(message.agentID, message.agentXLocation), message.agentYLocation);
    var cond2 := message.agentID <= 3000;
    var cond3 := message.agentXLocation <= 15000;
    var cond4 := message.agentYLocation >= 5000 && message.agentYLocation <= 20000;
    var cond5 := message.agentYLocation > message.agentXLocation;
    if isZero then true else cond1 && cond2 && cond3 && cond4 && cond5
  }

  /** What a valid message is, with the checksum read as an ordinary sum: within the ranges
      the field sum never wraps. */
  lemma {:induction false} ValidateMessageIff(m: Message)
    ensures ValidateMessage(m) <==>
      m.agentID == 0 ||
      (&& m.checkSum == m.agentID + m.agentXLocation + m.agentYLocation
       && m.agentID <= 3000
       && m.agentXLocation <= 15000
       && 5000 <= m.agentYLocation <= 20000
       && m.agentYLocation > m.agentXLocation)
  {
    if m.agentID != 0 && m.agentID <= 3000 && m.agentXLocation <= 15000 && m.agentYLocation <= 20000 {
      assert Add(m.agentID, m.agentXLocation) == m.agentID + m.agentXLocation;
      assert Add(Add(m.agentID, m.agentXLocation), m.agentYLocation) == m.agentID + m.agentXLocation + m.agentYLocation;
    }
  }

  /** Each condition is needed: a message of a non-zero agent that breaks any single one of
      them is invalid, whatever its other fields. */
  lemma {:induction false} EachViolationInvalidates(m: Message)
    requires m.agentID != 0
    ensures m.agentID > 3000 ==> !ValidateMessage(m)
    ensures m.agentXLocation > 15000 ==> !ValidateMessage(m)
    ensures m.agentYLocation < 5000 || m.agentYLocation > 20000 ==> !ValidateMessage(m)
    ensures m.agentYLocation <= m.agentXLocation ==> !ValidateMessage(m)
    ensures m.checkSum != m.agentID + m.agentXLocation + m.agentYLocation ==> !ValidateMessage(m)
  {
    ValidateMessageIff(m);
  }

  /** One step of the reducer: the larger of the state and the action. */
  function Larger(state: Field, action: Field): (r: Field)
    ensures r >= state && r >= action && (r == state || r == action)
  {
    if state < action then action else state
  }

  /** `reducer.reduce` over `actions` from `start` with `Larger`, in dispatch order. */
  function Highest(start: Field, actions: seq<Field>): Field
    decreases |actions|
  {
    if actions == [] then start else Highest(Larger(start, actions[0]), actions[1..])
  }

  /** The fold is the maximum: at least the start and every action, and equal to one of them. */
  lemma {:induction false} HighestIsMaximum(start: Field, actions: seq<Field>)
    ensures Highest(start, actions) >= start
    ensures forall i :: 0 <= i < |actions| ==> Highest(start, actions) >= actions[i]
    ensures Highest(start, actions) == start || Highest(start, actions) in actions
    decreases |actions|
  {
    if actions != [] {
      var next := Larger(start, actions[0]);
      HighestIsMaximum(next, actions[1..]);
      assert forall i :: 1 <= i < |actions| ==> actions[i] == actions[1..][i - 1];
    }
  }

  /** Folding two batches one after the other gives the fold of both together. */
  lemma {:induction false} HighestAppend(start: Field, first: seq<Field>, second: seq<Field>)
    ensures Highest(Highest(start, first), second) == Highest(start, first + second)
    decreases |first|
  {
    if first != [] {
      var next := Larger(start, first[0]);
      HighestAppend(next, first[1..], second);
      assert (first + second)[0] == first[0];
      assert (first + second)[1..] == first[1..] + second;
      assert Highest(start, first) == Highest(next, first[1..]);
      assert Highest(start, first + second) == Highest(next, first[1..] + second);
    } else {
      assert first + second == second;
    }
  }

  /** Which assertion fails. */
  datatype Error =
    | InvalidMessage    // addMessageToBatch: validateMessage is false
    | BatchTooLarge     // processBatch: more than MAX_BATCH_SIZE pending dispatching transactions

  /** `reducer.reduce(pendingActions, Field, max, {state: start, ...}, {maxTransactionsWithActions: 25})`:
      fails on more than 25 pending transactions, and otherwise folds them into the largest. */
  method Reduce(start: Field, pending: seq<Field>) returns (r: Result<Field, Error>)
    ensures |pending| > MAX_BATCH_SIZE ==> r == Err(BatchTooLarge)
    ensures |pending| <= MAX_BATCH_SIZE ==> r == Ok(Highest(start, pending))
  {
    if |pending| > MAX_BATCH_SIZE {
      return Err(BatchTooLarge);
    }
    var state := start;
    var i := 0;
    while i < |pending|
      invariant 0 <= i <= |pending|
      invariant Highest(state, pending[i..]) == Highest(start, pending)
    {
      assert pending[i..][1..] == pending[i + 1..];
      state := Larger(state, pending[i]);
      i := i + 1;
    }
    return Ok(state);
  }

  /** The contract with the account's action history: `actions` holds the number each
      accepted `addMessageToBatch` dispatched, `actionState` how many of them `processBatch`
      has consumed. */
  class SpyMaster {
    var actions: seq<Field>
    var actionState: nat
    var highestNumber: Field

    ghost predicate Valid()
      reads this
    {
      actionState <= |actions|
    }

    /** The actions dispatched but not yet processed. */
    function Pending(): seq<Field>
      reads this
      requires Valid()
    {
      actions[actionState..]
    }

    /** `init()`: highest number 0, nothing dispatched, nothing consumed. */
    constructor ()
      ensures Valid() && highestNumber == 0 && actions == [] && actionState == 0
    {
      actions := [];
      actionState := 0;
      highestNumber := 0;
    }

    /** `addMessageToBatch(message)`: a valid message dispatches its number as one action; the
        result is the `dispatched` event. */
    method AddMessageToBatch(message: Message) returns (r: Result<Field, Error>)
      requires Valid()
      modifies this
      ensures Valid()
      ensures ValidateMessage(message) ==> r == Ok(message.number) && actions == old(actions) + [message.number]
      ensures !ValidateMessage(message) ==> r == Err(InvalidMessage) && actions == old(actions)
      ensures actionState == old(actionState) && highestNumber == old(highestNumber)
    {
      var isValid := ValidateMessage(message);
      if !isValid {
        return Err(InvalidMessage);
      }
      actions := actions + [message.number];
      r := Ok(message.number);
    }

    /** `processBatch()`: reduces the pending actions into `highestNumber` and moves
        `actionState` past them; the result is the `processed` event. */
    method ProcessBatch() returns (r: Result<Field, Error>)
      requires Valid()
      modifies this
      ensures Valid() && actions == old(actions)
      ensures |old(Pending())| > MAX_BATCH_SIZE <==> r.Err?
      ensures r.Err? ==> highestNumber == old(highestNumber) && actionState == old(actionState)
      ensures r.Ok? ==> r.value == highestNumber && actionState == |actions| &&
                        highestNumber == Highest(old(highestNumber), old(Pending()))
    {
      var currentHighestNumber := highestNumber;
      var pendingActions := actions[actionState..];
      var reduced := Reduce(currentHighestNumber, pendingActions);
      if reduced.Err? {
        return Err(reduced.error);
      }
      highestNumber := reduced.value;
      actionState := |actions|;
      r := Ok(reduced.value);
    }
  }

  /** Two batches processed one after the other end at the maximum over both, as if they
      had been processed together. */
  lemma {:induction false} TwoBatchesGiveOverallMaximum(start: Field, first: seq<Field>, second: seq<Field>)
    ensures Highest(Highest(start, first), second) == Highest(start, first + second)
    ensures forall i :: 0 <= i < |first + second| ==> Highest(Highest(start, first), second) >= (first + second)[i]
  {
    HighestAppend(start, first, second);
    HighestIsMaximum(start, first + second);
  }
}
