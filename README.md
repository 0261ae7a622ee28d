# Mina zkApp exercises, modelled in Dafny

This project models the contract logic of four small Mina zkApps and proves properties about it.

- **SecretDeposit** (zkapp-1, `fields.dfy`, `merkle.dfy`, `secret_deposit.dfy`, `secret_deposit_properties.dfy`).
  - An admin admits address keys to an allow-list of at most 100 entries.
  - An admitted address deposits one secret message through a nullifier. The nullifier's key is determined by the address's key, so a used nullifier stops the address from depositing again. The model takes that binding as a hypothesis (`SecretDepositProperties.OneDepositPerOwner`).
  - The message goes into a 128-leaf append-only message tree.
  - The contract stores only six fields: the admin key, the roots of two Merkle maps (allow-list and nullifiers), the root of the message tree, and two counters.
  - Each call brings witnesses against those roots.
- **SpyMaster** (zkapp-2, `spy_master.dfy`).
  - Agents' messages pass a range-and-checksum validator.
  - Each valid message's number is dispatched as a reducer action.
  - `processBatch` folds the pending actions into the highest number seen, at most 25 pending transactions at a time.
- **Messages** (zkapp-3, `agent_types.dfy`, `message_registry.dfy`). A proto-kit runtime module:
  - the owner registers agents with a two-character security code;
  - agents post messages with strictly increasing numbers.
- **Messages with transaction records** (zkapp-4, `message_box.dfy`). The same registry. It also records, per agent, the block height, sender and nonce of the transaction that last wrote the agent's entry.
- **MessageBoxPrivate** (zkapp-4, `message_box_private.dfy`).
  - The public `addMessage` is disabled.
  - An agent proves off chain, with the `checkMessage` program, that it knows its code.
  - The chain applies only the proof's output.

How the model is built:

- **Merkle roots.** A Merkle root is a binding commitment, so the model takes a root to be the leaves it commits to.
  - A `MerkleMap` root is a map without zero leaves.
  - A `MerkleTree` root is the sequence of its 128 leaves.
  - A witness is the key or index it leads to, together with the leaves it was computed from.
  - "The witness computes the committed root" then means: the committed structure holds the claimed leaf, and the witness agrees with it everywhere else (`Merkle.ProvesIff`).
- **State and methods.** Each contract is a class with the source's state fields. Its methods check the source's assertions in the source's order.
- **Failures.** A failed assertion aborts the transaction, so a method that fails leaves every field as it was. The result names the failed assertion.
- **Specifications.** The SecretDeposit and registry methods (`addAddress`, `depositMessage`, `newAgent`, `addMessage`, `processMessagePrivately`) are proved against pure transition functions. The SpyMaster methods and the map helpers (`updateMapAgent`, the disabled `addMessage`) state their new fields directly; `processBatch`'s new highest number is the fold `SpyMaster.Highest`. The properties are lemmas about those functions: invariants, and traces over any sequence of calls.
- **Field arithmetic.** A Field value is a natural below the Pallas modulus. `Add` wraps around the modulus.

Where the source and its descriptions differ, the model follows the code:

- **`depositMessage` writes early.** It sets the new nullifier root (zkapp-1/src/SecretDeposit.ts:95) before it checks the flags (line 118). o1js applies a method's state updates only when all of its assertions hold, so `SecretDeposit.SecretDeposit.DepositMessage` computes the new root at that point and writes it together with the message root and count, after the last check.
- **Invalid SpyMaster messages.** `addMessageToBatch` rejects invalid messages (zkapp-2/src/SpyMaster.ts:78). Some SpyMaster tests expect such messages to be batched anyway. The model follows the assertion.
- **The private test.** The private-message test builds a `newAgent` transaction but never sends it. The model does not rely on that test.
- **Message-tree capacity.** The source has no explicit guard on the tree's capacity.
  - A `MyMerkleWitness` of height 8 only leads to leaves 0..127 (`SecretDeposit.MessageWitness`).
  - So once 128 messages are stored, no witness has the index `secretMessagesCount`, and every further deposit fails.

## Model

| member | source | states |
|---|---|---|
| Fields.Add | zkapp-1/src/SecretDeposit.ts:67 | field addition: the integer sum when it is below the modulus, the sum less the modulus otherwise |
| Merkle.Set | zkapp-1/src/SecretDeposit.ts:63-64 | replacing one leaf of a map changes that leaf to the new value and no other leaf |
| Merkle.ComputeRootAndKey | zkapp-1/src/SecretDeposit.ts:59-63 | `computeRootAndKey(value)`: the witness's leaves with `value` at its key, and that key; `Merkle.ProvesIff` and `Merkle.ProvesThenUpdate` state what passing the root check means |
| Merkle.ProvesIff | zkapp-1/src/SecretDeposit.ts:59-60 | a map witness computes the committed root for value v iff the committed map holds v at the witness's key and the witness agrees with the map on every other key |
| Merkle.ProvesThenUpdate | zkapp-1/src/SecretDeposit.ts:62-64 | once a witness proves a leaf, the root it computes for a new value is the committed map with that one leaf replaced |
| Merkle.CalculateRoot | zkapp-1/src/SecretDeposit.ts:133 | a tree witness's root for a value holds that value at the witness's index and the witness's leaves elsewhere |
| Merkle.CalculateIndex | zkapp-1/src/SecretDeposit.ts:129-130 | `calculateIndex()`: the index of the leaf the tree witness leads to, compared with `secretMessagesCount` by the transition |
| Merkle.TreeProvesIff | zkapp-1/src/SecretDeposit.ts:123-125 | a tree witness computes the committed root for v iff the committed tree holds v at its index and agrees elsewhere; the root it then computes for a new value replaces that one leaf |
| SecretDeposit.FlagsValid | zkapp-1/src/SecretDeposit.ts:100-118 | the flag policy on bits 5..0 of `message.toBits()` (f1..f6): f1 excludes the other five flags, f2 needs f3, f4 excludes f5 and f6; its properties are the three lemmas below |
| SecretDeposit.FlagsDependOnLowSixBits | zkapp-1/src/SecretDeposit.ts:100-106 | the flag policy reads only bits 0..5 of the message: a message and its value mod 64 are judged alike |
| SecretDeposit.FlagPolicyAccepts | zkapp-1/src/SecretDeposit.ts:108-118 | the patterns 100000, 011000, 000100 and 000000 (f1..f6) pass the policy |
| SecretDeposit.FlagPolicyRejects | zkapp-1/src/SecretDeposit.ts:108-118 | the patterns 010000 (f2 without f3), 000110 and 000101 (f4 with f5 or f6) fail the policy |
| SecretDeposit.InitialState | zkapp-1/src/SecretDeposit.ts:38-46 | after `init` the sender is admin, both counters are 0, all three structures are empty, and the invariant holds |
| SecretDeposit.AddAddressTransition | zkapp-1/src/SecretDeposit.ts:48-68 | fails with NotAdmin for any non-admin sender, with ListFull at 100 addresses, and with StaleOrDuplicateWitness for a key already admitted; succeeds iff admin, under 100 and the witness proves leaf 0; then the key's leaf is 1 and the count rises by one |
| SecretDeposit.DepositMessageTransition | zkapp-1/src/SecretDeposit.ts:70-143 | fails if the nullifier does not verify, if its owner is not admitted, if it was used, or (all of those passing) with PolicyViolation if the flags are invalid; succeeds iff the nullifier verifies, the address witness proves leaf 1 at the owner's key, the nullifier witness proves leaf 0 at the nullifier's key, the flags are valid, and the message witness proves leaf 0 at index `secretMessagesCount`; on success the witnesses lead to the owner's and nullifier's keys, the message goes to the empty leaf at index `secretMessagesCount`, the nullifier is marked used, the count rises by one and the event carries the old count |
| SecretDeposit.AddAddressKeepsInvariant | zkapp-1/src/SecretDeposit.ts:53-67 | an accepted `addAddress` keeps: count ≤ 100 and equal to the number of admitted keys, only leaves 1 in the maps, message leaves empty from the count on |
| SecretDeposit.DepositMessageKeepsInvariant | zkapp-1/src/SecretDeposit.ts:89-139 | an accepted `depositMessage` keeps the same invariant |
| SecretDeposit.SecretDeposit.constructor | zkapp-1/src/SecretDeposit.ts:38-46 | `init` sets the six fields to the initial state |
| SecretDeposit.SecretDeposit.AddAddress | zkapp-1/src/SecretDeposit.ts:48-68 | the fields become the transition's new fields on success and stay unchanged on failure, with the failed assertion reported; the invariant is kept |
| SecretDeposit.SecretDeposit.DepositMessage | zkapp-1/src/SecretDeposit.ts:70-143 | same, with the event returned on success; a failure after the nullifier root is computed still leaves every field unchanged |
| SecretDepositProperties.RunKeepsInvariant | zkapp-1/src/SecretDeposit.ts:48-143 | every sequence of calls, accepted or not, keeps the invariant |
| SecretDepositProperties.ApplyPreserves | zkapp-1/src/SecretDeposit.ts:48-143 | no call changes the admin, un-admits a key, un-uses a nullifier, lowers the message count or rewrites a filled leaf |
| SecretDepositProperties.RunPreserves | zkapp-1/src/SecretDeposit.ts:48-143 | the same over any sequence of calls |
| SecretDepositProperties.NoDoubleAdmission | zkapp-1/src/SecretDeposit.ts:57-64 | after a key is admitted, no later `addAddress` for that key succeeds, whatever happens in between |
| SecretDepositProperties.NoDoubleSpend | zkapp-1/src/SecretDeposit.ts:89-95 | after a deposit uses a nullifier key, no later deposit with that key succeeds, whoever relays it |
| SecretDepositProperties.OneDepositPerOwner | zkapp-1/src/SecretDeposit.ts:77-95 | if every verifying nullifier's key is the one its owner's key determines, any sequence of calls accepts at most one deposit per owner, and none once that key is used |
| SecretDepositProperties.EventsAreConsecutive | zkapp-1/src/SecretDeposit.ts:127-142 | the events of any run are the consecutive indices from the starting count, and the count grows by their number |
| SecretDepositProperties.StaleAdmissionWitnessFails | zkapp-1/src/SecretDeposit.ts:58-60 | of two admissions prepared against the same root, the second fails once the first is accepted |
| SecretDepositProperties.ScenarioAdmit | zkapp-1/src/SecretDeposit.ts:48-68 | on a fresh contract, the admin's `addAddress` for A with an up-to-date witness gives the allow-list {A} and count 1 |
| SecretDepositProperties.ScenarioDeposit | zkapp-1/src/SecretDeposit.ts:70-143 | after that, A's deposit of 32 (flags 100000) with a fresh nullifier goes to leaf 0, marks the nullifier used, gives count 1 and event 0 |
| SecretDepositProperties.ScenarioReplayAndOutsider | zkapp-1/src/SecretDeposit.ts:84-92 | once A's nullifier is used, replaying it fails as used, and a deposit by a never-admitted B fails as not admitted |
| SecretDepositProperties.EndToEndScenario | zkapp-1/src/SecretDeposit.ts:48-143 | admin admits A (count 1), A deposits 32 (flags 100000) at leaf 0, replaying A's nullifier fails as used, and never-admitted B fails as not admitted |
| SpyMaster.ValidateMessage | zkapp-2/src/SpyMaster.ts:25-57 | `validateMessage` on field values, with the checksum as a wrapping field sum; `SpyMaster.ValidateMessageIff` gives its integer reading |
| SpyMaster.ValidateMessageIff | zkapp-2/src/SpyMaster.ts:25-57 | a message is valid iff its agent is 0, or checksum = id + x + y, id ≤ 3000, x ≤ 15000, 5000 ≤ y ≤ 20000 and y > x |
| SpyMaster.EachViolationInvalidates | zkapp-2/src/SpyMaster.ts:29-48 | for a non-zero agent, each single broken condition makes the message invalid |
| SpyMaster.Larger | zkapp-2/src/SpyMaster.ts:97-105 | the reducer callback returns the larger of the state and the action: at least both, and equal to one of them |
| SpyMaster.Highest | zkapp-2/src/SpyMaster.ts:90-111 | `reducer.reduce` with that callback, folding the actions in dispatch order from the current highest number; `SpyMaster.HighestIsMaximum` and `SpyMaster.HighestAppend` state what it computes |
| SpyMaster.HighestIsMaximum | zkapp-2/src/SpyMaster.ts:97-105 | the max-fold is at least its start and every action, and equals one of them |
| SpyMaster.HighestAppend | zkapp-2/src/SpyMaster.ts:91-109 | folding two batches in turn equals folding their concatenation |
| SpyMaster.Reduce | zkapp-2/src/SpyMaster.ts:91-113 | more than 25 pending transactions fail; otherwise the loop yields the max-fold of the pending actions |
| SpyMaster.SpyMaster.constructor | zkapp-2/src/SpyMaster.ts:70-74 | `init`: highest number 0, no action dispatched or consumed |
| SpyMaster.SpyMaster.AddMessageToBatch | zkapp-2/src/SpyMaster.ts:76-81 | an invalid message fails and dispatches nothing; a valid one dispatches exactly its number and returns it as the event |
| SpyMaster.SpyMaster.ProcessBatch | zkapp-2/src/SpyMaster.ts:83-118 | fails iff more than 25 actions are pending, changing nothing; otherwise the highest number becomes the fold of the old one and the pending actions, and every action is consumed |
| SpyMaster.TwoBatchesGiveOverallMaximum | zkapp-2/src/SpyMaster.ts:115-116 | processing two batches one after the other gives the maximum over both |
| AgentTypes.AreEquals | zkapp-3/packages/chain/src/messages.ts:36-38 | `areEquals` compares the first two characters of both codes, which must exist; `AgentTypes.AreEqualsIff` gives its meaning |
| AgentTypes.AreEqualsIff | zkapp-3/packages/chain/src/messages.ts:36-38 | on two-character codes `areEquals` holds iff the codes are equal (the zkapp-4 copy at message.ts:44-46 is identical) |
| AgentTypes.IsValidLength | zkapp-3/packages/chain/src/messages.ts:39-41 | passes iff the code has exactly two characters, else INVALID_LENGTH_SECURITY_CODE |
| AgentTypes.FromString | zkapp-3/packages/chain/src/messages.ts:46-53 | accepts iff at most 12 characters, keeping them exactly; else INVALID_LENGTH_MESSAGE |
| AgentTypes.CalculateLength | zkapp-4/packages/chain/src/message.ts:66-68 | the number of characters of the message |
| MessageRegistry.NewAgentTransition | zkapp-3/packages/chain/src/messages.ts:91-104 | PERMISSION_DENIED for a non-owner, INVALID_LENGTH_SECURITY_CODE for a code not of length 2; otherwise the agent holds {0, default message, code}, overwriting any entry, other agents unchanged, no other id added |
| MessageRegistry.AddMessageTransition | zkapp-3/packages/chain/src/messages.ts:106-134 | the four checks in order with their error tags; succeeds iff registered, number above the last and code equal; then the entry is {number, supplied message, supplied code} and nothing else changes |
| MessageRegistry.Messages.constructor | zkapp-3/packages/chain/src/messages.ts:84-89 | configured owner, empty `mapAgent` |
| MessageRegistry.Messages.NewAgent | zkapp-3/packages/chain/src/messages.ts:91-104 | `mapAgent` becomes the transition's map on success and is unchanged on failure, with its error |
| MessageRegistry.Messages.AddMessage | zkapp-3/packages/chain/src/messages.ts:106-134 | same for `addMessage` |
| MessageRegistry.AcceptedNumbersIncrease | zkapp-3/packages/chain/src/messages.ts:91-123 | while the owner sends no `newAgent` for an agent, its accepted message numbers are strictly increasing and above its starting number, even when other senders send `newAgent` for it (they are refused, so no outsider can reset the number and replay old ones); an agent the owner never registers gets nothing accepted and stays absent |
| MessageBox.NewAgentTransition | zkapp-4/packages/chain/src/message.ts:131-152 | as in zkapp-3, and on success `agentTxInfo[id]` is (block height, sender, nonce); keeps the invariant that exactly the registered agents have a record |
| MessageBox.AddMessageTransition | zkapp-4/packages/chain/src/message.ts:154-194 | the four checks in order; on success the entry is {number, supplied message, stored code} and `agentTxInfo[id]` records the transaction; failure changes neither map |
| MessageBox.AgreesWithRegistry | zkapp-4/packages/chain/src/message.ts:177-184 | on `mapAgent` both zkapp-4 transitions fail and succeed exactly as zkapp-3's, with the same errors and entries |
| MessageBox.AddMessageTouchesOneAgent | zkapp-4/packages/chain/src/message.ts:177-193 | an accepted message raises the agent's number, keeps its code, records the transaction and touches no other agent in either map |
| MessageBox.Messages.constructor | zkapp-4/packages/chain/src/message.ts:106-115 | configured owner, both maps empty |
| MessageBox.Messages.UpdateMapAgent | zkapp-4/packages/chain/src/message.ts:118-123 | overwrites one `mapAgent` entry and nothing else |
| MessageBox.Messages.IsAgentKnown | zkapp-4/packages/chain/src/message.ts:125-129 | the stored details when the agent is registered, AGENT_DOES_NOT_EXIST otherwise |
| MessageBox.Messages.NewAgent | zkapp-4/packages/chain/src/message.ts:131-152 | both maps become the transition's on success and are unchanged on failure |
| MessageBox.Messages.AddMessage | zkapp-4/packages/chain/src/message.ts:154-194 | same for `addMessage` |
| MessageBoxPrivate.CheckMessage | zkapp-4/packages/chain/src/message-private.ts:28-38 | fails with "Invalid or unauthorized message" or outputs lastReceived + 1 (in the field) and the private details' agent ID |
| MessageBoxPrivate.CheckMessageIff | zkapp-4/packages/chain/src/message-private.ts:30-33 | with two-character codes it accepts only the agent's code, accepts every message of at most 12 characters carrying it, and refuses longer ones |
| MessageBoxPrivate.ProcessAsWritten | zkapp-4/packages/chain/src/message-private.ts:75-93 | AGENT_DOES_NOT_EXIST for an unregistered agent, rejected if the proof does not verify; otherwise the agent's number becomes the proof's, its message and code are kept, the transaction is recorded, other agents unchanged |
| MessageBoxPrivate.ForeignProofAccepted | zkapp-4/packages/chain/src/message-private.ts:75-93 | a sound proof about invented details moves a registered agent's number from 5 back to 1 |
| MessageBoxPrivate.ProcessTransition | zkapp-4/packages/chain/src/message-private.ts:75-93 | accepts iff registered, the proof verifies and its public input carries the stored number and code (all that `checkMessage` reads), and then acts as written |
| MessageBoxPrivate.ForeignProofRejected | zkapp-4/packages/chain/src/message-private.ts:75-93 | the corrected transition refuses the proof of `ForeignProofAccepted` |
| MessageBoxPrivate.TestProofAccepted | zkapp-4/packages/chain/test/message-private.test.ts:51-92 | the test's proof (number 0, code "AB", message "Hello World!", output (1, agent 1)) is accepted for an agent registered with code "AB", whose number becomes 1 |
| MessageBoxPrivate.SoundProofAdvancesByOne | zkapp-4/packages/chain/src/message-private.ts:34-37 | an accepted sound proof came from a run of `checkMessage` on the stored details with a matching private code, and raises the number by exactly one |
| MessageBoxPrivate.MessageBoxPrivate.constructor | zkapp-4/packages/chain/src/message-private.ts:51-53 | configured owner, both maps empty |
| MessageBoxPrivate.MessageBoxPrivate.UpdateMapAgent | zkapp-4/packages/chain/src/message-private.ts:55-65 | writes the transaction record of the agent and its entry, and no other agent's |
| MessageBoxPrivate.MessageBoxPrivate.NewAgent | zkapp-4/packages/chain/src/message.ts:131-152 | the inherited `newAgent`, with the same contract |
| MessageBoxPrivate.MessageBoxPrivate.AddMessage | zkapp-4/packages/chain/src/message-private.ts:67-73 | fails for every input and changes nothing |
| MessageBoxPrivate.MessageBoxPrivate.ProcessMessagePrivately | zkapp-4/packages/chain/src/message-private.ts:75-93 | both maps become the corrected transition's on success and are unchanged on failure |

## Left out

- Poseidon hashing and Merkle path hashing are not modelled. A root is the structure's contents, which takes the commitment to be binding.
- Nullifiers are not modelled cryptographically. `Nullifier.verify`, `getPublicKey` with its Poseidon hash, and `key()` become data: whether the nullifier verifies, its owner's key and its own key.
- SecretDepositProperties.OneDepositPerOwner: the binding of a nullifier's key to its owner's key (through the owner's private key and the fixed `nullifierMsg`, SecretDeposit.ts:20, :79, :87) is a hypothesis of the lemma, not something the model derives. Without it, `Nullifier` values with the same owner and different keys give that owner several deposits.
- Proof generation and `proof.verify()` are not modelled. A proof carries whether it verifies. The proof system's soundness is the predicate `MessageBoxPrivate.Sound`, which lemmas take as a hypothesis.
- Chain plumbing is left out: deployment, signing, block production and the preconditions of `getAndRequireEquals`. The sender, nonce and block height are method parameters. Emitted events are returned values.
- `messagesHeight` uses `Math.log2`, which is floating point. It is the constant 8.
- The reducer's action-state hash chain is modelled as the list of dispatched actions plus the number consumed.
  - `getActions` groups actions by transaction. Each `addMessageToBatch` dispatches exactly one action, so the 25-transaction cap is a cap of 25 actions.
- o1js `Character` and `Provable.Array` encodings are not modelled. A character is a Dafny `char`, and codes and messages are strings. JavaScript's `length` and `split("")` (messages.ts:46-51) count UTF-16 code units, whereas a Dafny `char` is a Unicode scalar value. So for characters outside the Basic Multilingual Plane the 12- and 2-character limits count differently.
- `SecurityCode.fromString` is not modelled. It depends on how `Provable.Array.fromFields` pads or cuts a string. Callers supply codes directly.
- proto-kit's `assert` does not stop the method. Later statements still run, but the failed transaction's writes are discarded and its status message is the first failed check's. The model stops at the first failed check. That gives the same final state and status, except where a later statement throws (next line).
- MessageRegistry.AddMessageTransition, MessageBox.AddMessageTransition: with a supplied security code shorter than two characters, the failed length check does not stop `addMessage`. Its later `areEquals` call (messages.ts:126, message.ts:173) then reads a missing character (messages.ts:36-38) and throws. The model reports InvalidLengthSecurityCode instead. In both cases the transaction fails and no state changes, but the status differs.
- AgentTypes.AreEquals: requires both codes to have two characters. The source would throw on a shorter array.
- MessageBoxPrivate.CheckMessage: the assertion at message-private.ts:33 is taken to make the proof impossible to produce. It is proto-kit's runtime `assert`. What that assert does inside a ZkProgram is not part of this model.
- `MessageBoxPrivate` declares `agentTxInfo` again with the same name. It is modelled as the one map it shares with the base module.
- The test files are not modelled.

## Findings

| source | as written | input that shows it | evidently intended | confidence | as-written member | corrected member |
|---|---|---|---|---|---|---|
| zkapp-4/packages/chain/src/message-private.ts:75-93 | `processMessagePrivately` uses the proof's output but never checks that the proof's public input is the agent's stored details. Anyone can set any registered agent's number with a proof about details they made up, without knowing the agent's code. | Agent 1 stores {5, "HELLO", "AB"}. A proof of `checkMessage` with public input {0, "HELLO", "XY"}, private code "XY" and output (1, agent 1) verifies and is applied, so agent 1's number goes from 5 back to 1. | The proof must be about the agent's stored number and code, the only parts of the stored details that `checkMessage` reads (message-private.ts:30-36). The test's own proof satisfies this (`MessageBoxPrivate.TestProofAccepted`). Then an accepted sound proof shows the agent's code and raises its number by exactly one (`MessageBoxPrivate.SoundProofAdvancesByOne`). | not executed | MessageBoxPrivate.ForeignProofAccepted | MessageBoxPrivate.ProcessTransition |
