/** Properties of `SecretDeposit` over any sequence of calls: an address is admitted at most
    once, a nullifier is spent at most once, and deposited messages fill the leaves
    0, 1, 2, ... in order, each leaf written once. */
module SecretDepositProperties {
  import opened Fields
  import opened Results
  import opened Merkle
  import opened SecretDeposit

  /** A transaction sent to the contract. */
  datatype Call =
    | AddAddressCall(sender: PublicKey, addressWitness: MapWitness)
    | DepositMessageCall(
        nullifier: Nullifier, nullifierWitness: MapWitness, addressesWitness: MapWitness,
        message: Field, messageWitness: MessageWitness)

  /** The fields after one transaction: its new fields, or the old ones when it fails. */
  function Apply(s: Commitments, c: Call): Commitments {
    match c
    case AddAddressCall(sender, w) =>
      var r := AddAddressTransition(s, sender, w);
      if r.Ok? then r.value else s
    case DepositMessageCall(n, nw, aw, m, mw) =>
      var r := DepositMessageTransition(s, n, nw, aw, m, mw);
      if r.Ok? then r.value.state else s
  }

  /** The fields after a sequence of transactions, applied one at a time. */
  function Run(s: Commitments, calls: seq<Call>): Commitments
    decreases |calls|
  {
    if calls == [] then s else Run(Apply(s, calls[0]), calls[1..])
  }

  /** The `MessageDeposit` events a transaction emits. */
  function EventsOf(s: Commitments, c: Call): seq<Field> {
    match c
    case AddAddressCall(_, _) => []
    case DepositMessageCall(n, nw, aw, m, mw) =>
      var r := DepositMessageTransition(s, n, nw, aw, m, mw);
      if r.Ok? then [r.value.event] else []
  }

  /** The `MessageDeposit` events of a sequence of transactions, in order. */
  function Events(s: Commitments, calls: seq<Call>): seq<Field>
    decreases |calls|
  {
    if calls == [] then [] else EventsOf(s, calls[0]) + Events(Apply(s, calls[0]), calls[1..])
  }

  /** Every transaction, accepted or not, keeps the invariant. */
  lemma {:induction false} RunKeepsInvariant(s: Commitments, calls: seq<Call>)
    requires Invariant(s)
    ensures Invariant(Run(s, calls))
    decreases |calls|
  {
    if calls != [] {
      match calls[0] {
        case AddAddressCall(sender, w) =>
          AddAddressKeepsInvariant(s, sender, w);
        case DepositMessageCall(n, nw, aw, m, mw) =>
          DepositMessageKeepsInvariant(s, n, nw, aw, m, mw);
      }
      RunKeepsInvariant(Apply(s, calls[0]), calls[1..]);
    }
  }

  /** What one transaction never undoes: the admin stays, an admitted address stays
      admitted, a used nullifier stays used, the message count never drops and the leaves
      below it never change. */
  ghost predicate Preserved(s: Commitments, t: Commitments) {
    && t.adminPublicKey == s.adminPublicKey
    && (forall k :: Get(s.addressesRoot, k) == SET ==> Get(t.addressesRoot, k) == SET)
    && (forall k :: Get(s.nullifierRoot, k) == SET ==> Get(t.nullifierRoot, k) == SET)
    && s.secretMessagesCount <= t.secretMessagesCount
    && forall i :: 0 <= i < s.secretMessagesCount && i < MESSAGES_LEAF_COUNT ==> t.secretMessagesRoot[i] == s.secretMessagesRoot[i]
  }

  lemma {:induction false} ApplyPreserves(s: Commitments, c: Call)
    ensures Preserved(s, Apply(s, c))
  {
    match c
    case AddAddressCall(sender, w) =>
    case DepositMessageCall(n, nw, aw, m, mw) =>
  }

  /** Nothing a sequence of transactions does undoes an admission, a spent nullifier or a
      deposited message. */
  lemma {:induction false} RunPreserves(s: Commitments, calls: seq<Call>)
    ensures Preserved(s, Run(s, calls))
    decreases |calls|
  {
    if calls != [] {
      var t := Apply(s, calls[0]);
      ApplyPreserves(s, calls[0]);
      RunPreserves(t, calls[1..]);
    }
  }

  /** No double admission: once `addAddress` has admitted a key, no later `addAddress` for
      that key succeeds, whoever sends it, whatever witness it brings and whatever happened
      in between. */
  lemma {:induction false} NoDoubleAdmission(
    s: Commitments, sender: PublicKey, w: MapWitness, calls: seq<Call>, laterSender: PublicKey, laterWitness: MapWitness)
    requires AddAddressTransition(s, sender, w).Ok?
    requires laterWitness.key == w.key
    ensures AddAddressTransition(Run(AddAddressTransition(s, sender, w).value, calls), laterSender, laterWitness).Err?
  {
    var admitted := AddAddressTransition(s, sender, w).value;
    assert Get(admitted.addressesRoot, w.key) == SET;
    RunPreserves(admitted, calls);
  }

  /** No double spend: once a deposit has used a nullifier, no later deposit with a nullifier
      of the same key succeeds, whoever relays it and whatever witnesses it brings. */
  lemma {:induction false} NoDoubleSpend(
    s: Commitments, nullifier: Nullifier, nullifierWitness: MapWitness, addressesWitness: MapWitness,
    message: Field, messageWitness: MessageWitness, calls: seq<Call>,
    later: Nullifier, laterNullifierWitness: MapWitness, laterAddressesWitness: MapWitness,
    laterMessage: Field, laterMessageWitness: MessageWitness)
    requires DepositMessageTransition(s, nullifier, nullifierWitness, addressesWitness, message, messageWitness).Ok?
    requires later.key == nullifier.key
    ensures DepositMessageTransition(
              Run(DepositMessageTransition(s, nullifier, nullifierWitness, addressesWitness, message, messageWitness).value.state, calls),
              later, laterNullifierWitness, laterAddressesWitness, laterMessage, laterMessageWitness).Err?
  {
    var spent := DepositMessageTransition(s, nullifier, nullifierWitness, addressesWitness, message, messageWitness).value.state;
    assert Get(spent.nullifierRoot, nullifier.key) == SET;
    RunPreserves(spent, calls);
  }

  /** Deposits are numbered without gaps: the events of any run are the consecutive leaf
      indices from the starting count on, and the count grows by exactly their number. */
  lemma {:induction false} EventsAreConsecutive(s: Commitments, calls: seq<Call>)
    ensures Run(s, calls).secretMessagesCount == s.secretMessagesCount + |Events(s, calls)|
    ensures forall j :: 0 <= j < |Events(s, calls)| ==> Events(s, calls)[j] == s.secretMessagesCount + j
    decreases |calls|
  {
    if calls != [] {
      var t := Apply(s, calls[0]);
      EventsAreConsecutive(t, calls[1..]);
      assert t.secretMessagesCount == s.secretMessagesCount + |EventsOf(s, calls[0])|;
      assert forall j :: 0 <= j < |EventsOf(s, calls[0])| ==> EventsOf(s, calls[0])[j] == s.secretMessagesCount + j;
    }
  }

  /** How many deposits by the address with key `owner` a sequence of transactions gets
      accepted. */
  function DepositsBy(s: Commitments, calls: seq<Call>, owner: Field): nat
    decreases |calls|
  {
    if calls == [] then 0
    else
      var c := calls[0];
      var accepted :=
        c.DepositMessageCall? && c.nullifier.ownerKey == owner &&
        DepositMessageTransition(s, c.nullifier, c.nullifierWitness, c.addressesWitness, c.message, c.messageWitness).Ok?;
      (if accepted then 1 else 0) + DepositsBy(Apply(s, c), calls[1..], owner)
  }

  /** The binding the cryptography provides: `nullifier.key()` is determined by the owner's
      key (and the fixed `nullifierMsg`), so every nullifier that verifies carries the key
      `keyOf` assigns to its owner. */
  predicate KeysBoundToOwners(keyOf: Field -> Field, calls: seq<Call>) {
    forall i :: 0 <= i < |calls| && calls[i].DepositMessageCall? && calls[i].nullifier.verifies ==>
      calls[i].nullifier.key == keyOf(calls[i].nullifier.ownerKey)
  }

  /** One message per address: when nullifier keys are bound to their owners, any sequence
      of transactions accepts at most one deposit by an address, and none once its
      nullifier is already used. */
  lemma {:induction false} OneDepositPerOwner(s: Commitments, calls: seq<Call>, keyOf: Field -> Field, owner: Field)
    requires KeysBoundToOwners(keyOf, calls)
    ensures DepositsBy(s, calls, owner) <= 1
    ensures Get(s.nullifierRoot, keyOf(owner)) == SET ==> DepositsBy(s, calls, owner) == 0
    decreases |calls|
  {
    if calls != [] {
      var c := calls[0];
      var t := Apply(s, c);
      assert KeysBoundToOwners(keyOf, calls[1..]) by {
        forall i | 0 <= i < |calls[1..]| && calls[1..][i].DepositMessageCall? && calls[1..][i].nullifier.verifies
          ensures calls[1..][i].nullifier.key == keyOf(calls[1..][i].nullifier.ownerKey)
        {
          assert calls[1..][i] == calls[i + 1];
        }
      }
      OneDepositPerOwner(t, calls[1..], keyOf, owner);
      ApplyPreserves(s, c);
      if c.DepositMessageCall? && c.nullifier.ownerKey == owner {
        var r := DepositMessageTransition(s, c.nullifier, c.nullifierWitness, c.addressesWitness, c.message, c.messageWitness);
        if r.Ok? {
          assert c.nullifier.key == keyOf(owner) by {
            assert calls[0] == c;
          }
          assert Get(t.nullifierRoot, keyOf(owner)) == SET;
        }
      }
    }
  }

  /** Two admissions prepared against the same root race: once the first is accepted the
      root has moved, and the second, whose witness shows leaf 0 under the old root, fails. */
  lemma {:induction false} StaleAdmissionWitnessFails(s: Commitments, sender: PublicKey, first: MapWitness, second: MapWitness)
    requires AddAddressTransition(s, sender, first).Ok?
    requires Proves(second, s.addressesRoot, UNSET)
    ensures AddAddressTransition(AddAddressTransition(s, sender, first).value, sender, second).Err?
  {
    var t := AddAddressTransition(s, sender, first).value;
    assert Get(t.addressesRoot, first.key) != Get(s.addressesRoot, first.key);
    assert t.addressesRoot != s.addressesRoot;
  }

  /** The contract's story: the admin admits address A, A deposits a message at leaf 0, a
      second deposit with A's nullifier fails, and an address B that was never admitted
      cannot deposit. Every witness is computed from an up-to-date copy of its structure. */
  lemma {:induction false} EndToEndScenario(admin: PublicKey, keyA: Field, keyB: Field, nullifierKeyA: Field, nullifierKeyB: Field)
    requires keyA != keyB && nullifierKeyA != nullifierKeyB
    ensures
      var s0 := InitialState(admin);
      var r1 := AddAddressTransition(s0, admin, WitnessFor(s0.addressesRoot, keyA));
      r1.Ok? && r1.value.addressCount == 1 &&
      var s1 := r1.value;
      var nullifierA := Nullifier(keyA, nullifierKeyA, true);
      var r2 := DepositMessageTransition(s1, nullifierA, WitnessFor(s1.nullifierRoot, nullifierKeyA),
                                         WitnessFor(s1.addressesRoot, keyA), 32, TreeWitness(0, s1.secretMessagesRoot));
      r2.Ok? && r2.value.event == 0 && r2.value.state.secretMessagesCount == 1 &&
      r2.value.state.nullifierRoot != s1.nullifierRoot &&
      var s2 := r2.value.state;
      var replay := DepositMessageTransition(s2, nullifierA, WitnessFor(s2.nullifierRoot, nullifierKeyA),
                                             WitnessFor(s2.addressesRoot, keyA), 32, TreeWitness(1, s2.secretMessagesRoot));
      var nullifierB := Nullifier(keyB, nullifierKeyB, true);
      var outsider := DepositMessageTransition(s2, nullifierB, WitnessFor(s2.nullifierRoot, nullifierKeyB),
                                               WitnessFor(s2.addressesRoot, keyB), 32, TreeWitness(1, s2.secretMessagesRoot));
      replay == Err(NullifierUsedOrStaleWitness) && outsider == Err(OwnerNotAdmitted)
  {
    ScenarioAdmit(admin, keyA);
    var s1 := AdmittedState(admin, keyA);
    ScenarioDeposit(admin, keyA, nullifierKeyA);
    var s2 := s1.(nullifierRoot := map[nullifierKeyA := SET], secretMessagesRoot := EMPTY_MESSAGES_ROOT[0 := 32],
                  secretMessagesCount := 1);
    ScenarioReplayAndOutsider(s2, keyA, keyB, nullifierKeyA, nullifierKeyB);
  }

  /** The state after the admin admits `keyA` to a fresh contract. */
  function AdmittedState(admin: PublicKey, keyA: Field): (s: Commitments)
    ensures Get(s.addressesRoot, keyA) == SET && s.addressCount == 1
  {
    InitialState(admin).(addressesRoot := map[keyA := SET], addressCount := 1)
  }

  /** First step of the scenario: the admin admits `keyA`. */
  lemma {:induction false} ScenarioAdmit(admin: PublicKey, keyA: Field)
    ensures var s0 := InitialState(admin);
            AddAddressTransition(s0, admin, WitnessFor(s0.addressesRoot, keyA)) == Ok(AdmittedState(admin, keyA))
  {
    var s0 := InitialState(admin);
    WitnessForProves(s0.addressesRoot, keyA, UNSET);
  }

  /** Second step: `keyA` deposits 32 into leaf 0 with a fresh nullifier. */
  lemma {:induction false} ScenarioDeposit(admin: PublicKey, keyA: Field, nullifierKeyA: Field)
    ensures var s1 := AdmittedState(admin, keyA);
            DepositMessageTransition(s1, Nullifier(keyA, nullifierKeyA, true), WitnessFor(s1.nullifierRoot, nullifierKeyA),
                                     WitnessFor(s1.addressesRoot, keyA), 32, TreeWitness(0, s1.secretMessagesRoot))
            == Ok(Deposit(s1.(nullifierRoot := map[nullifierKeyA := SET], secretMessagesRoot := EMPTY_MESSAGES_ROOT[0 := 32],
                              secretMessagesCount := 1), 0))
  {
    var s1 := AdmittedState(admin, keyA);
    WitnessForProves(s1.addressesRoot, keyA, SET);
    WitnessForProves(s1.nullifierRoot, nullifierKeyA, UNSET);
    FlagPolicyAccepts();
  }

  /** Third step: the same nullifier is refused, and so is an address never admitted. */
  lemma {:induction false} ScenarioReplayAndOutsider(s2: Commitments, keyA: Field, keyB: Field, nullifierKeyA: Field, nullifierKeyB: Field)
    requires s2.addressesRoot == map[keyA := SET] && s2.nullifierRoot == map[nullifierKeyA := SET]
    requires keyA != keyB
    ensures DepositMessageTransition(s2, Nullifier(keyA, nullifierKeyA, true), WitnessFor(s2.nullifierRoot, nullifierKeyA),
                                     WitnessFor(s2.addressesRoot, keyA), 32, TreeWitness(1, s2.secretMessagesRoot))
            == Err(NullifierUsedOrStaleWitness)
    ensures DepositMessageTransition(s2, Nullifier(keyB, nullifierKeyB, true), WitnessFor(s2.nullifierRoot, nullifierKeyB),
                                     WitnessFor(s2.addressesRoot, keyB), 32, TreeWitness(1, s2.secretMessagesRoot))
            == Err(OwnerNotAdmitted)
  {
    WitnessForProves(s2.addressesRoot, keyA, SET);
    WitnessForProves(s2.nullifierRoot, nullifierKeyA, UNSET);
  }
}
