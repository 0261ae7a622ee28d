/** The `SecretDeposit` zkApp (zkapp-1): an admin curates an allow-list of address keys,
    and each admitted address may deposit one secret message, through a nullifier that
    cannot be linked to its admission, into an append-only message tree. The contract
    stores only roots and counters; every call brings witnesses against those roots. */
module SecretDeposit {
  import opened Fields
  import opened Results
  import opened Merkle

  /** The allow-list holds at most this many addresses. */
  const MAX_ADDRESSES_COUNT: nat := 100

  /** `Math.ceil(Math.log2(maxAddressesCount) + 1)`: the message tree's height. */
  const MESSAGES_HEIGHT: nat := 8

  /** Leaves of a tree of height `MESSAGES_HEIGHT`: 2^(MESSAGES_HEIGHT - 1). */
  const MESSAGES_LEAF_COUNT: nat := 128

  /** Leaf values of the allow-list (admitted) and nullifier (used) maps. */
  const UNSET: Field := 0
  const SET: Field := 1

  /** The leaves of the message tree. */
  type MessagesRoot = s: seq<Field> | |s| == MESSAGES_LEAF_COUNT witness EmptyLeaves()

  function EmptyLeaves(): seq<Field> {
    seq(MESSAGES_LEAF_COUNT, _ => 0)
  }

  /** `new MerkleTree(messagesHeight).getRoot()`. */
  const EMPTY_MESSAGES_ROOT: MessagesRoot := EmptyLeaves()

  /** `MyMerkleWitness`: a path in a tree of height `MESSAGES_HEIGHT`, so it leads to one of
      its leaves. */
  type MessageWitness = w: TreeWitness | w.index < MESSAGES_LEAF_COUNT && |w.leaves| == MESSAGES_LEAF_COUNT
    witness TreeWitness(0, EmptyLeaves())

  /** A nullifier as the contract uses it: the Poseidon hash of its public key (the address
      key it belongs to), its own key in the nullifier map, and whether it verifies against
      the fixed message `nullifierMsg`. The three are computed by the cryptography. */
  datatype Nullifier = Nullifier(ownerKey: Field, key: Field, verifies: bool)

  /** Which assertion of the contract failed. */
  datatype Error =
    | NotAdmin                          // addAddress: sender is not the stored admin
    | ListFull                          // addAddress: addressCount is not below 100
    | StaleOrDuplicateWitness           // addAddress: witness does not show leaf 0 under addressesRoot
    | CredentialProofInvalid            // depositMessage: nullifier.verify fails
    | OwnerNotAdmitted                  // depositMessage: witness does not show the owner's leaf 1
    | NullifierUsedOrStaleWitness       // depositMessage: nullifier.assertUnused fails
    | PolicyViolation                   // depositMessage: the message flags are invalid
    | LogIndexMismatchOrStaleWitness    // depositMessage: witness is not on the next empty leaf

  /** `x.toBits()` cut to its first `n` entries: little-endian bits. */
  function ToBits(x: nat, n: nat): (bits: seq<bool>)
    ensures |bits| == n
  {
    if n == 0 then [] else [x % 2 == 1] + ToBits(x / 2, n - 1)
  }

  /** The flag policy on the low six bits of a message, f1 = bit 5 down to f6 = bit 0. */
  predicate FlagsValid(message: Field) {
    var bits := ToBits(message, 6);
    var f1, f2, f3, f4, f5, f6 := bits[5], bits[4], bits[3], bits[2], bits[1], bits[0];
    // Condition 1: if flag 1 is set, every other flag is clear.
    var c1 := !f1 || (!f2 && !f3 && !f4 && !f5 && !f6);
    // Condition 2: if flag 2 is set, flag 3 is set.
    var c2 := !f2 || f3;
    // Condition 3: if flag 4 is set, flags 5 and 6 are clear.
    var c3 := !f4 || (!f5 && !f6);
    c1 && c2 && c3
  }

  function Pow2(n: nat): (p: nat)
    ensures p >= 1
  {
    if n == 0 then 1 else 2 * Pow2(n - 1)
  }

  /** Adding a multiple of 2^n leaves the first n bits alone. */
  lemma {:induction false} ToBitsShift(q: nat, r: nat, n: nat)
    ensures ToBits(Pow2(n) * q + r, n) == ToBits(r, n)
  {
    if n > 0 {
      var a := Pow2(n - 1) * q;
      assert Pow2(n) * q == 2 * a;
      var x := 2 * a + r;
      assert x % 2 == r % 2;
      assert x / 2 == a + r / 2;
      ToBitsShift(q, r / 2, n - 1);
    }
  }

  /** The policy reads nothing but the low six bits: the payload above them is free. */
  lemma {:induction false} FlagsDependOnLowSixBits(message: Field)
    ensures FlagsValid(message) == FlagsValid(message % 64)
  {
    assert Pow2(6) == 64;
    ToBitsShift(message / 64, message % 64, 6);
  }

  /** The contract's test patterns, f1..f6 read left to right: 100000 (32), 011000 (24),
      000100 (4) and 000000 are accepted ... */
  lemma FlagPolicyAccepts()
    ensures FlagsValid(32) && FlagsValid(24) && FlagsValid(4) && FlagsValid(0)
  {
    // The bits of each pattern, one halving at a time.
    assert ToBits(1, 1) == [true] + ToBits(0, 0);
    assert ToBits(2, 2) == [false] + ToBits(1, 1);
    assert ToBits(4, 3) == [false] + ToBits(2, 2);
    assert ToBits(8, 4) == [false] + ToBits(4, 3);
    assert ToBits(16, 5) == [false] + ToBits(8, 4);
    assert ToBits(32, 6) == [false] + ToBits(16, 5);
    assert ToBits(0, 1) == [false] + ToBits(0, 0);
    assert ToBits(1, 2) == [true] + ToBits(0, 1);
    assert ToBits(3, 3) == [true] + ToBits(1, 2);
    assert ToBits(6, 4) == [false] + ToBits(3, 3);
    assert ToBits(12, 5) == [false] + ToBits(6, 4);
    assert ToBits(24, 6) == [false] + ToBits(12, 5);
    assert ToBits(0, 2) == [false] + ToBits(0, 1);
    assert ToBits(0, 3) == [false] + ToBits(0, 2);
    assert ToBits(1, 4) == [true] + ToBits(0, 3);
    assert ToBits(2, 5) == [false] + ToBits(1, 4);
    assert ToBits(4, 6) == [false] + ToBits(2, 5);
  }

  /** ... and 010000 (16), 000110 (6) and 000101 (5) are not. */
  lemma FlagPolicyRejects()
    ensures !FlagsValid(16) && !FlagsValid(6) && !FlagsValid(5)
  {
    // The bits of each pattern, one halving at a time.
    assert ToBits(0, 1) == [false] + ToBits(0, 0);
    assert ToBits(1, 2) == [true] + ToBits(0, 1);
    assert ToBits(2, 3) == [false] + ToBits(1, 2);
    assert ToBits(4, 4) == [false] + ToBits(2, 3);
    assert ToBits(8, 5) == [false] + ToBits(4, 4);
    assert ToBits(16, 6) == [false] + ToBits(8, 5);
    assert ToBits(0, 2) == [false] + ToBits(0, 1);
    assert ToBits(0, 3) == [false] + ToBits(0, 2);
    assert ToBits(1, 4) == [true] + ToBits(0, 3);
    assert ToBits(3, 5) == [true] + ToBits(1, 4);
    assert ToBits(6, 6) == [false] + ToBits(3, 5);
    assert ToBits(2, 5) == [false] + ToBits(1, 4);
    assert ToBits(5, 6) == [true] + ToBits(2, 5);
  }

  /** The six `@state` fields of the contract. */
  datatype Commitments = Commitments(
    adminPublicKey: PublicKey,
    addressesRoot: MapRoot,
    addressCount: Field,
    nullifierRoot: MapRoot,
    secretMessagesRoot: MessagesRoot,
    secretMessagesCount: Field)

  /** What the contract keeps true of its fields: the allow-list holds only leaves 1 and as
      many of them as `addressCount` says, at most 100; the nullifier map holds only leaves
      1; the message tree is empty from `secretMessagesCount` on. */
  ghost predicate Invariant(s: Commitments) {
    && s.addressCount <= MAX_ADDRESSES_COUNT
    && |s.addressesRoot| == s.addressCount
    && (forall k :: k in s.addressesRoot ==> s.addressesRoot[k] == SET)
    && (forall k :: k in s.nullifierRoot ==> s.nullifierRoot[k] == SET)
    && s.secretMessagesCount <= MESSAGES_LEAF_COUNT
    && forall i :: s.secretMessagesCount <= i < MESSAGES_LEAF_COUNT ==> s.secretMessagesRoot[i] == 0
  }

  /** `init()`: the deploying sender becomes admin, the three structures are empty and the
      counters are zero. */
  function InitialState(sender: PublicKey): (s: Commitments)
    ensures Invariant(s)
    ensures s.adminPublicKey == sender && s.addressCount == 0 && s.secretMessagesCount == 0
    ensures forall k :: Get(s.addressesRoot, k) == UNSET && Get(s.nullifierRoot, k) == UNSET
    ensures forall i :: 0 <= i < MESSAGES_LEAF_COUNT ==> s.secretMessagesRoot[i] == 0
  {
    Commitments(sender, EMPTY_MAP_ROOT, 0, EMPTY_MAP_ROOT, EMPTY_MESSAGES_ROOT, 0)
  }

  /** `addAddress(addressWitness)` called by `sender`: the new fields, or the assertion that fails. */
  function AddAddressTransition(s: Commitments, sender: PublicKey, addressWitness: MapWitness): (r: Result<Commitments, Error>)
    ensures sender != s.adminPublicKey ==> r == Err(NotAdmin)
    ensures sender == s.adminPublicKey && s.addressCount >= MAX_ADDRESSES_COUNT ==> r == Err(ListFull)
    ensures (&& sender == s.adminPublicKey && s.addressCount < MAX_ADDRESSES_COUNT
             && Get(s.addressesRoot, addressWitness.key) != UNSET)
            ==> r == Err(StaleOrDuplicateWitness)
    ensures r.Ok? <==>
      sender == s.adminPublicKey && s.addressCount < MAX_ADDRESSES_COUNT && Proves(addressWitness, s.addressesRoot, UNSET)
    ensures r.Ok? ==> r.value == s.(addressesRoot := Set(s.addressesRoot, addressWitness.key, SET),
                                    addressCount := s.addressCount + 1)
  {
    if sender != s.adminPublicKey then Err(NotAdmin)
    else if !(s.addressCount < MAX_ADDRESSES_COUNT) then Err(ListFull)
    else
      var (emptyRoot, _) := ComputeRootAndKey(addressWitness, UNSET);
      ProvesIff(addressWitness, s.addressesRoot, UNSET);
      if emptyRoot != s.addressesRoot then Err(StaleOrDuplicateWitness)
      else
        var (newRoot, _) := ComputeRootAndKey(addressWitness, SET);
        ProvesThenUpdate(addressWitness, s.addressesRoot, UNSET, SET);
        Ok(s.(addressesRoot := newRoot, addressCount := Add(s.addressCount, 1)))
  }

  /** What an accepted deposit yields: the new fields and the `MessageDeposit` event, which
      carries the index of the leaf the message went to. */
  datatype Deposit = Deposit(state: Commitments, event: Field)

  /** `depositMessage(...)`: the new fields and the event, or the assertion that fails. All
      assertions are checked before anything is committed. */
  function DepositMessageTransition(
    s: Commitments, nullifier: Nullifier, nullifierWitness: MapWitness,
    addressesWitness: MapWitness, message: Field, messageWitness: MessageWitness): (r: Result<Deposit, Error>)
    ensures !nullifier.verifies ==> r == Err(CredentialProofInvalid)
    ensures nullifier.verifies && Get(s.addressesRoot, nullifier.ownerKey) != SET ==> r == Err(OwnerNotAdmitted)
    ensures (&& nullifier.verifies && Get(s.addressesRoot, nullifier.ownerKey) == SET
             && Get(s.nullifierRoot, nullifier.key) != UNSET)
            ==> r == Err(OwnerNotAdmitted) || r == Err(NullifierUsedOrStaleWitness)
    ensures (&& nullifier.verifies
             && Proves(addressesWitness, s.addressesRoot, SET) && addressesWitness.key == nullifier.ownerKey
             && Proves(nullifierWitness, s.nullifierRoot, UNSET) && nullifierWitness.key == nullifier.key
             && !FlagsValid(message))
            ==> r == Err(PolicyViolation)
    ensures r.Ok? <==>
      && nullifier.verifies
      && Proves(addressesWitness, s.addressesRoot, SET) && addressesWitness.key == nullifier.ownerKey
      && Proves(nullifierWitness, s.nullifierRoot, UNSET) && nullifierWitness.key == nullifier.key
      && FlagsValid(message)
      && CalculateRoot(messageWitness, 0) == s.secretMessagesRoot
      && messageWitness.index == s.secretMessagesCount
    ensures r.Ok? ==>
      && nullifier.verifies
      && addressesWitness.key == nullifier.ownerKey
      && nullifierWitness.key == nullifier.key
      && messageWitness.index == s.secretMessagesCount
      && s.secretMessagesRoot[messageWitness.index] == 0
      && r.value.event == s.secretMessagesCount
      && r.value.state == s.(nullifierRoot := Set(s.nullifierRoot, nullifier.key, SET),
                             secretMessagesRoot := s.secretMessagesRoot[messageWitness.index := message],
                             secretMessagesCount := s.secretMessagesCount + 1)
  {
    if !nullifier.verifies then Err(CredentialProofInvalid)
    else
      var (allowedRoot, allowedKey) := ComputeRootAndKey(addressesWitness, SET);
      ProvesIff(addressesWitness, s.addressesRoot, SET);
      if allowedRoot != s.addressesRoot || allowedKey != nullifier.ownerKey then Err(OwnerNotAdmitted)
      else
        // nullifier.assertUnused(nullifierWitness, nullifierRoot)
        var (impliedRoot, key) := ComputeRootAndKey(nullifierWitness, UNSET);
        ProvesIff(nullifierWitness, s.nullifierRoot, UNSET);
        if key != nullifier.key || impliedRoot != s.nullifierRoot then Err(NullifierUsedOrStaleWitness)
        else
          // nullifier.setUsed(nullifierWitness)
          var (newNullifierRoot, _) := ComputeRootAndKey(nullifierWitness, SET);
          ProvesThenUpdate(nullifierWitness, s.nullifierRoot, UNSET, SET);
          if !FlagsValid(message) then Err(PolicyViolation)
          else
            var unsetRoot := CalculateRoot(messageWitness, 0);
            TreeProvesIff(messageWitness, s.secretMessagesRoot, 0, message);
            if unsetRoot != s.secretMessagesRoot || CalculateIndex(messageWitness) != s.secretMessagesCount then
              Err(LogIndexMismatchOrStaleWitness)
            else
              var newMessagesRoot := CalculateRoot(messageWitness, message);
              Ok(Deposit(
                s.(nullifierRoot := newNullifierRoot,
                   secretMessagesRoot := newMessagesRoot,
                   secretMessagesCount := Add(s.secretMessagesCount, 1)),
                s.secretMessagesCount))
  }

  /** `addAddress` keeps the invariant: it turns one leaf 0 into 1 and counts it. */
  lemma {:induction false} AddAddressKeepsInvariant(s: Commitments, sender: PublicKey, addressWitness: MapWitness)
    requires Invariant(s)
    ensures AddAddressTransition(s, sender, addressWitness).Ok? ==> Invariant(AddAddressTransition(s, sender, addressWitness).value)
  {
    var r := AddAddressTransition(s, sender, addressWitness);
    if r.Ok? {
      var k := addressWitness.key;
      ProvesIff(addressWitness, s.addressesRoot, UNSET);
      assert k !in s.addressesRoot;
      var admitted := r.value.addressesRoot;
      assert admitted == s.addressesRoot[k := SET];
      assert |admitted| == |s.addressesRoot| + 1;
    }
  }

  /** `depositMessage` keeps the invariant: it turns one nullifier leaf 0 into 1 and fills the
      first empty message leaf. */
  lemma {:induction false} DepositMessageKeepsInvariant(
    s: Commitments, nullifier: Nullifier, nullifierWitness: MapWitness,
    addressesWitness: MapWitness, message: Field, messageWitness: MessageWitness)
    requires Invariant(s)
    ensures var r := DepositMessageTransition(s, nullifier, nullifierWitness, addressesWitness, message, messageWitness);
            r.Ok? ==> Invariant(r.value.state)
  {
    var r := DepositMessageTransition(s, nullifier, nullifierWitness, addressesWitness, message, messageWitness);
    if r.Ok? {
      assert r.value.state.nullifierRoot == s.nullifierRoot[nullifier.key := SET];
    }
  }

  /** The contract itself: its six on-chain fields, read and overwritten by its methods. */
  class SecretDeposit {
    var adminPublicKey: PublicKey
    var addressesRoot: MapRoot
    var addressCount: Field
    var nullifierRoot: MapRoot
    var secretMessagesRoot: MessagesRoot
    var secretMessagesCount: Field

    /** The fields as one value. */
    function Fields(): Commitments
      reads this
    {
      Commitments(adminPublicKey, addressesRoot, addressCount, nullifierRoot, secretMessagesRoot, secretMessagesCount)
    }

    ghost predicate Valid()
      reads this
    {
      Invariant(Fields())
    }

    /** `init()`, run by the deploying `sender`. */
    constructor (sender: PublicKey)
      ensures Valid() && Fields() == InitialState(sender)
    {
      adminPublicKey := sender;
      addressesRoot := EMPTY_MAP_ROOT;
      addressCount := 0;
      nullifierRoot := EMPTY_MAP_ROOT;
      secretMessagesRoot := EMPTY_MESSAGES_ROOT;
      secretMessagesCount := 0;
    }

    /** `addAddress(addressWitness)` sent by `sender`. A failed assertion aborts the transaction, so
        the fields keep their old values. */
    method AddAddress(sender: PublicKey, addressWitness: MapWitness) returns (r: Outcome<Error>)
      requires Valid()
      modifies this
      ensures Valid()
      ensures var t := AddAddressTransition(old(Fields()), sender, addressWitness);
              if t.Ok? then r == Pass && Fields() == t.value
              else r == Fail(t.error) && Fields() == old(Fields())
    {
      AddAddressKeepsInvariant(Fields(), sender, addressWitness);
      var admin := adminPublicKey;
      if admin != sender {
        return Fail(NotAdmin);
      }
      var count := addressCount;
      if !(count < MAX_ADDRESSES_COUNT) {
        return Fail(ListFull);
      }
      var previousRoot := addressesRoot;
      var (emptyRoot, _) := ComputeRootAndKey(addressWitness, UNSET);
      if emptyRoot != previousRoot {
        return Fail(StaleOrDuplicateWitness);
      }
      var (newRoot, _) := ComputeRootAndKey(addressWitness, SET);
      addressesRoot := newRoot;
      addressCount := Add(count, 1);
      r := Pass;
    }

    /** `depositMessage(nullifier, nullifierWitness, addressesWitness, message, messageWitness)`.
        o1js commits a method's state updates only when all of its assertions hold, so the
        new nullifier root, computed where the contract sets it, is written together with the
        message root and count. On success the result is the `MessageDeposit` event: the
        index the message was stored at. */
    method DepositMessage(
      nullifier: Nullifier, nullifierWitness: MapWitness, addressesWitness: MapWitness,
      message: Field, messageWitness: MessageWitness) returns (r: Result<Field, Error>)
      requires Valid()
      modifies this
      ensures Valid()
      ensures var t := DepositMessageTransition(old(Fields()), nullifier, nullifierWitness,
                                                addressesWitness, message, messageWitness);
              if t.Ok? then r == Ok(t.value.event) && Fields() == t.value.state
              else r == Err(t.error) && Fields() == old(Fields())
    {
      DepositMessageKeepsInvariant(Fields(), nullifier, nullifierWitness, addressesWitness, message, messageWitness);
      if !nullifier.verifies {
        return Err(CredentialProofInvalid);
      }
      var addresses := addressesRoot;
      var (allowedRoot, allowedKey) := ComputeRootAndKey(addressesWitness, SET);
      if allowedRoot != addresses || allowedKey != nullifier.ownerKey {
        return Err(OwnerNotAdmitted);
      }
      var (impliedRoot, key) := ComputeRootAndKey(nullifierWitness, UNSET);
      if key != nullifier.key || impliedRoot != nullifierRoot {
        return Err(NullifierUsedOrStaleWitness);
      }
      var (newNullifierRoot, _) := ComputeRootAndKey(nullifierWitness, SET);
      if !FlagsValid(message) {
        return Err(PolicyViolation);
      }
      var previousRoot := secretMessagesRoot;
      var unsetRoot := CalculateRoot(messageWitness, 0);
      if unsetRoot != previousRoot {
        return Err(LogIndexMismatchOrStaleWitness);
      }
      var secretMessageCount := secretMessagesCount;
      var unsetIndex := CalculateIndex(messageWitness);
      if unsetIndex != secretMessageCount {
        return Err(LogIndexMismatchOrStaleWitness);
      }
      nullifierRoot := newNullifierRoot;
      secretMessagesRoot := CalculateRoot(messageWitness, message);
      secretMessagesCount := Add(secretMessageCount, 1);
      r := Ok(secretMessageCount);
    }
  }
}
