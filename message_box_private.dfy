/** `MessageBoxPrivate` of zkapp-4 (`message-private.ts`): the message box of `message.ts`
    in which an agent no longer sends its code and message to the chain. It proves off chain,
    with the `checkMessage` program, that its code matches its details, and the chain only
    applies the proof's public output. A proof is modelled by its public input, its public
    output and whether it verifies; the proof system's soundness is the predicate `Sound`. */
module MessageBoxPrivate {
  import opened Fields
  import opened Results
  import opened AgentTypes
  import opened MessageBox

  /** The public output of `checkMessage`. */
  datatype ProcessMessageOutput = ProcessMessageOutput(messageNumber: Field, agentID: AgentID)

  /** Why a call fails. */
  datatype PrivateError =
    | Known(error: Error)            // an `ERRORS` tag of `message.ts`
    | InvalidOrUnauthorizedMessage   // checkMessage: "Invalid or unauthorized message"
    | AddMessageDisabled             // addMessage: "Shoudln't be called here"
    | ProofRejected                  // proof.verify() fails
    | ProofForOtherDetails           // the proof's public input is not the agent's stored details

  /** `checkMessage(agentDetails, messageDetails)`: public input `agentDetails`, private
      input `messageDetails`. */
  function CheckMessage(agentDetails: AgentDetails, messageDetails: MessageDetails): (r: Result<ProcessMessageOutput, PrivateError>)
    requires |agentDetails.securityCode.code| >= SECURITY_CODE_LENGTH
    requires |messageDetails.securityCode.code| >= SECURITY_CODE_LENGTH
    ensures r.Err? ==> r.error == InvalidOrUnauthorizedMessage
    ensures r.Ok? ==> r.value.agentID == messageDetails.agentID
    ensures r.Ok? ==> r.value.messageNumber == Add(agentDetails.lastReceived, 1)
  {
    var validMessage :=
      AreEquals(agentDetails.securityCode, messageDetails.securityCode) &&
      CalculateLength(messageDetails.message) <= 12;
    if !validMessage then Err(InvalidOrUnauthorizedMessage)
    else Ok(ProcessMessageOutput(Add(agentDetails.lastReceived, 1), messageDetails.agentID))
  }

  /** With two-character codes, `checkMessage` accepts only when the private code is the
      agent's code, and accepts every message of at most twelve characters carrying it;
      longer messages are refused. */
  lemma {:induction false} CheckMessageIff(agentDetails: AgentDetails, messageDetails: MessageDetails)
    requires |agentDetails.securityCode.code| == SECURITY_CODE_LENGTH
    requires |messageDetails.securityCode.code| == SECURITY_CODE_LENGTH
    ensures CheckMessage(agentDetails, messageDetails).Ok? ==> agentDetails.securityCode == messageDetails.securityCode
    ensures |messageDetails.message.message| <= MAX_MESSAGE_LENGTH ==>
              (CheckMessage(agentDetails, messageDetails).Ok? <==> agentDetails.securityCode == messageDetails.securityCode)
    ensures MAX_MESSAGE_LENGTH < |messageDetails.message.message| < MODULUS ==> CheckMessage(agentDetails, messageDetails).Err?
  {
    AreEqualsIff(agentDetails.securityCode, messageDetails.securityCode);
  }

  /** A `ProcessMessageProof`: its public input and output, and whether `proof.verify()`
      accepts it. */
  datatype ProcessMessageProof = ProcessMessageProof(publicInput: AgentDetails, publicOutput: ProcessMessageOutput, verifies: bool)

  /** `checkMessage` run on public input `agentDetails` and private input `messageDetails`
      yields `output`. */
  ghost predicate Produces(agentDetails: AgentDetails, messageDetails: MessageDetails, output: ProcessMessageOutput) {
    && |agentDetails.securityCode.code| >= SECURITY_CODE_LENGTH
    && |messageDetails.securityCode.code| >= SECURITY_CODE_LENGTH
    && CheckMessage(agentDetails, messageDetails) == Ok(output)
  }

  /** Soundness of the proof system, assumed of every proof: a proof that verifies comes
      from a run of `checkMessage` on its public input that produced its public output. */
  ghost predicate Sound(proof: ProcessMessageProof) {
    proof.verifies ==> exists md: MessageDetails :: Produces(proof.publicInput, md, proof.publicOutput)
  }

  /** `processMessagePrivately(proof)` as written: the agent named by the output must be
      registered and the proof must verify; the agent's number becomes the output's, its
      message and code stay, and the transaction is recorded. */
  function ProcessAsWritten(s: BoxState, ctx: TxContext, proof: ProcessMessageProof): (r: Result<BoxState, PrivateError>)
    ensures proof.publicOutput.agentID !in s.mapAgent ==> r == Err(Known(AgentDoesNotExist))
    ensures proof.publicOutput.agentID in s.mapAgent && !proof.verifies ==> r == Err(ProofRejected)
    ensures r.Ok? <==> proof.publicOutput.agentID in s.mapAgent && proof.verifies
    ensures r.Ok? ==>
      var id := proof.publicOutput.agentID;
      && r.value.mapAgent.Keys == s.mapAgent.Keys
      && r.value.mapAgent[id].lastReceived == proof.publicOutput.messageNumber
      && r.value.mapAgent[id].message == s.mapAgent[id].message
      && r.value.mapAgent[id].securityCode == s.mapAgent[id].securityCode
      && r.value.agentTxInfo == s.agentTxInfo[id := TxInfo(ctx)]
      && (forall other :: other in s.mapAgent && other != id ==> r.value.mapAgent[other] == s.mapAgent[other])
    ensures r.Ok? && Invariant(s) ==> Invariant(r.value)
  {
    var id := proof.publicOutput.agentID;
    if id !in s.mapAgent then Err(Known(AgentDoesNotExist))
    else if !proof.verifies then Err(ProofRejected)
    else
      var agent := s.mapAgent[id];
      var newAgentDetails := AgentDetails(proof.publicOutput.messageNumber, agent.message, agent.securityCode);
      Ok(BoxState(s.mapAgent[id := newAgentDetails], s.agentTxInfo[id := TxInfo(ctx)]))
  }

  /** The input showing that the as-written transition accepts a proof about other details:
      agent 1 holds number 5 and code "AB"; a proof of `checkMessage` run on invented
      details (number 0, code "XY") with the private code "XY" verifies, and applying it
      moves agent 1 back to number 1, although no run of `checkMessage` on agent 1's
      stored details could have produced that output. */
  lemma {:induction false} ForeignProofAccepted()
    ensures
      var ctx := TxContext(PublicKey(0, false), 0, 0);
      var stored := AgentDetails(5, Message("HELLO"), SecurityCode("AB"));
      var s := BoxState(map[1 := stored], map[1 := TxInfo(ctx)]);
      var proof := ProcessMessageProof(AgentDetails(0, Message("HELLO"), SecurityCode("XY")), ProcessMessageOutput(1, 1), true);
      && Invariant(s)
      && Sound(proof)
      && (forall md :: !Produces(stored, md, proof.publicOutput))
      && ProcessAsWritten(s, ctx, proof).Ok?
      && ProcessAsWritten(s, ctx, proof).value.mapAgent[1].lastReceived == 1
  {
    var forged := AgentDetails(0, Message("HELLO"), SecurityCode("XY"));
    var md := MessageDetails(1, Message("HI"), SecurityCode("XY"));
    assert AreEquals(forged.securityCode, md.securityCode);
    assert Produces(forged, md, ProcessMessageOutput(1, 1));
  }

  /** The proof is about the agent's stored details in everything `checkMessage` reads: its
      last number and its security code (the stored message does not enter the output). */
  predicate AboutStored(publicInput: AgentDetails, stored: AgentDetails) {
    publicInput.lastReceived == stored.lastReceived && publicInput.securityCode == stored.securityCode
  }

  /** `processMessagePrivately(proof)` with the check it evidently needs: the proof must be
      about the agent's stored number and code. It accepts exactly when that holds as well,
      and then does what the as-written transition does. */
  function ProcessTransition(s: BoxState, ctx: TxContext, proof: ProcessMessageProof): (r: Result<BoxState, PrivateError>)
    ensures proof.publicOutput.agentID !in s.mapAgent ==> r == Err(Known(AgentDoesNotExist))
    ensures proof.publicOutput.agentID in s.mapAgent && !proof.verifies ==> r == Err(ProofRejected)
    ensures (&& proof.publicOutput.agentID in s.mapAgent && proof.verifies
             && !AboutStored(proof.publicInput, s.mapAgent[proof.publicOutput.agentID]))
            ==> r == Err(ProofForOtherDetails)
    ensures r.Ok? <==>
      && proof.publicOutput.agentID in s.mapAgent && proof.verifies
      && AboutStored(proof.publicInput, s.mapAgent[proof.publicOutput.agentID])
    ensures r.Ok? ==> r == ProcessAsWritten(s, ctx, proof)
  {
    var id := proof.publicOutput.agentID;
    if id !in s.mapAgent then Err(Known(AgentDoesNotExist))
    else if !proof.verifies then Err(ProofRejected)
    else if !AboutStored(proof.publicInput, s.mapAgent[id]) then Err(ProofForOtherDetails)
    else ProcessAsWritten(s, ctx, proof)
  }

  /** The corrected transition refuses the proof of `ForeignProofAccepted`. */
  lemma {:induction false} ForeignProofRejected()
    ensures
      var ctx := TxContext(PublicKey(0, false), 0, 0);
      var stored := AgentDetails(5, Message("HELLO"), SecurityCode("AB"));
      var s := BoxState(map[1 := stored], map[1 := TxInfo(ctx)]);
      var proof := ProcessMessageProof(AgentDetails(0, Message("HELLO"), SecurityCode("XY")), ProcessMessageOutput(1, 1), true);
      ProcessTransition(s, ctx, proof) == Err(ProofForOtherDetails)
  {
    var stored := AgentDetails(5, Message("HELLO"), SecurityCode("AB"));
    var forged := AgentDetails(0, Message("HELLO"), SecurityCode("XY"));
    assert forged.lastReceived != stored.lastReceived;
  }

  /** The private-message test's own proof is accepted: agent 1, registered with code "AB",
      holds number 0 and the default message; the proof's public input carries number 0,
      code "AB" and the message "Hello World!", and its output (1, agent 1) becomes the
      agent's number. */
  lemma {:induction false} TestProofAccepted()
    ensures
      var ctx := TxContext(PublicKey(0, false), 0, 0);
      var s := BoxState(map[1 := FreshAgent(SecurityCode("AB"))], map[1 := TxInfo(ctx)]);
      var proof := ProcessMessageProof(AgentDetails(0, Message("Hello World!"), SecurityCode("AB")), ProcessMessageOutput(1, 1), true);
      && Invariant(s)
      && ProcessTransition(s, ctx, proof).Ok?
      && ProcessTransition(s, ctx, proof).value.mapAgent[1].lastReceived == 1
  {
  }

  /** What the private flow is for: with the corrected transition, a sound proof that is
      accepted came from a run of `checkMessage` on the agent's stored details with a private
      code agreeing with the stored one, so the agent's number moves up by exactly one. */
  lemma {:induction false} SoundProofAdvancesByOne(s: BoxState, ctx: TxContext, proof: ProcessMessageProof)
    requires Invariant(s)
    requires Sound(proof)
    requires ProcessTransition(s, ctx, proof).Ok?
    ensures var id := proof.publicOutput.agentID;
            && id in s.mapAgent
            && ProcessTransition(s, ctx, proof).value.mapAgent[id].lastReceived == Add(s.mapAgent[id].lastReceived, 1)
            && exists md: MessageDetails ::
                 && Produces(s.mapAgent[id], md, proof.publicOutput)
                 && md.agentID == id
                 && md.securityCode.code[..SECURITY_CODE_LENGTH] == s.mapAgent[id].securityCode.code
  {
    var id := proof.publicOutput.agentID;
    var md: MessageDetails :| Produces(proof.publicInput, md, proof.publicOutput);
    var stored := s.mapAgent[id];
    assert AboutStored(proof.publicInput, stored);
    assert CheckMessage(stored, md) == CheckMessage(proof.publicInput, md);
    assert AreEquals(stored.securityCode, md.securityCode);
    assert stored.securityCode.code == [stored.securityCode.code[0], stored.securityCode.code[1]];
    assert md.securityCode.code[..SECURITY_CODE_LENGTH] == stored.securityCode.code;
  }

  /** The runtime module `MessageBoxPrivate`: the message box of `message.ts` with its
      `updateMapAgent` and `addMessage` replaced and `processMessagePrivately` added. The
      inherited state is that of `base`. */
  class MessageBoxPrivate {
    const base: Messages

    ghost predicate Valid()
      reads this, base
    {
      base.Valid()
    }

    /** A module configured with `owner` and no agent registered. */
    constructor (owner: PublicKey)
      ensures fresh(base) && base.owner == owner && base.State() == BoxState(map[], map[]) && Valid()
    {
      base := new Messages(owner);
    }

    /** The overriding `updateMapAgent(agentID, agentDetails)`: records the transaction for
        the agent, then overwrites its entry; no other agent's entries change. */
    method UpdateMapAgent(ctx: TxContext, agentID: AgentID, agentDetails: AgentDetails)
      modifies base
      ensures base.agentTxInfo == old(base.agentTxInfo)[agentID := TxInfo(ctx)]
      ensures base.mapAgent == old(base.mapAgent)[agentID := agentDetails]
    {
      var agentTxInfo := TxInfo(ctx);
      base.agentTxInfo := base.agentTxInfo[agentID := agentTxInfo];
      base.UpdateMapAgent(agentID, agentDetails);
    }

    /** The inherited `newAgent(agentID, securityCode)`. */
    method NewAgent(ctx: TxContext, agentID: AgentID, securityCode: SecurityCode) returns (r: Outcome<Error>)
      requires Valid()
      modifies base
      ensures Valid()
      ensures var t := NewAgentTransition(base.owner, old(base.State()), ctx, agentID, securityCode);
              (t.Ok? ==> r == Pass && base.State() == t.value) &&
              (t.Err? ==> r == Fail(t.error) && base.State() == old(base.State()))
    {
      r := base.NewAgent(ctx, agentID, securityCode);
    }

    /** The overriding `addMessage`: refused for every input, and changes nothing. */
    method AddMessage(messageNumber: Field, messageDetails: MessageDetails) returns (r: Outcome<PrivateError>)
      ensures r == Fail(AddMessageDisabled)
    {
      return Fail(AddMessageDisabled);
    }

    /** `processMessagePrivately(proof)`, with the check of `ProcessTransition` that the
        proof is about the agent's stored number and code. */
    method ProcessMessagePrivately(ctx: TxContext, proof: ProcessMessageProof) returns (r: Outcome<PrivateError>)
      requires Valid()
      modifies base
      ensures Valid()
      ensures var t := ProcessTransition(old(base.State()), ctx, proof);
              (t.Ok? ==> r == Pass && base.State() == t.value) &&
              (t.Err? ==> r == Fail(t.error) && base.State() == old(base.State()))
    {
      var proofOutput := proof.publicOutput;
      var agent := base.IsAgentKnown(proofOutput.agentID);
      if agent.Err? {
        return Fail(Known(agent.error));
      }
      if !proof.verifies {
        return Fail(ProofRejected);
      }
      if !AboutStored(proof.publicInput, agent.value) {
        return Fail(ProofForOtherDetails);
      }
      var newAgentDetails := AgentDetails(proofOutput.messageNumber, agent.value.message, agent.value.securityCode);
      UpdateMapAgent(ctx, proofOutput.agentID, newAgentDetails);
      return Pass;
    }
  }
}
