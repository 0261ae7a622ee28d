/** The `Messages` runtime module of zkapp-4 (`message.ts`): the agent registry of zkapp-3
    that also records, per agent, the block height, sender and nonce of the last transaction
    that wrote its entry (`agentTxInfo`). The transaction's sender, nonce and block height
    come in as a `TxContext`. */
module MessageBox {
  import opened Fields
  import opened Results
  import opened AgentTypes
  import MessageRegistry

  datatype AgentTxInfo = AgentTxInfo(blockHeight: UInt64, msgSenderPubKey: PublicKey, msgTxNonce: UInt64)

  /** What the runtime tells a method about the transaction it runs in. */
  datatype TxContext = TxContext(sender: PublicKey, nonce: UInt64, blockHeight: UInt64)

  /** The `AgentTxInfo` a method records for the current transaction. */
  function TxInfo(ctx: TxContext): (r: AgentTxInfo)
    ensures r.blockHeight == ctx.blockHeight && r.msgSenderPubKey == ctx.sender && r.msgTxNonce == ctx.nonce
  {
    AgentTxInfo(ctx.blockHeight, ctx.sender, ctx.nonce)
  }

  /** The module's two state maps. */
  datatype BoxState = BoxState(mapAgent: map<AgentID, AgentDetails>, agentTxInfo: map<AgentID, AgentTxInfo>)

  /** Registered agents have valid codes, and exactly the registered agents have a
      transaction record. */
  ghost predicate Invariant(s: BoxState) {
    CodesValid(s.mapAgent) && s.agentTxInfo.Keys == s.mapAgent.Keys
  }

  /** `newAgent(agentID, securityCode)` in transaction `ctx`, to a module configured with `owner`. */
  function NewAgentTransition(owner: PublicKey, s: BoxState, ctx: TxContext, agentID: AgentID, securityCode: SecurityCode)
    : (r: Result<BoxState, Error>)
    ensures ctx.sender != owner ==> r == Err(PermissionDenied)
    ensures ctx.sender == owner && |securityCode.code| != SECURITY_CODE_LENGTH ==> r == Err(InvalidLengthSecurityCode)
    ensures r.Ok? <==> ctx.sender == owner && |securityCode.code| == SECURITY_CODE_LENGTH
    ensures r.Ok? ==> r.value.mapAgent == s.mapAgent[agentID := FreshAgent(securityCode)]
    ensures r.Ok? ==> r.value.agentTxInfo == s.agentTxInfo[agentID := TxInfo(ctx)]
    ensures r.Ok? && Invariant(s) ==> Invariant(r.value)
  {
    if ctx.sender != owner then Err(PermissionDenied)
    else if IsValidLength(securityCode).Fail? then Err(InvalidLengthSecurityCode)
    else Ok(BoxState(s.mapAgent[agentID := FreshAgent(securityCode)], s.agentTxInfo[agentID := TxInfo(ctx)]))
  }

  /** `addMessage(messageNumber, details)` in transaction `ctx`: the checks of zkapp-3 in
      the same order; on success the entry keeps its stored code and the transaction is
      recorded. */
  function AddMessageTransition(s: BoxState, ctx: TxContext, messageNumber: Field, details: MessageDetails)
    : (r: Result<BoxState, Error>)
    requires CodesValid(s.mapAgent)
    ensures |details.securityCode.code| != SECURITY_CODE_LENGTH ==> r == Err(InvalidLengthSecurityCode)
    ensures |details.securityCode.code| == SECURITY_CODE_LENGTH && details.agentID !in s.mapAgent ==> r == Err(AgentDoesNotExist)
    ensures (&& |details.securityCode.code| == SECURITY_CODE_LENGTH && details.agentID in s.mapAgent
             && messageNumber <= s.mapAgent[details.agentID].lastReceived)
            ==> r == Err(MessageNumberNotGreater)
    ensures (&& |details.securityCode.code| == SECURITY_CODE_LENGTH && details.agentID in s.mapAgent
             && messageNumber > s.mapAgent[details.agentID].lastReceived
             && details.securityCode != s.mapAgent[details.agentID].securityCode)
            ==> r == Err(SecurityCodeMismatch)
    ensures r.Ok? <==>
            details.agentID in s.mapAgent && messageNumber > s.mapAgent[details.agentID].lastReceived &&
            details.securityCode == s.mapAgent[details.agentID].securityCode
    ensures r.Ok? ==> (r.value.mapAgent ==
            s.mapAgent[details.agentID := AgentDetails(messageNumber, details.message, s.mapAgent[details.agentID].securityCode)])
    ensures r.Ok? ==> r.value.agentTxInfo == s.agentTxInfo[details.agentID := TxInfo(ctx)]
    ensures r.Ok? && Invariant(s) ==> Invariant(r.value)
  {
    if IsValidLength(details.securityCode).Fail? then Err(InvalidLengthSecurityCode)
    else if details.agentID !in s.mapAgent then Err(AgentDoesNotExist)
    else
      var agentData := s.mapAgent[details.agentID];
      if !(messageNumber > agentData.lastReceived) then Err(MessageNumberNotGreater)
      else
        AreEqualsIff(details.securityCode, agentData.securityCode);
        if !AreEquals(details.securityCode, agentData.securityCode) then Err(SecurityCodeMismatch)
        else
          Ok(BoxState(
            s.mapAgent[details.agentID := AgentDetails(messageNumber, details.message, agentData.securityCode)],
            s.agentTxInfo[details.agentID := TxInfo(ctx)]))
  }

  /** On `mapAgent`, zkapp-4 behaves as zkapp-3: the same calls fail with the same errors and
      succeed with the same entries (storing the stored code is storing the supplied one,
      since the two are equal). */
  lemma {:induction false} AgreesWithRegistry(owner: PublicKey, s: BoxState, ctx: TxContext, messageNumber: Field,
                                              details: MessageDetails, agentID: AgentID, securityCode: SecurityCode)
    requires CodesValid(s.mapAgent)
    ensures var r := AddMessageTransition(s, ctx, messageNumber, details);
            var q := MessageRegistry.AddMessageTransition(s.mapAgent, messageNumber, details);
            (r.Ok? <==> q.Ok?) && (r.Ok? ==> r.value.mapAgent == q.value) && (r.Err? ==> r.error == q.error)
    ensures var r := NewAgentTransition(owner, s, ctx, agentID, securityCode);
            var q := MessageRegistry.NewAgentTransition(owner, s.mapAgent, ctx.sender, agentID, securityCode);
            (r.Ok? <==> q.Ok?) && (r.Ok? ==> r.value.mapAgent == q.value) && (r.Err? ==> r.error == q.error)
  {
  }

  /** The runtime module with its configured owner and its two state maps. */
  class Messages {
    const owner: PublicKey
    var mapAgent: map<AgentID, AgentDetails>
    var agentTxInfo: map<AgentID, AgentTxInfo>

    function State(): BoxState
      reads this
    {
      BoxState(mapAgent, agentTxInfo)
    }

    ghost predicate Valid()
      reads this
    {
      Invariant(State())
    }

    /** A module configured with `owner` and no agent registered. */
    constructor (owner: PublicKey)
      ensures this.owner == owner && mapAgent == map[] && agentTxInfo == map[] && Valid()
    {
      this.owner := owner;
      mapAgent := map[];
      agentTxInfo := map[];
    }

    /** `updateMapAgent(agentID, agentDetails)`: overwrites one entry of `mapAgent` and
        nothing else. */
    method UpdateMapAgent(agentID: AgentID, agentDetails: AgentDetails)
      modifies this
      ensures mapAgent == old(mapAgent)[agentID := agentDetails]
      ensures agentTxInfo == old(agentTxInfo)
    {
      mapAgent := mapAgent[agentID := agentDetails];
    }

    /** `isAgentKnown(agentID)`: the stored details, or `AGENT_DOES_NOT_EXIST`. */
    function IsAgentKnown(agentID: AgentID): (r: Result<AgentDetails, Error>)
      reads this
      ensures r.Ok? <==> agentID in mapAgent
      ensures r.Ok? ==> r.value == mapAgent[agentID]
      ensures r.Err? ==> r.error == AgentDoesNotExist
    {
      if agentID in mapAgent then Ok(mapAgent[agentID]) else Err(AgentDoesNotExist)
    }

    /** `newAgent(agentID, securityCode)`. */
    method NewAgent(ctx: TxContext, agentID: AgentID, securityCode: SecurityCode) returns (r: Outcome<Error>)
      requires Valid()
      modifies this
      ensures Valid()
      ensures var t := NewAgentTransition(owner, old(State()), ctx, agentID, securityCode);
              (t.Ok? ==> r == Pass && State() == t.value) &&
              (t.Err? ==> r == Fail(t.error) && State() == old(State()))
    {
      if ctx.sender != owner {
        return Fail(PermissionDenied);
      }
      var lengthCheck := IsValidLength(securityCode);
      if lengthCheck.Fail? {
        return lengthCheck;
      }
      var defaultMessage := FromString(DEFAULT_MESSAGE);
      var messageDetails := AgentDetails(0, defaultMessage.value, securityCode);
      mapAgent := mapAgent[agentID := messageDetails];
      agentTxInfo := agentTxInfo[agentID := TxInfo(ctx)];
      return Pass;
    }

    /** `addMessage(messageNumber, details)`. */
    method AddMessage(ctx: TxContext, messageNumber: Field, details: MessageDetails) returns (r: Outcome<Error>)
      requires Valid()
      modifies this
      ensures Valid()
      ensures var t := AddMessageTransition(old(State()), ctx, messageNumber, details);
              (t.Ok? ==> r == Pass && State() == t.value) &&
              (t.Err? ==> r == Fail(t.error) && State() == old(State()))
    {
      var lengthCheck := IsValidLength(details.securityCode);
      if lengthCheck.Fail? {
        return lengthCheck;
      }
      if details.agentID !in mapAgent {
        return Fail(AgentDoesNotExist);
      }
      var agentData := mapAgent[details.agentID];
      if !(messageNumber > agentData.lastReceived) {
        return Fail(MessageNumberNotGreater);
      }
      if !AreEquals(details.securityCode, agentData.securityCode) {
        return Fail(SecurityCodeMismatch);
      }
      UpdateMapAgent(details.agentID, AgentDetails(messageNumber, details.message, agentData.securityCode));
      agentTxInfo := agentTxInfo[details.agentID := TxInfo(ctx)];
      return Pass;
    }
  }

  /** A successful `addMessage` moves the agent's number strictly up, keeps its code,
      records the transaction, and touches no other agent in either map. */
  lemma {:induction false} AddMessageTouchesOneAgent(s: BoxState, ctx: TxContext, messageNumber: Field, details: MessageDetails)
    requires Invariant(s)
    requires AddMessageTransition(s, ctx, messageNumber, details).Ok?
    ensures var t := AddMessageTransition(s, ctx, messageNumber, details).value;
            && t.mapAgent.Keys == s.mapAgent.Keys
            && t.mapAgent[details.agentID].lastReceived > s.mapAgent[details.agentID].lastReceived
            && t.mapAgent[details.agentID].securityCode == s.mapAgent[details.agentID].securityCode
            && t.agentTxInfo[details.agentID] == AgentTxInfo(ctx.blockHeight, ctx.sender, ctx.nonce)
            && (forall id :: id in s.mapAgent && id != details.agentID ==> t.mapAgent[id] == s.mapAgent[id])
            && (forall id :: id in s.agentTxInfo && id != details.agentID ==> t.agentTxInfo[id] == s.agentTxInfo[id])
  {
  }
}
