/** The `Messages` runtime module of zkapp-3 (`messages.ts`): the owner registers agents with
    a two-character security code, and each agent then posts messages with strictly
    increasing numbers. Every check is a proto-kit `assert`: a failed one fails the
    transaction, which leaves the state as it was; the status message is the first failed
    check's. */
module MessageRegistry {
  import opened Fields
  import opened Results
  import opened AgentTypes

  /** The `mapAgent` state map: an agent absent from it is not registered. */
  type Registry = map<AgentID, AgentDetails>

  /** `newAgent(agentID, securityCode)` sent by `sender` to a module configured with `owner`. */
  function NewAgentTransition(owner: PublicKey, m: Registry, sender: PublicKey, agentID: AgentID, securityCode: SecurityCode)
    : (r: Result<Registry, Error>)
    ensures sender != owner ==> r == Err(PermissionDenied)
    ensures sender == owner && |securityCode.code| != SECURITY_CODE_LENGTH ==> r == Err(InvalidLengthSecurityCode)
    ensures r.Ok? <==> sender == owner && |securityCode.code| == SECURITY_CODE_LENGTH
    ensures r.Ok? ==> r.value.Keys == m.Keys + {agentID} && r.value[agentID] == FreshAgent(securityCode)
    ensures r.Ok? ==> forall id :: id in m && id != agentID ==> r.value[id] == m[id]
    ensures r.Ok? && CodesValid(m) ==> CodesValid(r.value)
  {
    if sender != owner then Err(PermissionDenied)
    else if IsValidLength(securityCode).Fail? then Err(InvalidLengthSecurityCode)
    else Ok(m[agentID := FreshAgent(securityCode)])
  }

  /** `addMessage(messageNumber, details)`: code length, then registration, then a number
      above the last one, then the stored code; on success the entry holds the new number,
      the supplied message and the supplied code. */
  function AddMessageTransition(m: Registry, messageNumber: Field, details: MessageDetails): (r: Result<Registry, Error>)
    requires CodesValid(m)
    ensures |details.securityCode.code| != SECURITY_CODE_LENGTH ==> r == Err(InvalidLengthSecurityCode)
    ensures |details.securityCode.code| == SECURITY_CODE_LENGTH && details.agentID !in m ==> r == Err(AgentDoesNotExist)
    ensures (&& |details.securityCode.code| == SECURITY_CODE_LENGTH && details.agentID in m
             && messageNumber <= m[details.agentID].lastReceived)
            ==> r == Err(MessageNumberNotGreater)
    ensures (&& |details.securityCode.code| == SECURITY_CODE_LENGTH && details.agentID in m
             && messageNumber > m[details.agentID].lastReceived
             && details.securityCode != m[details.agentID].securityCode)
            ==> r == Err(SecurityCodeMismatch)
    ensures r.Ok? <==>
            details.agentID in m && messageNumber > m[details.agentID].lastReceived &&
            details.securityCode == m[details.agentID].securityCode
    ensures r.Ok? ==> r.value == m[details.agentID := AgentDetails(messageNumber, details.message, details.securityCode)]
    ensures r.Ok? ==> CodesValid(r.value)
  {
    if IsValidLength(details.securityCode).Fail? then Err(InvalidLengthSecurityCode)
    else if details.agentID !in m then Err(AgentDoesNotExist)
    else
      var agentData := m[details.agentID];
      if !(messageNumber > agentData.lastReceived) then Err(MessageNumberNotGreater)
      else
        AreEqualsIff(details.securityCode, agentData.securityCode);
        if !AreEquals(details.securityCode, agentData.securityCode) then Err(SecurityCodeMismatch)
        else Ok(m[details.agentID := AgentDetails(messageNumber, details.message, details.securityCode)])
  }

  /** The runtime module with its configured owner and its `mapAgent` state. */
  class Messages {
    const owner: PublicKey
    var mapAgent: Registry

    ghost predicate Valid()
      reads this
    {
      CodesValid(mapAgent)
    }

    /** A module configured with `owner` and no agent registered. */
    constructor (owner: PublicKey)
      ensures this.owner == owner && mapAgent == map[] && Valid()
    {
      this.owner := owner;
      mapAgent := map[];
    }

    /** `newAgent(agentID, securityCode)`, with the transaction's sender as a parameter. */
    method NewAgent(sender: PublicKey, agentID: AgentID, securityCode: SecurityCode) returns (r: Outcome<Error>)
      requires Valid()
      modifies this
      ensures Valid()
      ensures var t := NewAgentTransition(owner, old(mapAgent), sender, agentID, securityCode);
              (t.Ok? ==> r == Pass && mapAgent == t.value) &&
              (t.Err? ==> r == Fail(t.error) && mapAgent == old(mapAgent))
    {
      if sender != owner {
        return Fail(PermissionDenied);
      }
      var lengthCheck := IsValidLength(securityCode);
      if lengthCheck.Fail? {
        return lengthCheck;
      }
      var defaultMessage := FromString(DEFAULT_MESSAGE);
      var messageDetails := AgentDetails(0, defaultMessage.value, securityCode);
      mapAgent := mapAgent[agentID := messageDetails];
      return Pass;
    }

    /** `addMessage(messageNumber, details)`. */
    method AddMessage(messageNumber: Field, details: MessageDetails) returns (r: Outcome<Error>)
      requires Valid()
      modifies this
      ensures Valid()
      ensures var t := AddMessageTransition(old(mapAgent), messageNumber, details);
              (t.Ok? ==> r == Pass && mapAgent == t.value) &&
              (t.Err? ==> r == Fail(t.error) && mapAgent == old(mapAgent))
    {
      var lengthCheck := IsValidLength(details.securityCode);
      if lengthCheck.Fail? {
        return lengthCheck;
      }
      if details.agentID !in mapAgent {
        return Fail(AgentDoesNotExist);
      }
      var agentData := mapAgent[details.agentID];
      if !(messageNumber > agentData.lastReceived) {
        return Fail(MessageNumberNotGreater);
      }
      if !AreEquals(details.securityCode, agentData.securityCode) {
        return Fail(SecurityCodeMismatch);
      }
      mapAgent := mapAgent[details.agentID := AgentDetails(messageNumber, details.message, details.securityCode)];
      return Pass;
    }
  }

  /** A transaction sent to the module. */
  datatype Call =
    | NewAgentCall(sender: PublicKey, agentID: AgentID, securityCode: SecurityCode)
    | AddMessageCall(messageNumber: Field, details: MessageDetails)

  /** The registry after one transaction: its new state, or the old one when it fails. */
  function Apply(owner: PublicKey, m: Registry, c: Call): (r: Registry)
    requires CodesValid(m)
    ensures CodesValid(r)
  {
    match c
    case NewAgentCall(sender, id, code) =>
      var t := NewAgentTransition(owner, m, sender, id, code);
      if t.Ok? then t.value else m
    case AddMessageCall(n, d) =>
      var t := AddMessageTransition(m, n, d);
      if t.Ok? then t.value else m
  }

  /** The registry after a sequence of transactions. */
  function Run(owner: PublicKey, m: Registry, calls: seq<Call>): (r: Registry)
    requires CodesValid(m)
    ensures CodesValid(r)
    decreases |calls|
  {
    if calls == [] then m else Run(owner, Apply(owner, m, calls[0]), calls[1..])
  }

  /** The message numbers accepted for agent `id` over a sequence of transactions, in order. */
  function Accepted(owner: PublicKey, m: Registry, calls: seq<Call>, id: AgentID): seq<Field>
    requires CodesValid(m)
    decreases |calls|
  {
    if calls == [] then []
    else
      var c := calls[0];
      var head :=
        if c.AddMessageCall? && c.details.agentID == id && AddMessageTransition(m, c.messageNumber, c.details).Ok?
        then [c.messageNumber] else [];
      head + Accepted(owner, Apply(owner, m, c), calls[1..], id)
  }

  /** Whether the sequence holds a `newAgent` for agent `id` sent by the owner, the only
      sender whose `newAgent` can re-register it. */
  predicate Registers(owner: PublicKey, calls: seq<Call>, id: AgentID) {
    exists i :: 0 <= i < |calls| && calls[i].NewAgentCall? && calls[i].agentID == id && calls[i].sender == owner
  }

  /** Between two registrations of an agent by the owner, the numbers accepted for it are
      strictly increasing and above the number it held at the start, whatever `newAgent`
      calls other senders make; an agent the owner never registers gets no message accepted
      and stays absent. */
  lemma {:induction false} AcceptedNumbersIncrease(owner: PublicKey, m: Registry, calls: seq<Call>, id: AgentID)
    requires CodesValid(m)
    requires !Registers(owner, calls, id)
    ensures id !in m ==> Accepted(owner, m, calls, id) == [] && id !in Run(owner, m, calls)
    ensures id in m ==> id in Run(owner, m, calls) && Run(owner, m, calls)[id].lastReceived >= m[id].lastReceived
    ensures id in m ==> forall i :: 0 <= i < |Accepted(owner, m, calls, id)| ==> Accepted(owner, m, calls, id)[i] > m[id].lastReceived
    ensures forall i, j :: 0 <= i < j < |Accepted(owner, m, calls, id)| ==>
              Accepted(owner, m, calls, id)[i] < Accepted(owner, m, calls, id)[j]
    decreases |calls|
  {
    if calls != [] {
      var c := calls[0];
      var next := Apply(owner, m, c);
      assert !Registers(owner, calls[1..], id) by {
        forall i | 0 <= i < |calls[1..]|
          ensures !(calls[1..][i].NewAgentCall? && calls[1..][i].agentID == id && calls[1..][i].sender == owner)
        {
          assert calls[1..][i] == calls[i + 1];
        }
      }
      assert !(c.NewAgentCall? && c.agentID == id && c.sender == owner) by {
        assert calls[0] == c;
      }
      AcceptedNumbersIncrease(owner, next, calls[1..], id);
      if id in m {
        assert id in next && next[id].lastReceived >= m[id].lastReceived;
      } else {
        assert id !in next;
      }
    }
  }
}
