/** The data of the agent message boxes (zkapp-3 `messages.ts`, repeated unchanged in
    zkapp-4 `message.ts`): security codes, messages, the details an agent sends and the
    details the chain stores per agent. An o1js `Character` is modelled by the character it
    encodes. */
module AgentTypes {
  import opened Fields
  import opened Results

  const MAX_MESSAGE_LENGTH: nat := 12
  const SECURITY_CODE_LENGTH: nat := 2
  /** The message a freshly registered agent holds: twelve '0' characters. */
  const DEFAULT_MESSAGE: string := "000000000000"

  type AgentID = Field

  /** The `ERRORS` a failed runtime method reports as its status message. */
  datatype Error =
    | AgentDoesNotExist          // "Agent does not exist"
    | MessageNumberNotGreater    // "Message number is not greater than last message number"
    | SecurityCodeMismatch       // "Security Code does not match"
    | InvalidLengthMessage       // "Message length exceeded"
    | InvalidLengthSecurityCode  // "Security code length exceeded"
    | PermissionDenied           // "Sender is not the owner"

  datatype SecurityCode = SecurityCode(code: string)

  datatype Message = Message(message: string)

  /** What an agent sends with `addMessage`. */
  datatype MessageDetails = MessageDetails(agentID: AgentID, message: Message, securityCode: SecurityCode)

  /** What `mapAgent` stores per agent. */
  datatype AgentDetails = AgentDetails(lastReceived: Field, message: Message, securityCode: SecurityCode)

  /** `code.areEquals(x)`: compares the first two characters; both codes must have them. */
  predicate AreEquals(code: SecurityCode, x: SecurityCode)
    requires |code.code| >= SECURITY_CODE_LENGTH && |x.code| >= SECURITY_CODE_LENGTH
  {
    code.code[0] == x.code[0] && code.code[1] == x.code[1]
  }

  /** On codes of the valid length, `areEquals` is equality of codes, in both directions. */
  lemma {:induction false} AreEqualsIff(code: SecurityCode, x: SecurityCode)
    requires |code.code| == SECURITY_CODE_LENGTH && |x.code| == SECURITY_CODE_LENGTH
    ensures AreEquals(code, x) <==> code == x
  {
    if AreEquals(code, x) {
      assert code.code == [code.code[0], code.code[1]];
      assert x.code == [x.code[0], x.code[1]];
    }
  }

  /** `code.isValidLength()`: the assertion that a code has exactly two characters. */
  function IsValidLength(code: SecurityCode): (r: Outcome<Error>)
    ensures r == Pass <==> |code.code| == SECURITY_CODE_LENGTH
    ensures r.Fail? ==> r.error == InvalidLengthSecurityCode
  {
    if |code.code| == SECURITY_CODE_LENGTH then Pass else Fail(InvalidLengthSecurityCode)
  }

  /** `Message.fromString(s)`: at most twelve characters, kept exactly. */
  function FromString(s: string): (r: Result<Message, Error>)
    ensures r.Ok? <==> |s| <= MAX_MESSAGE_LENGTH
    ensures r.Ok? ==> r.value.message == s
    ensures r.Err? ==> r.error == InvalidLengthMessage
  {
    if |s| <= MAX_MESSAGE_LENGTH then Ok(Message(s)) else Err(InvalidLengthMessage)
  }

  /** `message.calculateLength()`: the number of characters, as a field element. */
  function CalculateLength(m: Message): (r: Field)
    ensures |m.message| < MODULUS ==> r == |m.message|
  {
    |m.message| % MODULUS
  }

  /** Every registered agent's code has the valid length: `newAgent` admits no other. */
  ghost predicate CodesValid(m: map<AgentID, AgentDetails>) {
    forall id :: id in m ==> |m[id].securityCode.code| == SECURITY_CODE_LENGTH
  }

  /** The details of an agent just registered with `code`. */
  function FreshAgent(code: SecurityCode): (r: AgentDetails)
    ensures r.lastReceived == 0 && r.message.message == DEFAULT_MESSAGE && r.securityCode == code
  {
    AgentDetails(0, Message(DEFAULT_MESSAGE), code)
  }
}
