/**
 * The chat page's conversation turns, the outbound prompt `sendMessage`
 * builds for the completion provider, and `getGroqChatCompletion`'s
 * translation of the provider's outcome into reply text.
 */
module Gateway {

  datatype Option<T> = None | Some(value: T)

  /** The `role` of a turn. The transcript holds `User` and `Assistant`
      turns; `System` is the role of the fixed instruction. */
  datatype Role = User | Assistant | System

  datatype Message = Message(role: Role, content: string)

  const SystemInstruction: string :=
    "You are a helpful Medical Research Assistant. You should answer questions only related to medical research. You should not answer programming questions."

  /** What the gateway returns in place of a reply when the provider call fails. */
  const FallbackReply: string := "Sorry, I encountered an error. Please try again."

  /** The role a transcript turn is sent with: `user` stays `user`, every
      other role becomes `assistant`. */
  function WireRole(r: Role): (w: Role)
    ensures w == User <==> r == User
    ensures w != System
  {
    if r == User then User else Assistant
  }

  /** The `map` over the turns: each turn with its role mapped and its
      content untouched. */
  function MapRoles(turns: seq<Message>): (wire: seq<Message>)
    ensures |wire| == |turns|
    ensures forall i :: 0 <= i < |turns| ==> wire[i] == Message(WireRole(turns[i].role), turns[i].content)
  {
    if turns == [] then [] else [Message(WireRole(turns[0].role), turns[0].content)] + MapRoles(turns[1..])
  }

  /** The messages sent to the provider for a new user turn: the system
      instruction first, then the transcript the call captured and the new
      turn, in order, with their content as it is and their roles mapped. */
  function Prompt(history: seq<Message>, newMessage: Message): (p: seq<Message>)
    ensures |p| == |history| + 2
    ensures p[0] == Message(System, SystemInstruction)
    ensures forall i :: 0 <= i < |history| ==>
              p[i + 1].content == history[i].content && (p[i + 1].role == User <==> history[i].role == User)
    ensures p[|p| - 1].content == newMessage.content && (p[|p| - 1].role == User <==> newMessage.role == User)
    ensures forall i :: 1 <= i < |p| ==> p[i].role != System
  {
    var wire := MapRoles(history + [newMessage]);
    assert forall i :: 0 <= i < |history| ==> (history + [newMessage])[i] == history[i];
    [Message(System, SystemInstruction)] + wire
  }

  /** What the provider call comes back with: a response whose first
      choice's message content may be missing (no choice, no message, or a
      null content), or a failure of any kind (network, authentication,
      rate limit, malformed response). */
  datatype ProviderOutcome = Answered(content: Option<string>) | Failed

  /** The gateway never lets an error through: a failure becomes the fixed
      apology, and a response without content becomes the empty reply. */
  function Reply(outcome: ProviderOutcome): (r: string)
    ensures outcome.Failed? ==> r == FallbackReply
    ensures outcome == Answered(None) ==> r == ""
    ensures outcome.Answered? && outcome.content.Some? ==> r == outcome.content.value
  {
    match outcome
    case Failed => FallbackReply
    case Answered(None) => ""
    case Answered(Some(text)) => text
  }
}
