/**
 * The chat page's conversation state and its transitions: the state cells
 * `messages`, `input` and `loading`, and the `sendMessage` calls that are
 * suspended at the provider call.
 *
 * `sendMessage` is split at its `await`: `Begin` is the part that runs at
 * once, `Complete` the part that runs when the provider has answered,
 * including the `finally`. `sendMessage` itself never looks at `loading`;
 * overlapping sends are prevented only because the input and the button are
 * disabled while `loading` is true, which the user events below require.
 */
module Session {
  import opened Text
  import opened Gateway

  /** The shape the transcript keeps: no system turns, and every assistant
      turn follows two copies of the user turn it answers, the one appended
      at once and the one appended again with the reply. */
  ghost predicate Transcript(messages: seq<Message>)
  {
    forall i :: 0 <= i < |messages| ==> TurnFits(messages, i)
  }

  /** The `i`-th turn is not a system turn, and if it is an assistant turn
      it follows two copies of one user turn. */
  ghost predicate TurnFits(messages: seq<Message>, i: nat)
    requires i < |messages|
  {
    messages[i].role != System &&
    (messages[i].role == Assistant ==>
      2 <= i && messages[i - 1].role == User && messages[i - 2] == messages[i - 1])
  }

  /** A nonempty transcript never starts with an assistant turn. */
  lemma FirstTurnIsUser(messages: seq<Message>)
    requires Transcript(messages) && messages != []
    ensures messages[0].role == User
  {
    assert TurnFits(messages, 0);
  }

  /** A turn of a transcript keeps its place when more turns follow. */
  lemma TurnFitsPrefix(messages: seq<Message>, more: seq<Message>, i: nat)
    requires i < |messages| && TurnFits(messages, i)
    ensures TurnFits(messages + more, i)
  {
    var m := messages + more;
    assert m[i] == messages[i];
    if messages[i].role == Assistant {
      assert m[i - 1] == messages[i - 1] && m[i - 2] == messages[i - 2];
    }
  }

  /** Appending a user turn keeps the shape. */
  lemma TranscriptAppendUser(messages: seq<Message>, u: Message)
    requires Transcript(messages) && u.role == User
    ensures Transcript(messages + [u])
  {
    var m := messages + [u];
    forall i | 0 <= i < |m|
      ensures TurnFits(m, i)
    {
      if i < |messages| {
        TurnFitsPrefix(messages, [u], i);
      }
    }
  }

  /** Appending the user turn again and then the reply keeps the shape when
      the transcript ends with that user turn. */
  lemma TranscriptAppendExchange(messages: seq<Message>, u: Message, reply: string)
    requires Transcript(messages) && u.role == User
    requires messages != [] && messages[|messages| - 1] == u
    ensures Transcript(messages + [u, Message(Assistant, reply)])
  {
    var m := messages + [u, Message(Assistant, reply)];
    var n := |messages|;
    forall i | 0 <= i < |m|
      ensures TurnFits(m, i)
    {
      if i < n {
        TurnFitsPrefix(messages, [u, Message(Assistant, reply)], i);
      } else if i == n + 1 {
        assert m[n] == u && m[n - 1] == messages[n - 1];
      }
    }
  }

  /** The transcripts a query leaves have the shape. */
  lemma TranscriptOfQuery(u: Message)
    requires u.role == User
    ensures Transcript([u]) && Transcript([u, u])
  {
    assert TurnFits([u], 0);
    assert TurnFits([u, u], 0) && TurnFits([u, u], 1);
  }

  class ChatSession {
    /** The transcript, oldest turn first. */
    var messages: seq<Message>
    /** The draft in the text input. */
    var input: string
    /** True while the busy indicator shows and the input is disabled. */
    var loading: bool
    /** The user turns of the `sendMessage` calls waiting for the provider,
        oldest first: each will be appended again with its reply. */
    var inFlight: seq<Message>

    /** At most one send is outstanding, exactly while `loading` is true, and
        its user turn is the last turn of the transcript. */
    ghost predicate Valid()
      reads this
    {
      (if loading then |inFlight| == 1 && messages != [] && messages[|messages| - 1] == inFlight[0] && inFlight[0].role == User
       else inFlight == []) &&
      Transcript(messages)
    }

    /** The three `useState` cells on mount. */
    constructor ()
      ensures Valid()
      ensures messages == [] && input == "" && !loading && inFlight == []
    {
      messages := [];
      input := "";
      loading := false;
      inFlight := [];
    }

    /** The synchronous part of `sendMessage(text)`. Text that is empty or
        whitespace only changes nothing and sends nothing. Otherwise the user
        turn, with the text as typed, is appended, the draft is cleared,
        `loading` is set, and the prompt built from the transcript as it was
        before is what goes to the provider. */
    method Begin(text: string) returns (request: Option<seq<Message>>)
      modifies this
      ensures Trim(text) == "" ==>
        request == None && messages == old(messages) && input == old(input) &&
        loading == old(loading) && inFlight == old(inFlight)
      ensures Trim(text) != "" ==>
        messages == old(messages) + [Message(User, text)] && input == "" && loading &&
        inFlight == old(inFlight) + [Message(User, text)] &&
        request == Some(Prompt(old(messages), Message(User, text)))
      ensures old(Valid() && !loading) ==> Valid()
    {
      if Trim(text) == "" {
        return None;
      }
      var newMessage := Message(User, text);
      request := Some(Prompt(messages, newMessage));
      messages := messages + [newMessage];
      input := "";
      loading := true;
      inFlight := inFlight + [newMessage];
      if old(Valid() && !loading) {
        TranscriptAppendUser(old(messages), newMessage);
      }
    }

    /** The part of the `k`-th waiting `sendMessage` call after the provider
        answered `reply`: its user turn is appended again, followed by the
        assistant turn, and the `finally` clears `loading`, even if another
        call is still waiting. */
    method Complete(k: nat, reply: string)
      requires k < |inFlight|
      modifies this
      ensures messages == old(messages) + [old(inFlight[k]), Message(Assistant, reply)]
      ensures inFlight == old(inFlight[..k] + inFlight[k + 1..])
      ensures !loading && input == old(input)
      ensures old(Valid()) ==> Valid()
    {
      var newMessage := inFlight[k];
      messages := messages + [newMessage, Message(Assistant, reply)];
      inFlight := inFlight[..k] + inFlight[k + 1..];
      loading := false;
      if old(Valid()) {
        TranscriptAppendExchange(old(messages), newMessage, reply);
      }
    }

    /** One whole `sendMessage(text)` whose provider call ends in `outcome`,
        with nothing in between: blank text changes nothing; otherwise the
        transcript grows by the user turn twice and the reply, the draft is
        cleared, and `loading` ends false whatever the outcome. */
    method SendMessage(text: string, outcome: ProviderOutcome) returns (request: Option<seq<Message>>)
      modifies this
      ensures Trim(text) == "" ==>
        request == None && messages == old(messages) && input == old(input) &&
        loading == old(loading) && inFlight == old(inFlight)
      ensures Trim(text) != "" ==>
        messages == old(messages) + [Message(User, text), Message(User, text), Message(Assistant, Reply(outcome))] &&
        input == "" && !loading && inFlight == old(inFlight) &&
        request == Some(Prompt(old(messages), Message(User, text)))
      ensures old(Valid() && !loading) ==> Valid()
    {
      request := Begin(text);
      if request.Some? {
        Complete(|inFlight| - 1, Reply(outcome));
      }
    }

    /** `onChange` of the text input, which is disabled while loading. */
    method Type(text: string)
      requires !loading
      modifies this
      ensures input == text && messages == old(messages) && !loading && inFlight == old(inFlight)
      ensures old(Valid()) ==> Valid()
    {
      input := text;
    }

    /** `handleKeyPress`: only the Enter key sends the draft. */
    method PressKey(key: string) returns (request: Option<seq<Message>>)
      requires !loading
      modifies this
      ensures key != "Enter" ==>
        request == None && messages == old(messages) && input == old(input) && !loading && inFlight == old(inFlight)
      ensures key == "Enter" && Trim(old(input)) == "" ==>
        request == None && messages == old(messages) && input == old(input) && !loading && inFlight == old(inFlight)
      ensures key == "Enter" && Trim(old(input)) != "" ==>
        messages == old(messages) + [Message(User, old(input))] && input == "" && loading &&
        inFlight == old(inFlight) + [Message(User, old(input))] &&
        request == Some(Prompt(old(messages), Message(User, old(input))))
      ensures old(Valid()) ==> Valid()
    {
      request := None;
      if key == "Enter" {
        request := Begin(input);
      }
    }

    /** The Send button's `onClick`: sends the draft. */
    method Click() returns (request: Option<seq<Message>>)
      requires !loading
      modifies this
      ensures Trim(old(input)) == "" ==>
        request == None && messages == old(messages) && input == old(input) && !loading && inFlight == old(inFlight)
      ensures Trim(old(input)) != "" ==>
        messages == old(messages) + [Message(User, old(input))] && input == "" && loading &&
        inFlight == old(inFlight) + [Message(User, old(input))] &&
        request == Some(Prompt(old(messages), Message(User, old(input))))
      ensures old(Valid()) ==> Valid()
    {
      request := Begin(input);
    }

    /** The effect that runs for a `messagefromquery` parameter, given
        decoded: a nonempty query replaces the transcript with its user turn
        and then calls `sendMessage`, whose append adds the turn a second
        time. The prompt is built from the transcript the effect's render
        captured, not from the replaced one. A whitespace-only query leaves
        the single turn and sends nothing; an absent or empty one does
        nothing. */
    method LoadQuery(search: Option<string>) returns (request: Option<seq<Message>>)
      modifies this
      ensures search == None || search == Some("") ==>
        request == None && messages == old(messages) && input == old(input) &&
        loading == old(loading) && inFlight == old(inFlight)
      ensures search.Some? && search.value != "" && Trim(search.value) == "" ==>
        request == None && messages == [Message(User, search.value)] && input == old(input) &&
        loading == old(loading) && inFlight == old(inFlight)
      ensures search.Some? && Trim(search.value) != "" ==>
        messages == [Message(User, search.value), Message(User, search.value)] && input == "" && loading &&
        inFlight == old(inFlight) + [Message(User, search.value)] &&
        request == Some(Prompt(old(messages), Message(User, search.value)))
      ensures old(Valid() && !loading) ==> Valid()
    {
      request := None;
      if search.Some? && search.value != "" {
        var captured := messages;
        var decoded := search.value;
        TranscriptOfQuery(Message(User, decoded));
        messages := [Message(User, decoded)];
        if Trim(decoded) != "" {
          var newMessage := Message(User, decoded);
          request := Some(Prompt(captured, newMessage));
          messages := messages + [newMessage];
          input := "";
          loading := true;
          inFlight := inFlight + [newMessage];
        }
      }
    }
  }

  /** The prompt for the first turn of an empty transcript. */
  lemma FirstPrompt(u: Message)
    requires u.role == User
    ensures Prompt([], u) == [Message(System, SystemInstruction), u]
  {
    var p := Prompt([], u);
    assert |p| == 2 && p[0] == Message(System, SystemInstruction) && p[1].content == u.content && p[1].role == User;
  }

  /** The page opened with a query, whose send completes with `outcome`:
      the transcript ends as the query turn three times and then the reply,
      and the provider saw only the system instruction and the query. */
  method OpenWithQuery(search: string, outcome: ProviderOutcome) returns (session: ChatSession, request: Option<seq<Message>>)
    requires Trim(search) != ""
    ensures fresh(session) && session.Valid()
    ensures session.messages == [Message(User, search), Message(User, search), Message(User, search), Message(Assistant, Reply(outcome))]
    ensures !session.loading && session.input == ""
    ensures request == Some([Message(System, SystemInstruction), Message(User, search)])
  {
    TrimCases("");
    assert search != "";
    FirstPrompt(Message(User, search));
    session := new ChatSession();
    request := session.LoadQuery(Some(search));
    session.Complete(0, Reply(outcome));
  }
}
