/** The chat page's component state and its three event handlers, updated
    step by step as the page's state setters do. */
module ChatPage {
  import opened Messages
  import opened JsString
  import opened ChatHandlers

  class ChatStore {
    var messages: seq<Message>
    var input: string
    var loading: bool
    /** Every toast raised so far, oldest first. */
    ghost var toasts: seq<Notice>

    /** The page's state as a value. */
    function State(): View
      reads this
    {
      View(messages, input, loading)
    }

    /** Page load: an empty conversation, an empty input box, not loading. */
    constructor ()
      ensures State() == Initial && toasts == []
    {
      messages, input, loading := [], "", false;
      toasts := [];
    }

    /** The text area's change handler. */
    method SetInput(text: string)
      modifies this
      ensures State() == old(State()).(input := text) && toasts == old(toasts)
    {
      input := text;
    }

    /** `handleSend`: `outcome` is the chat endpoint's answer to the POST it
        makes, and `request` the message list it posts. */
    method HandleSend(outcome: Outcome) returns (request: Option<seq<Message>>)
      modifies this
      ensures var step := Send(old(State()), outcome);
        && State() == step.after
        && request == step.request
        && toasts == old(toasts) + (if step.notice.Some? then [step.notice.value] else [])
      ensures Blank(old(input)) ==> State() == old(State()) && request == None && toasts == old(toasts)
      ensures !Blank(old(input)) ==>
        && request == Some(old(messages) + [Message(User, old(input), None)])
        && input == "" && !loading
        && messages == (if outcome.Success? then request.value + [Message(Assistant, outcome.content, None)]
                        else request.value)
        && toasts == old(toasts) + (if outcome.Success? then [] else [SendFailed])
    {
      ghost var before := State();
      TrimEmptyIffBlank(input);
      if Trim(input) == [] {
        SendBlankIsNoOp(before, outcome);
        return None;
      }
      SendPostsHistoryAndInput(before, outcome);
      var captured := messages;
      var userMessage := Unrated(User, input);
      messages := Append(messages, userMessage);
      input := "";
      loading := true;
      request := Some(captured + [userMessage]);
      match outcome {
        case Success(content) =>
          messages := Append(messages, Unrated(Assistant, content));
          SendSuccess(before, content);
        case Failure =>
          toasts := toasts + [SendFailed];
          SendFailure(before);
      }
      loading := false;
    }

    /** `handleRegenerate`: posts every message but the last and, on success,
        puts the reply in the last message's place. */
    method HandleRegenerate(outcome: Outcome) returns (request: Option<seq<Message>>)
      modifies this
      ensures var step := Regenerate(old(State()), outcome);
        && State() == step.after
        && request == step.request
        && toasts == old(toasts) + (if step.notice.Some? then [step.notice.value] else [])
      ensures old(messages) == [] ==> State() == old(State()) && request == None && toasts == old(toasts)
      ensures old(messages) != [] ==>
        && request == Some(old(messages)[..|old(messages)| - 1])
        && input == old(input) && !loading
        && |messages| == |old(messages)|
        && messages[..|messages| - 1] == request.value
        && messages[|messages| - 1] ==
           (if outcome.Success? then Message(Assistant, outcome.content, None) else old(messages)[|messages| - 1])
        && toasts == old(toasts) + (if outcome.Success? then [] else [RegenerateFailed])
    {
      if |messages| > 0 {
        loading := true;
        request := Some(DropLast(messages));
        match outcome {
          case Success(content) =>
            messages := ReplaceLast(messages, Unrated(Assistant, content));
          case Failure =>
            toasts := toasts + [RegenerateFailed];
        }
        loading := false;
      } else {
        request := None;
      }
    }

    /** `handleRate`: rates the last message if it is an assistant reply and
        acknowledges with a toast whenever there is a message at all. */
    method HandleRate(rating: Rating)
      modifies this
      ensures var step := Rate(old(State()), rating);
        && State() == step.after
        && toasts == old(toasts) + (if step.notice.Some? then [step.notice.value] else [])
      ensures input == old(input) && loading == old(loading) && |messages| == |old(messages)|
      ensures forall i :: 0 <= i < |messages| - 1 ==> messages[i] == old(messages)[i]
      ensures old(messages) != [] ==>
        && messages[|messages| - 1].role == old(messages)[|messages| - 1].role
        && messages[|messages| - 1].content == old(messages)[|messages| - 1].content
        && messages[|messages| - 1].rating ==
           (if old(messages)[|messages| - 1].role == Assistant then Some(rating)
            else old(messages)[|messages| - 1].rating)
        && toasts == old(toasts) + [RatingSubmitted(rating)]
      ensures old(messages) == [] ==> messages == [] && toasts == old(toasts)
    {
      if |messages| > 0 {
        messages := RateLast(messages, rating);
        toasts := toasts + [RatingSubmitted(rating)];
      }
    }
  }

  /** A session: type "hi", send it and get "hello", thumbs up, regenerate. */
  method Session(reply: string)
  {
    var store := new ChatStore();
    store.SetInput("hi");
    assert "hi"[0] == 'h' && !IsWhiteSpace('h');
    var sent := store.HandleSend(Success("hello"));
    assert sent == Some([Message(User, "hi", None)]);
    assert store.messages == [Message(User, "hi", None), Message(Assistant, "hello", None)];
    store.HandleRate(Up);
    assert store.messages[1].rating == Some(Up);
    var again := store.HandleRegenerate(Success(reply));
    assert again == sent;
    assert store.messages == [Message(User, "hi", None), Message(Assistant, reply, None)];
    assert !store.loading && store.input == "";
  }
}
