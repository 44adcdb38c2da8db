/** What one run of each chat-page handler does to the page's state, as a
    function of the state before it and of the answer the chat endpoint
    gives. Each handler runs to completion before the next one starts. */
module ChatHandlers {
  import opened Messages
  import opened JsString

  /** The page's three pieces of state. */
  datatype View = View(messages: seq<Message>, input: string, loading: bool)

  /** How the POST to the chat endpoint turns out: a response whose JSON
      carries `content`, or any failure (network error, non-2xx status,
      unreadable JSON). */
  datatype Outcome = Success(content: string) | Failure

  /** The user-visible notifications (toasts) the handlers raise. */
  datatype Notice = SendFailed | RegenerateFailed | RatingSubmitted(rating: Rating)

  /** The state after a handler, the message list it POSTed (if any) and the
      toast it raised (if any). */
  datatype Step = Step(after: View, request: Option<seq<Message>>, notice: Option<Notice>)

  /** The initial page state. */
  const Initial := View([], "", false)

  /** `handleSend` */
  function Send(v: View, outcome: Outcome): Step {
    if Trim(v.input) == [] then
      Step(v, None, None)
    else
      var userMessage := Unrated(User, v.input);
      var withUser := Append(v.messages, userMessage);
      var request := Some(v.messages + [userMessage]);
      match outcome
      case Success(content) =>
        Step(View(Append(withUser, Unrated(Assistant, content)), "", false), request, None)
      case Failure =>
        Step(View(withUser, "", false), request, Some(SendFailed))
  }

  /** `handleRegenerate` */
  function Regenerate(v: View, outcome: Outcome): Step {
    if |v.messages| == 0 then
      Step(v, None, None)
    else
      var request := Some(DropLast(v.messages));
      match outcome
      case Success(content) =>
        Step(v.(messages := ReplaceLast(v.messages, Unrated(Assistant, content)), loading := false), request, None)
      case Failure =>
        Step(v.(loading := false), request, Some(RegenerateFailed))
  }

  /** `handleRate` */
  function Rate(v: View, rating: Rating): Step {
    if |v.messages| == 0 then
      Step(v, None, None)
    else
      Step(v.(messages := RateLast(v.messages, rating)), None, Some(RatingSubmitted(rating)))
  }

  // ---------------------------------------------------------------- Send

  /** Input that is blank after trimming changes nothing and sends nothing. */
  lemma SendBlankIsNoOp(v: View, outcome: Outcome)
    requires Blank(v.input)
    ensures Send(v, outcome) == Step(v, None, None)
  {
    TrimEmptyIffBlank(v.input);
  }

  /** Any other input is sent: the request is the list as it stood plus one
      user message holding the input exactly as typed (untrimmed), the input
      box is cleared, and the list keeps its old messages followed by that
      user message. */
  lemma SendPostsHistoryAndInput(v: View, outcome: Outcome)
    requires !Blank(v.input)
    ensures Send(v, outcome).request == Some(v.messages + [Message(User, v.input, None)])
    ensures Send(v, outcome).after.input == ""
    ensures |Send(v, outcome).after.messages| > |v.messages|
    ensures Send(v, outcome).after.messages[..|v.messages| + 1] == v.messages + [Message(User, v.input, None)]
  {
    TrimEmptyIffBlank(v.input);
  }

  /** A successful send leaves the old list plus the user message and one
      assistant reply carrying the response content, and raises no toast. */
  lemma SendSuccess(v: View, content: string)
    requires !Blank(v.input)
    ensures Send(v, Success(content)).after.messages ==
      v.messages + [Message(User, v.input, None), Message(Assistant, content, None)]
    ensures Send(v, Success(content)).notice == None
  {
    TrimEmptyIffBlank(v.input);
  }

  /** A failed send keeps the user message, appends no reply and raises one
      error toast. */
  lemma SendFailure(v: View)
    requires !Blank(v.input)
    ensures Send(v, Failure).after.messages == v.messages + [Message(User, v.input, None)]
    ensures Send(v, Failure).notice == Some(SendFailed)
  {
    TrimEmptyIffBlank(v.input);
  }

  /** After a send the page is idle unless the send was ignored, in which
      case the flag is as it was. */
  lemma SendClearsLoading(v: View, outcome: Outcome)
    ensures Send(v, outcome).after.loading == (v.loading && Blank(v.input))
    ensures Send(v, outcome).request.Some? == !Blank(v.input)
  {
    TrimEmptyIffBlank(v.input);
  }

  // ---------------------------------------------------------- Regenerate

  /** Regenerating with no messages does nothing at all. */
  lemma RegenerateEmptyIsNoOp(v: View, outcome: Outcome)
    requires v.messages == []
    ensures Regenerate(v, outcome) == Step(v, None, None)
  {
  }

  /** Otherwise it sends exactly the first n-1 of the n messages and leaves
      the input alone. */
  lemma RegeneratePostsAllButLast(v: View, outcome: Outcome)
    requires |v.messages| > 0
    ensures Regenerate(v, outcome).request == Some(v.messages[..|v.messages| - 1])
    ensures Regenerate(v, outcome).after.input == v.input
  {
  }

  /** A successful regenerate keeps the length and the first n-1 messages and
      makes the last one an unrated assistant message with the new content,
      whatever it was before (a user message included). */
  lemma RegenerateSuccess(v: View, content: string)
    requires |v.messages| > 0
    ensures var m := Regenerate(v, Success(content)).after.messages;
      && |m| == |v.messages|
      && m[..|m| - 1] == v.messages[..|v.messages| - 1]
      && m[|m| - 1] == Message(Assistant, content, None)
    ensures Regenerate(v, Success(content)).notice == None
  {
  }

  /** A failed regenerate keeps the list as it was and raises one toast. */
  lemma RegenerateFailure(v: View)
    requires |v.messages| > 0
    ensures Regenerate(v, Failure).after.messages == v.messages
    ensures Regenerate(v, Failure).notice == Some(RegenerateFailed)
  {
  }

  /** After a regenerate the page is idle unless there was nothing to
      regenerate, in which case the flag is as it was. */
  lemma RegenerateClearsLoading(v: View, outcome: Outcome)
    ensures Regenerate(v, outcome).after.loading == (v.loading && v.messages == [])
    ensures Regenerate(v, outcome).request.Some? == (v.messages != [])
  {
  }

  // ---------------------------------------------------------------- Rate

  /** Rating an empty list does nothing at all, not even a toast. */
  lemma RateEmptyIsNoOp(v: View, rating: Rating)
    requires v.messages == []
    ensures Rate(v, rating) == Step(v, None, None)
  {
  }

  /** Rating a non-empty list raises exactly one toast and touches only the
      last message's rating, and that only if the last message is an
      assistant reply; input and loading stay as they were. */
  lemma RateTouchesOnlyLastRating(v: View, rating: Rating)
    requires |v.messages| > 0
    ensures var m := Rate(v, rating).after.messages;
      && |m| == |v.messages|
      && (forall i :: 0 <= i < |m| - 1 ==> m[i] == v.messages[i])
      && (forall i :: 0 <= i < |m| ==> m[i].role == v.messages[i].role && m[i].content == v.messages[i].content)
      && m[|m| - 1].rating ==
         (if v.messages[|m| - 1].role == Assistant then Some(rating) else v.messages[|m| - 1].rating)
    ensures v.messages[|v.messages| - 1].role == User ==> Rate(v, rating).after == v
    ensures Rate(v, rating).after.input == v.input && Rate(v, rating).after.loading == v.loading
    ensures Rate(v, rating).notice == Some(RatingSubmitted(rating)) && Rate(v, rating).request == None
  {
  }

  /** A later rating overrides an earlier one. */
  lemma RateTwice(v: View, first: Rating, second: Rating)
    ensures Rate(Rate(v, first).after, second).after == Rate(v, second).after
  {
    if |v.messages| > 0 {
      RateLastTwice(v.messages, first, second);
    }
  }

  // --------------------------------------------------------- Interactions

  /** Regenerating right after a successful send asks again for exactly the
      history the send posted. */
  lemma RegenerateAfterSendRepeatsRequest(v: View, content: string, outcome: Outcome)
    requires !Blank(v.input)
    ensures Regenerate(Send(v, Success(content)).after, outcome).request == Send(v, Success(content)).request
  {
    SendSuccess(v, content);
    var userMessage := Message(User, v.input, None);
    DropLastAppend(v.messages + [userMessage], Message(Assistant, content, None));
  }

  /** Regenerating right after a successful send replaces only the reply:
      the list is the old list, the user message and the new reply. */
  lemma RegenerateAfterSendReplacesReply(v: View, first: string, second: string)
    requires !Blank(v.input)
    ensures Regenerate(Send(v, Success(first)).after, Success(second)).after.messages ==
      v.messages + [Message(User, v.input, None), Message(Assistant, second, None)]
  {
    SendSuccess(v, first);
    var userMessage := Message(User, v.input, None);
    ReplaceLastAppend(v.messages + [userMessage], Message(Assistant, first, None), Message(Assistant, second, None));
  }

  /** Regenerating right after a failed send drops the unanswered user
      message from the request and then overwrites that user message with
      the reply: the typed message is lost from the list. */
  lemma RegenerateAfterFailedSendOverwritesUserMessage(v: View, content: string)
    requires !Blank(v.input)
    ensures Regenerate(Send(v, Failure).after, Success(content)).request == Some(v.messages)
    ensures Regenerate(Send(v, Failure).after, Success(content)).after.messages ==
      v.messages + [Message(Assistant, content, None)]
  {
    SendFailure(v);
    var userMessage := Message(User, v.input, None);
    DropLastAppend(v.messages, userMessage);
    ReplaceLastAppend(v.messages, userMessage, Message(Assistant, content, None));
  }

  /** From the initial state, sending "hi" and getting "hello" back, then
      regenerating, posts `[user: hi]` and keeps a two-message list. */
  lemma RegenerateScenario(reply: string)
    ensures var sent := Send(Initial.(input := "hi"), Success("hello")).after;
      && sent.messages == [Message(User, "hi", None), Message(Assistant, "hello", None)]
      && Regenerate(sent, Success(reply)).request == Some([Message(User, "hi", None)])
      && Regenerate(sent, Success(reply)).after.messages == [Message(User, "hi", None), Message(Assistant, reply, None)]
  {
    assert "hi"[0] == 'h' && !IsWhiteSpace('h');
    SendSuccess(Initial.(input := "hi"), "hello");
    RegenerateAfterSendReplacesReply(Initial.(input := "hi"), "hello", reply);
    RegenerateAfterSendRepeatsRequest(Initial.(input := "hi"), "hello", Success(reply));
  }

  /** Every handler keeps an idle page idle: `loading` is only true while a
      request is in flight. */
  lemma HandlersKeepIdle(v: View, outcome: Outcome, rating: Rating)
    requires !v.loading
    ensures !Send(v, outcome).after.loading
    ensures !Regenerate(v, outcome).after.loading
    ensures !Rate(v, rating).after.loading
  {
    SendClearsLoading(v, outcome);
  }

  // ------------------------------------------------------------ Sessions

  /** A user action on the page, with the endpoint's answer where the action
      makes a request. */
  datatype Event =
    | Typed(text: string)
    | SendClicked(outcome: Outcome)
    | RegenerateClicked(outcome: Outcome)
    | RateClicked(rating: Rating)

  /** One event, handled to completion. Typing only replaces the input. */
  function Apply(v: View, e: Event): Step {
    match e
    case Typed(text) => Step(v.(input := text), None, None)
    case SendClicked(outcome) => Send(v, outcome)
    case RegenerateClicked(outcome) => Regenerate(v, outcome)
    case RateClicked(rating) => Rate(v, rating)
  }

  /** The page after a sequence of events, handled one after the other. */
  function Run(v: View, events: seq<Event>): View
    decreases |events|
  {
    if events == [] then v else Run(Apply(v, events[0]).after, events[1..])
  }

  /** Every toast a sequence of events raises, oldest first. */
  function Toasts(v: View, events: seq<Event>): seq<Notice>
    decreases |events|
  {
    if events == [] then []
    else
      var step := Apply(v, events[0]);
      (if step.notice.Some? then [step.notice.value] else []) + Toasts(step.after, events[1..])
  }

  /** No rating sits on a user message. */
  predicate RatingsOnAssistant(s: seq<Message>) {
    forall i :: 0 <= i < |s| && s[i].rating.Some? ==> s[i].role == Assistant
  }

  /** One event never shortens the list and keeps every message but the
      last. */
  lemma ApplyKeepsAllButLast(v: View, e: Event)
    ensures |Apply(v, e).after.messages| >= |v.messages|
    ensures forall i :: 0 <= i < |v.messages| - 1 ==> Apply(v, e).after.messages[i] == v.messages[i]
  {
    match e
    case SendClicked(outcome) =>
      if !Blank(v.input) {
        SendPostsHistoryAndInput(v, outcome);
        assert Send(v, outcome).after.messages[..|v.messages| + 1][..|v.messages|] == v.messages;
      }
      TrimEmptyIffBlank(v.input);
    case _ =>
  }

  /** The conversation only grows, and no message is ever removed or changed
      except the last one of the moment (regenerate replaces it, rating
      rates it): every message but the last survives any session. */
  lemma {:induction false} RunKeepsAllButLast(v: View, events: seq<Event>)
    ensures |Run(v, events).messages| >= |v.messages|
    ensures forall i :: 0 <= i < |v.messages| - 1 ==> Run(v, events).messages[i] == v.messages[i]
    decreases |events|
  {
    if events != [] {
      var w := Apply(v, events[0]).after;
      ApplyKeepsAllButLast(v, events[0]);
      RunKeepsAllButLast(w, events[1..]);
    }
  }

  /** Appending an unrated message or an assistant message keeps ratings on
      assistant messages only. */
  lemma AppendKeepsRatingsOnAssistant(s: seq<Message>, m: Message)
    requires RatingsOnAssistant(s)
    requires m.rating.Some? ==> m.role == Assistant
    ensures RatingsOnAssistant(s + [m])
  {
    assert forall i :: 0 <= i < |s| ==> (s + [m])[i] == s[i];
  }

  /** One event keeps ratings on assistant messages only. */
  lemma ApplyKeepsRatingsOnAssistant(v: View, e: Event)
    requires RatingsOnAssistant(v.messages)
    ensures RatingsOnAssistant(Apply(v, e).after.messages)
  {
    match e {
      case SendClicked(outcome) =>
        if !Blank(v.input) {
          var userMessage := Message(User, v.input, None);
          AppendKeepsRatingsOnAssistant(v.messages, userMessage);
          match outcome {
            case Success(content) =>
              SendSuccess(v, content);
              AppendKeepsRatingsOnAssistant(v.messages + [userMessage], Message(Assistant, content, None));
              assert v.messages + [userMessage, Message(Assistant, content, None)]
                  == v.messages + [userMessage] + [Message(Assistant, content, None)];
            case Failure =>
              SendFailure(v);
          }
        } else {
          SendBlankIsNoOp(v, outcome);
        }
      case RegenerateClicked(outcome) =>
        if v.messages != [] && outcome.Success? {
          var reply := Unrated(Assistant, outcome.content);
          AppendKeepsRatingsOnAssistant(DropLast(v.messages), reply);
        }
      case RateClicked(rating) =>
        if v.messages != [] {
          var r := RateLast(v.messages, rating);
          assert forall i :: 0 <= i < |r| && r[i].rating.Some? ==> r[i].role == Assistant by {
            forall i | 0 <= i < |r| && r[i].rating.Some? ensures r[i].role == Assistant {
              if i < |r| - 1 {
                assert r[i] == v.messages[i];
              }
            }
          }
        }
      case Typed(_) =>
    }
  }

  /** Starting without ratings on user messages, no session ever puts one
      there: only assistant replies are rated. */
  lemma {:induction false} RunKeepsRatingsOnAssistant(v: View, events: seq<Event>)
    requires RatingsOnAssistant(v.messages)
    ensures RatingsOnAssistant(Run(v, events).messages)
    decreases |events|
  {
    if events != [] {
      ApplyKeepsRatingsOnAssistant(v, events[0]);
      RunKeepsRatingsOnAssistant(Apply(v, events[0]).after, events[1..]);
    }
  }

  /** Starting idle, the page is idle after every session: each request's
      busy period ends inside its own handler. */
  lemma {:induction false} RunKeepsIdle(v: View, events: seq<Event>)
    requires !v.loading
    ensures !Run(v, events).loading
    decreases |events|
  {
    if events != [] {
      var e := events[0];
      match e {
        case SendClicked(outcome) => SendClearsLoading(v, outcome);
        case RegenerateClicked(outcome) => RegenerateClearsLoading(v, outcome);
        case _ =>
      }
      RunKeepsIdle(Apply(v, e).after, events[1..]);
    }
  }

  /** A session of rating clicks alone never changes anything but the last
      message's rating, and raises one toast per click exactly when there is
      a message to rate. */
  lemma {:induction false} RatingsOnlyTouchLast(v: View, ratings: seq<Rating>, events: seq<Event>)
    requires |events| == |ratings|
    requires forall k :: 0 <= k < |events| ==> events[k] == RateClicked(ratings[k])
    ensures |Run(v, events).messages| == |v.messages|
    ensures Run(v, events).input == v.input && Run(v, events).loading == v.loading
    ensures forall i :: 0 <= i < |v.messages| ==>
      Run(v, events).messages[i].role == v.messages[i].role &&
      Run(v, events).messages[i].content == v.messages[i].content
    ensures forall i :: 0 <= i < |v.messages| - 1 ==> Run(v, events).messages[i] == v.messages[i]
    ensures |Toasts(v, events)| == (if v.messages == [] then 0 else |events|)
    decreases |events|
  {
    if events != [] {
      var w := Apply(v, events[0]).after;
      RatingsOnlyTouchLast(w, ratings[1..], events[1..]);
    }
  }
}
