# Chat page conversation store

This project models the conversation store of the support-chat dashboard
page (`ChatPage` in `app/dashboard/chat/page.tsx`). The page keeps three
pieces of state:

- `messages`: the ordered conversation, each entry a role (`user` or
  `assistant`), a content string and an optional thumbs-up/down rating;
- `inputMessage`: the text box;
- `isLoading`: the busy flag that shows a placeholder while a reply is
  awaited.

Three handlers change it:

- `handleSend` ignores input that trims to nothing. Otherwise it appends a
  user message, clears the box, sets the flag and POSTs the history plus the
  new message. A reply is appended as an assistant message; a failure raises
  an error toast and leaves the user message in place. The flag is cleared
  in every case.
- `handleRegenerate` does nothing on an empty conversation. Otherwise it
  POSTs everything but the last message and, on success, puts the reply in
  the last message's place.
- `handleRate` rates the last message if it is an assistant reply, and
  raises a toast whenever the conversation is non-empty.

The model has four modules:

- `Messages` (`messages.dfy`) has the `Message` value (page.tsx:13-16) and
  the list updaters the handlers pass to `setMessages` as pure functions,
  with lemmas about them: `Append` is `[...prev, m]` (page.tsx:27, 49),
  `DropLast` is `prev.slice(0, -1)` (page.tsx:69), `ReplaceLast` is
  `[...prev.slice(0, -1), m]` (page.tsx:78) and `RateLast` is the rating
  updater (page.tsx:93-102).
- `JsString` (`js_string.dfy`) models `String.prototype.trim` as used at
  page.tsx:25: `JsString.Trim` is `TrimEnd` after `TrimStart`. It strips
  ECMA-262 WhiteSpace and LineTerminator characters from both ends, and a
  lemma proves that the trimmed string is empty exactly when every
  character is white space.
- `ChatHandlers` (`handlers.dfy`) states each handler's effect as a pure
  function: `ChatHandlers.Send` models page.tsx:24-60,
  `ChatHandlers.Regenerate` page.tsx:62-89 and `ChatHandlers.Rate`
  page.tsx:91-108. Each maps the state before the call and the endpoint's answer to
  three things: the state after, the message list posted (if any), and the
  toast raised (if any). The lemmas state the handlers' properties on those
  functions.
- `ChatPage` (`chat_store.dfy`) has the class `ChatStore`. Its fields are
  the page state plus a ghost log of toasts. Its methods update the fields
  step by step, as the handlers call their setters, and each method's
  postcondition ties the new state to the matching `ChatHandlers` function.
  `Session` is a client that replays a short conversation against those
  contracts.

`ChatHandlers` also folds the handlers over a sequence of user events
(`Run`). Lemmas proved by induction over such sequences state
the conversation's invariants: the list never shrinks, every message but
the last survives unchanged, ratings sit only on assistant messages, and an
idle page returns to idle.

The network call is a parameter, `Outcome = Success(content) | Failure`. It
is the chat endpoint's answer to the POST: `Failure` covers a fetch error, a
non-2xx status and an unreadable body alike. The handlers return the
message list they would POST. That list is the full `Message` values,
ratings included, because the page serialises the message objects as they
are.

Some of the code's behaviour departs from what the page's buttons suggest.
The model follows the code:

- A rating on an empty conversation raises no toast (page.tsx:92). The
  acknowledgment appears only when there is a message.
- The busy flag does not stop a second send. Only the Send button is
  disabled (page.tsx:176), while the Enter-key path calls `handleSend`
  unconditionally (page.tsx:168-170).
- A successful regenerate replaces the last message whatever its role.
  After a failed send the last message is the user's own, and the regenerate
  buttons under earlier replies are still shown. Regenerating then posts the
  history without that message and overwrites it with the reply
  (`RegenerateAfterFailedSendOverwritesUserMessage`).
- `Message` declares no `rating` field (page.tsx:13-16). The rating updater
  adds one by object spread (page.tsx:98), and the model gives every message
  an optional rating.

## Model

| member | source | states |
|---|---|---|
| `Messages.Append` | app/dashboard/chat/page.tsx:27 | `[...prev, m]` keeps every earlier message in place and puts `m` at the new end |
| `Messages.DropLast` | app/dashboard/chat/page.tsx:69 | `slice(0, -1)` of a non-empty list has length n-1 and holds the first n-1 elements in order; of an empty list, it is the empty list |
| `Messages.DropLastAppend` | app/dashboard/chat/page.tsx:27 | dropping the last element undoes an append |
| `Messages.AppendDropLast` | app/dashboard/chat/page.tsx:78 | a non-empty list is its drop-last followed by its last element |
| `Messages.ReplaceLast` | app/dashboard/chat/page.tsx:78 | `[...prev.slice(0, -1), m]` on a list of length n >= 1 keeps length n and the first n-1 elements and puts `m` last; on an empty list it yields `[m]` |
| `Messages.ReplaceLastAppend` | app/dashboard/chat/page.tsx:78 | replacing right after an append equals appending the replacement instead |
| `Messages.ReplaceLastTwice` | app/dashboard/chat/page.tsx:78 | of two replacements only the second survives, on every list (the empty one included) |
| `Messages.RateLast` | app/dashboard/chat/page.tsx:93-102 | the rating updater keeps the length, every role and content, and every element but the last; the last gets the rating exactly when it is an assistant message; a list ending in a user message is returned unchanged |
| `Messages.RateLastTwice` | app/dashboard/chat/page.tsx:93-102 | rating twice leaves the second rating |
| `JsString.TrimStart` | app/dashboard/chat/page.tsx:25 | result is a suffix of the input, the cut-off prefix is all white space, and the result does not start with white space |
| `JsString.TrimEnd` | app/dashboard/chat/page.tsx:25 | result is a prefix of the input, the cut-off suffix is all white space, and the result does not end with white space |
| `JsString.TrimEmptyIffBlank` | app/dashboard/chat/page.tsx:25 | `trim() === ''` holds if and only if every character is white space |
| `ChatHandlers.SendBlankIsNoOp` | app/dashboard/chat/page.tsx:25 | a blank input changes no state, posts nothing and raises no toast |
| `ChatHandlers.SendPostsHistoryAndInput` | app/dashboard/chat/page.tsx:26-36 | a non-blank send posts the prior messages plus one user message with the untrimmed input, clears the input, and the list starts with exactly that posted list |
| `ChatHandlers.SendSuccess` | app/dashboard/chat/page.tsx:45-49 | on success the list is the old list plus the user message and an assistant message with the response content, and no toast is raised |
| `ChatHandlers.SendFailure` | app/dashboard/chat/page.tsx:41-56 | on failure the list is the old list plus the user message only, and one error toast is raised |
| `ChatHandlers.SendClearsLoading` | app/dashboard/chat/page.tsx:25-59 | after a send, loading is true only if it was true and the send was ignored; a request is made exactly when the input is not blank |
| `ChatHandlers.RegenerateEmptyIsNoOp` | app/dashboard/chat/page.tsx:63 | regenerating an empty conversation changes nothing, posts nothing and raises no toast |
| `ChatHandlers.RegeneratePostsAllButLast` | app/dashboard/chat/page.tsx:63-70 | on n >= 1 messages it posts exactly the first n-1 of them and leaves the input alone |
| `ChatHandlers.RegenerateSuccess` | app/dashboard/chat/page.tsx:76-78 | on success the length and the first n-1 messages are kept and the last becomes an unrated assistant message with the new content, whatever its role was |
| `ChatHandlers.RegenerateFailure` | app/dashboard/chat/page.tsx:72-84 | on failure the list is unchanged and one error toast is raised |
| `ChatHandlers.RegenerateClearsLoading` | app/dashboard/chat/page.tsx:63-88 | after a regenerate, loading is true only if it was true and the list was empty; a request is made exactly when the list is non-empty |
| `ChatHandlers.RateEmptyIsNoOp` | app/dashboard/chat/page.tsx:92 | rating an empty conversation does nothing, not even a toast |
| `ChatHandlers.RateTouchesOnlyLastRating` | app/dashboard/chat/page.tsx:91-107 | rating a non-empty list changes only the last message's rating, and only when it is an assistant message; input and loading are untouched; exactly one toast is raised and nothing is posted |
| `ChatHandlers.RateTwice` | app/dashboard/chat/page.tsx:91-102 | a later rating overrides an earlier one |
| `ChatHandlers.RegenerateAfterSendRepeatsRequest` | app/dashboard/chat/page.tsx:36-69 | regenerating right after a successful send posts exactly the list the send posted |
| `ChatHandlers.RegenerateAfterSendReplacesReply` | app/dashboard/chat/page.tsx:49-78 | regenerating right after a successful send replaces only the reply |
| `ChatHandlers.RegenerateAfterFailedSendOverwritesUserMessage` | app/dashboard/chat/page.tsx:50-78 | regenerating right after a failed send posts the list without the unanswered user message and then overwrites that message with the reply |
| `ChatHandlers.RegenerateScenario` | app/dashboard/chat/page.tsx:24-89 | sending "hi", getting "hello", then regenerating posts `[user: hi]` and leaves a two-message list ending in the new reply |
| `ChatHandlers.HandlersKeepIdle` | app/dashboard/chat/page.tsx:57-87 | from an idle page every handler returns to an idle page |
| `ChatHandlers.ApplyKeepsAllButLast` | app/dashboard/chat/page.tsx:24-108 | no single handler shortens the list or changes any message but the last |
| `ChatHandlers.RunKeepsAllButLast` | app/dashboard/chat/page.tsx:24-108 | over any sequence of events the list never shrinks and every message but the initial last one survives unchanged |
| `ChatHandlers.ApplyKeepsRatingsOnAssistant` | app/dashboard/chat/page.tsx:91-102 | no single handler puts a rating on a user message |
| `ChatHandlers.RunKeepsRatingsOnAssistant` | app/dashboard/chat/page.tsx:91-102 | over any sequence of events, ratings stay on assistant messages only |
| `ChatHandlers.RunKeepsIdle` | app/dashboard/chat/page.tsx:57-87 | starting idle, the page is idle after any sequence of events |
| `ChatHandlers.RatingsOnlyTouchLast` | app/dashboard/chat/page.tsx:91-107 | a run of rating clicks keeps the length, input, loading, every role and content and every message but the last, and raises one toast per click exactly when the list is non-empty |
| `ChatPage.ChatStore.constructor` | app/dashboard/chat/page.tsx:19-21 | the page starts with no messages, an empty input, not loading, and no toasts |
| `ChatPage.ChatStore.SetInput` | app/dashboard/chat/page.tsx:166 | typing replaces the input and nothing else |
| `ChatPage.ChatStore.HandleSend` | app/dashboard/chat/page.tsx:24-60 | the new state, the posted list and the toasts are those of `ChatHandlers.Send`: a blank input changes nothing; otherwise the posted list is the old list plus the user message, the new list is that plus the reply on success, the input is cleared, loading is false, and a failure logs one toast |
| `ChatPage.ChatStore.HandleRegenerate` | app/dashboard/chat/page.tsx:62-89 | the new state, the posted list and the toasts are those of `ChatHandlers.Regenerate`: an empty list changes nothing; otherwise the first n-1 messages are posted and kept, and the last is the reply on success or unchanged on failure (one toast), with loading false |
| `ChatPage.ChatStore.HandleRate` | app/dashboard/chat/page.tsx:91-108 | the new state and the toasts are those of `ChatHandlers.Rate`: only the last message's rating changes, only if it is an assistant message, and one toast is logged exactly when the list is non-empty |

## Left out

- Rendering: the message list, markdown, scroll area, placeholder and buttons
  (page.tsx:110-183) are presentation only.
- `fetch`, JSON encoding and decoding, and the console logging (page.tsx:32-46,
  66-76) are network I/O. The model replaces them with the `Outcome`
  argument, so it does not say where the reply content comes from. A reply
  JSON without `content` would give an `undefined` content, and the model
  does not represent that.
- Interleaving of the asynchronous handlers is not modelled. Each handler
  runs to completion before the next event. So the model does not capture a
  second send fired with Enter while a reply is pending, nor the difference
  between the captured `messages` used for a request body and the
  `prevMessages` used by the updaters. The model claims no at-most-one-request
  guarantee.
- Toast titles, descriptions and styling: only the kind of notification is
  recorded.
- The two API routes (`app/api/chat/route.ts`, `app/api/tickets/route.ts`)
  only echo their request body. The navigation constants
  (`constants/data.ts`) are static configuration. Neither has behaviour to
  model.
- Strings are sequences of Unicode scalar values, while JavaScript strings
  are UTF-16 code units. Every character `trim` strips is a single
  scalar value in the Basic Multilingual Plane, so blankness is the same
  under both views.
