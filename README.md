# A verified model of the chat front end and its assistant gateway

This project models the core of a small Next.js chat application in Dafny and proves properties
of that model. The application has four parts:

- **Persona resolver** (`app/func/support.ts`): picks a catalogue entry from the first character
  of a session id. Module `Support`.
- **Countdown presenter** (`app/components/countdown.tsx`): a `timeLeft` state that a one-second
  interval lowers until it reaches zero, shown as `mm:ss`. Module `Countdown`, with the class
  `CountdownTimer`.
- **Chat API route** (`app/api/chat/route.ts`):
  - `POST` resolves or creates a remote assistant thread, seeds a new thread with the greeting,
    appends the user's message, starts a run, polls its status until it is `completed`, and
    replies with the newest assistant text.
  - `GET` returns a thread as a chronological transcript.
  - The remote assistant service is the class `ChatRoute.ThreadStore`.
  - A run is given by two parameters: the statuses its successive status queries return, and
    the messages it adds to the thread once it is completed.
- **Chat page** (`app/page.tsx`): the transcript, input field and loading flag, the
  optimistic user turn, the timer the `messages` effect arms on every change, and the reply
  append. Module `ChatPage`, with the class `Page`, whose `timers` field queues the snapshots
  still waiting.

Module `Js` writes out the JavaScript behaviour the code relies on:

- the truncating `%`;
- `toString()` of an integral number;
- `padStart`;
- the truthiness of an absent or empty string.

Module `ChatModel` holds the transcript entry the page and the `GET` route share. Module
`Wrappers` holds `Option`.

The model follows what the code does:

- A `POST` without a session id creates the thread, seeds the greeting, and then also sends
  the user's message and waits for the run. It is not a handshake that returns only the new id.
- The greeting is the fixed `SYSTEM_PROMPT` text. It does not depend on the persona.
- The page never cancels a dispatch timer. Every change of `messages` arms a new timer, and
  each timer dispatches on the snapshot it captured. `ChatPage.DispatchesOfPrefixes` shows
  that each user turn is still sent exactly once.
- The page never sends a session id, so every dispatch creates a new thread.
- The persona index uses JavaScript's truncating `%`, so it does not wrap for a first
  character below `a`. A lookup whose remainder is never negative is modelled beside it (see
  Findings).

## Model

| member | source | states |
|---|---|---|
| Js.TruncRem | app/func/support.ts:6 | JavaScript's `%` by a positive divisor: the remainder pairs with the quotient rounded toward zero, lies in `[0, n)` for a non-negative dividend and in `(-n, 0]` for a negative one |
| Js.TruncRemOfNegative | app/func/support.ts:6 | on a negative dividend that `n` does not divide, the remainder is negative, and it is the Euclidean remainder minus `n`; it is 0 exactly for multiples of `n` |
| Js.NatToString | app/components/countdown.tsx:14-15 | `toString()` of a non-negative number is a non-empty digit string with no leading zero except for 0 itself |
| Js.IntToString | app/components/countdown.tsx:14-15 | `toString()` of an integral number is non-empty, and all digits exactly when the number is not negative |
| Js.IntToStringValue | app/components/countdown.tsx:14-15 | the numeral denotes the number: its digits read back as the number itself, and a negative number is a minus sign followed by the digits of its absolute value |
| Js.DecimalRoundTrip | app/components/countdown.tsx:14-15 | reading the digits of `toString()` back gives the number itself |
| Js.NatToStringLength | app/components/countdown.tsx:14-15 | the numeral has one digit below 10, two below 100, and three or more from 100 on |
| Js.PadStart | app/components/countdown.tsx:14-15 | `padStart(width, c)` has length `max(len, width)`, ends with the original string, and has only `c` in front of it |
| Js.PaddedValue | app/components/countdown.tsx:14-15 | zero-padding a numeral keeps it a digit string with the same value |
| Support.ToLowerCase | app/func/support.ts:5 | lower-casing keeps the length and maps each character to its ASCII lower-case form |
| Support.Utf16LeadUnit | app/func/support.ts:6 | `charCodeAt(0)` is a 16-bit code unit: the code point itself for a character below U+10000, and a leading surrogate for one above |
| Support.PersonaIndex | app/func/support.ts:5-6 | the index is a number exactly for a non-empty id and catalogue; it is then the truncated remainder of the lowered first code minus 97, strictly between minus the catalogue length and the catalogue length |
| Support.GetSupportBySessionId | app/func/support.ts:3-8 | the lookup gives a persona exactly when the index is a non-negative number, and that persona is the catalogue entry at the index |
| Support.DependsOnlyOnFirstCharacter | app/func/support.ts:3-8 | two ids whose first characters agree after lower-casing get the same lookup result |
| Support.IgnoresCaseOfFirstLetter | app/func/support.ts:5-7 | an upper-case first letter and its lower-case form give the same persona |
| Support.LetterIndexInRange | app/func/support.ts:5-7 | with a first letter `a`..`z` and a non-empty catalogue, the index lies inside the catalogue and the lookup returns that entry |
| Support.LetterAIsFirstEntry | app/func/support.ts:6-7 | an id starting with `a` or `A` gets the first entry |
| Support.LettersCatalogueLengthApart | app/func/support.ts:6-7 | letters whose codes are a catalogue length apart get the same entry |
| Support.NegativeIndexBelowA | app/func/support.ts:6 | a first character below `a` whose distance to `a` is not a multiple of the catalogue length gives a negative index |
| Support.UndefinedExactly | app/func/support.ts:3-8 | the lookup is `undefined` exactly for an empty id, an empty catalogue, or that negative-index case |
| Support.WrappedExtendsAsWritten | app/func/support.ts:6-7 | the wrapping lookup is defined for every non-empty id and catalogue, and agrees with the lookup as written wherever that one is defined |
| Support.DigitIdHasNoPersona | app/func/support.ts:6-7 | the id `"0"` with a three-entry catalogue has no persona as written, while the wrapping lookup gives the third entry |
| Countdown.FormatTimeFields | app/components/countdown.tsx:13-17 | for `s >= 0` the rendering is the padded minute numeral, a colon, and the two-character padded second numeral |
| Countdown.FormatTime | app/components/countdown.tsx:13-17 | the rendering is at least five characters, and for a non-negative time the third character from the end is the colon |
| Countdown.FormatTimeRoundTrip | app/components/countdown.tsx:13-17 | reading `formatTime(s)` back gives `m` and `c` with `c < 60` and `60m + c == s` |
| Countdown.FormatTimeShape | app/components/countdown.tsx:13-17 | below 6000 seconds the rendering is exactly `dd:dd` |
| Countdown.FormatTimeWideMinutes | app/components/countdown.tsx:13-17 | from 6000 seconds on, the minute field is the full unpadded numeral of three or more digits |
| Countdown.TickStep | app/components/countdown.tsx:7-9 | one second never raises the counter, lowers it by at most one, lowers it exactly when it is positive, and never takes a non-negative counter below 0 |
| Countdown.AfterTicks | app/components/countdown.tsx:7-11 | after `k` seconds the counter is at most `k` lower than at the start, never higher, and not negative when the start is not negative |
| Countdown.Display | app/components/countdown.tsx:19-27 | something is rendered exactly while the time left is positive |
| Countdown.CountsDownToZero | app/components/countdown.tsx:7-11 | from a start `n >= 0`, after `k` seconds the counter is `n - k` while `k <= n`, and 0 after that |
| Countdown.NonPositiveStartStays | app/components/countdown.tsx:8 | a start at or below 0 arms no interval and never changes |
| Countdown.ShownUntilZero | app/components/countdown.tsx:13-19 | the time is shown during the first `n` seconds and nothing is rendered from second `n` on |
| Countdown.CountdownTimer.constructor | app/components/countdown.tsx:4-5 | the state starts at `seconds`, or 900 when it is not given |
| Countdown.CountdownTimer.Tick | app/components/countdown.tsx:7-11 | one elapsed second lowers a positive `timeLeft` by one and leaves a non-positive one unchanged |
| Countdown.CountdownTimer.View | app/components/countdown.tsx:19-27 | the component renders something exactly while its interval is armed |
| ChatRoute.MapToChat | app/api/chat/route.ts:77-80 | the mapped transcript has one entry per message |
| ChatRoute.TextOf | app/api/chat/route.ts:79 | there is a text exactly when the first content block is a text block, and it is that block's value |
| ChatRoute.ToChat | app/api/chat/route.ts:77-80 | the entry is the user's exactly for role `user`; its text is the first text block's value, or `""` without one |
| ChatRoute.Transcript | app/api/chat/route.ts:75-80 | the transcript has one entry per listed message, and entry `i` maps listed message `n-1-i` |
| ChatRoute.TranscriptAt | app/api/chat/route.ts:75-80 | transcript entry `i` comes from listed message `n-1-i`: role `user` maps to the user and every other role to the assistant; the text is the first block's text, or `""` without one |
| ChatRoute.TranscriptIsChronological | app/api/chat/route.ts:73-80 | reversing the newest-first listing gives the thread in chronological order |
| ChatRoute.FindAssistant | app/api/chat/route.ts:51 | `find` returns the first assistant message, or none when there is no assistant message |
| ChatRoute.LatestReplyText | app/api/chat/route.ts:51-57 | without an assistant message the reply is the fallback; any other reply is the first text block of some assistant message |
| ChatRoute.LastAssistant | app/api/chat/route.ts:49-51 | the position of the thread's most recent assistant message, or none when there is no assistant message |
| ChatRoute.FindInListingIsLastAssistant | app/api/chat/route.ts:49-51 | searching the newest-first listing from the front finds the thread's most recent assistant message |
| ChatRoute.ReplyIsMostRecentAssistant | app/api/chat/route.ts:49-57 | the reply is that message's first text block, or the fallback text when there is no assistant message or no text block |
| ChatRoute.ReplyAfterRun | app/api/chat/route.ts:30-57 | when the run adds one assistant text message after the user's message, the reply is that text |
| ChatRoute.SilentRunOnNewThreadRepliesGreeting | app/api/chat/route.ts:20-57 | on a new thread whose run adds nothing, the reply is the greeting |
| ChatRoute.ThreadIdIssuedBelow | app/api/chat/route.ts:21-22 | the id of the `k`-th created thread is among the first `n` ids exactly when `k < n` |
| ChatRoute.ThreadStore.constructor | app/api/chat/route.ts:6 | the store starts with no threads |
| ChatRoute.ThreadStore.CreateThread | app/api/chat/route.ts:21-22 | creates an empty thread under an id no existing thread has |
| ChatRoute.ThreadStore.AddMessage | app/api/chat/route.ts:24-34 | appends to a known thread; fails, changing nothing, exactly for an unknown id |
| ChatRoute.ThreadStore.CompleteRun | app/api/chat/route.ts:37-46 | a completed run appends its messages to its thread |
| ChatRoute.ThreadStore.List | app/api/chat/route.ts:49 | the listing has all of the thread's messages, newest first |
| ChatRoute.PollUntilCompleted | app/api/chat/route.ts:42-46 | the loop ends exactly when some status is `completed`, stopping at the first one; otherwise it polls every given status and the request waits forever |
| ChatRoute.ResolveThread | app/api/chat/route.ts:15-28 | a truthy session id is the thread and nothing changes; otherwise a fresh thread seeded with only the greeting is created |
| ChatRoute.RunAssistant | app/api/chat/route.ts:37-46 | the run's messages are added to the thread exactly when a status query reports `completed` |
| ChatRoute.ReplyText | app/api/chat/route.ts:49-57 | the reply is the text of the thread's most recent assistant message, or the fallback |
| ChatRoute.Converse | app/api/chat/route.ts:30-62 | throws, changing nothing, for an unknown thread; otherwise appends the user's message and the run's output, and replies with the newest assistant text once completed |
| ChatRoute.Post | app/api/chat/route.ts:14-63 | crashes exactly for a truthy unknown session id and then changes nothing; without a truthy id it creates exactly one new thread; otherwise the thread becomes the seeded messages, the user's message and the run's output, and the reply is its newest assistant text with the thread id |
| ChatRoute.Get | app/api/chat/route.ts:65-90 | 400 without a session id; 500 when the listing fails; otherwise 200 with the thread's messages in chronological order, each mapped as the route maps it |
| ChatPage.DispatchOf | app/page.tsx:41-44 | a fired timer dispatches exactly when its snapshot's last turn is a user turn, and it sends that turn's text |
| ChatPage.Prefixes | app/page.tsx:10-46 | one snapshot is captured per value of `messages`: the first render and each appended turn |
| ChatPage.PrefixesAt | app/page.tsx:10-46 | snapshot `i` is the transcript's first `i` turns, so the first one is empty and the last is the current transcript |
| ChatPage.DispatchesAppend | app/page.tsx:40-46 | the dispatches of consecutive runs of fired timers concatenate |
| ChatPage.DispatchesOfPrefixes | app/page.tsx:40-46 | once every armed timer has fired, each user turn has been sent exactly once, in transcript order, and nothing else has been sent |
| ChatPage.SentSoFar | app/page.tsx:40-46 | at every moment the texts sent are the user turns of an initial part of the transcript, and all of them once no timer is waiting |
| ChatPage.Page.constructor | app/page.tsx:10-46 | empty transcript and field, not loading, one timer held on the empty transcript |
| ChatPage.Page.SetInput | app/page.tsx:122 | typing replaces `input` and nothing else |
| ChatPage.Page.SendMessage | app/page.tsx:33-38 | an empty field without a non-empty override changes nothing; otherwise the field is cleared, exactly one user turn carrying `override ?? input` is appended after the earlier turns, and a timer is armed on the new transcript |
| ChatPage.Page.PressSayHi | app/page.tsx:66-73 | shown only with no messages and not loading; it makes the transcript exactly the user turn `Hi` |
| ChatPage.Page.Submit | app/page.tsx:118-129 | shown only with more than one message; it sends the field's text as a user turn unless the field is empty |
| ChatPage.Page.Fire | app/page.tsx:14-44 | the oldest timer fires; a snapshot ending in a user turn sets `loading` and posts exactly that text with no session id; any other snapshot changes nothing but the queue |
| ChatPage.Page.ReceiveReply | app/page.tsx:23-30 | exactly one assistant turn carrying the reply is appended at the end, `loading` becomes false, and a timer is armed on the new transcript |
| ChatPage.Page.ReplyFailed | app/page.tsx:17-23 | a failed request is dropped with no state update, so `loading` stays as it was |

`ChatRoute.ThreadStore.Valid` says every thread id was issued by the store, which makes new ids
fresh. `ChatPage.Page.Valid` says three things:

- every value `messages` has had armed exactly one timer, fired or still waiting;
- the texts sent are what the fired timers dispatch;
- every request in flight carries one of those texts and no session id.

Every method of the two classes preserves its `Valid`.

## Left out

- The remote assistant service is not called. The models are `ThreadStore` and the run
  parameters; API keys, the assistant id and JSON parsing are not modelled.
- ChatRoute.ThreadStore.List: returns the whole thread. The real listing returns only its
  first page, the newest messages, and the model does not capture that limit.
- ChatRoute.Get: the transcript is the whole thread. With the real paged listing it would be
  only the newest page (app/api/chat/route.ts:73), in chronological order.
- ChatRoute.ReplyText: searches the whole thread. The real search sees only the newest page
  (app/api/chat/route.ts:49-51). This matters only when the newest page holds no assistant
  message.
- In the POST body, `sessionId` is an optional string and `message` is a plain string. A
  body without `message`, where the route then creates a message with no content (line 33),
  is not modelled. A `message` or `sessionId` that is not a string is not modelled either.
- Non-200 responses from the remote service other than an unknown thread id are not
  modelled. `Get`'s `upstreamFails` parameter covers the caught failures of the listing.
- ChatRoute.PollUntilCompleted: the one-second pause between status queries is not modelled.
  Statuses such as `failed` or `expired` are just further statuses: the loop keeps polling,
  as the code does.
- ChatRoute.Post: a request that never sees `completed` is `Hanging`, and the model adds no
  run output to the thread in that case.
- Support.ToLowerCase: lower-cases ASCII letters only and leaves every other character as it
  is. Unicode case mapping beyond ASCII (for example `'À'`) is not modelled, and neither are
  the persona catalogue's contents. The catalogue, held in a data file that is
  not part of this model, is a parameter.
- Countdown: times are integers. Fractional `seconds` and floating-point formatting are not
  modelled.
- Countdown.CountdownTimer.Tick: one call is one elapsed second. How an interval is cleared
  and re-armed on each change of `timeLeft` is not modelled, only its effect on the state.
- ChatPage: the five-second delay, the order in which timers and replies happen, and
  concurrency are the caller's choice of method calls. Each call is one state update, as
  React runs them when it batches the setters of one event.
- ChatPage.Page.ReceiveReply: takes the reply text as a parameter. It does not model a
  response body without `reply`, which would append a turn with an undefined text.
- React's development-mode double effects and unmounting, which would clear nothing here
  either, are not modelled.
- All JSX, animation, avatars, icons and styling are not modelled.
- The link-redirect behaviour is not modelled. It appears only in the `[sessionId]` page,
  which is not part of this model.
- Logging of the `GET` failure to the console is not modelled.

## Findings

| source | as written | input that shows it | evidently intended | confidence | as-written member | corrected member |
|---|---|---|---|---|---|---|
| app/func/support.ts:6-7 | the index uses JavaScript's `%`, which is negative for a first character below `a`, so `supports[index]` is `undefined` | session id `"0"` with a three-entry catalogue: `(48 - 97) % 3` is `-1`, and there is no persona | the index wraps into the catalogue, so every non-empty id gets a persona | medium, not executed | Support.DigitIdHasNoPersona | Support.WrappedExtendsAsWritten |
