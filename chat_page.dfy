/** The chat page's client state: the transcript `messages`, the text field `input` and the
    `loading` flag, with the timers the `messages` effect schedules and the requests it sends.
    Every change of `messages` (and the first render) runs the effect, which arms a timer
    holding the `messages` of that render; when a timer fires and its snapshot ends with a
    user turn, that turn's text is sent to the chat route. Timers are never cancelled, so
    `timers` is a queue of the snapshots still waiting. When they fire, how long the five
    seconds are and when replies come back are the caller's choice of which method to call. */
module ChatPage {
  import opened Wrappers
  import opened Js
  import opened ChatModel
  import ChatRoute

  // ---------------------------------------------------------------------------
  // Snapshots and dispatches

  /** What a timer holding `snapshot` does when it fires: when the last turn is a user
      turn, it sends that turn's text; otherwise (no turns, or an assistant turn last) it
      sends nothing. */
  function DispatchOf(snapshot: seq<Chat>): (r: Option<string>)
    ensures r.Some? <==> snapshot != [] && snapshot[|snapshot| - 1].kind == User
    ensures r.Some? ==> r.value == snapshot[|snapshot| - 1].text
  {
    if snapshot != [] && snapshot[|snapshot| - 1].kind == User then Some(snapshot[|snapshot| - 1].text)
    else None
  }

  function DispatchSeq(snapshot: seq<Chat>): seq<string>
  {
    match DispatchOf(snapshot)
    case None => []
    case Some(t) => [t]
  }

  /** The texts sent by timers that fired on `snapshots`, in firing order. */
  function Dispatches(snapshots: seq<seq<Chat>>): seq<string>
  {
    if snapshots == [] then []
    else Dispatches(snapshots[..|snapshots| - 1]) + DispatchSeq(snapshots[|snapshots| - 1])
  }

  /** The successive values of `messages` since the first render, when each change appends
      one turn: the empty transcript, then every longer prefix up to `m` itself. This is
      the sequence of snapshots the effect captures. */
  function Prefixes(m: seq<Chat>): (r: seq<seq<Chat>>)
    ensures |r| == |m| + 1
  {
    if m == [] then [[]] else Prefixes(m[..|m| - 1]) + [m]
  }

  /** Snapshot `i` is the transcript's first `i` turns. */
  lemma {:induction false} PrefixesAt(m: seq<Chat>, i: nat)
    requires i <= |m|
    ensures Prefixes(m)[i] == m[..i]
  {
    if i < |m| {
      var init := m[..|m| - 1];
      PrefixesAt(init, i);
      assert init[..i] == m[..i];
    }
  }

  /** One more fired timer adds what its snapshot dispatches. */
  lemma DispatchesSnoc(s: seq<seq<Chat>>, snapshot: seq<Chat>)
    ensures Dispatches(s + [snapshot]) == Dispatches(s) + DispatchSeq(snapshot)
  {
    assert (s + [snapshot])[..|s|] == s;
  }

  /** The texts of the user turns of `m`, in order. */
  function UserTexts(m: seq<Chat>): seq<string>
  {
    if m == [] then []
    else UserTexts(m[..|m| - 1]) + (if m[|m| - 1].kind == User then [m[|m| - 1].text] else [])
  }

  /** Timers fired on consecutive snapshot runs send the concatenation of what each run sends. */
  lemma {:induction false} DispatchesAppend(a: seq<seq<Chat>>, b: seq<seq<Chat>>)
    ensures Dispatches(a + b) == Dispatches(a) + Dispatches(b)
  {
    if b == [] {
      assert a + b == a;
    } else {
      var init := b[..|b| - 1];
      assert (a + b)[..|a + b| - 1] == a + init;
      DispatchesAppend(a, init);
    }
  }

  /** Once every timer armed so far has fired, each user turn has been sent exactly once and
      in transcript order; nothing else has been sent. */
  lemma {:induction false} DispatchesOfPrefixes(m: seq<Chat>)
    ensures Dispatches(Prefixes(m)) == UserTexts(m)
  {
    if m == [] {
      assert Prefixes(m)[..0] == [];
    } else {
      var init := m[..|m| - 1];
      var p := Prefixes(m);
      assert p[..|p| - 1] == Prefixes(init);
      DispatchesOfPrefixes(init);
    }
  }

  /** While some timers are still waiting, the texts sent so far are the user turns of an
      initial part of the transcript: no user turn is sent twice, skipped or sent out of
      order. */
  lemma SentSoFar(m: seq<Chat>, fired: seq<seq<Chat>>, waiting: seq<seq<Chat>>)
    requires fired + waiting == Prefixes(m)
    ensures Dispatches(fired) <= UserTexts(m)
    ensures waiting == [] ==> Dispatches(fired) == UserTexts(m)
  {
    DispatchesAppend(fired, waiting);
    DispatchesOfPrefixes(m);
    if waiting == [] {
      assert fired == fired + waiting;
    }
  }

  lemma PrefixesSnoc(m: seq<Chat>, c: Chat)
    ensures Prefixes(m + [c]) == Prefixes(m) + [m + [c]]
  {
    assert (m + [c])[..|m + [c]| - 1] == m;
  }

  // ---------------------------------------------------------------------------
  // The page

  class Page {
    var messages: seq<Chat>
    var input: string
    var loading: bool
    /** The snapshots of the armed timers that have not fired yet, oldest first. */
    var timers: seq<seq<Chat>>
    /** The requests sent whose reply has not arrived. */
    var inflight: seq<ChatRoute.PostRequest>
    /** The snapshots of the timers that have fired, in firing order. */
    ghost var fired: seq<seq<Chat>>
    /** Every text sent so far, in sending order. */
    ghost var sent: seq<string>

    /** Each value `messages` has had armed exactly one timer, fired or waiting; the texts
        sent are what the fired timers dispatch; every request in flight carries one of
        them and no session id. */
    ghost predicate Valid()
      reads this
    {
      fired + timers == Prefixes(messages) &&
      sent == Dispatches(fired) &&
      forall i :: 0 <= i < |inflight| ==> inflight[i].sessionId == None && inflight[i].message in sent
    }

    /** First render: the three `useState` initial values, and the effect's first timer,
        holding the empty transcript. */
    constructor ()
      ensures Valid()
      ensures messages == [] && input == "" && !loading && inflight == []
      ensures timers == [[]] && fired == [] && sent == []
    {
      messages, input, loading := [], "", false;
      timers, inflight := [[]], [];
      fired, sent := [], [];
    }

    /** The "Say Hi" empty state is shown only with no messages and no reply pending. */
    predicate SayHiShown()
      reads this
    {
      |messages| == 0 && !loading
    }

    /** The input form is shown only once there is more than one message. */
    predicate FormShown()
      reads this
    {
      |messages| > 1
    }

    /** Typing in the field: `setInput(e.target.value)`. */
    method SetInput(value: string)
      requires Valid()
      modifies this
      ensures Valid()
      ensures input == value
      ensures messages == old(messages) && loading == old(loading) && timers == old(timers)
      ensures inflight == old(inflight) && fired == old(fired) && sent == old(sent)
    {
      input := value;
    }

    /** `sendMessage(e, override)`: with an empty `input` and no non-empty override nothing
        happens; otherwise the field is cleared and one user turn is appended, carrying the
        override when one is given (even an empty one) and `input` otherwise. The change of
        `messages` arms a timer on the new transcript. */
    method SendMessage(override: Option<string>)
      requires Valid()
      modifies this
      ensures Valid()
      ensures loading == old(loading) && inflight == old(inflight)
      ensures fired == old(fired) && sent == old(sent)
      ensures old(input) == "" && !Truthy(override) ==>
        messages == old(messages) && input == old(input) && timers == old(timers)
      ensures !(old(input) == "" && !Truthy(override)) ==>
        input == "" &&
        messages == old(messages) + [Chat(User, if override.Some? then override.value else old(input))] &&
        timers == old(timers) + [messages]
    {
      if input == "" && !Truthy(override) {
        return;
      }
      var text := if override.Some? then override.value else input;
      input := "";
      PrefixesSnoc(messages, Chat(User, text));
      messages := messages + [Chat(User, text)];
      timers := timers + [messages];
    }

    /** The "Say Hi" button: `sendMessage(e, "Hi")`, which always appends the greeting turn. */
    method PressSayHi()
      requires Valid() && SayHiShown()
      modifies this
      ensures Valid()
      ensures messages == [Chat(User, "Hi")] && input == ""
      ensures timers == old(timers) + [messages]
      ensures loading == old(loading) && inflight == old(inflight)
      ensures fired == old(fired) && sent == old(sent)
    {
      SendMessage(Some("Hi"));
    }

    /** The form's send button or Enter in the field: `sendMessage(e)` with no override. */
    method Submit()
      requires Valid() && FormShown()
      modifies this
      ensures Valid()
      ensures old(input) == "" ==> messages == old(messages) && timers == old(timers)
      ensures old(input) != "" ==>
        input == "" && messages == old(messages) + [Chat(User, old(input))] &&
        timers == old(timers) + [messages]
      ensures old(input) == "" ==> input == old(input)
      ensures loading == old(loading) && inflight == old(inflight)
      ensures fired == old(fired) && sent == old(sent)
    {
      SendMessage(None);
    }

    /** The oldest waiting timer fires. When its snapshot ends with a user turn,
        `sendMessageToAssistant` sets `loading` and posts that text, and only that text, to
        the chat route; the request is returned and kept in flight. */
    method Fire() returns (req: Option<ChatRoute.PostRequest>)
      requires Valid() && timers != []
      modifies this
      ensures Valid()
      ensures fired == old(fired) + [old(timers)[0]] && timers == old(timers)[1..]
      ensures messages == old(messages) && input == old(input)
      ensures req.Some? <==> DispatchOf(old(timers)[0]).Some?
      ensures req.Some? ==>
        req.value == ChatRoute.PostRequest(DispatchOf(old(timers)[0]).value, None) &&
        loading && inflight == old(inflight) + [req.value] && sent == old(sent) + [req.value.message]
      ensures req.None? ==> loading == old(loading) && inflight == old(inflight) && sent == old(sent)
    {
      var snapshot := timers[0];
      assert fired + timers == (fired + [snapshot]) + timers[1..];
      DispatchesSnoc(fired, snapshot);
      timers := timers[1..];
      fired := fired + [snapshot];
      req := None;
      if snapshot != [] && snapshot[|snapshot| - 1].kind == User {
        var text := snapshot[|snapshot| - 1].text;
        loading := true;
        req := Some(ChatRoute.PostRequest(text, None));
        inflight := inflight + [ChatRoute.PostRequest(text, None)];
        sent := sent + [text];
      }
    }

    /** The reply to the `i`-th request in flight arrives: one assistant turn carrying
        `data.reply` is appended, `loading` is cleared, and the change of `messages` arms a
        timer on the new transcript. */
    method ReceiveReply(i: nat, reply: string)
      requires Valid() && i < |inflight|
      modifies this
      ensures Valid()
      ensures messages == old(messages) + [Chat(Assistant, reply)]
      ensures timers == old(timers) + [messages]
      ensures !loading && input == old(input)
      ensures inflight == old(inflight)[..i] + old(inflight)[i + 1..]
      ensures fired == old(fired) && sent == old(sent)
    {
      PrefixesSnoc(messages, Chat(Assistant, reply));
      inflight := inflight[..i] + inflight[i + 1..];
      messages := messages + [Chat(Assistant, reply)];
      timers := timers + [messages];
      loading := false;
    }

    /** The `i`-th request in flight fails (the response is not the JSON reply): the promise
        rejects before any state update, so `loading` stays as it is. */
    method ReplyFailed(i: nat)
      requires Valid() && i < |inflight|
      modifies this
      ensures Valid()
      ensures inflight == old(inflight)[..i] + old(inflight)[i + 1..]
      ensures messages == old(messages) && input == old(input) && loading == old(loading)
      ensures timers == old(timers) && fired == old(fired) && sent == old(sent)
    {
      inflight := inflight[..i] + inflight[i + 1..];
    }
  }
}
