/** The chat API route. The remote assistant service is modelled as a `ThreadStore`: a map
    from thread id to that thread's messages, oldest first. Its listing call returns them
    newest first. A run is modelled by the statuses that successive status queries return
    and the messages the run adds to the thread once it is completed. */
module ChatRoute {
  import opened Wrappers
  import opened Js
  import opened ChatModel

  /** One content block of a remote message; only text blocks carry `text.value`. */
  datatype ContentPart = TextPart(value: string) | OtherPart

  /** A message as the remote service stores it. */
  datatype RemoteMessage = RemoteMessage(role: string, content: seq<ContentPart>)

  /** The greeting a new thread is seeded with. */
  const SystemPrompt: string :=
    "\nHi there \U{2014} welcome to Kali Supplements! My name is KaliBot, and I'm here to guide you. \n"
    + "Let's see if our Longevity Formula is right for you.\n"
    + "I'll ask you a few quick questions. Ready?\n"

  const FallbackReply: string := "Sorry, something went wrong."
  const MissingSessionId: string := "Missing sessionId"
  const CouldNotFetch: string := "Could not fetch messages"
  const Completed: string := "completed"

  /** A message whose content is one string, as `messages.create` stores it. */
  function TextMessage(role: string, text: string): RemoteMessage
  {
    RemoteMessage(role, [TextPart(text)])
  }

  const Greeting: RemoteMessage := TextMessage("assistant", SystemPrompt)

  /** The POST body `{ message, sessionId }`; a missing `sessionId` is None. */
  datatype PostRequest = PostRequest(message: string, sessionId: Option<string>)

  /** What a POST ends in: the JSON `{ reply, sessionId }`; an exception escaping the handler
      (the framework then answers with an error page); or a request that never returns,
      because no status query ever reported `completed`. */
  datatype PostResponse = Replied(reply: string, sessionId: string) | Crashed | Hanging

  datatype GetBody = Messages(messages: seq<Chat>) | ErrorBody(error: string)

  datatype GetResponse = GetResponse(status: int, body: GetBody)

  // ---------------------------------------------------------------------------
  // Sequences

  function Reverse<T>(s: seq<T>): (r: seq<T>)
    ensures |r| == |s|
  {
    if s == [] then [] else [s[|s| - 1]] + Reverse(s[..|s| - 1])
  }

  lemma {:induction false} ReverseAt<T>(s: seq<T>, i: nat)
    requires i < |s|
    ensures Reverse(s)[i] == s[|s| - 1 - i]
  {
    if i > 0 {
      ReverseAt(s[..|s| - 1], i - 1);
    }
  }

  lemma ReverseReverse<T>(s: seq<T>)
    ensures Reverse(Reverse(s)) == s
  {
    forall i | 0 <= i < |s|
      ensures Reverse(Reverse(s))[i] == s[i]
    {
      ReverseAt(Reverse(s), i);
      ReverseAt(s, |s| - 1 - i);
    }
  }

  // ---------------------------------------------------------------------------
  // The GET transcript

  /** `content[0].text.value` when the first block is a text block. */
  function TextOf(m: RemoteMessage): (r: Option<string>)
    ensures r.Some? <==> |m.content| > 0 && m.content[0].TextPart?
    ensures r.Some? ==> r.value == m.content[0].value
  {
    if |m.content| > 0 && m.content[0].TextPart? then Some(m.content[0].value) else None
  }

  /** One listed message as a transcript entry: role `"user"` is the user, every other role
      the assistant; the text of a message without a leading text block is `""`. */
  function ToChat(m: RemoteMessage): (c: Chat)
    ensures c.kind == User <==> m.role == "user"
    ensures TextOf(m).Some? ==> c.text == TextOf(m).value
    ensures TextOf(m).None? ==> c.text == ""
  {
    Chat(if m.role == "user" then User else Assistant, TextOf(m).GetOr(""))
  }

  function MapToChat(ms: seq<RemoteMessage>): (r: seq<Chat>)
    ensures |r| == |ms|
  {
    seq(|ms|, i requires 0 <= i < |ms| => ToChat(ms[i]))
  }

  /** `messages.data.reverse().map(...)`. */
  function Transcript(data: seq<RemoteMessage>): (r: seq<Chat>)
    ensures |r| == |data|
    ensures forall i :: 0 <= i < |data| ==> r[i] == ToChat(data[|data| - 1 - i])
  {
    var r := MapToChat(Reverse(data));
    forall i | 0 <= i < |data|
      ensures r[i] == ToChat(data[|data| - 1 - i])
    {
      ReverseAt(data, i);
    }
    r
  }

  /** The transcript has one entry per listed message, in reversed order: entry `i` comes
      from `data[n - 1 - i]`, with its role and text mapped as the route does. */
  lemma TranscriptAt(data: seq<RemoteMessage>, i: nat)
    requires i < |data|
    ensures |Transcript(data)| == |data|
    ensures Transcript(data)[i] == ToChat(data[|data| - 1 - i])
    ensures Transcript(data)[i].kind == User <==> data[|data| - 1 - i].role == "user"
    ensures Transcript(data)[i].text ==
      if |data[|data| - 1 - i].content| > 0 && data[|data| - 1 - i].content[0].TextPart?
      then data[|data| - 1 - i].content[0].value else ""
  {
    ReverseAt(data, i);
  }

  /** Since the store lists a thread newest first, the transcript is the thread in
      chronological order. */
  lemma TranscriptIsChronological(thread: seq<RemoteMessage>)
    ensures Transcript(Reverse(thread)) == MapToChat(thread)
  {
    ReverseReverse(thread);
  }

  // ---------------------------------------------------------------------------
  // The POST reply

  predicate IsAssistant(m: RemoteMessage)
  {
    m.role == "assistant"
  }

  /** `data.find(msg => msg.role === "assistant")`, as the position found. */
  function FindAssistant(data: seq<RemoteMessage>): (r: Option<nat>)
    ensures r.Some? ==> r.value < |data| && IsAssistant(data[r.value])
    ensures r.Some? ==> forall j :: 0 <= j < r.value ==> !IsAssistant(data[j])
    ensures r.None? ==> forall j :: 0 <= j < |data| ==> !IsAssistant(data[j])
  {
    if data == [] then None
    else if IsAssistant(data[0]) then Some(0)
    else match FindAssistant(data[1..])
      case None => None
      case Some(k) => Some(k + 1)
  }

  /** The reply text taken from a newest-first listing: the first block's text of the first
      assistant message, or the fallback when there is none or it has no text block. */
  function LatestReplyText(data: seq<RemoteMessage>): (r: string)
    ensures (forall j :: 0 <= j < |data| ==> !IsAssistant(data[j])) ==> r == FallbackReply
    ensures r != FallbackReply ==>
      exists k :: 0 <= k < |data| && IsAssistant(data[k]) && TextOf(data[k]) == Some(r)
  {
    match FindAssistant(data)
    case None => FallbackReply
    case Some(k) => TextOf(data[k]).GetOr(FallbackReply)
  }

  /** The thread's most recent assistant message, searched from the end of the
      chronological thread. */
  function LastAssistant(thread: seq<RemoteMessage>): (r: Option<nat>)
    ensures r.Some? ==> r.value < |thread| && IsAssistant(thread[r.value])
    ensures r.Some? ==> forall j :: r.value < j < |thread| ==> !IsAssistant(thread[j])
    ensures r.None? ==> forall j :: 0 <= j < |thread| ==> !IsAssistant(thread[j])
  {
    if thread == [] then None
    else if IsAssistant(thread[|thread| - 1]) then Some(|thread| - 1)
    else LastAssistant(thread[..|thread| - 1])
  }

  /** Searching the newest-first listing from the front finds the thread's most recent
      assistant message. */
  lemma {:induction false} FindInListingIsLastAssistant(thread: seq<RemoteMessage>)
    ensures FindAssistant(Reverse(thread)) ==
      match LastAssistant(thread)
      case None => None
      case Some(k) => Some(|thread| - 1 - k)
  {
    if thread != [] {
      var init := thread[..|thread| - 1];
      var listing := Reverse(thread);
      assert listing == [thread[|thread| - 1]] + Reverse(init);
      assert listing[1..] == Reverse(init);
      if !IsAssistant(thread[|thread| - 1]) {
        FindInListingIsLastAssistant(init);
      }
    }
  }

  /** The reply is the text of the thread's most recent assistant message, or the fallback
      when the thread has no assistant message or that message has no text block. */
  lemma ReplyIsMostRecentAssistant(thread: seq<RemoteMessage>)
    ensures LatestReplyText(Reverse(thread)) ==
      match LastAssistant(thread)
      case None => FallbackReply
      case Some(k) => TextOf(thread[k]).GetOr(FallbackReply)
  {
    FindInListingIsLastAssistant(thread);
    match LastAssistant(thread)
    case None =>
    case Some(k) =>
      ReverseAt(thread, |thread| - 1 - k);
  }

  /** When the run adds one assistant text message, that text is the reply. */
  lemma ReplyAfterRun(before: seq<RemoteMessage>, message: string, answer: string)
    ensures LatestReplyText(Reverse(before + [TextMessage("user", message), TextMessage("assistant", answer)])) == answer
  {
    var thread := before + [TextMessage("user", message), TextMessage("assistant", answer)];
    ReplyIsMostRecentAssistant(thread);
  }

  /** When the run on a new thread adds nothing, the reply is the seeded greeting. */
  lemma SilentRunOnNewThreadRepliesGreeting(message: string)
    ensures LatestReplyText(Reverse([Greeting, TextMessage("user", message)])) == SystemPrompt
  {
    var thread := [Greeting, TextMessage("user", message)];
    assert LastAssistant(thread[..1]) == Some(0);
    ReplyIsMostRecentAssistant(thread);
  }

  // ---------------------------------------------------------------------------
  // The remote store

  const ThreadIdPrefix: string := "thread_"

  /** The id the store gives the `k`-th thread it creates. */
  function ThreadId(k: nat): string
  {
    ThreadIdPrefix + NatToString(k)
  }

  /** `id` is the id of one of the first `n` threads created. */
  predicate IssuedBelow(id: string, n: nat)
  {
    |id| > |ThreadIdPrefix| && id[..|ThreadIdPrefix|] == ThreadIdPrefix &&
    IsDigits(id[|ThreadIdPrefix|..]) && DecimalValue(id[|ThreadIdPrefix|..]) < n
  }

  lemma ThreadIdIssuedBelow(k: nat, n: nat)
    ensures IssuedBelow(ThreadId(k), n) <==> k < n
  {
    var id := ThreadId(k);
    assert id[..|ThreadIdPrefix|] == ThreadIdPrefix;
    assert id[|ThreadIdPrefix|..] == NatToString(k);
    DecimalRoundTrip(k);
  }

  class ThreadStore {
    /** Each thread's messages, oldest first. */
    var threads: map<string, seq<RemoteMessage>>
    /** How many threads have been created. */
    var issued: nat

    /** Every thread id was handed out by `CreateThread`. */
    ghost predicate Valid()
      reads this
    {
      forall id :: id in threads ==> IssuedBelow(id, issued)
    }

    constructor ()
      ensures Valid() && threads == map[] && issued == 0
    {
      threads := map[];
      issued := 0;
    }

    /** `threads.create()`: an empty thread under an id no existing thread has. */
    method CreateThread() returns (id: string)
      requires Valid()
      modifies this
      ensures Valid()
      ensures id == ThreadId(old(issued)) && id !in old(threads)
      ensures threads == old(threads)[id := []] && issued == old(issued) + 1
    {
      id := ThreadId(issued);
      ThreadIdIssuedBelow(issued, issued);
      ThreadIdIssuedBelow(issued, issued + 1);
      forall other | other in threads
        ensures IssuedBelow(other, issued + 1)
      {
      }
      threads := threads[id := []];
      issued := issued + 1;
    }

    /** `threads.messages.create(id, ...)`: appends to the thread, and fails (throws) when no
        thread has that id. */
    method AddMessage(id: string, m: RemoteMessage) returns (ok: bool)
      requires Valid()
      modifies this
      ensures Valid() && issued == old(issued)
      ensures ok == (id in old(threads))
      ensures threads == if ok then old(threads)[id := old(threads)[id] + [m]] else old(threads)
    {
      ok := id in threads;
      if ok {
        threads := threads[id := threads[id] + [m]];
      }
    }

    /** A completed run: the messages it produced are added to its thread. */
    method CompleteRun(id: string, output: seq<RemoteMessage>)
      requires Valid() && id in threads
      modifies this
      ensures Valid() && issued == old(issued)
      ensures threads == old(threads)[id := old(threads)[id] + output]
    {
      threads := threads[id := threads[id] + output];
    }

    /** `threads.messages.list(id)`: the thread's messages, newest first. */
    function List(id: string): (r: seq<RemoteMessage>)
      reads this
      requires id in threads
      ensures |r| == |threads[id]|
      ensures forall i :: 0 <= i < |r| ==> r[i] == threads[id][|r| - 1 - i]
    {
      var r := Reverse(threads[id]);
      forall i | 0 <= i < |r|
        ensures r[i] == threads[id][|r| - 1 - i]
      {
        ReverseAt(threads[id], i);
      }
      r
    }
  }

  // ---------------------------------------------------------------------------
  // The handlers

  /** The wait for the run: `statuses[k]` is what the (k+1)-th status query returns. The loop
      stops at the first `completed`; if the given statuses hold none, the loop would go on
      polling forever, and `completed` is false. */
  method PollUntilCompleted(statuses: seq<string>) returns (polls: nat, completed: bool)
    ensures polls <= |statuses|
    ensures completed <==> Completed in statuses
    ensures completed ==> 1 <= polls <= |statuses| && statuses[polls - 1] == Completed
    ensures forall j :: 0 <= j < polls - 1 ==> statuses[j] != Completed
    ensures !completed ==> polls == |statuses|
  {
    if statuses == [] {
      return 0, false;
    }
    var runStatus := statuses[0];
    polls := 1;
    while runStatus != Completed
      invariant 1 <= polls <= |statuses|
      invariant runStatus == statuses[polls - 1]
      invariant forall j :: 0 <= j < polls - 1 ==> statuses[j] != Completed
      decreases |statuses| - polls
    {
      if polls == |statuses| {
        return polls, false;
      }
      runStatus := statuses[polls];
      polls := polls + 1;
    }
    completed := true;
  }

  /** What a run leaves behind in the thread: its messages once it is completed, nothing
      while the request still waits. */
  function RunOutput(statuses: seq<string>, output: seq<RemoteMessage>): seq<RemoteMessage>
  {
    if Completed in statuses then output else []
  }

  /** The thread a POST works on: the given `sessionId` when it is truthy, else the thread
      it creates. */
  function ThreadFor(sessionId: Option<string>, issued: nat): string
  {
    if Truthy(sessionId) then sessionId.value else ThreadId(issued)
  }

  /** The thread's messages before the user's message is added: the existing ones, or just
      the greeting for a new thread. */
  function SeededThread(threads: map<string, seq<RemoteMessage>>, sessionId: Option<string>): seq<RemoteMessage>
  {
    if Truthy(sessionId) && sessionId.value in threads then threads[sessionId.value] else [Greeting]
  }

  /** Lines 17-28: a truthy `sessionId` is the thread id; without one a thread is created and
      the greeting is added to it before anything else. */
  method ResolveThread(store: ThreadStore, sessionId: Option<string>) returns (threadId: string)
    requires store.Valid()
    modifies store
    ensures store.Valid()
    ensures threadId == ThreadFor(sessionId, old(store.issued))
    ensures Truthy(sessionId) ==> store.threads == old(store.threads) && store.issued == old(store.issued)
    ensures !Truthy(sessionId) ==>
      threadId !in old(store.threads) && store.issued == old(store.issued) + 1 &&
      store.threads == old(store.threads)[threadId := [Greeting]]
  {
    if Truthy(sessionId) {
      threadId := sessionId.value;
    } else {
      threadId := store.CreateThread();
      var _ := store.AddMessage(threadId, Greeting);
      assert store.threads[threadId] == [Greeting];
    }
  }

  /** Lines 37-46: start a run on the thread and poll its status until it is `completed`;
      the run's messages are then in the thread. */
  method RunAssistant(store: ThreadStore, threadId: string, statuses: seq<string>, output: seq<RemoteMessage>)
    returns (completed: bool)
    requires store.Valid() && threadId in store.threads
    modifies store
    ensures store.Valid() && store.issued == old(store.issued)
    ensures completed <==> Completed in statuses
    ensures store.threads == old(store.threads)[threadId := old(store.threads)[threadId] + RunOutput(statuses, output)]
  {
    var polls;
    polls, completed := PollUntilCompleted(statuses);
    if completed {
      store.CompleteRun(threadId, output);
    } else {
      assert old(store.threads)[threadId] + RunOutput(statuses, output) == old(store.threads)[threadId];
    }
  }

  /** Lines 49-57: list the thread and take the reply from the newest assistant message. */
  method ReplyText(store: ThreadStore, threadId: string) returns (reply: string)
    requires threadId in store.threads
    ensures reply == LatestReplyText(Reverse(store.threads[threadId]))
    ensures reply == match LastAssistant(store.threads[threadId])
      case None => FallbackReply
      case Some(k) => TextOf(store.threads[threadId][k]).GetOr(FallbackReply)
  {
    var messages := store.List(threadId);
    reply := LatestReplyText(messages);
    ReplyIsMostRecentAssistant(store.threads[threadId]);
  }

  /** Lines 31-57 on a resolved thread id: append the user's message (which throws for an
      unknown id, changing nothing), run the assistant, and reply with the newest assistant
      text once the run is completed. */
  method Converse(store: ThreadStore, threadId: string, message: string, statuses: seq<string>,
                  output: seq<RemoteMessage>)
    returns (resp: PostResponse)
    requires store.Valid()
    modifies store
    ensures store.Valid() && store.issued == old(store.issued)
    ensures resp.Crashed? <==> threadId !in old(store.threads)
    ensures resp.Crashed? ==> store.threads == old(store.threads)
    ensures !resp.Crashed? ==>
      store.threads == old(store.threads)[threadId := old(store.threads)[threadId] +
        [TextMessage("user", message)] + RunOutput(statuses, output)]
    ensures !resp.Crashed? ==>
      resp == if Completed in statuses then Replied(LatestReplyText(Reverse(store.threads[threadId])), threadId)
              else Hanging
  {
    var ok := store.AddMessage(threadId, TextMessage("user", message));
    if !ok {
      return Crashed;
    }
    var completed := RunAssistant(store, threadId, statuses, output);
    if !completed {
      return Hanging;
    }
    var reply := ReplyText(store, threadId);
    resp := Replied(reply, threadId);
  }

  /** POST: resolve the thread (or create one and seed it with the greeting), append the
      user's message, run the assistant and wait for `completed`, then reply with the newest
      assistant text. `statuses` and `output` stand for the run. Adding a message to a
      thread id the store does not know throws, and nothing is changed. */
  method Post(store: ThreadStore, req: PostRequest, statuses: seq<string>, output: seq<RemoteMessage>)
    returns (resp: PostResponse)
    requires store.Valid()
    modifies store
    ensures store.Valid()
    ensures resp.Crashed? <==> Truthy(req.sessionId) && req.sessionId.value !in old(store.threads)
    ensures resp.Crashed? ==> store.threads == old(store.threads) && store.issued == old(store.issued)
    ensures !Truthy(req.sessionId) ==>
      ThreadFor(req.sessionId, old(store.issued)) !in old(store.threads) &&
      store.issued == old(store.issued) + 1
    ensures Truthy(req.sessionId) ==> store.issued == old(store.issued)
    ensures !resp.Crashed? ==>
      var id := ThreadFor(req.sessionId, old(store.issued));
      store.threads == old(store.threads)[id := SeededThread(old(store.threads), req.sessionId) +
        [TextMessage("user", req.message)] + RunOutput(statuses, output)] &&
      resp == if Completed in statuses then Replied(LatestReplyText(Reverse(store.threads[id])), id)
              else Hanging
  {
    var threadId := ResolveThread(store, req.sessionId);
    resp := Converse(store, threadId, req.message, statuses, output);
  }

  /** GET: 400 without a `sessionId`; 500 when the listing fails (an unknown thread, or the
      service failing, `upstreamFails`); otherwise the thread as a chronological transcript. */
  method Get(store: ThreadStore, sessionId: Option<string>, upstreamFails: bool) returns (resp: GetResponse)
    ensures !Truthy(sessionId) ==> resp == GetResponse(400, ErrorBody(MissingSessionId))
    ensures Truthy(sessionId) && (upstreamFails || sessionId.value !in store.threads) ==>
      resp == GetResponse(500, ErrorBody(CouldNotFetch))
    ensures Truthy(sessionId) && !upstreamFails && sessionId.value in store.threads ==>
      var thread := store.threads[sessionId.value];
      resp.status == 200 && resp.body.Messages? && |resp.body.messages| == |thread| &&
      forall i :: 0 <= i < |thread| ==> resp.body.messages[i] == ToChat(thread[i])
  {
    if !Truthy(sessionId) {
      return GetResponse(400, ErrorBody(MissingSessionId));
    }
    var id := sessionId.value;
    if upstreamFails || id !in store.threads {
      return GetResponse(500, ErrorBody(CouldNotFetch));
    }
    var data := store.List(id);
    TranscriptIsChronological(store.threads[id]);
    resp := GetResponse(200, Messages(Transcript(data)));
  }
}
