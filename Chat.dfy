/**
 * The chat page (fe/src/pages/Chat.jsx): a transcript of messages, an input
 * draft and the `isTyping` / `isAutoTyping` flags, driven by `handleSend`,
 * `typeIntoInput` and the interval and timeout callbacks they start. Each
 * callback firing is a method call here; the fetch result is a parameter of
 * the call that delivers it.
 */
module Chat {
  import opened Wrappers
  import opened Text
  import Api

  datatype Sender = User | Bot

  /** `{id, sender, text}`; ids are fresh naturals instead of `Date.now() + Math.random()`. */
  datatype Message = Message(id: nat, sender: Sender, text: string)

  /** The text that replaces the bot placeholder when the request throws. */
  const BackendError := "Error: unable to reach backend."

  /** What `handleSend` submits for a draft: nothing when the draft is blank
      (`!message.trim()`), otherwise the trimmed draft. */
  function SendText(draft: string): (sent: Option<string>)
    ensures sent.None? <==> Trim(draft) == ""
    ensures sent.Some? ==> sent.value == Trim(draft)
  {
    var t := Trim(draft);
    if t == "" then None else Some(t)
  }

  /** A draft is refused exactly when it is all whitespace; what is sent is
      the non-empty trimmed draft, with no whitespace at either end. */
  lemma SendTextRefusesBlank(draft: string)
    ensures SendText(draft).None? <==> AllJsSpace(draft)
    ensures SendText(draft).Some? ==>
      SendText(draft).value == Trim(draft) && SendText(draft).value != "" && IsTrimmed(SendText(draft).value)
  {
    TrimBlankIffAllSpace(draft);
    var _ := TrimIsInfix(draft);
  }

  /** The reply that gets revealed: `data.text || ""`. */
  function ReplyText(reply: Api.ChatReply): (r: string)
    ensures reply.text.None? ==> r == ""
    ensures reply.text.Some? ==> r == reply.text.value
  {
    reply.text.GetOr("")
  }

  /** `ms.map(it => it.id === id ? {...it, text} : it)` (`PatchTextAt` states its effect). */
  function PatchText(ms: seq<Message>, id: nat, text: string): (r: seq<Message>)
    ensures |r| == |ms|
  {
    if ms == [] then []
    else [if ms[0].id == id then ms[0].(text := text) else ms[0]] + PatchText(ms[1..], id, text)
  }

  /** Every message keeps its position, id and sender; those with id `id` get
      `text`, all others are left exactly as they were. */
  lemma {:induction false} PatchTextAt(ms: seq<Message>, id: nat, text: string)
    ensures forall k :: 0 <= k < |ms| ==>
      var r := PatchText(ms, id, text);
      && r[k].id == ms[k].id && r[k].sender == ms[k].sender
      && (ms[k].id == id ==> r[k].text == text)
      && (ms[k].id != id ==> r[k] == ms[k])
  {
    if ms != [] {
      PatchTextAt(ms[1..], id, text);
      var r := PatchText(ms, id, text);
      assert r[1..] == PatchText(ms[1..], id, text);
      forall k | 1 <= k < |ms| ensures r[k] == PatchText(ms[1..], id, text)[k - 1] && ms[k] == ms[1..][k - 1] {
      }
    }
  }

  /** Patching messages that already show `text` changes nothing. */
  lemma PatchShown(ms: seq<Message>, id: nat, text: string)
    requires forall k :: 0 <= k < |ms| && ms[k].id == id ==> ms[k].text == text
    ensures PatchText(ms, id, text) == ms
  {
    PatchTextAt(ms, id, text);
    var r := PatchText(ms, id, text);
    assert forall k :: 0 <= k < |ms| ==> r[k] == ms[k];
  }

  /** Only the last patch of the same id is visible. */
  lemma PatchTwice(ms: seq<Message>, id: nat, a: string, b: string)
    ensures PatchText(PatchText(ms, id, a), id, b) == PatchText(ms, id, b)
  {
    PatchTextAt(ms, id, a);
    PatchTextAt(ms, id, b);
    PatchTextAt(PatchText(ms, id, a), id, b);
    var r, r' := PatchText(PatchText(ms, id, a), id, b), PatchText(ms, id, b);
    assert forall k :: 0 <= k < |ms| ==> r[k] == r'[k];
  }

  /** A running reveal: `fullText` is revealed up to `i` characters. */
  datatype Reveal = Reveal(fullText: string, i: nat)

  /** A running `typeIntoInput` interval. */
  datatype Fill = Fill(example: string, autoSend: bool, i: nat)

  /** An interval at count `i` over `s` is still scheduled: it clears itself on
      the tick that reaches `|s|`, and the first tick always fires. */
  predicate Running(s: string, i: nat) {
    i == 0 || i < |s|
  }

  /** Message ids increase along the transcript and stay below the next fresh id. */
  ghost predicate FreshIds(ms: seq<Message>, nextId: nat) {
    && (forall k :: 0 <= k < |ms| ==> ms[k].id < nextId)
    && (forall k :: 0 < k < |ms| ==> ms[k - 1].id < ms[k].id)
  }

  /** Increasing ids are distinct: patching by id touches one message at most. */
  lemma {:induction false} IdsDistinct(ms: seq<Message>, nextId: nat, j: nat, k: nat)
    requires FreshIds(ms, nextId) && j < k < |ms|
    ensures ms[j].id < ms[k].id
    decreases k - j
  {
    if j + 1 < k {
      IdsDistinct(ms, nextId, j + 1, k);
    }
  }

  /** What the message at position k must show: an unanswered request's
      placeholder is an empty bot message, and a running reveal's placeholder
      is a bot message showing exactly the revealed prefix of the reply. */
  ghost predicate ShowsState(m: Message, awaiting: map<nat, string>, revealing: map<nat, Reveal>) {
    && (m.id in awaiting ==> m.sender == Bot && m.text == "")
    && (m.id in revealing ==> m.sender == Bot && m.text == Slice(revealing[m.id].fullText, revealing[m.id].i))
  }

  /** The placeholders of pending requests and running reveals, whose ids are
      all below the next fresh id and are never both pending and revealing. */
  ghost predicate Placeholders(ms: seq<Message>, nextId: nat, awaiting: map<nat, string>, revealing: map<nat, Reveal>) {
    && awaiting.Keys !! revealing.Keys
    && (forall id :: id in awaiting ==> id < nextId)
    && (forall id :: id in revealing ==> id < nextId && Running(revealing[id].fullText, revealing[id].i))
    && (forall k :: 0 <= k < |ms| ==> ShowsState(ms[k], awaiting, revealing))
  }

  /** The two messages `handleSend` appends carry the next two fresh ids. */
  lemma SendKeepsFreshIds(ms: seq<Message>, nextId: nat, text: string)
    requires FreshIds(ms, nextId)
    ensures FreshIds(ms + [Message(nextId, User, text), Message(nextId + 1, Bot, "")], nextId + 2)
  {
  }

  /** After `handleSend` the new placeholder is pending and every older
      placeholder still shows what it showed. */
  lemma SendKeepsPlaceholders(ms: seq<Message>, nextId: nat, text: string,
                              awaiting: map<nat, string>, revealing: map<nat, Reveal>)
    requires FreshIds(ms, nextId) && Placeholders(ms, nextId, awaiting, revealing)
    ensures Placeholders(ms + [Message(nextId, User, text), Message(nextId + 1, Bot, "")],
                         nextId + 2, awaiting[nextId + 1 := text], revealing)
  {
    var ms' := ms + [Message(nextId, User, text), Message(nextId + 1, Bot, "")];
    var aw' := awaiting[nextId + 1 := text];
    forall k | 0 <= k < |ms'| ensures ShowsState(ms'[k], aw', revealing) {
      if k < |ms| {
        assert ms'[k] == ms[k];
        assert ShowsState(ms[k], awaiting, revealing);
      }
    }
  }

  /** Overwriting the text of `id`, whose placeholder is no longer tracked,
      keeps the ids and every tracked placeholder as they were. */
  lemma PatchKeepsInvariant(ms: seq<Message>, nextId: nat, id: nat, text: string,
                            awaiting: map<nat, string>, revealing: map<nat, Reveal>)
    requires FreshIds(ms, nextId) && Placeholders(ms, nextId, awaiting, revealing)
    requires id !in awaiting && id !in revealing
    ensures FreshIds(PatchText(ms, id, text), nextId)
    ensures Placeholders(PatchText(ms, id, text), nextId, awaiting, revealing)
  {
    var ms' := PatchText(ms, id, text);
    PatchTextAt(ms, id, text);
    forall k | 0 <= k < |ms'| ensures ShowsState(ms'[k], awaiting, revealing) {
      assert ShowsState(ms[k], awaiting, revealing);
    }
  }

  /** The bot placeholder at each position with id `id` shows `shown`, and
      the tracked placeholders are as before apart from `id`'s. */
  lemma RetrackKeepsPlaceholders(ms: seq<Message>, nextId: nat, id: nat, shown: string, r: Reveal,
                                 awaiting: map<nat, string>, revealing: map<nat, Reveal>)
    requires Placeholders(ms, nextId, awaiting, revealing)
    requires id < nextId && id !in awaiting && Running(r.fullText, r.i) && Slice(r.fullText, r.i) == shown
    requires forall k :: 0 <= k < |ms| && ms[k].id == id ==> ms[k].sender == Bot && ms[k].text == shown
    ensures Placeholders(ms, nextId, awaiting, revealing[id := r])
  {
    forall k | 0 <= k < |ms| ensures ShowsState(ms[k], awaiting, revealing[id := r]) {
      assert ShowsState(ms[k], awaiting, revealing);
    }
  }

  /** A request that is answered is no longer awaited. */
  lemma DropAwaiting(ms: seq<Message>, nextId: nat, id: nat,
                     awaiting: map<nat, string>, revealing: map<nat, Reveal>)
    requires Placeholders(ms, nextId, awaiting, revealing)
    ensures Placeholders(ms, nextId, awaiting - {id}, revealing)
  {
    forall k | 0 <= k < |ms| ensures ShowsState(ms[k], awaiting - {id}, revealing) {
      assert ShowsState(ms[k], awaiting, revealing);
    }
  }

  /** One reveal tick keeps the invariant: the placeholder shows one more
      character of the reply, which extends what it showed (strictly, for a
      non-empty reply), and the reveal is tracked until the reply is shown. */
  lemma RevealStep(ms: seq<Message>, nextId: nat, id: nat,
                   awaiting: map<nat, string>, revealing: map<nat, Reveal>)
    requires FreshIds(ms, nextId) && Placeholders(ms, nextId, awaiting, revealing) && id in revealing
    ensures var r := revealing[id];
      var ms' := PatchText(ms, id, Slice(r.fullText, r.i + 1));
      && FreshIds(ms', nextId)
      && Placeholders(ms', nextId, awaiting,
           if r.i + 1 >= |r.fullText| then revealing - {id} else revealing[id := Reveal(r.fullText, r.i + 1)])
      && (forall k :: 0 <= k < |ms| && ms[k].id == id ==>
            && ms[k].text <= ms'[k].text
            && (r.fullText != "" ==> |ms[k].text| < |ms'[k].text|))
  {
    var r := revealing[id];
    var i := r.i + 1;
    var partial := Slice(r.fullText, i);
    var rest := revealing - {id};
    forall k | 0 <= k < |ms| ensures ShowsState(ms[k], awaiting, rest) && (ms[k].id == id ==> ms[k].sender == Bot && ms[k].text == Slice(r.fullText, r.i)) {
      assert ShowsState(ms[k], awaiting, revealing);
    }
    PatchKeepsInvariant(ms, nextId, id, partial, awaiting, rest);
    PatchTextAt(ms, id, partial);
    SliceMonotone(r.fullText, r.i, i);
    var ms' := PatchText(ms, id, partial);
    if i < |r.fullText| {
      RetrackKeepsPlaceholders(ms', nextId, id, partial, Reveal(r.fullText, i), awaiting, rest);
      assert rest[id := Reveal(r.fullText, i)] == revealing[id := Reveal(r.fullText, i)];
    }
  }

  class ChatPage {
    var messages: seq<Message>
    var draft: string
    var isTyping: bool
    var isAutoTyping: bool
    /** Bot placeholder id -> text sent, for each request not yet answered. */
    var awaiting: map<nat, string>
    /** Bot placeholder id -> reveal, for each reply interval still running. */
    var revealing: map<nat, Reveal>
    /** The example-typing interval, if running. */
    var fill: Option<Fill>
    /** Auto-send timeouts scheduled and not yet fired. */
    var scheduledSends: nat
    /** Next fresh message id. */
    var nextId: nat

    ghost predicate Valid()
      reads this
    {
      && FreshIds(messages, nextId)
      && Placeholders(messages, nextId, awaiting, revealing)
      && (isAutoTyping <==> fill.Some?)
      && (fill.Some? ==> Running(fill.value.example, fill.value.i))
    }

    constructor ()
      ensures Valid()
      ensures messages == [] && draft == "" && !isTyping && !isAutoTyping
      ensures awaiting == map[] && revealing == map[] && fill == None && scheduledSends == 0 && nextId == 0
    {
      messages, draft := [], "";
      isTyping, isAutoTyping := false, false;
      awaiting, revealing, fill := map[], map[], None;
      scheduledSends, nextId := 0, 0;
    }

    /**
     * `handleSend`: a blank draft changes nothing; otherwise a user message
     * with the trimmed draft and an empty bot placeholder are appended, the
     * draft is cleared, `isTyping` is set and the request carrying exactly the
     * trimmed text is outstanding. It does not look at `isTyping` itself.
     */
    method HandleSend() returns (sent: Option<string>)
      requires Valid()
      modifies this
      ensures Valid()
      ensures sent == SendText(old(draft))
      ensures sent.None? ==> unchanged(this)
      ensures sent.Some? ==>
        && messages == old(messages) + [Message(old(nextId), User, sent.value), Message(old(nextId) + 1, Bot, "")]
        && draft == "" && isTyping && nextId == old(nextId) + 2
        && awaiting == old(awaiting)[old(nextId) + 1 := sent.value]
        && revealing == old(revealing) && fill == old(fill)
        && isAutoTyping == old(isAutoTyping) && scheduledSends == old(scheduledSends)
    {
      sent := SendText(draft);
      if sent.None? {
        return;
      }
      var text, botId := sent.value, nextId + 1;
      SendKeepsFreshIds(messages, nextId, text);
      SendKeepsPlaceholders(messages, nextId, text, awaiting, revealing);
      // the user message, the cleared draft, then the bot placeholder
      messages, draft := messages + [Message(nextId, User, text), Message(botId, Bot, "")], "";
      awaiting, nextId, isTyping := awaiting[botId := text], nextId + 2, true;
    }

    /** The Send button and the Enter key: both are disabled while `isTyping`,
        and otherwise run `handleSend`. */
    method PressSend() returns (sent: Option<string>)
      requires Valid()
      modifies this
      ensures Valid()
      ensures old(isTyping) ==> sent.None? && unchanged(this)
      ensures !old(isTyping) ==> sent == SendText(old(draft))
      ensures !old(isTyping) && sent.None? ==> unchanged(this)
      ensures !old(isTyping) && sent.Some? ==>
        && messages == old(messages) + [Message(old(nextId), User, sent.value), Message(old(nextId) + 1, Bot, "")]
        && draft == "" && isTyping && nextId == old(nextId) + 2
        && awaiting == old(awaiting)[old(nextId) + 1 := sent.value]
        && revealing == old(revealing) && fill == old(fill)
        && isAutoTyping == old(isAutoTyping) && scheduledSends == old(scheduledSends)
    {
      if isTyping {
        return None;
      }
      sent := HandleSend();
    }

    /** A keystroke in the input; a disabled input (while `isTyping`) receives none. */
    method EditDraft(text: string)
      requires Valid()
      modifies this
      ensures Valid()
      ensures draft == if old(isTyping) then old(draft) else text
      ensures messages == old(messages) && isTyping == old(isTyping) && isAutoTyping == old(isAutoTyping)
      ensures awaiting == old(awaiting) && revealing == old(revealing) && fill == old(fill)
      ensures scheduledSends == old(scheduledSends) && nextId == old(nextId)
    {
      if !isTyping {
        draft := text;
      }
    }

    /**
     * The awaited `fetch` for placeholder `botId` settles. A parsed body starts
     * the reveal of `data.text || ""` at 0 characters (the response status is
     * not consulted); a thrown error overwrites the placeholder with the fixed
     * error text and clears `isTyping`, with no reveal.
     */
    method Respond(botId: nat, reply: Api.Fetched<Api.ChatReply>)
      requires Valid() && botId in awaiting
      modifies this
      ensures Valid()
      ensures awaiting == old(awaiting) - {botId}
      ensures reply.Parsed? ==>
        && revealing == old(revealing)[botId := Reveal(ReplyText(reply.body), 0)]
        && messages == old(messages) && isTyping == old(isTyping)
      ensures reply.Threw? ==>
        && messages == PatchText(old(messages), botId, BackendError)
        && !isTyping && revealing == old(revealing)
      ensures draft == old(draft) && isAutoTyping == old(isAutoTyping) && fill == old(fill)
      ensures scheduledSends == old(scheduledSends) && nextId == old(nextId)
    {
      var rest := awaiting - {botId};
      DropAwaiting(messages, nextId, botId, awaiting, revealing);
      match reply
      case Parsed(_, body) =>
        var r := Reveal(ReplyText(body), 0);
        forall k | 0 <= k < |messages| && messages[k].id == botId
          ensures messages[k].sender == Bot && messages[k].text == ""
        {
          assert ShowsState(messages[k], awaiting, revealing);
        }
        RetrackKeepsPlaceholders(messages, nextId, botId, "", r, rest, revealing);
        awaiting, revealing := rest, revealing[botId := r];
      case Threw =>
        PatchKeepsInvariant(messages, nextId, botId, BackendError, rest, revealing);
        awaiting, messages := rest, PatchText(messages, botId, BackendError);
        isTyping := false;
    }

    /**
     * One tick of the reply interval for `botId`: the placeholder shows the
     * first i+1 characters of the reply, which extends what it showed before;
     * when that reaches the reply's length the interval is cleared and
     * `isTyping` becomes false.
     */
    method RevealTick(botId: nat)
      requires Valid() && botId in revealing
      modifies this
      ensures Valid()
      ensures var r := old(revealing[botId]);
        && messages == PatchText(old(messages), botId, Slice(r.fullText, r.i + 1))
        && (r.i + 1 >= |r.fullText| ==> Slice(r.fullText, r.i + 1) == r.fullText && revealing == old(revealing) - {botId} && !isTyping)
        && (r.i + 1 < |r.fullText| ==> revealing == old(revealing)[botId := Reveal(r.fullText, r.i + 1)] && isTyping == old(isTyping))
      ensures awaiting == old(awaiting) && draft == old(draft) && isAutoTyping == old(isAutoTyping)
      ensures fill == old(fill) && scheduledSends == old(scheduledSends) && nextId == old(nextId)
    {
      var r := revealing[botId];
      var i := r.i + 1;
      RevealStep(messages, nextId, botId, awaiting, revealing);
      messages := PatchText(messages, botId, Slice(r.fullText, i));
      if i >= |r.fullText| {
        revealing, isTyping := revealing - {botId}, false;
      } else {
        revealing := revealing[botId := Reveal(r.fullText, i)];
      }
    }

    /**
     * The reply interval of `botId` left to run until it clears itself, with
     * nothing else firing in between: the placeholder ends showing the whole
     * reply, the reveal is over and `isTyping` is false.
     */
    method RunReveal(botId: nat)
      requires Valid() && botId in revealing
      modifies this
      ensures Valid()
      ensures messages == PatchText(old(messages), botId, old(revealing[botId].fullText))
      ensures revealing == old(revealing) - {botId} && !isTyping
      ensures awaiting == old(awaiting) && draft == old(draft) && isAutoTyping == old(isAutoTyping)
      ensures fill == old(fill) && scheduledSends == old(scheduledSends) && nextId == old(nextId)
    {
      var full := revealing[botId].fullText;
      var others := revealing - {botId};
      forall k | 0 <= k < |messages| && messages[k].id == botId
        ensures messages[k].text == Slice(full, revealing[botId].i)
      {
        assert ShowsState(messages[k], awaiting, revealing);
      }
      PatchShown(messages, botId, Slice(full, revealing[botId].i));
      while botId in revealing
        invariant Valid()
        invariant botId in revealing ==> revealing == others[botId := Reveal(full, revealing[botId].i)]
        invariant botId !in revealing ==> revealing == others && !isTyping
        invariant messages == PatchText(old(messages), botId,
                                        if botId in revealing then Slice(full, revealing[botId].i) else full)
        invariant awaiting == old(awaiting) && draft == old(draft) && isAutoTyping == old(isAutoTyping)
        invariant fill == old(fill) && scheduledSends == old(scheduledSends) && nextId == old(nextId)
        decreases if botId in revealing then |full| + 1 - revealing[botId].i else 0
      {
        ghost var i := revealing[botId].i;
        RevealTick(botId);
        PatchTwice(old(messages), botId, Slice(full, i), Slice(full, i + 1));
      }
    }

    /**
     * `typeIntoInput(example, autoSend)`: ignored while `isTyping` or
     * `isAutoTyping`; otherwise sets `isAutoTyping`, clears the draft and
     * starts the example-typing interval.
     */
    method TypeIntoInput(example: string, autoSend: bool)
      requires Valid()
      modifies this
      ensures Valid()
      ensures old(isTyping || isAutoTyping) ==> unchanged(this)
      ensures !old(isTyping || isAutoTyping) ==>
        && isAutoTyping && draft == "" && fill == Some(Fill(example, autoSend, 0))
        && messages == old(messages) && isTyping == old(isTyping)
        && awaiting == old(awaiting) && revealing == old(revealing)
        && scheduledSends == old(scheduledSends) && nextId == old(nextId)
    {
      if isTyping || isAutoTyping {
        return;
      }
      isAutoTyping := true;
      draft := "";
      fill := Some(Fill(example, autoSend, 0));
    }

    /**
     * One tick of the example-typing interval: the draft becomes the first
     * i+1 characters of the example; on reaching its length the interval is
     * cleared, `isAutoTyping` becomes false and, with `autoSend`, one send is
     * scheduled.
     */
    method FillTick()
      requires Valid() && fill.Some?
      modifies this
      ensures Valid()
      ensures var f := old(fill.value);
        && draft == Slice(f.example, f.i + 1)
        && (f.i + 1 >= |f.example| ==>
              && draft == f.example && fill == None && !isAutoTyping
              && scheduledSends == old(scheduledSends) + (if f.autoSend then 1 else 0))
        && (f.i + 1 < |f.example| ==>
              fill == Some(f.(i := f.i + 1)) && isAutoTyping && scheduledSends == old(scheduledSends))
      ensures messages == old(messages) && isTyping == old(isTyping) && awaiting == old(awaiting)
      ensures revealing == old(revealing) && nextId == old(nextId)
    {
      var f := fill.value;
      var i := f.i + 1;
      draft := Slice(f.example, i);
      if i >= |f.example| {
        fill := None;
        isAutoTyping := false;
        if f.autoSend {
          scheduledSends := scheduledSends + 1;
        }
      } else {
        fill := Some(f.(i := i));
      }
    }

    /**
     * The example-typing interval left to run until it clears itself, with
     * nothing else firing in between: the draft ends as the whole example and
     * one send is scheduled when `autoSend` was asked for.
     */
    method RunFill()
      requires Valid() && fill.Some?
      modifies this
      ensures Valid()
      ensures draft == old(fill.value.example) && fill == None && !isAutoTyping
      ensures scheduledSends == old(scheduledSends) + if old(fill.value.autoSend) then 1 else 0
      ensures messages == old(messages) && isTyping == old(isTyping) && awaiting == old(awaiting)
      ensures revealing == old(revealing) && nextId == old(nextId)
    {
      var f := fill.value;
      while fill.Some?
        invariant Valid()
        invariant fill.Some? ==> fill.value.example == f.example && fill.value.autoSend == f.autoSend
        invariant fill.None? ==> draft == f.example
        invariant scheduledSends == old(scheduledSends) + if fill.None? && f.autoSend then 1 else 0
        invariant messages == old(messages) && isTyping == old(isTyping) && awaiting == old(awaiting)
        invariant revealing == old(revealing) && nextId == old(nextId)
        decreases if fill.Some? then |f.example| + 1 - fill.value.i else 0
      {
        FillTick();
      }
    }

    /**
     * A scheduled auto-send fires and runs `handleSend` on the draft as it is
     * now. (The source's callback reads an older draft; see `StaleAutoSend`.)
     */
    method AutoSendTimeout() returns (sent: Option<string>)
      requires Valid() && scheduledSends > 0
      modifies this
      ensures Valid()
      ensures scheduledSends == old(scheduledSends) - 1
      ensures sent == SendText(old(draft))
      ensures sent.None? ==>
        && messages == old(messages) && draft == old(draft) && isTyping == old(isTyping)
        && awaiting == old(awaiting) && nextId == old(nextId)
      ensures sent.Some? ==>
        && messages == old(messages) + [Message(old(nextId), User, sent.value), Message(old(nextId) + 1, Bot, "")]
        && draft == "" && isTyping && nextId == old(nextId) + 2
        && awaiting == old(awaiting)[old(nextId) + 1 := sent.value]
      ensures revealing == old(revealing) && fill == old(fill) && isAutoTyping == old(isAutoTyping)
    {
      scheduledSends := scheduledSends - 1;
      sent := HandleSend();
    }
  }

  /**
   * What the auto-send submits in the source as written: the `handleSend` its
   * timeout calls belongs to the render in which the example button was
   * clicked, so it trims the draft of that moment, whatever was typed since.
   */
  function StaleAutoSend(draftAtClick: string): (sent: Option<string>)
    ensures sent.None? <==> AllJsSpace(draftAtClick)
    ensures sent.Some? ==> sent.value == Trim(draftAtClick)
  {
    SendTextRefusesBlank(draftAtClick);
    SendText(draftAtClick)
  }

  /** Clicking an example with an empty input auto-types it and then sends
      nothing, where the typed example should have been sent. */
  lemma StaleAutoSendDropsExample(example: string)
    requires Trim(example) != ""
    ensures StaleAutoSend("") == None
    ensures SendText(example) == Some(Trim(example))
  {
  }

  /**
   * One whole turn started from an example button: on a fresh page the
   * example is typed into the draft, auto-sent, answered with `reply` and
   * revealed; the transcript ends as exactly the trimmed example from the
   * user and the full reply from the bot, and `isTyping` ends false.
   */
  method ExampleTurn(example: string, reply: string) returns (transcript: seq<Message>, typing: bool)
    requires Trim(example) != ""
    ensures transcript == [Message(0, User, Trim(example)), Message(1, Bot, reply)]
    ensures !typing
  {
    var page := new ChatPage();
    page.TypeIntoInput(example, true);
    page.RunFill();
    var sent := page.AutoSendTimeout();
    var user := Message(0, User, Trim(example));
    assert page.messages == [user, Message(1, Bot, "")];
    page.Respond(1, Api.Parsed(true, Api.ChatReply(Some(reply))));
    page.RunReveal(1);
    assert page.messages == [user, Message(1, Bot, reply)];
    transcript, typing := page.messages, page.isTyping;
  }
}
