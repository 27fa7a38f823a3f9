/**
 * The chat panel (src/ts/components/Chat.tsx): it sends the conversation to the chat server,
 * reads back a growing text buffer of JSON lines, and merges what it can parse into the
 * rendered message list while queueing the host events the server asks for.
 *
 * `JSON.parse` is the oracle `parse` (`None` where it throws). The network, the decoder, the
 * clock behind the 50 ms throttle and the timers behind the 100 ms event spacing are left to
 * the caller: a turn is driven by `StartTurn`, one `ReceiveChunk` per chunk (told whether the
 * throttle lets the line-by-line pass run), and `FinishTurn` or `StreamFailed` at the end.
 */
module Chat {
  import opened Wrappers
  import opened JsonValues
  import opened Strings

  // ---------------------------------------------------------------------------------------
  // Messages

  /** A rendered chat bubble (`toChatMessage`'s result, without its timestamp and avatar). */
  datatype ChatMessage =
    | AssistantText(content: Option<Json>)   // shown as Markdown
    | UserText(content: Option<Json>)
    | PhotoItem(data: Json)
    | FileItem(data: Json)
    | SystemText(content: Option<Json>)

  function Position(c: ChatMessage): string {
    if c.AssistantText? || c.PhotoItem? || c.FileItem? then "left" else "right"
  }

  function Kind(c: ChatMessage): string {
    match c
    case AssistantText(_) => "text"
    case UserText(_) => "text"
    case PhotoItem(_) => "photo"
    case FileItem(_) => "file"
    case SystemText(_) => "system"
  }

  /** `message.role === role`. */
  predicate HasRole(m: Json, role: string) {
    Get(m, "role") == Some(Str(role))
  }

  /** The roles whose messages are rendered while streaming. */
  predicate IsRecord(m: Json) {
    HasRole(m, "assistant") || HasRole(m, "photo") || HasRole(m, "file")
  }

  /** The attachment shown when a photo or file message has no `data`. */
  const NoAttachment: Json := Obj(map["size" := Num(0), "url" := Str("")])

  /** `("data" in message) ? message.data : {size: 0, url: ""}`. */
  function Attachment(m: Json): Json {
    if m.Obj? && "data" in m.fields then m.fields["data"] else NoAttachment
  }

  /** `toChatMessage`: assistant, photo and file messages on the left, user and any other
      role on the right; assistant and user as text, unknown roles as system text. */
  function ToChatMessage(m: Json): (c: ChatMessage)
    ensures Position(c) == "left" <==> IsRecord(m)
    ensures Kind(c) == "text" <==> HasRole(m, "assistant") || HasRole(m, "user")
    ensures Kind(c) == "system" <==> !IsRecord(m) && !HasRole(m, "user")
    ensures c.PhotoItem? <==> HasRole(m, "photo")
    ensures c.FileItem? <==> HasRole(m, "file")
    ensures c.AssistantText? || c.UserText? || c.SystemText? ==> c.content == Get(m, "content")
    ensures c.PhotoItem? || c.FileItem? ==>
              m.Obj? && c.data == if "data" in m.fields then m.fields["data"] else Obj(map["size" := Num(0), "url" := Str("")])
  {
    if HasRole(m, "assistant") then AssistantText(Get(m, "content"))
    else if HasRole(m, "user") then UserText(Get(m, "content"))
    else if HasRole(m, "photo") then PhotoItem(Attachment(m))
    else if HasRole(m, "file") then FileItem(Attachment(m))
    else SystemText(Get(m, "content"))
  }

  /** A history entry `{ role, content }`; an `undefined` content is not serialised. */
  function Entry(role: string, content: Option<Json>): Json {
    Obj(map["role" := Str(role)] + if content.Some? then map["content" := content.value] else map[])
  }

  /** A host event `{ dashpoolEvent: content }` or `{ nodeChangeEvent: content }`. */
  datatype Event = DashpoolEvent(content: Option<Json>) | NodeChangeEvent(content: Option<Json>)

  /** The event a message of role `dashpoolEvent` or `nodeChangeEvent` asks for. */
  function EventOf(m: Json): Event {
    if HasRole(m, "dashpoolEvent") then DashpoolEvent(Get(m, "content")) else NodeChangeEvent(Get(m, "content"))
  }

  predicate IsEvent(m: Json) {
    HasRole(m, "dashpoolEvent") || HasRole(m, "nodeChangeEvent")
  }

  // ---------------------------------------------------------------------------------------
  // Preparing a candidate line

  /** JavaScript's `\s`: the white-space and line-terminator characters. */
  predicate IsSpace(c: char) {
    c == '\t' || c == '\n' || c == '\U{000B}' || c == '\U{000C}' || c == '\r' || c == ' '
    || c == '\U{00A0}' || c == '\U{1680}' || ('\U{2000}' <= c <= '\U{200A}')
    || c == '\U{2028}' || c == '\U{2029}' || c == '\U{202F}' || c == '\U{205F}'
    || c == '\U{3000}' || c == '\U{FEFF}'
  }

  /** `/,\s*$/` matches at `k`: a comma followed by nothing but white space. */
  predicate CommaTail(s: string, k: nat) {
    k < |s| && s[k] == ',' && forall j | k < j < |s| :: IsSpace(s[j])
  }

  /** The index of the last character that is not white space. */
  function LastNonSpace(s: string): (k: Option<nat>)
    ensures k.Some? ==> k.value < |s| && !IsSpace(s[k.value]) && forall j | k.value < j < |s| :: IsSpace(s[j])
    ensures k.None? ==> forall j | 0 <= j < |s| :: IsSpace(s[j])
    decreases |s|
  {
    if s == [] then None
    else if !IsSpace(s[|s| - 1]) then Some(|s| - 1)
    else LastNonSpace(s[..|s| - 1])
  }

  /** `s.replace(/,\s*$/, '')`: the comma and the white space after it go when the regular
      expression matches (it can match at one place only); otherwise `s` is unchanged, trailing
      white space included. */
  function StripTrailingComma(s: string): (r: string)
    ensures (exists k: nat :: CommaTail(s, k)) ==> |r| < |s| && CommaTail(s, |r|) && r == s[..|r|]
    ensures (forall k: nat :: !CommaTail(s, k)) ==> r == s
  {
    match LastNonSpace(s)
    case Some(k) => if s[k] == ',' then assert CommaTail(s, k); s[..k] else s
    case None => s
  }

  /** A line mentioning `assistant` is closed with `"}` unless it already ends so. */
  function Repair(s: string): (r: string)
    ensures Contains(s, "assistant") ==> EndsWith(r, "\"}")
    ensures r == s || r == s + "\"}"
    ensures EndsWith(s, "\"}") || !Contains(s, "assistant") ==> r == s
  {
    if Contains(s, "assistant") && !EndsWith(s, "\"}") then s + "\"}" else s
  }

  /** The text handed to `JSON.parse` for a candidate. */
  function Prepared(raw: string): string {
    Repair(StripTrailingComma(raw))
  }

  /** With splitting the buffer is tried line by line; without, as one candidate. */
  function Candidates(buffer: string, split: bool): (cs: seq<string>)
    ensures split ==> Join(cs, '\n') == buffer
    ensures split ==> forall i | 0 <= i < |cs| :: '\n' !in cs[i]
    ensures !split ==> cs == [buffer]
  {
    if split then Split(buffer, '\n') else [buffer]
  }

  // ---------------------------------------------------------------------------------------
  // Merging parsed lines

  /** `[...ms.splice(0, n)]`: the first `n` messages, where a negative count removes none. */
  function Spliced(ms: seq<ChatMessage>, n: int): seq<ChatMessage> {
    if n <= 0 then [] else if n >= |ms| then ms else ms[..n]
  }

  /** `[...prev.splice(0, prev.length - 1), x]`. */
  function ReplaceLast(ms: seq<ChatMessage>, x: ChatMessage): seq<ChatMessage> {
    Spliced(ms, |ms| - 1) + [x]
  }

  /** A repeated id overwrites the last bubble, whichever message that was, keeping the length;
      on an empty list it is appended. */
  lemma ReplaceLastFacts(ms: seq<ChatMessage>, x: ChatMessage)
    ensures ms != [] ==> |ReplaceLast(ms, x)| == |ms| && ReplaceLast(ms, x)[..|ms| - 1] == ms[..|ms| - 1]
    ensures |ReplaceLast(ms, x)| > 0 && ReplaceLast(ms, x)[|ReplaceLast(ms, x)| - 1] == x
    ensures ms == [] ==> ReplaceLast(ms, x) == [x]
  {
  }

  /** What one streaming pass works on: the rendered list, this turn's `known_ids` and the
      queued events. */
  datatype Turn = Turn(chat: seq<ChatMessage>, known: seq<Option<Json>>, events: seq<Event>)

  /** One candidate's effect: nothing when it does not parse or has another role; a record
      message is appended (and its id recorded) when its id is new, and replaces the last
      bubble otherwise; an event message queues its event once per id. */
  function Absorb(t: Turn, parsed: Option<Json>): Turn {
    match parsed
    case None => t
    case Some(m) =>
      var id := Get(m, "id");
      if IsRecord(m) then
        if Includes(t.known, id) then t.(chat := ReplaceLast(t.chat, ToChatMessage(m)))
        else t.(chat := t.chat + [ToChatMessage(m)], known := t.known + [id])
      else if IsEvent(m) && !Includes(t.known, id) then
        t.(known := t.known + [id], events := t.events + [EventOf(m)])
      else t
  }

  /** The candidates processed in order. */
  function Absorbed(t: Turn, cands: seq<string>, parse: string -> Option<Json>): Turn
    decreases |cands|
  {
    if cands == [] then t
    else Absorb(Absorbed(t, cands[..|cands| - 1], parse), parse(Prepared(cands[|cands| - 1])))
  }

  lemma {:induction false} AbsorbedAppend(t: Turn, a: seq<string>, b: seq<string>, parse: string -> Option<Json>)
    ensures Absorbed(t, a + b, parse) == Absorbed(Absorbed(t, a, parse), b, parse)
    decreases |b|
  {
    if b == [] {
      assert a + b == a;
    } else {
      var b' := b[..|b| - 1];
      assert (a + b)[..|a + b| - 1] == a + b';
      AbsorbedAppend(t, a, b', parse);
    }
  }

  /** A candidate that fails to parse changes nothing, and the ones after it still count. */
  lemma FailedCandidate(t: Turn, a: seq<string>, c: string, b: seq<string>, parse: string -> Option<Json>)
    requires parse(Prepared(c)).None?
    ensures Absorbed(t, a + [c] + b, parse) == Absorbed(t, a + b, parse)
  {
    AbsorbedAppend(t, a + [c], b, parse);
    AbsorbedAppend(t, a, b, parse);
    assert (a + [c])[..|a|] == a;
  }

  /** No two recorded ids are the same value. */
  predicate Distinct(known: seq<Option<Json>>) {
    forall i, j | 0 <= i < j < |known| :: !SameValueZero(known[i], known[j])
  }

  /** One candidate takes an id at most once: recorded ids stay distinct, the lists only grow
      at the end, and a queued event comes with a newly recorded id. */
  lemma AbsorbOncePerId(t: Turn, parsed: Option<Json>)
    requires Distinct(t.known)
    ensures var t' := Absorb(t, parsed);
            && Distinct(t'.known)
            && t.known <= t'.known && t.events <= t'.events
            && |t'.events| - |t.events| <= |t'.known| - |t.known|
  {
    if parsed.Some? {
      var id := Get(parsed.value, "id");
      if !Includes(t.known, id) {
        forall i, j | 0 <= i < j < |t.known + [id]|
          ensures !SameValueZero((t.known + [id])[i], (t.known + [id])[j])
        {
          if j == |t.known| {
            assert !SameValueZero(t.known[i], id);
          }
        }
      }
    }
  }

  /** Over a whole pass, records and events are taken once per id. */
  lemma {:induction false} AbsorbedOncePerId(t: Turn, cands: seq<string>, parse: string -> Option<Json>)
    requires Distinct(t.known)
    ensures var t' := Absorbed(t, cands, parse);
            && Distinct(t'.known)
            && t.known <= t'.known && t.events <= t'.events
            && |t'.events| - |t.events| <= |t'.known| - |t.known|
    decreases |cands|
  {
    if cands != [] {
      var init := cands[..|cands| - 1];
      AbsorbedOncePerId(t, init, parse);
      AbsorbOncePerId(Absorbed(t, init, parse), parse(Prepared(cands[|cands| - 1])));
    }
  }

  /** A record message with an id already seen leaves the length of a non-empty list as it is;
      one with a new id adds a bubble. */
  lemma RecordLength(t: Turn, m: Json)
    requires IsRecord(m) && t.chat != []
    ensures |Absorb(t, Some(m)).chat| == |t.chat| <==> Includes(t.known, Get(m, "id"))
    ensures |Absorb(t, Some(m)).chat| == |t.chat| + 1 <==> !Includes(t.known, Get(m, "id"))
  {
    ReplaceLastFacts(t.chat, ToChatMessage(m));
  }

  // ---------------------------------------------------------------------------------------
  // The end-of-turn pass over the whole buffer

  const ErrorReply: string := "Dashpool Chat AI ERROR!\nPlease restart chat."

  const StreamErrorReply: string :=
    "\n            Sorry, an error occurred while processing your request.\n          "

  /** The index of the first `null` item (where `message.role` throws), or the length. */
  function FirstNull(items: seq<Json>): (k: nat)
    ensures k <= |items| && (k < |items| ==> items[k] == Null)
    ensures forall j | 0 <= j < k :: items[j] != Null
    decreases |items|
  {
    if items == [] || items[0] == Null then 0 else 1 + FirstNull(items[1..])
  }

  /** The panel's first render, `messages.map(toChatMessage)`: every message rendered, or a
      `TypeError` when some message is `null`, since reading its `role` throws. */
  function FirstRender(messages: seq<Json>): (r: Result<seq<ChatMessage>, string>)
    ensures r.Failure? <==> exists i | 0 <= i < |messages| :: messages[i] == Null
    ensures r.Success? ==> |r.value| == |messages| && forall i | 0 <= i < |messages| :: r.value[i] == ToChatMessage(messages[i])
  {
    if FirstNull(messages) < |messages| then Failure("TypeError")
    else Success(seq(|messages|, i requires 0 <= i < |messages| => ToChatMessage(messages[i])))
  }

  /** What one item adds to the history: an assistant item its entry. */
  function HistoryPart(m: Json): seq<Json> {
    if HasRole(m, "assistant") then [Entry("assistant", Get(m, "content"))] else []
  }

  /** What one item adds to the list: an assistant item not seen while streaming its bubble. */
  function ChatPart(m: Json, known: seq<Option<Json>>): seq<ChatMessage> {
    if HasRole(m, "assistant") && !Includes(known, Get(m, "id")) then [ToChatMessage(m)] else []
  }

  /** What one item adds to the queue: an event item not seen while streaming its event. */
  function EventPart(m: Json, known: seq<Option<Json>>): seq<Event> {
    if IsEvent(m) && !Includes(known, Get(m, "id")) then [EventOf(m)] else []
  }

  /** One `{ role: 'assistant', content }` history entry per assistant item, in order. */
  function AssistantEntries(items: seq<Json>): seq<Json>
    decreases |items|
  {
    if items == [] then []
    else
      var m := items[|items| - 1];
      AssistantEntries(items[..|items| - 1]) + HistoryPart(m)
  }

  /** The bubbles of the assistant items whose id was not seen while streaming. */
  function FreshAssistants(items: seq<Json>, known: seq<Option<Json>>): seq<ChatMessage>
    decreases |items|
  {
    if items == [] then []
    else
      var m := items[|items| - 1];
      FreshAssistants(items[..|items| - 1], known) + ChatPart(m, known)
  }

  /** The events of the event items whose id was not seen while streaming. */
  function LateEvents(items: seq<Json>, known: seq<Option<Json>>): seq<Event>
    decreases |items|
  {
    if items == [] then []
    else
      var m := items[|items| - 1];
      LateEvents(items[..|items| - 1], known) + EventPart(m, known)
  }

  /** The three end-of-turn lists grow by what item `k` contributes. */
  lemma ReconcileSnoc(items: seq<Json>, known: seq<Option<Json>>, k: nat)
    requires k < |items|
    ensures AssistantEntries(items[..k + 1]) == AssistantEntries(items[..k]) + HistoryPart(items[k])
    ensures FreshAssistants(items[..k + 1], known) == FreshAssistants(items[..k], known) + ChatPart(items[k], known)
    ensures LateEvents(items[..k + 1], known) == LateEvents(items[..k], known) + EventPart(items[k], known)
  {
    assert items[..k + 1][..k] == items[..k];
  }

  /** What the error branch appends: one empty `error` entry per known id, then the apology. */
  function ErrorEntries(n: nat): (es: seq<Json>)
    ensures |es| == n + 1 && es[n] == Entry("assistant", Some(Str(ErrorReply)))
    ensures forall i | 0 <= i < n :: es[i] == Entry("error", Some(Str("")))
  {
    seq(n, _ => Entry("error", Some(Str("")))) + [Entry("assistant", Some(Str(ErrorReply)))]
  }

  datatype Outcome = Outcome(history: seq<Json>, chat: seq<ChatMessage>, events: seq<Event>)

  /** The end-of-turn pass: an array is walked up to its first `null`; reaching a `null`, or a
      buffer that is no array (`forEach` is missing) or does not parse, takes the error branch
      after whatever was already done. */
  function Reconciled(history: seq<Json>, chat: seq<ChatMessage>, events: seq<Event>,
                      known: seq<Option<Json>>, parsed: Option<Json>): Outcome
  {
    if parsed.Some? && parsed.value.Arr? then
      var items := parsed.value.items;
      var k := FirstNull(items);
      var done := items[..k];
      Outcome(history + AssistantEntries(done) + (if k < |items| then ErrorEntries(|known|) else []),
              chat + FreshAssistants(done, known), events + LateEvents(done, known))
    else Outcome(history + ErrorEntries(|known|), chat, events)
  }

  /** A buffer that parses as an array without `null`: each assistant item adds one history
      entry and no error entry is added; an assistant item whose id was not seen is rendered
      once more. */
  lemma {:induction false} CleanFinish(items: seq<Json>, known: seq<Option<Json>>)
    ensures |FreshAssistants(items, known)| <= |AssistantEntries(items)|
    ensures known == [] ==> |FreshAssistants(items, known)| == |AssistantEntries(items)|
    decreases |items|
  {
    if items != [] {
      CleanFinish(items[..|items| - 1], known);
    }
  }

  /** A buffer that does not parse: the history gets the error entries, nothing is rendered
      and no event is queued. */
  lemma FailedFinish(history: seq<Json>, chat: seq<ChatMessage>, events: seq<Event>, known: seq<Option<Json>>)
    ensures var r := Reconciled(history, chat, events, known, None);
            && |r.history| == |history| + |known| + 1
            && r.history[|r.history| - 1] == Entry("assistant", Some(Str(ErrorReply)))
            && r.chat == chat && r.events == events
  {
  }

  /** One item of the end-of-turn pass. */
  method ReconcileItem(history: seq<Json>, chat: seq<ChatMessage>, events: seq<Event>,
                       known: seq<Option<Json>>, m: Json)
    returns (h: seq<Json>, c: seq<ChatMessage>, e: seq<Event>)
    ensures h == history + HistoryPart(m)
    ensures c == chat + ChatPart(m, known)
    ensures e == events + EventPart(m, known)
  {
    h, c, e := history, chat, events;
    if HasRole(m, "assistant") {
      h := h + [Entry("assistant", Get(m, "content"))];
      if !Includes(known, Get(m, "id")) {
        c := c + [ToChatMessage(m)];
      }
    } else if HasRole(m, "dashpoolEvent") {
      if !Includes(known, Get(m, "id")) {
        e := e + [DashpoolEvent(Get(m, "content"))];
      }
    } else if HasRole(m, "nodeChangeEvent") {
      if !Includes(known, Get(m, "id")) {
        e := e + [NodeChangeEvent(Get(m, "content"))];
      }
    }
  }

  /** The loop of the end-of-turn pass: it walks `items` until the first `null`, collecting
      the assistant entries for the history, the bubbles of assistant items not seen while
      streaming, and the late events. */
  method Reconcile(known: seq<Option<Json>>, items: seq<Json>)
    returns (h: seq<Json>, c: seq<ChatMessage>, e: seq<Event>, k: nat)
    ensures k == FirstNull(items)
    ensures h == AssistantEntries(items[..k])
    ensures c == FreshAssistants(items[..k], known)
    ensures e == LateEvents(items[..k], known)
  {
    h, c, e := [], [], [];
    k := 0;
    while k < |items| && items[k] != Null
      invariant k <= FirstNull(items)
      invariant h == AssistantEntries(items[..k])
      invariant c == FreshAssistants(items[..k], known)
      invariant e == LateEvents(items[..k], known)
    {
      ReconcileSnoc(items, known, k);
      h, c, e := ReconcileItem(h, c, e, known, items[k]);
      k := k + 1;
    }
  }

  /** The body of `handleStringResult`'s loop for one candidate: strip the trailing comma,
      close an assistant line, parse, and merge. */
  method AbsorbLine(c: seq<ChatMessage>, k: seq<Option<Json>>, e: seq<Event>, raw: string, parse: string -> Option<Json>)
    returns (c': seq<ChatMessage>, k': seq<Option<Json>>, e': seq<Event>)
    ensures Turn(c', k', e') == Absorb(Turn(c, k, e), parse(Prepared(raw)))
  {
    c', k', e' := c, k, e;
    var line := StripTrailingComma(raw);
    if Contains(line, "assistant") && !EndsWith(line, "\"}") {
      line := line + "\"}";
    }
    var parsed := parse(line);
    if parsed.Some? {
      var m := parsed.value;
      var id := Get(m, "id");
      if IsRecord(m) {
        if Includes(k, id) {
          c' := ReplaceLast(c, ToChatMessage(m));
        } else {
          k' := k + [id];
          c' := c + [ToChatMessage(m)];
        }
      } else if HasRole(m, "dashpoolEvent") {
        if !Includes(k, id) {
          k' := k + [id];
          e' := e + [DashpoolEvent(Get(m, "content"))];
        }
      } else if HasRole(m, "nodeChangeEvent") {
        if !Includes(k, id) {
          k' := k + [id];
          e' := e + [NodeChangeEvent(Get(m, "content"))];
        }
      }
    }
  }

  // ---------------------------------------------------------------------------------------
  // The panel

  class ChatPanel {
    var history: seq<Json>             // `currentMessages`, sent with each request
    var chat: seq<ChatMessage>         // `chatMessages`, the rendered bubbles
    var inputDisabled: bool
    var buffer: string                 // `result`, the text received this turn
    var known: seq<Option<Json>>       // this turn's `known_ids`
    var events: seq<Event>             // this turn's event queue
    var outbox: seq<Event>             // the events passed to `setProps`, in order

    /** The first render: the given messages, each rendered. A list holding `null` makes the
        first render throw (`FirstRender`), so no panel comes into being for it. */
    constructor(messages: seq<Json>)
      requires FirstRender(messages).Success?
      ensures history == messages && chat == FirstRender(messages).value
      ensures !inputDisabled && buffer == "" && known == [] && events == [] && outbox == []
    {
      history := messages;
      chat := seq(|messages|, i requires 0 <= i < |messages| => ToChatMessage(messages[i]));
      inputDisabled := false;
      buffer := "";
      known := [];
      events := [];
      outbox := [];
    }

    /** `handleStringResult`: every candidate of the buffer, prepared and parsed, merged in
        order. */
    method HandleStringResult(text: string, split: bool, parse: string -> Option<Json>)
      modifies this`chat, this`known, this`events
      ensures Turn(chat, known, events) == Absorbed(old(Turn(chat, known, events)), Candidates(text, split), parse)
    {
      var cands := if split then Split(text, '\n') else [text];
      ghost var start := Turn(chat, known, events);
      var c, k, e := chat, known, events;
      var i := 0;
      while i < |cands|
        invariant 0 <= i <= |cands|
        invariant Turn(c, k, e) == Absorbed(start, cands[..i], parse)
      {
        assert cands[..i + 1][..i] == cands[..i] && cands[..i + 1][i] == cands[i];
        ghost var before := Turn(c, k, e);
        c, k, e := AbsorbLine(c, k, e, cands[i], parse);
        assert Absorbed(start, cands[..i + 1], parse) == Absorb(before, parse(Prepared(cands[i])));
        i := i + 1;
      }
      assert cands[..i] == cands;
      chat, known, events := c, k, e;
    }

    /** `fireEventsWithDelay`: pass every queued event to the host in order, then empty the
        queue. */
    method FireEvents()
      modifies this`events, this`outbox
      ensures outbox == old(outbox) + old(events) && events == []
    {
      var queue, sent := events, outbox;
      var i := 0;
      while i < |queue|
        invariant 0 <= i <= |queue|
        invariant outbox == sent + queue[..i]
      {
        assert queue[..i + 1] == queue[..i] + [queue[i]];
        outbox := outbox + [queue[i]];
        i := i + 1;
      }
      assert queue[..i] == queue;
      events := [];
    }

    /** The start of `handleNewUserMessage`: the user's message joins the history and the
        list, a new turn begins and the input is disabled. */
    method StartTurn(text: string)
      modifies this`history, this`chat, this`buffer, this`known, this`events, this`inputDisabled
      ensures history == old(history) + [Entry("user", Some(Str(text)))]
      ensures chat == old(chat) + [UserText(Some(Str(text)))]
      ensures buffer == "" && known == [] && events == [] && inputDisabled
    {
      var message := Entry("user", Some(Str(text)));
      history := history + [message];
      chat := chat + [ToChatMessage(message)];
      buffer := "";
      known := [];
      events := [];
      inputDisabled := true;
    }

    /** One chunk of the stream: it extends the buffer; when the throttle lets it, the buffer
        is merged line by line and the queue is fired; then it is merged whole. */
    method ReceiveChunk(chunk: string, throttled: bool, parse: string -> Option<Json>)
      modifies this`buffer, this`chat, this`known, this`events, this`outbox
      ensures buffer == old(buffer) + chunk
      ensures !throttled ==>
                Turn(chat, known, events) == Absorbed(old(Turn(chat, known, events)), [buffer], parse)
                && outbox == old(outbox)
      ensures throttled ==>
                var lined := Absorbed(old(Turn(chat, known, events)), Candidates(buffer, true), parse);
                && Turn(chat, known, events) == Absorbed(lined.(events := []), [buffer], parse)
                && outbox == old(outbox) + lined.events
    {
      buffer := buffer + chunk;
      if !throttled {
        HandleStringResult(buffer, false, parse);
        return;
      }
      HandleStringResult(buffer, true, parse);
      FireEvents();
      FireEvents();
      HandleStringResult(buffer, false, parse);
    }

    /** The request or the stream failed: an apology joins the history and the list, and the
        input is enabled again; queued events stay unfired. */
    method StreamFailed()
      modifies this`history, this`chat, this`inputDisabled
      ensures history == old(history) + [Entry("assistant", Some(Str(StreamErrorReply)))]
      ensures chat == old(chat) + [AssistantText(Some(Str(StreamErrorReply)))]
      ensures !inputDisabled
    {
      var message := Entry("assistant", Some(Str(StreamErrorReply)));
      history := history + [message];
      chat := chat + [ToChatMessage(message)];
      inputDisabled := false;
    }

    /** The end of `handleNewUserMessage`: the whole buffer is parsed once more; assistant
        items join the history, those not rendered while streaming are rendered, late events
        are queued; then the queue is fired and the input enabled. */
    method FinishTurn(parse: string -> Option<Json>)
      modifies this`history, this`chat, this`events, this`outbox, this`inputDisabled
      ensures var r := Reconciled(old(history), old(chat), old(events), known, parse(buffer));
              && history == r.history && chat == r.chat
              && outbox == old(outbox) + r.events && events == []
      ensures !inputDisabled
    {
      var parsed := parse(buffer);
      var h, c, e := history, chat, events;
      if parsed.Some? && parsed.value.Arr? {
        var items := parsed.value.items;
        var hs, cs, es, k := Reconcile(known, items);
        h, c, e := h + hs, c + cs, e + es;
        if k < |items| {
          h := h + ErrorEntries(|known|);
        }
      } else {
        h := h + ErrorEntries(|known|);
      }
      history, chat, events := h, c, e;
      FireEvents();
      inputDisabled := false;
    }

    /** `handleQuickButton`: while the input is enabled, "clearall" and "reportproblem" empty
        both lists and "removelast" drops the last entry of each. */
    method HandleQuickButton(value: string)
      modifies this`history, this`chat
      ensures inputDisabled ==> history == old(history) && chat == old(chat)
      ensures !inputDisabled && (value == "clearall" || value == "reportproblem") ==> history == [] && chat == []
      ensures !inputDisabled && value == "removelast" ==>
                && (old(history) != [] ==> history == old(history)[..|old(history)| - 1])
                && (old(chat) != [] ==> chat == old(chat)[..|old(chat)| - 1])
                && |history| == (if old(history) == [] then 0 else |old(history)| - 1)
                && |chat| == (if old(chat) == [] then 0 else |old(chat)| - 1)
      ensures value != "clearall" && value != "reportproblem" && value != "removelast" ==>
                history == old(history) && chat == old(chat)
    {
      if inputDisabled {
        return;
      }
      if value == "clearall" {
        history, chat := [], [];
      }
      if value == "reportproblem" {
        history, chat := [], [];
      }
      if value == "removelast" {
        if history != [] {
          history := history[..|history| - 1];
        }
        chat := if chat == [] then [] else chat[..|chat| - 1];
      }
    }
  }
}
