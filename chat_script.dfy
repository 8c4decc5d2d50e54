/** Pure model of the browser script: the page it keeps (the children of the chat area, the
    status and error texts, the two input boxes, the polling timer) and how one server event,
    one poll response, one send and one connect attempt change that page.  The imperative
    counterparts, which update the page in place, are in module ChatClient. */
module ChatScript {
  import opened Wrappers
  import opened Text
  import opened Json

  /** A handle returned by setInterval: browsers hand out positive integers. */
  type Timer = t: int | t > 0 witness 1

  const PollPeriodMs: nat := 500
  const DisconnectMarker := "Desconectado"
  /** The markers that give a prefix the "server" style (see HasMarker). */
  const Markers: seq<string> := ["Servidor", "ADMIN", "✅", "❌", "⛔", "🎲", "⭐", "⚠️"]
  const ClearedNotice := "📢 El chat fue limpiado por un administrador."
  const DeletedPlaceholder := "<i>Mensaje eliminado por admin</i>"
  const EmptyNameError := "⚠️ Por favor ingresa un nombre."
  const ServerErrorPrefix := "Error servidor: "
  const UnreachableError := "No se pudo contactar con el script Python local."
  const LoginId := "sys-login"
  const LoginPrefix := "✅ "
  const WelcomeText := "Conectado como "
  const LocalIdPrefix := "local-"
  const YouPrefix := "💬 Tú: "
  const SendErrorId := "sys-err"
  const SendErrorPrefix := "❌ "
  const SendErrorText := "Error al enviar mensaje (¿Servidor caído?)"
  const SyntheticIdPrefix := "msg-"
  const CommandSentinel := "/"

  datatype Style = Normal | Server

  /** One child of the chat area: its id attribute (absent for the "cleared" notice), the style
      picked from its prefix, its inner HTML kept as an opaque string, and the "deleted" class. */
  datatype Entry = Entry(id: Option<string>, style: Style, content: string, deleted: bool)

  /** Everything the script reads or writes. */
  datatype Page = Page(
    entries: seq<Entry>,       // children of #chat-area, in document order
    status: string,            // text of #status-label
    error: string,             // text of #error-log
    msgInput: string,          // value of #msg-input
    userInput: string,         // value of #user-input
    chatVisible: bool,         // #chat-container shown and #conn-frame hidden
    polling: Option<Timer>,    // the global pollingInterval
    live: map<Timer, nat>)     // the intervals the browser is running, with their periods

  /** The page as loaded (and as location.reload() leaves it). */
  function Initial(): Page
  {
    Page([], "", "", "", "", false, None, map[])
  }

  /** The only running interval, if any, is the one pollingInterval holds. */
  ghost predicate OneTimer(p: Page)
  {
    p.live == if p.polling.Some? then map[p.polling.value := PollPeriodMs] else map[]
  }

  // ---------------------------------------------------------------------------------------
  // JavaScript's view of a JSON value

  /** Truthiness of a value in a JavaScript condition or `||`. */
  predicate Truthy(j: Json)
  {
    match j
    case JNull => false
    case JBool(b) => b
    case JNum(n) => n != 0
    case JStr(s) => s != ""
    case _ => true
  }

  /** `a || b` where `a` may be missing. */
  function Or(a: Option<Json>, b: Json): Json
  {
    if a.Some? && Truthy(a.value) then a.value else b
  }

  function DecimalDigits(n: nat): (r: string)
    ensures r != []
    decreases n
  {
    var last := ["0123456789"[n % 10]];
    if n < 10 then last else DecimalDigits(n / 10) + last
  }

  function Decimal(n: int): string
  {
    if n < 0 then "-" + DecimalDigits(-n) else DecimalDigits(n)
  }

  /** `String(v)`: arrays join their elements with "," (null elements give ""). */
  function JsString(j: Json): string
    decreases j
  {
    match j
    case JNull => "null"
    case JBool(b) => if b then "true" else "false"
    case JNum(n) => Decimal(n)
    case JStr(s) => s
    case JArr(items) =>
      JoinWithCommas(seq(|items|, i requires 0 <= i < |items| =>
        if items[i] == JNull then "" else JsString(items[i])))
    case JObj(_) => "[object Object]"
  }

  function JoinWithCommas(parts: seq<string>): string
  {
    if parts == [] then "" else if |parts| == 1 then parts[0] else parts[0] + "," + JoinWithCommas(parts[1..])
  }

  /** `String(j.key)`, with "undefined" for a missing member. */
  function JsMember(j: Json, key: string): string
  {
    match Member(j, key)
    case None => "undefined"
    case Some(v) => JsString(v)
  }

  /** `v.includes(sub)`: a substring test on strings, an element test on arrays, and a thrown
      TypeError (`None`) on values that have no `includes` method. */
  function Includes(v: Json, sub: string): Option<bool>
  {
    match v
    case JStr(s) => Some(Contains(s, sub))
    case JArr(items) => Some(JStr(sub) in items)
    case _ => None
  }

  // ---------------------------------------------------------------------------------------
  // agregarMensajeHTML

  /** The eight `prefix.includes(...)` tests of agregarMensajeHTML, in source order. */
  predicate HasMarker(prefix: Json)
  {
    Includes(prefix, "Servidor") == Some(true) || Includes(prefix, "ADMIN") == Some(true)
    || Includes(prefix, "✅") == Some(true) || Includes(prefix, "❌") == Some(true)
    || Includes(prefix, "⛔") == Some(true) || Includes(prefix, "🎲") == Some(true)
    || Includes(prefix, "⭐") == Some(true) || Includes(prefix, "⚠️") == Some(true)
  }

  /** The style given to a prefix; `None` when the first `includes` call throws. */
  function PrefixStyle(prefix: Json): Option<Style>
  {
    if Includes(prefix, "Servidor").None? then None
    else if HasMarker(prefix) then Some(Server)
    else Some(Normal)
  }

  /** The inner HTML of a message: the prefix in bold when it is truthy, then the payload. */
  function Compose(prefix: Json, payload: Json): string
  {
    (if Truthy(prefix) then "<strong>" + JsString(prefix) + "</strong>" else "") + JsString(payload)
  }

  /** The entry `agregarMensajeHTML(id, prefix, payload)` appends, for string arguments. */
  function Message(id: string, prefix: string, payload: string): Entry
  {
    Entry(Some(id), PrefixStyle(JStr(prefix)).value, Compose(JStr(prefix), JStr(payload)), false)
  }

  /** The notice a "clear" event leaves behind: server style, no id. */
  function ClearedEntry(): Entry
  {
    Entry(None, Server, ClearedNotice, false)
  }

  // ---------------------------------------------------------------------------------------
  // procesarMensaje

  /** What one server event asks of the page. */
  datatype Action =
    | Ignore
    | Fault                                                // a TypeError escapes procesarMensaje
    | ForcedReset(notice: string)                          // alert(notice), then location.reload()
    | ShowStatus(text: string)
    | AddChat(id: Option<string>, style: Style, content: string)   // None: synthesize an id
    | ClearAll
    | DeleteById(target: string)                           // getElementById(target)

  /** The dispatch of procesarMensaje on the event's `type`. */
  function Classify(d: Json): Action
  {
    if !Truthy(d) then Ignore
    else
      var kind := Member(d, "type");
      var payload := Member(d, "payload");
      if kind == Some(JStr("status")) && payload.Some? && Truthy(payload.value) then
        match Includes(payload.value, DisconnectMarker)
        case None => Fault
        case Some(true) => ForcedReset(JsString(payload.value))
        case Some(false) => ShowStatus(JsString(payload.value))
      else if kind == Some(JStr("chat")) then
        var id := Member(d, "id");
        var prefix := Or(Member(d, "prefix"), JStr(""));
        var body := Or(payload, JStr(""));
        match PrefixStyle(prefix)
        case None => Fault
        case Some(style) =>
          AddChat(if id.Some? && Truthy(id.value) then Some(JsString(id.value)) else None,
                  style, Compose(prefix, body))
      else if kind == Some(JStr("clear")) then ClearAll
      else if kind == Some(JStr("delete")) then DeleteById(JsMember(d, "id"))
      else Ignore
  }

  /** What getElementById(target) would find among the entries. */
  predicate Names(e: Entry, target: string)
  {
    target != "" && e.id == Some(target)
  }

  /** The position of the first entry whose id is `target`. */
  function IndexOfId(entries: seq<Entry>, target: string): (k: Option<nat>)
    ensures k.Some? ==> k.value < |entries| && Names(entries[k.value], target)
    ensures k.Some? ==> forall j :: 0 <= j < k.value ==> !Names(entries[j], target)
    ensures k.None? ==> forall j :: 0 <= j < |entries| ==> !Names(entries[j], target)
    decreases |entries|
  {
    if entries == [] then None
    else if Names(entries[0], target) then Some(0)
    else match IndexOfId(entries[1..], target)
      case None => None
      case Some(j) => Some(j + 1)
  }

  function Deleted(e: Entry): Entry
  {
    e.(content := DeletedPlaceholder, deleted := true)
  }

  /** The "delete" patch: only the first entry named `target` is touched. */
  function MarkDeleted(entries: seq<Entry>, target: string): seq<Entry>
  {
    match IndexOfId(entries, target)
    case None => entries
    case Some(k) => entries[k := Deleted(entries[k])]
  }

  /** The entry a "chat" action appends: the event's id, or "msg-" followed by a fresh token. */
  function ChatEntry(a: Action, token: string): Entry
    requires a.AddChat?
  {
    Entry(Some(if a.id.Some? then a.id.value else SyntheticIdPrefix + token), a.style, a.content, false)
  }

  /** The page after one action; `token` stands for `Date.now() + Math.random()`. */
  function Apply(p: Page, a: Action, token: string): Page
  {
    match a
    case Ignore => p
    case Fault => p
    case ForcedReset(_) => Initial()
    case ShowStatus(text) => p.(status := text)
    case AddChat(id, style, content) => p.(entries := p.entries + [ChatEntry(a, token)])
    case ClearAll => p.(entries := [ClearedEntry()])
    case DeleteById(target) => p.(entries := MarkDeleted(p.entries, target))
  }

  /** procesarMensaje(d). */
  function Step(p: Page, d: Json, token: string): Page
  {
    Apply(p, Classify(d), token)
  }

  // ---------------------------------------------------------------------------------------
  // verificarMensajes

  /** The events of one poll response handled in array order.  A TypeError ends the forEach
      (verificarMensajes catches it); a forced disconnect reloads the page, which discards
      whatever the rest of the batch would have rendered. */
  function Run(p: Page, ds: seq<Json>, tokens: seq<string>): Page
    requires |tokens| == |ds|
    decreases |ds|
  {
    if ds == [] then p
    else match Classify(ds[0])
      case Fault => p
      case ForcedReset(_) => Initial()
      case _ => Run(Step(p, ds[0], tokens[0]), ds[1..], tokens[1..])
  }

  /** Reference: the plain left fold of procesarMensaje over a batch. */
  function Fold(p: Page, ds: seq<Json>, tokens: seq<string>): Page
    requires |tokens| == |ds|
    decreases |ds|
  {
    if ds == [] then p else Fold(Step(p, ds[0], tokens[0]), ds[1..], tokens[1..])
  }

  /** An event that ends the handling of its batch. */
  predicate Stops(d: Json)
  {
    Classify(d).Fault? || Classify(d).ForcedReset?
  }

  datatype PollReply = PollFailed | Polled(body: Json)

  /** verificarMensajes: only an array body is handled; anything else (a failed request, a body
      that is not JSON, null, an object, a string) leaves the page as it was. */
  function AfterPoll(p: Page, reply: PollReply, tokens: seq<string>): Page
    requires reply.Polled? && reply.body.JArr? ==> |tokens| == |reply.body.items|
  {
    match reply
    case Polled(JArr(items)) => Run(p, items, tokens)
    case _ => p
  }

  // ---------------------------------------------------------------------------------------
  // enviarMensaje

  /** enviarMensaje with the text in the message box; `failed` says whether fetch('/send')
      rejected, `token` stands for `Date.now()`. */
  function AfterSend(p: Page, token: string, failed: bool): Page
  {
    var text := p.msgInput;
    if text == "" then p
    else
      var echoed := if StartsWith(text, CommandSentinel) then p.entries
                    else p.entries + [Message(LocalIdPrefix + token, YouPrefix, text)];
      var notice := if failed then [Message(SendErrorId, SendErrorPrefix, SendErrorText)] else [];
      p.(entries := echoed + notice, msgInput := "")
  }

  // ---------------------------------------------------------------------------------------
  // conectar

  /** The answer to fetch('/connect'): the parsed JSON body, or a rejected request. */
  datatype ConnectReply = Answered(body: Json) | Unreachable

  /** The chat view after a successful connect: the list holds only the welcome notice and
      the previous interval, if any, is cleared before the new one starts. */
  function LoggedIn(p: Page, name: string, timer: Timer): Page
  {
    var kept := if p.polling.Some? then p.live - {p.polling.value} else p.live;
    p.(chatVisible := true,
       entries := [Message(LoginId, LoginPrefix, WelcomeText + name)],
       polling := Some(timer),
       live := kept[timer := PollPeriodMs])
  }

  /** The replaced interval is cancelled, so one interval runs afterwards: the new one. */
  lemma LoggedInOneTimer(p: Page, name: string, timer: Timer)
    requires OneTimer(p)
    ensures LoggedIn(p, name, timer).live == map[timer := PollPeriodMs]
    ensures OneTimer(LoggedIn(p, name, timer))
  {
    var kept := if p.polling.Some? then p.live - {p.polling.value} else p.live;
    assert kept == map[];
  }

  /** conectar with the name in the user box; `timer` is the handle setInterval would return. */
  function AfterConnect(p: Page, reply: ConnectReply, timer: Timer): Page
  {
    var name := JsTrim(p.userInput);
    if name == "" then p.(error := EmptyNameError)
    else match reply
      case Unreachable => p.(error := UnreachableError)
      case Answered(result) =>
        if result == JNull then p.(error := UnreachableError)   // reading null.status throws
        else if Member(result, "status") == Some(JStr("ok")) then LoggedIn(p, name, timer)
        else p.(error := ServerErrorPrefix + JsMember(result, "msg"))
  }

  // ---------------------------------------------------------------------------------------
  // Events as the chat server writes them

  function ChatEvent(id: Option<string>, prefix: string, payload: string): Json
  {
    var fields := map["type" := JStr("chat"), "prefix" := JStr(prefix), "payload" := JStr(payload)];
    JObj(if id.Some? then fields["id" := JStr(id.value)] else fields)
  }

  function DeleteEvent(id: string): Json
  {
    JObj(map["type" := JStr("delete"), "id" := JStr(id)])
  }

  function ClearEvent(): Json
  {
    JObj(map["type" := JStr("clear")])
  }

  // ---------------------------------------------------------------------------------------
  // Properties of agregarMensajeHTML

  /** The prefix rule: a string prefix never throws, and it gives the server style exactly
      when one of the eight markers occurs in it. */
  lemma StyleRule(prefix: string)
    ensures PrefixStyle(JStr(prefix)).Some?
    ensures PrefixStyle(JStr(prefix)) == Some(Server)
            <==> exists i, k :: 0 <= i < |Markers| && OccursAt(prefix, Markers[i], k)
  {
    forall i | 0 <= i < |Markers| {
      ContainsIffOccurs(prefix, Markers[i]);
    }
    if HasMarker(JStr(prefix)) {
      if Contains(prefix, "Servidor") { assert Contains(prefix, Markers[0]); }
      else if Contains(prefix, "ADMIN") { assert Contains(prefix, Markers[1]); }
      else if Contains(prefix, "✅") { assert Contains(prefix, Markers[2]); }
      else if Contains(prefix, "❌") { assert Contains(prefix, Markers[3]); }
      else if Contains(prefix, "⛔") { assert Contains(prefix, Markers[4]); }
      else if Contains(prefix, "🎲") { assert Contains(prefix, Markers[5]); }
      else if Contains(prefix, "⭐") { assert Contains(prefix, Markers[6]); }
      else { assert Contains(prefix, Markers[7]); }
    } else {
      forall i | 0 <= i < |Markers| ensures !Contains(prefix, Markers[i]) {
        assert Markers[i] in ["Servidor", "ADMIN", "✅", "❌", "⛔", "🎲", "⭐", "⚠️"];
      }
    }
  }

  /** The welcome notice conectar writes starts with the check mark, so it is server-styled. */
  lemma WelcomeIsServer(text: string)
    ensures Message(LoginId, LoginPrefix, text).style == Server
  {
    assert StartsWith(LoginPrefix, "✅");
  }

  /** The entry appended for string arguments: its id, its inner HTML (the prefix in bold only
      when it is not empty) and its style. */
  lemma MessageShape(id: string, prefix: string, payload: string)
    ensures Message(id, prefix, payload).id == Some(id)
    ensures !Message(id, prefix, payload).deleted
    ensures Message(id, prefix, payload).content
            == if prefix == "" then payload else "<strong>" + prefix + "</strong>" + payload
    ensures Message(id, prefix, payload).style == Server
            <==> exists i, k :: 0 <= i < |Markers| && OccursAt(prefix, Markers[i], k)
  {
    StyleRule(prefix);
  }

  // ---------------------------------------------------------------------------------------
  // Properties of procesarMensaje

  /** A null, false, 0 or "" event changes nothing. */
  lemma FalsyEventIgnored(p: Page, d: Json, token: string)
    requires !Truthy(d)
    ensures Step(p, d, token) == p
  {
  }

  /** A status event with a string payload: a forced disconnect resets the page without writing
      the label; any other non-empty payload only overwrites the label; an empty one is ignored. */
  lemma StatusEventEffect(p: Page, d: Json, text: string, token: string)
    requires Member(d, "type") == Some(JStr("status")) && Member(d, "payload") == Some(JStr(text))
    ensures text != "" && Contains(text, DisconnectMarker) ==> Step(p, d, token) == Initial()
    ensures text != "" && !Contains(text, DisconnectMarker) ==> Step(p, d, token) == p.(status := text)
    ensures text == "" ==> Step(p, d, token) == p
  {
    if text == "" {
      assert Classify(d) == Ignore;
    } else if Contains(text, DisconnectMarker) {
      assert Classify(d) == ForcedReset(text);
    } else {
      assert Classify(d) == ShowStatus(text);
    }
  }

  /** A chat event appends exactly one entry at the end; nothing else on the page changes. */
  lemma ChatAppendsOne(p: Page, d: Json, token: string)
    requires Classify(d).AddChat?
    ensures Step(p, d, token) == p.(entries := p.entries + [ChatEntry(Classify(d), token)])
    ensures |Step(p, d, token).entries| == |p.entries| + 1
    ensures Step(p, d, token).entries[..|p.entries|] == p.entries
  {
    assert (p.entries + [ChatEntry(Classify(d), token)])[..|p.entries|] == p.entries;
  }

  /** A chat event as the server writes it: the id is the event's when it is non-empty, else
      "msg-" and a fresh token; the entry is the one agregarMensajeHTML builds from the prefix
      and the payload. */
  lemma ChatEventEffect(p: Page, id: Option<string>, prefix: string, payload: string, token: string)
    ensures Step(p, ChatEvent(id, prefix, payload), token)
            == p.(entries := p.entries + [Message(if id.Some? && id.value != "" then id.value
                                                  else SyntheticIdPrefix + token, prefix, payload)])
  {
    var d := ChatEvent(id, prefix, payload);
    assert Member(d, "type") == Some(JStr("chat"));
    assert Or(Member(d, "prefix"), JStr("")) == JStr(prefix);
    assert Or(Member(d, "payload"), JStr("")) == JStr(payload);
    StyleRule(prefix);
  }

  /** Missing prefix and payload both default to "", and a missing id is synthesized. */
  lemma ChatDefaults(p: Page, token: string)
    ensures Step(p, JObj(map["type" := JStr("chat")]), token)
            == p.(entries := p.entries + [Message(SyntheticIdPrefix + token, "", "")])
  {
    var d := JObj(map["type" := JStr("chat")]);
    assert Member(d, "type") == Some(JStr("chat"));
    StyleRule("");
  }

  /** The code appends and never upserts: the same chat event twice gives two equal entries. */
  lemma RepeatedChatIsDuplicated(p: Page, id: string, prefix: string, payload: string, t1: string, t2: string)
    requires id != ""
    ensures var d := ChatEvent(Some(id), prefix, payload);
            var twice := Step(Step(p, d, t1), d, t2);
            |twice.entries| == |p.entries| + 2
            && twice.entries[|p.entries|] == twice.entries[|p.entries| + 1] == Message(id, prefix, payload)
  {
    var d := ChatEvent(Some(id), prefix, payload);
    ChatEventEffect(p, Some(id), prefix, payload, t1);
    ChatEventEffect(Step(p, d, t1), Some(id), prefix, payload, t2);
  }

  /** A clear event leaves exactly the server-styled notice, which has no id. */
  lemma ClearEffect(p: Page, d: Json, token: string)
    requires Member(d, "type") == Some(JStr("clear"))
    ensures Step(p, d, token) == p.(entries := [ClearedEntry()])
    ensures ClearedEntry().id == None && ClearedEntry().style == Server
  {
  }

  /** A delete event for a string id patches the first entry carrying that id (placeholder
      content, deleted flag) and nothing else; with no such entry it changes nothing. */
  lemma DeleteEffect(p: Page, d: Json, target: string, token: string)
    requires Member(d, "type") == Some(JStr("delete")) && Member(d, "id") == Some(JStr(target))
    ensures Step(p, d, token) == p.(entries := Step(p, d, token).entries)
    ensures |Step(p, d, token).entries| == |p.entries|
    ensures forall k :: 0 <= k < |p.entries| && Names(p.entries[k], target)
                        && (forall j :: 0 <= j < k ==> !Names(p.entries[j], target))
                        ==> Step(p, d, token).entries == p.entries[k := Deleted(p.entries[k])]
    ensures (forall j :: 0 <= j < |p.entries| ==> !Names(p.entries[j], target)) ==> Step(p, d, token) == p
  {
    assert Classify(d) == DeleteById(target);
  }

  /** Deleting keeps an entry's id and style, so a later delete of the same id finds it again. */
  lemma DeletedKeepsIdentity(e: Entry)
    ensures Deleted(e).id == e.id && Deleted(e).style == e.style
    ensures Deleted(e).deleted && Deleted(e).content == DeletedPlaceholder
  {
  }

  /** Repeating a delete changes nothing more: the patched entry keeps its id, so the second
      delete finds the same entry, and patching it again leaves it as it was. */
  lemma DeleteIdempotent(p: Page, target: string, t1: string, t2: string)
    ensures var q := Step(p, DeleteEvent(target), t1);
            Step(q, DeleteEvent(target), t2) == q
  {
    var d := DeleteEvent(target);
    var q := Step(p, d, t1);
    DeleteEffect(p, d, target, t1);
    DeleteEffect(q, d, target, t2);
    match IndexOfId(p.entries, target)
    case None =>
    case Some(k) =>
      assert q.entries == p.entries[k := Deleted(p.entries[k])];
      assert Names(q.entries[k], target);
      assert forall j :: 0 <= j < k ==> q.entries[j] == p.entries[j];
      assert q.entries[k := Deleted(q.entries[k])] == q.entries;
  }

  // ---------------------------------------------------------------------------------------
  // Properties of verificarMensajes

  lemma {:induction false} FoldAppend(p: Page, a: seq<Json>, b: seq<Json>, ta: seq<string>, tb: seq<string>)
    requires |ta| == |a| && |tb| == |b|
    ensures Fold(p, a + b, ta + tb) == Fold(Fold(p, a, ta), b, tb)
    decreases |a|
  {
    if a != [] {
      assert (a + b)[1..] == a[1..] + b;
      assert (ta + tb)[1..] == ta[1..] + tb;
      FoldAppend(Step(p, a[0], ta[0]), a[1..], b, ta[1..], tb);
    } else {
      assert a + b == b && ta + tb == tb;
    }
  }

  /** Two batches, the first of which runs to its end, are handled as one batch. */
  lemma {:induction false} RunAppend(p: Page, a: seq<Json>, b: seq<Json>, ta: seq<string>, tb: seq<string>)
    requires |ta| == |a| && |tb| == |b|
    requires forall i :: 0 <= i < |a| ==> !Stops(a[i])
    ensures Run(p, a + b, ta + tb) == Run(Run(p, a, ta), b, tb)
    decreases |a|
  {
    if a == [] {
      assert a + b == b && ta + tb == tb;
    } else {
      assert (a + b)[0] == a[0] && (a + b)[1..] == a[1..] + b;
      assert (ta + tb)[0] == ta[0] && (ta + tb)[1..] == ta[1..] + tb;
      assert !Stops(a[0]);
      RunAppend(Step(p, a[0], ta[0]), a[1..], b, ta[1..], tb);
    }
  }

  /** A batch with no faulting event and no forced disconnect is the left fold of
      procesarMensaje over it, in array order. */
  lemma {:induction false} RunIsFold(p: Page, ds: seq<Json>, tokens: seq<string>)
    requires |tokens| == |ds|
    requires forall i :: 0 <= i < |ds| ==> !Stops(ds[i])
    ensures Run(p, ds, tokens) == Fold(p, ds, tokens)
    decreases |ds|
  {
    if ds != [] {
      assert !Stops(ds[0]);
      RunIsFold(Step(p, ds[0], tokens[0]), ds[1..], tokens[1..]);
    }
  }

  /** The first stopping event of a batch: a TypeError keeps what the events before it did, a
      forced disconnect leaves the initial page. */
  lemma {:induction false} RunStopsAt(p: Page, ds: seq<Json>, tokens: seq<string>, k: nat)
    requires |tokens| == |ds| && k < |ds| && Stops(ds[k])
    requires forall i :: 0 <= i < k ==> !Stops(ds[i])
    ensures Classify(ds[k]).Fault? ==> Run(p, ds, tokens) == Fold(p, ds[..k], tokens[..k])
    ensures Classify(ds[k]).ForcedReset? ==> Run(p, ds, tokens) == Initial()
    decreases k
  {
    if k > 0 {
      assert !Stops(ds[0]);
      RunStopsAt(Step(p, ds[0], tokens[0]), ds[1..], tokens[1..], k - 1);
      assert ds[..k][1..] == ds[1..][..k - 1];
      assert tokens[..k][1..] == tokens[1..][..k - 1];
    }
  }

  /** A failed poll, or a body that is not an array, changes nothing. */
  lemma PollWithoutEventsChangesNothing(p: Page, reply: PollReply, tokens: seq<string>)
    requires reply.PollFailed? || !reply.body.JArr? || reply.body.items == []
    requires reply.Polled? && reply.body.JArr? ==> |tokens| == |reply.body.items|
    ensures AfterPoll(p, reply, tokens) == p
  {
  }

  /** Events that all append chat entries add them after the existing ones, in order. */
  lemma {:induction false} FoldChats(p: Page, ds: seq<Json>, tokens: seq<string>)
    requires |tokens| == |ds|
    requires forall i :: 0 <= i < |ds| ==> Classify(ds[i]).AddChat?
    ensures Fold(p, ds, tokens) == p.(entries := Fold(p, ds, tokens).entries)
    ensures Fold(p, ds, tokens).entries
            == p.entries + seq(|ds|, i requires 0 <= i < |ds| => ChatEntry(Classify(ds[i]), tokens[i]))
    decreases |ds|
  {
    if ds != [] {
      var q := Step(p, ds[0], tokens[0]);
      assert Classify(ds[0]).AddChat?;
      assert q.entries == p.entries + [ChatEntry(Classify(ds[0]), tokens[0])];
      FoldChats(q, ds[1..], tokens[1..]);
      assert Fold(p, ds, tokens) == Fold(q, ds[1..], tokens[1..]);
      var rest := seq(|ds| - 1, i requires 0 <= i < |ds| - 1 => ChatEntry(Classify(ds[1..][i]), tokens[1..][i]));
      var all := seq(|ds|, i requires 0 <= i < |ds| => ChatEntry(Classify(ds[i]), tokens[i]));
      assert all == [ChatEntry(Classify(ds[0]), tokens[0])] + rest;
    } else {
      assert Fold(p, ds, tokens) == p;
    }
  }

  /** A clear followed by chat events: the notice first, then the chat entries in order. */
  lemma ClearThenChats(p: Page, ds: seq<Json>, tokens: seq<string>)
    requires |tokens| == |ds| + 1
    requires forall i :: 0 <= i < |ds| ==> Classify(ds[i]).AddChat?
    ensures Fold(p, [ClearEvent()] + ds, tokens).entries
            == [ClearedEntry()] + seq(|ds|, i requires 0 <= i < |ds| => ChatEntry(Classify(ds[i]), tokens[i + 1]))
  {
    var q := Step(p, ClearEvent(), tokens[0]);
    assert Member(ClearEvent(), "type") == Some(JStr("clear"));
    assert q.entries == [ClearedEntry()];
    assert ([ClearEvent()] + ds)[1..] == ds;
    FoldChats(q, ds, tokens[1..]);
  }

  // ---------------------------------------------------------------------------------------
  // Properties of enviarMensaje

  /** An empty message box: nothing happens, not even clearing the box. */
  lemma SendEmptyNoop(p: Page, token: string, failed: bool)
    requires p.msgInput == ""
    ensures AfterSend(p, token, failed) == p
  {
  }

  /** A non-empty message: the box is emptied; plain text is echoed as one "local-" entry with
      the "Tú" prefix, a command is not echoed; a failed send adds one "sys-err" notice. */
  lemma SendEffect(p: Page, token: string, failed: bool)
    requires p.msgInput != ""
    ensures var r := AfterSend(p, token, failed);
            var echo := if StartsWith(p.msgInput, CommandSentinel) then []
                        else [Message(LocalIdPrefix + token, YouPrefix, p.msgInput)];
            var notice := if failed then [Message(SendErrorId, SendErrorPrefix, SendErrorText)] else [];
            r == p.(entries := p.entries + echo + notice, msgInput := "")
  {
  }

  /** A string prefix in which no marker's first character occurs gets the normal style. */
  lemma PlainPrefix(prefix: string)
    requires forall i :: 0 <= i < |Markers| ==> Markers[i][0] !in prefix
    ensures PrefixStyle(JStr(prefix)) == Some(Normal)
  {
    forall i | 0 <= i < |Markers| ensures !Contains(prefix, Markers[i]) {
      LacksChar(prefix, Markers[i], 0);
    }
    assert Markers[0] == "Servidor" && Markers[1] == "ADMIN" && Markers[2] == "✅" && Markers[3] == "❌";
    assert Markers[4] == "⛔" && Markers[5] == "🎲" && Markers[6] == "⭐" && Markers[7] == "⚠️";
  }

  /** The optimistic echo of plain text is normal-styled and shows the text after "Tú". */
  lemma EchoShape(token: string, text: string)
    ensures Message(LocalIdPrefix + token, YouPrefix, text).style == Normal
    ensures Message(LocalIdPrefix + token, YouPrefix, text).content == "<strong>" + YouPrefix + "</strong>" + text
  {
    assert forall i :: 0 <= i < |Markers| ==> Markers[i][0] !in YouPrefix by {
      assert YouPrefix == ['💬', ' ', 'T', 'ú', ':', ' '];
    }
    PlainPrefix(YouPrefix);
  }

  // ---------------------------------------------------------------------------------------
  // Properties of conectar

  /** A blank name (after trimming) only sets the error text. */
  lemma ConnectBlankName(p: Page, reply: ConnectReply, timer: Timer)
    requires JsTrim(p.userInput) == ""
    ensures AfterConnect(p, reply, timer) == p.(error := EmptyNameError)
  {
  }

  /** An "ok" answer: the list is exactly the server-styled welcome notice, the chat view is
      shown, and exactly one interval runs, every 500 ms: the new one; nothing else changes. */
  lemma ConnectAccepted(p: Page, result: Json, timer: Timer)
    requires OneTimer(p)
    requires JsTrim(p.userInput) != "" && Member(result, "status") == Some(JStr("ok"))
    ensures var r := AfterConnect(p, Answered(result), timer);
            && r.entries == [Message(LoginId, LoginPrefix, WelcomeText + JsTrim(p.userInput))]
            && r.entries[0].style == Server
            && r.chatVisible && r.polling == Some(timer) && r.live == map[timer := PollPeriodMs]
            && OneTimer(r)
            && r.status == p.status && r.error == p.error
            && r.msgInput == p.msgInput && r.userInput == p.userInput
  {
    var name := JsTrim(p.userInput);
    assert AfterConnect(p, Answered(result), timer) == LoggedIn(p, name, timer);
    WelcomeIsServer(WelcomeText + name);
    LoggedInOneTimer(p, name, timer);
  }

  /** Any other outcome with a non-blank name only changes the error text: the server's
      message after a rejection, the fixed "unreachable" text after a failed request. */
  lemma ConnectRefused(p: Page, reply: ConnectReply, timer: Timer)
    requires JsTrim(p.userInput) != ""
    requires !(reply.Answered? && Member(reply.body, "status") == Some(JStr("ok")))
    ensures var r := AfterConnect(p, reply, timer);
            r == p.(error := r.error)
            && r.error == if reply.Unreachable? || reply.body == JNull then UnreachableError
                          else ServerErrorPrefix + JsMember(reply.body, "msg")
  {
  }

  // ---------------------------------------------------------------------------------------
  // The single polling interval

  lemma StepKeepsOneTimer(p: Page, d: Json, token: string)
    requires OneTimer(p)
    ensures OneTimer(Step(p, d, token))
  {
  }

  /** No poll response, however long, starts a second interval. */
  lemma {:induction false} RunKeepsOneTimer(p: Page, ds: seq<Json>, tokens: seq<string>)
    requires OneTimer(p) && |tokens| == |ds|
    ensures OneTimer(Run(p, ds, tokens))
    decreases |ds|
  {
    if ds != [] && !Stops(ds[0]) {
      StepKeepsOneTimer(p, ds[0], tokens[0]);
      RunKeepsOneTimer(Step(p, ds[0], tokens[0]), ds[1..], tokens[1..]);
    }
  }

  /** conectar cancels the interval it replaces, whatever the outcome. */
  lemma ConnectKeepsOneTimer(p: Page, reply: ConnectReply, timer: Timer)
    requires OneTimer(p)
    ensures OneTimer(AfterConnect(p, reply, timer))
  {
    var name := JsTrim(p.userInput);
    if name != "" && reply.Answered? && Member(reply.body, "status") == Some(JStr("ok")) {
      assert AfterConnect(p, reply, timer) == LoggedIn(p, name, timer);
      LoggedInOneTimer(p, name, timer);
    } else if name != "" {
      ConnectRefused(p, reply, timer);
    }
  }
}
