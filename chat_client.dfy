/** The browser script as it runs: the page is one object whose fields the handlers update in
    place.  Each handler is specified by the pure transition of module ChatScript that it
    implements; the properties of those transitions are proved there. */
module ChatClient {
  import opened Wrappers
  import opened Json
  import opened Text
  import opened ChatScript

  class Client {
    var entries: seq<Entry>
    var status: string
    var error: string
    var msgInput: string
    var userInput: string
    var chatVisible: bool
    var polling: Option<Timer>
    var live: map<Timer, nat>

    function Snapshot(): Page
      reads this
    {
      Page(entries, status, error, msgInput, userInput, chatVisible, polling, live)
    }

    constructor ()
      ensures Snapshot() == Initial()
    {
      entries, status, error, msgInput, userInput := [], "", "", "", "";
      chatVisible, polling, live := false, None, map[];
    }

    /** location.reload(): the page, its script state and its intervals start afresh. */
    method Reload()
      modifies this
      ensures Snapshot() == Initial()
    {
      entries, status, error, msgInput, userInput := [], "", "", "", "";
      chatVisible, polling, live := false, None, map[];
    }

    /** desconectar: the /disconnect notification is best effort, then the page reloads. */
    method Disconnect()
      modifies this
      ensures Snapshot() == Initial()
    {
      Reload();
    }

    /** agregarMensajeHTML with string arguments: one child appended to the chat area. */
    method AddMessage(id: string, prefix: string, payload: string)
      modifies this
      ensures Snapshot() == old(Snapshot()).(entries := old(entries) + [Message(id, prefix, payload)])
    {
      var style := if HasMarker(JStr(prefix)) then Server else Normal;
      var safePrefix := if prefix != "" then "<strong>" + prefix + "</strong>" else "";
      entries := entries + [Entry(Some(id), style, safePrefix + payload, false)];
    }

    /** document.getElementById(target) among the children of the chat area. */
    method FindById(target: string) returns (k: Option<nat>)
      ensures k == IndexOfId(entries, target)
    {
      if target == "" {
        return None;
      }
      var i := 0;
      while i < |entries|
        invariant 0 <= i <= |entries|
        invariant forall j :: 0 <= j < i ==> !Names(entries[j], target)
        invariant IndexOfId(entries, target)
                  == match IndexOfId(entries[i..], target)
                     case None => None
                     case Some(j) => Some(i + j)
      {
        if entries[i].id == Some(target) {
          return Some(i);
        }
        i := i + 1;
      }
      return None;
    }

    /** procesarMensaje(d); `thrown` tells the caller that a TypeError escaped, `reloading` that
        the page is being reloaded. */
    method ProcessEvent(d: Json, token: string) returns (thrown: bool, reloading: bool)
      modifies this
      ensures thrown <==> Classify(d).Fault?
      ensures reloading <==> Classify(d).ForcedReset?
      ensures Snapshot() == Step(old(Snapshot()), d, token)
    {
      thrown, reloading := false, false;
      match Classify(d)
      case Ignore =>
      case Fault =>
        thrown := true;
      case ForcedReset(notice) =>
        Reload();
        reloading := true;
      case ShowStatus(text) =>
        status := text;
      case AddChat(id, style, content) =>
        var name := if id.Some? then id.value else SyntheticIdPrefix + token;
        entries := entries + [Entry(Some(name), style, content, false)];
      case ClearAll =>
        entries := [ClearedEntry()];
      case DeleteById(target) =>
        var k := FindById(target);
        if k.Some? {
          entries := entries[k.value := entries[k.value].(content := DeletedPlaceholder, deleted := true)];
        }
    }

    /** verificarMensajes: the events of an array body, one by one in array order. */
    method VerifyMessages(reply: PollReply, tokens: seq<string>)
      requires reply.Polled? && reply.body.JArr? ==> |tokens| == |reply.body.items|
      modifies this
      ensures Snapshot() == AfterPoll(old(Snapshot()), reply, tokens)
    {
      if !(reply.Polled? && reply.body.JArr?) {
        return;
      }
      var items := reply.body.items;
      var i := 0;
      while i < |items|
        invariant 0 <= i <= |items|
        invariant Run(old(Snapshot()), items, tokens) == Run(Snapshot(), items[i..], tokens[i..])
      {
        ghost var before := Snapshot();
        assert items[i..][0] == items[i] && tokens[i..][0] == tokens[i];
        var thrown, reloading := ProcessEvent(items[i], tokens[i]);
        if thrown || reloading {
          return;
        }
        assert items[i..][1..] == items[i + 1..] && tokens[i..][1..] == tokens[i + 1..];
        i := i + 1;
      }
    }

    /** enviarMensaje with the current text of the message box; `token` stands for Date.now()
        and `failed` for a rejected fetch('/send'). */
    method SendMessage(token: string, failed: bool)
      modifies this
      ensures Snapshot() == AfterSend(old(Snapshot()), token, failed)
    {
      var msg := msgInput;
      if msg == "" {
        return;
      }
      if !StartsWith(msg, CommandSentinel) {
        AddMessage(LocalIdPrefix + token, YouPrefix, msg);
      }
      msgInput := "";
      if failed {
        AddMessage(SendErrorId, SendErrorPrefix, SendErrorText);
      }
    }

    /** The "ok" branch of conectar: show the chat, write the welcome notice, and replace the
        polling interval by the new one. */
    method Login(name: string, timer: Timer)
      modifies this
      ensures Snapshot() == LoggedIn(old(Snapshot()), name, timer)
    {
      chatVisible := true;
      entries := [];
      AddMessage(LoginId, LoginPrefix, WelcomeText + name);
      if polling.Some? {
        live := live - {polling.value};
      }
      polling := Some(timer);
      live := live[timer := PollPeriodMs];
    }

    /** The error label of the login form. */
    method ShowError(text: string)
      modifies this
      ensures Snapshot() == old(Snapshot()).(error := text)
    {
      error := text;
    }

    /** conectar with the current text of the user box; `timer` is the handle setInterval
        returns. */
    method Connect(reply: ConnectReply, timer: Timer)
      modifies this
      ensures Snapshot() == AfterConnect(old(Snapshot()), reply, timer)
    {
      ghost var p := Snapshot();
      var username := JsTrim(userInput);
      if username == "" {
        ShowError(EmptyNameError);
        return;
      }
      if reply.Unreachable? || reply.body == JNull {
        ShowError(UnreachableError);
        return;
      }
      var result := reply.body;
      if Member(result, "status") == Some(JStr("ok")) {
        assert AfterConnect(p, reply, timer) == LoggedIn(p, username, timer);
        Login(username, timer);
      } else {
        assert AfterConnect(p, reply, timer) == p.(error := ServerErrorPrefix + JsMember(result, "msg"));
        ShowError(ServerErrorPrefix + JsMember(result, "msg"));
      }
    }
  }
}
