/** The bridge as it runs (cliente.py): one shared AppState object whose fields the receiver and
    the request handlers update in place.  Every method is specified by the pure function of
    module BridgeCore that it implements; the properties of those functions are proved there. */
module BridgeServer {
  import opened Wrappers
  import opened Text
  import opened Json
  import opened BridgeCore

  class AppState {
    var tcpSocket: Option<Socket>
    var connected: bool
    var messagesQueue: seq<Json>
    var username: string

    function Snapshot(): Bridge
      reads this
    {
      Bridge(connected, tcpSocket, username, messagesQueue)
    }

    constructor ()
      ensures Snapshot() == Fresh()
    {
      tcpSocket, connected, messagesQueue, username := None, false, [], "";
    }

    /** cerrar_conexion_tcp: only a connected bridge is torn down, and it queues the notice. */
    method CloseTcp()
      modifies this
      ensures Snapshot() == Close(old(Snapshot()))
    {
      if connected {
        connected := false;
        tcpSocket := None;
        username := "";
        messagesQueue := messagesQueue + [Notice()];
      }
    }

    /** `messages_queue.append(v)` for each of `vs` (a line contributes at most one value). */
    method Append(vs: seq<Json>)
      modifies this
      ensures Snapshot() == old(Snapshot()).(queue := old(messagesQueue) + vs)
    {
      messagesQueue := messagesQueue + vs;
    }

    /** The /poll critical section: copy the queue, then clear it. */
    method Drain() returns (msgs: seq<Json>)
      modifies this
      ensures msgs == old(messagesQueue)
      ensures Snapshot() == old(Snapshot()).(queue := [])
    {
      msgs := [];
      if messagesQueue != [] {
        msgs := messagesQueue;
        messagesQueue := [];
      }
    }

    /** The three fields handle_connect stores after the greeting went out. */
    method Attach(sock: Socket, name: string)
      modifies this
      ensures Snapshot() == old(Snapshot()).(socket := Some(sock), connected := true, username := name)
    {
      tcpSocket := Some(sock);
      connected := true;
      username := name;
    }
  }

  // ---------------------------------------------------------------------------------------
  // tcp_receiver

  lemma Associative(a: seq<Json>, b: seq<Json>, c: seq<Json>)
    ensures a + b + c == a + (b + c)
  {
  }

  /** Framing results chain: what is queued before `y`, then before `z`. */
  lemma FramedThen(x: Framed, y: Framed, z: Framed, q: seq<Json>, kept: seq<Json>)
    requires x == y.(queued := q + y.queued) && y == z.(queued := kept + z.queued)
    ensures x == z.(queued := (q + kept) + z.queued)
  {
    assert q + (kept + z.queued) == (q + kept) + z.queued;
  }

  /** `line_bytes, buffer_bytes = buffer_bytes.split(b"\n", 1)` and the handling of the line:
      what it contributes, and the buffer after it. */
  method CutLine(buf: seq<byte>, read: LineReader) returns (after: seq<byte>, kept: Option<seq<Json>>)
    requires Newline in buf
    ensures kept.None? ==> Frame(buf, read) == Framed([], after, false)
    ensures |after| < |buf|
    ensures kept.Some? ==> Frame(buf, read) == Frame(after, read).(queued := kept.value + Frame(after, read).queued)
  {
    FirstNewlineSpec(buf);
    var k := FirstNewline(buf).value;
    FrameAt(buf, k, read);
    after := buf[k + 1..];
    kept := read(buf[..k]);
  }

  /** The inner `while b"\n" in buffer_bytes` loop: every complete line is cut off the buffer
      (`split(b"\n", 1)`) and handed to `read`, which decodes, strips and parses it (ReadLine);
      what it keeps is queued, and `ok` is false when a line did not decode, which raises out of
      the loop. */
  method Absorb(state: AppState, buffer: seq<byte>, read: LineReader) returns (rest: seq<byte>, ok: bool)
    modifies state
    ensures var f := Frame(buffer, read);
            rest == f.rest && ok == f.ok
            && state.Snapshot() == old(state.Snapshot()).(queue := old(state.messagesQueue) + f.queued)
  {
    ghost var queued: seq<Json> := [];
    var buf := buffer;
    while Newline in buf
      invariant Frame(buffer, read) == Frame(buf, read).(queued := queued + Frame(buf, read).queued)
      invariant state.Snapshot() == old(state.Snapshot()).(queue := old(state.messagesQueue) + queued)
      decreases |buf|
    {
      var after, kept := CutLine(buf, read);
      if kept.None? {
        assert queued + [] == queued;
        return after, false;
      }
      state.Append(kept.value);
      FramedThen(Frame(buffer, read), Frame(buf, read), Frame(after, read), queued, kept.value);
      Associative(old(state.messagesQueue), queued, kept.value);
      queued := queued + kept.value;
      buf := after;
    }
    SettledFrame(buf, read);
    assert queued + [] == queued;
    return buf, true;
  }

  /** One pass of the outer loop body for the turn `t`. */
  method TurnOnce(state: AppState, buffer: seq<byte>, t: Read, read: LineReader) returns (next: seq<byte>, stop: bool)
    modifies state
    ensures Turned(state.Snapshot(), next, stop) == Turn(old(state.Snapshot()), buffer, t, read)
  {
    match t
    case Idle =>
      return buffer, false;
    case Failed =>
      return buffer, true;
    case Bytes(data) =>
      if data == [] {
        return buffer, true;
      }
      var ok;
      next, ok := Absorb(state, buffer + data, read);
      stop := !ok;
  }

  /** tcp_receiver, fed the given turns, with `read` = ReadLine(decode, parse): it loops while
      connected, and on leaving the loop it closes the connection.  `running` is true when the
      turns ran out first. */
  method TcpReceiver(state: AppState, turns: seq<Read>, read: LineReader) returns (buffer: seq<byte>, running: bool)
    modifies state
    ensures Listener(state.Snapshot(), buffer, running) == Receive(old(state.Snapshot()), [], turns, read)
  {
    buffer := [];
    var i := 0;
    while i < |turns| && state.connected && state.tcpSocket.Some?
      invariant 0 <= i <= |turns|
      invariant Receive(old(state.Snapshot()), [], turns, read) == Receive(state.Snapshot(), buffer, turns[i..], read)
    {
      assert turns[i..][0] == turns[i] && turns[i..][1..] == turns[i + 1..];
      var stop;
      buffer, stop := TurnOnce(state, buffer, turns[i], read);
      if stop {
        state.CloseTcp();
        return buffer, false;
      }
      i := i + 1;
    }
    if state.connected && state.tcpSocket.Some? {
      return buffer, true;
    }
    state.CloseTcp();
    return buffer, false;
  }

  // ---------------------------------------------------------------------------------------
  // The request handler

  /** The response dictionary a POST fills in. */
  class Response {
    var status: string
    var msg: Option<string>

    function Answer(): Answer
      reads this
    {
      BridgeCore.Answer(status, msg)
    }

    /** `{"status": "ok"}`. */
    constructor ()
      ensures Answer() == OkAnswer()
    {
      status, msg := "ok", None;
    }

    method Set(a: Answer)
      modifies this
      ensures Answer() == a
    {
      status, msg := a.status, a.msg;
    }
  }

  class RequestHandler {
    const state: AppState

    constructor (state: AppState)
      ensures this.state == state
    {
      this.state := state;
    }

    /** do_GET; `present` stands for os.path.exists. */
    method DoGet(path: string, present: string -> bool) returns (reply: Reply)
      modifies state
      ensures Served(state.Snapshot(), reply) == Get(old(state.Snapshot()), path, present)
    {
      if path == "/poll" {
        var msgs := state.Drain();
        reply := SendJson(JArr(msgs));
      } else if path == "/" || path == "/index.html" {
        reply := SendFile("index.html", "text/html");
      } else if path == "/style.css" {
        reply := SendFile("style.css", "text/css");
      } else if path == "/script.js" {
        reply := SendFile("script.js", "application/javascript");
      } else if StartsWith(path, GamesPrefix) {
        var filename := Segment(path);
        var file := PathJoin(GamesDir, filename);
        reply := if present(file) then SendFile(file, "text/html") else SendError(404);
      } else {
        reply := SendError(404);
      }
    }

    /** do_POST with the body already read; `sent` is what went to the chat server. */
    method DoPost(path: string, body: string, parse: Parser, net: Net) returns (answer: Answer, sent: Option<string>)
      modifies state
      ensures Handled(state.Snapshot(), answer, sent) == Post(old(state.Snapshot()), path, body, parse, net)
    {
      var response := new Response();
      sent := None;
      if path == "/connect" {
        sent := HandleConnect(body, response, parse, net);
      } else if path == "/send" {
        sent := HandleSend(body, response, parse, net);
      } else if path == "/disconnect" {
        state.CloseTcp();
      }
      answer := response.Answer();
    }

    method HandleConnect(body: string, response: Response, parse: Parser, net: Net) returns (sent: Option<string>)
      modifies state, response
      ensures Handled(state.Snapshot(), response.Answer(), sent)
              == BridgeCore.HandleConnect(old(state.Snapshot()), old(response.Answer()), body, parse, net)
    {
      sent := None;
      var a := response.Answer();
      match parse(body)
      case Err(e) =>
        response.Set(a.(status := "error", msg := Some(e)));
      case Ok(data) =>
        if !data.JObj? {
          response.Set(a.(status := "error", msg := Some(NoAttribute(data, "get"))));
          return;
        }
        var user := Lookup(data, "username");
        if state.connected {
          response.Set(a.(msg := Some("Ya conectado")));
          return;
        }
        match net.open
        case Err(e) =>
          response.Set(a.(status := "error", msg := Some(e)));
        case Ok(sock) =>
          if !user.JStr? {
            response.Set(a.(status := "error", msg := Some(NoAttribute(user, "encode"))));
            return;
          }
          match net.hello
          case Fail(e) =>
            response.Set(a.(status := "error", msg := Some(e)));
          case Pass =>
            sent := Some(user.text);
            state.Attach(sock, user.text);
            response.Set(a.(msg := Some("Conectado")));
    }

    method HandleSend(body: string, response: Response, parse: Parser, net: Net) returns (sent: Option<string>)
      modifies response
      ensures Handled(state.Snapshot(), response.Answer(), sent)
              == BridgeCore.HandleSend(state.Snapshot(), old(response.Answer()), body, parse, net)
    {
      sent := None;
      if !state.connected {
        return;
      }
      var a := response.Answer();
      match parse(body)
      case Err(_) =>
        response.Set(a.(status := "error"));
      case Ok(data) =>
        var msg := Lookup(data, "message");
        if !data.JObj? || !msg.JStr? || state.tcpSocket.None? {
          response.Set(a.(status := "error"));
          return;
        }
        match net.send
        case Fail(_) =>
          response.Set(a.(status := "error"));
        case Pass =>
          sent := Some(msg.text);
    }
  }
}
