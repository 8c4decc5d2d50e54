/** Pure model of the bridge (cliente.py): the shared state, the close routine, how the receiver
    frames the byte stream from the chat server into queued JSON events, the /poll drain, the
    GET routing and the POST handlers.  Sockets are opaque handles; the outcome of every socket
    call, of the UTF-8 decoder and of the JSON parser is supplied by the caller.  The classes
    that update this state in place are in module BridgeServer. */
module BridgeCore {
  import opened Wrappers
  import opened Text
  import opened Json

  type byte = x: int | 0 <= x < 256
  /** A socket handle. */
  type Socket = nat
  /** `bytes.decode('utf-8')`: `None` when the bytes are not valid UTF-8. */
  type Decoder = seq<byte> -> Option<string>
  /** `json.loads`: `Err(m)` carries `str(e)` of the exception it raises. */
  type Parser = string -> Result<Json>

  const Newline: byte := 10
  const DisconnectedPayload := "🔴 Desconectado"
  const GamesPrefix := "/games/"
  const GamesDir := "MignaGames"

  /** The fields of AppState that the handlers read and write (the lock and the activity clock
      are not modelled). */
  datatype Bridge = Bridge(connected: bool, socket: Option<Socket>, username: string, queue: seq<Json>)

  /** AppState() as constructed. */
  function Fresh(): Bridge
  {
    Bridge(false, None, "", [])
  }

  /** A socket is held exactly while connected, and only a connection has a user name. */
  predicate Valid(s: Bridge)
  {
    (s.connected <==> s.socket.Some?) && (!s.connected ==> s.username == "")
  }

  // ---------------------------------------------------------------------------------------
  // cerrar_conexion_tcp

  /** The event the close routine queues for the browser. */
  function Notice(): Json
  {
    StatusEvent(DisconnectedPayload)
  }

  function Close(s: Bridge): Bridge
  {
    if s.connected then Bridge(false, None, "", s.queue + [Notice()]) else s
  }

  lemma CloseDisconnects(s: Bridge)
    requires s.connected
    ensures var r := Close(s);
            !r.connected && r.socket == None && r.username == "" && r.queue == s.queue + [Notice()]
  {
  }

  /** Closing twice is closing once: the second call finds the bridge disconnected. */
  lemma CloseIdempotent(s: Bridge)
    ensures !Close(s).connected
    ensures Close(Close(s)) == Close(s)
    ensures !s.connected ==> Close(s) == s
  {
  }

  lemma CloseKeepsValid(s: Bridge)
    requires Valid(s)
    ensures Valid(Close(s))
  {
  }

  // ---------------------------------------------------------------------------------------
  // Line framing in tcp_receiver

  /** The first newline of `buf` at or after `i`, if there is one. */
  function NewlineFrom(buf: seq<byte>, i: nat): (r: Option<nat>)
    requires i <= |buf|
    ensures r.Some? ==> i <= r.value < |buf| && buf[r.value] == Newline
    decreases |buf| - i
  {
    if i == |buf| then None
    else if buf[i] == Newline then Some(i)
    else NewlineFrom(buf, i + 1)
  }

  /** Where `buf.split(b"\n", 1)` cuts: the position of the first newline, if there is one. */
  function FirstNewline(buf: seq<byte>): (r: Option<nat>)
    ensures r.Some? ==> r.value < |buf| && buf[r.value] == Newline
  {
    NewlineFrom(buf, 0)
  }

  lemma {:induction false} NewlineFromSpec(buf: seq<byte>, i: nat)
    requires i <= |buf|
    ensures NewlineFrom(buf, i).None? <==> forall j :: i <= j < |buf| ==> buf[j] != Newline
    ensures NewlineFrom(buf, i).Some? ==> forall j :: i <= j < NewlineFrom(buf, i).value ==> buf[j] != Newline
    decreases |buf| - i
  {
    if i < |buf| && buf[i] != Newline {
      NewlineFromSpec(buf, i + 1);
    }
  }

  /** The cut is at the first newline, and there is none exactly when the buffer has none. */
  lemma FirstNewlineSpec(buf: seq<byte>)
    ensures FirstNewline(buf).None? <==> Newline !in buf
    ensures FirstNewline(buf).Some? ==> forall i :: 0 <= i < FirstNewline(buf).value ==> buf[i] != Newline
  {
    NewlineFromSpec(buf, 0);
  }

  /** What one decoded line adds to the queue: nothing when blank after `strip()` or when
      `json.loads` raises, else the parsed value. */
  function Keep(text: string, parse: Parser): seq<Json>
  {
    var line := PyStrip(text);
    if line == [] then []
    else match parse(line)
      case Ok(j) => [j]
      case Err(_) => []
  }

  /** A line made only of whitespace, or one the parser rejects once stripped, is dropped; any
      other line is queued as its parsed value. */
  lemma KeepRule(text: string, parse: Parser)
    ensures (forall i :: 0 <= i < |text| ==> PySpace(text[i])) ==> Keep(text, parse) == []
    ensures Keep(text, parse) == [] <==> PyStrip(text) == [] || parse(PyStrip(text)).Err?
    ensures Keep(text, parse) != [] ==> Keep(text, parse) == [parse(PyStrip(text)).value]
  {
  }

  /** What one line contributes: `None` when decoding it raises, else the kept values. */
  type LineReader = seq<byte> -> Option<seq<Json>>

  function ReadLine(decode: Decoder, parse: Parser): LineReader
  {
    line => if decode(line).None? then None else Some(Keep(decode(line).value, parse))
  }

  /** The outcome of the inner `while b"\n" in buffer_bytes` loop: what it queued, the buffer it
      leaves, and `ok == false` when a line failed to decode (the exception ends the receiver). */
  datatype Framed = Framed(queued: seq<Json>, rest: seq<byte>, ok: bool)

  function Frame(buf: seq<byte>, read: LineReader): Framed
    decreases |buf|
  {
    match FirstNewline(buf)
    case None => Framed([], buf, true)
    case Some(k) =>
      match read(buf[..k])
      case None => Framed([], buf[k + 1..], false)
      case Some(kept) =>
        var f := Frame(buf[k + 1..], read);
        f.(queued := kept + f.queued)
  }

  predicate NoNewline(s: seq<byte>)
  {
    Newline !in s
  }

  /** A buffer without a newline is left as it is. */
  lemma SettledFrame(buf: seq<byte>, read: LineReader)
    requires NoNewline(buf)
    ensures Frame(buf, read) == Framed([], buf, true)
  {
    FirstNewlineSpec(buf);
  }

  /** One pass of the loop body, for a buffer whose first newline is at `k`. */
  lemma FrameAt(buf: seq<byte>, k: nat, read: LineReader)
    requires k < |buf| && buf[k] == Newline && forall i :: 0 <= i < k ==> buf[i] != Newline
    ensures Frame(buf, read)
            == if read(buf[..k]).None? then Framed([], buf[k + 1..], false)
               else Frame(buf[k + 1..], read).(queued := read(buf[..k]).value + Frame(buf[k + 1..], read).queued)
  {
    FirstNewlineSpec(buf);
    assert FirstNewline(buf) == Some(k);
  }

  /** The same pass, for a buffer written as its first line, a newline and the rest. */
  lemma FrameCons(line: seq<byte>, rest: seq<byte>, read: LineReader)
    requires NoNewline(line)
    ensures Frame(line + [Newline] + rest, read)
            == if read(line).None? then Framed([], rest, false)
               else Frame(rest, read).(queued := read(line).value + Frame(rest, read).queued)
  {
    var buf := line + [Newline] + rest;
    assert forall i :: 0 <= i < |line| ==> buf[i] == line[i] && line[i] in line;
    assert buf[..|line|] == line && buf[|line| + 1..] == rest;
    FrameAt(buf, |line|, read);
  }

  /** A buffer with a newline, written as its first line, a newline and the rest. */
  lemma SplitFirst(buf: seq<byte>) returns (line: seq<byte>, rest: seq<byte>)
    requires Newline in buf
    ensures buf == line + [Newline] + rest && NoNewline(line)
    ensures FirstNewline(buf) == Some(|line|)
  {
    FirstNewlineSpec(buf);
    var k := FirstNewline(buf).value;
    line, rest := buf[..k], buf[k + 1..];
    assert buf == line + [Newline] + rest;
    assert forall i :: 0 <= i < |line| ==> line[i] == buf[i];
  }

  // A reference reading of a buffer: complete lines, each followed by a newline, then a tail.

  function Joined(lines: seq<seq<byte>>): seq<byte>
  {
    if lines == [] then [] else lines[0] + [Newline] + Joined(lines[1..])
  }

  /** The queue contribution of lines that all decode. */
  function KeptAll(lines: seq<seq<byte>>, read: LineReader): seq<Json>
    requires forall i :: 0 <= i < |lines| ==> read(lines[i]).Some?
  {
    if lines == [] then [] else read(lines[0]).value + KeptAll(lines[1..], read)
  }

  lemma JoinedCons(lines: seq<seq<byte>>, tail: seq<byte>)
    requires lines != []
    ensures Joined(lines) + tail == lines[0] + [Newline] + (Joined(lines[1..]) + tail)
  {
  }

  /** Every buffer has the reference reading. */
  lemma {:induction false} SplitExists(buf: seq<byte>) returns (lines: seq<seq<byte>>, tail: seq<byte>)
    ensures buf == Joined(lines) + tail && NoNewline(tail)
    ensures forall i :: 0 <= i < |lines| ==> NoNewline(lines[i])
    decreases |buf|
  {
    if Newline !in buf {
      lines, tail := [], buf;
    } else {
      var line, rest := SplitFirst(buf);
      var more;
      more, tail := SplitExists(rest);
      lines := [line] + more;
      assert lines[1..] == more;
    }
  }

  /** When every complete line decodes, the loop queues the kept lines in order and leaves
      exactly the tail after the last newline. */
  lemma FrameAllDecoded(lines: seq<seq<byte>>, tail: seq<byte>, read: LineReader)
    requires NoNewline(tail) && forall i :: 0 <= i < |lines| ==> NoNewline(lines[i])
    requires forall i :: 0 <= i < |lines| ==> read(lines[i]).Some?
    ensures Frame(Joined(lines) + tail, read) == Framed(KeptAll(lines, read), tail, true)
  {
    FrameLines(lines, tail, read);
    SettledFrame(tail, read);
    assert KeptAll(lines, read) + [] == KeptAll(lines, read);
  }

  /** What the bridge keeps of lines that all decode: each line's text, stripped and parsed. */
  function KeptTexts(lines: seq<seq<byte>>, decode: Decoder, parse: Parser): seq<Json>
    requires forall i :: 0 <= i < |lines| ==> decode(lines[i]).Some?
  {
    if lines == [] then [] else Keep(decode(lines[0]).value, parse) + KeptTexts(lines[1..], decode, parse)
  }

  lemma {:induction false} KeptAllReadLine(lines: seq<seq<byte>>, decode: Decoder, parse: Parser)
    requires forall i :: 0 <= i < |lines| ==> decode(lines[i]).Some?
    ensures forall i :: 0 <= i < |lines| ==> ReadLine(decode, parse)(lines[i]).Some?
    ensures KeptAll(lines, ReadLine(decode, parse)) == KeptTexts(lines, decode, parse)
    decreases |lines|
  {
    if lines != [] {
      KeptAllReadLine(lines[1..], decode, parse);
    }
  }

  /** The loop with the bridge's own reader: when every complete line is valid UTF-8, it queues,
      in order, the parsed value of each line that is neither blank after `strip()` nor rejected
      by `json.loads`, and leaves the tail. */
  lemma BridgeFrames(lines: seq<seq<byte>>, tail: seq<byte>, decode: Decoder, parse: Parser)
    requires NoNewline(tail) && forall i :: 0 <= i < |lines| ==> NoNewline(lines[i])
    requires forall i :: 0 <= i < |lines| ==> decode(lines[i]).Some?
    ensures Frame(Joined(lines) + tail, ReadLine(decode, parse)) == Framed(KeptTexts(lines, decode, parse), tail, true)
  {
    KeptAllReadLine(lines, decode, parse);
    FrameAllDecoded(lines, tail, ReadLine(decode, parse));
  }

  /** A line that does not decode ends the loop: only the lines before it are queued. */
  lemma {:induction false} FrameUndecodable(lines: seq<seq<byte>>, tail: seq<byte>, j: nat, read: LineReader)
    requires NoNewline(tail) && forall i :: 0 <= i < |lines| ==> NoNewline(lines[i])
    requires j < |lines| && read(lines[j]).None?
    requires forall i :: 0 <= i < j ==> read(lines[i]).Some?
    ensures !Frame(Joined(lines) + tail, read).ok
    ensures Frame(Joined(lines) + tail, read).queued == KeptAll(lines[..j], read)
    decreases j
  {
    var rest := Joined(lines[1..]) + tail;
    var f := Frame(Joined(lines) + tail, read);
    assert f == Frame(lines[0] + [Newline] + rest, read) by {
      JoinedCons(lines, tail);
    }
    if j == 0 {
      assert f == Framed([], rest, false) by {
        FrameCons(lines[0], rest, read);
      }
    } else {
      var q := read(lines[0]).value;
      assert f == Frame(rest, read).(queued := q + Frame(rest, read).queued) by {
        FrameCons(lines[0], rest, read);
      }
      assert !Frame(rest, read).ok && Frame(rest, read).queued == KeptAll(lines[1..][..j - 1], read) by {
        FrameUndecodable(lines[1..], tail, j - 1, read);
      }
      assert KeptAll(lines[..j], read) == q + KeptAll(lines[1..][..j - 1], read) by {
        assert lines[..j][0] == lines[0] && lines[..j][1..] == lines[1..][..j - 1];
      }
    }
  }

  lemma {:induction false} FirstUndecodable(lines: seq<seq<byte>>, read: LineReader, i: nat) returns (j: nat)
    requires i < |lines| && read(lines[i]).None?
    ensures j <= i && read(lines[j]).None?
    ensures forall k :: 0 <= k < j ==> read(lines[k]).Some?
    decreases i
  {
    if exists k :: 0 <= k < i && read(lines[k]).None? {
      var k :| 0 <= k < i && read(lines[k]).None?;
      j := FirstUndecodable(lines, read, k);
    } else {
      j := i;
    }
  }

  lemma {:induction false} JoinedEndsWithNewline(lines: seq<seq<byte>>)
    requires lines != []
    ensures |Joined(lines)| > 0 && Joined(lines)[|Joined(lines)| - 1] == Newline
    decreases |lines|
  {
    if |lines| > 1 {
      JoinedEndsWithNewline(lines[1..]);
    }
  }

  /** A successful pass decoded every complete line. */
  lemma AllDecoded(lines: seq<seq<byte>>, tail: seq<byte>, read: LineReader)
    requires NoNewline(tail) && forall i :: 0 <= i < |lines| ==> NoNewline(lines[i])
    requires Frame(Joined(lines) + tail, read).ok
    ensures forall i :: 0 <= i < |lines| ==> read(lines[i]).Some?
  {
    forall i | 0 <= i < |lines| ensures read(lines[i]).Some? {
      if read(lines[i]).None? {
        var j := FirstUndecodable(lines, read, i);
        FrameUndecodable(lines, tail, j, read);
      }
    }
  }

  /** After a successful pass the buffer holds no newline and is what followed the last one. */
  lemma FrameRest(buf: seq<byte>, read: LineReader)
    requires Frame(buf, read).ok
    ensures var r := Frame(buf, read).rest;
            NoNewline(r) && |r| <= |buf| && buf[|buf| - |r|..] == r
            && (|r| < |buf| ==> buf[|buf| - |r| - 1] == Newline)
  {
    var lines, tail := SplitExists(buf);
    AllDecoded(lines, tail, read);
    FrameAllDecoded(lines, tail, read);
    if lines != [] {
      JoinedEndsWithNewline(lines);
    }
  }

  /** A blank or unparsable line is dropped and the lines after it are framed as if it had
      never been sent. */
  lemma DroppedLine(line: seq<byte>, rest: seq<byte>, read: LineReader)
    requires NoNewline(line) && read(line) == Some([])
    ensures Frame(line + [Newline] + rest, read) == Frame(rest, read)
  {
    FrameCons(line, rest, read);
    assert [] + Frame(rest, read).queued == Frame(rest, read).queued;
  }

  /** Complete lines that all decode, followed by anything: their kept values come first, then
      whatever the remainder frames to. */
  lemma {:induction false} FrameLines(lines: seq<seq<byte>>, c: seq<byte>, read: LineReader)
    requires forall i :: 0 <= i < |lines| ==> NoNewline(lines[i]) && read(lines[i]).Some?
    ensures Frame(Joined(lines) + c, read) == Frame(c, read).(queued := KeptAll(lines, read) + Frame(c, read).queued)
    decreases |lines|
  {
    if lines == [] {
      assert Joined(lines) + c == c;
      assert KeptAll(lines, read) + Frame(c, read).queued == Frame(c, read).queued;
    } else {
      var rest := Joined(lines[1..]) + c;
      var q, f := read(lines[0]).value, Frame(c, read);
      var k1 := KeptAll(lines[1..], read);
      assert Joined(lines) + c == lines[0] + [Newline] + rest by {
        JoinedCons(lines, c);
      }
      assert Frame(lines[0] + [Newline] + rest, read) == Frame(rest, read).(queued := q + Frame(rest, read).queued) by {
        FrameCons(lines[0], rest, read);
      }
      assert Frame(rest, read) == f.(queued := k1 + f.queued) by {
        FrameLines(lines[1..], c, read);
      }
      assert KeptAll(lines, read) == q + k1;
      assert q + (k1 + f.queued) == (q + k1) + f.queued;
    }
  }

  /** Where the stream is cut into reads does not matter: framing what was left over together
      with the next chunk continues the framing of the whole stream. */
  lemma FrameChunks(a: seq<byte>, b: seq<byte>, read: LineReader)
    requires Frame(a, read).ok
    ensures var fa := Frame(a, read);
            var fb := Frame(fa.rest + b, read);
            Frame(a + b, read) == fb.(queued := fa.queued + fb.queued)
  {
    var lines, tail := SplitExists(a);
    AllDecoded(lines, tail, read);
    assert Frame(a, read) == Framed(KeptAll(lines, read), tail, true) by {
      FrameAllDecoded(lines, tail, read);
    }
    assert a + b == Joined(lines) + (tail + b);
    FrameLines(lines, tail + b, read);
  }

  lemma FrameAssoc(a: seq<byte>, b: seq<byte>, c: seq<byte>, read: LineReader)
    ensures Frame(a + (b + c), read) == Frame((a + b) + c, read)
  {
    assert a + (b + c) == (a + b) + c;
  }

  // ---------------------------------------------------------------------------------------
  // tcp_receiver

  /** One turn of the receive loop: `select` timed out, `recv` returned bytes (none at end of
      stream), or a socket call raised. */
  datatype Read = Idle | Bytes(data: seq<byte>) | Failed

  /** The bytes a turn delivers. */
  function Chunk(t: Read): seq<byte>
  {
    if t.Bytes? then t.data else []
  }

  /** All bytes the turns delivered, in order. */
  function Stream(turns: seq<Read>): seq<byte>
  {
    if turns == [] then [] else Chunk(turns[0]) + Stream(turns[1..])
  }

  /** One pass of the outer loop body: the new state and buffer, and whether the loop breaks. */
  datatype Turned = Turned(state: Bridge, buffer: seq<byte>, stop: bool)

  function Turn(s: Bridge, buf: seq<byte>, t: Read, read: LineReader): Turned
  {
    match t
    case Idle => Turned(s, buf, false)
    case Failed => Turned(s, buf, true)
    case Bytes(data) =>
      if data == [] then Turned(s, buf, true)
      else
        var f := Frame(buf + data, read);
        Turned(s.(queue := s.queue + f.queued), f.rest, !f.ok)
  }

  /** Where the receiver is after the turns it was given: `running` when it is still waiting for
      more, otherwise it has left its loop and closed the connection. */
  datatype Listener = Listener(state: Bridge, buffer: seq<byte>, running: bool)

  function Receive(s: Bridge, buf: seq<byte>, turns: seq<Read>, read: LineReader): Listener
    decreases |turns|
  {
    if !(s.connected && s.socket.Some?) then Listener(Close(s), buf, false)
    else if turns == [] then Listener(s, buf, true)
    else
      var t := Turn(s, buf, turns[0], read);
      if t.stop then Listener(Close(t.state), t.buffer, false)
      else Receive(t.state, t.buffer, turns[1..], read)
  }

  /** A turn that does not break frames its bytes onto the settled buffer. */
  lemma TurnFrames(s: Bridge, buf: seq<byte>, t: Read, read: LineReader)
    requires NoNewline(buf)
    ensures var f := Frame(buf + Chunk(t), read);
            !Turn(s, buf, t, read).stop
            ==> f.ok && Turn(s, buf, t, read) == Turned(s.(queue := s.queue + f.queued), f.rest, false)
  {
    if t.Idle? {
      assert buf + Chunk(t) == buf;
      SettledFrame(buf, read);
      assert s.queue + [] == s.queue;
    }
  }

  /** `r` is where the receiver is after starting from `s` and `f` the framing of the whole
      stream: while it runs, the queue holds exactly what `f` queued and the buffer is its
      leftover. */
  ghost predicate TrackedBy(r: Listener, s: Bridge, f: Framed)
  {
    r.running ==> r.state == s.(queue := s.queue + f.queued) && r.buffer == f.rest && f.ok
  }

  /** While the receiver runs, its state is what framing the whole stream at once would give. */
  ghost predicate Tracks(s: Bridge, buf: seq<byte>, turns: seq<Read>, read: LineReader)
  {
    TrackedBy(Receive(s, buf, turns, read), s, Frame(buf + Stream(turns), read))
  }

  lemma TrackedCompose(r: Listener, s: Bridge, f: Framed, g: Framed, whole: Framed)
    requires whole == g.(queued := f.queued + g.queued)
    requires TrackedBy(r, s.(queue := s.queue + f.queued), g)
    ensures TrackedBy(r, s, whole)
  {
    assert s.queue + f.queued + g.queued == s.queue + whole.queued;
  }

  /** The first turn of the stream, framed on its own, and then the rest. */
  lemma StreamSplit(buf: seq<byte>, turns: seq<Read>, read: LineReader)
    requires turns != [] && Frame(buf + Chunk(turns[0]), read).ok
    ensures var f := Frame(buf + Chunk(turns[0]), read);
            var g := Frame(f.rest + Stream(turns[1..]), read);
            Frame(buf + Stream(turns), read) == g.(queued := f.queued + g.queued)
  {
    var c, b := Chunk(turns[0]), Stream(turns[1..]);
    assert Stream(turns) == c + b;
    FrameAssoc(buf, c, b, read);
    FrameChunks(buf + c, b, read);
  }

  lemma TracksStep(s: Bridge, buf: seq<byte>, turns: seq<Read>, read: LineReader)
    requires NoNewline(buf) && turns != [] && s.connected && s.socket.Some?
    requires var t := Turn(s, buf, turns[0], read);
             !t.stop ==> Tracks(t.state, t.buffer, turns[1..], read)
    ensures Tracks(s, buf, turns, read)
  {
    var t := Turn(s, buf, turns[0], read);
    if !t.stop {
      var f := Frame(buf + Chunk(turns[0]), read);
      assert f.ok && t == Turned(s.(queue := s.queue + f.queued), f.rest, false) by {
        TurnFrames(s, buf, turns[0], read);
      }
      StreamSplit(buf, turns, read);
      TrackedCompose(Receive(s, buf, turns, read), s, f, Frame(f.rest + Stream(turns[1..]), read),
                     Frame(buf + Stream(turns), read));
    }
  }

  lemma {:induction false} ReceiveFramesStream(s: Bridge, buf: seq<byte>, turns: seq<Read>, read: LineReader)
    requires NoNewline(buf)
    ensures Tracks(s, buf, turns, read)
    decreases |turns|
  {
    if !(s.connected && s.socket.Some?) {
    } else if turns == [] {
      assert buf + Stream(turns) == buf;
      SettledFrame(buf, read);
    } else {
      var t := Turn(s, buf, turns[0], read);
      if !t.stop {
        TurnFrames(s, buf, turns[0], read);
        FrameRest(buf + Chunk(turns[0]), read);
        ReceiveFramesStream(t.state, t.buffer, turns[1..], read);
      }
      TracksStep(s, buf, turns, read);
    }
  }

  /** A turn only appends to the queue. */
  lemma TurnExtends(s: Bridge, buf: seq<byte>, t: Read, read: LineReader)
    ensures var n := Turn(s, buf, t, read).state;
            n == s.(queue := n.queue) && |n.queue| >= |s.queue| && n.queue[..|s.queue|] == s.queue
  {
  }

  /** A receiver that leaves its loop has closed the connection: the bridge is disconnected and
      the close notice is the last queued event, after everything queued before. */
  lemma {:induction false} ReceiveEndsClosed(s: Bridge, buf: seq<byte>, turns: seq<Read>, read: LineReader)
    requires s.connected && s.socket.Some?
    ensures var r := Receive(s, buf, turns, read);
            !r.running ==> !r.state.connected && r.state.socket == None
                           && |r.state.queue| > |s.queue| && r.state.queue[..|s.queue|] == s.queue
                           && r.state.queue[|r.state.queue| - 1] == Notice()
    decreases |turns|
  {
    if turns != [] {
      var t := Turn(s, buf, turns[0], read);
      TurnExtends(s, buf, turns[0], read);
      if t.stop {
        assert Close(t.state).queue[..|s.queue|] == s.queue;
      } else {
        ReceiveEndsClosed(t.state, t.buffer, turns[1..], read);
        var q := Receive(t.state, t.buffer, turns[1..], read);
        if !q.running {
          assert q.state.queue[..|s.queue|] == q.state.queue[..|t.state.queue|][..|s.queue|];
        }
      }
    }
  }

  lemma {:induction false} ReceiveKeepsValid(s: Bridge, buf: seq<byte>, turns: seq<Read>, read: LineReader)
    requires Valid(s)
    ensures Valid(Receive(s, buf, turns, read).state)
    decreases |turns|
  {
    if s.connected && s.socket.Some? && turns != [] {
      var t := Turn(s, buf, turns[0], read);
      TurnExtends(s, buf, turns[0], read);
      if !t.stop {
        ReceiveKeepsValid(t.state, t.buffer, turns[1..], read);
      }
    }
  }

  // ---------------------------------------------------------------------------------------
  // do_GET

  /** The text `path.split(sep)[1]` yields when `path` starts with `sep`: what follows the first
      `sep`, up to the next one. */
  function Before(s: string, sep: string): (r: string)
    requires sep != []
    ensures StartsWith(s, r)
    ensures r == s || StartsWith(s[|r|..], sep)
    ensures forall i :: 0 <= i < |r| ==> !StartsWith(s[i..], sep)
    decreases |s|
  {
    if StartsWith(s, sep) || s == [] then []
    else
      var r := [s[0]] + Before(s[1..], sep);
      assert forall i :: 1 <= i < |r| ==> s[i..] == s[1..][i - 1..];
      r
  }

  /** Without a further separator, the split keeps the whole text. */
  lemma BeforeWhole(s: string, sep: string)
    requires sep != [] && !Contains(s, sep)
    ensures Before(s, sep) == s
  {
    var r := Before(s, sep);
    if r != s {
      ContainsFromOccurs(s, sep, |r|);
    }
  }

  function Segment(path: string): string
    requires StartsWith(path, GamesPrefix)
  {
    Before(path[|GamesPrefix|..], GamesPrefix)
  }

  /** `os.path.join(a, b)` on POSIX: an absolute `b` replaces `a`. */
  function PathJoin(a: string, b: string): string
  {
    if StartsWith(b, "/") then b
    else if a == [] || a[|a| - 1] == '/' then a + b
    else a + "/" + b
  }

  datatype Route = Poll | Asset(file: string, contentType: string) | Game(file: string) | Missing

  function RouteOf(path: string): Route
  {
    if path == "/poll" then Poll
    else if path == "/" || path == "/index.html" then Asset("index.html", "text/html")
    else if path == "/style.css" then Asset("style.css", "text/css")
    else if path == "/script.js" then Asset("script.js", "application/javascript")
    else if StartsWith(path, GamesPrefix) then Game(PathJoin(GamesDir, Segment(path)))
    else Missing
  }

  /** What the handler sends back: a JSON body, a file (send_file), or an error status. */
  datatype Reply = SendJson(body: Json) | SendFile(file: string, contentType: string) | SendError(code: nat)

  datatype Served = Served(state: Bridge, reply: Reply)

  /** do_GET; `present` stands for os.path.exists. */
  function Get(s: Bridge, path: string, present: string -> bool): Served
  {
    match RouteOf(path)
    case Poll => Served(s.(queue := []), SendJson(JArr(s.queue)))
    case Asset(file, contentType) => Served(s, SendFile(file, contentType))
    case Game(file) => Served(s, if present(file) then SendFile(file, "text/html") else SendError(404))
    case Missing => Served(s, SendError(404))
  }

  /** A poll hands out the queue in order and empties it; the next poll gets `[]`. */
  lemma PollDrains(s: Bridge, present: string -> bool)
    ensures var r := Get(s, "/poll", present);
            r.reply == SendJson(JArr(s.queue)) && r.state == s.(queue := [])
            && Get(r.state, "/poll", present).reply == SendJson(JArr([]))
  {
  }

  /** Only a poll touches the state. */
  lemma GetOnlyPollChanges(s: Bridge, path: string, present: string -> bool)
    ensures path != "/poll" ==> Get(s, path, present).state == s
    ensures Valid(s) ==> Valid(Get(s, path, present).state)
  {
  }

  /** The fixed routes, and 404 for a path that is none of them. */
  lemma FixedRoutes(path: string)
    ensures RouteOf("/") == RouteOf("/index.html") == Asset("index.html", "text/html")
    ensures RouteOf("/style.css") == Asset("style.css", "text/css")
    ensures RouteOf("/script.js") == Asset("script.js", "application/javascript")
    ensures path !in ["/poll", "/", "/index.html", "/style.css", "/script.js"] && !StartsWith(path, GamesPrefix)
            ==> RouteOf(path) == Missing
  {
  }

  /** A game path whose remainder holds no further "/games/" joins that whole remainder onto
      MignaGames. */
  lemma GameSegment(name: string)
    requires !Contains(name, GamesPrefix)
    ensures RouteOf(GamesPrefix + name) == Game(PathJoin(GamesDir, name))
  {
    var path := GamesPrefix + name;
    assert Segment(path) == name by {
      assert path[|GamesPrefix|..] == name;
      BeforeWhole(name, GamesPrefix);
    }
    assert path != "/poll" && path != "/" && path != "/index.html" && path != "/style.css" && path != "/script.js"
      by { assert path[1] == 'g'; }
  }

  /** A game path names the file after "/games/" inside MignaGames; a missing file is a 404. */
  lemma GameRoute(name: string, s: Bridge, present: string -> bool)
    requires !Contains(name, GamesPrefix) && !StartsWith(name, "/")
    ensures RouteOf(GamesPrefix + name) == Game(GamesDir + "/" + name)
    ensures Get(s, GamesPrefix + name, present)
            == Served(s, if present(GamesDir + "/" + name) then SendFile(GamesDir + "/" + name, "text/html")
                         else SendError(404))
  {
    GameSegment(name);
  }

  /** The join does not confine a game path to MignaGames: an absolute remainder (as in
      "/games//etc/passwd") is served as it stands. */
  lemma GameRouteAbsolute(name: string)
    requires StartsWith(name, "/") && !Contains(name, GamesPrefix)
    ensures RouteOf(GamesPrefix + name) == Game(name)
  {
    GameSegment(name);
  }

  // ---------------------------------------------------------------------------------------
  // do_POST, handle_connect, handle_send

  /** The response dictionary: its "status" entry and, when set, its "msg" entry. */
  datatype Answer = Answer(status: string, msg: Option<string>)

  /** `{"status": "ok"}`, the response do_POST starts from. */
  function OkAnswer(): Answer
  {
    Answer("ok", None)
  }

  /** The JSON the browser receives for an answer. */
  function AnswerJson(a: Answer): Json
  {
    JObj(if a.msg.Some? then map["status" := JStr(a.status), "msg" := JStr(a.msg.value)]
         else map["status" := JStr(a.status)])
  }

  /** Python's name for the type of a decoded JSON value. */
  function PyTypeName(v: Json): string
  {
    match v
    case JNull => "NoneType"
    case JBool(_) => "bool"
    case JNum(_) => "int"
    case JStr(_) => "str"
    case JArr(_) => "list"
    case JObj(_) => "dict"
  }

  /** `str(e)` of the AttributeError raised by `v.attr` (only dicts have `get`, only strings
      have `encode`). */
  function NoAttribute(v: Json, attr: string): string
  {
    "'" + PyTypeName(v) + "' object has no attribute '" + attr + "'"
  }

  /** `data.get(key)`: the member, or None. */
  function Lookup(data: Json, key: string): Json
  {
    if Member(data, key).Some? then Member(data, key).value else JNull
  }

  /** The outcome of one POST: the new state, the response and the text the bridge wrote to the
      chat server, if any. */
  datatype Handled = Handled(state: Bridge, answer: Answer, sent: Option<string>)

  /** The socket calls a handler makes: opening the connection (`Err(str(e))` when `connect`
      raises or times out) and the two `sendall` calls. */
  datatype Net = Net(open: Result<Socket>, hello: Outcome, send: Outcome)

  /** handle_connect, filling in the response `a`; every exception lands in the one except
      clause, which sets "status" to "error" and "msg" to the exception text. */
  function HandleConnect(s: Bridge, a: Answer, body: string, parse: Parser, net: Net): Handled
  {
    match parse(body)
    case Err(e) => Handled(s, a.(status := "error", msg := Some(e)), None)
    case Ok(data) =>
      if !data.JObj? then Handled(s, a.(status := "error", msg := Some(NoAttribute(data, "get"))), None)
      else if s.connected then Handled(s, a.(msg := Some("Ya conectado")), None)
      else match net.open
        case Err(e) => Handled(s, a.(status := "error", msg := Some(e)), None)
        case Ok(sock) =>
          var user := Lookup(data, "username");
          if !user.JStr? then Handled(s, a.(status := "error", msg := Some(NoAttribute(user, "encode"))), None)
          else match net.hello
            case Fail(e) => Handled(s, a.(status := "error", msg := Some(e)), None)
            case Pass =>
              Handled(s.(socket := Some(sock), connected := true, username := user.text),
                      a.(msg := Some("Conectado")), Some(user.text))
  }

  /** handle_send: nothing happens while disconnected; any exception marks the response as an
      error without a message. */
  function HandleSend(s: Bridge, a: Answer, body: string, parse: Parser, net: Net): Handled
  {
    if !s.connected then Handled(s, a, None)
    else match parse(body)
      case Err(_) => Handled(s, a.(status := "error"), None)
      case Ok(data) =>
        var msg := Lookup(data, "message");
        if !data.JObj? || !msg.JStr? || s.socket.None? then Handled(s, a.(status := "error"), None)
        else match net.send
          case Fail(_) => Handled(s, a.(status := "error"), None)
          case Pass => Handled(s, a, Some(msg.text))
  }

  /** do_POST with the request body already read. */
  function Post(s: Bridge, path: string, body: string, parse: Parser, net: Net): Handled
  {
    if path == "/connect" then HandleConnect(s, OkAnswer(), body, parse, net)
    else if path == "/send" then HandleSend(s, OkAnswer(), body, parse, net)
    else if path == "/disconnect" then Handled(Close(s), OkAnswer(), None)
    else Handled(s, OkAnswer(), None)
  }

  /** Already connected: nothing changes and the answer is ok, "Ya conectado". */
  lemma ConnectWhenConnected(s: Bridge, body: string, parse: Parser, net: Net)
    requires s.connected && parse(body).Ok? && parse(body).value.JObj?
    ensures Post(s, "/connect", body, parse, net) == Handled(s, Answer("ok", Some("Ya conectado")), None)
  {
  }

  /** A fresh connection: the handle and the name are stored and the name is sent first. */
  lemma ConnectOpens(s: Bridge, body: string, parse: Parser, net: Net, name: string)
    requires !s.connected && parse(body).Ok? && Member(parse(body).value, "username") == Some(JStr(name))
    requires net.open.Ok? && net.hello.Pass?
    ensures var r := Post(s, "/connect", body, parse, net);
            r.state == Bridge(true, Some(net.open.value), name, s.queue)
            && r.answer == Answer("ok", Some("Conectado")) && r.sent == Some(name)
  {
  }

  /** Every connect answer is either ok, with the bridge connected afterwards and the state
      changed only by a fresh connection, or an error carrying a message, with the state
      untouched. */
  lemma ConnectOutcomes(s: Bridge, body: string, parse: Parser, net: Net)
    ensures var r := Post(s, "/connect", body, parse, net);
            r.answer.msg.Some?
            && (r.answer.status == "ok" || (r.answer.status == "error" && r.state == s && r.sent == None))
            && (r.answer.status == "ok" ==> r.state.connected)
            && (r.state != s ==> !s.connected && r.state.connected && r.answer.msg == Some("Conectado"))
    ensures Valid(s) ==> Valid(Post(s, "/connect", body, parse, net).state)
  {
  }

  /** Every exception handle_connect can meet, in the order it meets them, ends in the one
      except clause: "status" is "error" and "msg" is the exception's text. */
  lemma ConnectFailures(s: Bridge, body: string, parse: Parser, net: Net)
    ensures var a := Post(s, "/connect", body, parse, net).answer;
            && (parse(body).Err? ==> a == Answer("error", Some(parse(body).msg)))
            && (parse(body).Ok? && !parse(body).value.JObj?
                ==> a == Answer("error", Some(NoAttribute(parse(body).value, "get"))))
            && (parse(body).Ok? && parse(body).value.JObj? && !s.connected && net.open.Err?
                ==> a == Answer("error", Some(net.open.msg)))
            && (parse(body).Ok? && parse(body).value.JObj? && !s.connected && net.open.Ok?
                && !Lookup(parse(body).value, "username").JStr?
                ==> a == Answer("error", Some(NoAttribute(Lookup(parse(body).value, "username"), "encode"))))
            && (parse(body).Ok? && parse(body).value.JObj? && !s.connected && net.open.Ok?
                && Lookup(parse(body).value, "username").JStr? && net.hello.Fail?
                ==> a == Answer("error", Some(net.hello.msg)))
  {
  }

  /** Sending never changes the bridge state; while disconnected it writes nothing and answers
      ok; a failed write answers "error". */
  lemma SendOutcomes(s: Bridge, body: string, parse: Parser, net: Net)
    ensures var r := Post(s, "/send", body, parse, net);
            r.state == s && r.answer.msg.None?
            && (!s.connected ==> r.answer == OkAnswer() && r.sent.None?)
            && (r.answer.status == "ok" <==> r.sent.Some? || !s.connected)
            && (net.send.Fail? ==> r.sent.None?)
            && (s.connected && r.sent.None? ==> r.answer == Answer("error", None))
  {
  }

  /** The message sent is the "message" member of the body, as given. */
  lemma SendWrites(s: Bridge, body: string, parse: Parser, net: Net, text: string)
    requires Valid(s) && s.connected && parse(body).Ok? && Member(parse(body).value, "message") == Some(JStr(text))
    requires net.send.Pass?
    ensures Post(s, "/send", body, parse, net) == Handled(s, OkAnswer(), Some(text))
  {
  }

  /** Disconnect and unknown paths tell the browser `{"status": "ok"}`, whatever the state. */
  lemma PostDefaults(s: Bridge, path: string, body: string, parse: Parser, net: Net)
    requires path != "/connect" && path != "/send"
    ensures Post(s, path, body, parse, net).answer == OkAnswer()
    ensures Post(s, path, body, parse, net).state == if path == "/disconnect" then Close(s) else s
  {
  }

  lemma PostKeepsValid(s: Bridge, path: string, body: string, parse: Parser, net: Net)
    requires Valid(s)
    ensures Valid(Post(s, path, body, parse, net).state)
  {
    ConnectOutcomes(s, body, parse, net);
  }
}
