# Chat web client and local bridge, modelled in Dafny

The system is a browser chat front end (`script.js`) and a small Python bridge (`cliente.py`)
between it and a TCP chat server. The bridge keeps one shared `AppState`: the TCP socket, a
`connected` flag, the user name and a queue of JSON events. A receiver thread reads the socket,
cuts the byte stream into lines and queues every non-blank line that parses as JSON, until a
line fails to decode, which ends the receiver. `GET /poll` hands the
whole queue to the browser and empties it. `POST /connect`, `/send` and `/disconnect` open,
use and close the TCP connection. The page polls every 500 ms. It applies each event in order:
a status label, chat messages with a server or normal style, a clear, a delete by id. A status
containing "Desconectado" reloads the page. When the bridge closes the connection it queues
exactly such a status, "🔴 Desconectado", so the two halves form one protocol.

The project has these modules:

- `Wrappers` (wrappers.dfy) holds `Option`, `Result` and `Outcome`.
- `Text` (text.dfy) holds `startsWith`, substring search, JavaScript `trim` and Python `strip`,
  each with its own whitespace set.
- `Json` (json.dfy) holds the JSON values that pass between the three programs.
- `ChatScript` (chat_script.dfy) is the page as a value (`Page`) with one pure transition per
  handler. It holds the JavaScript value rules the script relies on: truthiness, `String()`,
  `includes` on strings and arrays, and the TypeError on other values. The lemmas about the
  handlers live here too.
- `ChatClient` (chat_client.dfy) is the page as an object (`Client`). Each handler is a method
  that updates the fields in place and is proved to implement its transition in `ChatScript`.
  `FindById` and `VerifyMessages` carry their loops, with invariants.
- `BridgeCore` (bridge_core.dfy) is the bridge state as a value (`Bridge`). It holds the close
  routine, the line framing (`Frame`) beside a reference reading of a buffer as complete lines
  plus a tail, the receiver (`Receive`), the GET routing and the POST handlers, with their
  lemmas.
- `BridgeServer` (bridge_server.dfy) holds the `AppState`, `Response` and `RequestHandler`
  classes. Their methods update the shared state in place. The framing loop `while b"\n" in
  buffer_bytes` and the receiver loop are `while` loops proved against `Frame` and `Receive`.
- `Protocol` (protocol.dfy) holds lemmas across the two halves: the close notice resets the
  page, and the bridge's answers to `/connect` drive the page's login or error text.

Sockets, the UTF-8 decoder, `json.loads`, `os.path.exists`, `fetch` and the timers never run
here. Their outcomes are parameters of the operations that use them:

- `Net` gives the outcome of opening the socket and of each `sendall`.
- `Read` gives what one turn of the receive loop got: a `select` timeout, bytes, or an exception.
- `Decoder` and `Parser` stand for decoding and JSON parsing.
- `present` stands for `os.path.exists`.
- `ConnectReply` and `PollReply` are the answers `fetch` delivers.
- The token arguments stand for `Date.now()`.

The framing methods take the per-line step as a `LineReader`. `ReadLine(decode, parse)` is the
reader the bridge uses: it decodes a line, strips it, drops it when blank or unparsable, and
fails when decoding raises.

Three places where the code behaves in a way a reader may not expect; the model follows the code:

- The code never upserts chat messages by id: it always appends, so an event with a known id
  adds a second entry (`RepeatedChatIsDuplicated`). A delete patches the first chat
  entry with that id. `getElementById` searches the whole document, and the model searches only
  the chat entries (see `ChatScript.DeleteEffect` under "Left out").
- Several events in one poll answer: the model stops at the first forced disconnect, because the
  reload throws away whatever later events would have rendered. It also stops at the first event
  that throws a TypeError, which ends the `forEach` (the exception is caught in
  `verificarMensajes`).
- A game path is joined with `os.path.join`, so an absolute remainder replaces the `MignaGames`
  directory: "/games//etc/passwd" is served as "/etc/passwd" (`GameRouteAbsolute`).

## Model

| member | source | states |
|---|---|---|
| Text.ContainsIffOccurs | script.js:176-183 | the `includes` scan succeeds exactly when the marker occurs at some position of the prefix |
| Text.LacksChar | script.js:176-183 | a text that lacks one of the characters of a marker does not contain the marker |
| Text.Trim | script.js:15 | the result is the piece of the text left between its leading and its trailing whitespace (`TrimmedAt`); it is empty exactly when every character is whitespace, and otherwise begins and ends with a non-space |
| ChatScript.IndexOfId | script.js:156 | `getElementById` over the chat entries: the found entry carries the id and none before it does; no result means no entry carries it |
| ChatScript.StyleRule | script.js:176-186 | a string prefix never throws, and the style is server exactly when one of the eight markers occurs in it |
| ChatScript.MessageShape | script.js:189-199 | the appended entry has the given id, is not deleted, shows `<strong>prefix</strong>` before the payload only for a non-empty prefix, and is server-styled exactly when a marker occurs |
| ChatScript.PlainPrefix | script.js:176-186 | a prefix that contains no marker's first character is styled normal |
| ChatScript.WelcomeIsServer | script.js:45 | the "✅ " welcome notice is server-styled |
| ChatScript.EchoShape | script.js:81 | the optimistic echo is styled normal and shows `<strong>💬 Tú: </strong>` before the text |
| ChatScript.FalsyEventIgnored | script.js:125 | a null, false, 0 or "" event leaves the whole page unchanged |
| ChatScript.StatusEventEffect | script.js:128-136 | a payload with "Desconectado" resets the page without writing the label; any other non-empty payload only overwrites the label; an empty one changes nothing |
| ChatScript.ChatAppendsOne | script.js:140-145 | a chat event appends exactly one entry at the end; the earlier entries and all other fields are unchanged |
| ChatScript.ChatEventEffect | script.js:141-145 | the entry uses the event's id when non-empty, else "msg-" and a fresh token, and is built from the prefix and the payload |
| ChatScript.ChatDefaults | script.js:141-143 | a bare chat event gets a synthesized id and an empty prefix and payload |
| ChatScript.RepeatedChatIsDuplicated | script.js:199 | the same chat event twice gives two equal entries: no upsert |
| ChatScript.ClearEffect | script.js:149-151 | a clear leaves exactly the server-styled notice, which has no id |
| ChatScript.DeleteEffect | script.js:155-161 | a delete patches only the first chat entry with that id (placeholder content, deleted flag) and keeps the length; an id no chat entry carries changes nothing |
| ChatScript.DeleteIdempotent | script.js:155-161 | a second delete of the same id leaves the page as the first one left it |
| ChatScript.DeletedKeepsIdentity | script.js:158-159 | a deleted entry keeps its id and style, gets the placeholder and the deleted flag |
| ChatScript.FoldAppend | script.js:113-115 | for the reference fold `Fold`, which does not stop: two batches folded one after the other give the fold of their concatenation |
| ChatScript.RunAppend | script.js:103-121 | a batch whose events all run to completion, then a second batch, is handled as one batch of both |
| ChatScript.RunIsFold | script.js:113-115 | a batch with no throwing event and no forced disconnect is the left fold of procesarMensaje in array order |
| ChatScript.RunStopsAt | script.js:113-115 | at the first stopping event: a TypeError keeps exactly the effect of the events before it, a forced disconnect leaves the initial page |
| ChatScript.PollWithoutEventsChangesNothing | script.js:104-120 | a failed poll, a non-array body or an empty array leaves the page unchanged |
| ChatScript.FoldChats | script.js:113-115 | chat events append their entries after the existing ones, one per event, in order; nothing else changes |
| ChatScript.ClearThenChats | script.js:149-151 | after a clear, the following chat events come after the notice, in order |
| ChatScript.SendEmptyNoop | script.js:74 | an empty message box changes nothing, and the box is not cleared |
| ChatScript.SendEffect | script.js:79-95 | a non-empty message empties the box; plain text adds one "local-" entry with the "💬 Tú: " prefix, a "/" command adds none; a failed send adds one "sys-err" entry |
| ChatScript.ConnectBlankName | script.js:19-22 | a name that is blank after trimming only sets the error text |
| ChatScript.ConnectAccepted | script.js:34-49 | an "ok" answer leaves exactly the server-styled "sys-login" entry and shows the chat; the one live interval is the new 500 ms one; the labels and inputs are unchanged |
| ChatScript.ConnectRefused | script.js:50-56 | any other answer or a failed request only changes the error text: the server's message, or the fixed "unreachable" text |
| ChatScript.LoggedInOneTimer | script.js:48-49 | the previous interval is cleared before the new one starts, so exactly one, the new one, is live |
| ChatScript.StepKeepsOneTimer | script.js:123-162 | handling an event keeps at most the one polling interval |
| ChatScript.RunKeepsOneTimer | script.js:103-121 | a whole poll batch keeps at most the one polling interval |
| ChatScript.ConnectKeepsOneTimer | script.js:48-49 | whatever the outcome, conectar never leaves two intervals live |
| ChatClient.Client.constructor | script.js:7 | the page starts as the initial page, with no interval |
| ChatClient.Client.Reload | script.js:64 | `location.reload()` returns the page to its initial state |
| ChatClient.Client.Disconnect | script.js:59-65 | desconectar ends with the page in its initial state |
| ChatClient.Client.AddMessage | script.js:168-203 | exactly the composed entry is appended; nothing else changes |
| ChatClient.Client.FindById | script.js:156 | the loop returns the index `getElementById` finds |
| ChatClient.Client.ProcessEvent | script.js:123-162 | the page afterwards is the transition `Step`; it reports a thrown TypeError and a reload exactly when they happen |
| ChatClient.Client.VerifyMessages | script.js:103-121 | the loop over the events leaves the page as `AfterPoll` says |
| ChatClient.Client.SendMessage | script.js:71-97 | the page afterwards is `AfterSend` |
| ChatClient.Client.Login | script.js:37-49 | the "ok" branch leaves the page as `LoggedIn` |
| ChatClient.Client.ShowError | script.js:51 | only the error text changes |
| ChatClient.Client.Connect | script.js:13-57 | the page afterwards is `AfterConnect` |
| BridgeCore.CloseDisconnects | cliente.py:51-59 | closing a connected bridge clears the flag, the socket and the name, and appends exactly one "🔴 Desconectado" status |
| BridgeCore.CloseIdempotent | cliente.py:51 | after a close the bridge is disconnected; a second close and a close while disconnected change nothing |
| BridgeCore.CloseKeepsValid | cliente.py:49-59 | closing keeps the invariant: a socket exactly while connected, a name only while connected |
| BridgeCore.NewlineFrom | cliente.py:74-75 | a found position holds a newline and lies at or after the start |
| BridgeCore.NewlineFromSpec | cliente.py:74-75 | no position exactly when no newline lies at or after the start; a found position is the first such newline |
| BridgeCore.FirstNewline | cliente.py:75 | `split(b"\n", 1)` cuts at a position that holds a newline |
| BridgeCore.FirstNewlineSpec | cliente.py:74-75 | no position exactly when the buffer has no newline; otherwise the first newline |
| BridgeCore.KeepRule | cliente.py:76-82 | a whitespace-only line is dropped; a line is dropped exactly when it strips to "" or fails to parse; otherwise its parsed value is kept |
| BridgeCore.SettledFrame | cliente.py:74 | a buffer without a newline is left as it is and nothing is queued |
| BridgeCore.FrameAt | cliente.py:74-82 | one pass: the line before the first newline is cut off and handled, and the loop goes on with the rest |
| BridgeCore.FrameCons | cliente.py:75-82 | the same pass, for a buffer written as line, newline, rest |
| BridgeCore.SplitExists | cliente.py:74-75 | every buffer reads as complete newline-free lines, each followed by a newline, and then a newline-free tail |
| BridgeCore.FrameAllDecoded | cliente.py:73-82 | when every line decodes, the queued values are the kept values of the lines, in order, and the buffer left is the tail |
| BridgeCore.KeptAllReadLine | cliente.py:76-82 | with the bridge's reader, every decodable line is read, and what is kept is each line's text, stripped and parsed, in order |
| BridgeCore.BridgeFrames | cliente.py:73-82 | with the bridge's reader and every line valid UTF-8, the loop queues, in order, the parsed value of each line that is neither blank after `strip()` nor rejected by `json.loads`, and leaves the tail |
| BridgeCore.FrameUndecodable | cliente.py:76 | a line that fails to decode ends the loop; only the lines before it are queued |
| BridgeCore.AllDecoded | cliente.py:76 | a loop that did not raise decoded every complete line |
| BridgeCore.FrameRest | cliente.py:74-75 | afterwards the buffer holds no newline and is exactly the bytes after the last newline |
| BridgeCore.DroppedLine | cliente.py:77-82 | a blank or unparsable line is dropped; the lines after it are framed as if it had never been sent |
| BridgeCore.FrameLines | cliente.py:74-82 | complete lines that all decode contribute their kept values, in order, before whatever follows |
| BridgeCore.FrameChunks | cliente.py:73-75 | where the stream is cut into reads does not matter: framing the leftover plus the next chunk continues framing the whole stream |
| BridgeCore.TurnFrames | cliente.py:68-73 | a turn that does not break frames its bytes onto the buffer |
| BridgeCore.ReceiveFramesStream | cliente.py:64-83 | while the receiver runs, its queue gained exactly what framing the whole stream at once gives, and its buffer is that framing's leftover |
| BridgeCore.ReceiveEndsClosed | cliente.py:66-85 | a receiver that left its loop has disconnected, kept everything queued before, and queued the close notice last |
| BridgeCore.ReceiveKeepsValid | cliente.py:62-85 | the receiver keeps the state invariant |
| BridgeCore.Before | cliente.py:112 | `split('/games/')[1]` is a prefix of the rest of the path, stops at the next "/games/" or the end, and holds no earlier occurrence |
| BridgeCore.BeforeWhole | cliente.py:112 | without a further "/games/", the segment is the whole rest of the path |
| BridgeCore.PollDrains | cliente.py:94-100 | /poll answers the queue in order and empties it; the next poll answers [] |
| BridgeCore.GetOnlyPollChanges | cliente.py:91-119 | only /poll changes the state, and every GET keeps the invariant |
| BridgeCore.FixedRoutes | cliente.py:102-119 | "/" and "/index.html", "/style.css" and "/script.js" serve their files with their content types; any other path not under "/games/" is a 404 |
| BridgeCore.GameSegment | cliente.py:110-113 | a game path whose rest holds no further "/games/" joins that rest onto "MignaGames" |
| BridgeCore.GameRoute | cliente.py:110-117 | a relative game file is "MignaGames/<name>", served as HTML when present and a 404 when missing; the state is untouched |
| BridgeCore.GameRouteAbsolute | cliente.py:113 | an absolute segment escapes "MignaGames" and is served as it stands |
| BridgeCore.ConnectWhenConnected | cliente.py:157-172 | already connected: state unchanged, answer ok with "Ya conectado", nothing sent |
| BridgeCore.ConnectOpens | cliente.py:158-169 | a fresh connection stores the socket and the name, sends the name first, and answers ok with "Conectado" |
| BridgeCore.ConnectOutcomes | cliente.py:154-176 | every answer has a message; an error leaves the state untouched and sends nothing; an ok answer leaves the bridge connected; only a fresh connection changes the state; the invariant is kept |
| BridgeCore.ConnectFailures | cliente.py:155-176 | each exception, in the order the handler meets them (body not JSON, body not a dict, connect fails, name not a string, greeting fails), answers "error" with that exception's text |
| BridgeCore.SendOutcomes | cliente.py:178-183 | sending never changes the state or sets a message; disconnected, it sends nothing and answers ok; the answer is ok exactly when the text went out or the bridge was disconnected; connected and nothing sent (a body that is not JSON, not a dict or without a string "message", or a failed write) answers exactly `{"status": "error"}`; a failed write sends nothing |
| BridgeCore.SendWrites | cliente.py:181-182 | the text sent is the body's "message" member, as given |
| BridgeCore.PostDefaults | cliente.py:125-134 | /disconnect and unknown paths answer `{"status": "ok"}`; /disconnect closes, others change nothing |
| BridgeCore.PostKeepsValid | cliente.py:121-134 | every POST keeps the state invariant |
| BridgeServer.AppState.constructor | cliente.py:18-24 | a new state is disconnected, with no socket, an empty name and an empty queue |
| BridgeServer.AppState.CloseTcp | cliente.py:49-59 | the state afterwards is `Close` of the state before |
| BridgeServer.AppState.Append | cliente.py:80-81 | only the queue changes, by the given values at the end |
| BridgeServer.AppState.Drain | cliente.py:95-99 | it returns the old queue and leaves it empty; nothing else changes |
| BridgeServer.AppState.Attach | cliente.py:165-167 | the socket, the flag and the name are set; the queue is unchanged |
| BridgeServer.CutLine | cliente.py:75-76 | it cuts at the first newline; the reader's result and the rest of the buffer are what `Frame` unfolds to |
| BridgeServer.Absorb | cliente.py:74-82 | the loop leaves the buffer, the outcome and the queue that `Frame` gives for the buffer |
| BridgeServer.TurnOnce | cliente.py:68-73 | one pass of the outer loop body is `Turn` |
| BridgeServer.TcpReceiver | cliente.py:62-85 | the receiver loop, with its closing call, ends where `Receive` does |
| BridgeServer.Response.constructor | cliente.py:125 | the response starts as `{"status": "ok"}` |
| BridgeServer.Response.Set | cliente.py:169-176 | the response becomes the given status and message |
| BridgeServer.RequestHandler.DoGet | cliente.py:91-119 | the reply and the new state are `Get` |
| BridgeServer.RequestHandler.DoPost | cliente.py:121-134 | the answer, the text sent and the new state are `Post` |
| BridgeServer.RequestHandler.HandleConnect | cliente.py:154-176 | the response, the text sent and the new state are `HandleConnect` |
| BridgeServer.RequestHandler.HandleSend | cliente.py:178-183 | the response and the text sent are `HandleSend`; the state is not touched |
| Protocol.NoticeResets | cliente.py:59 | the close notice is a forced disconnect for the page, which goes back to its initial state |
| Protocol.ResetBatch | script.js:113-115 | a batch ending in a forced disconnect, with no throwing event before it, leaves the initial page |
| Protocol.EndsWithReset | script.js:113-115 | the same, for any batch whose last event is a forced disconnect |
| Protocol.PollAfterClose | cliente.py:85 | after the receiver closed, the next poll's array ends with the notice; unless an event before it throws, the page ends in its initial state |
| Protocol.AnswerMembers | cliente.py:125 | the answer's JSON has "status" set to its status and "msg" set to its message |
| Protocol.ConnectOkLogsIn | script.js:34 | an ok answer to /connect, fresh or "Ya conectado", logs in a page whose name is not blank |
| Protocol.ConnectErrorShown | script.js:51 | an error answer to /connect carries a message, and the page shows only "Error servidor: " followed by it |

## Left out

- Browser I/O is not modelled: `fetch`, `sendBeacon`, the `beforeunload` and `onload` key wiring, `alert`, console logging, auto-scroll and the `display` toggles. Their results are inputs (`ConnectReply`, `PollReply`, the `failed` flag), and the view mode is a flag.
- `innerHTML` is not parsed: entry contents are opaque strings.
- `if (!chatArea) return` in agregarMensajeHTML is not modelled: the model assumes the chat area exists. A delete naming the page's own elements could remove it, which is excluded below.
- ChatScript.DeleteEffect: `getElementById` searches the whole document, but the model searches only the chat entries. The page's own ids (user-input, error-log, conn-frame, chat-container, chat-area, msg-input, status-label) are not delete targets here. Neither are elements nested in an entry's content: server-supplied prefix and payload HTML is parsed by `innerHTML`, so a `<b id="m1">` inside an earlier entry is what a delete of "m1" patches in the source. A delete naming one of them changes the page in the source (it rewrites the label, or wipes the chat area) and changes nothing in the model.
- `Date.now()` and `Math.random()` are externally supplied tokens. Their uniqueness is not claimed.
- The initial texts of the status label and the error label come from index.html, which is not part of this model; they are "".
- `ejecutarComando` is a thin `/send` wrapper with an alert; it is left out.
- Timers never fire by themselves. The model keeps only which intervals are live. Overlapping asynchronous polls, and their interleaving with other handlers, are not modelled.
- JSON numbers are integers. Floating-point values and their `String()` and Python type names are not modelled.
- Python sockets, `select`, `recv`, `sendall` and `close` are outcomes supplied as parameters. `settimeout` and the TCP host and port are not modelled.
- Threads and `threading.Lock` are not modelled. Each lock-protected section is one atomic step. The receiver runs over a finite list of turns, with no other thread changing the state between them.
- `connection_watchdog`, `last_activity` and `TIMEOUT_SECONDS` are left out: they depend on the wall clock.
- `send_file` (opening and streaming the file), `respond_json`, `get_local_ip`, `webbrowser` and the server bootstrap are left out. `SendFile`, `SendJson` and `SendError` name the replies, and `AnswerJson` is the body `json.dumps` writes.
- Reading the body is not modelled: `Content-Length` and the request's UTF-8 decode come before the handlers, which get the body as text.
- `json.loads` and `bytes.decode` are abstract functions. `str(e)` of their exceptions, and of socket errors, is the message those functions return.
- TcpReceiver: starting the receiver thread is not modelled. It is a separate method that runs from a connected state.
- BridgeCore.HandleConnect: a socket opened before a later failure (a name that is not a string, a failed greeting) is not modelled as leaked.
- `username.encode('utf-8')` in handle_connect and `msg.encode('utf-8')` in handle_send cannot fail on a Dafny string, which has no lone surrogates. A JSON `\ud800` escape makes them raise in the source. The source then answers "error", which the model does not produce for that input.
