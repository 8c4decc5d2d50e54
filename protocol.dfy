/** How the two halves meet: what the page does with the events and the answers the bridge
    produces. */
module Protocol {
  import opened Wrappers
  import opened Text
  import opened Json
  import opened ChatScript
  import opened BridgeCore

  /** The notice the bridge queues when it closes the connection is a forced disconnect for the
      page: procesarMensaje reloads it. */
  lemma NoticeResets(p: Page, token: string)
    ensures Classify(Notice()).ForcedReset?
    ensures Step(p, Notice(), token) == Initial()
  {
    assert Contains(DisconnectedPayload, DisconnectMarker) by {
      assert DisconnectedPayload[2..2 + |DisconnectMarker|] == DisconnectMarker;
      ContainsFromOccurs(DisconnectedPayload, DisconnectMarker, 2);
    }
    StatusEventEffect(p, Notice(), DisconnectedPayload, token);
  }

  /** A batch ending in a forced disconnect, with no malformed event before it, leaves the page
      as freshly loaded. */
  lemma {:induction false} ResetBatch(p: Page, items: seq<Json>, last: Json, tokens: seq<string>)
    requires |tokens| == |items| + 1 && Classify(last).ForcedReset?
    requires forall i :: 0 <= i < |items| ==> !Classify(items[i]).Fault?
    ensures Run(p, items + [last], tokens) == Initial()
    decreases |items|
  {
    var ds := items + [last];
    if items == [] {
      assert ds[0] == last;
    } else {
      assert ds[0] == items[0] && ds[1..] == items[1..] + [last];
      if !Classify(items[0]).ForcedReset? {
        ResetBatch(Step(p, items[0], tokens[0]), items[1..], last, tokens[1..]);
      }
    }
  }

  /** After the receiver has left its loop, the next poll hands the page a queue whose last event
      is the close notice; unless an event before it is malformed, the page ends up reloaded. */
  lemma PollAfterClose(s: Bridge, buf: seq<byte>, turns: seq<Read>, read: LineReader,
                       present: string -> bool, p: Page, tokens: seq<string>)
    requires s.connected && s.socket.Some?
    requires !Receive(s, buf, turns, read).running
    requires var q := Receive(s, buf, turns, read).state.queue;
             |tokens| == |q| && forall i :: 0 <= i < |q| - 1 ==> !Classify(q[i]).Fault?
    ensures var r := Receive(s, buf, turns, read);
            var served := Get(r.state, "/poll", present);
            served.reply.SendJson? && served.reply.body.JArr?
            && AfterPoll(p, Polled(served.reply.body), tokens) == Initial()
  {
    var q := Receive(s, buf, turns, read).state.queue;
    assert |q| > 0 && q[|q| - 1] == Notice() by {
      ReceiveEndsClosed(s, buf, turns, read);
    }
    NoticeResets(p, "");
    EndsWithReset(p, q, tokens);
  }

  lemma EndsWithReset(p: Page, q: seq<Json>, tokens: seq<string>)
    requires |q| > 0 && Classify(q[|q| - 1]).ForcedReset? && |tokens| == |q|
    requires forall i :: 0 <= i < |q| - 1 ==> !Classify(q[i]).Fault?
    ensures Run(p, q, tokens) == Initial()
  {
    var items := q[..|q| - 1];
    assert q == items + [q[|q| - 1]];
    ResetBatch(p, items, q[|q| - 1], tokens);
  }

  /** The JSON of an answer has its status as the "status" member and its message, when set,
      as the "msg" member. */
  lemma AnswerMembers(a: Answer)
    ensures Member(AnswerJson(a), "status") == Some(JStr(a.status))
    ensures a.msg.Some? ==> JsMember(AnswerJson(a), "msg") == a.msg.value
  {
  }

  /** An ok answer to /connect, fresh or "Ya conectado", makes a page with a name log in. */
  lemma ConnectOkLogsIn(s: Bridge, body: string, parse: Parser, net: Net, p: Page, timer: Timer)
    requires JsTrim(p.userInput) != ""
    requires Post(s, "/connect", body, parse, net).answer.status == "ok"
    ensures var a := Post(s, "/connect", body, parse, net).answer;
            AfterConnect(p, Answered(AnswerJson(a)), timer) == LoggedIn(p, JsTrim(p.userInput), timer)
  {
    AnswerMembers(Post(s, "/connect", body, parse, net).answer);
  }

  /** An error answer to /connect only shows "Error servidor: " and the exception text. */
  lemma ConnectErrorShown(s: Bridge, body: string, parse: Parser, net: Net, p: Page, timer: Timer)
    requires JsTrim(p.userInput) != ""
    requires Post(s, "/connect", body, parse, net).answer.status == "error"
    ensures var a := Post(s, "/connect", body, parse, net).answer;
            a.msg.Some?
            && AfterConnect(p, Answered(AnswerJson(a)), timer) == p.(error := ServerErrorPrefix + a.msg.value)
  {
    var a := Post(s, "/connect", body, parse, net).answer;
    ConnectOutcomes(s, body, parse, net);
    AnswerMembers(a);
  }
}
