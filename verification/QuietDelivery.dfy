/** Routing and client together: nothing that is delivered to a user, on whichever way, can be
    taken by his client for the answer it is waiting for. */
module QuietDelivery {
  import opened Wrappers
  import opened Routing
  import opened Replay
  import opened Delivery
  import C = ChatClient

  // ---------- how the client reads a text ----------

  /** `strtok` with bars: bars in front are skipped, the token ends at the next one. */
  function SkipBars(s: string): string {
    if s != [] && s[0] == '|' then SkipBars(s[1..]) else s
  }

  function Token(s: string): string {
    if s == [] || s[0] == '|' then [] else [s[0]] + Token(s[1..])
  }

  function AfterToken(s: string): string {
    if s == [] || s[0] == '|' then s else AfterToken(s[1..])
  }

  function ReadMessage(text: string): C.ServerMessage {
    var start := SkipBars(text);
    C.ServerMessage(Token(start), Token(SkipBars(AfterToken(start))))
  }

  lemma {:induction false} TokenOf(field: string, rest: string)
    requires Barless(field)
    ensures Token(field + "|" + rest) == field && AfterToken(field + "|" + rest) == "|" + rest
  {
    if field == [] {
      assert field + "|" + rest == "|" + rest;
    } else {
      assert field[0] in field;
      assert field + "|" + rest == [field[0]] + (field[1..] + "|" + rest);
      assert (field + "|" + rest)[1..] == field[1..] + "|" + rest;
      assert Barless(field[1..]) by {
        assert forall c <- field[1..] :: c in field;
      }
      TokenOf(field[1..], rest);
    }
  }

  lemma SkipOne(field: string, rest: string)
    requires field != [] && Barless(field)
    ensures SkipBars("|" + field + rest) == field + rest && SkipBars(field + rest) == field + rest
  {
    assert field[0] in field;
    assert ("|" + field + rest)[1..] == field + rest;
    assert (field + rest)[0] == field[0];
  }

  /** A text that begins with two fields reads as these. */
  lemma ReadsHeader(cmd: string, code: string, rest: string)
    requires cmd != [] && code != [] && Barless(cmd) && Barless(code)
    ensures ReadMessage(cmd + "|" + code + "|" + rest) == C.ServerMessage(cmd, code)
  {
    var tail := code + "|" + rest;
    assert cmd + "|" + code + "|" + rest == cmd + "|" + tail;
    TokenOf(cmd, tail);
    TokenOf(code, rest);
    assert cmd + "|" + tail == cmd + ("|" + tail);
    SkipOne(cmd, "|" + tail);
    assert "|" + tail == "|" + code + ("|" + rest);
    assert tail == code + ("|" + rest);
    SkipOne(code, "|" + rest);
  }

  // ---------- texts that are no answers ----------

  ghost predicate Quiet(text: string) {
    ReadMessage(text) in C.PUSHES
  }

  ghost predicate ForwardsQuietly(text: string) {
    var f := ForwardedText(text);
    f.Some? ==> Quiet(f.value)
  }

  /** The first two fields of a pushed message. */
  ghost predicate Pushed(cmd: string, code: string) {
    && cmd != [] && code != [] && Barless(cmd) && Barless(code) && |cmd| + |code| <= 100
    && C.ServerMessage(cmd, code) in C.PUSHES
  }

  lemma QuietWithHeader(cmd: string, code: string, rest: string)
    requires Pushed(cmd, code)
    ensures Quiet(Clip(cmd + "|" + code + "|" + rest))
  {
    var header := cmd + "|" + code + "|";
    var kept := if |header + rest| <= TEXT_LIMIT then rest else rest[..TEXT_LIMIT - |header|];
    assert Clip(header + rest) == header + kept;
    ReadsHeader(cmd, code, kept);
  }

  /** Forwarding keeps the first two fields, whatever comes behind them. */
  lemma ForwardsWithHeader(cmd: string, code: string, rest: string)
    requires Pushed(cmd, code)
    ensures ForwardsQuietly(Clip(cmd + "|" + code + "|" + rest))
  {
    var header := cmd + "|" + code + "|";
    var text := Clip(header + rest);
    assert text[..|header|] == header;
    if Split(text).Some? {
      HeaderPositions(text, cmd, code);
      hide Split, Find, Clip, Quiet;
      SplitKeepsHeader(text, cmd, code);
      QuietWithHeader(cmd, code, Split(text).value.payload);
    }
  }

  lemma BarAfter(prefix: string, field: string, rest: string)
    requires Barless(field)
    ensures
      var m, at := prefix + field + "|" + rest, |prefix| + |field|;
      at < |m| && Find(m, |prefix|) == Some(at) && m[|prefix|..at] == field
  {
    hide Find, Barless;
    FieldOf(prefix, field, rest);
    FindField(prefix + field + "|" + rest, |prefix|, |prefix| + |field|);
  }

  lemma HeaderPositions(text: string, cmd: string, code: string)
    requires Barless(cmd) && Barless(code) && |cmd| + |code| + 2 <= |text|
    requires text[..|cmd| + |code| + 2] == cmd + "|" + code + "|"
    ensures Find(text, 0) == Some(|cmd|) && Find(text, |cmd| + 1) == Some(|cmd| + 1 + |code|)
    ensures text[..|cmd|] == cmd && text[|cmd| + 1..|cmd| + 1 + |code|] == code
  {
    hide Find, Barless;
    var tail := text[|cmd| + |code| + 2..];
    assert text == cmd + "|" + code + "|" + tail;
    BarAfter(cmd + "|", code, tail);
    BarAfter("", cmd, code + "|" + tail);
    FromTheFront(cmd, code, tail);
  }

  lemma FromTheFront(cmd: string, code: string, tail: string)
    ensures "" + cmd + "|" + (code + "|" + tail) == cmd + "|" + code + "|" + tail
  {
    assert "" + cmd == cmd;
  }

  lemma SplitKeepsHeader(text: string, cmd: string, code: string)
    requires Split(text).Some?
    requires Find(text, 0) == Some(|cmd|) && |cmd| < |text|
    requires Find(text, |cmd| + 1) == Some(|cmd| + 1 + |code|) && |cmd| + 1 + |code| < |text|
    requires text[..|cmd|] == cmd && text[|cmd| + 1..|cmd| + 1 + |code|] == code
    ensures Split(text).value.cmd == cmd && Split(text).value.code == code
  {
    hide Find, Atoll;
  }

  lemma ChatsAreQuiet(c: Chat, id: nat)
    ensures Quiet(ChatLocal(c)) && ForwardsQuietly(ChatPublished(c, id))
  {
    var (cmd, code) := ChatCommand(c);
    ChatForms(c, id);
    hide ChatLocal, ChatPublished, ForwardsQuietly, Quiet, Clip;
    QuietWithHeader(cmd, code, ChatPayload(c));
    var rest := Decimal(id) + "|" + ChatPayload(c);
    assert Header(cmd, code, Decimal(id)) + ChatPayload(c) == cmd + "|" + code + "|" + rest;
    ForwardsWithHeader(cmd, code, rest);
  }

  lemma NoticesAreQuiet(n: Notice)
    ensures Quiet(NoticeLocal(n)) && ForwardsQuietly(NoticePublished(n))
  {
    var (cmd, payload) := NoticeParts(n);
    NoticeForms(n);
    hide NoticeLocal, NoticePublished, ForwardsQuietly, Quiet, Clip;
    QuietWithHeader(cmd, "1", payload);
    var rest := Decimal(0) + "|" + payload;
    assert Header(cmd, "1", Decimal(0)) + payload == cmd + "|" + "1" + "|" + rest;
    ForwardsWithHeader(cmd, "1", rest);
  }

  lemma InvitesAreQuiet(conversation: string, group: string, from: string)
    ensures Quiet(InviteText(conversation, group, from)) && ForwardsQuietly(InviteText(conversation, group, from))
  {
    var rest := conversation + "|" + group + "|" + from;
    assert "group_invite|2|" + conversation + "|" + group + "|" + from == "group_invite" + "|" + "2" + "|" + rest by {
      assert "group_invite" + "|" + "2" + "|" == "group_invite|2|";
      assert "group_invite|2|" + conversation + "|" + group + "|" + from == "group_invite|2|" + rest;
    }
    QuietWithHeader("group_invite", "2", rest);
    ForwardsWithHeader("group_invite", "2", rest);
  }

  lemma ListsAreQuiet(listing: seq<Listed>)
    ensures Quiet(ReplyText(listing))
  {
    assert UNREAD_HEADER == "chat_unread" + "|" + "1" + "|";
    QuietWithHeader("chat_unread", "1", Body(listing));
  }

  // ---------- every run ----------

  ghost predicate AllQuiet(s: State) {
    && (forall e <- s.enqueued :: Quiet(e.out.text))
    && (forall n <- s.nodes :: InboxQuiet(s.nodes[n]))
  }

  ghost predicate InboxQuiet(node: Node) {
    forall p <- node.inbox :: ForwardsQuietly(p.1)
  }

  lemma PublishKeepsQuiet(nodes: map<NodeId, Node>, to: set<NodeId>, channel: User, text: string)
    requires (forall n <- nodes :: InboxQuiet(nodes[n])) && ForwardsQuietly(text)
    ensures
      var nodes' := Publish(nodes, to, channel, text);
      forall n <- nodes' :: InboxQuiet(nodes'[n])
  {
    hide ForwardsQuietly;
    var nodes' := Publish(nodes, to, channel, text);
    forall n <- nodes' ensures InboxQuiet(nodes'[n]) {
      assert InboxQuiet(nodes[n]);
      forall p <- nodes'[n].inbox ensures ForwardsQuietly(p.1) {
        assert p in nodes[n].inbox || p == (channel, text);
      }
    }
  }

  lemma SendingKeepsQuiet(s: State, a: Step)
    requires AllQuiet(s) && Enabled(s, a) && (a.SendChat? || a.SendNotice? || a.Invite?)
    ensures AllQuiet(Apply(s, a))
  {
    hide Quiet, ForwardsQuietly, InboxQuiet, Publish;
    hide ChatLocal, ChatPublished, NoticeLocal, NoticePublished, InviteText;
    match a
    case SendChat(n, chat, receiver, to) =>
      ChatsAreQuiet(chat, s.nextRow);
      PublishKeepsQuiet(s.nodes, to, receiver, ChatPublished(chat, s.nextRow));
      SameInbox(s.nodes[n], s.nodes[n].updates + if chat.Group? then [] else [s.nextRow]);
    case SendNotice(n, notice, receiver, to) =>
      NoticesAreQuiet(notice);
      PublishKeepsQuiet(s.nodes, to, receiver, NoticePublished(notice));
    case Invite(n, conversation, group, from, receiver, to) =>
      InvitesAreQuiet(conversation, group, from);
      PublishKeepsQuiet(s.nodes, to, receiver, InviteText(conversation, group, from));
  }

  lemma SameInbox(node: Node, updates: seq<int>)
    requires InboxQuiet(node)
    ensures InboxQuiet(node.(updates := updates))
  {
  }

  lemma HandlingKeepsQuiet(s: State, n: NodeId, channel: User, text: string, known: bool)
    requires AllQuiet(s) && Enabled(s, HandleSub(n, channel, text, known))
    ensures AllQuiet(Apply(s, HandleSub(n, channel, text, known)))
  {
    assert InboxQuiet(s.nodes[n]);
    assert ForwardsQuietly((channel, text).1);
    var smaller := s.nodes[n].(inbox := s.nodes[n].inbox - multiset{(channel, text)});
    assert InboxQuiet(smaller) by {
      forall p <- smaller.inbox ensures ForwardsQuietly(p.1) {
        assert p in s.nodes[n].inbox;
      }
    }
    if known && channel in s.nodes[n].online && Split(text).Some? {
      ForwardIsQuiet(text);
      hide Quiet, Split, ForwardedText, ForwardsQuietly, Enabled, Apply, InboxQuiet;
      var e := TakenIn(s, n, channel, text);
      SameInbox(smaller, s.nodes[n].updates + [Split(text).value.msgid]);
    } else {
      AbsentIsDropped(s, n, channel, text, known);
      hide Quiet, Split, ForwardedText, ForwardsQuietly, Enabled, Apply, InboxQuiet;
    }
  }

  lemma ForwardIsQuiet(text: string)
    requires ForwardsQuietly(text) && Split(text).Some?
    ensures ForwardedText(text).Some? && Quiet(ForwardedText(text).value)
  {
  }

  lemma OthersKeepQuiet(s: State, a: Step)
    requires AllQuiet(s) && Enabled(s, a)
    requires a.ApplyUpdate? || a.SignIn? || a.MarkDelivered? || a.Disconnect?
    ensures AllQuiet(Apply(s, a))
  {
    hide Quiet, ForwardsQuietly, ReplyText;
    if a.SignIn? {
      ListsAreQuiet(a.listing);
    }
    var s' := Apply(s, a);
    forall n <- s'.nodes ensures InboxQuiet(s'.nodes[n]) {
      assert InboxQuiet(s.nodes[n]);
    }
  }

  lemma {:induction false} RunKeepsQuiet(s: State, steps: seq<Step>, t: State)
    requires AllQuiet(s) && Run(s, steps, t)
    ensures AllQuiet(t)
    decreases |steps|
  {
    hide AllQuiet, Enabled, Apply;
    if steps != [] {
      var a := steps[0];
      match a {
        case HandleSub(n, channel, text, known) => HandlingKeepsQuiet(s, n, channel, text, known);
        case SendChat(_, _, _, _) => SendingKeepsQuiet(s, a);
        case SendNotice(_, _, _, _) => SendingKeepsQuiet(s, a);
        case Invite(_, _, _, _, _, _) => SendingKeepsQuiet(s, a);
        case _ => OthersKeepQuiet(s, a);
      }
      RunKeepsQuiet(Apply(s, a), steps[1..], t);
    }
  }

  /** In every run over any number of servers: no chat, notice, invitation or unread list that is
      queued for anybody lets a waiting client go, and none changes the state of any client. */
  lemma DeliveryNeverAnswers(t: State, e: Enqueued, state: C.ClientState)
    requires Reachable(t) && e in t.enqueued
    ensures !C.Releases(ReadMessage(e.out.text)) && C.OnMessage(state, ReadMessage(e.out.text)) == state
  {
    var s, steps :| Init(s) && Run(s, steps, t);
    assert AllQuiet(s) by {
      forall n <- s.nodes ensures InboxQuiet(s.nodes[n]) {
      }
    }
    RunKeepsQuiet(s, steps, t);
    C.PushesDoNotRelease(ReadMessage(e.out.text));
  }
}
