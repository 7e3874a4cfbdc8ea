/** Delivery of chat messages across several servers: the `is_delivered` flag of a
    `chat_log` row, the asynchronous queue of flag updates, Redis publication, forwarding,
    and the replay at sign-in. One step is one request handler, except that a sign-in
    selects the unread rows in one step and flags rows in a later one.

    A row counts as sent only when its whole text was queued: a text that `snprintf` has
    clipped, or a line beyond the end of the unread list, does not count.

    `enqueued` and `missed` and `invited` are history. */
module Delivery {
  import opened Wrappers
  import opened Routing
  import opened Replay

  type User = nat
  type NodeId = nat

  datatype Row = Row(receiver: User, chat: Chat, delivered: bool)

  datatype Out = Text(text: string) | Unread(text: string, listing: seq<Listed>)

  /** One `en_resp`, with the table of connected users it was looked up in. */
  datatype Enqueued = Enqueued(node: NodeId, fd: int, out: Out, online: map<User, int>)

  /** A sign-in between its SELECT and its UPDATE. */
  datatype Marking = Marking(user: User, seen: set<nat>)

  /** `clint_nametofd`, the subscription messages waiting in the worker pool, and the
      asynchronous database queue of one server. */
  datatype Node = Node(online: map<User, int>, inbox: multiset<(User, string)>, updates: seq<int>)

  datatype State = State(
    rows: map<nat, Row>,
    nextRow: nat,
    nodes: map<NodeId, Node>,
    marking: map<nat, Marking>,
    enqueued: set<Enqueued>,
    missed: set<nat>,
    invited: set<int>)

  /** `to` is the set of servers whose subscription is active when a text is published, and
      `listing` the result of a sign-in's SELECT. */
  datatype Step =
    | SendChat(n: NodeId, chat: Chat, receiver: User, to: set<NodeId>)
    | SendNotice(n: NodeId, notice: Notice, receiver: User, to: set<NodeId>)
    | Invite(n: NodeId, conversation: string, group: string, from: string, receiver: User, to: set<NodeId>)
    | HandleSub(n: NodeId, channel: User, text: string, known: bool)
    | ApplyUpdate(n: NodeId, ok: bool)
    | SignIn(n: NodeId, user: User, fd: int, token: nat, listing: seq<Listed>)
    | MarkDelivered(token: nat, ok: bool)
    | Disconnect(n: NodeId, user: User)

  ghost predicate Init(s: State) {
    && s.rows == map[] && s.nextRow == 1 && s.marking == map[]
    && (forall n <- s.nodes :: s.nodes[n] == Node(map[], multiset{}, []))
    && s.enqueued == {} && s.missed == {} && s.invited == {}
  }

  ghost predicate Enabled(s: State, a: Step) {
    match a
    case SendChat(n, _, _, to) => n in s.nodes && to <= s.nodes.Keys && s.nextRow < Pow10(19)
    case SendNotice(n, notice, _, to) => n in s.nodes && to <= s.nodes.Keys && notice.name != []
    case Invite(n, conversation, _, _, _, to) =>
      n in s.nodes && to <= s.nodes.Keys && conversation != [] && Barless(conversation)
    case HandleSub(n, channel, text, _) => n in s.nodes && (channel, text) in s.nodes[n].inbox
    case ApplyUpdate(n, _) => n in s.nodes && s.nodes[n].updates != []
    case SignIn(n, user, _, token, listing) =>
      n in s.nodes && token !in s.marking && (listing == [] || Lists(listing, s.rows, user))
    case MarkDelivered(token, _) => token in s.marking
    case Disconnect(n, _) => n in s.nodes
  }

  function Publish(nodes: map<NodeId, Node>, to: set<NodeId>, channel: User, text: string): map<NodeId, Node> {
    map m | m in nodes ::
      if m in to then nodes[m].(inbox := nodes[m].inbox + multiset{(channel, text)}) else nodes[m]
  }

  /** The routing of single, multi, broadcast and group chat after the checks: row first,
      then either the local descriptor or Redis. Only the group handler leaves out the
      asynchronous update. */
  function DoSendChat(s: State, n: NodeId, chat: Chat, receiver: User, to: set<NodeId>): State
    requires n in s.nodes
  {
    var node := s.nodes[n];
    var id := s.nextRow;
    var local := receiver in node.online;
    var s1 := s.(rows := s.rows[id := Row(receiver, chat, local)], nextRow := id + 1);
    if local then
      s1.(enqueued := s.enqueued + {Enqueued(n, node.online[receiver], Text(ChatLocal(chat)), node.online)},
          nodes := s.nodes[n := node.(updates := node.updates + (if chat.Group? then [] else [id]))])
    else
      s1.(nodes := Publish(s.nodes, to, receiver, ChatPublished(chat, id)))
  }

  function DoSendNotice(s: State, n: NodeId, notice: Notice, receiver: User, to: set<NodeId>): State
    requires n in s.nodes
  {
    var node := s.nodes[n];
    if receiver in node.online then
      s.(enqueued := s.enqueued + {Enqueued(n, node.online[receiver], Text(NoticeLocal(notice)), node.online)})
    else s.(nodes := Publish(s.nodes, to, receiver, NoticePublished(notice)))
  }

  function DoInvite(
    s: State, n: NodeId, conversation: string, group: string, from: string, receiver: User, to: set<NodeId>): State
    requires n in s.nodes
  {
    var node := s.nodes[n];
    var text := InviteText(conversation, group, from);
    if receiver in node.online then
      s.(enqueued := s.enqueued + {Enqueued(n, node.online[receiver], Text(text), node.online)})
    else s.(nodes := Publish(s.nodes, to, receiver, text), invited := s.invited + {Atoll(conversation)})
  }

  /** A text from Redis: forwarded if its user is here, dropped otherwise. */
  function DoHandleSub(s: State, n: NodeId, channel: User, text: string, known: bool): State
    requires n in s.nodes
  {
    var node := s.nodes[n].(inbox := s.nodes[n].inbox - multiset{(channel, text)});
    match Split(text)
    case None => s.(nodes := s.nodes[n := node])
    case Some(p) =>
      if known && channel in node.online then
        s.(enqueued := s.enqueued + {Enqueued(n, node.online[channel], Text(ForwardedText(text).value), node.online)},
           nodes := s.nodes[n := node.(updates := node.updates + [p.msgid])])
      else s.(nodes := s.nodes[n := node])
  }

  function DoApplyUpdate(s: State, n: NodeId, ok: bool): State
    requires n in s.nodes && s.nodes[n].updates != []
  {
    var id := s.nodes[n].updates[0];
    var s1 := s.(nodes := s.nodes[n := s.nodes[n].(updates := s.nodes[n].updates[1..])]);
    if ok && id in s.rows then s1.(rows := s.rows[id := s.rows[id].(delivered := true)]) else s1
  }

  function UnreadRows(rows: map<nat, Row>, user: User): set<nat> {
    set id | id in rows && rows[id].receiver == user && !rows[id].delivered
  }

  function Ids(listing: seq<Listed>): set<nat> {
    set l | l in listing :: l.id
  }

  /** Every unread row of the user once, in any order of send times; the joins with the users
      drop none, since both ends of a row are foreign keys. */
  ghost predicate Lists(listing: seq<Listed>, rows: map<nat, Row>, user: User) {
    && Ids(listing) == UnreadRows(rows, user)
    && (forall l <- listing :: l.id in rows && l.chat == rows[l.id].chat)
    && (forall i, j :: 0 <= i < j < |listing| ==> listing[i].id != listing[j].id)
  }

  function UnreadList(listing: seq<Listed>): Out {
    Unread(ReplyText(listing), listing)
  }

  /** An empty result, be it for want of rows or for a failed query, ends the handler. */
  function DoSignIn(s: State, n: NodeId, user: User, fd: int, token: nat, listing: seq<Listed>): State
    requires n in s.nodes
  {
    var online := s.nodes[n].online[user := fd];
    var s1 := s.(nodes := s.nodes[n := s.nodes[n].(online := online)]);
    if listing == [] then s1
    else s1.(enqueued := s.enqueued + {Enqueued(n, fd, UnreadList(listing), online)},
             marking := s.marking[token := Marking(user, Ids(listing))])
  }

  /** The UPDATE of a sign-in flags every unread row of the user, seen or not. */
  function DoMarkDelivered(s: State, token: nat, ok: bool): State
    requires token in s.marking
  {
    var m := s.marking[token];
    var s1 := s.(marking := s.marking - {token});
    if ok then
      s1.(rows := map id | id in s.rows ::
            if s.rows[id].receiver == m.user then s.rows[id].(delivered := true) else s.rows[id],
          missed := s.missed + (UnreadRows(s.rows, m.user) - m.seen))
    else s1
  }

  function Apply(s: State, a: Step): State
    requires Enabled(s, a)
  {
    match a
    case SendChat(n, chat, receiver, to) => DoSendChat(s, n, chat, receiver, to)
    case SendNotice(n, notice, receiver, to) => DoSendNotice(s, n, notice, receiver, to)
    case Invite(n, conversation, group, from, receiver, to) =>
      DoInvite(s, n, conversation, group, from, receiver, to)
    case HandleSub(n, channel, text, known) => DoHandleSub(s, n, channel, text, known)
    case ApplyUpdate(n, ok) => DoApplyUpdate(s, n, ok)
    case SignIn(n, user, fd, token, listing) => DoSignIn(s, n, user, fd, token, listing)
    case MarkDelivered(token, ok) => DoMarkDelivered(s, token, ok)
    case Disconnect(n, user) =>
      s.(nodes := s.nodes[n := s.nodes[n].(online := s.nodes[n].online - {user})])
  }

  // ---------- what a flag stands for ----------

  /** The whole text of row `id` was queued for a descriptor that its receiver had at lookup. */
  ghost predicate Carries(e: Enqueued, id: nat, row: Row) {
    && row.receiver in e.online && e.online[row.receiver] == e.fd
    && match e.out
       case Text(text) => text == ChatWhole(row.chat)
       case Unread(text, listing) => Shows(text, listing, id, row.chat)
  }

  /** The unread list has the row: where its line lies the bytes of the reply are its sender
      and its text. */
  ghost predicate Shows(text: string, listing: seq<Listed>, id: nat, chat: Chat) {
    exists i: nat :: i < |listing| && listing[i].id == id && Reads(text, listing, i, chat)
  }

  ghost predicate Reads(text: string, listing: seq<Listed>, i: nat, chat: Chat)
    requires i < |listing|
  {
    var from, to := Start(listing, i), End(listing, i);
    && from + |chat.from| + 1 + |chat.text| <= to <= |text|
    && text[from..from + |chat.from| + 1] == chat.from + " "
    && text[to - |chat.text|..to] == chat.text
  }

  lemma InsideReads(listing: seq<Listed>, i: nat)
    requires i < |listing|
    ensures Reads(ReplyText(listing), listing, i, listing[i].chat) <==> Inside(listing, i)
  {
    if Inside(listing, i) {
      ReplyShowsTheChat(listing, i);
    }
    hide ReplyText, Start, End, PrintedKind;
  }

  /** The row was selected, but its line ends behind the end of the reply. */
  ghost predicate CutOff(listing: seq<Listed>, id: nat) {
    exists i: nat :: i < |listing| && listing[i].id == id && !Inside(listing, i)
  }

  ghost predicate WasCut(s: State, id: nat) {
    exists e :: e in s.enqueued && e.out.Unread? && CutOff(e.out.listing, id)
  }

  ghost predicate Sent(s: State, id: nat)
    requires id in s.rows
  {
    exists e :: e in s.enqueued && Carries(e, id, s.rows[id])
  }

  /** The direct or the forwarded text of the row was queued for its receiver, but clipped. */
  ghost predicate CarriesClipped(e: Enqueued, id: nat, row: Row) {
    && row.receiver in e.online && e.online[row.receiver] == e.fd
    && e.out.Text? && e.out.text != ChatWhole(row.chat)
    && (e.out.text == ChatLocal(row.chat) || Some(e.out.text) == ForwardedText(ChatPublished(row.chat, id)))
  }

  ghost predicate WasClipped(s: State, id: nat)
    requires id in s.rows
  {
    exists e :: e in s.enqueued && CarriesClipped(e, id, s.rows[id])
  }

  /** The text was sent, or one of the two ways in which a wrong or cut text can name the row. */
  ghost predicate SentOrGarbled(s: State, id: nat)
    requires id in s.rows
  {
    Sent(s, id) || id in s.invited || WasClipped(s, id)
  }

  /** A row number that may safely be flagged later: no row at all, now or in future, or
      one that has been sent. */
  ghost predicate MayFlag(s: State, id: int) {
    id < 1 || id in s.invited || (id in s.rows && SentOrGarbled(s, id))
  }

  /** A text under way names no row, or is the published text of the row it names. */
  ghost predicate InFlight(s: State, channel: User, text: string) {
    match Split(text)
    case None => true
    case Some(p) =>
      || p.msgid < 1
      || p.msgid in s.invited
      || (p.msgid in s.rows && s.rows[p.msgid].receiver == channel
          && text == ChatPublished(s.rows[p.msgid].chat, p.msgid))
  }

  ghost predicate NodeOk(s: State, node: Node) {
    && (forall p <- node.inbox :: InFlight(s, p.0, p.1))
    && (forall i :: 0 <= i < |node.updates| ==> MayFlag(s, node.updates[i]))
  }

  ghost predicate MarkingOk(s: State, m: Marking) {
    forall id <- m.seen :: id in s.rows && s.rows[id].receiver == m.user && (Sent(s, id) || WasCut(s, id))
  }

  ghost predicate Inv(s: State) {
    && s.nextRow >= 1
    && (forall id <- s.rows :: 1 <= id < s.nextRow)
    && (forall id <- s.rows :: s.rows[id].delivered ==> SentOrGarbled(s, id) || id in s.missed || WasCut(s, id))
    && (forall n <- s.nodes :: NodeOk(s, s.nodes[n]))
    && (forall t <- s.marking :: MarkingOk(s, s.marking[t]))
  }

  // ---------- growth ----------

  /** From `s` to `s'` rows keep their receiver and text, and history only grows. */
  ghost predicate Grows(s: State, s': State) {
    && (forall id <- s.rows ::
          id in s'.rows && s'.rows[id].receiver == s.rows[id].receiver && s'.rows[id].chat == s.rows[id].chat)
    && s.enqueued <= s'.enqueued && s.invited <= s'.invited
  }

  lemma SentGrows(s: State, s': State, id: nat)
    requires Grows(s, s') && id in s.rows && Sent(s, id)
    ensures Sent(s', id)
  {
    var e :| e in s.enqueued && Carries(e, id, s.rows[id]);
    assert e in s'.enqueued && Carries(e, id, s'.rows[id]);
  }

  lemma WasClippedGrows(s: State, s': State, id: nat)
    requires Grows(s, s') && id in s.rows && WasClipped(s, id)
    ensures WasClipped(s', id)
  {
    var e :| e in s.enqueued && CarriesClipped(e, id, s.rows[id]);
    assert e in s'.enqueued && CarriesClipped(e, id, s'.rows[id]);
  }

  lemma GarbledGrows(s: State, s': State, id: nat)
    requires Grows(s, s') && id in s.rows && SentOrGarbled(s, id)
    ensures SentOrGarbled(s', id)
  {
    if Sent(s, id) {
      SentGrows(s, s', id);
    } else if WasClipped(s, id) {
      WasClippedGrows(s, s', id);
    }
  }

  lemma WasCutGrows(s: State, s': State, id: nat)
    requires Grows(s, s') && WasCut(s, id)
    ensures WasCut(s', id)
  {
    var e :| e in s.enqueued && e.out.Unread? && CutOff(e.out.listing, id);
    assert e in s'.enqueued;
  }

  lemma MayFlagGrows(s: State, s': State, id: int)
    requires Grows(s, s') && MayFlag(s, id)
    ensures MayFlag(s', id)
  {
    hide SentOrGarbled;
    if id >= 1 && id !in s.invited {
      GarbledGrows(s, s', id);
    }
  }

  lemma NodeOkGrows(s: State, s': State, node: Node)
    requires Grows(s, s') && NodeOk(s, node)
    ensures NodeOk(s', node)
  {
    forall i | 0 <= i < |node.updates| ensures MayFlag(s', node.updates[i]) {
      MayFlagGrows(s, s', node.updates[i]);
    }
    forall p <- node.inbox ensures InFlight(s', p.0, p.1) {
      assert InFlight(s, p.0, p.1);
    }
  }

  lemma MarkingOkGrows(s: State, s': State, m: Marking)
    requires Grows(s, s') && MarkingOk(s, m)
    ensures MarkingOk(s', m)
  {
    forall id <- m.seen
      ensures id in s'.rows && s'.rows[id].receiver == m.user && (Sent(s', id) || WasCut(s', id))
    {
      if Sent(s, id) {
        SentGrows(s, s', id);
      } else {
        WasCutGrows(s, s', id);
      }
    }
  }

  /** The part of the invariant that growth alone preserves. */
  lemma InvGrows(s: State, s': State)
    requires Inv(s) && Grows(s, s')
    ensures forall n <- s.nodes :: NodeOk(s', s.nodes[n])
    ensures forall t <- s.marking :: MarkingOk(s', s.marking[t])
    ensures forall id <- s.rows :: s.rows[id].delivered ==> SentOrGarbled(s', id) || id in s.missed || WasCut(s', id)
  {
    forall n <- s.nodes ensures NodeOk(s', s.nodes[n]) {
      NodeOkGrows(s, s', s.nodes[n]);
    }
    forall t <- s.marking ensures MarkingOk(s', s.marking[t]) {
      MarkingOkGrows(s, s', s.marking[t]);
    }
    forall id <- s.rows | s.rows[id].delivered ensures SentOrGarbled(s', id) || id in s.missed || WasCut(s', id) {
      if SentOrGarbled(s, id) {
        GarbledGrows(s, s', id);
      } else if WasCut(s, id) {
        WasCutGrows(s, s', id);
      }
    }
  }

  lemma PublishKeepsNodes(s': State, nodes: map<NodeId, Node>, to: set<NodeId>, channel: User, text: string)
    requires forall n <- nodes :: NodeOk(s', nodes[n])
    requires InFlight(s', channel, text)
    ensures
      var nodes' := Publish(nodes, to, channel, text);
      forall n <- nodes' :: NodeOk(s', nodes'[n])
  {
    var nodes' := Publish(nodes, to, channel, text);
    forall n <- nodes' ensures NodeOk(s', nodes'[n]) {
      forall p <- nodes'[n].inbox ensures InFlight(s', p.0, p.1) {
        assert p in nodes[n].inbox || p == (channel, text);
      }
    }
  }

  lemma InvRows(s: State)
    requires Inv(s)
    ensures s.nextRow >= 1 && forall id <- s.rows :: 1 <= id < s.nextRow
  {
  }

  lemma InvNode(s: State, n: NodeId)
    requires Inv(s) && n in s.nodes
    ensures NodeOk(s, s.nodes[n])
  {
  }

  /** A step that changes one server, with what is new in it justified. */
  lemma OneServerKeepsInv(s: State, s': State, n: NodeId)
    requires Inv(s) && Grows(s, s') && n in s.nodes && n in s'.nodes && s'.nodes == s.nodes[n := s'.nodes[n]]
    requires NodeOk(s', s.nodes[n]) ==> NodeOk(s', s'.nodes[n])
    requires s'.nextRow >= 1 && s.missed <= s'.missed && forall id <- s'.rows :: 1 <= id < s'.nextRow
    requires forall id <- s'.rows | s'.rows[id].delivered ::
               (id in s.rows && s.rows[id].delivered) || SentOrGarbled(s', id)
    requires forall t <- s'.marking ::
               (t in s.marking && s'.marking[t] == s.marking[t]) || MarkingOk(s', s'.marking[t])
    ensures Inv(s')
  {
    InvGrows(s, s');
    hide NodeOk, MarkingOk, SentOrGarbled, WasCut;
    forall m <- s'.nodes ensures NodeOk(s', s'.nodes[m]) {
      assert m in s.nodes && NodeOk(s', s.nodes[m]);
    }
    forall t <- s'.marking ensures MarkingOk(s', s'.marking[t]) {
      assert t in s.marking ==> MarkingOk(s', s.marking[t]);
    }
  }

  // ---------- the steps ----------

  lemma LocalChatKeepsInv(s: State, n: NodeId, chat: Chat, receiver: User, to: set<NodeId>)
    requires Inv(s) && Enabled(s, SendChat(n, chat, receiver, to)) && receiver in s.nodes[n].online
    ensures Inv(DoSendChat(s, n, chat, receiver, to))
  {
    hide Inv, InFlight, WasCut, ChatWhole, ChatLocal, ForwardedText, ChatPublished;
    InvRows(s);
    var s' := DoSendChat(s, n, chat, receiver, to);
    var id := s.nextRow;
    var node := s.nodes[n];
    assert Grows(s, s');
    var e := Enqueued(n, node.online[receiver], Text(ChatLocal(chat)), node.online);
    assert e in s'.enqueued;
    assert Carries(e, id, s'.rows[id]) || CarriesClipped(e, id, s'.rows[id]);
    assert SentOrGarbled(s', id) && MayFlag(s', id);
    OneServerKeepsInv(s, s', n);
  }

  lemma RemoteChatInFlight(s': State, id: nat, chat: Chat, receiver: User)
    requires id in s'.rows && s'.rows[id].receiver == receiver && s'.rows[id].chat == chat && id < Pow10(19)
    ensures InFlight(s', receiver, ChatPublished(chat, id))
  {
    ChatNamesItsRow(chat, id);
  }

  lemma RemoteChatGrows(s: State, n: NodeId, chat: Chat, receiver: User, to: set<NodeId>)
    requires Inv(s) && n in s.nodes && receiver !in s.nodes[n].online
    ensures
      var s' := DoSendChat(s, n, chat, receiver, to);
      && Grows(s, s') && s'.nodes == Publish(s.nodes, to, receiver, ChatPublished(chat, s.nextRow))
      && s'.rows == s.rows[s.nextRow := Row(receiver, chat, false)] && s'.nextRow == s.nextRow + 1
      && s'.marking == s.marking && s'.missed == s.missed
  {
  }

  lemma RemoteChatKeepsInv(s: State, n: NodeId, chat: Chat, receiver: User, to: set<NodeId>)
    requires Inv(s) && Enabled(s, SendChat(n, chat, receiver, to)) && receiver !in s.nodes[n].online
    ensures Inv(DoSendChat(s, n, chat, receiver, to))
  {
    hide InFlight, MayFlag, Sent, WasCut, ChatFits, ChatPublished;
    var s' := DoSendChat(s, n, chat, receiver, to);
    RemoteChatGrows(s, n, chat, receiver, to);
    InvGrows(s, s');
    RemoteChatInFlight(s', s.nextRow, chat, receiver);
    PublishKeepsNodes(s', s.nodes, to, receiver, ChatPublished(chat, s.nextRow));
  }

  lemma SendChatKeepsInv(s: State, n: NodeId, chat: Chat, receiver: User, to: set<NodeId>)
    requires Inv(s) && Enabled(s, SendChat(n, chat, receiver, to))
    ensures Inv(DoSendChat(s, n, chat, receiver, to))
  {
    if receiver in s.nodes[n].online {
      LocalChatKeepsInv(s, n, chat, receiver, to);
    } else {
      RemoteChatKeepsInv(s, n, chat, receiver, to);
    }
  }

  lemma SendNoticeKeepsInv(s: State, n: NodeId, notice: Notice, receiver: User, to: set<NodeId>)
    requires Inv(s) && Enabled(s, SendNotice(n, notice, receiver, to))
    ensures Inv(DoSendNotice(s, n, notice, receiver, to))
  {
    var s' := DoSendNotice(s, n, notice, receiver, to);
    InvGrows(s, s');
    if receiver !in s.nodes[n].online {
      NoticeTransparency(notice);
      PublishKeepsNodes(s', s.nodes, to, receiver, NoticePublished(notice));
    }
  }

  lemma InviteKeepsInv(
    s: State, n: NodeId, conversation: string, group: string, from: string, receiver: User, to: set<NodeId>)
    requires Inv(s) && Enabled(s, Invite(n, conversation, group, from, receiver, to))
    ensures Inv(DoInvite(s, n, conversation, group, from, receiver, to))
  {
    var s' := DoInvite(s, n, conversation, group, from, receiver, to);
    InvGrows(s, s');
    if receiver !in s.nodes[n].online {
      InviteIsMisread(conversation, group, from);
      PublishKeepsNodes(s', s.nodes, to, receiver, InviteText(conversation, group, from));
    }
  }

  lemma HandleSubGrows(s: State, n: NodeId, channel: User, text: string, known: bool)
    requires n in s.nodes
    ensures Grows(s, DoHandleSub(s, n, channel, text, known))
    ensures
      var s' := DoHandleSub(s, n, channel, text, known);
      && s' == s.(nodes := s.nodes[n := s'.nodes[n]], enqueued := s'.enqueued)
      && s'.nodes[n].inbox == s.nodes[n].inbox - multiset{(channel, text)}
  {
  }

  /** What is forwarded entitles to the flag update queued with it. */
  lemma ForwardedMayFlag(s: State, n: NodeId, channel: User, text: string)
    requires Inv(s) && Enabled(s, HandleSub(n, channel, text, true))
    requires Split(text).Some? && channel in s.nodes[n].online
    ensures MayFlag(DoHandleSub(s, n, channel, text, true), Split(text).value.msgid)
  {
    var s' := DoHandleSub(s, n, channel, text, true);
    var node := s.nodes[n];
    assert NodeOk(s, node) && InFlight(s, channel, text);
    var id := Split(text).value.msgid;
    var e := Enqueued(n, node.online[channel], Text(ForwardedText(text).value), node.online);
    assert e in s'.enqueued;
    if id >= 1 && id !in s.invited {
      assert Carries(e, id, s'.rows[id]) || CarriesClipped(e, id, s'.rows[id]);
    }
  }

  lemma HandleSubKeepsInv(s: State, n: NodeId, channel: User, text: string, known: bool)
    requires Inv(s) && Enabled(s, HandleSub(n, channel, text, known))
    ensures Inv(DoHandleSub(s, n, channel, text, known))
  {
    var s' := DoHandleSub(s, n, channel, text, known);
    HandleSubGrows(s, n, channel, text, known);
    if Split(text).Some? && known && channel in s.nodes[n].online {
      ForwardedMayFlag(s, n, channel, text);
    }
    hide Inv, InFlight, MayFlag, SentOrGarbled, MarkingOk;
    InvRows(s);
    OneServerKeepsInv(s, s', n);
  }

  lemma ApplyUpdateKeepsInv(s: State, n: NodeId, ok: bool)
    requires Inv(s) && Enabled(s, ApplyUpdate(n, ok))
    ensures Inv(DoApplyUpdate(s, n, ok))
  {
    hide Inv, InFlight, Sent, ChatFits;
    InvRows(s);
    var s' := DoApplyUpdate(s, n, ok);
    var id := s.nodes[n].updates[0];
    assert Grows(s, s');
    assert NodeOk(s, s.nodes[n]) by {
      InvNode(s, n);
    }
    assert MayFlag(s, id);
    MayFlagGrows(s, s', id);
    OneServerKeepsInv(s, s', n);
  }

  /** What the SELECT found is queued, or cut off. */
  lemma SelectedIsSentOrCut(s': State, e: Enqueued, user: User, listing: seq<Listed>, id: nat)
    requires e in s'.enqueued && e.out == UnreadList(listing)
    requires user in e.online && e.online[user] == e.fd
    requires forall l <- listing :: l.id in s'.rows && l.chat == s'.rows[l.id].chat && s'.rows[l.id].receiver == user
    requires id in Ids(listing)
    ensures id in s'.rows && (Sent(s', id) || WasCut(s', id))
  {
    var i: nat :| i < |listing| && listing[i].id == id;
    assert listing[i] in listing;
    InsideReads(listing, i);
    hide ReplyText, Reads;
    if Inside(listing, i) {
      assert Carries(e, id, s'.rows[id]);
    } else {
      assert CutOff(listing, id);
    }
  }

  lemma SelectedMarkingOk(s': State, e: Enqueued, user: User, listing: seq<Listed>)
    requires e in s'.enqueued && e.out == UnreadList(listing)
    requires user in e.online && e.online[user] == e.fd
    requires Lists(listing, s'.rows, user)
    ensures MarkingOk(s', Marking(user, Ids(listing)))
  {
    hide Sent, WasCut;
    forall l <- listing ensures s'.rows[l.id].receiver == user {
      assert l.id in Ids(listing);
    }
    forall id <- Ids(listing)
      ensures id in s'.rows && s'.rows[id].receiver == user && (Sent(s', id) || WasCut(s', id))
    {
      SelectedIsSentOrCut(s', e, user, listing, id);
    }
  }

  lemma SignInKeepsInv(s: State, n: NodeId, user: User, fd: int, token: nat, listing: seq<Listed>)
    requires Inv(s) && Enabled(s, SignIn(n, user, fd, token, listing))
    ensures Inv(DoSignIn(s, n, user, fd, token, listing))
  {
    hide Inv, InFlight, MayFlag, SentOrGarbled, MarkingOk;
    InvRows(s);
    var s' := DoSignIn(s, n, user, fd, token, listing);
    if listing != [] {
      SelectedMarkingOk(s', Enqueued(n, fd, UnreadList(listing), s'.nodes[n].online), user, listing);
    }
    OneServerKeepsInv(s, s', n);
  }

  lemma MarkDeliveredKeepsInv(s: State, token: nat, ok: bool)
    requires Inv(s) && Enabled(s, MarkDelivered(token, ok))
    ensures Inv(DoMarkDelivered(s, token, ok))
  {
    var s' := DoMarkDelivered(s, token, ok);
    var m := s.marking[token];
    assert Grows(s, s');
    InvGrows(s, s');
    assert MarkingOk(s', m);
    forall id <- s'.rows | s'.rows[id].delivered
      ensures SentOrGarbled(s', id) || id in s'.missed || WasCut(s', id)
    {
      if !s.rows[id].delivered {
        assert id in UnreadRows(s.rows, m.user);
      }
    }
  }

  lemma {:induction false} KeepsInv(s: State, a: Step)
    requires Inv(s) && Enabled(s, a)
    ensures Inv(Apply(s, a))
  {
    match a
    case SendChat(n, chat, receiver, to) => SendChatKeepsInv(s, n, chat, receiver, to);
    case SendNotice(n, notice, receiver, to) => SendNoticeKeepsInv(s, n, notice, receiver, to);
    case Invite(n, conversation, group, from, receiver, to) =>
      InviteKeepsInv(s, n, conversation, group, from, receiver, to);
    case HandleSub(n, channel, text, known) => HandleSubKeepsInv(s, n, channel, text, known);
    case ApplyUpdate(n, ok) => ApplyUpdateKeepsInv(s, n, ok);
    case SignIn(n, user, fd, token, listing) => SignInKeepsInv(s, n, user, fd, token, listing);
    case MarkDelivered(token, ok) => MarkDeliveredKeepsInv(s, token, ok);
    case Disconnect(n, user) =>
      InvGrows(s, Apply(s, a));
      assert NodeOk(Apply(s, a), s.nodes[n]);
  }

  // ---------- whole runs ----------

  ghost predicate Run(s: State, steps: seq<Step>, t: State)
    decreases |steps|
  {
    if steps == [] then s == t
    else Enabled(s, steps[0]) && Run(Apply(s, steps[0]), steps[1..], t)
  }

  ghost predicate Reachable(t: State) {
    exists s, steps :: Init(s) && Run(s, steps, t)
  }

  lemma {:induction false} RunKeepsInv(s: State, steps: seq<Step>, t: State)
    requires Inv(s) && Run(s, steps, t)
    ensures Inv(t)
    decreases |steps|
  {
    hide Inv, Enabled, Apply;
    if steps != [] {
      KeepsInv(s, steps[0]);
      RunKeepsInv(Apply(s, steps[0]), steps[1..], t);
    }
  }

  /** In every run over any number of servers: the whole text of a flagged row was sent to
      its receiver, or the row arrived in the gap of a sign-in, or a sign-in's list was cut in
      front of its end, or a published invitation named its number, or its text was queued for
      him clipped. */
  lemma FlagSafety(t: State, id: nat)
    requires Reachable(t) && id in t.rows && t.rows[id].delivered
    ensures Sent(t, id) || id in t.missed || WasCut(t, id) || id in t.invited || WasClipped(t, id)
  {
    var s, steps :| Init(s) && Run(s, steps, t);
    RunKeepsInv(s, steps, t);
  }

  /** Queued flag updates obey the same rule before they are applied. */
  lemma PendingUpdateSafety(t: State, n: NodeId, i: nat)
    requires Reachable(t) && n in t.nodes && i < |t.nodes[n].updates| && t.nodes[n].updates[i] in t.rows
    ensures
      var id := t.nodes[n].updates[i];
      Sent(t, id) || id in t.invited || WasClipped(t, id)
  {
    var s, steps :| Init(s) && Run(s, steps, t);
    RunKeepsInv(s, steps, t);
    assert NodeOk(t, t.nodes[n]);
    assert MayFlag(t, t.nodes[n].updates[i]);
  }

  // ---------- the three ways to a receiver ----------

  /** A receiver on the sender's server: one text is queued, for his descriptor, and it is the
      whole one if and only if it fits the buffer; the row is stored flagged, and its update is
      queued behind the others, except for a group chat; no other server notices. */
  lemma LocalDelivery(s: State, n: NodeId, chat: Chat, receiver: User, to: set<NodeId>) returns (e: Enqueued)
    requires Enabled(s, SendChat(n, chat, receiver, to)) && receiver in s.nodes[n].online
    ensures
      var id, node := s.nextRow, s.nodes[n];
      var s' := Apply(s, SendChat(n, chat, receiver, to));
      && s'.enqueued == s.enqueued + {e}
      && e.node == n && e.fd == node.online[receiver] && e.online == node.online
      && e.out.Text? && e.out.text <= ChatWhole(chat)
      && (Carries(e, id, Row(receiver, chat, true)) <==> |ChatWhole(chat)| <= 65534)
      && s'.rows == s.rows[id := Row(receiver, chat, true)] && s'.nextRow == id + 1
      && s'.nodes == s.nodes[n := node.(updates := node.updates + if chat.Group? then [] else [id])]
      && s'.marking == s.marking && s'.missed == s.missed && s'.invited == s.invited
  {
    var node := s.nodes[n];
    e := Enqueued(n, node.online[receiver], Text(ChatLocal(chat)), node.online);
    LocalIsClipped(chat);
    ClipMeans(ChatWhole(chat));
  }

  lemma LocalIsClipped(chat: Chat)
    ensures ChatLocal(chat) == Clip(ChatWhole(chat))
  {
    ChatForms(chat, 0);
  }

  /** A receiver on another, subscribed server: the row is stored unflagged, every server that
      listens gets the published text once and no other anything. His server takes the text in
      and queues the flag update for this very row in any case; the one text it queues for him
      is the whole one if and only if the published text fits the buffer. */
  lemma RemoteDelivery(s: State, n: NodeId, chat: Chat, receiver: User, to: set<NodeId>, m: NodeId)
    returns (e: Enqueued)
    requires Enabled(s, SendChat(n, chat, receiver, to)) && receiver !in s.nodes[n].online
    requires m in to && receiver in s.nodes[m].online
    ensures
      var id := s.nextRow;
      var s1 := Apply(s, SendChat(n, chat, receiver, to));
      var text := ChatPublished(chat, id);
      && s1.rows == s.rows[id := Row(receiver, chat, false)] && s1.enqueued == s.enqueued
      && s1.nodes.Keys == s.nodes.Keys
      && (forall k <- s.nodes ::
            s1.nodes[k] ==
            if k in to then s.nodes[k].(inbox := s.nodes[k].inbox + multiset{(receiver, text)}) else s.nodes[k])
      && Enabled(s1, HandleSub(m, receiver, text, true))
      && var s2 := Apply(s1, HandleSub(m, receiver, text, true));
         && s2.rows == s1.rows && s2.enqueued == s.enqueued + {e}
         && e.node == m && e.fd == s.nodes[m].online[receiver]
         && (Carries(e, id, s2.rows[id]) <==> ChatFits(chat, id))
         && s2.nodes == s1.nodes[m := s.nodes[m].(updates := s.nodes[m].updates + [id])]
  {
    var id := s.nextRow;
    var s1, text := Apply(s, SendChat(n, chat, receiver, to)), ChatPublished(chat, id);
    ChatNamesItsRow(chat, id);
    ForwardedWhole(chat, id);
    PublishedEverywhere(s, n, chat, receiver, to);
    hide ChatPublished, ChatFits, ChatWhole, Split, Enabled, Apply;
    var node := s.nodes[m].(inbox := s.nodes[m].inbox + multiset{(receiver, text)});
    assert s1.nodes[m] == node;
    e := TakenIn(s1, m, receiver, text);
    assert node.inbox - multiset{(receiver, text)} == s.nodes[m].inbox;
    assert Carries(e, id, s1.rows[id]) <==> ForwardedText(text) == Some(ChatWhole(chat));
  }

  lemma PublishedEverywhere(s: State, n: NodeId, chat: Chat, receiver: User, to: set<NodeId>)
    requires Enabled(s, SendChat(n, chat, receiver, to)) && receiver !in s.nodes[n].online
    ensures
      var id, s1 := s.nextRow, Apply(s, SendChat(n, chat, receiver, to));
      && s1.rows == s.rows[id := Row(receiver, chat, false)] && s1.enqueued == s.enqueued
      && s1.nodes.Keys == s.nodes.Keys
      && forall k <- s.nodes ::
           s1.nodes[k] ==
           if k in to then
             s.nodes[k].(inbox := s.nodes[k].inbox + multiset{(receiver, ChatPublished(chat, id))})
           else s.nodes[k]
  {
    hide ChatPublished;
  }

  lemma TakenIn(s: State, m: NodeId, receiver: User, text: string) returns (e: Enqueued)
    requires m in s.nodes && (receiver, text) in s.nodes[m].inbox && receiver in s.nodes[m].online
    requires Split(text).Some?
    ensures ForwardedText(text).Some?
    ensures e == Enqueued(m, s.nodes[m].online[receiver], Text(ForwardedText(text).value), s.nodes[m].online)
    ensures Enabled(s, HandleSub(m, receiver, text, true))
    ensures
      var node := s.nodes[m];
      Apply(s, HandleSub(m, receiver, text, true)) ==
      s.(enqueued := s.enqueued + {e},
         nodes := s.nodes[m := node.(inbox := node.inbox - multiset{(receiver, text)},
                                     updates := node.updates + [Split(text).value.msgid])])
  {
    hide Split;
    e := Enqueued(m, s.nodes[m].online[receiver], Text(ForwardedText(text).value), s.nodes[m].online);
  }

  /** A text for a user who is not here, or one that names no row, is dropped. */
  lemma AbsentIsDropped(s: State, n: NodeId, channel: User, text: string, known: bool)
    requires Enabled(s, HandleSub(n, channel, text, known))
    requires !known || channel !in s.nodes[n].online || Split(text).None?
    ensures Apply(s, HandleSub(n, channel, text, known)) ==
            s.(nodes := s.nodes[n := s.nodes[n].(inbox := s.nodes[n].inbox - multiset{(channel, text)})])
  {
  }

  /** What a friend notice or an invitation does: one text for a receiver who is here, otherwise
      one published text for every server that listens; rows and updates stay. */
  ghost predicate Noticed(
    s: State, s': State, n: NodeId, receiver: User, to: set<NodeId>, local: string, remote: string)
  {
    && n in s.nodes && s'.rows == s.rows && s'.nextRow == s.nextRow
    && s'.marking == s.marking && s'.missed == s.missed
    && if receiver in s.nodes[n].online then
         && s'.enqueued == s.enqueued + {Enqueued(n, s.nodes[n].online[receiver], Text(local), s.nodes[n].online)}
         && s'.nodes == s.nodes && s'.invited == s.invited
       else
         && s'.enqueued == s.enqueued && s'.nodes.Keys == s.nodes.Keys
         && forall k <- s.nodes ::
              s'.nodes[k] ==
              if k in to then s.nodes[k].(inbox := s.nodes[k].inbox + multiset{(receiver, remote)}) else s.nodes[k]
  }

  lemma NoticeGoesOut(s: State, n: NodeId, notice: Notice, receiver: User, to: set<NodeId>)
    requires Enabled(s, SendNotice(n, notice, receiver, to))
    ensures
      var s' := Apply(s, SendNotice(n, notice, receiver, to));
      && s'.invited == s.invited
      && Noticed(s, s', n, receiver, to, NoticeLocal(notice), NoticePublished(notice))
  {
    hide NoticeLocal, NoticePublished;
  }

  lemma NoticeDelivery(s: State, n: NodeId, name: string, receiver: User, to: set<NodeId>)
    requires n in s.nodes && to <= s.nodes.Keys && name != []
    ensures
      var s' := Apply(s, SendNotice(n, FriendRequest(name), receiver, to));
      && s'.invited == s.invited
      && Noticed(s, s', n, receiver, to, Clip("friend_request|1|" + name), Clip("friend_request|1|0|" + name))
    ensures
      var s' := Apply(s, SendNotice(n, FriendAccepted(name), receiver, to));
      && s'.invited == s.invited
      && Noticed(s, s', n, receiver, to, Clip("handle_friend|1|" + name + ACCEPTED_NOTE),
                 Clip("handle_friend|1|0|" + name + ACCEPTED_NOTE))
  {
    hide Clip, Noticed, Apply;
    NoticeGoesOut(s, n, FriendRequest(name), receiver, to);
    NoticeGoesOut(s, n, FriendAccepted(name), receiver, to);
  }

  lemma InviteDelivery(
    s: State, n: NodeId, conversation: string, group: string, from: string, receiver: User, to: set<NodeId>)
    requires Enabled(s, Invite(n, conversation, group, from, receiver, to))
    ensures
      var text := Clip("group_invite|2|" + conversation + "|" + group + "|" + from);
      var s' := Apply(s, Invite(n, conversation, group, from, receiver, to));
      && Noticed(s, s', n, receiver, to, text, text)
      && (receiver !in s.nodes[n].online ==> s'.invited == s.invited + {Atoll(conversation)})
  {
    hide Clip, Atoll;
  }

  /** Signing in and going away: who is looked up where. */
  lemma OnlineFollows(s: State, n: NodeId, user: User, fd: int, token: nat, listing: seq<Listed>)
    requires Enabled(s, SignIn(n, user, fd, token, listing))
    ensures
      var s' := Apply(s, SignIn(n, user, fd, token, listing));
      && s'.nodes == s.nodes[n := s.nodes[n].(online := s.nodes[n].online[user := fd])]
      && (listing == [] ==> s'.enqueued == s.enqueued && s'.marking == s.marking)
      && Apply(s, Disconnect(n, user)) ==
         s.(nodes := s.nodes[n := s.nodes[n].(online := s.nodes[n].online - {user})])
  {
  }

  /** The asynchronous queue works off its updates one after the other. */
  function WorkOff(s: State, n: NodeId): State
    requires n in s.nodes
    decreases |if n in s.nodes then s.nodes[n].updates else []|
  {
    if s.nodes[n].updates == [] then s else WorkOff(Apply(s, ApplyUpdate(n, true)), n)
  }

  /** Once it has, exactly the rows queued are flagged besides those that were. */
  lemma {:induction false} UpdatesAreApplied(s: State, n: NodeId)
    requires n in s.nodes
    ensures
      var t := WorkOff(s, n);
      && t.nodes == s.nodes[n := s.nodes[n].(updates := [])] && t.rows.Keys == s.rows.Keys
      && (forall id <- s.rows ::
            t.rows[id] == s.rows[id].(delivered := s.rows[id].delivered || id as int in s.nodes[n].updates))
      && t == s.(nodes := t.nodes, rows := t.rows)
    decreases |s.nodes[n].updates|
  {
    var queue := s.nodes[n].updates;
    if queue != [] {
      var s1 := Apply(s, ApplyUpdate(n, true));
      OneUpdate(s, n);
      UpdatesAreApplied(s1, n);
      assert queue == [queue[0]] + queue[1..];
    }
  }

  /** One update: its row alone is flagged, and it leaves the queue; a failed one only leaves. */
  lemma OneUpdate(s: State, n: NodeId)
    requires Enabled(s, ApplyUpdate(n, true))
    ensures
      var queue := s.nodes[n].updates;
      var s', failed := Apply(s, ApplyUpdate(n, true)), Apply(s, ApplyUpdate(n, false));
      && failed == s.(nodes := s.nodes[n := s.nodes[n].(updates := queue[1..])])
      && s' == failed.(rows := s'.rows) && s'.rows.Keys == s.rows.Keys
      && forall id <- s.rows ::
           s'.rows[id] == s.rows[id].(delivered := s.rows[id].delivered || id as int == queue[0])
  {
  }

  /** Which rows a sign-in's list shows: those whose line ends inside the buffer. */
  lemma ListShows(listing: seq<Listed>, i: nat)
    requires i < |listing|
    requires forall j, k :: 0 <= j < k < |listing| ==> listing[j].id != listing[k].id
    ensures Shows(ReplyText(listing), listing, listing[i].id, listing[i].chat) <==> Inside(listing, i)
  {
    InsideReads(listing, i);
    hide ReplyText, Reads;
  }

  /** A receiver who was away: the unread rows whose lines end inside the reply are queued for
      him, all of them if and only if the list without the blank at its end fits the buffer. */
  lemma ReplayDelivery(s: State, n: NodeId, user: User, fd: int, token: nat, listing: seq<Listed>)
    requires Enabled(s, SignIn(n, user, fd, token, listing)) && listing != []
    ensures
      var s' := Apply(s, SignIn(n, user, fd, token, listing));
      var e := Enqueued(n, fd, UnreadList(listing), s.nodes[n].online[user := fd]);
      && s'.rows == s.rows && s'.enqueued == s.enqueued + {e}
      && (forall i: nat :: i < |listing| ==> (CarriesRow(e, listing[i].id, s.rows) <==> Inside(listing, i)))
      && ((forall id <- UnreadRows(s.rows, user) :: CarriesRow(e, id, s.rows)) <==>
            |UNREAD_HEADER + Body(listing)| - 1 <= TEXT_LIMIT)
      && (forall i: nat :: i < |listing| && Inside(listing, i) ==>
            listing[i].id in s.rows && Reads(e.out.text, listing, i, s.rows[listing[i].id].chat))
  {
    hide Body, Inside, CarriesRow, Reads, ReplyText;
    TextsStandInTheReply(s.rows, user, listing);
    var e := Enqueued(n, fd, UnreadList(listing), s.nodes[n].online[user := fd]);
    ListIsExact(s.rows, user, listing, e);
    AllInside(listing);
  }

  lemma TextsStandInTheReply(rows: map<nat, Row>, user: User, listing: seq<Listed>)
    requires Lists(listing, rows, user)
    ensures forall i: nat :: i < |listing| && Inside(listing, i) ==>
              listing[i].id in rows && Reads(ReplyText(listing), listing, i, rows[listing[i].id].chat)
  {
    hide Reads, ReplyText, Inside;
    forall i: nat | i < |listing| && Inside(listing, i)
      ensures listing[i].id in rows && Reads(ReplyText(listing), listing, i, rows[listing[i].id].chat)
    {
      assert listing[i] in listing;
      InsideReads(listing, i);
    }
  }

  /** If nothing comes in between, exactly the rows that were unread are flagged then, those
      cut off included. */
  lemma ReplayFlags(s: State, n: NodeId, user: User, fd: int, token: nat, listing: seq<Listed>)
    requires Enabled(s, SignIn(n, user, fd, token, listing)) && listing != []
    ensures
      var s1 := Apply(s, SignIn(n, user, fd, token, listing));
      && Enabled(s1, MarkDelivered(token, true))
      && var s2 := Apply(s1, MarkDelivered(token, true));
         && UnreadRows(s2.rows, user) == {} && s2.missed == s.missed
         && forall id <- s.rows ::
              id in s2.rows && (s2.rows[id].delivered <==> s.rows[id].delivered || id in UnreadRows(s.rows, user))
    ensures
      var s1 := Apply(s, SignIn(n, user, fd, token, listing));
      Apply(s1, MarkDelivered(token, false)) == s1.(marking := s.marking - {token})
  {
    var s1 := Apply(s, SignIn(n, user, fd, token, listing));
    assert s1.marking[token] == Marking(user, Ids(listing));
    MarkingFlagsTheUnread(s1, token);
  }

  /** An UPDATE right behind its SELECT. */
  lemma MarkingFlagsTheUnread(s: State, token: nat)
    requires token in s.marking && s.marking[token].seen == UnreadRows(s.rows, s.marking[token].user)
    ensures
      var unread := UnreadRows(s.rows, s.marking[token].user);
      var s' := DoMarkDelivered(s, token, true);
      && UnreadRows(s'.rows, s.marking[token].user) == {} && s'.missed == s.missed
      && forall id <- s.rows :: id in s'.rows && (s'.rows[id].delivered <==> s.rows[id].delivered || id in unread)
  {
  }

  ghost predicate CarriesRow(e: Enqueued, id: nat, rows: map<nat, Row>) {
    id in rows && Carries(e, id, rows[id])
  }

  lemma ListIsExact(rows: map<nat, Row>, user: User, listing: seq<Listed>, e: Enqueued)
    requires Lists(listing, rows, user) && listing != []
    requires e.out == UnreadList(listing) && user in e.online && e.online[user] == e.fd
    ensures forall i: nat :: i < |listing| ==> (CarriesRow(e, listing[i].id, rows) <==> Inside(listing, i))
    ensures (forall id <- UnreadRows(rows, user) :: CarriesRow(e, id, rows)) <==>
              forall i: nat :: i < |listing| ==> Inside(listing, i)
  {
    hide Inside;
    forall i: nat | i < |listing|
      ensures listing[i].id in UnreadRows(rows, user)
      ensures CarriesRow(e, listing[i].id, rows) <==> Inside(listing, i)
    {
      assert listing[i].id in Ids(listing);
      ListShows(listing, i);
    }
    if forall i: nat :: i < |listing| ==> Inside(listing, i) {
      forall id <- UnreadRows(rows, user) ensures CarriesRow(e, id, rows) {
        assert id in Ids(listing);
        var i: nat :| i < |listing| && listing[i].id == id;
        assert CarriesRow(e, listing[i].id, rows);
      }
    }
  }

  // ---------- the exceptions are real ----------

  const IDLE_NODE := Node(map[], multiset{}, [])

  /** Two servers; nobody is connected. */
  function Start2(): State {
    State(map[], 1, map[0 := IDLE_NODE, 1 := IDLE_NODE], map[], {}, {}, {})
  }

  lemma StartIsReachable()
    ensures Reachable(Start2())
  {
    assert Init(Start2()) && Run(Start2(), [], Start2());
  }

  lemma {:induction false} RunExtends(s: State, steps: seq<Step>, t: State, a: Step)
    requires Run(s, steps, t) && Enabled(t, a)
    ensures Run(s, steps + [a], Apply(t, a))
    decreases |steps|
  {
    hide Enabled, Apply;
    if steps == [] {
      assert ([] + [a])[1..] == [];
      assert Run(Apply(t, a), [], Apply(t, a));
    } else {
      RunExtends(Apply(s, steps[0]), steps[1..], t, a);
      assert (steps + [a])[1..] == steps[1..] + [a];
    }
  }

  lemma Reach(s: State, a: Step)
    requires Reachable(s) && Enabled(s, a)
    ensures Reachable(Apply(s, a))
  {
    hide Init, Enabled, Apply;
    var s0, steps :| Init(s0) && Run(s0, steps, s);
    RunExtends(s0, steps, s, a);
  }

  lemma Pow10Grows(k: nat)
    requires k >= 1
    ensures 10 <= Pow10(k)
  {
  }

  lemma SmallRowNumbers()
    ensures 10 <= Pow10(19)
  {
    Pow10Grows(19);
  }

  /** Nothing is published when no server listens. */
  lemma PublishToNobody(nodes: map<NodeId, Node>, channel: User, text: string)
    ensures Publish(nodes, {}, channel, text) == nodes
  {
  }

  /** One chat for user 7, who is nowhere. */
  function OneRow(chat: Chat): State {
    Start2().(rows := map[1 := Row(7, chat, false)], nextRow := 2)
  }

  lemma OneRowIsReachable(chat: Chat)
    ensures Reachable(OneRow(chat))
  {
    StartIsReachable();
    SmallRowNumbers();
    PublishToNobody(Start2().nodes, 7, ChatPublished(chat, 1));
    assert Apply(Start2(), SendChat(0, chat, 7, {})) == OneRow(chat);
    Reach(Start2(), SendChat(0, chat, 7, {}));
  }

  function OneLine(chat: Chat, time: string): seq<Listed> {
    [Listed(1, chat, time)]
  }

  /** He has signed in on server 1 and his unread row has been selected. */
  function Selected(chat: Chat, fd: int, time: string): State {
    OneRow(chat).(nodes := map[0 := IDLE_NODE, 1 := Node(map[7 := fd], multiset{}, [])],
                  marking := map[0 := Marking(7, {1})],
                  enqueued := {Enqueued(1, fd, UnreadList(OneLine(chat, time)), map[7 := fd])})
  }

  lemma SelectedIsReachable(chat: Chat, fd: int, time: string)
    ensures Reachable(Selected(chat, fd, time))
  {
    var s, listing := OneRow(chat), OneLine(chat, time);
    OneRowIsReachable(chat);
    assert UnreadRows(s.rows, 7) == {1};
    assert listing[0].id in Ids(listing);
    assert Lists(listing, s.rows, 7);
    assert Apply(s, SignIn(1, 7, fd, 0, listing)) == Selected(chat, fd, time);
    Reach(s, SignIn(1, 7, fd, 0, listing));
  }

  /** Then a second chat has been stored. */
  function GapBefore(first: Chat, second: Chat): State {
    Selected(first, 5, "").(rows := map[1 := Row(7, first, false), 2 := Row(7, second, false)], nextRow := 3)
  }

  lemma GapIsReachable(first: Chat, second: Chat)
    ensures Reachable(GapBefore(first, second))
  {
    hide ChatPublished, Reachable;
    var s := Selected(first, 5, "");
    SelectedIsReachable(first, 5, "");
    SmallRowNumbers();
    PublishToNobody(s.nodes, 7, ChatPublished(second, 2));
    assert Apply(s, SendChat(0, second, 7, {})) == GapBefore(first, second);
    Reach(s, SendChat(0, second, 7, {}));
  }

  /** The gap is real: a row that arrives while the receiver's sign-in is between SELECT and
      UPDATE, and whose publication finds no subscriber, is flagged and never sent. */
  lemma GapLosesAMessage(first: Chat, second: Chat)
    ensures exists t :: Reachable(t) && 2 in t.rows && t.rows[2] == Row(7, second, true)
                        && !Sent(t, 2) && !WasCut(t, 2) && !WasClipped(t, 2) && 2 in t.missed
  {
    hide Reachable, Inside, ChatWhole;
    var s := GapBefore(first, second);
    GapIsReachable(first, second);
    var t := Apply(s, MarkDelivered(0, true));
    Reach(s, MarkDelivered(0, true));
    assert 2 in UnreadRows(s.rows, 7) - {1};
    assert t.enqueued == {Enqueued(1, 5, UnreadList(OneLine(first, "")), map[7 := 5])};
  }

  /** The cut is real, for texts that fit every other buffer: two unread chats whose texts
      are together longer than the reply. The second is listed, cut off, and flagged. */
  lemma CutListLosesAMessage(first: string, second: string)
    requires |first| + |second| >= TEXT_LIMIT
    requires ChatFits(Single("a", first), 1) && ChatFits(Single("a", second), 2)
    ensures exists t :: Reachable(t) && 2 in t.rows && t.rows[2] == Row(7, Single("a", second), true)
                        && !Sent(t, 2) && 2 !in t.missed && 2 !in t.invited && !WasClipped(t, 2) && WasCut(t, 2)
  {
    hide Reachable, Inside, ChatWhole, ChatFits, ChatLocal, ChatPublished, ForwardedText;
    var c1, c2 := Single("a", first), Single("a", second);
    var s := TwoListed(c1, c2);
    TwoListedIsReachable(c1, c2);
    SecondIsCut(c1, c2);
    var t := Apply(s, MarkDelivered(0, true));
    Reach(s, MarkDelivered(0, true));
    var listing := TwoLines(c1, c2);
    var e := Enqueued(1, 5, UnreadList(listing), map[7 := 5]);
    assert t.enqueued == {e};
    ListShows(listing, 1);
    assert !Carries(e, 2, t.rows[2]);
    assert CutOff(listing, listing[1].id);
  }

  function TwoLines(first: Chat, second: Chat): seq<Listed> {
    [Listed(1, first, ""), Listed(2, second, "")]
  }

  function TwoListed(first: Chat, second: Chat): State {
    TwoRows(first, second).(nodes := map[0 := IDLE_NODE, 1 := Node(map[7 := 5], multiset{}, [])],
                            marking := map[0 := Marking(7, {1, 2})],
                            enqueued := {Enqueued(1, 5, UnreadList(TwoLines(first, second)), map[7 := 5])})
  }

  lemma TwoListedIsReachable(first: Chat, second: Chat)
    ensures Reachable(TwoListed(first, second))
  {
    hide Reachable;
    var s, listing := TwoRows(first, second), TwoLines(first, second);
    TwoRowsAreReachable(first, second);
    assert UnreadRows(s.rows, 7) == {1, 2};
    assert listing[0].id in Ids(listing) && listing[1].id in Ids(listing);
    assert Ids(listing) == {1, 2};
    assert Lists(listing, s.rows, 7);
    assert Apply(s, SignIn(1, 7, 5, 0, listing)) == TwoListed(first, second);
    Reach(s, SignIn(1, 7, 5, 0, listing));
  }

  function TwoRows(first: Chat, second: Chat): State {
    Start2().(rows := map[1 := Row(7, first, false), 2 := Row(7, second, false)], nextRow := 3)
  }

  lemma TwoRowsAreReachable(first: Chat, second: Chat)
    ensures Reachable(TwoRows(first, second))
  {
    var s := OneRow(first);
    OneRowIsReachable(first);
    SmallRowNumbers();
    PublishToNobody(s.nodes, 7, ChatPublished(second, 2));
    assert Apply(s, SendChat(0, second, 7, {})) == TwoRows(first, second);
    Reach(s, SendChat(0, second, 7, {}));
  }

  lemma SecondIsCut(first: Chat, second: Chat)
    requires |first.text| + |second.text| >= TEXT_LIMIT
    ensures !Inside(TwoLines(first, second), 1)
  {
    var listing := TwoLines(first, second);
    RowsNext(listing, 0);
    assert |Rows(listing[..1])| >= |first.text|;
    assert |Line(listing[1])| >= |second.text|;
  }

  /** User 7 is away with an unread chat; user 8 signs in on server 1. */
  function Other(chat: Chat): State {
    OneRow(chat).(nodes := map[0 := IDLE_NODE, 1 := Node(map[8 := 5], multiset{}, [])])
  }

  lemma OtherIsReachable(chat: Chat)
    ensures Reachable(Other(chat))
  {
    var s := OneRow(chat);
    OneRowIsReachable(chat);
    assert Apply(s, SignIn(1, 8, 5, 0, [])) == Other(chat);
    Reach(s, SignIn(1, 8, 5, 0, []));
  }

  /** The invitation is real: a published invitation whose conversation text begins with row
      number 1, forwarded to user 8, has the server flag row 1, an unread chat of somebody else. */
  lemma InvitationFlagsARow(chat: Chat, conversation: string)
    requires Barless(conversation) && Atoll(conversation) == 1 && |conversation| <= 100
    ensures exists t :: Reachable(t) && 1 in t.rows && t.rows[1] == Row(7, chat, true)
                        && !Sent(t, 1) && !WasCut(t, 1) && !WasClipped(t, 1) && 1 !in t.missed && 1 in t.invited
  {
    InvitationNamesRowOne(conversation);
    hide Split, InviteText, Reachable, Atoll, ForwardedText, Sent, WasCut, WasClipped, Invited;
    InvitedIsReachable(chat, conversation);
    var text := InviteText(conversation, "g", "f");
    InvitedHas(chat, text);
    var s, e := Invited(chat, text), Enqueued(1, 5, Text(ForwardedText(text).value), map[8 := 5]);
    var t := ForwardAndApply(s, 8, text, e);
    assert t.enqueued == {e};
    NothingForSeven(t, e);
  }

  lemma InvitedHas(chat: Chat, text: string)
    ensures
      var s := Invited(chat, text);
      && 1 in s.nodes && s.nodes[1] == Node(map[8 := 5], multiset{(8, text)}, [])
      && s.rows == map[1 := Row(7, chat, false)] && s.enqueued == {} && s.missed == {} && s.invited == {1}
  {
  }

  lemma NothingForSeven(t: State, e: Enqueued)
    requires t.enqueued == {e} && 7 !in e.online && e.out.Text? && 1 in t.rows && t.rows[1].receiver == 7
    ensures !Sent(t, 1) && !WasCut(t, 1) && !WasClipped(t, 1)
  {
  }

  /** The invitation is on its way to server 1. */
  function Invited(chat: Chat, text: string): State {
    Other(chat).(nodes := map[0 := IDLE_NODE, 1 := Node(map[8 := 5], multiset{(8, text)}, [])], invited := {1})
  }

  lemma InvitedIsReachable(chat: Chat, conversation: string)
    requires Barless(conversation) && Atoll(conversation) == 1
    ensures Reachable(Invited(chat, InviteText(conversation, "g", "f")))
  {
    NothingIsZero();
    hide InviteText, Reachable, Atoll, Barless;
    OtherIsReachable(chat);
    var s, text := Other(chat), InviteText(conversation, "g", "f");
    var step := Invite(0, conversation, "g", "f", 8, {1});
    assert multiset{} + multiset{(8, text)} == multiset{(8, text)};
    assert Publish(s.nodes, {1}, 8, text) == Invited(chat, text).nodes;
    assert Enabled(s, step) && Apply(s, step) == Invited(chat, text);
    Reach(s, step);
  }

  lemma NothingIsZero()
    ensures Atoll("") == 0
  {
  }

  lemma InvitationNamesRowOne(conversation: string)
    requires Barless(conversation) && Atoll(conversation) == 1 && |conversation| <= 100
    ensures
      var text := InviteText(conversation, "g", "f");
      Split(text).Some? && Split(text).value.msgid == 1 && ForwardedText(text).Some?
  {
    NothingIsZero();
    InviteIsMisread(conversation, "g", "f");
  }

  /** The text need not be a plain number: the database computes 7 from this one. */
  lemma InvitationByArithmetic()
    ensures Barless("1-1+7") && Atoll("1-1+7") == 1
  {
    assert "1-1+7"[1..] == "-1+7";
    assert ReadDigits("-1+7", 1) == 1;
  }

  /** Server 1 forwards a text and applies the update it then has. */
  lemma ForwardAndApply(s: State, channel: User, text: string, e: Enqueued) returns (t: State)
    requires Reachable(s) && 1 in s.nodes && (channel, text) in s.nodes[1].inbox && channel in s.nodes[1].online
    requires Split(text).Some? && Split(text).value.msgid in s.rows && s.nodes[1].updates == []
    requires e == Enqueued(1, s.nodes[1].online[channel], Text(ForwardedText(text).value), s.nodes[1].online)
    ensures
      var id := Split(text).value.msgid;
      && Reachable(t) && t.rows == s.rows[id := s.rows[id].(delivered := true)]
      && t.enqueued == s.enqueued + {e} && t.missed == s.missed && t.invited == s.invited
  {
    var s1 := Apply(s, HandleSub(1, channel, text, true));
    Reach(s, HandleSub(1, channel, text, true));
    t := Apply(s1, ApplyUpdate(1, true));
    Reach(s1, ApplyUpdate(1, true));
    assert t.rows == s.rows[Split(text).value.msgid := s.rows[Split(text).value.msgid].(delivered := true)];
  }

  /** User 7 is connected to server 1; nothing is stored. */
  function Connected(): State {
    Start2().(nodes := map[0 := IDLE_NODE, 1 := Node(map[7 := 5], multiset{}, [])])
  }

  lemma ConnectedIsReachable()
    ensures Reachable(Connected())
  {
    StartIsReachable();
    assert Apply(Start2(), SignIn(1, 7, 5, 0, [])) == Connected();
    Reach(Start2(), SignIn(1, 7, 5, 0, []));
  }

  /** A chat for user 7 is on its way to server 1. */
  function PublishedTo(chat: Chat): State {
    Connected().(rows := map[1 := Row(7, chat, false)], nextRow := 2,
                 nodes := map[0 := IDLE_NODE, 1 := Node(map[7 := 5], multiset{(7, ChatPublished(chat, 1))}, [])])
  }

  lemma PublishedIsReachable(chat: Chat)
    ensures Reachable(PublishedTo(chat))
  {
    hide ChatPublished, Reachable;
    var s := Connected();
    ConnectedIsReachable();
    SmallRowNumbers();
    var inbox := multiset{(7, ChatPublished(chat, 1))};
    assert multiset{} + inbox == inbox;
    assert Publish(s.nodes, {1}, 7, ChatPublished(chat, 1)) == PublishedTo(chat).nodes;
    assert Apply(s, SendChat(0, chat, 7, {1})) == PublishedTo(chat);
    Reach(s, SendChat(0, chat, 7, {1}));
  }

  /** The clipped text is real: whenever the published text of a chat does not fit, the other
      server forwards it short and flags the row. */
  lemma ClippedTextIsFlagged(chat: Chat)
    requires !ChatFits(chat, 1)
    ensures exists t :: Reachable(t) && 1 in t.rows && t.rows[1] == Row(7, chat, true)
                        && !Sent(t, 1) && !WasCut(t, 1) && 1 !in t.missed && 1 !in t.invited && WasClipped(t, 1)
  {
    hide ChatPublished, ChatFits, ChatWhole, ChatLocal, Split, Reachable;
    var text := ChatPublished(chat, 1);
    PublishedIsReachable(chat);
    SmallRowNumbers();
    ChatNamesItsRow(chat, 1);
    ForwardedWhole(chat, 1);
    var s1 := PublishedTo(chat);
    var e := Enqueued(1, 5, Text(ForwardedText(text).value), map[7 := 5]);
    var t := ForwardAndApply(s1, 7, text, e);
    assert !Carries(e, 1, Row(7, chat, true)) && CarriesClipped(e, 1, Row(7, chat, true));
  }
}
