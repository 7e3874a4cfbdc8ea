/** The text of the unread messages a user gets when he signs in: one line per row, in the
    format the database layer gives to a result set, cut to the reply buffer. */
module Replay {
  import opened Routing

  /** A selected row; `time` is the printed send time. */
  datatype Listed = Listed(id: nat, chat: Chat, time: string)

  function GroupType(c: Chat): string {
    match c
    case Single(_, _) => "single"
    case Multi(_, _) => "multi"
    case Broadcast(_, _) => "broadcast"
    case Group(_, _, _) => "multi"
  }

  function ConversationOf(c: Chat): int {
    if c.Group? then c.conversation else 0
  }

  /** Sender, time, kind, conversation and text, with a blank between them. */
  function Line(l: Listed): string {
    l.chat.from + " " + l.time + " " + GroupType(l.chat) + " " + Decimal(ConversationOf(l.chat)) + " " + l.chat.text
  }

  /** `select_many_SQL` puts a blank behind every column and a line feed behind every row. */
  function Rows(listing: seq<Listed>): string {
    if listing == [] then ""
    else Rows(listing[..|listing| - 1]) + Line(listing[|listing| - 1]) + " \n"
  }

  /** It takes the last line feed away again. */
  function Body(listing: seq<Listed>): string {
    var rows := Rows(listing);
    if rows == "" then "" else rows[..|rows| - 1]
  }

  const UNREAD_HEADER := "chat_unread|1|"

  function ReplyText(listing: seq<Listed>): string {
    Clip(UNREAD_HEADER + Body(listing))
  }

  /** Where line `i` begins and ends in the unclipped reply. */
  function Start(listing: seq<Listed>, i: nat): nat
    requires i < |listing|
  {
    |UNREAD_HEADER| + |Rows(listing[..i])|
  }

  function End(listing: seq<Listed>, i: nat): nat
    requires i < |listing|
  {
    Start(listing, i) + |Line(listing[i])|
  }

  /** Line `i` is whole in the reply. */
  predicate Inside(listing: seq<Listed>, i: nat)
    requires i < |listing|
  {
    End(listing, i) <= TEXT_LIMIT
  }

  lemma RowsNext(listing: seq<Listed>, i: nat)
    requires i < |listing|
    ensures Rows(listing[..i + 1]) == Rows(listing[..i]) + Line(listing[i]) + " \n"
  {
    assert listing[..i + 1][..i] == listing[..i];
  }

  lemma {:induction false} RowsPrefix(listing: seq<Listed>, i: nat)
    requires i <= |listing|
    ensures Rows(listing[..i]) <= Rows(listing)
    decreases |listing|
  {
    hide Rows, Line;
    if i == |listing| {
      assert listing[..i] == listing;
    } else {
      var last := |listing| - 1;
      var front := listing[..last];
      RowsNext(listing, last);
      assert listing[..last + 1] == listing;
      RowsPrefix(front, i);
      assert front[..i] == listing[..i];
      PrefixExtends(Rows(listing[..i]), Rows(front), Line(listing[last]));
    }
  }

  lemma PrefixExtends(a: string, b: string, line: string)
    requires a <= b
    ensures a <= b + line + " \n"
  {
  }

  /** Line `i` lies in the unclipped reply, in front of a blank. */
  lemma LineInBody(listing: seq<Listed>, i: nat)
    requires i < |listing|
    ensures
      var whole := UNREAD_HEADER + Body(listing);
      End(listing, i) < |whole| && whole[Start(listing, i)..End(listing, i)] == Line(listing[i])
  {
    hide Rows, Line;
    RowsPrefix(listing, i + 1);
    RowsNext(listing, i);
    var rows, before := Rows(listing), Rows(listing[..i]);
    var here := before + Line(listing[i]) + " \n";
    assert rows[..|here|] == here;
    assert here[|before|..|before| + |Line(listing[i])|] == Line(listing[i]);
    assert rows[|before|..|before| + |Line(listing[i])|] == Line(listing[i]);
  }

  /** What it means to be inside: the bytes of the line are in the reply at its place. */
  lemma InsideIsReadable(listing: seq<Listed>, i: nat)
    requires i < |listing|
    ensures Inside(listing, i) <==>
              End(listing, i) <= |ReplyText(listing)|
              && ReplyText(listing)[Start(listing, i)..End(listing, i)] == Line(listing[i])
  {
    hide Body, Line, Rows;
    LineInBody(listing, i);
    if Inside(listing, i) {
      PrefixSlice(ReplyText(listing), UNREAD_HEADER + Body(listing), Start(listing, i), End(listing, i));
    }
  }

  /** The bytes of a line, kind by kind. */
  function PrintedKind(c: Chat): string {
    match c
    case Single(_, _) => " single 0 "
    case Multi(_, _) => " multi 0 "
    case Broadcast(_, _) => " broadcast 0 "
    case Group(conversation, _, _) => " multi " + Decimal(conversation) + " "
  }

  lemma LineIs(l: Listed)
    ensures Line(l) == l.chat.from + " " + l.time + PrintedKind(l.chat) + l.chat.text
  {
    var kind, number := GroupType(l.chat), Decimal(ConversationOf(l.chat));
    assert Decimal(0) == "0";
    assert PrintedKind(l.chat) == " " + kind + " " + number + " ";
    hide Decimal, GroupType, ConversationOf, PrintedKind;
    var start := l.chat.from + " " + l.time;
    assert start + (" " + kind + " " + number + " ") == start + " " + kind + " " + number + " ";
  }

  /** What the user reads: every line that ends inside the reply stands there with its sender,
      its time, its kind and conversation, and its text. */
  lemma ReplyShowsTheChat(listing: seq<Listed>, i: nat)
    requires i < |listing| && Inside(listing, i)
    ensures
      var r, c := ReplyText(listing), listing[i].chat;
      && Start(listing, i) + |c.from + " " + listing[i].time + PrintedKind(c)| + |c.text| == End(listing, i) <= |r|
      && r[Start(listing, i)..End(listing, i) - |c.text|] == c.from + " " + listing[i].time + PrintedKind(c)
      && r[Start(listing, i)..Start(listing, i) + |c.from| + 1] == c.from + " "
      && r[End(listing, i) - |c.text|..End(listing, i)] == c.text
  {
    InsideIsReadable(listing, i);
    LineIs(listing[i]);
    var c := listing[i].chat;
    var front := c.from + " " + listing[i].time + PrintedKind(c);
    hide Line, PrintedKind, ReplyText;
    var r, from, to := ReplyText(listing), Start(listing, i), End(listing, i);
    assert r[from..to] == front + c.text;
    SliceOfSum(r, from, to, front, c.text);
    FrontReads(r, from, to - |c.text|, c.from, listing[i].time, PrintedKind(c));
  }

  lemma FrontReads(r: string, from: nat, to: nat, name: string, time: string, kind: string)
    requires from <= to <= |r| && r[from..to] == name + " " + time + kind
    ensures from + |name| + 1 <= to && r[from..from + |name| + 1] == name + " "
  {
    assert |r[from..to]| == |name| + 1 + |time| + |kind|;
    assert name + " " + time + kind == name + " " + (time + kind);
    assert r[from..from + |name| + 1] == r[from..to][..|name| + 1];
  }

  lemma SliceOfSum(r: string, from: nat, to: nat, a: string, b: string)
    requires from <= to <= |r| && r[from..to] == a + b
    ensures from + |a| + |b| == to && r[from..to - |b|] == a && r[to - |b|..to] == b
  {
    assert |r[from..to]| == |a| + |b|;
    assert r[from..to - |b|] == r[from..to][..|a|];
    assert r[to - |b|..to] == r[from..to][|a|..];
  }

  /** The whole reply, row by row: a blank ends it, a blank and a line feed part the rows. */
  lemma BodyGrows(listing: seq<Listed>, l: Listed)
    ensures
      var line := l.chat.from + " " + l.time + PrintedKind(l.chat) + l.chat.text;
      Body(listing + [l]) == (if listing == [] then "" else Body(listing) + "\n") + line + " "
    ensures |"chat_unread|1|" + Body(listing)| <= 65534 ==> ReplyText(listing) == "chat_unread|1|" + Body(listing)
  {
    LineIs(l);
    RowsGrow(listing, l);
    RowsEnd(listing);
    hide Line, PrintedKind, Rows;
  }

  lemma RowsGrow(listing: seq<Listed>, l: Listed)
    ensures Rows(listing + [l]) == Rows(listing) + Line(l) + " \n"
  {
    assert (listing + [l])[..|listing|] == listing;
  }

  lemma RowsEnd(listing: seq<Listed>)
    ensures if listing == [] then Rows(listing) == "" else Rows(listing) == Body(listing) + "\n"
  {
    if listing == [] {
      NoRows();
    } else {
      hide Line, Rows;
      var last := |listing| - 1;
      RowsNext(listing, last);
      assert listing[..last + 1] == listing;
      LastOff(Rows(listing[..last]) + Line(listing[last]));
    }
  }

  lemma NoRows()
    ensures Rows([]) == ""
  {
  }

  lemma LastOff(rows: string)
    ensures var all := rows + " \n"; all != "" && all == all[..|all| - 1] + "\n"
  {
  }

  lemma PrefixSlice(a: string, b: string, from: nat, to: nat)
    requires a <= b && from <= to <= |a|
    ensures a[from..to] == b[from..to]
  {
  }

  /** A later line ends later. */
  lemma {:induction false} EndsGrow(listing: seq<Listed>, i: nat, j: nat)
    requires i <= j < |listing|
    ensures End(listing, i) <= End(listing, j)
  {
    hide Rows, Line;
    if i < j {
      RowsPrefix(listing[..j], i + 1);
      assert listing[..j][..i + 1] == listing[..i + 1];
      RowsNext(listing, i);
    }
  }

  /** The exact condition, on the length `snprintf` returns: every line is whole when the
      unclipped reply, without the blank at its end, fits the buffer. */
  lemma AllInside(listing: seq<Listed>)
    requires listing != []
    ensures (forall i: nat :: i < |listing| ==> Inside(listing, i))
       <==> |UNREAD_HEADER + Body(listing)| - 1 <= TEXT_LIMIT
  {
    var last := |listing| - 1;
    RowsNext(listing, last);
    assert listing[..last + 1] == listing;
    hide Rows, Line;
    assert End(listing, last) == |UNREAD_HEADER + Body(listing)| - 1;
    forall i: nat | i < |listing| ensures End(listing, i) <= End(listing, last) {
      EndsGrow(listing, i, last);
    }
    assert Inside(listing, last) <==> End(listing, last) <= TEXT_LIMIT;
  }
}
