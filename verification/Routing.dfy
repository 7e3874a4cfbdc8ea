/** Messages that reach a user either directly, from the server he is connected to, or
    through Redis, from another one. The publishing server adds the row number as a third
    field, the receiving server cuts it out again. Strings are byte strings without NUL;
    one `char` stands for one byte. */
module Routing {
  import opened Wrappers

  /** `snprintf(buf, BUF_SIZE - 1, ...)` keeps this many bytes. */
  const TEXT_LIMIT: nat := 65534

  function Clip(s: string): (r: string)
    ensures |r| <= TEXT_LIMIT && r <= s
  {
    if |s| <= TEXT_LIMIT then s else s[..TEXT_LIMIT]
  }

  lemma ClipMeans(s: string)
    ensures |s| <= 65534 ==> Clip(s) == s
    ensures |s| > 65534 ==> |Clip(s)| == 65534 && Clip(s) < s
  {
  }

  // ---------- decimal numbers ----------

  function Digit(d: nat): char
    requires d < 10
  {
    '0' + d as char
  }

  predicate IsDigit(c: char) {
    '0' <= c <= '9'
  }

  function Digits(n: nat): (s: string)
    ensures |s| >= 1 && forall c <- s :: IsDigit(c)
  {
    if n < 10 then [Digit(n)] else Digits(n / 10) + [Digit(n % 10)]
  }

  /** `%lld` and `%d`. */
  function Decimal(n: int): (s: string)
    ensures |s| >= 1 && forall c <- s :: IsDigit(c) || c == '-'
  {
    if n < 0 then "-" + Digits(-n) else Digits(n)
  }

  /** Reads digits until something else comes. */
  function ReadDigits(s: string, acc: nat): nat {
    if s == [] || !IsDigit(s[0]) then acc
    else ReadDigits(s[1..], 10 * acc + (s[0] as int - '0' as int))
  }

  predicate IsSpace(c: char) {
    c == ' ' || '\t' <= c <= '\r'
  }

  /** `atoll` on numbers in range. */
  function Atoll(s: string): int {
    if s != [] && IsSpace(s[0]) then Atoll(s[1..])
    else if s != [] && s[0] == '-' then 0 - (ReadDigits(s[1..], 0) as int)
    else if s != [] && s[0] == '+' then ReadDigits(s[1..], 0)
    else ReadDigits(s, 0)
  }

  lemma {:induction false} ReadDigitsAppend(a: string, c: char, acc: nat)
    requires IsDigit(c) && forall d <- a :: IsDigit(d)
    ensures ReadDigits(a + [c], acc) == 10 * ReadDigits(a, acc) + (c as int - '0' as int)
    decreases |a|
  {
    if a == [] {
      assert (a + [c])[1..] == [];
      assert ReadDigits([], 10 * acc + (c as int - '0' as int)) == 10 * acc + (c as int - '0' as int);
    } else {
      assert (a + [c])[1..] == a[1..] + [c];
      assert IsDigit(a[0]);
      ReadDigitsAppend(a[1..], c, 10 * acc + (a[0] as int - '0' as int));
    }
  }

  lemma {:induction false} DigitsRead(n: nat)
    ensures ReadDigits(Digits(n), 0) == n
  {
    if n < 10 {
      assert Digits(n)[1..] == [];
      assert ReadDigits([], n) == n;
    } else {
      DigitsRead(n / 10);
      ReadDigitsAppend(Digits(n / 10), Digit(n % 10), 0);
    }
  }

  /** The row number survives printing and parsing. */
  lemma {:induction false} DecimalRoundTrip(n: int)
    ensures Atoll(Decimal(n)) == n
  {
    if n < 0 {
      DigitsRead(-n);
      assert Decimal(n)[1..] == Digits(-n);
    } else {
      DigitsRead(n);
      assert IsDigit(Digits(n)[0]);
    }
  }

  /** No leading zeros: a number is printed in one way only. */
  lemma {:induction false} DigitsAreCanonical(n: nat)
    ensures Digits(n)[0] == '0' ==> n == 0 && Digits(n) == "0"
    ensures Decimal(0 - (n as int)) == if n == 0 then "0" else "-" + Digits(n)
  {
    if n >= 10 {
      DigitsAreCanonical(n / 10);
    }
  }

  lemma AtollReads()
    ensures Atoll("") == 0 && Atoll(" +5") == 5 && Atoll("-12x") == -12 && Atoll("7|8") == 7
  {
    assert " +5"[1..] == "+5" && "+5"[1..] == "5" && "5"[1..] == "";
    assert "-12x"[1..] == "12x" && "12x"[1..] == "2x" && "2x"[1..] == "x";
    assert ReadDigits("x", 12) == 12;
    assert ReadDigits("2x", 1) == 12;
    assert "7|8"[1..] == "|8";
    assert ReadDigits("", 5) == 5 && ReadDigits("|8", 7) == 7;
  }

  function Pow10(k: nat): nat {
    if k == 0 then 1 else 10 * Pow10(k - 1)
  }

  lemma {:induction false} DigitsLength(n: nat, k: nat)
    requires k >= 1 && n < Pow10(k)
    ensures |Digits(n)| <= k
  {
    assert Pow10(1) == 10 * Pow10(0);
    if n >= 10 {
      DigitsLength(n / 10, k - 1);
    }
  }

  // ---------- cutting at bars ----------

  /** `find('|', from)`. */
  function Find(s: string, from: nat): (r: Option<nat>)
    requires from <= |s|
    ensures r.Some? ==> from <= r.value < |s| && s[r.value] == '|'
    ensures r.Some? ==> forall i :: from <= i < r.value ==> s[i] != '|'
    ensures r.None? ==> forall i :: from <= i < |s| ==> s[i] != '|'
    decreases |s| - from
  {
    if from == |s| then None
    else if s[from] == '|' then Some(from)
    else Find(s, from + 1)
  }

  datatype Published = Published(cmd: string, code: string, msgid: int, payload: string)

  /** How a server reads a published text: three bars, nothing essential empty. */
  function Split(m: string): Option<Published> {
    var p1 := Find(m, 0);
    if p1.None? then None else
    var p2 := Find(m, p1.value + 1);
    if p2.None? then None else
    var p3 := Find(m, p2.value + 1);
    if p3.None? then None else
    var cmd := m[..p1.value];
    var code := m[p1.value + 1..p2.value];
    var msgid := m[p2.value + 1..p3.value];
    var payload := m[p3.value + 1..];
    if cmd == [] || msgid == [] || payload == [] then None
    else Some(Published(cmd, code, Atoll(msgid), payload))
  }

  ghost predicate Barless(s: string) {
    forall c <- s :: c != '|'
  }

  lemma FindAt(s: string, from: nat, at: nat)
    requires from <= at < |s| && s[at] == '|'
    requires forall i :: from <= i < at ==> s[i] != '|'
    ensures Find(s, from) == Some(at)
  {
  }

  function Header(cmd: string, code: string, id: string): string {
    cmd + "|" + code + "|" + id + "|"
  }

  /** The field between `from` and the bar at `at`. */
  lemma FindField(m: string, from: nat, at: nat)
    requires from <= at < |m| && m[at] == '|' && Barless(m[from..at])
    ensures Find(m, from) == Some(at)
  {
    var field := m[from..at];
    forall i | from <= i < at ensures m[i] != '|' {
      assert m[i] == field[i - from];
      assert field[i - from] in field;
    }
    FindAt(m, from, at);
  }

  lemma FieldOf(prefix: string, field: string, rest: string)
    ensures
      var m := prefix + field + "|" + rest;
      var at := |prefix| + |field|;
      at < |m| && m[at] == '|' && m[|prefix|..at] == field && m[at + 1..] == rest && m[..|prefix|] == prefix
  {
  }

  predicate HasFields(m: string, cmd: string, code: string, id: string, payload: string) {
    var p1, p2 := |cmd|, |cmd| + 1 + |code|;
    var p3 := p2 + 1 + |id|;
    && p3 < |m| && m[p1] == m[p2] == m[p3] == '|'
    && m[..p1] == cmd && m[p1 + 1..p2] == code && m[p2 + 1..p3] == id && m[p3 + 1..] == payload
  }

  lemma HeaderFields(cmd: string, code: string, id: string, payload: string)
    ensures HasFields(Header(cmd, code, id) + payload, cmd, code, id, payload)
  {
    var two := cmd + "|" + code + "|";
    var m := Header(cmd, code, id) + payload;
    FieldOf(two, id, payload);
    assert m == two + id + "|" + payload;
    assert m[..|two|] == two;
    FieldOf(cmd + "|", code, []);
    assert two == cmd + "|" + code + "|" + [];
    assert two[..|cmd| + 1] == cmd + "|";
  }

  lemma FindHeaderBars(m: string, cmd: string, code: string, id: string, payload: string)
    requires HasFields(m, cmd, code, id, payload)
    requires Barless(cmd) && Barless(code) && Barless(id)
    ensures
      var p1, p2 := |cmd|, |cmd| + 1 + |code|;
      Find(m, 0) == Some(p1) && Find(m, p1 + 1) == Some(p2) && Find(m, p2 + 1) == Some(p2 + 1 + |id|)
  {
    var p1, p2 := |cmd|, |cmd| + 1 + |code|;
    FindField(m, 0, p1);
    FindField(m, p1 + 1, p2);
    FindField(m, p2 + 1, p2 + 1 + |id|);
  }

  lemma HeaderBars(cmd: string, code: string, id: string, payload: string)
    requires Barless(cmd) && Barless(code) && Barless(id)
    ensures
      var m := Header(cmd, code, id) + payload;
      var p1, p2 := |cmd|, |cmd| + 1 + |code|;
      var p3 := p2 + 1 + |id|;
      && HasFields(m, cmd, code, id, payload)
      && Find(m, 0) == Some(p1) && Find(m, p1 + 1) == Some(p2) && Find(m, p2 + 1) == Some(p3)
  {
    HeaderFields(cmd, code, id, payload);
    FindHeaderBars(Header(cmd, code, id) + payload, cmd, code, id, payload);
  }

  lemma DecimalBarless(n: int)
    ensures Barless(Decimal(n))
  {
  }

  /** Cutting undoes the formatting, whatever bars the payload contains; the third field may
      be any text without bars. */
  lemma SplitFields(cmd: string, code: string, id: string, payload: string)
    requires cmd != [] && Barless(cmd) && Barless(code) && id != [] && Barless(id)
    ensures Split(Header(cmd, code, id) + payload) ==
            if payload == [] then None else Some(Published(cmd, code, Atoll(id), payload))
  {
    hide Find, Header, Atoll, Barless;
    HeaderBars(cmd, code, id, payload);
  }

  /** And nothing else is taken in: what comes out of the cutting is what was put together. */
  lemma SplitInverse(m: string) returns (id: string)
    requires Split(m).Some?
    ensures
      var p := Split(m).value;
      && m == Header(p.cmd, p.code, id) + p.payload && p.msgid == Atoll(id)
      && p.cmd != [] && id != [] && p.payload != []
  {
    hide Atoll, Find;
    var p1 := Find(m, 0).value;
    var p2 := Find(m, p1 + 1).value;
    var p3 := Find(m, p2 + 1).value;
    id := m[p2 + 1..p3];
    assert m == m[..p1] + "|" + m[p1 + 1..p2] + "|" + m[p2 + 1..p3] + "|" + m[p3 + 1..];
  }

  lemma SplitFormatted(cmd: string, code: string, id: int, payload: string)
    requires cmd != [] && Barless(cmd) && Barless(code)
    ensures Split(Header(cmd, code, Decimal(id)) + payload) ==
            if payload == [] then None else Some(Published(cmd, code, id, payload))
  {
    DecimalBarless(id);
    DecimalRoundTrip(id);
    SplitFields(cmd, code, Decimal(id), payload);
  }

  // ---------- one message, two ways ----------

  function LocalText(cmd: string, code: string, payload: string): string {
    Clip(cmd + "|" + code + "|" + payload)
  }

  function PublishedText(cmd: string, code: string, id: int, payload: string): string {
    Clip(Header(cmd, code, Decimal(id)) + payload)
  }

  /** What the receiving server sends on, if anything. */
  function ForwardedText(published: string): Option<string> {
    match Split(published)
    case None => None
    case Some(p) => Some(Clip(p.cmd + "|" + p.code + "|" + p.payload))
  }

  function Fits(cmd: string, code: string, id: int, payload: string): bool {
    |Header(cmd, code, Decimal(id))| + |payload| <= TEXT_LIMIT
  }

  lemma FittingIsTransparent(cmd: string, code: string, id: int, payload: string)
    requires cmd != [] && Barless(cmd) && Barless(code) && payload != []
    requires Fits(cmd, code, id, payload)
    ensures ForwardedText(PublishedText(cmd, code, id, payload)) == Some(LocalText(cmd, code, payload))
  {
    SplitFormatted(cmd, code, id, payload);
  }

  /** A clipped text loses its end or is dropped. */
  lemma ClippedIsNotTransparent(cmd: string, code: string, id: int, payload: string)
    requires cmd != [] && Barless(cmd) && Barless(code) && payload != []
    requires !Fits(cmd, code, id, payload)
    ensures ForwardedText(PublishedText(cmd, code, id, payload)) != Some(LocalText(cmd, code, payload))
  {
    var header := Header(cmd, code, Decimal(id));
    var text := PublishedText(cmd, code, id, payload);
    DecimalBarless(id);
    if |header| <= TEXT_LIMIT {
      var rest := payload[..TEXT_LIMIT - |header|];
      assert text == header + rest;
      SplitFormatted(cmd, code, id, rest);
    } else {
      CutHeaderHasNoThirdBar(cmd, code, Decimal(id), payload);
    }
  }

  /** With the clip inside the header its last bar is gone. */
  lemma CutHeaderHasNoThirdBar(cmd: string, code: string, id: string, payload: string)
    requires Barless(cmd) && Barless(code) && Barless(id)
    requires |Header(cmd, code, id)| > TEXT_LIMIT
    ensures Split(Clip(Header(cmd, code, id) + payload)).None?
  {
    var m := Header(cmd, code, id) + payload;
    var text := Clip(m);
    HeaderBars(cmd, code, id, payload);
    var p1, p2 := |cmd|, |cmd| + 1 + |code|;
    forall i | 0 <= i < |text| && text[i] == '|' ensures i == p1 || i == p2 {
      assert m[i] == '|';
    }
  }

  /** Location transparency with its exact condition: the user sees the same bytes on either
      way precisely when the published text fits the buffer. */
  lemma Transparency(cmd: string, code: string, id: int, payload: string)
    requires cmd != [] && Barless(cmd) && Barless(code) && payload != []
    ensures ForwardedText(PublishedText(cmd, code, id, payload)) == Some(LocalText(cmd, code, payload))
       <==> Fits(cmd, code, id, payload)
  {
    DecimalBarless(id);
    if Fits(cmd, code, id, payload) {
      FittingIsTransparent(cmd, code, id, payload);
    } else {
      ClippedIsNotTransparent(cmd, code, id, payload);
    }
  }

  // ---------- the messages of the server ----------

  /** " has accepted your friend request", in the UTF-8 bytes of the original. */
  const ACCEPTED_NOTE: string :=
    " \U{00E5}\U{00B7}\U{00B2}\U{00E6}\U{008E}\U{00A5}\U{00E5}\U{008F}\U{0097}" +
    "\U{00E4}\U{00BA}\U{0086}\U{00E4}\U{00BD}\U{00A0}\U{00E7}\U{009A}\U{0084}\U{00E5}" +
    "\U{00A5}\U{00BD}\U{00E5}\U{008F}\U{008B}\U{00E7}\U{0094}\U{00B3}\U{00E8}\U{00AF}" +
    "\U{00B7}"

  datatype Chat =
    | Single(from: string, text: string)
    | Multi(from: string, text: string)
    | Broadcast(from: string, text: string)
    | Group(conversation: int, from: string, text: string)

  datatype Notice =
    | FriendRequest(name: string)
    | FriendAccepted(name: string)

  function ChatCommand(c: Chat): (r: (string, string))
    ensures r.0 != [] && Barless(r.0) && Barless(r.1)
    ensures |r.0| <= 20 && |r.1| <= 20
  {
    match c
    case Single(_, _) => ("single_chat", "1")
    case Multi(_, _) => ("multi_chat", "2")
    case Broadcast(_, _) => ("broadcast_chat", "1")
    case Group(_, _, _) => ("group_chat", "1")
  }

  function ChatPayload(c: Chat): (p: string)
    ensures p != []
  {
    match c
    case Single(from, text) => from + ";" + text
    case Multi(from, text) => from + ";" + text
    case Broadcast(from, text) => from + ";" + text
    case Group(conversation, from, text) => Decimal(conversation) + "|" + from + ";" + text
  }

  /** The text written for a receiver on this server. */
  function ChatLocal(c: Chat): string {
    match c
    case Single(from, text) => Clip("single_chat|1|" + from + ";" + text)
    case Multi(from, text) => Clip("multi_chat|2|" + from + ";" + text)
    case Broadcast(from, text) => Clip("broadcast_chat|1|" + from + ";" + text)
    case Group(conversation, from, text) =>
      Clip("group_chat|1|" + Decimal(conversation) + "|" + from + ";" + text)
  }

  /** The text published for a receiver elsewhere. */
  function ChatPublished(c: Chat, id: int): string {
    match c
    case Single(from, text) => Clip("single_chat|1|" + Decimal(id) + "|" + from + ";" + text)
    case Multi(from, text) => Clip("multi_chat|2|" + Decimal(id) + "|" + from + ";" + text)
    case Broadcast(from, text) => Clip("broadcast_chat|1|" + Decimal(id) + "|" + from + ";" + text)
    case Group(conversation, from, text) =>
      Clip("group_chat|1|" + Decimal(id) + "|" + Decimal(conversation) + "|" + from + ";" + text)
  }

  function NoticeLocal(n: Notice): string {
    match n
    case FriendRequest(name) => Clip("friend_request|1|" + name)
    case FriendAccepted(name) => Clip("handle_friend|1|" + name + ACCEPTED_NOTE)
  }

  /** Notices carry the row number 0. */
  function NoticePublished(n: Notice): string {
    match n
    case FriendRequest(name) => Clip("friend_request|1|0|" + name)
    case FriendAccepted(name) => Clip("handle_friend|1|0|" + name + ACCEPTED_NOTE)
  }

  function ChatFits(c: Chat, id: int): bool {
    Fits(ChatCommand(c).0, ChatCommand(c).1, id, ChatPayload(c))
  }

  /** The whole text a receiver should see. */
  function ChatWhole(c: Chat): string {
    ChatCommand(c).0 + "|" + ChatCommand(c).1 + "|" + ChatPayload(c)
  }

  lemma SimpleForms(header: string, d: string, from: string, text: string)
    ensures header + from + ";" + text == header + (from + ";" + text)
    ensures header + d + "|" + from + ";" + text == header + d + "|" + (from + ";" + text)
  {
  }

  lemma GroupForms(header: string, d: string, v: string, from: string, text: string)
    ensures header + v + "|" + from + ";" + text == header + (v + "|" + from + ";" + text)
    ensures header + d + "|" + v + "|" + from + ";" + text == header + d + "|" + (v + "|" + from + ";" + text)
  {
    assert v + "|" + from + ";" + text == v + ("|" + (from + (";" + text)));
    assert header + v + "|" + from + ";" + text == header + (v + ("|" + (from + (";" + text))));
    assert header + d + "|" + v + "|" + from + ";" + text == header + d + "|" + (v + ("|" + (from + (";" + text))));
  }

  lemma ChatForms(c: Chat, id: int)
    ensures ChatLocal(c) == LocalText(ChatCommand(c).0, ChatCommand(c).1, ChatPayload(c))
    ensures ChatPublished(c, id) == PublishedText(ChatCommand(c).0, ChatCommand(c).1, id, ChatPayload(c))
  {
    var (cmd, code) := ChatCommand(c);
    var header := cmd + "|" + code + "|";
    var d := Decimal(id);
    match c
    case Single(from, text) =>
      assert header == "single_chat|1|";
      SimpleForms(header, d, from, text);
    case Multi(from, text) =>
      assert header == "multi_chat|2|";
      SimpleForms(header, d, from, text);
    case Broadcast(from, text) =>
      assert header == "broadcast_chat|1|";
      SimpleForms(header, d, from, text);
    case Group(conversation, from, text) =>
      assert header == "group_chat|1|";
      GroupForms(header, d, Decimal(conversation), from, text);
  }

  /** The texts a receiver should see, letter by letter. */
  lemma WholeTexts(from: string, text: string, conversation: int)
    ensures ChatWhole(Single(from, text)) == "single_chat|1|" + from + ";" + text
    ensures ChatWhole(Multi(from, text)) == "multi_chat|2|" + from + ";" + text
    ensures ChatWhole(Broadcast(from, text)) == "broadcast_chat|1|" + from + ";" + text
    ensures ChatWhole(Group(conversation, from, text)) ==
            "group_chat|1|" + Decimal(conversation) + "|" + from + ";" + text
  {
    assert "single_chat" + "|" + "1" + "|" == "single_chat|1|";
    assert "multi_chat" + "|" + "2" + "|" == "multi_chat|2|";
    assert "broadcast_chat" + "|" + "1" + "|" == "broadcast_chat|1|";
    assert "group_chat" + "|" + "1" + "|" == "group_chat|1|";
    SimpleForms("single_chat|1|", "", from, text);
    SimpleForms("multi_chat|2|", "", from, text);
    SimpleForms("broadcast_chat|1|", "", from, text);
    GroupForms("group_chat|1|", "", Decimal(conversation), from, text);
  }

  /** Every chat kind reads the same on both ways exactly when its published form fits, and
      then the receiving server learns the right row number. */
  lemma ChatTransparency(c: Chat, id: int)
    ensures ForwardedText(ChatPublished(c, id)) == Some(ChatLocal(c)) <==> ChatFits(c, id)
    ensures ChatFits(c, id) ==> Split(ChatPublished(c, id)).Some? && Split(ChatPublished(c, id)).value.msgid == id
  {
    var (cmd, code) := ChatCommand(c);
    ChatForms(c, id);
    Transparency(cmd, code, id, ChatPayload(c));
    if ChatFits(c, id) {
      SplitFormatted(cmd, code, id, ChatPayload(c));
    }
  }

  /** Also a clipped chat is taken in and names the right row, for any row number of a 64-bit
      column. */
  lemma ChatNamesItsRow(c: Chat, id: nat)
    requires id < Pow10(19)
    ensures
      var p := Split(ChatPublished(c, id));
      p.Some? && p.value.msgid == id
  {
    var (cmd, code) := ChatCommand(c);
    ChatForms(c, id);
    DigitsLength(id, 19);
    var header := Header(cmd, code, Decimal(id));
    var text := header + ChatPayload(c);
    if |text| <= TEXT_LIMIT {
      SplitFormatted(cmd, code, id, ChatPayload(c));
    } else {
      var rest := ChatPayload(c)[..TEXT_LIMIT - |header|];
      assert Clip(text) == header + rest;
      SplitFormatted(cmd, code, id, rest);
    }
  }

  /** A chat whose published text fits is not clipped on the direct way either. */
  lemma FittingIsWhole(c: Chat, id: int)
    requires ChatFits(c, id)
    ensures ChatLocal(c) == ChatWhole(c)
  {
    ChatForms(c, id);
  }

  /** The other server forwards the whole text exactly when the published one fits. */
  lemma ForwardedWhole(c: Chat, id: int)
    ensures ForwardedText(ChatPublished(c, id)) == Some(ChatWhole(c)) <==> ChatFits(c, id)
  {
    ChatForms(c, id);
    ChatTransparency(c, id);
  }

  function NoticeParts(n: Notice): (string, string) {
    match n
    case FriendRequest(name) => ("friend_request", name)
    case FriendAccepted(name) => ("handle_friend", name + ACCEPTED_NOTE)
  }

  lemma NoticeForms(n: Notice)
    ensures NoticeLocal(n) == LocalText(NoticeParts(n).0, "1", NoticeParts(n).1)
    ensures NoticePublished(n) == PublishedText(NoticeParts(n).0, "1", 0, NoticeParts(n).1)
  {
    var (cmd, payload) := NoticeParts(n);
    assert Decimal(0) == "0";
    match n
    case FriendRequest(name) =>
      assert cmd + "|" + "1" + "|" + payload == "friend_request|1|" + name;
      assert Header(cmd, "1", "0") + payload == "friend_request|1|0|" + name;
    case FriendAccepted(name) =>
      assert cmd + "|" + "1" + "|" + payload == "handle_friend|1|" + name + ACCEPTED_NOTE;
      assert Header(cmd, "1", "0") + payload == "handle_friend|1|0|" + name + ACCEPTED_NOTE;
  }

  /** Friend requests and acceptances of a signed-in user. */
  lemma NoticeTransparency(n: Notice)
    requires n.name != []
    ensures ForwardedText(NoticePublished(n)) == Some(NoticeLocal(n))
       <==> Fits(NoticeParts(n).0, "1", 0, NoticeParts(n).1)
    ensures Split(NoticePublished(n)).Some? ==> Split(NoticePublished(n)).value.msgid == 0
  {
    var (cmd, payload) := NoticeParts(n);
    NoticeForms(n);
    Transparency(cmd, "1", 0, payload);
    assert Decimal(0) == "0";
    var text := Header(cmd, "1", Decimal(0)) + payload;
    if |text| <= TEXT_LIMIT {
      SplitFormatted(cmd, "1", 0, payload);
    } else {
      var rest := payload[..TEXT_LIMIT - |Header(cmd, "1", Decimal(0))|];
      assert Clip(text) == Header(cmd, "1", Decimal(0)) + rest;
      SplitFormatted(cmd, "1", 0, rest);
    }
  }

  // ---------- the exception ----------

  /** A group invitation is published in its local form, without a row number. The conversation
      is the text the inviting client sent, a field without bars that the database takes for a
      number. */
  function InviteText(conversation: string, group: string, from: string): string {
    Clip("group_invite|2|" + conversation + "|" + group + "|" + from)
  }

  /** Therefore what that text begins with is taken for the row number and the invited user
      never sees it: forwarding an invitation is never transparent. */
  lemma InviteIsMisread(conversation: string, group: string, from: string)
    requires conversation != [] && Barless(conversation)
    ensures ForwardedText(InviteText(conversation, group, from)) != Some(InviteText(conversation, group, from))
    ensures |"group_invite|2|" + conversation + "|" + group + "|" + from| <= TEXT_LIMIT ==>
              Split(InviteText(conversation, group, from)) ==
              Some(Published("group_invite", "2", Atoll(conversation), group + "|" + from))
    ensures
      var p := Split(InviteText(conversation, group, from));
      p.Some? ==> p.value.msgid == Atoll(conversation)
  {
    var header, payload := Header("group_invite", "2", conversation), group + "|" + from;
    var text := InviteText(conversation, group, from);
    assert "group_invite|2|" + conversation + "|" + group + "|" + from == header + payload by {
      assert "group_invite" + "|" + "2" + "|" == "group_invite|2|";
    }
    if |header| + |payload| <= TEXT_LIMIT {
      SplitFields("group_invite", "2", conversation, payload);
    } else if |header| <= TEXT_LIMIT {
      var rest := payload[..TEXT_LIMIT - |header|];
      assert text == header + rest;
      SplitFields("group_invite", "2", conversation, rest);
    } else {
      CutHeaderHasNoThirdBar("group_invite", "2", conversation, payload);
    }
  }
}
