/** The state machine of the console client, and the client together with a server that
    answers requests in any order, may push messages at any time and may stop serving. Both
    sides throw the result of `sendMessage` away. The runs cover one connection. */
module ChatClient {
  import opened Wrappers

  datatype ClientState =
    | Connecting | Menu
    | SignUpName | SignUpPassword
    | SignInName | SignInPassword
    | WaitResponse
    | SingleUser | SingleText
    | MultiUser | MultiText
    | BroadcastText

  datatype Request =
    | SignUp | SignIn | ShowOnline | SingleChat | MultiChat | BroadcastChat | ShowHistory | Quit

  /** The first two fields of a server message; a message without a code has an empty one. */
  datatype ServerMessage = ServerMessage(kind: string, code: string)

  // ---------- the client ----------

  /** Whether the input loop goes on. `Crash` stands for undefined behaviour: two text prompts
      work with a null pointer when the input has no line feed, and a name or password that is
      too long runs over the end of its array. */
  datatype Outcome = Continue | Stop | Crash

  /** What one read from the input pipe does. */
  datatype Reaction = Reaction(state: ClientState, sent: Option<Request>, outcome: Outcome)

  predicate IsQuit(line: string) {
    line == "q\n" || line == "Q\n"
  }

  /** A read of zero bytes ends the loop; that is what `read` returns once the buffer is full. */
  const INPUT_LIMIT: nat := 65535
  const NAME_SIZE: nat := 512

  /** How long an input a state copes with; two prompts copy it without its line feed. */
  function Limit(state: ClientState): nat {
    match state
    case SignUpName => NAME_SIZE
    case SignUpPassword => NAME_SIZE
    case SignInName => NAME_SIZE
    case SignInPassword => NAME_SIZE
    case SingleUser => NAME_SIZE + 1
    case MultiUser => NAME_SIZE + 1
    case _ => INPUT_LIMIT
  }

  predicate Undefined(state: ClientState, line: string) {
    line != "" && (|line| >= Limit(state) || ((state.BroadcastText? || state.MultiText?) && '\n' !in line))
  }

  function OnInput(state: ClientState, line: string): Reaction {
    if line == "" then Reaction(state, None, Continue)
    else if |line| >= INPUT_LIMIT then Reaction(state, None, Stop)
    else if IsQuit(line) then Reaction(state, Some(Quit), Stop)
    else if Undefined(state, line) then Reaction(state, None, Crash)
    else match state
      case Menu =>
        if line == "1\n" then Reaction(SignInName, None, Continue)
        else if line == "2\n" then Reaction(SignUpName, None, Continue)
        else if line == "3\n" then Reaction(WaitResponse, Some(ShowOnline), Continue)
        else if line == "4\n" then Reaction(SingleUser, None, Continue)
        else if line == "5\n" then Reaction(MultiUser, None, Continue)
        else if line == "6\n" then Reaction(BroadcastText, None, Continue)
        else if line == "7\n" then Reaction(WaitResponse, Some(ShowHistory), Continue)
        else Reaction(Menu, None, Continue)
      case BroadcastText => Reaction(WaitResponse, Some(BroadcastChat), Continue)
      case MultiUser => Reaction(MultiText, None, Continue)
      case MultiText => Reaction(WaitResponse, Some(MultiChat), Continue)
      case SingleUser => Reaction(SingleText, None, Continue)
      case SingleText => Reaction(WaitResponse, Some(SingleChat), Continue)
      case SignUpName => Reaction(SignUpPassword, None, Continue)
      case SignUpPassword => Reaction(WaitResponse, Some(SignUp), Continue)
      case SignInName => Reaction(SignInPassword, None, Continue)
      case SignInPassword => Reaction(WaitResponse, Some(SignIn), Continue)
      case WaitResponse => Reaction(WaitResponse, None, Continue)
      case Connecting => Reaction(Connecting, None, Continue)
  }

  /** What the menu offers, and how many further lines a choice asks for. */
  function MenuLine(r: Request): string {
    match r
    case SignIn => "1\n"
    case SignUp => "2\n"
    case ShowOnline => "3\n"
    case SingleChat => "4\n"
    case MultiChat => "5\n"
    case BroadcastChat => "6\n"
    case ShowHistory => "7\n"
    case Quit => "q\n"
  }

  function Prompts(r: Request): nat {
    match r
    case SignIn => 2
    case SignUp => 2
    case SingleChat => 2
    case MultiChat => 2
    case BroadcastChat => 1
    case _ => 0
  }

  /** How long answer `i` may be: passwords and names fit their arrays, texts the input buffer. */
  function AnswerLimit(r: Request, i: nat): nat {
    match r
    case SignIn => NAME_SIZE
    case SignUp => NAME_SIZE
    case BroadcastChat => INPUT_LIMIT
    case _ => if i == 0 then NAME_SIZE + 1 else INPUT_LIMIT
  }

  /** A conversation with the input loop: the last state and what was handed to `send_message`. */
  function Talk(state: ClientState, lines: seq<string>): (ClientState, seq<Request>)
    decreases |lines|
  {
    if lines == [] then (state, [])
    else
      var r := OnInput(state, lines[0]);
      var (last, sent) := Talk(r.state, lines[1..]);
      (last, (if r.sent.Some? then [r.sent.value] else []) + sent)
  }

  ghost predicate Proper(line: string, limit: nat) {
    '\n' in line && !IsQuit(line) && |line| < limit
  }

  lemma TalkOne(state: ClientState, line: string)
    ensures
      var r := OnInput(state, line);
      Talk(state, [line]) == (r.state, if r.sent.Some? then [r.sent.value] else [])
  {
    var r := OnInput(state, line);
    assert [line][1..] == [];
    assert Talk(r.state, []) == (r.state, []);
    assert forall q: seq<Request> :: q + [] == q;
  }

  lemma TalkNext(state: ClientState, line: string, lines: seq<string>)
    requires OnInput(state, line).sent.None?
    ensures Talk(state, [line] + lines) == Talk(OnInput(state, line).state, lines)
  {
    assert ([line] + lines)[1..] == lines;
    assert forall q: seq<Request> :: [] + q == q;
  }

  /** Choosing from the menu and answering the prompts hands exactly the request chosen to
      `send_message`, with the last answer, and leaves the client waiting; before that nothing. */
  lemma DialogueSends(r: Request, answers: seq<string>)
    requires r != Quit && |answers| == Prompts(r)
    requires forall i :: 0 <= i < |answers| ==> Proper(answers[i], AnswerLimit(r, i))
    ensures Talk(Menu, [MenuLine(r)] + answers) == (WaitResponse, [r])
    ensures |answers| > 0 ==> Talk(Menu, [MenuLine(r)] + answers[..|answers| - 1]).1 == []
  {
    hide Talk, OnInput;
    if |answers| == 0 {
      assert [MenuLine(r)] + answers == [MenuLine(r)];
      DialogueZero(r);
    } else if |answers| == 1 {
      assert answers == [answers[0]] && Proper(answers[0], AnswerLimit(r, 0));
      assert [MenuLine(r)] + answers[..0] == [MenuLine(r)];
      DialogueOne(answers[0]);
    } else {
      var a, b := answers[0], answers[1];
      assert answers == [a] + [b] && answers[..1] == [a];
      DialogueTwo(r, a, b);
    }
  }

  lemma DialogueZero(r: Request)
    requires r == ShowOnline || r == ShowHistory
    ensures Talk(Menu, [MenuLine(r)]) == (WaitResponse, [r])
  {
    TalkOne(Menu, MenuLine(r));
  }

  lemma DialogueOne(a: string)
    requires Proper(a, INPUT_LIMIT)
    ensures Talk(Menu, [MenuLine(BroadcastChat)] + [a]) == (WaitResponse, [BroadcastChat])
    ensures Talk(Menu, [MenuLine(BroadcastChat)]).1 == []
  {
    hide Talk;
    TalkNext(Menu, MenuLine(BroadcastChat), [a]);
    TalkOne(BroadcastText, a);
    TalkOne(Menu, MenuLine(BroadcastChat));
  }

  lemma DialogueTwo(r: Request, a: string, b: string)
    requires Prompts(r) == 2 && Proper(a, AnswerLimit(r, 0)) && Proper(b, AnswerLimit(r, 1))
    ensures Talk(Menu, [MenuLine(r)] + ([a] + [b])) == (WaitResponse, [r])
    ensures Talk(Menu, [MenuLine(r)] + [a]).1 == []
  {
    hide Talk;
    var asked := OnInput(Menu, MenuLine(r)).state;
    TalkNext(Menu, MenuLine(r), [a] + [b]);
    TalkNext(asked, a, [b]);
    TalkOne(OnInput(asked, a).state, b);
    TalkNext(Menu, MenuLine(r), [a]);
    TalkOne(asked, a);
  }

  /** The choices, letter by letter. */
  lemma MenuLines()
    ensures MenuLine(SignIn) == "1\n" && MenuLine(SignUp) == "2\n" && MenuLine(ShowOnline) == "3\n"
    ensures MenuLine(SingleChat) == "4\n" && MenuLine(MultiChat) == "5\n"
    ensures MenuLine(BroadcastChat) == "6\n" && MenuLine(ShowHistory) == "7\n"
    ensures Prompts(SignIn) == Prompts(SignUp) == Prompts(SingleChat) == Prompts(MultiChat) == 2
    ensures Prompts(BroadcastChat) == 1 && Prompts(ShowOnline) == Prompts(ShowHistory) == 0
  {
  }

  /** Anything else typed at the menu, while waiting or before the connection does nothing. */
  lemma OtherLinesDoNothing(state: ClientState, line: string)
    requires state.Menu? || state.WaitResponse? || state.Connecting?
    requires |line| < 65535 && line != "q\n" && line != "Q\n"
    requires state.Menu? ==> line !in ["1\n", "2\n", "3\n", "4\n", "5\n", "6\n", "7\n"]
    ensures OnInput(state, line) == Reaction(state, None, Continue)
  {
    if state.Menu? {
      var choices := ["1\n", "2\n", "3\n", "4\n", "5\n", "6\n", "7\n"];
      assert choices[0] != line && choices[1] != line && choices[2] != line && choices[3] != line;
      assert choices[4] != line && choices[5] != line && choices[6] != line;
    }
  }

  /** Which messages let a waiting client go. */
  lemma ReleasesExactly(m: ServerMessage)
    ensures Releases(m) <==>
              && m.code != ""
              && (m.kind in {"sign_up", "sign_in", "show_online_user", "show_history", "bye"}
                  || (m.kind == "single_chat" && m.code != "1")
                  || (m.kind == "multi_chat" && m.code != "2")
                  || (m.kind == "broadcast_chat" && m.code != "1"))
  {
  }

  /** What the user can do next: after a successful sign-up his next two lines sign him in, after
      any other answer the menu dialogues work (`DialogueSends`), and after the server has said
      goodbye nothing but quit is sent. */
  lemma AfterRelease(m: ServerMessage, name: string, password: string, line: string)
    requires Releases(m) && Proper(name, 512) && Proper(password, 512)
    ensures m.kind == "sign_up" && m.code == "1" ==>
              Talk(OnMessage(WaitResponse, m), [name] + [password]) == (WaitResponse, [SignIn])
    ensures m.kind != "bye" && !(m.kind == "sign_up" && m.code == "1") ==> OnMessage(WaitResponse, m) == Menu
    ensures m.kind == "bye" && OnInput(OnMessage(WaitResponse, m), line).sent.Some? ==> line == "q\n" || line == "Q\n"
  {
    if m.kind == "sign_up" && m.code == "1" {
      TalkNext(SignInName, name, [password]);
      TalkOne(SignInPassword, password);
    }
  }

  /** A request other than quit goes out exactly when the client starts waiting. */
  lemma SendingIsWaiting(state: ClientState, line: string)
    ensures
      var r := OnInput(state, line);
      && (r.sent.Some? && r.sent != Some(Quit) <==> state != WaitResponse && r.state == WaitResponse)
      && (state == WaitResponse ==> r.state == WaitResponse)
      && (r.sent == Some(Quit) ==> r.outcome.Stop?)
  {
  }

  function OnMessage(state: ClientState, m: ServerMessage): ClientState {
    if m.kind == "" || m.code == "" then state
    else if m.kind == "sign_up" then if m.code == "1" then SignInName else Menu
    else if m.kind == "sign_in" then Menu
    else if m.kind == "single_chat" then if m.code == "1" then state else Menu
    else if m.kind == "show_online_user" then Menu
    else if m.kind == "show_history" then Menu
    else if m.kind == "multi_chat" then if m.code == "2" then state else Menu
    else if m.kind == "broadcast_chat" then if m.code == "1" then state else Menu
    else if m.kind == "bye" then Connecting
    else state
  }

  /** Messages that take the client out of the waiting state. */
  predicate Releases(m: ServerMessage) {
    OnMessage(WaitResponse, m) != WaitResponse
  }

  /** The client object: `cur_state` and the two handlers. */
  class Client {
    var curState: ClientState

    constructor ()
      ensures curState == Connecting
    {
      curState := Connecting;
    }

    /** One read from the input pipe; `sent` is what `send_message` is called with, whatever
        becomes of it. The loop ends exactly on a quit line or a full buffer, a request other
        than quit goes out exactly when the client starts waiting, and nothing but quit goes
        out while it waits. */
    method HandlePipeInput(line: string) returns (sent: Option<Request>, outcome: Outcome)
      modifies this
      ensures Reaction(curState, sent, outcome) == OnInput(old(curState), line)
      ensures outcome.Stop? <==> line == "q\n" || line == "Q\n" || |line| >= 65535
      ensures sent == Some(Quit) <==> line == "q\n" || line == "Q\n"
      ensures sent.Some? && sent != Some(Quit) <==> old(curState) != WaitResponse && curState == WaitResponse
      ensures old(curState) == WaitResponse ==> curState == WaitResponse && (sent.Some? ==> IsQuit(line))
      ensures outcome.Crash? <==>
                && 0 < |line| < 65535 && !IsQuit(line)
                && match old(curState)
                   case SignUpName => |line| >= 512
                   case SignUpPassword => |line| >= 512
                   case SignInName => |line| >= 512
                   case SignInPassword => |line| >= 512
                   case SingleUser => |line| >= 513
                   case MultiUser => |line| >= 513
                   case BroadcastText => '\n' !in line
                   case MultiText => '\n' !in line
                   case _ => false
      ensures !outcome.Continue? || line == "" ==> curState == old(curState)
    {
      sent, outcome := None, Continue;
      if line == "" {
        return;
      }
      if |line| >= INPUT_LIMIT {
        return None, Stop;
      }
      if line == "q\n" || line == "Q\n" {
        return Some(Quit), Stop;
      }
      if Undefined(curState, line) {
        return None, Crash;
      }
      match curState {
        case Menu =>
          if line == "1\n" {
            curState := SignInName;
          } else if line == "2\n" {
            curState := SignUpName;
          } else if line == "3\n" {
            sent := Some(ShowOnline);
            curState := WaitResponse;
          } else if line == "4\n" {
            curState := SingleUser;
          } else if line == "5\n" {
            curState := MultiUser;
          } else if line == "6\n" {
            curState := BroadcastText;
          } else if line == "7\n" {
            sent := Some(ShowHistory);
            curState := WaitResponse;
          }
        case BroadcastText =>
          sent := Some(BroadcastChat);
          curState := WaitResponse;
        case MultiUser => curState := MultiText;
        case MultiText =>
          sent := Some(MultiChat);
          curState := WaitResponse;
        case SingleUser => curState := SingleText;
        case SingleText =>
          sent := Some(SingleChat);
          curState := WaitResponse;
        case SignUpName => curState := SignUpPassword;
        case SignUpPassword =>
          sent := Some(SignUp);
          curState := WaitResponse;
        case WaitResponse =>
        case SignInName => curState := SignInPassword;
        case SignInPassword =>
          sent := Some(SignIn);
          curState := WaitResponse;
        case Connecting =>
      }
    }

    /** One server message. A waiting client is let go exactly by a releasing message; any
        other message leaves every state alone, and what a releasing one leads to does not
        depend on the state. */
    method HandleServerMessage(m: ServerMessage)
      modifies this
      ensures curState == OnMessage(old(curState), m)
      ensures old(curState) == WaitResponse ==> (curState != WaitResponse <==> Releases(m))
      ensures !Releases(m) ==> curState == old(curState)
      ensures Releases(m) ==> curState == OnMessage(WaitResponse, m)
    {
      if m.kind == "" || m.code == "" {
        return;
      }
      if m.kind == "sign_up" {
        curState := if m.code == "1" then SignInName else Menu;
      } else if m.kind == "sign_in" {
        curState := Menu;
      } else if m.kind == "single_chat" {
        if m.code != "1" {
          curState := Menu;
        }
      } else if m.kind == "show_online_user" {
        curState := Menu;
      } else if m.kind == "chat_unread" {
      } else if m.kind == "show_history" {
        curState := Menu;
      } else if m.kind == "multi_chat" {
        if m.code != "2" {
          curState := Menu;
        }
      } else if m.kind == "broadcast_chat" {
        if m.code != "1" {
          curState := Menu;
        }
      } else if m.kind == "heartbeat" {
      } else if m.kind == "bye" {
        curState := Connecting;
      }
    }
  }

  // ---------- the server's side ----------

  const DATABASE_ERROR := ServerMessage("Error: Database connection failed", "")

  /** The answers a handler that has a connection gives to the client that asked. Chats to one
      user or to all, and the history, look at the name the client has signed in with. */
  function Answers(r: Request, signedIn: bool): set<ServerMessage> {
    match r
    case SignUp => {ServerMessage("sign_up", "0"), ServerMessage("sign_up", "1")}
    case SignIn => {ServerMessage("sign_in", "0"), SIGNED_IN}
    case ShowOnline => {ServerMessage("show_online_user", "0"), ServerMessage("show_online_user", "1")}
    case SingleChat =>
      {ServerMessage("single_chat", "0")} + if signedIn then {ServerMessage("single_chat", "2")} else {}
    case MultiChat => {ServerMessage("multi_chat", "0"), ServerMessage("multi_chat", "1")}
    case BroadcastChat =>
      {ServerMessage("broadcast_chat", "0")} + if signedIn then {ServerMessage("broadcast_chat", "2")} else {}
    case ShowHistory => if signedIn then {ServerMessage("show_history", "1")} else {}
    case Quit => {}
  }

  const SIGNED_IN := ServerMessage("sign_in", "1")

  /** Which outcomes each handler can report: failure always except for lists that are always
      given, success except where a name is needed and there is none. */
  lemma AnswerTable(m: ServerMessage, signedIn: bool)
    ensures m in Answers(SignUp, signedIn) <==> m.kind == "sign_up" && (m.code == "0" || m.code == "1")
    ensures m in Answers(SignIn, signedIn) <==> m.kind == "sign_in" && (m.code == "0" || m.code == "1")
    ensures m in Answers(ShowOnline, signedIn) <==> m.kind == "show_online_user" && (m.code == "0" || m.code == "1")
    ensures m in Answers(SingleChat, signedIn) <==>
              m.kind == "single_chat" && (m.code == "0" || (m.code == "2" && signedIn))
    ensures m in Answers(MultiChat, signedIn) <==> m.kind == "multi_chat" && (m.code == "0" || m.code == "1")
    ensures m in Answers(BroadcastChat, signedIn) <==>
              m.kind == "broadcast_chat" && (m.code == "0" || (m.code == "2" && signedIn))
    ensures m in Answers(ShowHistory, signedIn) <==> m == ServerMessage("show_history", "1") && signedIn
  {
  }

  /** What arrives without having been asked for. */
  const PUSHES: set<ServerMessage> := {
    ServerMessage("single_chat", "1"), ServerMessage("multi_chat", "2"), ServerMessage("broadcast_chat", "1"),
    ServerMessage("group_chat", "1"), ServerMessage("chat_unread", "1"), ServerMessage("friend_request", "1"),
    ServerMessage("handle_friend", "1"), ServerMessage("group_invite", "2"),
    ServerMessage("heartbeat", "0"), ServerMessage("heartbeat", "1")}

  // ---------- together ----------

  /** The way of a request and its reply: on the wire or in the server's ring, in the hands of
      the worker pool, in the response queue, on the wire to the client. `serving` holds until
      the server closes the connection or leaves its event loop, `connections` until its pool is
      destroyed after that, and `aligned` until a frame is cut short in the middle. */
  datatype System = System(
    client: ClientState,
    wire: seq<Request>,
    requests: seq<Request>,
    replies: seq<ServerMessage>,
    incoming: seq<ServerMessage>,
    signedIn: bool,
    serving: bool,
    connections: bool,
    aligned: bool)

  const START := System(Connecting, [], [], [], [], false, true, true, true)

  datatype Step =
    | Connected
    | Input(line: string)
    | SendGivesUp(line: string)        // the client's send_message took no byte and failed
    | RingFills                        // the server's ring is filled to the last byte
    | Arrive
    | Answer(i: nat, m: ServerMessage)
    | StaySilent(i: nat)
    | Push(m: ServerMessage)
    | SendReply
    | ReplyGivesUp                     // the server's sendMessage took no byte and failed
    | Receive
    | ServerStops
    | ForgetName
    | PoolStops
    | Tear                             // a send gave up, or was mixed with another, inside a frame
    | Mishandle(r: Request)
    | Misread(m: ServerMessage)

  ghost predicate Enabled(s: System, a: Step) {
    match a
    case Connected => s.client.Connecting?
    case Input(line) => OnInput(s.client, line).outcome.Continue?
    case SendGivesUp(line) =>
      OnInput(s.client, line).outcome.Continue? && OnInput(s.client, line).sent.Some?
    case RingFills => s.serving
    case Arrive => s.serving && s.wire != []
    case Answer(i, m) =>
      i < |s.requests|
      && if s.connections then m in Answers(s.requests[i], s.signedIn) else m == DATABASE_ERROR
    case StaySilent(i) => i < |s.requests| && s.connections && s.requests[i].ShowHistory? && !s.signedIn
    case Push(m) => m in PUSHES
    case SendReply => s.serving && s.replies != []
    case ReplyGivesUp => s.serving && s.replies != []
    case Receive => s.incoming != []
    case ServerStops => s.serving
    case ForgetName => !s.serving
    case PoolStops => !s.serving
    case Tear => true
    case Mishandle(_) => !s.aligned
    case Misread(_) => !s.aligned
  }

  function Without<T>(q: seq<T>, i: nat): seq<T>
    requires i < |q|
  {
    q[..i] + q[i + 1..]
  }

  function Asked(r: Reaction): seq<Request> {
    if r.sent.Some? then [r.sent.value] else []
  }

  function Apply(s: System, a: Step): System
    requires Enabled(s, a)
  {
    match a
    case Connected => s.(client := Menu)
    case Input(line) =>
      var r := OnInput(s.client, line);
      s.(client := r.state, wire := s.wire + Asked(r))
    case SendGivesUp(line) => s.(client := OnInput(s.client, line).state)
    case RingFills => s.(wire := [])
    case Arrive => s.(wire := s.wire[1..], requests := s.requests + [s.wire[0]])
    case Answer(i, m) =>
      s.(requests := Without(s.requests, i), replies := s.replies + [m], signedIn := s.signedIn || m == SIGNED_IN)
    case StaySilent(i) => s.(requests := Without(s.requests, i))
    case Push(m) => s.(replies := s.replies + [m])
    case SendReply => s.(replies := s.replies[1..], incoming := s.incoming + [s.replies[0]])
    case ReplyGivesUp => s.(replies := s.replies[1..])
    case Receive => s.(client := OnMessage(s.client, s.incoming[0]), incoming := s.incoming[1..])
    case ServerStops => s.(serving := false)
    case ForgetName => s.(signedIn := false)
    case PoolStops => s.(connections := false)
    case Tear => s.(aligned := false)
    case Mishandle(r) => s.(requests := s.requests + [r])
    case Misread(m) => s.(client := OnMessage(s.client, m))
  }

  function Releasing(ms: seq<ServerMessage>): nat {
    if ms == [] then 0 else (if Releases(ms[|ms| - 1]) then 1 else 0) + Releasing(ms[..|ms| - 1])
  }

  lemma {:induction false} ReleasingHead(ms: seq<ServerMessage>)
    requires ms != []
    ensures Releasing(ms) == (if Releases(ms[0]) then 1 else 0) + Releasing(ms[1..])
    decreases |ms|
  {
    if |ms| > 1 {
      ReleasingHead(ms[..|ms| - 1]);
      assert ms[1..][..|ms| - 2] == ms[..|ms| - 1][1..];
    } else {
      assert ms[1..] == [] && ms[..0] == [];
    }
  }

  lemma ReleasingAppend(ms: seq<ServerMessage>, m: ServerMessage)
    ensures Releasing(ms + [m]) == Releasing(ms) + (if Releases(m) then 1 else 0)
  {
    assert (ms + [m])[..|ms|] == ms;
  }

  /** Codes decide: no push releases a waiting client. */
  lemma PushesDoNotRelease(m: ServerMessage)
    requires m in PUSHES
    ensures !Releases(m) && forall state :: OnMessage(state, m) == state
  {
  }

  /** A message that does not release leaves every state alone. */
  lemma OnlyReleasesMove(state: ClientState, m: ServerMessage)
    requires !Releases(m)
    ensures OnMessage(state, m) == state
  {
  }

  /** An answer releases the client exactly when the handler had a connection, and a handler
      that has one answers everything but the history of a stranger. */
  lemma AnswersRelease(s: System, i: nat, m: ServerMessage)
    requires i < |s.requests| && s.requests[i] != Quit
    ensures Enabled(s, Answer(i, m)) ==> (Releases(m) <==> s.connections)
    ensures s.connections ==>
              (Enabled(s, StaySilent(i)) <==> Answers(s.requests[i], s.signedIn) == {})
  {
    var r := s.requests[i];
    if !(r.ShowHistory? && !s.signedIn) {
      assert exists a :: a in Answers(r, s.signedIn) by {
        assert SomeAnswer(r) in Answers(r, s.signedIn);
      }
    }
  }

  function SomeAnswer(r: Request): ServerMessage {
    match r
    case SignUp => ServerMessage("sign_up", "0")
    case SignIn => ServerMessage("sign_in", "0")
    case ShowOnline => ServerMessage("show_online_user", "0")
    case SingleChat => ServerMessage("single_chat", "0")
    case MultiChat => ServerMessage("multi_chat", "0")
    case BroadcastChat => ServerMessage("broadcast_chat", "0")
    case _ => ServerMessage("show_history", "1")
  }

  /** Signing in successfully, and nothing else, makes the server know the client. */
  lemma SignInIsRemembered(s: System, i: nat, m: ServerMessage)
    requires Enabled(s, Answer(i, m))
    ensures Apply(s, Answer(i, m)).signedIn <==> s.signedIn || m == ServerMessage("sign_in", "1")
  {
  }

  // ---------- what is owed ----------

  /** Requests and answers that are still somewhere on their way. */
  function Outstanding(s: System): nat {
    |s.wire| + |s.requests| + Releasing(s.replies) + Releasing(s.incoming)
  }

  /** Those that can still let the client go. */
  function Coming(s: System): nat {
    Releasing(s.incoming) + if s.serving then |s.wire| + |s.requests| + Releasing(s.replies) else 0
  }

  /** The step is where a request or its reply is dropped: the client's send gives up, or
      nobody serves the connection any more, the ring is filled, the history handler meets a
      stranger, the server's send gives up, or the server stops with the reply not yet sent. */
  predicate Loses(s: System, a: Step) {
    match a
    case SendGivesUp(_) => true
    case Input(line) => !s.serving && OnInput(s.client, line).sent.Some?
    case RingFills => s.wire != []
    case StaySilent(_) => s.serving
    case ReplyGivesUp => s.replies != [] && Releases(s.replies[0])
    case ServerStops => |s.wire| + |s.requests| + Releasing(s.replies) > 0
    case _ => false
  }

  /** How often that happened in a run. */
  function Lost(s: System, steps: seq<Step>): nat
    requires Legal(s, steps)
    decreases |steps|
  {
    if steps == [] then 0
    else (if Loses(s, steps[0]) then 1 else 0) + Lost(Apply(s, steps[0]), steps[1..])
  }

  ghost predicate Legal(s: System, steps: seq<Step>)
    decreases |steps|
  {
    steps == [] || (Enabled(s, steps[0]) && Legal(Apply(s, steps[0]), steps[1..]))
  }

  function End(s: System, steps: seq<Step>): System
    requires Legal(s, steps)
    decreases |steps|
  {
    if steps == [] then s else End(Apply(s, steps[0]), steps[1..])
  }

  // ---------- what every step keeps ----------

  /** The client waits exactly while an answer can come or one has been lost, `lost` being the
      number of those; and what is outstanding is at most one request or answer. */
  ghost predicate Balanced(s: System, lost: nat) {
    && Coming(s) + lost == (if s.client == WaitResponse then 1 else 0)
    && Outstanding(s) <= (if s.client == WaitResponse then 1 else 0)
    && Quit !in s.wire && Quit !in s.requests
  }

  /** The error text for want of a connection is never sent. */
  ghost predicate ErrorUnsent(s: System) {
    && (s.connections || !s.serving)
    && (DATABASE_ERROR in s.replies ==> !s.serving)
    && DATABASE_ERROR !in s.incoming
  }

  ghost predicate Inv(s: System, lost: nat) {
    s.aligned ==> Balanced(s, lost) && ErrorUnsent(s)
  }

  lemma ClientKeepsBalanced(s: System, lost: nat, a: Step)
    requires Balanced(s, lost) && Enabled(s, a) && (a.Connected? || a.Input? || a.SendGivesUp? || a.Receive?)
    ensures Balanced(Apply(s, a), lost + if Loses(s, a) then 1 else 0)
  {
    hide OnInput, OnMessage;
    match a
    case Connected =>
    case Input(line) => SendingIsWaiting(s.client, line);
    case SendGivesUp(line) => SendingIsWaiting(s.client, line);
    case Receive =>
      ReleasingHead(s.incoming);
      if !Releases(s.incoming[0]) {
        OnlyReleasesMove(s.client, s.incoming[0]);
      }
  }

  lemma WithoutOne<T>(q: seq<T>, i: nat, x: T)
    requires i < |q| && x !in q
    ensures |Without(q, i)| == |q| - 1 && x !in Without(q, i)
  {
  }

  lemma ArriveKeepsBalanced(s: System, lost: nat)
    requires Balanced(s, lost) && Enabled(s, Arrive)
    ensures Balanced(Apply(s, Arrive), lost)
  {
    hide Releasing, OnInput, OnMessage, Answers;
    assert s.wire[0] in s.wire;
  }

  lemma AnswerKeepsBalanced(s: System, lost: nat, i: nat, m: ServerMessage)
    requires Balanced(s, lost) && ErrorUnsent(s) && Enabled(s, Answer(i, m))
    ensures Balanced(Apply(s, Answer(i, m)), lost)
  {
    assert s.requests[i] in s.requests;
    AnswersRelease(s, i, m);
    hide Releasing, Releases, Without, OnInput, OnMessage, Answers;
    ReleasingAppend(s.replies, m);
    WithoutOne(s.requests, i, Quit);
  }

  lemma SilenceKeepsBalanced(s: System, lost: nat, i: nat)
    requires Balanced(s, lost) && Enabled(s, StaySilent(i))
    ensures Balanced(Apply(s, StaySilent(i)), lost + if s.serving then 1 else 0)
  {
    hide Releasing, Without, OnInput, OnMessage, Answers;
    WithoutOne(s.requests, i, Quit);
  }

  lemma PushKeepsBalanced(s: System, lost: nat, m: ServerMessage)
    requires Balanced(s, lost) && Enabled(s, Push(m))
    ensures Balanced(Apply(s, Push(m)), lost)
  {
    PushesDoNotRelease(m);
    hide OnMessage, Enabled, Apply, Releases;
    ReleasingAppend(s.replies, m);
    assert Apply(s, Push(m)) == s.(replies := s.replies + [m]) by {
      PushEffect(s, m);
    }
  }

  lemma PushEffect(s: System, m: ServerMessage)
    requires Enabled(s, Push(m))
    ensures Apply(s, Push(m)) == s.(replies := s.replies + [m])
  {
  }

  lemma RepliesKeepBalanced(s: System, lost: nat, a: Step)
    requires Balanced(s, lost) && Enabled(s, a) && (a.SendReply? || a.ReplyGivesUp? || a.RingFills? || a.ServerStops?)
    ensures Balanced(Apply(s, a), lost + if Loses(s, a) then 1 else 0)
  {
    hide OnMessage, OnInput, Answers, Releases, Releasing;
    match a
    case SendReply =>
      ReleasingHead(s.replies);
      ReleasingAppend(s.incoming, s.replies[0]);
    case ReplyGivesUp => ReleasingHead(s.replies);
    case RingFills =>
    case ServerStops =>
  }

  lemma KeepsErrorUnsent(s: System, a: Step)
    requires ErrorUnsent(s) && Enabled(s, a) && Apply(s, a).aligned
    ensures ErrorUnsent(Apply(s, a))
  {
    hide OnInput, OnMessage;
    match a
    case Answer(i, m) =>
      if s.connections {
        assert DATABASE_ERROR !in Answers(s.requests[i], s.signedIn);
      }
    case Push(m) =>
    case SendReply => assert s.replies[0] in s.replies;
    case _ =>
  }

  lemma {:induction false} KeepsInv(s: System, lost: nat, a: Step)
    requires Inv(s, lost) && Enabled(s, a)
    ensures Inv(Apply(s, a), lost + if Loses(s, a) then 1 else 0)
  {
    hide OnInput, OnMessage, Answers, Releasing;
    if Apply(s, a).aligned {
      KeepsErrorUnsent(s, a);
      if a.Connected? || a.Input? || a.SendGivesUp? || a.Receive? {
        ClientKeepsBalanced(s, lost, a);
      } else if a.Arrive? {
        ArriveKeepsBalanced(s, lost);
      } else if a.Answer? {
        AnswerKeepsBalanced(s, lost, a.i, a.m);
      } else if a.StaySilent? {
        SilenceKeepsBalanced(s, lost, a.i);
      } else if a.Push? {
        PushKeepsBalanced(s, lost, a.m);
      } else if !a.ForgetName? && !a.PoolStops? {
        RepliesKeepBalanced(s, lost, a);
      }
    }
  }

  lemma {:induction false} RunKeepsInv(s: System, lost: nat, steps: seq<Step>)
    requires Inv(s, lost) && Legal(s, steps)
    ensures Inv(End(s, steps), lost + Lost(s, steps))
    decreases |steps|
  {
    hide Inv, Enabled, Apply, Loses;
    if steps != [] {
      KeepsInv(s, lost, steps[0]);
      RunKeepsInv(Apply(s, steps[0]), lost + if Loses(s, steps[0]) then 1 else 0, steps[1..]);
    }
  }

  // ---------- whole runs ----------

  /** In every run in which no frame is cut short: at most one request is unanswered, and while
      one is the client waits; and the error text never reaches it. */
  lemma OneOutstandingRequest(steps: seq<Step>)
    requires Legal(START, steps) && End(START, steps).aligned
    ensures
      var t := End(START, steps);
      && Outstanding(t) <= 1 && (Outstanding(t) == 1 ==> t.client == WaitResponse)
      && DATABASE_ERROR !in t.incoming
  {
    RunKeepsInv(START, 0, steps);
  }

  /** A waiting client that nothing on its way can let go. */
  predicate Stuck(s: System) {
    s.client == WaitResponse && Coming(s) == 0
  }

  /** When it gets there: in a run from the start in which no frame is cut short, the client is
      stuck if and only if its request or the reply was dropped at one of the places `Loses`
      lists. It happens at most once, and a waiting client that is not stuck can still get an
      answer. */
  lemma StuckExactly(steps: seq<Step>)
    requires Legal(START, steps) && End(START, steps).aligned
    ensures
      var t := End(START, steps);
      && (Stuck(t) <==> Lost(START, steps) > 0)
      && Lost(START, steps) <= 1
      && (t.client == WaitResponse <==> Coming(t) + Lost(START, steps) == 1)
  {
    RunKeepsInv(START, 0, steps);
  }

  lemma {:induction false} AlignedBefore(s: System, steps: seq<Step>)
    requires Legal(s, steps) && End(s, steps).aligned
    ensures s.aligned
    decreases |steps|
  {
    if steps != [] {
      AlignedBefore(Apply(s, steps[0]), steps[1..]);
    }
  }

  /** Once there, no input, no push and no other handler gets it out; only a quit line, a full
      input buffer or the end of the connection ends it. */
  lemma {:induction false} StuckForever(s: System, steps: seq<Step>)
    requires Stuck(s) && Legal(s, steps) && End(s, steps).aligned
    ensures Stuck(End(s, steps))
    decreases |steps|
  {
    if steps != [] {
      hide Enabled, Apply, Stuck;
      AlignedBefore(Apply(s, steps[0]), steps[1..]);
      StuckStays(s, steps[0]);
      StuckForever(Apply(s, steps[0]), steps[1..]);
    }
  }

  lemma StuckStays(s: System, a: Step)
    requires Stuck(s) && Enabled(s, a) && Apply(s, a).aligned
    ensures Stuck(Apply(s, a))
  {
    hide OnMessage, OnInput;
    match a
    case Push(m) =>
      ReleasingAppend(s.replies, m);
      PushesDoNotRelease(m);
    case Receive =>
      ReleasingHead(s.incoming);
      OnlyReleasesMove(s.client, s.incoming[0]);
    case SendReply =>
      ReleasingHead(s.replies);
      ReleasingAppend(s.incoming, s.replies[0]);
    case ReplyGivesUp => ReleasingHead(s.replies);
    case Input(line) => SendingIsWaiting(s.client, line);
    case SendGivesUp(line) => SendingIsWaiting(s.client, line);
    case _ =>
  }

  // ---------- every way is real ----------

  ghost predicate Strands(s: System, steps: seq<Step>) {
    Legal(s, steps) && Stuck(End(s, steps)) && End(s, steps).aligned
  }

  lemma StrandsAtOnce(s: System)
    requires Stuck(s) && s.aligned
    ensures Strands(s, [])
  {
  }

  lemma StrandsLater(s: System, a: Step, steps: seq<Step>)
    requires Enabled(s, a) && Strands(Apply(s, a), steps)
    ensures Strands(s, [a] + steps)
  {
    hide Enabled, Apply, Stuck;
    assert ([a] + steps)[1..] == steps;
  }

  const ONLINE := ServerMessage("show_online_user", "1")

  /** One run for each way: the send of the request gives up; the ring is filled with the request
      in it; a stranger asks for the history; the send of the reply gives up; the server stops. */
  lemma StuckIsReachable()
    ensures Strands(START, [Connected] + ([SendGivesUp("3\n")] + []))
    ensures Strands(START, [Connected] + ([Input("3\n")] + ([RingFills] + [])))
    ensures Strands(START, [Connected] + ([Input("7\n")] + ([Arrive] + ([StaySilent(0)] + []))))
    ensures Strands(START, [Connected] + ([Input("3\n")] + ([Arrive] + ([Answer(0, ONLINE)] + ([ReplyGivesUp] + [])))))
    ensures Strands(START, [Connected] + ([Input("3\n")] + ([ServerStops] + [])))
  {
    hide Strands, Enabled, Apply;
    var menu, waiting := START.(client := Menu), START.(client := WaitResponse);
    var asked := waiting.(wire := [ShowOnline]);
    Asking(ShowOnline);
    Asking(ShowHistory);
    LosingAtOnce();
    StrandsAtOnce(waiting);
    StrandsAtOnce(asked.(serving := false));
    StrandsLater(menu, SendGivesUp("3\n"), []);
    StrandsLater(asked, RingFills, []);
    StrandsLater(menu, Input("3\n"), [RingFills] + []);
    HistoryStrands();
    ReplyStrands();
    StrandsLater(asked, ServerStops, []);
    StrandsLater(menu, Input("3\n"), [ServerStops] + []);
    StrandsLater(START, Connected, [SendGivesUp("3\n")] + []);
    StrandsLater(START, Connected, [Input("3\n")] + ([RingFills] + []));
    StrandsLater(START, Connected, [Input("7\n")] + ([Arrive] + ([StaySilent(0)] + [])));
    StrandsLater(START, Connected, [Input("3\n")] + ([Arrive] + ([Answer(0, ONLINE)] + ([ReplyGivesUp] + []))));
    StrandsLater(START, Connected, [Input("3\n")] + ([ServerStops] + []));
  }

  lemma LosingAtOnce()
    ensures
      var menu, waiting := START.(client := Menu), START.(client := WaitResponse);
      var asked := waiting.(wire := [ShowOnline]);
      && Enabled(menu, SendGivesUp("3\n")) && Apply(menu, SendGivesUp("3\n")) == waiting
      && Enabled(asked, RingFills) && Apply(asked, RingFills) == waiting
      && Enabled(asked, ServerStops) && Apply(asked, ServerStops) == asked.(serving := false)
      && Stuck(asked.(serving := false))
  {
  }

  /** From the menu to the handler. */
  lemma Asking(r: Request)
    requires r == ShowOnline || r == ShowHistory
    ensures
      var menu, waiting := START.(client := Menu), START.(client := WaitResponse);
      && Enabled(START, Connected) && Apply(START, Connected) == menu
      && Enabled(menu, Input(MenuLine(r))) && Apply(menu, Input(MenuLine(r))) == waiting.(wire := [r])
      && Enabled(waiting.(wire := [r]), Arrive) && Apply(waiting.(wire := [r]), Arrive) == waiting.(requests := [r])
  {
    assert [r][1..] == [] && [] + [r] == [r];
  }

  lemma Answering()
    ensures
      var waiting := START.(client := WaitResponse);
      && Enabled(waiting.(requests := [ShowOnline]), Answer(0, ONLINE))
      && Apply(waiting.(requests := [ShowOnline]), Answer(0, ONLINE)) == waiting.(replies := [ONLINE])
  {
    assert Without([ShowOnline], 0) == [] && [] + [ONLINE] == [ONLINE];
  }

  lemma Dropping()
    ensures
      var waiting := START.(client := WaitResponse);
      && Enabled(waiting.(requests := [ShowHistory]), StaySilent(0))
      && Apply(waiting.(requests := [ShowHistory]), StaySilent(0)) == waiting
      && Enabled(waiting.(replies := [ONLINE]), ReplyGivesUp)
      && Apply(waiting.(replies := [ONLINE]), ReplyGivesUp) == waiting
  {
    assert Without([ShowHistory], 0) == [] && [ONLINE][1..] == [];
  }

  lemma HistoryStrands()
    ensures Strands(START.(client := Menu), [Input("7\n")] + ([Arrive] + ([StaySilent(0)] + [])))
  {
    hide Strands, Enabled, Apply;
    var waiting := START.(client := WaitResponse);
    StrandsAtOnce(waiting);
    Asking(ShowHistory);
    Dropping();
    StrandsLater(waiting.(requests := [ShowHistory]), StaySilent(0), []);
    StrandsLater(waiting.(wire := [ShowHistory]), Arrive, [StaySilent(0)] + []);
    StrandsLater(START.(client := Menu), Input("7\n"), [Arrive] + ([StaySilent(0)] + []));
  }

  lemma ReplyStrands()
    ensures Strands(START.(client := Menu),
                    [Input("3\n")] + ([Arrive] + ([Answer(0, ONLINE)] + ([ReplyGivesUp] + []))))
  {
    hide Strands, Enabled, Apply;
    var waiting := START.(client := WaitResponse);
    StrandsAtOnce(waiting);
    Asking(ShowOnline);
    Answering();
    Dropping();
    StrandsLater(waiting.(replies := [ONLINE]), ReplyGivesUp, []);
    StrandsLater(waiting.(requests := [ShowOnline]), Answer(0, ONLINE), [ReplyGivesUp] + []);
    StrandsLater(waiting.(wire := [ShowOnline]), Arrive, [Answer(0, ONLINE)] + ([ReplyGivesUp] + []));
    StrandsLater(START.(client := Menu), Input("3\n"), [Arrive] + ([Answer(0, ONLINE)] + ([ReplyGivesUp] + [])));
  }

  ghost predicate LosesAndGoesOn(s: System, steps: seq<Step>) {
    Legal(s, steps) && Lost(s, steps) > 0 && End(s, steps).client == Menu
  }

  lemma GoesOnLater(s: System, a: Step, steps: seq<Step>)
    requires Enabled(s, a) && LosesAndGoesOn(Apply(s, a), steps)
    ensures LosesAndGoesOn(s, [a] + steps)
  {
    hide Enabled, Apply;
    assert ([a] + steps)[1..] == steps;
  }

  lemma GoesOnNow(s: System, a: Step, m: ServerMessage)
    requires Enabled(s, a) && Loses(s, a) && !Apply(s, a).aligned && OnMessage(Apply(s, a).client, m) == Menu
    ensures LosesAndGoesOn(s, [a] + [Misread(m)])
  {
    hide Loses, OnMessage;
    var s1, last := Apply(s, a), [Misread(m)];
    assert ([a] + last)[1..] == last && last[1..] == [];
    assert Legal(Apply(s1, Misread(m)), []) && Legal(s1, last);
    assert End(Apply(s1, Misread(m)), []).client == Menu;
    assert End(s1, last).client == Menu;
  }

  /** Why no frame may be cut short: what follows is read as the rest of the frame
      (`Framing.TornFrame`), so a reply that was given up can still let the client go. */
  lemma TornReplyReleases()
    ensures LosesAndGoesOn(START, [Connected] + ([Input("3\n")] + ([Arrive] + ([Answer(0, ONLINE)] + ([Tear] +
                                  ([ReplyGivesUp] + [Misread(ONLINE)]))))))
  {
    hide LosesAndGoesOn, Enabled, Apply, Loses, OnMessage;
    var waiting := START.(client := WaitResponse);
    var answered, rest := waiting.(replies := [ONLINE]), [ReplyGivesUp] + [Misread(ONLINE)];
    Asking(ShowOnline);
    Answering();
    Tearing();
    GoesOnNow(answered.(aligned := false), ReplyGivesUp, ONLINE);
    GoesOnLater(answered, Tear, rest);
    GoesOnLater(waiting.(requests := [ShowOnline]), Answer(0, ONLINE), [Tear] + rest);
    GoesOnLater(waiting.(wire := [ShowOnline]), Arrive, [Answer(0, ONLINE)] + ([Tear] + rest));
    GoesOnLater(START.(client := Menu), Input("3\n"), [Arrive] + ([Answer(0, ONLINE)] + ([Tear] + rest)));
    GoesOnLater(START, Connected, [Input("3\n")] + ([Arrive] + ([Answer(0, ONLINE)] + ([Tear] + rest))));
  }

  lemma Tearing()
    ensures
      var answered := START.(client := WaitResponse, replies := [ONLINE]);
      var torn := answered.(aligned := false);
      && Enabled(answered, Tear) && Apply(answered, Tear) == torn
      && Enabled(torn, ReplyGivesUp) && Loses(torn, ReplyGivesUp) && !Apply(torn, ReplyGivesUp).aligned
      && OnMessage(Apply(torn, ReplyGivesUp).client, ONLINE) == Menu
  {
  }
}
