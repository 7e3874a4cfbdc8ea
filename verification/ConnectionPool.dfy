/** The database-connection pool: `get_conn`, `en_conn`, the guard object and the manager's
    shrinking, run by any number of threads. Between two steps of one thread the others
    may do anything. Connections are numbered so that lending one twice would show. */
module ConnectionPool {
  import opened Wrappers

  type Conn = nat

  /** Where a thread is that uses the pool through a guard. */
  datatype User =
    | Outside
    | Asking                    // in get_conn, wants connMutex_
    | Checking(conn: Conn)      // holds connMutex_, has popped a connection, pings it
    | Creating                  // has reserved a slot, creates outside the lock
    | Pausing                   // waits on connCv_ for up to a second
    | Using(conn: Conn)
    | Refused                   // get_conn returned null because the pool stopped
    | Crashed                   // creation failed: the lock is taken twice

  datatype State = State(
    minConns: nat,
    maxConns: nat,
    running: bool,
    cleared: bool,
    connectionCount: int,
    idle: seq<Conn>,
    users: map<nat, User>,
    nextConn: nat)

  datatype Step =
    | Ask(u: nat)
    | Look(u: nat)
    | Checked(u: nat, alive: bool)
    | Created(u: nat, ok: bool)
    | Resume(u: nat)
    | GiveBack(u: nat)
    | Shrink
    | Stop
    | Clear

  ghost predicate MutexFree(s: State) {
    forall u <- s.users :: !s.users[u].Checking?
  }

  ghost predicate AnyCrash(s: State) {
    exists u :: u in s.users && s.users[u].Crashed?
  }

  /** The constructor has created some of the `minConns_` connections it tried. */
  ghost predicate Init(s: State) {
    && s.minConns <= s.maxConns && s.running && !s.cleared
    && s.connectionCount == |s.idle| <= s.minConns
    && (forall i, j :: 0 <= i < j < |s.idle| ==> s.idle[i] != s.idle[j])
    && (forall i :: 0 <= i < |s.idle| ==> s.idle[i] < s.nextConn)
    && (forall u <- s.users :: s.users[u].Outside?)
  }

  /** Nothing happens after a crash: the exception leaves a thread uncaught. */
  ghost predicate Enabled(s: State, a: Step) {
    !AnyCrash(s) &&
    match a
    case Ask(u) => u in s.users && (s.users[u].Outside? || s.users[u].Refused?)
    case Look(u) => u in s.users && s.users[u].Asking? && MutexFree(s)
    case Checked(u, _) => u in s.users && s.users[u].Checking?
    case Created(u, _) => u in s.users && s.users[u].Creating?
    case Resume(u) => u in s.users && s.users[u].Pausing? && MutexFree(s)
    case GiveBack(u) => u in s.users && s.users[u].Using? && MutexFree(s)
    case Shrink => MutexFree(s)
    case Stop => s.running
    case Clear => !s.running && MutexFree(s)
  }

  function Move(s: State, u: nat, pc: User): State {
    s.(users := s.users[u := pc])
  }

  /** One turn of the loop in `get_conn`: pop, or reserve a slot, or wait. */
  function DoLook(s: State, u: nat): State {
    if !s.running then Move(s, u, Refused)
    else if s.idle != [] then Move(s, u, Checking(s.idle[0])).(idle := s.idle[1..])
    else if s.connectionCount < s.maxConns then
      Move(s, u, Creating).(connectionCount := s.connectionCount + 1)
    else Move(s, u, Pausing)
  }

  function DoShrink(s: State): State {
    if |s.idle| > s.minConns && s.connectionCount > s.minConns && |s.idle| > s.connectionCount / 2 then
      s.(idle := s.idle[1..], connectionCount := s.connectionCount - 1)
    else s
  }

  function Apply(s: State, a: Step): State
    requires Enabled(s, a)
  {
    match a
    case Ask(u) => Move(s, u, Asking)
    case Look(u) => DoLook(s, u)
    case Checked(u, alive) =>
      if alive then Move(s, u, Using(s.users[u].conn))
      else Move(s, u, Asking).(connectionCount := s.connectionCount - 1)
    case Created(u, ok) =>
      if ok then Move(s, u, Using(s.nextConn)).(nextConn := s.nextConn + 1)
      else Move(s, u, Crashed).(connectionCount := s.connectionCount - 1)
    case Resume(u) => Move(s, u, if s.running then Asking else Refused)
    case GiveBack(u) => Move(s, u, Outside).(idle := s.idle + [s.users[u].conn])
    case Shrink => DoShrink(s)
    case Stop => s.(running := false)
    case Clear => s.(idle := [], cleared := true)
  }

  // ---------- ownership ----------

  predicate Has(pc: User) {
    pc.Checking? || pc.Using?
  }

  /** Threads that have a connection or a slot reserved for one. */
  function Takers(users: map<nat, User>): set<nat> {
    set u | u in users && Takes(users[u])
  }

  /** Every slot that is counted is an idle connection, a lent one, or one being created. */
  ghost predicate Conserved(s: State) {
    && (s.running ==> !s.cleared)
    && (!s.cleared ==> s.connectionCount == |s.idle| + |Takers(s.users)|)
  }

  /** No connection is in two places. */
  ghost predicate Unshared(s: State) {
    && (forall i, j :: 0 <= i < j < |s.idle| ==> s.idle[i] != s.idle[j])
    && (forall u <- s.users :: Has(s.users[u]) ==> s.users[u].conn !in s.idle)
    && (forall u, v :: u in s.users && v in s.users && SameConn(s.users[u], s.users[v]) ==> u == v)
    && (forall i :: 0 <= i < |s.idle| ==> s.idle[i] < s.nextConn)
    && (forall u <- s.users :: Has(s.users[u]) ==> s.users[u].conn < s.nextConn)
  }

  predicate SameConn(a: User, b: User) {
    Has(a) && Has(b) && a.conn == b.conn
  }

  ghost predicate Capped(s: State) {
    s.minConns <= s.maxConns && s.connectionCount <= s.maxConns
  }

  predicate Takes(pc: User) {
    Has(pc) || pc.Creating?
  }

  lemma MoveTakers(users: map<nat, User>, u: nat, pc: User)
    requires u in users
    ensures |Takers(users[u := pc])| ==
            |Takers(users)| - (if Takes(users[u]) then 1 else 0) + (if Takes(pc) then 1 else 0)
  {
    var others := Takers(users) - {u};
    assert Takers(users) == if Takes(users[u]) then others + {u} else others;
    assert Takers(users[u := pc]) == if Takes(pc) then others + {u} else others;
  }

  lemma {:induction false} KeepsConserved(s: State, a: Step)
    requires Conserved(s) && Enabled(s, a)
    ensures Conserved(Apply(s, a))
  {
    var s' := Apply(s, a);
    match a
    case Ask(u) => MoveTakers(s.users, u, s'.users[u]);
    case Look(u) => MoveTakers(s.users, u, s'.users[u]);
    case Checked(u, _) => MoveTakers(s.users, u, s'.users[u]);
    case Created(u, _) => MoveTakers(s.users, u, s'.users[u]);
    case Resume(u) => MoveTakers(s.users, u, s'.users[u]);
    case GiveBack(u) => MoveTakers(s.users, u, s'.users[u]);
    case Shrink =>
    case Stop =>
    case Clear =>
  }

  /** Popping the front of the idle queue. */
  lemma PoppingKeepsUnshared(s: State, g: nat)
    requires Unshared(s) && g in s.users && !Has(s.users[g]) && s.idle != []
    ensures Unshared(Move(s, g, Checking(s.idle[0])).(idle := s.idle[1..]))
  {
    var s' := Move(s, g, Checking(s.idle[0])).(idle := s.idle[1..]);
    forall u, v | u in s'.users && v in s'.users && SameConn(s'.users[u], s'.users[v]) ensures u == v {
      if u != g && v != g {
        assert SameConn(s.users[u], s.users[v]);
      }
    }
  }

  /** Opening a fresh connection. */
  lemma OpeningKeepsUnshared(s: State, g: nat)
    requires Unshared(s) && g in s.users && !Has(s.users[g])
    ensures Unshared(Move(s, g, Using(s.nextConn)).(nextConn := s.nextConn + 1))
  {
    var s' := Move(s, g, Using(s.nextConn)).(nextConn := s.nextConn + 1);
    forall u, v | u in s'.users && v in s'.users && SameConn(s'.users[u], s'.users[v]) ensures u == v {
      if u != g && v != g {
        assert SameConn(s.users[u], s.users[v]);
      }
    }
  }

  lemma MovingKeepsUnshared(s: State, g: nat, pc: User, count: int)
    requires Unshared(s) && g in s.users && !Has(pc)
    ensures Unshared(Move(s, g, pc).(connectionCount := count))
  {
    var s' := Move(s, g, pc);
    forall u, v | u in s'.users && v in s'.users && SameConn(s'.users[u], s'.users[v]) ensures u == v {
      assert SameConn(s.users[u], s.users[v]);
    }
  }

  lemma GettingKeepsUnshared(s: State, a: Step)
    requires Unshared(s) && Enabled(s, a) && (a.Look? || a.Created?)
    ensures Unshared(Apply(s, a))
  {
    var s' := Apply(s, a);
    if !Has(s'.users[a.u]) {
      MovingKeepsUnshared(s, a.u, s'.users[a.u], s'.connectionCount);
    } else if a.Look? {
      PoppingKeepsUnshared(s, a.u);
    } else {
      OpeningKeepsUnshared(s, a.u);
    }
  }

  lemma GivingBackKeepsUnshared(s: State, g: nat)
    requires Unshared(s) && Enabled(s, GiveBack(g))
    ensures Unshared(Apply(s, GiveBack(g)))
  {
    var s' := Apply(s, GiveBack(g));
    assert Has(s.users[g]) && s'.idle == s.idle + [s.users[g].conn];
    forall u, v | u in s'.users && v in s'.users && SameConn(s'.users[u], s'.users[v]) ensures u == v {
      assert SameConn(s.users[u], s.users[v]);
    }
    forall v <- s'.users | Has(s'.users[v]) ensures s'.users[v].conn !in s'.idle && s'.users[v].conn < s'.nextConn {
      assert SameConn(s.users[v], s.users[g]) ==> v == g;
    }
  }

  lemma OthersKeepUnshared(s: State, a: Step)
    requires Unshared(s) && Enabled(s, a) && !a.Look? && !a.Created? && !a.GiveBack?
    ensures Unshared(Apply(s, a))
  {
    match a
    case Ask(u) => MovingKeepsUnshared(s, u, Asking, s.connectionCount);
    case Checked(u, alive) =>
      if alive {
        ServingKeepsUnshared(s, u);
      } else {
        MovingKeepsUnshared(s, u, Asking, s.connectionCount - 1);
      }
    case Resume(u) => MovingKeepsUnshared(s, u, Apply(s, a).users[u], s.connectionCount);
    case Shrink =>
    case Stop =>
    case Clear =>
  }

  lemma ServingKeepsUnshared(s: State, g: nat)
    requires Unshared(s) && g in s.users && s.users[g].Checking?
    ensures Unshared(Move(s, g, Using(s.users[g].conn)))
  {
    var s' := Move(s, g, Using(s.users[g].conn));
    forall u, v | u in s'.users && v in s'.users && SameConn(s'.users[u], s'.users[v]) ensures u == v {
      assert SameConn(s.users[u], s.users[v]);
    }
  }

  lemma {:induction false} KeepsUnshared(s: State, a: Step)
    requires Unshared(s) && Enabled(s, a)
    ensures Unshared(Apply(s, a))
  {
    if a.Look? || a.Created? {
      GettingKeepsUnshared(s, a);
    } else if a.GiveBack? {
      GivingBackKeepsUnshared(s, a.u);
    } else {
      OthersKeepUnshared(s, a);
    }
  }

  lemma KeepsCapped(s: State, a: Step)
    requires Capped(s) && Enabled(s, a)
    ensures Capped(Apply(s, a))
  {
  }

  /** Only a pool that has been stopped turns threads away. */
  ghost predicate RefusesRightly(s: State) {
    forall u <- s.users :: s.users[u].Refused? ==> !s.running
  }

  lemma KeepsRefusesRightly(s: State, a: Step)
    requires RefusesRightly(s) && Enabled(s, a)
    ensures RefusesRightly(Apply(s, a))
  {
  }

  /** And a thread that looks or wakes up there is turned away. */
  lemma StoppedPoolRefuses(s: State, a: Step)
    requires Enabled(s, a) && (a.Look? || a.Resume?)
    ensures Apply(s, a).users[a.u].Refused? <==> !s.running
    ensures a.Resume? && s.running ==> Apply(s, a).users[a.u].Asking?
  {
  }

  /** The rest of a thread's way, and the end. */
  lemma ThreadsAndShutdown(s: State, u: nat)
    ensures Enabled(s, Ask(u)) ==> Apply(s, Ask(u)) == s.(users := s.users[u := Asking])
    ensures Enabled(s, Stop) ==> Apply(s, Stop) == s.(running := false)
    ensures Enabled(s, Clear) ==> Apply(s, Clear) == s.(idle := [], cleared := true)
  {
  }

  // ---------- whole runs ----------

  ghost predicate Run(s: State, steps: seq<Step>, t: State)
    decreases |steps|
  {
    if steps == [] then s == t
    else Enabled(s, steps[0]) && Run(Apply(s, steps[0]), steps[1..], t)
  }

  ghost predicate Reachable(t: State) {
    exists s, steps :: Init(s) && Run(s, steps, t)
  }

  lemma {:induction false} RunKeepsInv(s: State, steps: seq<Step>, t: State)
    requires Conserved(s) && Unshared(s) && Capped(s) && RefusesRightly(s) && Run(s, steps, t)
    ensures Conserved(t) && Unshared(t) && Capped(t) && RefusesRightly(t)
    decreases |steps|
  {
    hide Conserved, Unshared, Capped, RefusesRightly, Enabled, Apply;
    if steps != [] {
      KeepsConserved(s, steps[0]);
      KeepsUnshared(s, steps[0]);
      KeepsCapped(s, steps[0]);
      KeepsRefusesRightly(s, steps[0]);
      RunKeepsInv(Apply(s, steps[0]), steps[1..], t);
    }
  }

  lemma ReachableInv(t: State)
    requires Reachable(t)
    ensures Conserved(t) && Unshared(t) && Capped(t) && RefusesRightly(t)
  {
    var s, steps :| Init(s) && Run(s, steps, t);
    assert Takers(s.users) == {};
    RunKeepsInv(s, steps, t);
  }

  /** Until the pool is cleared at shutdown every counted connection is idle, lent or being
      created, and there are never more than the maximum. */
  lemma ConnectionConservation(s: State)
    requires Reachable(s)
    ensures s.running ==> !s.cleared
    ensures !s.cleared ==> s.connectionCount == |s.idle| + |Takers(s.users)|
    ensures s.connectionCount <= s.maxConns
  {
    ReachableInv(s);
  }

  /** No two threads ever hold the same connection, and none holds an idle one. */
  lemma ConnectionsUnshared(s: State, u: nat, v: nat)
    requires Reachable(s) && u in s.users && v in s.users
    requires Has(s.users[u]) && Has(s.users[v])
    ensures s.users[u].conn == s.users[v].conn ==> u == v
    ensures s.users[u].conn !in s.idle
  {
    ReachableInv(s);
    if s.users[u].conn == s.users[v].conn {
      assert SameConn(s.users[u], s.users[v]);
    }
  }

  lemma OnlyStoppedPoolsRefuse(s: State, u: nat)
    requires Reachable(s) && u in s.users && s.users[u].Refused?
    ensures !s.running
  {
    ReachableInv(s);
  }

  /** No slot leaks: a thread of the running pool only has to wait when the maximum number
      of connections really is lent out or being created. */
  lemma WaitingMeansExhausted(s: State, u: nat)
    requires Reachable(s) && s.running && Enabled(s, Look(u)) && Apply(s, Look(u)).users[u].Pausing?
    ensures s.idle == [] && |Takers(s.users)| == s.maxConns
  {
    ReachableInv(s);
  }

  /** Shrinking takes at most one idle connection and never goes below the minimum; only a
      connection that cannot be revived does that. */
  lemma OnlyDeadConnectionsGoBelowMinimum(s: State, a: Step)
    requires Reachable(s) && Enabled(s, a)
    requires s.connectionCount >= s.minConns && Apply(s, a).connectionCount < s.minConns
    ensures (a.Checked? && !a.alive) || (a.Created? && !a.ok)
  {
  }

  ghost predicate Reaches(s: State, t: State) {
    exists steps :: Run(s, steps, t)
  }

  lemma ReachesItself(s: State)
    ensures Reaches(s, s)
  {
    assert Run(s, [], s);
  }

  lemma ReachesBefore(s: State, a: Step, t: State)
    requires Enabled(s, a) && Reaches(Apply(s, a), t)
    ensures Reaches(s, t)
  {
    hide Enabled, Apply;
    var steps :| Run(Apply(s, a), steps, t);
    assert ([a] + steps)[1..] == steps;
    assert Run(s, [a] + steps, t);
  }

  // ---------- the queue in place ----------

  /** Connections of a queue that are tried before the first one alive. */
  function DeadFront(conns: seq<Conn>, alive: Conn -> bool): (k: nat)
    ensures k <= |conns|
    ensures forall i :: 0 <= i < k ==> !alive(conns[i])
    ensures k < |conns| ==> alive(conns[k])
  {
    if conns == [] || alive(conns[0]) then 0 else 1 + DeadFront(conns[1..], alive)
  }

  /** What `get_conn` does to the pool when no other thread comes between. */
  function Got(s: State, u: nat, alive: Conn -> bool, created: Option<Conn>): State {
    var k := DeadFront(s.idle, alive);
    var left := s.connectionCount - k;
    if k < |s.idle| then Move(s, u, Using(s.idle[k])).(idle := s.idle[k + 1..], connectionCount := left)
    else if left >= s.maxConns then Move(s, u, Pausing).(idle := [], connectionCount := left)
    else if created.None? then Move(s, u, Crashed).(idle := [], connectionCount := left)
    else Move(s, u, Using(s.nextConn)).(idle := [], connectionCount := left + 1, nextConn := s.nextConn + 1)
  }

  /** `ConnectionQueue.GetConn` in place is this run of the transition system: the same
      connections dropped, the same one lent, the same count, the same crash. */
  lemma {:induction false} GetConnIsARun(s: State, u: nat, alive: Conn -> bool, created: Option<Conn>)
    requires Enabled(s, Look(u)) && s.running
    ensures Reaches(s, Got(s, u, alive, created))
    decreases |s.idle|
  {
    hide Enabled, Apply, Got, DeadFront, Reaches;
    if s.idle == [] {
      GetFromNothing(s, u, alive, created);
    } else if alive(s.idle[0]) {
      GetFirst(s, u, alive, created);
    } else {
      var s1, s2 := Apply(s, Look(u)), s.(idle := s.idle[1..], connectionCount := s.connectionCount - 1);
      SkipDead(s, u, alive, created);
      GetConnIsARun(s2, u, alive, created);
      ReachesBefore(s1, Checked(u, false), Got(s, u, alive, created));
      ReachesBefore(s, Look(u), Got(s, u, alive, created));
    }
  }

  lemma SkipDead(s: State, u: nat, alive: Conn -> bool, created: Option<Conn>)
    requires Enabled(s, Look(u)) && s.running && s.idle != [] && !alive(s.idle[0])
    ensures
      var s1, s2 := Apply(s, Look(u)), s.(idle := s.idle[1..], connectionCount := s.connectionCount - 1);
      && Enabled(s1, Checked(u, false)) && Apply(s1, Checked(u, false)) == s2
      && Enabled(s2, Look(u)) && Got(s2, u, alive, created) == Got(s, u, alive, created)
  {
    var s1 := Apply(s, Look(u));
    assert s1.users[u := Asking] == s.users;
    hide Apply, Enabled;
    GotBehindDead(s, u, alive, created);
  }

  lemma GotBehindDead(s: State, u: nat, alive: Conn -> bool, created: Option<Conn>)
    requires s.idle != [] && !alive(s.idle[0])
    ensures Got(s.(idle := s.idle[1..], connectionCount := s.connectionCount - 1), u, alive, created)
         == Got(s, u, alive, created)
  {
    var k := DeadFront(s.idle[1..], alive);
    assert DeadFront(s.idle, alive) == 1 + k;
    if k < |s.idle| - 1 {
      assert s.idle[1..][k + 1..] == s.idle[k + 2..];
    }
  }

  lemma GetFirst(s: State, u: nat, alive: Conn -> bool, created: Option<Conn>)
    requires Enabled(s, Look(u)) && s.running && s.idle != [] && alive(s.idle[0])
    ensures Reaches(s, Got(s, u, alive, created))
  {
    hide Reaches;
    var s1 := Apply(s, Look(u));
    assert Apply(s1, Checked(u, true)) == Got(s, u, alive, created) by {
      assert s1.users[u := Using(s.idle[0])] == s.users[u := Using(s.idle[0])];
    }
    LastStep(s1, Checked(u, true));
    ReachesBefore(s, Look(u), Got(s, u, alive, created));
  }

  lemma GetFromNothing(s: State, u: nat, alive: Conn -> bool, created: Option<Conn>)
    requires Enabled(s, Look(u)) && s.running && s.idle == []
    ensures Reaches(s, Got(s, u, alive, created))
  {
    hide Reaches;
    var s1 := Apply(s, Look(u));
    if s1.users[u].Creating? {
      var step := Created(u, created.Some?);
      assert Apply(s1, step) == Got(s, u, alive, created) by {
        assert s1.users[u := Crashed] == s.users[u := Crashed];
        assert s1.users[u := Using(s.nextConn)] == s.users[u := Using(s.nextConn)];
      }
      LastStep(s1, step);
    } else {
      ReachesItself(s1);
    }
    ReachesBefore(s, Look(u), Got(s, u, alive, created));
  }

  lemma LastStep(s: State, a: Step)
    requires Enabled(s, a)
    ensures Reaches(s, Apply(s, a))
  {
    ReachesItself(Apply(s, a));
    ReachesBefore(s, a, Apply(s, a));
  }

  /** `conns_` and `connectionCount_`; `alive` answers the ping and the reconnection. */
  class ConnectionQueue {
    var conns: seq<Conn>
    var connectionCount: int
    const minConns: nat
    const maxConns: nat

    /** The constructor opens connections until the minimum is tried; `initial` are the ones
        that could be created. */
    constructor (minConns: nat, maxConns: nat, initial: seq<Conn>)
      ensures this.minConns == minConns && this.maxConns == maxConns
      ensures conns == initial && connectionCount == |initial|
    {
      this.minConns, this.maxConns := minConns, maxConns;
      this.conns, this.connectionCount := initial, |initial|;
    }

    /** The fields are those of a state of the transition system. */
    ghost predicate Shows(s: State)
      reads this
    {
      conns == s.idle && connectionCount == s.connectionCount && minConns == s.minConns && maxConns == s.maxConns
    }

    /** Counted connections that are not in the queue. */
    function Lent(): int
      reads this
    {
      connectionCount - |conns|
    }

    /** `get_conn` up to the point where it would wait. Dead connections leave queue and count
        together; the first one alive is lent; only then one is created below the maximum.
        `created` is the outcome of that; a failure ends in locking the lock twice. */
    method GetConn(alive: Conn -> bool, created: Option<Conn>) returns (conn: Option<Conn>, crashed: bool)
      modifies this
      ensures Lent() == old(Lent()) + (if conn.Some? then 1 else 0)
      ensures
        var k := DeadFront(old(conns), alive);
        if k < |old(conns)| then
          conn == Some(old(conns)[k]) && conns == old(conns)[k + 1..] && !crashed
        else
          && conns == []
          && conn == (if old(connectionCount) - k < maxConns then created else None)
          && (crashed <==> old(connectionCount) - k < maxConns && created.None?)
    {
      ghost var dropped := 0;
      while conns != []
        invariant 0 <= dropped <= |old(conns)| && conns == old(conns)[dropped..]
        invariant dropped + DeadFront(conns, alive) == DeadFront(old(conns), alive)
        invariant connectionCount == old(connectionCount) - dropped
        decreases |conns|
      {
        var candidate := conns[0];
        conns := conns[1..];
        if alive(candidate) {
          return Some(candidate), false;
        }
        connectionCount := connectionCount - 1;
        dropped := dropped + 1;
      }
      if connectionCount < maxConns {
        connectionCount := connectionCount + 1;
        if created.Some? {
          return created, false;
        }
        connectionCount := connectionCount - 1;
        return None, true;
      }
      conn, crashed := None, false;
    }

    /** `en_conn`, called by the guard's destructor. */
    method EnConn(conn: Conn)
      modifies this`conns
      ensures conns == old(conns) + [conn] && Lent() == old(Lent()) - 1
      ensures forall s: State, u ::
                old(Shows(s)) && Enabled(s, GiveBack(u)) && s.users[u].conn == conn ==>
                  Shows(Apply(s, GiveBack(u))) && Apply(s, GiveBack(u)).users == s.users[u := Outside]
    {
      conns := conns + [conn];
    }

    /** The manager's shrinking: nothing lent is touched and the minimum stays. */
    method Shrink()
      modifies this
      ensures Lent() == old(Lent())
      ensures connectionCount < old(connectionCount) <==>
                minConns < |old(conns)| && minConns < old(connectionCount) && old(connectionCount) / 2 < |old(conns)|
      ensures connectionCount == old(connectionCount) || connectionCount == old(connectionCount) - 1 >= minConns
      ensures connectionCount < old(connectionCount) ==> |conns| >= minConns && conns == old(conns)[1..]
      ensures connectionCount == old(connectionCount) ==> conns == old(conns)
      ensures forall s: State ::
                old(Shows(s)) && Enabled(s, Step.Shrink) ==>
                  Shows(Apply(s, Step.Shrink)) && Apply(s, Step.Shrink).users == s.users
    {
      var idleConns := |conns|;
      var curConns := connectionCount;
      if idleConns > minConns && curConns > minConns {
        if idleConns > curConns / 2 {
          conns := conns[1..];
          connectionCount := connectionCount - 1;
        }
      }
    }
  }
}
