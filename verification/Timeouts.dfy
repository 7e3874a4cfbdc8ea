/** Idle timeouts: a heap of deadlines with lazy deletion beside a table of the latest
    deadline of every descriptor. First the in-place operations of the reactor, then the
    same operations step by step while worker threads refresh deadlines. */
module Timeouts {
  datatype Timer = Timer(fd: int, expire: int)

  const HEARTBEAT_TIMEOUT_SEC: int := 60

  /** What `top()` of the heap may return: ties are broken arbitrarily. */
  predicate IsTop(t: Timer, hp: multiset<Timer>) {
    t in hp && forall u <- hp :: t.expire <= u.expire
  }

  lemma {:induction false} TopExists(hp: multiset<Timer>)
    requires hp != multiset{}
    ensures exists t :: IsTop(t, hp)
    decreases |hp|
  {
    var t :| t in hp;
    var rest := hp - multiset{t};
    if rest == multiset{} {
      assert hp == multiset{t};
      assert IsTop(t, hp);
    } else {
      TopExists(rest);
      var u :| IsTop(u, rest);
      assert IsTop(if t.expire <= u.expire then t else u, hp) by {
        forall v <- hp ensures t == v || v in rest {
        }
      }
    }
  }

  /** The deadline table agrees with the simple rule "close everyone whose deadline has
      passed" as long as each live descriptor's latest deadline is in the heap. */
  ghost predicate Covered(live: set<int>, latest: map<int, int>, hp: multiset<Timer>) {
    forall fd :: fd in live && fd in latest ==> Timer(fd, latest[fd]) in hp
  }

  function Due(live: set<int>, latest: map<int, int>, now: int): set<int> {
    set fd | fd in live && fd in latest && latest[fd] <= now
  }

  /** Part of the due descriptors has been closed, and nobody else. */
  ghost predicate ClosedSoFar(
    live0: set<int>, latest0: map<int, int>, live: set<int>, latest: map<int, int>, now: int)
  {
    && live0 - Due(live0, latest0, now) <= live <= live0
    && latest == latest0 - (live0 - live)
    && Due(live0, latest0, now) <= (live0 - live) + Due(live, latest, now)
  }

  lemma NothingClosed(live: set<int>, latest: map<int, int>, now: int)
    ensures ClosedSoFar(live, latest, live, latest, now)
  {
  }

  lemma ClosesOne(
    live0: set<int>, latest0: map<int, int>, live: set<int>, latest: map<int, int>, t: Timer, now: int)
    requires ClosedSoFar(live0, latest0, live, latest, now) && t.expire <= now
    ensures t.fd in latest && latest[t.fd] == t.expire && t.fd in live ==>
              ClosedSoFar(live0, latest0, live - {t.fd}, latest - {t.fd}, now)
  {
    if t.fd in latest && latest[t.fd] == t.expire && t.fd in live {
      assert live0 - (live - {t.fd}) == (live0 - live) + {t.fd};
      assert Due(live - {t.fd}, latest - {t.fd}, now) == Due(live, latest, now) - {t.fd};
    }
  }

  lemma AllClosed(
    live0: set<int>, latest0: map<int, int>, live: set<int>, latest: map<int, int>, hp: multiset<Timer>, now: int)
    requires ClosedSoFar(live0, latest0, live, latest, now) && Covered(live, latest, hp)
    requires forall t <- hp :: t.expire > now
    ensures live == live0 - Due(live0, latest0, now) && latest == latest0 - Due(live0, latest0, now)
  {
    forall fd | fd in live && fd in latest ensures latest[fd] > now {
      assert Timer(fd, latest[fd]) in hp;
    }
    assert Due(live, latest, now) == {};
    assert live0 - live == Due(live0, latest0, now);
  }

  /** `client_buffers` (as its key set), `latest_expire` and `hp`. */
  class TimerTable {
    var live: set<int>
    var latest: map<int, int>
    var hp: multiset<Timer>

    ghost predicate Valid()
      reads this
    {
      Covered(live, latest, hp)
    }

    /** The table as a state of the transition system below, with no update under way. */
    ghost function Shown(checker: Checker): State
      reads this
    {
      State(live, latest, hp, map[], checker)
    }

    constructor ()
      ensures Valid() && live == {} && latest == map[] && hp == multiset{}
    {
      live, latest, hp := {}, map[], multiset{};
    }

    method UpdateExpire(fd: int, now: int)
      requires Covered(live - {fd}, latest, hp)
      modifies this`latest, this`hp
      ensures Valid()
      ensures latest == old(latest)[fd := now + 60]
      ensures hp == old(hp) + multiset{Timer(fd, now + 60)}
      ensures forall checker :: Reaches(old(Shown(checker)), Shown(checker))
    {
      RefreshIsARun(live, latest, hp, fd, now);
      var expire := now + HEARTBEAT_TIMEOUT_SEC;
      latest := latest[fd := expire];
      hp := hp + multiset{Timer(fd, expire)};
    }

    /** The part of `handle_new_connect` that concerns timeouts. */
    method Connect(fd: int, now: int)
      requires Valid()
      modifies this
      ensures Valid() && live == old(live) + {fd}
      ensures latest == old(latest)[fd := now + 60] && hp == old(hp) + multiset{Timer(fd, now + 60)}
      ensures Reaches(old(Shown(Quiet)), Shown(Quiet))
    {
      ConnectIsARun(live, latest, hp, fd, now);
      live := live + {fd};
      UpdateExpire(fd, now);
    }

    /** Timers stay in the heap; an unknown descriptor changes nothing. */
    method CloseClint(fd: int)
      requires Covered(live - {fd}, latest, hp)
      modifies this`live, this`latest
      ensures Valid() && live == old(live) - {fd}
      ensures latest == if fd in old(live) then old(latest) - {fd} else old(latest)
      ensures Reaches(old(Shown(Quiet)), Shown(Quiet))
    {
      CloseIsARun(Shown(Quiet), fd);
      if fd !in live {
        return;
      }
      live := live - {fd};
      latest := latest - {fd};
    }

    method IsValid(fd: int, expire: int) returns (valid: bool)
      ensures valid <==> fd in latest && latest[fd] == expire
    {
      valid := fd in latest && latest[fd] == expire;
    }

    /** One turn of the check: the timer leaves the heap, and a descriptor whose latest deadline
        it carries is closed. */
    method TakeTop(t: Timer, now: int, ghost before: State)
      requires Valid() && IsTop(t, hp) && t.expire <= now && Reaches(before, Shown(Looping(now)))
      modifies this
      ensures Valid() && hp == old(hp) - multiset{t}
      ensures
        var closes := t.fd in old(latest) && old(latest)[t.fd] == t.expire && t.fd in old(live);
        && live == (if closes then old(live) - {t.fd} else old(live))
        && latest == (if closes then old(latest) - {t.fd} else old(latest))
      ensures Reaches(before, Shown(Looping(now)))
    {
      hide Reaches;
      CheckTakes(before, Shown(Looping(now)), t, now);
      hp := hp - multiset{t};
      var valid := IsValid(t.fd, t.expire);
      if valid {
        CloseClint(t.fd);
      }
    }

    /** `check_timeout` without interleaved refreshes: whatever stale and duplicate timers
        the heap holds, exactly the live descriptors whose deadline has passed are closed,
        and nobody else's deadline changes. */
    method CheckTimeout(now: int)
      requires Valid()
      modifies this
      ensures Valid()
      ensures live == old(live) - Due(old(live), old(latest), now)
      ensures latest == old(latest) - Due(old(live), old(latest), now)
      ensures forall t <- hp :: t.expire > now
      ensures Reaches(old(Shown(Quiet)), Shown(Quiet))
    {
      hide Reaches, ClosedSoFar, Due;
      ghost var before := Shown(Quiet);
      NothingClosed(live, latest, now);
      CheckStarts(before, now);
      while true
        invariant Reaches(before, Shown(Looping(now)))
        invariant Covered(live, latest, hp)
        invariant ClosedSoFar(old(live), old(latest), live, latest, now)
        decreases |hp|
      {
        if hp == multiset{} {
          break;
        }
        TopExists(hp);
        var t :| IsTop(t, hp);
        if t.expire > now {
          break;
        }
        ClosesOne(old(live), old(latest), live, latest, t, now);
        TakeTop(t, now, before);
      }
      AllClosed(old(live), old(latest), live, latest, hp, now);
      CheckEnds(before, Shown(Looping(now)), now);
    }
  }

  // ---------- with worker threads ----------

  /** Where the reactor is inside `check_timeout` and `close_clint`. */
  datatype Checker =
    | Quiet
    | Looping(now: int)
    | Popped(t: Timer, now: int)
    | Closing(t: Timer, now: int)
    | Forgetting(fd: int, checking: bool, now: int)

  /** `pushing` holds, per thread, the timer of an unfinished `update_expire`: the table is
      written already, the heap is not. */
  datatype State = State(
    live: set<int>,
    latest: map<int, int>,
    hp: multiset<Timer>,
    pushing: map<nat, Timer>,
    checker: Checker)

  datatype Step =
    | Connect(thread: nat, fd: int, now: int)
    | RefreshTable(thread: nat, fd: int, now: int)
    | RefreshHeap(thread: nat)
    | StartCheck(now: int)
    | PopTimer(t: Timer)
    | EndCheck
    | Validate
    | EraseBuffer
    | ForgetDeadline
    | Hangup(fd: int)

  ghost predicate Enabled(s: State, a: Step) {
    match a
    case Connect(thread, _, _) => s.checker.Quiet? && thread !in s.pushing
    case RefreshTable(thread, _, _) => thread !in s.pushing
    case RefreshHeap(thread) => thread in s.pushing
    case StartCheck(_) => s.checker.Quiet?
    case PopTimer(t) => s.checker.Looping? && IsTop(t, s.hp) && t.expire <= s.checker.now
    case EndCheck => s.checker.Looping? && forall t <- s.hp :: t.expire > s.checker.now
    case Validate => s.checker.Popped?
    case EraseBuffer => s.checker.Closing?
    case ForgetDeadline => s.checker.Forgetting?
    case Hangup(_) => s.checker.Quiet?
  }

  predicate Chosen(s: State) {
    s.checker.Popped? && s.checker.t.fd in s.latest && s.latest[s.checker.t.fd] == s.checker.t.expire
  }

  ghost function Apply(s: State, a: Step): State
    requires Enabled(s, a)
  {
    match a
    case Connect(thread, fd, now) =>
      var expire := now + HEARTBEAT_TIMEOUT_SEC;
      s.(live := s.live + {fd}, latest := s.latest[fd := expire], pushing := s.pushing[thread := Timer(fd, expire)])
    case RefreshTable(thread, fd, now) =>
      var expire := now + HEARTBEAT_TIMEOUT_SEC;
      s.(latest := s.latest[fd := expire], pushing := s.pushing[thread := Timer(fd, expire)])
    case RefreshHeap(thread) =>
      s.(hp := s.hp + multiset{s.pushing[thread]}, pushing := s.pushing - {thread})
    case StartCheck(now) => s.(checker := Looping(now))
    case PopTimer(t) => s.(hp := s.hp - multiset{t}, checker := Popped(t, s.checker.now))
    case EndCheck => s.(checker := Quiet)
    case Validate =>
      s.(checker := if Chosen(s) then Closing(s.checker.t, s.checker.now) else Looping(s.checker.now))
    case EraseBuffer =>
      if s.checker.t.fd in s.live then
        s.(live := s.live - {s.checker.t.fd}, checker := Forgetting(s.checker.t.fd, true, s.checker.now))
      else s.(checker := Looping(s.checker.now))
    case ForgetDeadline =>
      s.(latest := s.latest - {s.checker.fd}, checker := if s.checker.checking then Looping(s.checker.now) else Quiet)
    case Hangup(fd) =>
      if fd in s.live then s.(live := s.live - {fd}, checker := Forgetting(fd, false, 0)) else s
  }

  /** The latest deadline of a live descriptor is in the heap, on its way into it, or the
      timer the checker has in its hand. */
  ghost predicate Accounted(s: State, fd: int, expire: int) {
    || Timer(fd, expire) in s.hp
    || UnfinishedUpdate(s, fd, expire)
    || ((s.checker.Popped? || s.checker.Closing?) && s.checker.t == Timer(fd, expire))
  }

  ghost predicate UnfinishedUpdate(s: State, fd: int, expire: int) {
    exists thread :: thread in s.pushing && s.pushing[thread] == Timer(fd, expire)
  }

  ghost predicate Inv(s: State) {
    && (forall fd :: fd in s.live && fd in s.latest ==> Accounted(s, fd, s.latest[fd]))
    && (s.checker.Popped? || s.checker.Closing? ==> s.checker.t.expire <= s.checker.now)
    && (s.checker.Forgetting? ==> s.checker.fd !in s.live)
  }

  /** Steps of one refreshing thread. */
  lemma RefreshKeepsAccounted(s: State, a: Step, fd: int)
    requires Inv(s) && Enabled(s, a) && (a.Connect? || a.RefreshTable? || a.RefreshHeap?)
    requires fd in Apply(s, a).live && fd in Apply(s, a).latest
    ensures Accounted(Apply(s, a), fd, Apply(s, a).latest[fd])
  {
    var s' := Apply(s, a);
    var e := s'.latest[fd];
    if !a.RefreshHeap? && a.fd == fd {
      assert s'.pushing[a.thread] == Timer(fd, e);
    } else {
      assert Accounted(s, fd, e);
      if UnfinishedUpdate(s, fd, e) {
        var thread :| thread in s.pushing && s.pushing[thread] == Timer(fd, e);
        if a.thread != thread {
          assert s'.pushing[thread] == Timer(fd, e);
        }
      }
    }
  }

  /** The checker takes a timer out of the heap and keeps it until the decision. */
  lemma PopKeepsAccounted(s: State, t: Timer, fd: int, e: int)
    requires Enabled(s, PopTimer(t)) && Accounted(s, fd, e)
    ensures Accounted(Apply(s, PopTimer(t)), fd, e)
  {
    var s' := Apply(s, PopTimer(t));
    if UnfinishedUpdate(s, fd, e) {
      assert UnfinishedUpdate(s', fd, e);
    }
  }

  /** The other steps of the check. */
  lemma CheckKeepsAccounted(s: State, a: Step, fd: int)
    requires Inv(s) && Enabled(s, a) && !a.Connect? && !a.RefreshTable? && !a.RefreshHeap? && !a.PopTimer?
    requires fd in Apply(s, a).live && fd in Apply(s, a).latest
    ensures Accounted(Apply(s, a), fd, Apply(s, a).latest[fd])
  {
    var s' := Apply(s, a);
    var e := s'.latest[fd];
    assert s'.pushing == s.pushing && s'.hp == s.hp && fd in s.live && fd in s.latest && s.latest[fd] == e;
    assert Accounted(s, fd, e);
    if UnfinishedUpdate(s, fd, e) {
      assert UnfinishedUpdate(s', fd, e);
    }
  }

  lemma CheckerKnows(s: State, a: Step)
    requires Inv(s) && Enabled(s, a)
    ensures
      var s' := Apply(s, a);
      && (s'.checker.Popped? || s'.checker.Closing? ==> s'.checker.t.expire <= s'.checker.now)
      && (s'.checker.Forgetting? ==> s'.checker.fd !in s'.live)
  {
  }

  lemma {:induction false} KeepsInv(s: State, a: Step)
    requires Inv(s) && Enabled(s, a)
    ensures Inv(Apply(s, a))
  {
    var s' := Apply(s, a);
    CheckerKnows(s, a);
    forall fd | fd in s'.live && fd in s'.latest ensures Accounted(s', fd, s'.latest[fd]) {
      if a.Connect? || a.RefreshTable? || a.RefreshHeap? {
        RefreshKeepsAccounted(s, a, fd);
      } else if a.PopTimer? {
        assert Accounted(s, fd, s.latest[fd]);
        PopKeepsAccounted(s, a.t, fd, s.latest[fd]);
      } else {
        CheckKeepsAccounted(s, a, fd);
      }
    }
  }

  ghost predicate Run(s: State, steps: seq<Step>, t: State)
    decreases |steps|
  {
    if steps == [] then s == t
    else Enabled(s, steps[0]) && Run(Apply(s, steps[0]), steps[1..], t)
  }

  ghost predicate Reachable(t: State) {
    exists s, steps :: s == State({}, map[], multiset{}, map[], Quiet) && Run(s, steps, t)
  }

  lemma {:induction false} RunKeepsInv(s: State, steps: seq<Step>, t: State)
    requires Inv(s) && Run(s, steps, t)
    ensures Inv(t)
    decreases |steps|
  {
    hide Inv, Enabled, Apply;
    if steps != [] {
      KeepsInv(s, steps[0]);
      RunKeepsInv(Apply(s, steps[0]), steps[1..], t);
    }
  }

  lemma ReachableInv(t: State)
    requires Reachable(t)
    ensures Inv(t)
  {
    var s, steps :| s == State({}, map[], multiset{}, map[], Quiet) && Run(s, steps, t);
    RunKeepsInv(s, steps, t);
  }

  // ---------- the operations in place are runs ----------

  ghost predicate Reaches(s: State, t: State) {
    exists steps :: Run(s, steps, t)
  }

  lemma {:induction false} RunExtends(s: State, steps: seq<Step>, t: State, a: Step)
    requires Run(s, steps, t) && Enabled(t, a)
    ensures Run(s, steps + [a], Apply(t, a))
    decreases |steps|
  {
    hide Enabled, Apply;
    if steps == [] {
      assert ([] + [a])[1..] == [];
      assert Run(Apply(t, a), [], Apply(t, a));
    } else {
      RunExtends(Apply(s, steps[0]), steps[1..], t, a);
      assert (steps + [a])[1..] == steps[1..] + [a];
    }
  }

  lemma ReachesItself(s: State)
    ensures Reaches(s, s)
  {
    assert Run(s, [], s);
  }

  lemma ReachesNext(s: State, t: State, a: Step)
    requires Reaches(s, t) && Enabled(t, a)
    ensures Reaches(s, Apply(t, a))
  {
    hide Enabled, Apply;
    var steps :| Run(s, steps, t);
    RunExtends(s, steps, t, a);
  }

  lemma RefreshIsARun(live: set<int>, latest: map<int, int>, hp: multiset<Timer>, fd: int, now: int)
    ensures
      var expire := now + HEARTBEAT_TIMEOUT_SEC;
      forall checker ::
        Reaches(State(live, latest, hp, map[], checker),
                State(live, latest[fd := expire], hp + multiset{Timer(fd, expire)}, map[], checker))
  {
    var expire := now + HEARTBEAT_TIMEOUT_SEC;
    forall checker
      ensures Reaches(State(live, latest, hp, map[], checker),
                      State(live, latest[fd := expire], hp + multiset{Timer(fd, expire)}, map[], checker))
    {
      var s := State(live, latest, hp, map[], checker);
      ReachesItself(s);
      ReachesNext(s, s, RefreshTable(0, fd, now));
      var s1 := Apply(s, RefreshTable(0, fd, now));
      ReachesNext(s, s1, RefreshHeap(0));
      assert s1.pushing - {0} == map[];
    }
  }

  lemma ConnectIsARun(live: set<int>, latest: map<int, int>, hp: multiset<Timer>, fd: int, now: int)
    ensures
      var expire := now + 60;
      Reaches(State(live, latest, hp, map[], Quiet),
              State(live + {fd}, latest[fd := expire], hp + multiset{Timer(fd, expire)}, map[], Quiet))
  {
    var s := State(live, latest, hp, map[], Quiet);
    ReachesItself(s);
    ReachesNext(s, s, Connect(0, fd, now));
    var s1 := Apply(s, Connect(0, fd, now));
    ReachesNext(s, s1, RefreshHeap(0));
    assert s1.pushing - {0} == map[];
  }

  lemma CloseIsARun(s: State, fd: int)
    requires s.checker.Quiet?
    ensures Reaches(s, if fd in s.live then s.(live := s.live - {fd}, latest := s.latest - {fd}) else s)
  {
    ReachesItself(s);
    if fd in s.live {
      ReachesNext(s, s, Hangup(fd));
      ReachesNext(s, Apply(s, Hangup(fd)), ForgetDeadline);
    }
  }

  /** A refresh at some time lasts for a minute from then. */
  lemma RefreshLastsAMinute(s: State, thread: nat, fd: int, now: int)
    ensures Enabled(s, RefreshTable(thread, fd, now)) ==>
              Apply(s, RefreshTable(thread, fd, now)).latest == s.latest[fd := now + 60]
    ensures Enabled(s, Connect(thread, fd, now)) ==>
              Apply(s, Connect(thread, fd, now)).latest == s.latest[fd := now + 60]
  {
  }

  lemma CheckStarts(s: State, now: int)
    requires s.checker.Quiet?
    ensures Reaches(s, s.(checker := Looping(now)))
  {
    ReachesItself(s);
    ReachesNext(s, s, StartCheck(now));
  }

  /** One turn of the check. */
  lemma CheckTakes(before: State, s: State, t: Timer, now: int)
    requires Reaches(before, s) && s.checker == Looping(now) && IsTop(t, s.hp) && t.expire <= now
    ensures
      var valid := t.fd in s.latest && s.latest[t.fd] == t.expire;
      var s' := s.(hp := s.hp - multiset{t});
      Reaches(before, if valid && t.fd in s.live then s'.(live := s.live - {t.fd}, latest := s.latest - {t.fd}) else s')
  {
    hide Reaches;
    ReachesNext(before, s, PopTimer(t));
    var s1 := Apply(s, PopTimer(t));
    ReachesNext(before, s1, Validate);
    var s2 := Apply(s1, Validate);
    if s2.checker.Closing? {
      ReachesNext(before, s2, EraseBuffer);
      var s3 := Apply(s2, EraseBuffer);
      if s3.checker.Forgetting? {
        ReachesNext(before, s3, ForgetDeadline);
      }
    }
  }

  lemma CheckEnds(before: State, s: State, now: int)
    requires Reaches(before, s) && s.checker == Looping(now) && forall t <- s.hp :: t.expire > now
    ensures Reaches(before, s.(checker := Quiet))
  {
    ReachesNext(before, s, EndCheck);
  }

  /** Soundness under interleaving: at the moment a descriptor is chosen for closing, its
      recorded deadline has passed. */
  lemma OnlyExpiredAreChosen(s: State)
    requires Reachable(s) && Enabled(s, Validate) && Apply(s, Validate).checker.Closing?
    ensures
      var fd := s.checker.t.fd;
      fd in s.latest && s.latest[fd] <= s.checker.now
  {
    ReachableInv(s);
  }

  /** Completeness under interleaving: when a check ends, a live descriptor whose recorded
      deadline has passed is one whose update is still on its way into the heap. */
  lemma NobodyExpiredIsMissed(s: State, fd: int)
    requires Reachable(s) && Enabled(s, EndCheck)
    requires fd in Due(s.live, s.latest, s.checker.now)
    ensures UnfinishedUpdate(s, fd, s.latest[fd])
  {
    ReachableInv(s);
    assert Accounted(s, fd, s.latest[fd]);
  }

  /** Between checks no deadline of a live descriptor is lost. */
  lemma DeadlinesAreKept(s: State, fd: int)
    requires Reachable(s) && s.checker.Quiet? && fd in s.live && fd in s.latest
    ensures Timer(fd, s.latest[fd]) in s.hp || UnfinishedUpdate(s, fd, s.latest[fd])
  {
    ReachableInv(s);
    assert Accounted(s, fd, s.latest[fd]);
  }
}
