/** What happens to the bytes: in every interleaving the messages handed on are the
    messages of the received stream, in order, once each. */
module ParserStream {
  import opened Framing
  import opened Ring
  import opened Wrappers
  import opened ParserProtocol
  import opened ParserShape
  import opened ParserScheduling

  /** The messages of one epoch in a list of tasks. */
  function Of(tasks: seq<Task>, epoch: nat): seq<Message> {
    if tasks == [] then []
    else (if tasks[0].epoch == epoch then [tasks[0].message] else []) + Of(tasks[1..], epoch)
  }

  lemma OfFirst(tasks: seq<Task>, epoch: nat)
    ensures Of(tasks, epoch) ==
            if tasks == [] then []
            else (if tasks[0].epoch == epoch then [tasks[0].message] else []) + Of(tasks[1..], epoch)
  {
  }

  lemma {:induction false} OfAppend(a: seq<Task>, b: seq<Task>, epoch: nat)
    ensures Of(a + b, epoch) == Of(a, epoch) + Of(b, epoch)
  {
    OfFirst(a, epoch);
    OfFirst(a + b, epoch);
    hide Of;
    if a == [] {
      assert a + b == b;
    } else {
      assert (a + b)[1..] == a[1..] + b;
      OfAppend(a[1..], b, epoch);
    }
  }

  lemma {:induction false} OfNone(tasks: seq<Task>, epoch: nat)
    requires forall t <- tasks :: t.epoch != epoch
    ensures Of(tasks, epoch) == []
  {
    if tasks != [] {
      OfNone(tasks[1..], epoch);
    }
  }

  // ---------- from the wire to extraction ----------

  ghost predicate ConnAccounted(s: State, fd: int)
    requires Shaped(s) && fd in s.conns
  {
    assert ConnShaped(s, fd, s.conns[fd]);
    var c := s.conns[fd];
    Intact(s, fd) ==> Accounts(Of(s.extracted, c.epoch), UnreadOf(c), s.streams[c.epoch].received)
  }

  /** What survives the end of a connection. */
  ghost predicate StreamAccounted(s: State, e: nat)
    requires e in s.streams
  {
    !s.streams[e].filled ==> Of(s.extracted, e) <= Parse(s.streams[e].received).messages
  }

  ghost predicate Accounted(s: State)
    requires Shaped(s)
  {
    && (forall fd <- s.conns :: ConnAccounted(s, fd))
    && (forall e <- s.streams :: StreamAccounted(s, e))
    && (forall t <- s.extracted :: t.epoch in s.streams)
  }

  lemma AccountedFrame(s: State, s': State)
    requires Shaped(s) && Shaped(s') && Accounted(s)
    requires s'.conns == s.conns && s'.extracted == s.extracted && s'.streams.Keys == s.streams.Keys
    requires forall e <- s.streams :: s'.streams[e] == s.streams[e].(tight := s'.streams[e].tight)
    ensures Accounted(s')
  {
    forall fd <- s'.conns ensures ConnAccounted(s', fd) {
      assert ConnAccounted(s, fd) && ConnShaped(s, fd, s.conns[fd]);
    }
    forall e <- s'.streams ensures StreamAccounted(s', e) {
      assert StreamAccounted(s, e);
    }
  }

  lemma BufferMapKeepsAccounted(s: State, a: Step)
    requires Shaped(s) && Accounted(s) && Enabled(s, a)
    requires a.Accept? || a.Readable? || a.EraseBuffer?
    ensures Shaped(Apply(s, a)) && Accounted(Apply(s, a))
  {
    KeepsShape(s, a);
    var s' := Apply(s, a);
    OfNone(s.extracted, s.nextEpoch);
    forall fd <- s'.conns ensures ConnAccounted(s', fd) {
      assert ConnShaped(s', fd, s'.conns[fd]);
      if fd in s.conns && s'.conns[fd] == s.conns[fd] {
        assert ConnAccounted(s, fd) && ConnShaped(s, fd, s.conns[fd]);
      } else {
        AccountsEmpty();
        assert UnreadOf(s'.conns[fd]) == [];
      }
    }
    forall e <- s'.streams ensures StreamAccounted(s', e) {
      if e in s.streams {
        assert StreamAccounted(s, e);
      }
    }
  }

  lemma CopyKeepsAccounted(s: State, a: Step)
    requires Shaped(s) && Accounted(s) && Enabled(s, a)
    requires a.CopyFirst? || a.CopyRest?
    ensures Shaped(Apply(s, a)) && Accounted(Apply(s, a))
  {
    KeepsShape(s, a);
    var s' := Apply(s, a);
    forall fd <- s'.conns ensures ConnAccounted(s', fd) {
      assert ConnAccounted(s, fd);
      CopyKeepsContents(s, a, fd);
    }
    forall e <- s'.streams ensures StreamAccounted(s', e) {
      assert StreamAccounted(s, e);
    }
  }

  lemma PublishKeepsAccounted(s: State)
    requires Shaped(s) && Accounted(s) && Enabled(s, Publish)
    ensures Shaped(Apply(s, Publish)) && Accounted(Apply(s, Publish))
  {
    KeepsShape(s, Publish);
    var s' := Apply(s, Publish);
    var r := s.reactor;
    var rc := s.conns[r.fd];
    assert ConnShaped(s, r.fd, rc) && ConnAccounted(s, r.fd) && AppendInProgress(s, rc, r);
    if Intact(s', r.fd) {
      AccountsReceive(Of(s.extracted, rc.epoch), UnreadOf(rc), s.streams[rc.epoch].received, r.chunk);
      PublishContents(rc.mem, rc.head, rc.tail, r.chunk);
    }
    forall fd <- s'.conns ensures ConnAccounted(s', fd) {
      assert ConnAccounted(s, fd) && ConnShaped(s, fd, s.conns[fd]) && ConnShaped(s', fd, s'.conns[fd]);
    }
    forall e <- s'.streams ensures StreamAccounted(s', e) {
      assert StreamAccounted(s, e);
    }
  }

  /** A tail that lags behind shows a prefix of the unread bytes. */
  lemma LaggingPrefix(mem: seq<byte>, head: nat, end: nat, tail: nat)
    requires head < |mem| && end < |mem| && tail < |mem|
    requires CircularSize(head, end, |mem|) <= CircularSize(head, tail, |mem|)
    ensures Unread(mem, head, end) <= Unread(mem, head, tail)
  {
  }

  lemma DecodeExtracts(s: State, w: nat)
    requires Shaped(s) && Accounted(s) && Enabled(s, Decode(w))
    ensures
      var s', epoch := Apply(s, Decode(w)), s.conns[s.workers[w].fd].epoch;
      && (forall e | e != epoch :: Of(s'.extracted, e) == Of(s.extracted, e))
      && (forall t <- s'.extracted :: t.epoch in s'.streams)
  {
    var s', epoch := Apply(s, Decode(w)), s.conns[s.workers[w].fd].epoch;
    assert ConnAccounted(s, s.workers[w].fd);
    assert s'.extracted == s.extracted || exists t :: s'.extracted == s.extracted + [t] && t.epoch == epoch;
    forall e | e != epoch ensures Of(s'.extracted, e) == Of(s.extracted, e) {
      OtherEpochsUntouched(s, s', epoch, e);
    }
  }

  lemma DecodeKeepsAccounted(s: State, w: nat)
    requires Shaped(s) && Accounted(s) && Enabled(s, Decode(w))
    ensures Shaped(Apply(s, Decode(w))) && Accounted(Apply(s, Decode(w)))
  {
    KeepsShape(s, Decode(w));
    var s' := Apply(s, Decode(w));
    var Decoding(f, end) := s.workers[w];
    var c := s.conns[f];
    assert ConnShaped(s, f, c) && ConnAccounted(s, f) && DecodeInProgress(s, f, end);
    DecodeExtracts(s, w);
    DecodedConnAccounted(s, w);
    forall fd <- s'.conns ensures ConnAccounted(s', fd) {
      if fd != f {
        assert ConnShaped(s, fd, s.conns[fd]) && ConnShaped(s', fd, s'.conns[fd]);
        assert ConnAccounted(s, fd);
      }
    }
    forall e <- s'.streams ensures StreamAccounted(s', e) {
      assert StreamAccounted(s, e);
      if e == c.epoch && Intact(s', f) {
        assert ConnAccounted(s', f);
      }
    }
  }

  lemma OtherEpochsUntouched(s: State, s': State, epoch: nat, e: nat)
    requires s'.extracted == s.extracted || exists t :: s'.extracted == s.extracted + [t] && t.epoch == epoch
    requires e != epoch
    ensures Of(s'.extracted, e) == Of(s.extracted, e)
  {
    if s'.extracted != s.extracted {
      var t :| s'.extracted == s.extracted + [t] && t.epoch == epoch;
      OfAppend(s.extracted, [t], e);
    }
  }

  /** One decoding on the values of one ring. */
  lemma DecodeRing(mem: seq<byte>, head: nat, end: nat, tail: nat, extracted: seq<Message>, received: seq<byte>)
    requires head < |mem| && end < |mem| && tail < |mem|
    requires CircularSize(head, end, |mem|) <= CircularSize(head, tail, |mem|)
    requires Accounts(extracted, Unread(mem, head, tail), received)
    ensures match Extract(Unread(mem, head, end))
      case Incomplete => true
      case Invalid => Accounts(extracted, Unread(mem, Advance(head, 1, |mem|), tail), received)
      case Frame(m, k) => Accounts(extracted + [m], Unread(mem, Advance(head, k, |mem|), tail), received)
  {
    var seen, unread := Unread(mem, head, end), Unread(mem, head, tail);
    LaggingPrefix(mem, head, end, tail);
    AccountsExtract(extracted, unread, received, seen);
    match Extract(seen)
    case Incomplete =>
    case Invalid => ConsumeContents(mem, head, tail, 1);
    case Frame(_, k) => ConsumeContents(mem, head, tail, k);
  }

  lemma DecodedConnAccounted(s: State, w: nat)
    requires Shaped(s) && Accounted(s) && Enabled(s, Decode(w)) && Shaped(Apply(s, Decode(w)))
    ensures s.workers[w].fd in Apply(s, Decode(w)).conns
    ensures ConnAccounted(Apply(s, Decode(w)), s.workers[w].fd)
  {
    var s' := Apply(s, Decode(w));
    var Decoding(f, end) := s.workers[w];
    var c := s.conns[f];
    var e := c.epoch;
    assert ConnShaped(s, f, c) && ConnShaped(s', f, s'.conns[f]) && DecodeInProgress(s, f, end);
    if Intact(s', f) {
      assert Intact(s, f);
      assert ConnAccounted(s, f);
      var received := s.streams[e].received;
      DecodeRing(c.mem, c.head, end, c.tail, Of(s.extracted, e), received);
      DecodedFields(s, w);
      assert Accounts(Of(s'.extracted, e), UnreadOf(s'.conns[f]), received);
    }
  }

  /** The fields the decoding leaves behind. */
  lemma DecodedFields(s: State, w: nat)
    requires Shaped(s) && Enabled(s, Decode(w))
    ensures
      var s' := Apply(s, Decode(w));
      var Decoding(f, end) := s.workers[w];
      var c := s.conns[f];
      && s'.streams == s.streams && f in s'.conns
      && match Extract(Unread(c.mem, c.head, end))
         case Incomplete => s'.conns[f] == c && s'.extracted == s.extracted
         case Invalid => s'.conns[f] == c.(head := Advance(c.head, 1, s.capacity)) && s'.extracted == s.extracted
         case Frame(m, k) =>
           && s'.conns[f] == c.(head := Advance(c.head, k, s.capacity))
           && Of(s'.extracted, c.epoch) == Of(s.extracted, c.epoch) + [m]
  {
    var Decoding(f, end) := s.workers[w];
    var c := s.conns[f];
    assert ConnShaped(s, f, c);
    match Extract(Unread(c.mem, c.head, end))
    case Incomplete =>
    case Invalid =>
    case Frame(m, k) => OfAppend(s.extracted, [Task(f, m, c.epoch)], c.epoch);
  }

  lemma RingsAndExtractionUntouched(s: State, a: Step)
    requires Shaped(s) && Enabled(s, a)
    requires !a.Accept? && !a.Readable? && !a.EraseBuffer? && !a.CopyFirst? && !a.CopyRest? && !a.Publish? && !a.Decode?
    ensures
      var s' := Apply(s, a);
      && s'.conns == s.conns && s'.extracted == s.extracted && s'.streams.Keys == s.streams.Keys
      && forall e <- s.streams :: s'.streams[e] == s.streams[e].(tight := s'.streams[e].tight)
  {
  }

  lemma {:induction false} KeepsAccounted(s: State, a: Step)
    requires Shaped(s) && Accounted(s) && Enabled(s, a)
    ensures Shaped(Apply(s, a)) && Accounted(Apply(s, a))
  {
    KeepsShape(s, a);
    if a.Accept? || a.Readable? || a.EraseBuffer? {
      BufferMapKeepsAccounted(s, a);
    } else if a.CopyFirst? || a.CopyRest? {
      CopyKeepsAccounted(s, a);
    } else if a.Publish? {
      PublishKeepsAccounted(s);
    } else if a.Decode? {
      DecodeKeepsAccounted(s, a.w);
    } else {
      RingsAndExtractionUntouched(s, a);
      AccountedFrame(s, Apply(s, a));
    }
  }

  // ---------- from extraction to the worker pool ----------

  predicate Holds(pc: Worker, epoch: nat) {
    pc.Handing? && pc.task.epoch == epoch
  }

  ghost predicate SomebodyHolds(s: State, epoch: nat) {
    exists w :: w in s.workers && Holds(s.workers[w], epoch)
  }

  /** The one message of an epoch that its parser thread has taken out of the ring and
      not queued yet. */
  ghost function Held(s: State, epoch: nat): seq<Message> {
    if SomebodyHolds(s, epoch) then
      var w :| w in s.workers && Holds(s.workers[w], epoch);
      [s.workers[w].task.message]
    else []
  }

  ghost predicate HandedOver(s: State)
    requires Shaped(s)
  {
    && (forall w <- s.workers :: s.workers[w].Handing? ==> TaskOfStream(s, s.workers[w].task))
    && (forall e: nat :: Of(s.extracted, e) == Of(s.dequeued + s.queue, e) + Held(s, e))
  }

  predicate TaskOfStream(s: State, t: Task) {
    t.epoch in s.streams && s.streams[t.epoch].fd == t.fd
  }

  /** Two holders of one epoch would work on one descriptor. */
  lemma HolderIsUnique(s: State, w: nat, epoch: nat)
    requires Shaped(s) && Exclusive(s)
    requires forall v <- s.workers :: s.workers[v].Handing? ==> TaskOfStream(s, s.workers[v].task)
    requires w in s.workers && Holds(s.workers[w], epoch)
    ensures Held(s, epoch) == [s.workers[w].task.message]
  {
    forall v | v in s.workers && Holds(s.workers[v], epoch) ensures v == w {
      assert SameFd(s.workers[v], s.workers[w]);
    }
  }

  lemma HeldFrame(s: State, s': State, epoch: nat)
    requires Shaped(s) && Exclusive(s) && Shaped(s') && Exclusive(s')
    requires forall v <- s.workers :: s.workers[v].Handing? ==> TaskOfStream(s, s.workers[v].task)
    requires forall v <- s'.workers :: s'.workers[v].Handing? ==> TaskOfStream(s', s'.workers[v].task)
    requires s'.workers.Keys == s.workers.Keys
    requires forall v <- s.workers ::
               Holds(s.workers[v], epoch) || Holds(s'.workers[v], epoch) ==> s'.workers[v] == s.workers[v]
    ensures Held(s', epoch) == Held(s, epoch)
  {
    if SomebodyHolds(s, epoch) {
      var w :| w in s.workers && Holds(s.workers[w], epoch);
      HolderIsUnique(s, w, epoch);
      assert Holds(s'.workers[w], epoch);
      HolderIsUnique(s', w, epoch);
    } else {
      assert forall w <- s'.workers :: Holds(s'.workers[w], epoch) ==> Holds(s.workers[w], epoch);
    }
  }

  /** Decoding puts one task into the hand of a thread, or none. */
  lemma DecodeHandsOne(s: State, w: nat)
    requires Shaped(s) && Enabled(s, Decode(w))
    ensures
      var s' := Apply(s, Decode(w));
      var pc := s'.workers[w];
      if pc.Handing? then
        s'.extracted == s.extracted + [pc.task] && TaskOfStream(s, pc.task) && pc.task.fd == s.workers[w].fd
      else s'.extracted == s.extracted
  {
    var f := s.workers[w].fd;
    assert ConnShaped(s, f, s.conns[f]);
  }

  lemma DecodeHandedOverAt(s: State, s': State, w: nat, e: nat)
    requires Shaped(s) && Exclusive(s) && HandedOver(s) && Shaped(s') && Exclusive(s')
    requires w in s.workers && s.workers[w].Decoding?
    requires w in s'.workers && s'.workers == s.workers[w := s'.workers[w]] && !s'.workers[w].Decoding?
    requires s'.streams == s.streams && s'.dequeued == s.dequeued && s'.queue == s.queue
    requires if s'.workers[w].Handing? then
               && s'.extracted == s.extracted + [s'.workers[w].task]
               && TaskOfStream(s, s'.workers[w].task) && s'.workers[w].task.fd == s.workers[w].fd
             else s'.extracted == s.extracted
    requires forall v <- s'.workers :: s'.workers[v].Handing? ==> TaskOfStream(s', s'.workers[v].task)
    ensures Of(s'.extracted, e) == Of(s'.dequeued + s'.queue, e) + Held(s', e)
  {
    assert Of(s.extracted, e) == Of(s.dequeued + s.queue, e) + Held(s, e);
    if s'.workers[w].Handing? {
      OfAppend(s.extracted, [s'.workers[w].task], e);
    }
    if Holds(s'.workers[w], e) {
      HolderIsUnique(s', w, e);
      NobodyHeldBefore(s, w, e);
    } else {
      HeldFrame(s, s', e);
    }
  }

  lemma DecodeKeepsHandedOver(s: State, w: nat)
    requires Shaped(s) && Exclusive(s) && HandedOver(s) && Enabled(s, Decode(w))
    ensures Shaped(Apply(s, Decode(w))) && HandedOver(Apply(s, Decode(w)))
  {
    KeepsShape(s, Decode(w));
    KeepsExclusive(s, Decode(w));
    DecodeEffect(s, w);
    DecodeHandsOne(s, w);
    var s' := Apply(s, Decode(w));
    forall v <- s'.workers | s'.workers[v].Handing? ensures TaskOfStream(s', s'.workers[v].task) {
      if v != w {
        assert TaskOfStream(s, s.workers[v].task);
      }
    }
    forall e: nat ensures Of(s'.extracted, e) == Of(s'.dequeued + s'.queue, e) + Held(s', e) {
      DecodeHandedOverAt(s, s', w, e);
    }
  }

  lemma NobodyHeldBefore(s: State, w: nat, e: nat)
    requires Shaped(s) && Exclusive(s) && HandedOver(s) && w in s.workers && s.workers[w].Decoding?
    requires e in s.streams && s.streams[e].fd == s.workers[w].fd
    ensures Held(s, e) == []
  {
    if SomebodyHolds(s, e) {
      var v :| v in s.workers && Holds(s.workers[v], e);
      assert TaskOfStream(s, s.workers[v].task);
      assert SameFd(s.workers[v], s.workers[w]);
    }
  }

  lemma NoSecondHolder(s: State, w: nat, e: nat)
    requires Shaped(s) && Exclusive(s) && HandedOver(s) && w in s.workers && Holds(s.workers[w], e)
    ensures forall v <- s.workers :: Holds(s.workers[v], e) ==> v == w
  {
    forall v <- s.workers | Holds(s.workers[v], e) ensures v == w {
      assert TaskOfStream(s, s.workers[v].task) && TaskOfStream(s, s.workers[w].task);
      assert SameFd(s.workers[v], s.workers[w]);
    }
  }

  lemma AddTaskHandedOverAt(s: State, s': State, w: nat, e: nat)
    requires Shaped(s) && Exclusive(s) && HandedOver(s) && Shaped(s') && Exclusive(s')
    requires w in s.workers && s.workers[w].Handing?
    requires s'.workers == s.workers[w := Locking(s.workers[w].task.fd)]
    requires s'.streams == s.streams && s'.extracted == s.extracted
    requires s'.dequeued == s.dequeued && s'.queue == s.queue + [s.workers[w].task]
    requires forall v <- s'.workers :: s'.workers[v].Handing? ==> TaskOfStream(s', s'.workers[v].task)
    ensures Of(s'.extracted, e) == Of(s'.dequeued + s'.queue, e) + Held(s', e)
  {
    hide Shaped, Exclusive;
    var t := s.workers[w].task;
    assert Of(s.extracted, e) == Of(s.dequeued + s.queue, e) + Held(s, e);
    assert s'.dequeued + s'.queue == s.dequeued + s.queue + [t];
    OfAppend(s.dequeued + s.queue, [t], e);
    if t.epoch == e {
      HolderIsUnique(s, w, e);
      NoSecondHolder(s, w, e);
      assert Held(s', e) == [];
    } else {
      HeldFrame(s, s', e);
    }
  }

  lemma AddTaskKeepsHandedOver(s: State, w: nat)
    requires Shaped(s) && Exclusive(s) && HandedOver(s) && Enabled(s, AddTask(w))
    ensures Shaped(Apply(s, AddTask(w))) && HandedOver(Apply(s, AddTask(w)))
  {
    KeepsShape(s, AddTask(w));
    KeepsExclusive(s, AddTask(w));
    var s' := Apply(s, AddTask(w));
    forall v <- s'.workers | s'.workers[v].Handing? ensures TaskOfStream(s', s'.workers[v].task) {
      assert TaskOfStream(s, s.workers[v].task);
    }
    forall e: nat ensures Of(s'.extracted, e) == Of(s'.dequeued + s'.queue, e) + Held(s', e) {
      AddTaskHandedOverAt(s, s', w, e);
    }
  }

  /** Steps that move no task between ring, hand and queue. */
  lemma HandedOverFrame(s: State, s': State)
    requires Shaped(s) && Exclusive(s) && HandedOver(s) && Shaped(s') && Exclusive(s')
    requires s'.extracted == s.extracted && s'.dequeued + s'.queue == s.dequeued + s.queue
    requires forall e <- s.streams :: e in s'.streams && s'.streams[e].fd == s.streams[e].fd
    requires s'.workers.Keys == s.workers.Keys
    requires forall v <- s.workers :: s.workers[v].Handing? || s'.workers[v].Handing? ==> s'.workers[v] == s.workers[v]
    ensures HandedOver(s')
  {
    forall v <- s'.workers | s'.workers[v].Handing? ensures TaskOfStream(s', s'.workers[v].task) {
      assert TaskOfStream(s, s.workers[v].task);
    }
    forall e: nat ensures Of(s'.extracted, e) == Of(s'.dequeued + s'.queue, e) + Held(s', e) {
      assert Of(s.extracted, e) == Of(s.dequeued + s.queue, e) + Held(s, e);
      HeldFrame(s, s', e);
    }
  }

  lemma TasksUntouched(s: State, a: Step)
    requires Shaped(s) && Enabled(s, a) && !a.Decode? && !a.AddTask?
    ensures
      var s' := Apply(s, a);
      s'.extracted == s.extracted && s'.dequeued + s'.queue == s.dequeued + s.queue
  {
    hide Shaped;
    if a.TakeTask? {
      assert s.queue == [s.queue[0]] + s.queue[1..];
    }
  }

  lemma StreamsKeepFd(s: State, a: Step)
    requires Shaped(s) && Enabled(s, a)
    ensures
      var s' := Apply(s, a);
      forall e <- s.streams :: e in s'.streams && s'.streams[e].fd == s.streams[e].fd
  {
  }

  lemma HandsUntouched(s: State, a: Step)
    requires Shaped(s) && Enabled(s, a) && !a.Decode? && !a.AddTask?
    ensures
      var s' := Apply(s, a);
      && s'.workers.Keys == s.workers.Keys
      && forall v <- s.workers :: s.workers[v].Handing? || s'.workers[v].Handing? ==> s'.workers[v] == s.workers[v]
  {
    if OfReactor(a) {
      ReactorLeavesWorkers(s, a);
    } else {
      match a
      case AddFd(_) =>
      case Choose(_, _) =>
      case Block(_) =>
      case WakeUp(_) =>
      case LockBuffer(_) =>
      case Release(_) =>
      case NotifyAll(_) =>
    }
  }

  lemma {:induction false} KeepsHandedOver(s: State, a: Step)
    requires Shaped(s) && Exclusive(s) && HandedOver(s) && Enabled(s, a)
    ensures Shaped(Apply(s, a)) && HandedOver(Apply(s, a))
  {
    KeepsShape(s, a);
    KeepsExclusive(s, a);
    if a.Decode? {
      DecodeKeepsHandedOver(s, a.w);
    } else if a.AddTask? {
      AddTaskKeepsHandedOver(s, a.w);
    } else {
      TasksUntouched(s, a);
      StreamsKeepFd(s, a);
      HandsUntouched(s, a);
      HandedOverFrame(s, Apply(s, a));
    }
  }

  // ---------- whole runs ----------

  /** A run of the server from `s` to `t`: any threads, any order, any inputs. */
  ghost predicate Run(s: State, steps: seq<Step>, t: State)
    decreases |steps|
  {
    if steps == [] then s == t
    else Shaped(s) && Enabled(s, steps[0]) && Run(Apply(s, steps[0]), steps[1..], t)
  }

  ghost predicate Reachable(t: State) {
    exists s, steps :: Init(s) && Run(s, steps, t)
  }

  ghost predicate Inv(s: State) {
    Shaped(s) && Exclusive(s) && NothingStranded(s) && WorkConserving(s) && Accounted(s) && HandedOver(s)
  }

  lemma InvShaped(s: State)
    requires Inv(s)
    ensures Shaped(s)
  {
  }

  lemma InitInv(s: State)
    requires Init(s)
    ensures Inv(s)
  {
  }

  lemma KeepsInv(s: State, a: Step)
    requires Inv(s) && Enabled(s, a)
    ensures Inv(Apply(s, a))
  {
    KeepsShape(s, a);
    KeepsExclusive(s, a);
    KeepsNothingStranded(s, a);
    KeepsWorkConserving(s, a);
    KeepsAccounted(s, a);
    KeepsHandedOver(s, a);
  }

  lemma {:induction false} RunKeepsInv(s: State, steps: seq<Step>, t: State)
    requires Inv(s) && Run(s, steps, t)
    ensures Inv(t)
    decreases |steps|
  {
    hide Inv, Enabled, Apply;
    if steps != [] {
      KeepsInv(s, steps[0]);
      RunKeepsInv(Apply(s, steps[0]), steps[1..], t);
    }
  }

  lemma {:induction false} ReachableInv(t: State)
    requires Reachable(t)
    ensures Inv(t)
  {
    var s, steps :| Init(s) && Run(s, steps, t);
    InitInv(s);
    RunKeepsInv(s, steps, t);
  }

  lemma RunOne(s: State, a: Step)
    requires Shaped(s) && Enabled(s, a)
    ensures Run(s, [a], Apply(s, a))
  {
    hide Shaped, Enabled, Apply;
    assert [a][1..] == [];
    assert Run(Apply(s, a), [], Apply(s, a));
  }

  /** A run never gets stuck on the shape `Apply` asks for: any step enabled in a reachable
      state continues the run. */
  lemma {:induction false} RunExtends(s: State, steps: seq<Step>, t: State, a: Step)
    requires Inv(s) && Run(s, steps, t) && Enabled(t, a)
    ensures Shaped(t) && Run(s, steps + [a], Apply(t, a))
    decreases |steps|
  {
    hide Inv, Shaped, Enabled, Apply;
    InvShaped(s);
    if steps == [] {
      RunOne(t, a);
      assert steps + [a] == [a];
    } else {
      KeepsInv(s, steps[0]);
      RunExtends(Apply(s, steps[0]), steps[1..], t, a);
      assert (steps + [a])[1..] == steps[1..] + [a];
    }
  }

  /** Nothing lost, nothing twice, nothing out of order: for a live connection whose ring
      was never filled to the last byte, what the worker pool has taken, what is queued,
      the one message in its parser's hand and what the ring still holds are together
      the messages of all bytes received so far. */
  lemma Conservation(s: State, fd: int)
    requires Reachable(s) && fd in s.conns
    ensures Shaped(s)
    ensures
      var c := s.conns[fd];
      !s.streams[c.epoch].filled ==>
        Of(s.dequeued, c.epoch) + Of(s.queue, c.epoch) + Held(s, c.epoch) + Parse(UnreadOf(c)).messages
          == Parse(s.streams[c.epoch].received).messages
  {
    ReachableInv(s);
    assert ConnShaped(s, fd, s.conns[fd]) && ConnAccounted(s, fd);
    var e := s.conns[fd].epoch;
    OfAppend(s.dequeued, s.queue, e);
    assert Of(s.extracted, e) == Of(s.dequeued + s.queue, e) + Held(s, e);
  }

  /** The ring as a single-producer, single-consumer queue: its unread bytes are the last
      bytes received, in their order; a parser thread that works with a tail read earlier
      sees an initial part of them; and a chunk being copied in still fits behind them,
      although its room was measured before the parser moved on. */
  lemma RingSafety(s: State, fd: int)
    requires Reachable(s) && fd in s.conns
    ensures Shaped(s)
    ensures
      var c := s.conns[fd];
      !s.streams[c.epoch].filled ==>
        && IsSuffix(UnreadOf(c), s.streams[c.epoch].received)
        && (forall w <- s.workers :: s.workers[w].Decoding? && s.workers[w].fd == fd ==>
              Unread(c.mem, c.head, s.workers[w].end) <= UnreadOf(c))
        && (Appending(s.reactor) && s.reactor.fd == fd ==> |UnreadOf(c)| + |s.reactor.chunk| <= s.capacity)
  {
    ReachableInv(s);
    var c := s.conns[fd];
    assert ConnShaped(s, fd, c) && ConnAccounted(s, fd);
    if !s.streams[c.epoch].filled {
      forall w <- s.workers | s.workers[w].Decoding? && s.workers[w].fd == fd
        ensures Unread(c.mem, c.head, s.workers[w].end) <= UnreadOf(c)
      {
        assert DecodeInProgress(s, fd, s.workers[w].end);
        LaggingPrefix(c.mem, c.head, s.workers[w].end, c.tail);
      }
    }
  }

  /** For every connection, also one closed in the middle: what was handed on is an initial
      part of the messages received. */
  lemma DeliveredIsPrefix(s: State, e: nat)
    requires Reachable(s) && e in s.streams && !s.streams[e].filled
    ensures Of(s.dequeued, e) + Of(s.queue, e) + Held(s, e) <= Parse(s.streams[e].received).messages
  {
    ReachableInv(s);
    assert StreamAccounted(s, e);
    OfAppend(s.dequeued, s.queue, e);
    assert Of(s.extracted, e) == Of(s.dequeued + s.queue, e) + Held(s, e);
  }

  /** The condition a caller can watch: a ring is only ever filled to the last byte after
      its guard let a chunk through that left no byte to spare. */
  lemma OnlyTightReadsFill(s: State, e: nat)
    requires Reachable(s) && e in s.streams && s.streams[e].filled
    ensures s.streams[e].tight
  {
    ReachableInv(s);
  }

  lemma NoStrandedFrame(s: State, fd: int)
    requires Reachable(s) && fd in s.conns
    ensures Shaped(s)
    ensures Intact(s, fd) ==>
              Undecided(s, fd) || fd in s.pending || fd in s.processing || InWindow(s, fd)
  {
    ReachableInv(s);
    if Attended(s, fd) {
      var w :| w in s.workers && Attends(s.workers[w], fd);
      assert FdOf(s.workers[w]).value in s.processing;
    }
  }

  /** A message in hand belongs to a descriptor somebody is processing. */
  lemma NothingHeld(s: State, fd: int)
    requires Shaped(s) && Exclusive(s) && HandedOver(s) && fd in s.conns && fd !in s.processing
    ensures Held(s, s.conns[fd].epoch) == []
  {
    var e := s.conns[fd].epoch;
    assert ConnShaped(s, fd, s.conns[fd]);
    forall w <- s.workers ensures !Holds(s.workers[w], e) {
      if FdOf(s.workers[w]) != Some(fd) && s.workers[w].Handing? {
        assert TaskOfStream(s, s.workers[w].task);
      }
    }
  }

  /** Whenever a connection is at rest, nothing decodable is left behind: every message of
      the bytes received has been queued, in order, and the ring holds the undecided rest. */
  lemma RestIsComplete(s: State, fd: int)
    requires Reachable(s) && fd in s.conns
    ensures Shaped(s)
    ensures
      var c := s.conns[fd];
      Intact(s, fd) && fd !in s.pending && fd !in s.processing && !InWindow(s, fd) ==>
        && Of(s.dequeued, c.epoch) + Of(s.queue, c.epoch) == Parse(s.streams[c.epoch].received).messages
        && UnreadOf(c) == Parse(s.streams[c.epoch].received).residue
  {
    ReachableInv(s);
    if Intact(s, fd) && fd !in s.pending && fd !in s.processing && !InWindow(s, fd) {
      var c := s.conns[fd];
      assert ConnShaped(s, fd, c) && ConnAccounted(s, fd);
      NoStrandedFrame(s, fd);
      NothingHeld(s, fd);
      Conservation(s, fd);
      ParseUndecided(UnreadOf(c));
    }
  }

  /** End to end: a peer that has sent whole encoded messages finds, once the server is at
      rest on its connection, exactly these messages queued in this order. */
  lemma SentIsQueued(s: State, fd: int, ms: seq<Message>)
    requires Reachable(s) && fd in s.conns && (forall m <- ms :: Legal(m))
    ensures Shaped(s)
    ensures
      var c := s.conns[fd];
      Intact(s, fd) && fd !in s.pending && fd !in s.processing && !InWindow(s, fd)
      && s.streams[c.epoch].received == EncodeAll(ms) ==>
        Of(s.dequeued, c.epoch) + Of(s.queue, c.epoch) == ms && UnreadOf(c) == []
  {
    RestIsComplete(s, fd);
    StreamRoundTrip(ms);
  }

  lemma MutualExclusion(s: State, v: nat, w: nat)
    requires Reachable(s) && v in s.workers && w in s.workers
    requires SameFd(s.workers[v], s.workers[w])
    ensures v == w
  {
    ReachableInv(s);
  }

  /** While some parser thread is blocked, each descriptor that waits for one has a free
      thread of its own; in particular a waiting descriptor never faces only blocked threads. */
  lemma NoLostWakeup(s: State)
    requires Reachable(s)
    ensures SomeBlocked(s) ==> |Waiting(s)| <= |Free(s)|
    ensures s.workers != map[] && (exists fd :: fd in Waiting(s)) ==>
              exists w :: w in s.workers && s.workers[w] != Blocked
  {
    ReachableInv(s);
    if s.workers != map[] {
      forall fd | fd in Waiting(s) ensures exists w :: w in s.workers && s.workers[w] != Blocked {
        SomebodyIsAwake(s, fd);
      }
    }
  }
}
