/** Scheduling of the parser threads: one thread per descriptor, no frame left behind,
    and no thread asleep while a descriptor waits for one. */
module ParserScheduling {
  import opened Framing
  import opened Ring
  import opened Wrappers
  import opened ParserProtocol
  import opened ParserShape

  // ---------- one thread per descriptor ----------

  /** `processing` holds exactly the descriptors some thread works on, each for one thread. */
  ghost predicate Exclusive(s: State) {
    && (forall w <- s.workers :: FdOf(s.workers[w]).Some? ==> FdOf(s.workers[w]).value in s.processing)
    && (forall v, w :: v in s.workers && w in s.workers && SameFd(s.workers[v], s.workers[w]) ==> v == w)
    && (forall fd <- s.processing :: HasThread(s, fd))
  }

  predicate SameFd(a: Worker, b: Worker) {
    FdOf(a).Some? && FdOf(a) == FdOf(b)
  }

  ghost predicate HasThread(s: State, fd: int) {
    exists w :: w in s.workers && FdOf(s.workers[w]) == Some(fd)
  }

  lemma ExclusiveFrame(s: State, s': State)
    requires Exclusive(s) && s'.processing == s.processing && s'.workers.Keys == s.workers.Keys
    requires forall w <- s.workers :: FdOf(s'.workers[w]) == FdOf(s.workers[w])
    ensures Exclusive(s')
  {
    forall v, w | v in s'.workers && w in s'.workers && SameFd(s'.workers[v], s'.workers[w]) ensures v == w {
      assert SameFd(s.workers[v], s.workers[w]);
    }
    forall fd <- s'.processing ensures HasThread(s', fd) {
      assert HasThread(s, fd);
      var w :| w in s.workers && FdOf(s.workers[w]) == Some(fd);
      assert w in s'.workers && FdOf(s'.workers[w]) == Some(fd);
    }
  }

  lemma ChooseKeepsExclusive(s: State, w: nat, fd: int)
    requires Shaped(s) && Exclusive(s) && Enabled(s, Choose(w, fd))
    ensures Exclusive(Apply(s, Choose(w, fd)))
  {
    var s' := Apply(s, Choose(w, fd));
    forall f <- s'.processing ensures HasThread(s', f) {
      if f == fd {
        assert FdOf(s'.workers[w]) == Some(fd);
      } else {
        assert HasThread(s, f);
        var v :| v in s.workers && FdOf(s.workers[v]) == Some(f);
        assert FdOf(s'.workers[v]) == Some(f);
      }
    }
    forall u, v | u in s'.workers && v in s'.workers && SameFd(s'.workers[u], s'.workers[v]) ensures u == v {
      if u != w && v != w {
        assert SameFd(s.workers[u], s.workers[v]);
      }
    }
  }

  lemma ReleaseKeepsExclusive(s: State, w: nat)
    requires Shaped(s) && Exclusive(s) && Enabled(s, Release(w))
    ensures Exclusive(Apply(s, Release(w)))
  {
    var s' := Apply(s, Release(w));
    forall f <- s'.processing ensures HasThread(s', f) {
      assert HasThread(s, f);
      var v :| v in s.workers && FdOf(s.workers[v]) == Some(f);
      assert FdOf(s'.workers[v]) == Some(f);
    }
    forall v <- s'.workers | FdOf(s'.workers[v]).Some? ensures FdOf(s'.workers[v]).value in s'.processing {
      assert v != w;
      assert SameFd(s.workers[v], s.workers[w]) ==> v == w;
    }
    forall u, v | u in s'.workers && v in s'.workers && SameFd(s'.workers[u], s'.workers[v]) ensures u == v {
      assert SameFd(s.workers[u], s.workers[v]);
    }
  }

  predicate OfReactor(a: Step) {
    a.Accept? || a.Readable? || a.Recv? || a.RecvWouldBlock? || a.RecvFailed? || a.ReadSize? || a.CopyFirst?
    || a.CopyRest? || a.Publish? || a.Hangup? || a.EraseBuffer? || a.ClearFd? || a.TakeTask?
  }

  lemma ReactorLeavesWorkers(s: State, a: Step)
    requires Shaped(s) && Enabled(s, a) && OfReactor(a)
    ensures Apply(s, a).workers == s.workers && Apply(s, a).processing == s.processing
  {
  }

  lemma WorkerStepFrame(s: State, a: Step)
    requires Shaped(s) && Enabled(s, a) && !OfReactor(a) && !a.Choose? && !a.Release?
    ensures
      var s' := Apply(s, a);
      && s'.workers.Keys == s.workers.Keys && s'.processing == s.processing
      && forall w <- s.workers :: FdOf(s'.workers[w]) == FdOf(s.workers[w])
  {
    match a
    case AddFd(_) =>
    case Block(_) =>
    case WakeUp(_) =>
    case LockBuffer(_) =>
    case Decode(_) =>
    case AddTask(_) =>
    case NotifyAll(_) =>
  }

  lemma {:induction false} KeepsExclusive(s: State, a: Step)
    requires Shaped(s) && Exclusive(s) && Enabled(s, a)
    ensures Exclusive(Apply(s, a))
  {
    if a.Choose? {
      ChooseKeepsExclusive(s, a.w, a.fd);
    } else if a.Release? {
      ReleaseKeepsExclusive(s, a.w);
    } else {
      if OfReactor(a) {
        ReactorLeavesWorkers(s, a);
      } else {
        WorkerStepFrame(s, a);
      }
      ExclusiveFrame(s, Apply(s, a));
    }
  }

  // ---------- no stranded frame ----------

  /** The reactor has moved the tail of `fd` in the event it is handling and has neither
      announced the descriptor nor erased its buffer yet. */
  ghost predicate InWindow(s: State, fd: int) {
    !s.reactor.Polling? && !s.reactor.Clearing? && s.reactor.fd == fd && s.reactor.published
  }

  /** A thread that will still look at the ring before it lets go of the descriptor. */
  ghost predicate Attended(s: State, fd: int) {
    exists w :: w in s.workers && Attends(s.workers[w], fd)
  }

  predicate Attends(pc: Worker, fd: int) {
    FdOf(pc) == Some(fd) && !pc.Releasing?
  }

  ghost predicate Noticed(s: State, fd: int) {
    fd in s.pending || InWindow(s, fd) || Attended(s, fd)
  }

  ghost predicate Intact(s: State, fd: int)
    requires Shaped(s) && fd in s.conns
  {
    assert ConnShaped(s, fd, s.conns[fd]);
    !s.streams[s.conns[fd].epoch].filled
  }

  ghost predicate Undecided(s: State, fd: int)
    requires Shaped(s) && fd in s.conns
  {
    assert ConnShaped(s, fd, s.conns[fd]);
    Extract(UnreadOf(s.conns[fd])).Incomplete?
  }

  ghost predicate NothingStranded(s: State)
    requires Shaped(s)
  {
    && (s.reactor.Clearing? ==> s.reactor.fd !in s.conns)
    && (forall fd <- s.conns :: Intact(s, fd) ==> Undecided(s, fd) || Noticed(s, fd))
    && (forall w <- s.workers :: s.workers[w].Decoding? ==> LookingAtCurrent(s, s.workers[w].fd, s.workers[w].end))
  }

  /** A thread about to decide on an old tail has its descriptor announced again. */
  ghost predicate LookingAtCurrent(s: State, fd: int, end: nat)
    requires Shaped(s)
  {
    fd in s.conns && (end == s.conns[fd].tail || fd in s.pending || InWindow(s, fd) || !Intact(s, fd))
  }

  /** From `pc` to `pc'` a thread neither lets go of its descriptor nor starts decoding. */
  predicate StaysOn(pc: Worker, pc': Worker) {
    && (FdOf(pc).Some? && !pc.Releasing? ==> FdOf(pc') == FdOf(pc) && !pc'.Releasing?)
    && (pc'.Decoding? ==> pc' == pc)
  }

  lemma AttendedFrame(s: State, s': State, fd: int)
    requires Attended(s, fd) && s'.workers.Keys == s.workers.Keys
    requires forall v <- s.workers :: StaysOn(s.workers[v], s'.workers[v])
    ensures Attended(s', fd)
  {
    var v :| v in s.workers && Attends(s.workers[v], fd);
    assert StaysOn(s.workers[v], s'.workers[v]);
    assert Attends(s'.workers[v], fd);
  }

  /** Steps that leave every ring alone. */
  lemma StrandedFrame(s: State, s': State)
    requires Shaped(s) && Exclusive(s) && Shaped(s') && NothingStranded(s)
    requires s'.conns == s.conns && s.streams.Keys <= s'.streams.Keys
    requires forall e <- s.streams :: s'.streams[e].filled == s.streams[e].filled
    requires forall fd <- s.pending :: fd in s'.pending || fd !in s.conns || (fd !in s.processing && Attended(s', fd))
    requires forall fd :: InWindow(s, fd) ==> InWindow(s', fd) || fd in s'.pending
    requires s'.reactor.Clearing? ==> s'.reactor.fd !in s'.conns
    requires s'.workers.Keys == s.workers.Keys
    requires forall v <- s.workers :: StaysOn(s.workers[v], s'.workers[v])
    ensures NothingStranded(s')
  {
    forall fd <- s'.conns | Intact(s', fd) ensures Undecided(s', fd) || Noticed(s', fd) {
      assert ConnShaped(s, fd, s.conns[fd]);
      assert Intact(s, fd);
      if Attended(s, fd) {
        AttendedFrame(s, s', fd);
      }
    }
    forall v <- s'.workers | s'.workers[v].Decoding?
      ensures LookingAtCurrent(s', s'.workers[v].fd, s'.workers[v].end)
    {
      assert StaysOn(s.workers[v], s'.workers[v]);
      assert LookingAtCurrent(s, s.workers[v].fd, s.workers[v].end);
      assert ConnShaped(s, s.workers[v].fd, s.conns[s.workers[v].fd]);
    }
  }

  /** A buffer is created or erased; the buffer mutex is held, so nobody is decoding. */
  lemma BufferMapKeepsNothingStranded(s: State, a: Step)
    requires Shaped(s) && Exclusive(s) && NothingStranded(s) && Enabled(s, a)
    requires a.Accept? || a.Readable? || a.EraseBuffer?
    ensures Shaped(Apply(s, a)) && NothingStranded(Apply(s, a))
  {
    KeepsShape(s, a);
    var s' := Apply(s, a);
    forall fd <- s'.conns | Intact(s', fd) ensures Undecided(s', fd) || Noticed(s', fd) {
      assert ConnShaped(s', fd, s'.conns[fd]);
      if fd in s.conns && s'.conns[fd] == s.conns[fd] {
        assert ConnShaped(s, fd, s.conns[fd]);
        assert Intact(s, fd) && (Undecided(s, fd) || Noticed(s, fd));
        if Attended(s, fd) {
          AttendedFrame(s, s', fd);
        }
      }
    }
  }

  /** Neither copy of an append changes what any intact ring reads as. */
  lemma CopyKeepsContents(s: State, a: Step, fd: int)
    requires Shaped(s) && Enabled(s, a) && (a.CopyFirst? || a.CopyRest?) && Shaped(Apply(s, a))
    requires fd in s.conns
    ensures
      var s' := Apply(s, a);
      && s' == s.(conns := s'.conns, reactor := s'.reactor) && s'.conns.Keys == s.conns.Keys
      && s'.conns[fd] == s.conns[fd].(mem := s'.conns[fd].mem)
      && ConnShaped(s, fd, s.conns[fd]) && ConnShaped(s', fd, s'.conns[fd])
      && (Intact(s, fd) ==> UnreadOf(s'.conns[fd]) == UnreadOf(s.conns[fd]))
      && s'.reactor.fd == s.reactor.fd && s'.reactor.published == s.reactor.published
      && (s'.reactor.CopyingRest? || s'.reactor.Publishing?)
  {
    var c := s.conns[fd];
    assert ConnShaped(s, fd, c);
    if fd == s.reactor.fd && Intact(s, fd) {
      CopyKeepsUnread(c.mem, c.head, c.tail, s.reactor.chunk, CircularSize(c.head, c.tail, s.capacity));
    }
  }

  lemma CopyKeepsNothingStranded(s: State, a: Step)
    requires Shaped(s) && Exclusive(s) && NothingStranded(s) && Enabled(s, a)
    requires a.CopyFirst? || a.CopyRest?
    ensures Shaped(Apply(s, a)) && NothingStranded(Apply(s, a))
  {
    KeepsShape(s, a);
    var s' := Apply(s, a);
    forall fd <- s'.conns | Intact(s', fd) ensures Undecided(s', fd) || Noticed(s', fd) {
      CopyKeepsContents(s, a, fd);
      assert Intact(s, fd) && (Undecided(s, fd) || Noticed(s, fd));
      if Attended(s, fd) {
        AttendedFrame(s, s', fd);
      }
    }
    forall v <- s'.workers | s'.workers[v].Decoding?
      ensures LookingAtCurrent(s', s'.workers[v].fd, s'.workers[v].end)
    {
      var fd := s.workers[v].fd;
      assert LookingAtCurrent(s, fd, s.workers[v].end);
      CopyKeepsContents(s, a, fd);
    }
  }

  lemma PublishKeepsNothingStranded(s: State)
    requires Shaped(s) && Exclusive(s) && NothingStranded(s) && Enabled(s, Publish)
    ensures Shaped(Apply(s, Publish)) && NothingStranded(Apply(s, Publish))
  {
    KeepsShape(s, Publish);
    var s' := Apply(s, Publish);
    forall fd <- s'.conns | Intact(s', fd) ensures Undecided(s', fd) || Noticed(s', fd) {
      assert ConnShaped(s, fd, s.conns[fd]) && ConnShaped(s', fd, s'.conns[fd]);
      if fd != s.reactor.fd {
        assert Intact(s, fd) && (Undecided(s, fd) || Noticed(s, fd));
        if Attended(s, fd) {
          AttendedFrame(s, s', fd);
        }
      }
    }
    forall v <- s'.workers | s'.workers[v].Decoding?
      ensures LookingAtCurrent(s', s'.workers[v].fd, s'.workers[v].end)
    {
      var fd := s.workers[v].fd;
      assert LookingAtCurrent(s, fd, s.workers[v].end);
      assert ConnShaped(s, fd, s.conns[fd]) && ConnShaped(s', fd, s'.conns[fd]);
    }
  }

  lemma LockKeepsNothingStranded(s: State, w: nat)
    requires Shaped(s) && Exclusive(s) && NothingStranded(s) && Enabled(s, LockBuffer(w))
    ensures Shaped(Apply(s, LockBuffer(w))) && NothingStranded(Apply(s, LockBuffer(w)))
  {
    hide Exclusive;
    KeepsShape(s, LockBuffer(w));
    var s' := Apply(s, LockBuffer(w));
    forall fd <- s'.conns | Intact(s', fd) ensures Undecided(s', fd) || Noticed(s', fd) {
      assert ConnShaped(s, fd, s.conns[fd]);
      assert Intact(s, fd) && (Undecided(s, fd) || Noticed(s, fd));
      if Attended(s, fd) {
        var v :| v in s.workers && Attends(s.workers[v], fd);
        assert Attends(s'.workers[v], fd);
      }
    }
  }

  lemma DecodeEffect(s: State, w: nat)
    requires Shaped(s) && Enabled(s, Decode(w))
    ensures
      var s' := Apply(s, Decode(w));
      var f := s.workers[w].fd;
      && s' == s.(conns := s'.conns, workers := s.workers[w := s'.workers[w]], extracted := s'.extracted)
      && s'.conns == s.conns[f := s.conns[f].(head := s'.conns[f].head)]
      && FdOf(s'.workers[w]) == Some(f) && !s'.workers[w].Decoding?
      && (s'.workers[w].Releasing? ==>
            s'.conns == s.conns && Extract(Unread(s.conns[f].mem, s.conns[f].head, s.workers[w].end)).Incomplete?)
  {
  }

  lemma DecodeKeepsNothingStranded(s: State, w: nat)
    requires Shaped(s) && Exclusive(s) && NothingStranded(s) && Enabled(s, Decode(w))
    ensures Shaped(Apply(s, Decode(w))) && NothingStranded(Apply(s, Decode(w)))
  {
    KeepsShape(s, Decode(w));
    DecodeEffect(s, w);
    var s' := Apply(s, Decode(w));
    var f := s.workers[w].fd;
    assert LookingAtCurrent(s, f, s.workers[w].end);
    forall fd <- s'.conns | Intact(s', fd) ensures Undecided(s', fd) || Noticed(s', fd) {
      DecodedStaysNoticed(s, s', w, fd);
    }
  }

  lemma DecodedStaysNoticed(s: State, s': State, w: nat, fd: int)
    requires Shaped(s) && NothingStranded(s) && w in s.workers && s.workers[w].Decoding?
    requires Shaped(s') && w in s'.workers
    requires
      var f := s.workers[w].fd;
      && s' == s.(conns := s'.conns, workers := s.workers[w := s'.workers[w]], extracted := s'.extracted)
      && f in s'.conns && s'.conns == s.conns[f := s.conns[f].(head := s'.conns[f].head)]
      && FdOf(s'.workers[w]) == Some(f)
      && (s'.workers[w].Releasing? ==>
            s'.conns == s.conns && Extract(Unread(s.conns[f].mem, s.conns[f].head, s.workers[w].end)).Incomplete?)
    requires fd in s'.conns && Intact(s', fd)
    ensures Undecided(s', fd) || Noticed(s', fd)
  {
    var f := s.workers[w].fd;
    assert LookingAtCurrent(s, f, s.workers[w].end);
    assert ConnShaped(s, fd, s.conns[fd]) && ConnShaped(s', fd, s'.conns[fd]);
    assert Intact(s, fd);
    if fd == f {
      if !s'.workers[w].Releasing? {
        assert Attends(s'.workers[w], fd);
      }
    } else if Attended(s, fd) {
      var v :| v in s.workers && Attends(s.workers[v], fd);
      assert Attends(s'.workers[v], fd);
    }
  }

  lemma {:induction false} KeepsNothingStranded(s: State, a: Step)
    requires Shaped(s) && Exclusive(s) && NothingStranded(s) && Enabled(s, a)
    ensures Shaped(Apply(s, a)) && NothingStranded(Apply(s, a))
  {
    KeepsShape(s, a);
    if a.Accept? || a.Readable? || a.EraseBuffer? {
      BufferMapKeepsNothingStranded(s, a);
    } else if a.CopyFirst? || a.CopyRest? {
      CopyKeepsNothingStranded(s, a);
    } else if a.Publish? {
      PublishKeepsNothingStranded(s);
    } else if a.LockBuffer? {
      LockKeepsNothingStranded(s, a.w);
    } else if a.Decode? {
      DecodeKeepsNothingStranded(s, a.w);
    } else {
      OtherStepsLeaveRings(s, a);
      OtherStepsStay(s, a);
      StrandedFrame(s, Apply(s, a));
    }
  }

  lemma OtherStepsLeaveRings(s: State, a: Step)
    requires Shaped(s) && NothingStranded(s) && Enabled(s, a)
    requires !a.Accept? && !a.Readable? && !a.EraseBuffer? && !a.CopyFirst? && !a.CopyRest? && !a.Publish?
    requires !a.LockBuffer? && !a.Decode?
    ensures
      var s' := Apply(s, a);
      && s'.conns == s.conns && s.streams.Keys <= s'.streams.Keys
      && (forall e <- s.streams :: s'.streams[e].filled == s.streams[e].filled)
      && (forall fd :: InWindow(s, fd) ==> InWindow(s', fd) || fd in s'.pending)
      && (s'.reactor.Clearing? ==> s'.reactor.fd !in s'.conns)
  {
    match a
    case Choose(w, fd) =>
    case Recv(_) =>
    case RecvWouldBlock =>
    case RecvFailed =>
    case ReadSize =>
    case AddFd(_) =>
    case Hangup(_) =>
    case ClearFd =>
    case Block(_) =>
    case WakeUp(_) =>
    case AddTask(_) =>
    case Release(_) =>
    case NotifyAll(_) =>
    case TakeTask =>
  }

  lemma OtherStepsStay(s: State, a: Step)
    requires Shaped(s) && NothingStranded(s) && Enabled(s, a)
    requires !a.Accept? && !a.Readable? && !a.EraseBuffer? && !a.CopyFirst? && !a.CopyRest? && !a.Publish?
    requires !a.LockBuffer? && !a.Decode?
    ensures
      var s' := Apply(s, a);
      && (forall fd <- s.pending :: fd in s'.pending || fd !in s.conns || (fd !in s.processing && Attended(s', fd)))
      && s'.workers.Keys == s.workers.Keys
      && (forall v <- s.workers :: StaysOn(s.workers[v], s'.workers[v]))
  {
    match a
    case Choose(w, fd) =>
      assert Attends(Apply(s, a).workers[w], fd);
    case Recv(_) =>
    case RecvWouldBlock =>
    case RecvFailed =>
    case ReadSize =>
    case AddFd(_) =>
    case Hangup(_) =>
    case ClearFd =>
    case Block(_) =>
    case WakeUp(_) =>
    case AddTask(_) =>
    case Release(_) =>
    case NotifyAll(_) =>
    case TakeTask =>
  }

  // ---------- no thread asleep while a descriptor waits ----------

  function Waiting(s: State): set<int> {
    s.pending - s.processing
  }

  /** Threads on their way to evaluate the wait predicate. */
  function Free(s: State): set<nat> {
    set w | w in s.workers && (s.workers[w].Choosing? || s.workers[w].Announcing?)
  }

  ghost predicate SomeBlocked(s: State) {
    exists w :: w in s.workers && s.workers[w] == Blocked
  }

  /** While a thread is blocked, every waiting descriptor has a free thread of its own. */
  ghost predicate WorkConserving(s: State) {
    SomeBlocked(s) ==> |Waiting(s)| <= |Free(s)|
  }

  lemma SmallerSet<T>(a: set<T>, b: set<T>)
    requires a <= b
    ensures |a| <= |b|
  {
    if a != b {
      assert b == a + (b - a);
    }
  }

  lemma ReactorKeepsWorkConserving(s: State, a: Step)
    requires Shaped(s) && WorkConserving(s) && Enabled(s, a) && OfReactor(a)
    ensures WorkConserving(Apply(s, a))
  {
    var s' := Apply(s, a);
    ReactorLeavesWorkers(s, a);
    assert Free(s') == Free(s);
    if SomeBlocked(s') {
      assert SomeBlocked(s);
    }
    PendingShrinks(s, a);
    SmallerSet(Waiting(s'), Waiting(s));
  }

  lemma PendingShrinks(s: State, a: Step)
    requires Shaped(s) && Enabled(s, a) && OfReactor(a)
    ensures Apply(s, a).pending <= s.pending
  {
  }

  lemma AddFdKeepsWorkConserving(s: State, woken: Option<nat>)
    requires Shaped(s) && WorkConserving(s) && Enabled(s, AddFd(woken))
    ensures WorkConserving(Apply(s, AddFd(woken)))
  {
    hide Shaped;
    var s' := Apply(s, AddFd(woken));
    if SomeBlocked(s') {
      var b :| b in s'.workers && s'.workers[b] == Blocked;
      assert s.workers[b] == Blocked;
      match woken
      case Some(w) =>
        assert Free(s') == Free(s) + {w} && w !in Free(s);
        SmallerSet(Waiting(s'), Waiting(s) + {s.reactor.fd});
      case None =>
        assert Free(s') == Free(s) && Waiting(s') == Waiting(s);
    }
  }

  lemma ChooseKeepsWorkConserving(s: State, w: nat, fd: int)
    requires Shaped(s) && WorkConserving(s) && Enabled(s, Choose(w, fd))
    ensures WorkConserving(Apply(s, Choose(w, fd)))
  {
    hide Shaped;
    var s' := Apply(s, Choose(w, fd));
    if SomeBlocked(s') {
      var b :| b in s'.workers && s'.workers[b] == Blocked;
      assert s.workers[b] == Blocked;
      assert Free(s') == Free(s) - {w};
      assert Waiting(s') == Waiting(s) - {fd};
    }
  }

  lemma ReleaseKeepsWorkConserving(s: State, w: nat)
    requires Shaped(s) && WorkConserving(s) && Enabled(s, Release(w))
    ensures WorkConserving(Apply(s, Release(w)))
  {
    hide Shaped;
    var s' := Apply(s, Release(w));
    if SomeBlocked(s') {
      var b :| b in s'.workers && s'.workers[b] == Blocked;
      assert s.workers[b] == Blocked;
      assert Free(s') == Free(s) + {w} && w !in Free(s);
      SmallerSet(Waiting(s'), Waiting(s) + {s.workers[w].fd});
    }
  }

  /** `notify_all` after a drain is not what keeps this up: it holds as well when the thread
      only goes on to look for the next descriptor itself. */
  lemma NotifyAllIsNotNeeded(s: State, w: nat)
    requires Shaped(s) && WorkConserving(s) && Enabled(s, NotifyAll(w))
    ensures WorkConserving(Move(s, w, Choosing))
  {
    hide Shaped;
    var s' := Move(s, w, Choosing);
    assert Free(s') == Free(s);
    assert Waiting(s') == Waiting(s);
    if SomeBlocked(s') {
      var b :| b in s'.workers && s'.workers[b] == Blocked;
      assert s.workers[b] == Blocked;
    }
  }

  lemma BusyStepKeepsWorkConserving(s: State, a: Step)
    requires Shaped(s) && WorkConserving(s) && Enabled(s, a)
    requires a.LockBuffer? || a.Decode? || a.AddTask?
    ensures WorkConserving(Apply(s, a))
  {
    hide Shaped;
    var s' := Apply(s, a);
    assert Free(s') == Free(s);
    assert Waiting(s') == Waiting(s);
    if SomeBlocked(s') {
      var b :| b in s'.workers && s'.workers[b] == Blocked;
      assert s.workers[b] == Blocked;
    }
  }

  lemma {:induction false} KeepsWorkConserving(s: State, a: Step)
    requires Shaped(s) && WorkConserving(s) && Enabled(s, a)
    ensures WorkConserving(Apply(s, a))
  {
    if OfReactor(a) {
      ReactorKeepsWorkConserving(s, a);
    } else {
      match a
      case AddFd(woken) => AddFdKeepsWorkConserving(s, woken);
      case Choose(w, fd) => ChooseKeepsWorkConserving(s, w, fd);
      case Release(w) => ReleaseKeepsWorkConserving(s, w);
      case Block(w) =>
        assert Waiting(Apply(s, a)) == {};
      case WakeUp(w) =>
        assert s.workers[w] == Blocked;
        assert Free(Apply(s, a)) == Free(s) + {w};
        assert Waiting(Apply(s, a)) == Waiting(s);
      case NotifyAll(w) =>
      case _ => BusyStepKeepsWorkConserving(s, a);
    }
  }

  /** The plain form: a waiting descriptor never faces only blocked threads. */
  lemma SomebodyIsAwake(s: State, fd: int)
    requires WorkConserving(s) && fd in Waiting(s) && s.workers != map[]
    ensures exists w :: w in s.workers && s.workers[w] != Blocked
  {
    if SomeBlocked(s) {
      SmallerSet({fd}, Waiting(s));
      var w :| w in Free(s);
      assert s.workers[w] != Blocked;
    } else {
      var w :| w in s.workers;
      assert s.workers[w] != Blocked;
    }
  }
}
