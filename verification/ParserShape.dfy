/** Every step keeps the shape of the state, in particular the single-producer,
    single-consumer discipline of an append that is under way. */
module ParserShape {
  import opened Framing
  import opened Ring
  import opened ParserProtocol

  lemma CapacityExceedsChunk(s: State)
    requires GoodCapacity(s.capacity)
    ensures RECV_CHUNK_SIZE < s.capacity
  {
  }

  lemma ReadSizeKeepsShape(s: State)
    requires Shaped(s) && Enabled(s, ReadSize)
    ensures Shaped(Apply(s, ReadSize))
  {
    CapacityExceedsChunk(s);
    assert ConnShaped(s, s.reactor.fd, s.conns[s.reactor.fd]);
  }

  /** A copy that leaves everything but the bytes of the reactor's ring alone. */
  lemma CopyKeepsShape(s: State, mem: seq<byte>, reactor: Reactor)
    requires Shaped(s) && (s.reactor.CopyingFirst? || s.reactor.CopyingRest?) && |mem| == s.capacity
    requires reactor.CopyingRest? || reactor.Publishing?
    requires reactor.fd == s.reactor.fd && reactor.chunk == s.reactor.chunk
    requires
      var c := s.conns[s.reactor.fd];
      var first := FirstPart(c.tail, reactor.chunk, s.capacity);
      if reactor.CopyingRest? then Slice(mem, c.tail, first) == reactor.chunk[..first]
      else |reactor.chunk| <= s.capacity && Slice(mem, c.tail, |reactor.chunk|) == reactor.chunk
    ensures Shaped(s.(conns := s.conns[s.reactor.fd := s.conns[s.reactor.fd].(mem := mem)], reactor := reactor))
  {
    var fd := s.reactor.fd;
    var c := s.conns[fd];
    var s' := s.(conns := s.conns[fd := c.(mem := mem)], reactor := reactor);
    assert ConnShaped(s, fd, c) && ConnShaped(s', fd, s'.conns[fd]);
    assert AppendInProgress(s, c, s.reactor);
  }

  lemma CopyFirstKeepsShape(s: State)
    requires Shaped(s) && Enabled(s, CopyFirst)
    ensures Shaped(Apply(s, CopyFirst))
  {
    CapacityExceedsChunk(s);
    var c := s.conns[s.reactor.fd];
    CopyStores(c.mem, c.tail, s.reactor.chunk);
    CopyKeepsShape(s, Apply(s, CopyFirst).conns[s.reactor.fd].mem, Apply(s, CopyFirst).reactor);
  }

  lemma CopyRestKeepsShape(s: State)
    requires Shaped(s) && Enabled(s, CopyRest)
    ensures Shaped(Apply(s, CopyRest))
  {
    CapacityExceedsChunk(s);
    var c := s.conns[s.reactor.fd];
    CopyStores(c.mem, c.tail, s.reactor.chunk);
    CopyKeepsShape(s, Apply(s, CopyRest).conns[s.reactor.fd].mem, Apply(s, CopyRest).reactor);
  }

  lemma PublishKeepsShape(s: State)
    requires Shaped(s) && Enabled(s, Publish)
    ensures Shaped(Apply(s, Publish))
  {
    CapacityExceedsChunk(s);
    assert ConnShaped(s, s.reactor.fd, s.conns[s.reactor.fd]);
  }

  /** Moving the head over bytes a thread has seen. */
  lemma HeadMoveKeepsShape(s: State, w: nat, pc: Worker, head: nat)
    requires Shaped(s) && w in s.workers && s.workers[w].Decoding? && !pc.Decoding?
    requires
      var c := s.conns[s.workers[w].fd];
      exists k: nat :: k <= CircularSize(c.head, s.workers[w].end, s.capacity) && head == Advance(c.head, k, s.capacity)
    ensures
      var f := s.workers[w].fd;
      Shaped(s.(conns := s.conns[f := s.conns[f].(head := head)], workers := s.workers[w := pc]))
  {
    var f := s.workers[w].fd;
    assert DecodeInProgress(s, f, s.workers[w].end);
    var s' := s.(conns := s.conns[f := s.conns[f].(head := head)], workers := s.workers[w := pc]);
    assert ConnShaped(s', f, s'.conns[f]);
  }

  lemma DecodeKeepsShape(s: State, w: nat)
    requires Shaped(s) && Enabled(s, Decode(w))
    ensures Shaped(Apply(s, Decode(w)))
  {
    var Decoding(f, end) := s.workers[w];
    var c := s.conns[f];
    assert DecodeInProgress(s, f, end);
    match Extract(Unread(c.mem, c.head, end))
    case Incomplete => ShapeFrame(s, Apply(s, Decode(w)));
    case Invalid =>
      HeadMoveKeepsShape(s, w, Locking(f), Advance(c.head, 1, s.capacity));
    case Frame(m, k) =>
      var head, t := Advance(c.head, k, s.capacity), Task(f, m, c.epoch);
      HeadMoveKeepsShape(s, w, Handing(t), head);
      ShapeFrame(
        s.(conns := s.conns[f := c.(head := head)], workers := s.workers[w := Handing(t)]), Apply(s, Decode(w)));
  }

  lemma BufferMapKeepsShape(s: State, a: Step)
    requires Shaped(s) && Enabled(s, a)
    requires a.Accept? || a.Readable? || a.EraseBuffer?
    ensures Shaped(Apply(s, a))
  {
  }

  /** Steps that touch no ring and start no decoding. */
  lemma ShapeFrame(s: State, s': State)
    requires Shaped(s)
    requires s'.capacity == s.capacity && s'.conns == s.conns && s'.streams == s.streams
    requires s'.nextEpoch == s.nextEpoch
    requires s'.reactor == s.reactor || s'.reactor.Polling? || s'.reactor.Erasing? || s'.reactor.Clearing?
             || ((s'.reactor.Receiving? || s'.reactor.Notifying?) && s'.reactor.fd in s.conns)
    requires forall w <- s'.workers :: s'.workers[w].Decoding? ==> w in s.workers && s.workers[w] == s'.workers[w]
    ensures Shaped(s')
  {
    forall w <- s'.workers | s'.workers[w].Decoding?
      ensures DecodeInProgress(s', s'.workers[w].fd, s'.workers[w].end)
    {
      assert DecodeInProgress(s, s.workers[w].fd, s.workers[w].end);
    }
    if s'.reactor.Sizing? || Appending(s'.reactor) {
      assert AppendInProgress(s, s.conns[s.reactor.fd], s.reactor);
    }
  }

  lemma LockKeepsShape(s: State, w: nat)
    requires Shaped(s) && Enabled(s, LockBuffer(w))
    ensures Shaped(Apply(s, LockBuffer(w)))
  {
    var s' := Apply(s, LockBuffer(w));
    forall v <- s'.workers | s'.workers[v].Decoding? ensures v == w {
    }
    var fd := s.workers[w].fd;
    if fd in s.conns {
      assert ConnShaped(s, fd, s.conns[fd]);
    }
  }

  lemma AppendKeepsShape(s: State, a: Step)
    requires Shaped(s) && Enabled(s, a) && (a.ReadSize? || a.CopyFirst? || a.CopyRest? || a.Publish?)
    ensures Shaped(Apply(s, a))
  {
    match a
    case ReadSize => ReadSizeKeepsShape(s);
    case CopyFirst => CopyFirstKeepsShape(s);
    case CopyRest => CopyRestKeepsShape(s);
    case Publish => PublishKeepsShape(s);
  }

  lemma RecvKeepsShape(s: State, chunk: seq<byte>)
    requires Shaped(s) && Enabled(s, Recv(chunk))
    ensures Shaped(Apply(s, Recv(chunk)))
  {
    assert ConnShaped(s, s.reactor.fd, s.conns[s.reactor.fd]);
  }

  lemma {:induction false} KeepsShape(s: State, a: Step)
    requires Shaped(s) && Enabled(s, a)
    ensures Shaped(Apply(s, a))
  {
    if Quiet(a) {
      QuietStep(s, a);
      ShapeFrame(s, Apply(s, a));
    } else if a.ReadSize? || a.CopyFirst? || a.CopyRest? || a.Publish? {
      AppendKeepsShape(s, a);
    } else if a.Accept? || a.Readable? || a.EraseBuffer? {
      BufferMapKeepsShape(s, a);
    } else {
      match a
      case Recv(chunk) => RecvKeepsShape(s, chunk);
      case Decode(w) => DecodeKeepsShape(s, w);
      case LockBuffer(w) => LockKeepsShape(s, w);
    }
  }

  predicate Quiet(a: Step) {
    a.RecvWouldBlock? || a.RecvFailed? || a.AddFd? || a.Hangup? || a.ClearFd? || a.Choose? || a.Block? || a.WakeUp?
    || a.AddTask? || a.Release? || a.NotifyAll? || a.TakeTask?
  }

  lemma QuietStep(s: State, a: Step)
    requires Shaped(s) && Enabled(s, a) && Quiet(a)
    ensures
      var s' := Apply(s, a);
      && s'.capacity == s.capacity && s'.conns == s.conns && s'.streams == s.streams && s'.nextEpoch == s.nextEpoch
      && (s'.reactor == s.reactor || s'.reactor.Polling? || s'.reactor.Erasing? || s'.reactor.Clearing?
          || ((s'.reactor.Receiving? || s'.reactor.Notifying?) && s'.reactor.fd in s.conns))
      && (forall w <- s'.workers :: s'.workers[w].Decoding? ==> w in s.workers && s.workers[w] == s'.workers[w])
  {
    match a
    case RecvWouldBlock =>
    case RecvFailed =>
    case AddFd(_) =>
    case Hangup(_) =>
    case ClearFd =>
    case Choose(_, _) =>
    case Block(_) =>
    case WakeUp(_) =>
    case AddTask(_) =>
    case Release(_) =>
    case NotifyAll(_) =>
    case TakeTask =>
  }
}
