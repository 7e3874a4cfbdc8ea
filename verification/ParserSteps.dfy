/** What the single steps of the parser protocol are for: besides keeping the invariant they
    do not drop connections, close for no reason, or stand still. */
module ParserSteps {
  import opened Framing
  import opened Ring
  import opened Wrappers
  import opened ParserProtocol
  import opened ParserShape

  /** A connection lives until it is accepted anew or closed; no readiness event, read or drain
      replaces its ring. */
  lemma ConnectionStays(s: State, a: Step, fd: int)
    requires Shaped(s) && Enabled(s, a) && fd in s.conns
    requires a != Accept(fd) && !(a.EraseBuffer? && s.reactor.fd == fd)
    ensures
      var s' := Apply(s, a);
      && fd in s'.conns && s'.conns[fd].epoch == s.conns[fd].epoch && s.conns[fd].epoch in s.streams
      && s.conns[fd].epoch in s'.streams
      && s.streams[s.conns[fd].epoch].received <= s'.streams[s.conns[fd].epoch].received
  {
    assert ConnShaped(s, fd, s.conns[fd]);
  }

  /** A new connection starts from nothing. */
  lemma ConnectionStartsAnew(s: State, a: Step, fd: int)
    requires Shaped(s) && Enabled(s, a) && (a == Accept(fd) || (a == Readable(fd) && fd !in s.conns))
    ensures
      var s' := Apply(s, a);
      && fd in s'.conns && s'.conns[fd].head == s'.conns[fd].tail
      && s'.conns[fd].epoch !in s.streams && s'.conns[fd].epoch in s'.streams
      && s'.streams[s'.conns[fd].epoch] == Stream(fd, [], false, false)
  {
  }

  /** The guard closes exactly when the chunk does not fit. */
  lemma GuardIsExact(s: State)
    requires Shaped(s) && s.reactor.Sizing?
    ensures
      var s', fd := Apply(s, ReadSize), s.reactor.fd;
      && fd in s.conns && ConnShaped(s, fd, s.conns[fd]) && s'.conns == s.conns && s'.reactor.fd == fd
      && (s'.reactor.Erasing? <==> |UnreadOf(s.conns[fd])| + |s.reactor.chunk| > s.capacity)
      && (!s'.reactor.Erasing? ==> s'.reactor == CopyingFirst(fd, s.reactor.published, s.reactor.chunk))
  {
    assert ConnShaped(s, s.reactor.fd, s.conns[s.reactor.fd]);
  }

  /** How a readiness event ends, and what is taken in is what was received. */
  lemma EventEnds(s: State)
    requires Shaped(s) && s.reactor.Receiving?
    ensures Apply(s, RecvWouldBlock) == s.(reactor := Notifying(s.reactor.fd, s.reactor.published))
    ensures Apply(s, RecvFailed) == s.(reactor := Erasing(s.reactor.fd, s.reactor.published))
    ensures forall chunk :: Enabled(s, Recv(chunk)) ==>
              Apply(s, Recv(chunk)) == s.(reactor := Sizing(s.reactor.fd, s.reactor.published, chunk))
  {
  }

  /** Closing removes the ring first and the announcement after it, and does nothing twice. */
  lemma ClosingIsComplete(s: State)
    requires Shaped(s) && s.reactor.Erasing? && Enabled(s, EraseBuffer)
    ensures
      var s1, fd := Apply(s, EraseBuffer), s.reactor.fd;
      if fd in s.conns then
        && s1 == s.(conns := s.conns - {fd}, reactor := Clearing(fd))
        && (Shaped(s1) ==> Enabled(s1, ClearFd)
                           && Apply(s1, ClearFd) == s1.(pending := s.pending - {fd}, reactor := Polling))
      else s1 == s.(reactor := Polling)
    ensures forall fd :: Enabled(s.(reactor := Polling), Hangup(fd))
  {
  }

  /** A thread that looks at a ring does what the drain loop does: takes the first message and
      its bytes out, drops one byte, or lets go, deciding on the tail it has read. */
  lemma LookingMovesOn(s: State, w: nat)
    requires Shaped(s) && Enabled(s, Decode(w))
    ensures
      var s', f, end := Apply(s, Decode(w)), s.workers[w].fd, s.workers[w].end;
      && f in s.conns && ConnShaped(s, f, s.conns[f]) && end < s.capacity
      && f in s'.conns && s'.conns[f].head < |s'.conns[f].mem| && |s'.conns[f].mem| == s.capacity
      && var seen := Unread(s.conns[f].mem, s.conns[f].head, end);
         var left := Unread(s'.conns[f].mem, s'.conns[f].head, end);
         match Extract(seen)
         case Incomplete => s'.workers[w] == Releasing(f) && left == seen
         case Invalid => s'.workers[w] == Locking(f) && left == seen[1..]
         case Frame(m, k) => s'.workers[w] == Handing(Task(f, m, s.conns[f].epoch)) && left == seen[k..]
  {
    var f, end := s.workers[w].fd, s.workers[w].end;
    assert DecodeInProgress(s, f, end);
    var c := s.conns[f];
    match Extract(Unread(c.mem, c.head, end))
    case Incomplete =>
    case Invalid => ConsumeContents(c.mem, c.head, end, 1);
    case Frame(_, k) => ConsumeContents(c.mem, c.head, end, k);
  }

  /** And goes on from there: the task behind the others, then the ring again; a thread that has
      let go looks for the next descriptor. */
  lemma ThreadGoesOn(s: State, w: nat)
    requires Shaped(s) && w in s.workers
    ensures s.workers[w].Handing? ==>
              Apply(s, AddTask(w)) ==
              s.(queue := s.queue + [s.workers[w].task], workers := s.workers[w := Locking(s.workers[w].task.fd)])
    ensures s.workers[w].Releasing? ==>
              Apply(s, Release(w)) ==
              s.(processing := s.processing - {s.workers[w].fd}, workers := s.workers[w := Announcing])
    ensures Enabled(s, LockBuffer(w)) && s.workers[w].fd in s.conns ==>
              Apply(s, LockBuffer(w)).workers[w] == Decoding(s.workers[w].fd, s.conns[s.workers[w].fd].tail)
    ensures Enabled(s, LockBuffer(w)) && s.workers[w].fd !in s.conns ==>
              Apply(s, LockBuffer(w)).workers[w] == Releasing(s.workers[w].fd)
    ensures s.workers[w].Announcing? ==>
              var s' := Apply(s, NotifyAll(w));
              && s'.workers.Keys == s.workers.Keys && s'.workers[w] == Choosing
              && forall v <- s.workers | v != w ::
                   s'.workers[v] == if s.workers[v] == Blocked then Choosing else s.workers[v]
  {
  }

  /** The worker pool takes the oldest task. */
  lemma TakingATask(s: State)
    requires Shaped(s) && Enabled(s, TakeTask)
    ensures
      var s' := Apply(s, TakeTask);
      && s'.dequeued + s'.queue == s.dequeued + s.queue && |s'.queue| == |s.queue| - 1
      && s' == s.(dequeued := s'.dequeued, queue := s'.queue)
  {
  }
}
