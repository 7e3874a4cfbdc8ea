/** The case the stream theorems leave out is real: a ring filled to its last byte reads as
    empty, and everything in it is gone. */
module ParserOverfill {
  import opened Framing
  import opened Ring
  import opened Wrappers
  import opened ParserProtocol
  import opened ParserScheduling
  import opened ParserStream

  lemma Reach(s: State, a: Step)
    requires Reachable(s) && Enabled(s, a)
    ensures Shaped(s) && Reachable(Apply(s, a)) && Shaped(Apply(s, a))
  {
    hide Inv, Enabled, Apply, Init, Shaped;
    ReachableInv(s);
    KeepsInv(s, a);
    InvShaped(s);
    InvShaped(Apply(s, a));
    var s0, steps :| Init(s0) && Run(s0, steps, s);
    InitInv(s0);
    RunExtends(s0, steps, s, a);
  }

  /** What one read of `chunk` bytes leaves behind, whatever the memory then holds. */
  function Appended(s: State, fd: int, chunk: seq<byte>, mem: seq<byte>): State
    requires fd in s.conns && s.conns[fd].epoch in s.streams
    requires s.conns[fd].head < s.capacity && s.conns[fd].tail < s.capacity && |chunk| <= s.capacity
  {
    var c := s.conns[fd];
    var st := s.streams[c.epoch];
    var room := s.capacity - CircularSize(c.head, c.tail, s.capacity);
    s.(conns := s.conns[fd := c.(mem := mem, tail := Advance(c.tail, |chunk|, s.capacity))],
       streams := s.streams[c.epoch := st.(received := st.received + chunk, filled := st.filled || room == |chunk|,
                                           tight := st.tight || room == |chunk|)],
       reactor := Receiving(fd, true))
  }

  ghost predicate CanTake(s: State, fd: int, chunk: seq<byte>)
    requires Shaped(s)
  {
    && s.reactor.Receiving? && s.reactor.fd == fd && fd in s.conns && ConnShaped(s, fd, s.conns[fd])
    && 1 <= |chunk| <= RECV_CHUNK_SIZE
    && CircularSize(s.conns[fd].head, s.conns[fd].tail, s.capacity) + |chunk| <= s.capacity
  }

  lemma SizeTaken(s: State, chunk: seq<byte>)
    requires Shaped(s) && s.reactor.Receiving? && CanTake(s, s.reactor.fd, chunk)
    ensures
      var fd, p := s.reactor.fd, s.reactor.published;
      var s1 := s.(reactor := Sizing(fd, p, chunk));
      && Enabled(s, Recv(chunk)) && Apply(s, Recv(chunk)) == s1
      && (Shaped(s1) ==> Enabled(s1, ReadSize) && Apply(s1, ReadSize) == Guarded(s, fd, chunk))
  {
    hide Shaped;
  }

  /** The guard has admitted the chunk. */
  function Guarded(s: State, fd: int, chunk: seq<byte>): State
    requires fd in s.conns && s.conns[fd].epoch in s.streams && s.reactor.Receiving?
    requires s.conns[fd].head < s.capacity && s.conns[fd].tail < s.capacity
  {
    var c := s.conns[fd];
    var st := s.streams[c.epoch];
    var room := s.capacity - CircularSize(c.head, c.tail, s.capacity);
    s.(streams := s.streams[c.epoch := st.(tight := st.tight || room == |chunk|)],
       reactor := CopyingFirst(fd, s.reactor.published, chunk))
  }

  lemma Copied(s: State) returns (t: State)
    requires Reachable(s) && Shaped(s) && s.reactor.CopyingFirst? && s.reactor.fd in s.conns
    ensures Reachable(t) && Shaped(t) && s.reactor.fd in t.conns
    ensures
      var fd := s.reactor.fd;
      t == s.(conns := s.conns[fd := s.conns[fd].(mem := t.conns[fd].mem)],
              reactor := Publishing(fd, s.reactor.published, s.reactor.chunk))
  {
    Reach(s, CopyFirst);
    var s1 := Apply(s, CopyFirst);
    Reach(s1, CopyRest);
    hide Shaped, Reachable, Write;
    t := Apply(s1, CopyRest);
  }

  lemma Exposed(s: State, s': State, fd: int, chunk: seq<byte>)
    requires Shaped(s) && CanTake(s, fd, chunk) && Shaped(s') && fd in s'.conns
    requires s' == Guarded(s, fd, chunk).(conns := s.conns[fd := s.conns[fd].(mem := s'.conns[fd].mem)],
                                          reactor := Publishing(fd, s.reactor.published, chunk))
    ensures Enabled(s', Publish) && Apply(s', Publish) == Appended(s, fd, chunk, s'.conns[fd].mem)
  {
    hide Shaped;
  }

  /** The steps of one read that the guard admits, without a parser thread in between. */
  lemma TakeChunk(s: State, fd: int, chunk: seq<byte>) returns (t: State)
    requires Reachable(s) && Shaped(s) && CanTake(s, fd, chunk)
    ensures Reachable(t) && Shaped(t) && fd in t.conns && t == Appended(s, fd, chunk, t.conns[fd].mem)
  {
    SizeTaken(s, chunk);
    hide Shaped, Reachable, Enabled, Apply;
    Reach(s, Recv(chunk));
    var s1 := Apply(s, Recv(chunk));
    Reach(s1, ReadSize);
    var s2 := Copied(Guarded(s, fd, chunk));
    Exposed(s, s2, fd, chunk);
    Reach(s2, Publish);
    t := Apply(s2, Publish);
  }

  lemma Announced(s: State, fd: int)
    requires Shaped(s) && s.reactor == Receiving(fd, true) && fd in s.conns && s.workers == map[0 := Choosing]
    requires s.pending == {} && s.processing == {}
    ensures
      var s1 := s.(reactor := Notifying(fd, true));
      var s2 := s.(reactor := Polling, pending := {fd});
      && Enabled(s, RecvWouldBlock) && Apply(s, RecvWouldBlock) == s1
      && (Shaped(s1) ==> Enabled(s1, AddFd(None)) && Apply(s1, AddFd(None)) == s2)
      && (Shaped(s2) ==> Enabled(s2, Choose(0, fd))
                         && Apply(s2, Choose(0, fd)) == Taken(s, Locking(fd), {fd}))
  {
    hide Shaped;
    assert {} + {fd} == {fd} && {fd} - {fd} == {};
    assert s.workers[0 := Locking(fd)] == map[0 := Locking(fd)];
  }

  function Taken(s: State, pc: Worker, processing: set<int>): State {
    s.(reactor := Polling, workers := map[0 := pc], processing := processing)
  }

  lemma Looked(s: State, fd: int)
    requires Shaped(s) && fd in s.conns && ConnShaped(s, fd, s.conns[fd])
    requires s.conns[fd].head == s.conns[fd].tail && s.pending == {}
    ensures
      var s1, s2 := Taken(s, Locking(fd), {fd}), Taken(s, Decoding(fd, s.conns[fd].tail), {fd});
      var s3 := Taken(s, Releasing(fd), {fd});
      && (Shaped(s1) ==> Enabled(s1, LockBuffer(0)) && Apply(s1, LockBuffer(0)) == s2)
      && (Shaped(s2) ==> Enabled(s2, Decode(0)) && Apply(s2, Decode(0)) == s3)
      && (Shaped(s3) ==> Enabled(s3, Release(0)) && Apply(s3, Release(0)) == Taken(s, Announcing, {}))
  {
    hide Shaped;
    assert {fd} - {fd} == {};
    assert map[0 := Locking(fd)][0 := Decoding(fd, s.conns[fd].tail)] == map[0 := Decoding(fd, s.conns[fd].tail)];
    assert map[0 := Decoding(fd, s.conns[fd].tail)][0 := Releasing(fd)] == map[0 := Releasing(fd)];
    assert map[0 := Releasing(fd)][0 := Announcing] == map[0 := Announcing];
  }

  /** The reactor goes back to polling and the only parser thread finds nothing to decode. */
  lemma Settle(s: State, fd: int)
    requires Reachable(s) && Shaped(s) && s.reactor == Receiving(fd, true) && fd in s.conns
    requires ConnShaped(s, fd, s.conns[fd]) && s.conns[fd].head == s.conns[fd].tail
    requires s.pending == {} && s.processing == {} && s.workers == map[0 := Choosing]
    ensures Reachable(Taken(s, Announcing, {})) && Shaped(Taken(s, Announcing, {}))
  {
    Announced(s, fd);
    Looked(s, fd);
    hide Shaped, Reachable, Enabled, Apply, Taken;
    Reach(s, RecvWouldBlock);
    Reach(s.(reactor := Notifying(fd, true)), AddFd(None));
    Reach(s.(reactor := Polling, pending := {fd}), Choose(0, fd));
    Reach(Taken(s, Locking(fd), {fd}), LockBuffer(0));
    Reach(Taken(s, Decoding(fd, s.conns[fd].tail), {fd}), Decode(0));
    Reach(Taken(s, Releasing(fd), {fd}), Release(0));
  }

  /** A peer has connected and something can be read; there is one parser thread. */
  function Start(): State {
    State(RECV_BUFFER_SIZE, map[5 := Conn(0, seq(RECV_BUFFER_SIZE, _ => 0), 0, 0)],
          map[0 := Stream(5, [], false, false)], 1, Receiving(5, false),
          {}, {}, map[0 := Choosing], [], [], [])
  }

  lemma StartIsReachable()
    ensures Reachable(Start()) && Shaped(Start())
  {
    var s := State(RECV_BUFFER_SIZE, map[], map[], 0, Polling, {}, {}, map[0 := Choosing], [], [], []);
    assert Init(s) && Run(s, [], s);
    Reach(s, Readable(5));
    assert Apply(s, Readable(5)) == Start();
  }

  /** The state after some chunks from `Start`, as far as it matters. */
  ghost predicate After(s: State, received: seq<byte>) {
    && Reachable(s) && Shaped(s) && |received| <= RECV_BUFFER_SIZE
    && s.capacity == RECV_BUFFER_SIZE && 5 in s.conns && s.streams.Keys == {0}
    && s.conns[5].epoch == 0 && s.conns[5].head == 0
    && s.conns[5].tail == |received| % RECV_BUFFER_SIZE
    && s.streams[0].received == received && s.streams[0].filled == (|received| == RECV_BUFFER_SIZE)
    && s.reactor.Receiving? && s.reactor.fd == 5 && (received != [] ==> s.reactor.published)
    && s.pending == {} && s.processing == {} && s.workers == map[0 := Choosing]
    && s.queue == [] && s.dequeued == []
  }

  lemma TakeNext(s: State, received: seq<byte>, chunk: seq<byte>) returns (t: State)
    requires After(s, received) && 1 <= |chunk| <= RECV_CHUNK_SIZE && |received| + |chunk| <= RECV_BUFFER_SIZE
    requires |received| < RECV_BUFFER_SIZE
    ensures After(t, received + chunk)
  {
    assert ConnShaped(s, 5, s.conns[5]);
    t := TakeChunk(s, 5, chunk);
  }

  /** Four reads of 65536 bytes with no parser thread in between, here of four whole messages:
      the guard admits them all, and then the connection is at rest with nothing queued,
      nothing to decode, and nothing said. */
  lemma FullRingLosesEverything(ms: seq<Message>)
    requires |ms| == 4 && forall m <- ms :: |m| == RECV_CHUNK_SIZE - HEADER_SIZE
    ensures exists s: State ::
              && Reachable(s) && Shaped(s) && 5 in s.conns && s.conns[5].epoch == 0 && 0 in s.streams
              && s.streams[0].received == EncodeAll(ms)
              && s.reactor == Polling && s.pending == {} && s.processing == {}
              && s.queue == [] && s.dequeued == []
              && s.conns[5].head == s.conns[5].tail && s.streams[0].filled
  {
    FourEncodings(ms);
    StartIsReachable();
    hide After, Encode, EncodeAll;
    var a, b, c, d := Encode(ms[0]), Encode(ms[1]), Encode(ms[2]), Encode(ms[3]);
    StartIsAfterNothing();
    var s1 := TakeNext(Start(), [], a);
    var s2 := TakeNext(s1, [] + a, b);
    var s3 := TakeNext(s2, [] + a + b, c);
    var s4 := TakeNext(s3, [] + a + b + c, d);
    var t := SettleAfter(s4, [] + a + b + c + d);
  }

  lemma StartIsAfterNothing()
    ensures After(Start(), [])
  {
    StartIsReachable();
  }

  lemma FourEncodings(ms: seq<Message>)
    requires |ms| == 4 && forall m <- ms :: |m| == RECV_CHUNK_SIZE - HEADER_SIZE
    ensures forall i :: 0 <= i < 4 ==> |Encode(ms[i])| == RECV_CHUNK_SIZE
    ensures EncodeAll(ms) == [] + Encode(ms[0]) + Encode(ms[1]) + Encode(ms[2]) + Encode(ms[3])
  {
    forall i | 0 <= i < 4 ensures |Encode(ms[i])| == RECV_CHUNK_SIZE {
      assert ms[i] in ms;
    }
    hide Encode, EncodeAll;
    EncodeAllFirst(ms[3], []);
    EncodeAllFirst(ms[2], [ms[3]] + []);
    EncodeAllFirst(ms[1], [ms[2]] + ([ms[3]] + []));
    EncodeAllFirst(ms[0], [ms[1]] + ([ms[2]] + ([ms[3]] + [])));
    assert ms == [ms[0]] + ([ms[1]] + ([ms[2]] + ([ms[3]] + [])));
    NothingEncoded();
    FromTheLeft(Encode(ms[0]), Encode(ms[1]), Encode(ms[2]), Encode(ms[3]));
  }

  lemma NothingEncoded()
    ensures EncodeAll([]) == []
  {
  }

  lemma FromTheLeft(a: seq<byte>, b: seq<byte>, c: seq<byte>, d: seq<byte>)
    ensures a + (b + (c + (d + []))) == [] + a + b + c + d
  {
  }

  lemma SettleAfter(s: State, received: seq<byte>) returns (t: State)
    requires After(s, received) && |received| == RECV_BUFFER_SIZE
    ensures Reachable(t) && Shaped(t) && t.conns == s.conns && t.streams == s.streams
    ensures 5 in t.conns && t.conns[5].epoch == 0 && 0 in t.streams && t.streams[0].received == received
    ensures t.reactor == Polling && t.pending == {} && t.processing == {} && t.queue == [] && t.dequeued == []
    ensures t.conns[5].head == t.conns[5].tail && t.streams[0].filled
  {
    assert ConnShaped(s, 5, s.conns[5]);
    Settle(s, 5);
    t := Taken(s, Announcing, {});
  }
}
