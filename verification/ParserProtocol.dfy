/** The reactor, the parser threads and the hand-over queue as one transition system.

    Every step is one atomic action of one thread: a critical section under
    `_buffer_mutex` or the pool's `_mutex`, one read or write of a shared index, one
    `memcpy`. The reactor appends without the buffer mutex, so its size reading, its two
    copies and its tail update are separate steps, and a parser thread reads the tail
    first and decodes later with that possibly old value.

    `streams`, `extracted`, `dequeued` and the epochs are history: they record what
    happened and no step reads them to decide anything. An epoch is one lifetime of one
    descriptor, since descriptor numbers are reused. */
module ParserProtocol {
  import opened Framing
  import opened Ring
  import opened Wrappers

  datatype Conn = Conn(epoch: nat, mem: seq<byte>, head: nat, tail: nat)

  /** Everything ever published to one connection; `filled` once a publish made the tail
      meet the head, `tight` once the guard let a chunk through with no byte to spare. */
  datatype Stream = Stream(fd: int, received: seq<byte>, filled: bool, tight: bool)

  datatype Task = Task(fd: int, message: Message, epoch: nat)

  /** Where the reactor thread is. `published` says whether the current event has moved
      the tail already. */
  datatype Reactor =
    | Polling
    | Receiving(fd: int, published: bool)
    | Sizing(fd: int, published: bool, chunk: seq<byte>)
    | CopyingFirst(fd: int, published: bool, chunk: seq<byte>)
    | CopyingRest(fd: int, published: bool, chunk: seq<byte>)
    | Publishing(fd: int, published: bool, chunk: seq<byte>)
    | Notifying(fd: int, published: bool)
    | Erasing(fd: int, published: bool)
    | Clearing(fd: int)

  /** Where a parser thread is. `Decoding` holds the buffer mutex. */
  datatype Worker =
    | Choosing
    | Blocked
    | Locking(fd: int)
    | Decoding(fd: int, end: nat)
    | Handing(task: Task)
    | Releasing(fd: int)
    | Announcing

  datatype State = State(
    capacity: nat,
    conns: map<int, Conn>,
    streams: map<nat, Stream>,
    nextEpoch: nat,
    reactor: Reactor,
    pending: set<int>,
    processing: set<int>,
    workers: map<nat, Worker>,
    queue: seq<Task>,
    dequeued: seq<Task>,
    extracted: seq<Task>)

  datatype Step =
    | Accept(fd: int)
    | Readable(fd: int)
    | Recv(chunk: seq<byte>)
    | RecvWouldBlock
    | RecvFailed
    | ReadSize
    | CopyFirst
    | CopyRest
    | Publish
    | AddFd(woken: Option<nat>)
    | Hangup(fd: int)
    | EraseBuffer
    | ClearFd
    | Choose(w: nat, fd: int)
    | Block(w: nat)
    | WakeUp(w: nat)
    | LockBuffer(w: nat)
    | Decode(w: nat)
    | AddTask(w: nat)
    | Release(w: nat)
    | NotifyAll(w: nat)
    | TakeTask

  // ---------- vocabulary ----------

  /** The descriptor a thread has taken out of `pending` and not put back. */
  function FdOf(pc: Worker): Option<int> {
    match pc
    case Locking(fd) => Some(fd)
    case Decoding(fd, _) => Some(fd)
    case Handing(t) => Some(t.fd)
    case Releasing(fd) => Some(fd)
    case _ => None
  }

  /** The buffer mutex is free exactly when nobody is decoding. */
  predicate BufferMutexFree(s: State) {
    forall w <- s.workers :: !s.workers[w].Decoding?
  }

  function UnreadOf(c: Conn): seq<byte>
    requires c.head < |c.mem| && c.tail < |c.mem|
  {
    Unread(c.mem, c.head, c.tail)
  }

  ghost predicate Init(s: State) {
    && GoodCapacity(s.capacity)
    && s.conns == map[] && s.streams == map[] && s.nextEpoch == 0
    && s.reactor == Polling
    && s.pending == {} && s.processing == {}
    && (forall w <- s.workers :: s.workers[w] == Choosing)
    && s.queue == [] && s.dequeued == [] && s.extracted == []
  }

  // ---------- when a step can happen ----------

  ghost predicate Enabled(s: State, a: Step) {
    match a
    case Accept(_) => s.reactor.Polling? && BufferMutexFree(s)
    case Readable(_) => s.reactor.Polling? && BufferMutexFree(s)
    case Recv(chunk) => s.reactor.Receiving? && 1 <= |chunk| <= RECV_CHUNK_SIZE
    case RecvWouldBlock => s.reactor.Receiving?
    case RecvFailed => s.reactor.Receiving?
    case ReadSize => s.reactor.Sizing?
    case CopyFirst => s.reactor.CopyingFirst?
    case CopyRest => s.reactor.CopyingRest?
    case Publish => s.reactor.Publishing?
    case AddFd(woken) => s.reactor.Notifying? && LegalWakeup(s, woken)
    case Hangup(_) => s.reactor.Polling?
    case EraseBuffer => s.reactor.Erasing? && BufferMutexFree(s)
    case ClearFd => s.reactor.Clearing?
    case Choose(w, fd) => At(s, w, Choosing) && fd in s.pending && fd !in s.processing
    case Block(w) => At(s, w, Choosing) && s.pending <= s.processing
    case WakeUp(w) => At(s, w, Blocked)
    case LockBuffer(w) => w in s.workers && s.workers[w].Locking? && BufferMutexFree(s)
    case Decode(w) => w in s.workers && s.workers[w].Decoding?
    case AddTask(w) => w in s.workers && s.workers[w].Handing?
    case Release(w) => w in s.workers && s.workers[w].Releasing?
    case NotifyAll(w) => At(s, w, Announcing)
    case TakeTask => s.queue != []
  }

  predicate At(s: State, w: nat, pc: Worker) {
    w in s.workers && s.workers[w] == pc
  }

  /** `notify_one` is called only when the insertion was new, and then wakes one blocked
      thread if there is any. */
  ghost predicate LegalWakeup(s: State, woken: Option<nat>)
    requires s.reactor.Notifying?
  {
    match woken
    case Some(w) => s.reactor.fd !in s.pending && At(s, w, Blocked)
    case None => s.reactor.fd in s.pending || forall w <- s.workers :: s.workers[w] != Blocked
  }

  // ---------- what a step does ----------

  function NewConn(s: State, fd: int): State {
    s.(conns := s.conns[fd := Conn(s.nextEpoch, seq(s.capacity, _ => 0), 0, 0)],
       streams := s.streams[s.nextEpoch := Stream(fd, [], false, false)],
       nextEpoch := s.nextEpoch + 1)
  }

  /** The guard of the append: one reading of the occupancy. */
  function DoReadSize(s: State): State
    requires Shaped(s) && s.reactor.Sizing?
  {
    var Sizing(fd, published, chunk) := s.reactor;
    var c := s.conns[fd];
    var available := s.capacity - CircularSize(c.head, c.tail, s.capacity);
    if available < |chunk| then s.(reactor := Erasing(fd, published))
    else
      var st := s.streams[c.epoch];
      s.(reactor := CopyingFirst(fd, published, chunk),
         streams := s.streams[c.epoch := st.(tight := st.tight || available == |chunk|)])
  }

  function DoCopyFirst(s: State): State
    requires Shaped(s) && s.reactor.CopyingFirst?
  {
    var CopyingFirst(fd, published, chunk) := s.reactor;
    var c := s.conns[fd];
    var first := FirstPart(c.tail, chunk, s.capacity);
    s.(conns := s.conns[fd := c.(mem := Write(c.mem, c.tail, chunk[..first]))],
       reactor := CopyingRest(fd, published, chunk))
  }

  function DoCopyRest(s: State): State
    requires Shaped(s) && s.reactor.CopyingRest?
  {
    var CopyingRest(fd, published, chunk) := s.reactor;
    var c := s.conns[fd];
    var first := FirstPart(c.tail, chunk, s.capacity);
    s.(conns := s.conns[fd := c.(mem := Write(c.mem, 0, chunk[first..]))],
       reactor := Publishing(fd, published, chunk))
  }

  function DoPublish(s: State): State
    requires Shaped(s) && s.reactor.Publishing?
  {
    var Publishing(fd, _, chunk) := s.reactor;
    var c := s.conns[fd];
    var st := s.streams[c.epoch];
    var full := CircularSize(c.head, c.tail, s.capacity) + |chunk| == s.capacity;
    s.(conns := s.conns[fd := c.(tail := Advance(c.tail, |chunk|, s.capacity))],
       streams := s.streams[c.epoch := st.(received := st.received + chunk, filled := st.filled || full)],
       reactor := Receiving(fd, true))
  }

  function DoAddFd(s: State, woken: Option<nat>): State
    requires s.reactor.Notifying?
  {
    s.(pending := s.pending + {s.reactor.fd},
       workers := if woken.Some? then s.workers[woken.value := Choosing] else s.workers,
       reactor := Polling)
  }

  function DoEraseBuffer(s: State): State
    requires s.reactor.Erasing?
  {
    var fd := s.reactor.fd;
    if fd in s.conns then s.(conns := s.conns - {fd}, reactor := Clearing(fd))
    else s.(reactor := Polling)
  }

  function Move(s: State, w: nat, pc: Worker): State {
    s.(workers := s.workers[w := pc])
  }

  function DoLockBuffer(s: State, w: nat): State
    requires w in s.workers && s.workers[w].Locking?
  {
    var fd := s.workers[w].fd;
    if fd in s.conns then Move(s, w, Decoding(fd, s.conns[fd].tail))
    else Move(s, w, Releasing(fd))
  }

  /** One call of the circular decoder with the tail read earlier, and the release of the
      buffer mutex. */
  function DoDecode(s: State, w: nat): State
    requires Shaped(s) && w in s.workers && s.workers[w].Decoding?
  {
    var Decoding(fd, end) := s.workers[w];
    var c := s.conns[fd];
    match Extract(Unread(c.mem, c.head, end))
    case Incomplete => Move(s, w, Releasing(fd))
    case Invalid =>
      Move(s, w, Locking(fd)).(conns := s.conns[fd := c.(head := Advance(c.head, 1, s.capacity))])
    case Frame(m, consumed) =>
      var t := Task(fd, m, c.epoch);
      Move(s, w, Handing(t)).(
        conns := s.conns[fd := c.(head := Advance(c.head, consumed, s.capacity))],
        extracted := s.extracted + [t])
  }

  function DoRelease(s: State, w: nat): State
    requires w in s.workers && s.workers[w].Releasing?
  {
    Move(s, w, Announcing).(processing := s.processing - {s.workers[w].fd})
  }

  function DoNotifyAll(s: State, w: nat): State {
    s.(workers := map v | v in s.workers ::
         if v == w || s.workers[v] == Blocked then Choosing else s.workers[v])
  }

  function Apply(s: State, a: Step): State
    requires Shaped(s) && Enabled(s, a)
  {
    match a
    case Accept(fd) => NewConn(s, fd)
    case Readable(fd) =>
      (if fd in s.conns then s else NewConn(s, fd)).(reactor := Receiving(fd, false))
    case Recv(chunk) => s.(reactor := Sizing(s.reactor.fd, s.reactor.published, chunk))
    case RecvWouldBlock => s.(reactor := Notifying(s.reactor.fd, s.reactor.published))
    case RecvFailed => s.(reactor := Erasing(s.reactor.fd, s.reactor.published))
    case ReadSize => DoReadSize(s)
    case CopyFirst => DoCopyFirst(s)
    case CopyRest => DoCopyRest(s)
    case Publish => DoPublish(s)
    case AddFd(woken) => DoAddFd(s, woken)
    case Hangup(fd) => s.(reactor := Erasing(fd, false))
    case EraseBuffer => DoEraseBuffer(s)
    case ClearFd => s.(pending := s.pending - {s.reactor.fd}, reactor := Polling)
    case Choose(w, fd) =>
      Move(s, w, Locking(fd)).(pending := s.pending - {fd}, processing := s.processing + {fd})
    case Block(w) => Move(s, w, Blocked)
    case WakeUp(w) => Move(s, w, Choosing)
    case LockBuffer(w) => DoLockBuffer(s, w)
    case Decode(w) => DoDecode(s, w)
    case AddTask(w) => Move(s, w, Locking(s.workers[w].task.fd)).(queue := s.queue + [s.workers[w].task])
    case Release(w) => DoRelease(s, w)
    case NotifyAll(w) => DoNotifyAll(s, w)
    case TakeTask => s.(dequeued := s.dequeued + [s.queue[0]], queue := s.queue[1..])
  }

  // ---------- shape ----------

  ghost predicate ConnShaped(s: State, fd: int, c: Conn) {
    && |c.mem| == s.capacity && c.head < s.capacity && c.tail < s.capacity
    && c.epoch in s.streams && s.streams[c.epoch].fd == fd
  }

  predicate HandlingData(r: Reactor) {
    r.Receiving? || r.Sizing? || r.CopyingFirst? || r.CopyingRest? || r.Publishing? || r.Notifying?
  }

  predicate Appending(r: Reactor) {
    r.CopyingFirst? || r.CopyingRest? || r.Publishing?
  }

  /** The single-producer, single-consumer discipline of the ring: whatever the parser
      threads did since the size was read, the chunk still fits into the free part, and
      the bytes copied so far are where the tail update will expose them. */
  ghost predicate AppendInProgress(s: State, c: Conn, r: Reactor)
    requires (r.Sizing? || Appending(r)) && ConnShaped(s, r.fd, c) && GoodCapacity(s.capacity)
  {
    && 1 <= |r.chunk| <= RECV_CHUNK_SIZE
    && (Appending(r) && !s.streams[c.epoch].filled ==>
          CircularSize(c.head, c.tail, s.capacity) + |r.chunk| <= s.capacity)
    && (Appending(r) && !s.streams[c.epoch].tight ==>
          CircularSize(c.head, c.tail, s.capacity) + |r.chunk| < s.capacity)
    && (r.CopyingRest? ==>
          var first := FirstPart(c.tail, r.chunk, s.capacity);
          Slice(c.mem, c.tail, first) == r.chunk[..first])
    && (r.Publishing? ==> Slice(c.mem, c.tail, |r.chunk|) == r.chunk)
  }

  /** The tail a parser thread has read can only lag behind the real one. */
  ghost predicate DecodeInProgress(s: State, fd: int, end: nat)
  {
    && fd in s.conns && end < s.capacity
    && var c := s.conns[fd];
       && ConnShaped(s, fd, c)
       && (!s.streams[c.epoch].filled ==>
             CircularSize(c.head, end, s.capacity) <= CircularSize(c.head, c.tail, s.capacity))
  }

  ghost predicate Shaped(s: State) {
    && GoodCapacity(s.capacity)
    && (forall e <- s.streams :: e < s.nextEpoch)
    && (forall e <- s.streams :: s.streams[e].filled ==> s.streams[e].tight)
    && (forall fd <- s.conns :: ConnShaped(s, fd, s.conns[fd]))
    && (HandlingData(s.reactor) ==> s.reactor.fd in s.conns)
    && (s.reactor.Sizing? || Appending(s.reactor) ==>
          AppendInProgress(s, s.conns[s.reactor.fd], s.reactor))
    && (forall w <- s.workers :: s.workers[w].Decoding? ==> DecodeInProgress(s, s.workers[w].fd, s.workers[w].end))
    && (forall v, w :: v in s.workers && w in s.workers && s.workers[v].Decoding? && s.workers[w].Decoding? ==> v == w)
  }
}
