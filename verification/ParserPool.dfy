/** The in-place operations around one ring: the reactor's receive loop, the parser's
    drain loop, and the critical sections of the parser pool. */
module ParserPool {
  import opened Framing
  import opened Ring
  import opened Wrappers
  import P = ParserProtocol

  datatype ClientTask = ClientTask(fd: int, message: Message)

  function Messages(tasks: seq<ClientTask>): (r: seq<Message>)
    ensures |r| == |tasks|
  {
    seq(|tasks|, i requires 0 <= i < |tasks| => tasks[i].message)
  }

  // ---------- the drain loop ----------

  lemma NothingMore(extracted: seq<Message>, unread: seq<byte>, received: seq<byte>)
    requires Accounts(extracted, unread, received) && Extract(unread).Incomplete?
    ensures extracted == Parse(received).messages && unread == Parse(received).residue
  {
    assert extracted + [] == extracted;
  }

  /** One turn of the drain loop under the buffer mutex: decode, or drop one byte. */
  method DecodeOrSkip(buf: ClientBuffer, ghost extracted: seq<Message>, ghost start: seq<byte>)
    returns (consumed: int, message: Message)
    requires buf.Valid() && Accounts(extracted, buf.Contents(), start)
    modifies buf`head
    ensures buf.Valid()
    ensures consumed == Code(Extract(old(buf.Contents())))
    ensures consumed == -1 ==> Extract(buf.Contents()).Incomplete?
    ensures consumed < 0 ==> Accounts(extracted, buf.Contents(), start)
    ensures consumed > 0 ==> Accounts(extracted + [message], buf.Contents(), start)
    ensures consumed != -1 ==> |buf.Contents()| < |old(buf.Contents())|
  {
    ghost var before := buf.Contents();
    AccountsExtract(extracted, before, start, before);
    consumed, message := buf.ExtractMessageCircular(buf.tail);
    if consumed == -2 {
      buf.SkipByte();
    }
  }

  lemma MessagesAppend(tasks: seq<ClientTask>, t: ClientTask)
    ensures Messages(tasks + [t]) == Messages(tasks) + [t.message]
  {
  }

  /** The loop itself: it ends with an undecided rest. */
  method Drain(fd: int, buf: ClientBuffer) returns (tasks: seq<ClientTask>)
    requires buf.Valid()
    modifies buf`head
    ensures buf.Valid() && Extract(buf.Contents()).Incomplete?
    ensures Accounts(Messages(tasks), buf.Contents(), old(buf.Contents()))
    ensures forall t <- tasks :: t.fd == fd
  {
    tasks := [];
    ghost var start := buf.Contents();
    ghost var extracted: seq<Message> := [];
    AccountsNothing(start);
    while true
      invariant buf.Valid() && extracted == Messages(tasks)
      invariant Accounts(extracted, buf.Contents(), start)
      invariant forall t <- tasks :: t.fd == fd
      decreases |buf.Contents()|
    {
      var consumed, message := DecodeOrSkip(buf, extracted, start);
      if consumed == -1 {
        return;
      } else if consumed != -2 {
        MessagesAppend(tasks, ClientTask(fd, message));
        tasks := tasks + [ClientTask(fd, message)];
        extracted := extracted + [message];
      }
    }
  }

  /** `processBuffer` without concurrent appends: it ends, queues the messages of the ring
      under its descriptor in order, and leaves the undecided rest. */
  method ProcessBuffer(fd: int, buf: ClientBuffer) returns (tasks: seq<ClientTask>)
    requires buf.Valid()
    modifies buf`head
    ensures buf.Valid()
    ensures Messages(tasks) == Parse(old(buf.Contents())).messages
    ensures forall t <- tasks :: t.fd == fd
    ensures buf.Contents() == Parse(old(buf.Contents())).residue
    ensures |buf.Contents()| < MAX_TOTAL_SIZE
    ensures |old(buf.Contents())| == WireSize(Messages(tasks)) + Parse(old(buf.Contents())).skipped + |buf.Contents()|
  {
    ghost var start := buf.Contents();
    tasks := Drain(fd, buf);
    NothingMore(Messages(tasks), buf.Contents(), start);
    ParseAccounting(start);
  }

  // ---------- the receive loop ----------

  datatype RecvResult = Data(chunk: seq<byte>) | WouldBlock | Closed | Failed

  ghost predicate FromSocket(r: RecvResult) {
    r.Data? ==> 1 <= |r.chunk| <= RECV_CHUNK_SIZE
  }

  /** The bytes a receive loop takes in before the socket would block. */
  function Arriving(results: seq<RecvResult>): (bytes: seq<byte>) {
    if results == [] || !results[0].Data? then []
    else results[0].chunk + Arriving(results[1..])
  }

  /** How the loop ends when nothing overflows; running out of results means that the
      socket would block. */
  function HungUp(results: seq<RecvResult>): bool {
    if results == [] then false
    else if results[0].Data? then HungUp(results[1..])
    else !results[0].WouldBlock?
  }

  function Datas(chunks: seq<seq<byte>>): (results: seq<RecvResult>)
    ensures |results| == |chunks| && forall i :: 0 <= i < |chunks| ==> results[i] == Data(chunks[i])
  {
    if chunks == [] then [] else [Data(chunks[0])] + Datas(chunks[1..])
  }

  /** What arrives is the reads up to the first that brings nothing, put together; the peer has
      hung up when that one is neither the end nor an empty socket. */
  lemma {:induction false} ReceiveLoopMeans(chunks: seq<seq<byte>>, rest: seq<RecvResult>)
    requires rest == [] || !rest[0].Data?
    ensures Arriving(Datas(chunks) + rest) == Concat(chunks)
    ensures HungUp(Datas(chunks) + rest) <==> rest != [] && (rest[0].Closed? || rest[0].Failed?)
  {
    if chunks == [] {
      assert Datas(chunks) + rest == rest;
    } else {
      assert (Datas(chunks) + rest)[1..] == Datas(chunks[1..]) + rest;
      ReceiveLoopMeans(chunks[1..], rest);
    }
  }

  /** Taking the next result of a receive loop. */
  lemma NextResult(results: seq<RecvResult>, i: nat)
    requires i < |results| && results[i].Data?
    ensures Arriving(results[i..]) == results[i].chunk + Arriving(results[i + 1..])
    ensures HungUp(results[i..]) == HungUp(results[i + 1..])
  {
    assert results[i..][0] == results[i] && results[i..][1..] == results[i + 1..];
  }

  lemma LastResult(results: seq<RecvResult>, i: nat)
    requires i <= |results| && (i < |results| ==> !results[i].Data?)
    ensures Arriving(results[i..]) == []
    ensures HungUp(results[i..]) <==> i < |results| && !results[i].WouldBlock?
  {
  }

  /** Every chunk fits when it comes; one that fills the ring to the last byte empties it. */
  function Admitted(size: nat, results: seq<RecvResult>, capacity: nat): bool
    decreases |results|
  {
    if results == [] || !results[0].Data? then true
    else
      var after := size + |results[0].chunk|;
      after <= capacity && Admitted(if after == capacity then 0 else after, results[1..], capacity)
  }

  /** What the ring then holds: the bytes since it was last filled to the last byte. */
  function Kept(held: seq<byte>, results: seq<RecvResult>, capacity: nat): seq<byte>
    decreases |results|
  {
    if results == [] || !results[0].Data? then held
    else
      var after := held + results[0].chunk;
      Kept(if |after| == capacity then [] else after, results[1..], capacity)
  }

  lemma NextAdmitted(held: seq<byte>, results: seq<RecvResult>, i: nat, capacity: nat)
    requires i < |results| && results[i].Data?
    ensures
      var after := held + results[i].chunk;
      var held' := if |after| == capacity then [] else after;
      && (Admitted(|held|, results[i..], capacity) <==>
            |after| <= capacity && Admitted(|held'|, results[i + 1..], capacity))
      && Kept(held, results[i..], capacity) == Kept(held', results[i + 1..], capacity)
  {
    assert results[i..][0] == results[i] && results[i..][1..] == results[i + 1..];
  }

  lemma NoneAdmitted(held: seq<byte>, results: seq<RecvResult>, i: nat, capacity: nat)
    requires i <= |results| && (i < |results| ==> !results[i].Data?)
    ensures Admitted(|held|, results[i..], capacity) && Kept(held, results[i..], capacity) == held
  {
  }

  /** `handle_clint_data` on one ring. `announced` is the call of `addFd`; otherwise the
      connection is closed: exactly when some chunk does not fit when it comes, or the socket
      hung up or failed. With room to spare every byte is in the ring afterwards; without it some
      byte is not, whether the loop closed the connection or filled the ring. */
  method HandleClintData(buf: ClientBuffer, results: seq<RecvResult>) returns (announced: bool)
    requires buf.Valid() && forall r <- results :: FromSocket(r)
    modifies buf`tail, buf.buffer
    ensures buf.Valid()
    ensures announced <==> Admitted(|old(buf.Contents())|, results, buf.buffer.Length) && !HungUp(results)
    ensures announced ==> buf.Contents() == Kept(old(buf.Contents()), results, buf.buffer.Length)
    ensures |old(buf.Contents())| + |Arriving(results)| < buf.buffer.Length ==>
              && announced == !HungUp(results)
              && buf.Contents() == old(buf.Contents()) + Arriving(results)
    ensures |old(buf.Contents())| + |Arriving(results)| >= buf.buffer.Length ==>
              |buf.Contents()| < |old(buf.Contents())| + |Arriving(results)|
  {
    hide Arriving, HungUp, Slice, Admitted, Kept;
    var i := 0;
    ghost var start := buf.Contents();
    ghost var all, hungUp := Arriving(results), HungUp(results);
    ghost var received: seq<byte> := [];
    ghost var capacity := buf.buffer.Length;
    ghost var admitted, kept := Admitted(|start|, results, capacity), Kept(start, results, capacity);
    assert results[0..] == results;
    while i < |results| && results[i].Data?
      invariant 0 <= i <= |results| && buf.Valid()
      invariant all == received + Arriving(results[i..])
      invariant hungUp == HungUp(results[i..])
      invariant |start| + |received| < buf.buffer.Length ==> buf.Contents() == start + received
      invariant admitted == Admitted(|buf.Contents()|, results[i..], capacity)
      invariant kept == Kept(buf.Contents(), results[i..], capacity)
    {
      NextAdmitted(buf.Contents(), results, i, capacity);
      var chunk := results[i].chunk;
      NextResult(results, i);
      assert FromSocket(results[i]);
      assert all == received + chunk + Arriving(results[i + 1..]);
      var ok := buf.Append(chunk);
      if !ok {
        return false;
      }
      received := received + chunk;
      i := i + 1;
    }
    LastResult(results, i);
    NoneAdmitted(buf.Contents(), results, i, capacity);
    announced := i == |results| || results[i].WouldBlock?;
  }

  /** The longest undecided rest: a header that announces the longest message, and all of
      its body but one byte. */
  function LongestRest(): (b: seq<byte>)
    ensures |b| == MAX_TOTAL_SIZE - 1
  {
    WriteUInt32BE(MAX_MESSAGE_SIZE) + seq(MAX_MESSAGE_SIZE - 1, _ => 0)
  }

  lemma LongestRestIsUndecided()
    ensures Parse(LongestRest()).residue == LongestRest()
  {
    LengthRoundTrip(MAX_MESSAGE_SIZE, seq(MAX_MESSAGE_SIZE - 1, _ => 0));
    ParseUndecided(LongestRest());
  }

  /** How much the server's ring is sure to take after a drain, whatever was received before:
      196604 bytes, and not one more. */
  lemma RoomAfterDrain(k: nat)
    ensures (forall b :: |Parse(b).residue| + k < RECV_BUFFER_SIZE) <==> k <= 196604
  {
    LongestRestIsUndecided();
    if k <= 196604 {
      forall b ensures |Parse(b).residue| + k < RECV_BUFFER_SIZE {
        ParseAccounting(b);
      }
    } else {
      assert |Parse(LongestRest()).residue| + k >= RECV_BUFFER_SIZE;
    }
  }

  function ArrivingInRounds(rounds: seq<seq<RecvResult>>): (bytes: seq<byte>) {
    if rounds == [] then [] else Arriving(rounds[0]) + ArrivingInRounds(rounds[1..])
  }

  lemma NoMoreRounds()
    ensures ArrivingInRounds([]) == []
  {
  }

  /** One readiness event of a healthy connection that brings no more than a drained ring
      has room for. */
  ghost predicate GoodRound(round: seq<RecvResult>, capacity: nat) {
    && (forall r <- round :: FromSocket(r))
    && !HungUp(round) && |Arriving(round)| <= capacity - MAX_TOTAL_SIZE
  }

  /** A connection whose reads all fit: each round starts from the undecided rest the one
      before has left, and brings no more than `room` has place for. */
  ghost predicate NeverOverflows(rest: seq<byte>, rounds: seq<seq<RecvResult>>, room: nat)
    decreases |rounds|
  {
    rounds == [] || (
      && (forall r <- rounds[0] :: FromSocket(r))
      && !HungUp(rounds[0]) && |rest| + |Arriving(rounds[0])| <= room
      && NeverOverflows(Parse(rest + Arriving(rounds[0])).residue, rounds[1..], room))
  }

  /** Rounds within what a drain leaves free never overflow. */
  lemma {:induction false} GoodRoundsNeverOverflow(rest: seq<byte>, rounds: seq<seq<RecvResult>>, capacity: nat)
    requires GoodCapacity(capacity) && |rest| < MAX_TOTAL_SIZE
    requires forall round <- rounds :: GoodRound(round, capacity)
    ensures NeverOverflows(rest, rounds, capacity - 1)
    decreases |rounds|
  {
    if rounds != [] {
      hide Parse, Arriving, HungUp;
      assert GoodRound(rounds[0], capacity);
      ParseAccounting(rest + Arriving(rounds[0]));
      GoodRoundsNeverOverflow(Parse(rest + Arriving(rounds[0])).residue, rounds[1..], capacity);
    }
  }

  lemma NextRoundFits(rest: seq<byte>, rounds: seq<seq<RecvResult>>, i: nat, room: nat)
    requires i < |rounds| && NeverOverflows(rest, rounds[i..], room)
    ensures forall r <- rounds[i] :: FromSocket(r)
    ensures !HungUp(rounds[i]) && |rest| + |Arriving(rounds[i])| <= room
    ensures NeverOverflows(Parse(rest + Arriving(rounds[i])).residue, rounds[i + 1..], room)
  {
    hide Parse, Arriving, HungUp;
    assert rounds[i..][0] == rounds[i] && rounds[i..][1..] == rounds[i + 1..];
  }

  /** One more round on top of what has been decoded. */
  lemma NextParse(done: seq<Message>, rest: seq<byte>, received: seq<byte>, bytes: seq<byte>)
    requires done == Parse(received).messages && rest == Parse(received).residue
    ensures done + Parse(rest + bytes).messages == Parse(received + bytes).messages
    ensures Parse(rest + bytes).residue == Parse(received + bytes).residue
  {
    hide Parse;
    ParseAppend(received, bytes);
  }

  lemma MessagesConcat(tasks: seq<ClientTask>, more: seq<ClientTask>)
    ensures Messages(tasks + more) == Messages(tasks) + Messages(more)
  {
  }

  lemma RoundSplit(rounds: seq<seq<RecvResult>>, i: nat, received: seq<byte>, all: seq<byte>)
    requires i < |rounds| && all == received + ArrivingInRounds(rounds[i..])
    ensures all == received + Arriving(rounds[i]) + ArrivingInRounds(rounds[i + 1..])
  {
    assert rounds[i..][1..] == rounds[i + 1..];
  }

  /** One readiness event, then one drain. */
  method ServeRound(
    fd: int, buf: ClientBuffer, round: seq<RecvResult>, tasks: seq<ClientTask>, ghost received: seq<byte>)
    returns (tasks': seq<ClientTask>)
    requires buf.Valid() && (forall r <- round :: FromSocket(r)) && !HungUp(round)
    requires |buf.Contents()| + |Arriving(round)| < buf.buffer.Length
    requires Messages(tasks) == Parse(received).messages && buf.Contents() == Parse(received).residue
    modifies buf`head, buf`tail, buf.buffer
    ensures buf.Valid()
    ensures Messages(tasks') == Parse(received + Arriving(round)).messages
    ensures buf.Contents() == Parse(received + Arriving(round)).residue
  {
    ghost var rest := buf.Contents();
    var announced := HandleClintData(buf, round);
    assert buf.Contents() == rest + Arriving(round);
    var more := ProcessBuffer(fd, buf);
    NextParse(Messages(tasks), rest, received, Arriving(round));
    MessagesConcat(tasks, more);
    tasks' := tasks + more;
  }

  /** Receive and drain alternating: however the stream is cut into reads and rounds, as long
      as no read overflows the ring or fills it to the last byte, the queued messages are
      those of the whole stream. */
  method Serve(fd: int, buf: ClientBuffer, rounds: seq<seq<RecvResult>>) returns (tasks: seq<ClientTask>)
    requires buf.Valid() && buf.Contents() == []
    requires NeverOverflows([], rounds, buf.buffer.Length - 1)
    modifies buf`head, buf`tail, buf.buffer
    ensures buf.Valid()
    ensures Messages(tasks) == Parse(ArrivingInRounds(rounds)).messages
    ensures buf.Contents() == Parse(ArrivingInRounds(rounds)).residue
  {
    hide Parse, NeverOverflows, Arriving, HungUp, ArrivingInRounds;
    tasks := [];
    ghost var received: seq<byte> := [];
    ghost var all := ArrivingInRounds(rounds);
    assert rounds[0..] == rounds;
    assert Messages(tasks) == [];
    ParseNothing();
    NoMoreRounds();
    var i := 0;
    while i < |rounds|
      invariant 0 <= i <= |rounds|
      invariant buf.Valid() && buf.buffer == old(buf.buffer)
      invariant NeverOverflows(buf.Contents(), rounds[i..], buf.buffer.Length - 1)
      invariant all == received + ArrivingInRounds(rounds[i..])
      invariant Messages(tasks) == Parse(received).messages
      invariant buf.Contents() == Parse(received).residue
    {
      ghost var rest := buf.Contents();
      NextRoundFits(rest, rounds, i, buf.buffer.Length - 1);
      NextParse(Messages(tasks), rest, received, Arriving(rounds[i]));
      tasks := ServeRound(fd, buf, rounds[i], tasks, received);
      RoundSplit(rounds, i, received, all);
      received := received + Arriving(rounds[i]);
      i := i + 1;
    }
    assert rounds[i..] == [] && all == received;
  }

  // ---------- the shared sets ----------

  method Pick<T>(s: set<T>) returns (x: T)
    requires s != {}
    ensures x in s
  {
    x :| x in s;
  }

  /** `_pending_fds` and `_processing_fds` with the critical sections under `_mutex`. Each is
      the corresponding step of the transition system, in every state that has these sets. */
  class FdSets {
    var pending: set<int>
    var processing: set<int>

    ghost predicate Shows(s: P.State)
      reads this
    {
      pending == s.pending && processing == s.processing
    }

    constructor ()
      ensures pending == {} && processing == {}
    {
      pending, processing := {}, {};
    }

    /** Always inserts; asks for a wake-up only when the descriptor was not there yet. */
    method AddFd(fd: int) returns (notify: bool)
      modifies this`pending
      ensures pending == old(pending) + {fd}
      ensures notify <==> pending != old(pending)
      ensures forall s: P.State, woken ::
                old(Shows(s)) && P.Shaped(s) && s.reactor.Notifying? && s.reactor.fd == fd
                && P.Enabled(s, P.AddFd(woken)) ==>
                  Shows(P.Apply(s, P.AddFd(woken))) && (woken.Some? ==> notify)
    {
      notify := fd !in pending;
      pending := pending + {fd};
    }

    method ClearFd(fd: int)
      modifies this`pending
      ensures pending == old(pending) - {fd}
      ensures forall s: P.State ::
                old(Shows(s)) && P.Shaped(s) && s.reactor.Clearing? && s.reactor.fd == fd ==>
                  P.Enabled(s, P.ClearFd) && Shows(P.Apply(s, P.ClearFd))
    {
      pending := pending - {fd};
    }

    /** The scan of a parser thread: it moves one descriptor nobody works on, and finds
        none only when there is none and the thread would wait. */
    method TakeFd() returns (taken: Option<int>)
      modifies this
      ensures taken.None? <==> old(pending) <= old(processing)
      ensures taken.None? ==> pending == old(pending) && processing == old(processing)
      ensures taken.Some? ==> taken.value in old(pending) && taken.value !in old(processing)
      ensures taken.Some? ==> pending == old(pending) - {taken.value} && processing == old(processing) + {taken.value}
      ensures forall s: P.State, w ::
                old(Shows(s)) && P.Shaped(s) && P.At(s, w, P.Choosing) ==>
                  var step := if taken.Some? then P.Choose(w, taken.value) else P.Block(w);
                  P.Enabled(s, step) && Shows(P.Apply(s, step))
    {
      var free := pending - processing;
      if free == {} {
        assert forall fd <- pending :: fd in free || fd in processing;
        return None;
      }
      var fd := Pick(free);
      pending := pending - {fd};
      processing := processing + {fd};
      taken := Some(fd);
    }

    method Release(fd: int)
      modifies this`processing
      ensures processing == old(processing) - {fd}
      ensures forall s: P.State, w ::
                old(Shows(s)) && P.Shaped(s) && P.At(s, w, P.Releasing(fd)) ==>
                  P.Enabled(s, P.Release(w)) && Shows(P.Apply(s, P.Release(w)))
    {
      processing := processing - {fd};
    }
  }
}
