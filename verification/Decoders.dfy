/** The other two decoders of the same stream: the console client, which keeps its bytes
    in a flat array and moves them down, and the web proxy, which concatenates and slices
    and does not check the length field. */
module Decoders {
  import opened Framing
  import opened Ring
  import opened ParserPool
  import opened Wrappers

  // ---------- the console client ----------

  class ClientReceiver {
    var buffer: array<byte>
    var pos: nat

    ghost predicate Valid()
      reads this
    {
      buffer.Length == RECV_BUFFER_SIZE && pos <= buffer.Length
    }

    ghost function Contents(): seq<byte>
      requires Valid()
      reads this, buffer
    {
      buffer[..pos]
    }

    constructor ()
      ensures Valid() && fresh(buffer) && Contents() == []
    {
      buffer := new byte[RECV_BUFFER_SIZE](_ => 0);
      pos := 0;
    }

    /** The `memmove` that drops the first `n` bytes. */
    method DropFront(n: nat)
      requires Valid() && n <= pos
      modifies this`pos, buffer
      ensures Valid() && Contents() == old(Contents())[n..]
    {
      forall i | 0 <= i < pos - n {
        buffer[i] := buffer[i + n];
      }
      pos := pos - n;
    }

    /** The receive half of `recv_message`: false on a closed or failed socket and on
        overflow. A chunk that fills the buffer exactly is no problem here. */
    method Fill(results: seq<RecvResult>) returns (ok: bool)
      requires Valid() && forall r <- results :: FromSocket(r)
      modifies this`pos, buffer
      ensures Valid()
      ensures ok <==> !HungUp(results) && |old(Contents())| + |Arriving(results)| <= RECV_BUFFER_SIZE
      ensures ok ==> Contents() == old(Contents()) + Arriving(results)
    {
      hide Arriving, HungUp;
      var i := 0;
      ghost var start := Contents();
      ghost var all, hungUp := Arriving(results), HungUp(results);
      ghost var received: seq<byte> := [];
      assert results[0..] == results;
      while i < |results| && results[i].Data?
        invariant 0 <= i <= |results| && Valid()
        invariant all == received + Arriving(results[i..])
        invariant hungUp == HungUp(results[i..])
        invariant Contents() == start + received
      {
        var chunk := results[i].chunk;
        NextResult(results, i);
        assert all == received + chunk + Arriving(results[i + 1..]);
        if pos + |chunk| <= RECV_BUFFER_SIZE {
          forall k | 0 <= k < |chunk| {
            buffer[pos + k] := chunk[k];
          }
          pos := pos + |chunk|;
        } else {
          return false;
        }
        received := received + chunk;
        i := i + 1;
      }
      LastResult(results, i);
      ok := i == |results| || results[i].WouldBlock?;
    }

    /** One turn of the extraction loop. The branch for an invalid length in a buffer of at
        most one byte cannot be reached. */
    method ExtractOrDrop(ghost extracted: seq<Message>, ghost start: seq<byte>)
      returns (consumed: int, message: Message)
      requires Valid() && Accounts(extracted, Contents(), start)
      modifies this`pos, buffer
      ensures Valid()
      ensures consumed == Code(Extract(old(Contents())))
      ensures consumed == -1 ==> extracted == Parse(start).messages && Contents() == Parse(start).residue
      ensures consumed == -2 ==> Accounts(extracted, Contents(), start)
      ensures consumed > 0 ==> Accounts(extracted + [message], Contents(), start)
      ensures consumed != -1 ==> pos < old(pos)
    {
      ghost var before := Contents();
      AccountsExtract(extracted, before, start, before);
      consumed, message := ExtractMessage(buffer, pos);
      if consumed == -1 {
        NothingMore(extracted, before, start);
      } else if consumed == -2 {
        if pos > 1 {
          DropFront(1);
        } else {
          assert false;
        }
      } else {
        DropFront(consumed);
      }
    }

    /** The extraction half of `recv_message`. */
    method ExtractAll() returns (handled: seq<Message>)
      requires Valid()
      modifies this`pos, buffer
      ensures Valid()
      ensures handled == Parse(old(Contents())).messages
      ensures Contents() == Parse(old(Contents())).residue
    {
      handled := [];
      ghost var start := Contents();
      while true
        invariant Valid()
        invariant Accounts(handled, Contents(), start)
        decreases pos
      {
        var consumed, message := ExtractOrDrop(handled, start);
        if consumed == -1 {
          return;
        } else if consumed != -2 {
          handled := handled + [message];
        }
      }
    }

    /** `recv_message`: what it hands to the message handler is what the server's ring
        decoder hands on for the same bytes. */
    method RecvMessage(results: seq<RecvResult>) returns (ok: bool, handled: seq<Message>)
      requires Valid() && forall r <- results :: FromSocket(r)
      modifies this`pos, buffer
      ensures Valid()
      ensures ok <==> !HungUp(results) && |old(Contents())| + |Arriving(results)| <= RECV_BUFFER_SIZE
      ensures ok ==> handled == Parse(old(Contents()) + Arriving(results)).messages
      ensures ok ==> Contents() == Parse(old(Contents()) + Arriving(results)).residue
      ensures !ok ==> handled == []
    {
      handled := [];
      ok := Fill(results);
      if ok {
        handled := ExtractAll();
      }
    }

    /** One readiness event after the other: as long as no read overflows the buffer, the
        messages handled are those of the whole stream. */
    method Session(rounds: seq<seq<RecvResult>>) returns (handled: seq<Message>)
      requires Valid() && Contents() == []
      requires NeverOverflows([], rounds, RECV_BUFFER_SIZE)
      modifies this`pos, buffer
      ensures Valid()
      ensures handled == Parse(ArrivingInRounds(rounds)).messages
      ensures Contents() == Parse(ArrivingInRounds(rounds)).residue
    {
      hide Parse, NeverOverflows, Arriving, HungUp, ArrivingInRounds;
      handled := [];
      ParseNothing();
      NoMoreRounds();
      ghost var received: seq<byte> := [];
      ghost var all := ArrivingInRounds(rounds);
      assert rounds[0..] == rounds;
      var i := 0;
      while i < |rounds|
        invariant 0 <= i <= |rounds|
        invariant Valid() && NeverOverflows(Contents(), rounds[i..], RECV_BUFFER_SIZE)
        invariant all == received + ArrivingInRounds(rounds[i..])
        invariant handled == Parse(received).messages && Contents() == Parse(received).residue
      {
        ghost var rest := Contents();
        NextRoundFits(rest, rounds, i, RECV_BUFFER_SIZE);
        NextParse(handled, rest, received, Arriving(rounds[i]));
        var ok, more := RecvMessage(rounds[i]);
        handled := handled + more;
        RoundSplit(rounds, i, received, all);
        received := received + Arriving(rounds[i]);
        i := i + 1;
      }
      assert rounds[i..] == [] && all == received;
    }
  }

  /** The server's ring and the client's flat buffer at the two ends of one byte stream: cut
      into reads in any two ways that overflow neither, they hand on the same messages. */
  method BothEnds(fd: int, toServer: seq<seq<RecvResult>>, toClient: seq<seq<RecvResult>>)
    returns (tasks: seq<ClientTask>, handled: seq<Message>)
    requires NeverOverflows([], toServer, RECV_BUFFER_SIZE - 1)
    requires NeverOverflows([], toClient, RECV_BUFFER_SIZE)
    requires ArrivingInRounds(toServer) == ArrivingInRounds(toClient)
    ensures Messages(tasks) == handled == Parse(ArrivingInRounds(toServer)).messages
  {
    ServerCapacityIsGood();
    var ring := new ClientBuffer(RECV_BUFFER_SIZE);
    var receiver := new ClientReceiver();
    tasks := Serve(fd, ring, toServer);
    handled := receiver.Session(toClient);
  }

  // ---------- the web proxy ----------

  datatype ProxyParsed = ProxyParsed(messages: seq<seq<byte>>, residue: seq<byte>)

  /** The proxy's loop: any length is taken at face value. */
  function ProxyParse(b: seq<byte>): (p: ProxyParsed)
    decreases |b|
  {
    if |b| < HEADER_SIZE then ProxyParsed([], b)
    else
      var length := ReadUInt32BE(b);
      if |b| >= HEADER_SIZE + length then
        var p := ProxyParse(b[HEADER_SIZE + length..]);
        p.(messages := [b[HEADER_SIZE..HEADER_SIZE + length]] + p.messages)
      else ProxyParsed([], b)
  }

  /** One turn of the proxy's loop. */
  lemma ProxyTurn(taken: seq<seq<byte>>, b: seq<byte>)
    requires |b| >= HEADER_SIZE && |b| >= HEADER_SIZE + ReadUInt32BE(b)
    ensures
      var k := HEADER_SIZE + ReadUInt32BE(b);
      && taken + ProxyParse(b).messages == taken + [b[HEADER_SIZE..k]] + ProxyParse(b[k..]).messages
      && ProxyParse(b).residue == ProxyParse(b[k..]).residue
  {
    var k := HEADER_SIZE + ReadUInt32BE(b);
    var rest := ProxyParse(b[k..]).messages;
    assert taken + ([b[HEADER_SIZE..k]] + rest) == taken + [b[HEADER_SIZE..k]] + rest;
  }

  class ProxyConnection {
    var buffer: seq<byte>

    constructor ()
      ensures buffer == []
    {
      buffer := [];
    }

    /** The `data` handler. Messages go to the web socket only while it is open. */
    method OnData(data: seq<byte>, open: bool) returns (sent: seq<seq<byte>>)
      modifies this
      ensures sent == if open then ProxyParse(old(buffer) + data).messages else []
      ensures buffer == ProxyParse(old(buffer) + data).residue
    {
      hide ProxyParse;
      buffer := buffer + data;
      ghost var start := ProxyParse(buffer);
      ghost var taken: seq<seq<byte>> := [];
      sent := [];
      while true
        invariant taken + ProxyParse(buffer).messages == start.messages
        invariant ProxyParse(buffer).residue == start.residue
        invariant sent == if open then taken else []
        decreases |buffer|
      {
        if |buffer| < HEADER_SIZE {
          ProxyWaits(buffer);
          break;
        }
        var length := ReadUInt32BE(buffer);
        if |buffer| >= HEADER_SIZE + length {
          var message := buffer[HEADER_SIZE..HEADER_SIZE + length];
          if open {
            sent := sent + [message];
          }
          ProxyTurn(taken, buffer);
          taken := taken + [message];
          buffer := buffer[HEADER_SIZE + length..];
        } else {
          ProxyWaits(buffer);
          break;
        }
      }
      assert taken + [] == taken;
    }
  }

  /** The packet builder; `writeUInt32BE` throws beyond 32 bits. */
  method BuildPacket(content: seq<byte>) returns (packet: Option<seq<byte>>)
    ensures packet == if |content| < UINT32 then Some(Encode(content)) else None
  {
    if |content| >= UINT32 {
      return None;
    }
    packet := Some(WriteUInt32BE(|content|) + content);
  }

  predicate ProxyTakes(b: seq<byte>) {
    |b| >= HEADER_SIZE && |b| >= HEADER_SIZE + ReadUInt32BE(b)
  }

  lemma ProxyTakesStable(a: seq<byte>, b: seq<byte>)
    requires ProxyTakes(a)
    ensures ProxyTakes(a + b) && ReadUInt32BE(a + b) == ReadUInt32BE(a)
    ensures
      var k := HEADER_SIZE + ReadUInt32BE(a);
      (a + b)[k..] == a[k..] + b && (a + b)[HEADER_SIZE..k] == a[HEADER_SIZE..k]
  {
  }

  lemma ProxyParseTaken(b: seq<byte>)
    requires ProxyTakes(b)
    ensures
      var k := HEADER_SIZE + ReadUInt32BE(b);
      var p := ProxyParse(b[k..]);
      ProxyParse(b) == ProxyParsed([b[HEADER_SIZE..k]] + p.messages, p.residue)
  {
  }

  /** Chunking does not matter to the proxy either. */
  lemma {:induction false} ProxyParseAppend(a: seq<byte>, b: seq<byte>)
    ensures
      var p := ProxyParse(a);
      var q := ProxyParse(p.residue + b);
      ProxyParse(a + b) == ProxyParsed(p.messages + q.messages, q.residue)
    decreases |a|
  {
    if ProxyTakes(a) {
      var k := HEADER_SIZE + ReadUInt32BE(a);
      ProxyTakesStable(a, b);
      ProxyParseTaken(a);
      ProxyParseTaken(a + b);
      ProxyParseAppend(a[k..], b);
      ProxyCombine(a[HEADER_SIZE..k], ProxyParse(a[k..]), ProxyParse(ProxyParse(a[k..]).residue + b));
    } else {
      ProxyWaits(a);
      assert [] + ProxyParse(a + b).messages == ProxyParse(a + b).messages;
    }
  }

  lemma ProxyCombine(m: seq<byte>, t: ProxyParsed, q: ProxyParsed)
    ensures [m] + (t.messages + q.messages) == [m] + t.messages + q.messages
  {
  }

  lemma ProxyWaits(b: seq<byte>)
    requires !ProxyTakes(b)
    ensures ProxyParse(b) == ProxyParsed([], b)
  {
  }

  /** The bytes are encoded legal messages and an undecided rest. */
  ghost predicate WellFramed(b: seq<byte>) {
    exists ms, rest :: FramedAs(b, ms, rest)
  }

  ghost predicate FramedAs(b: seq<byte>, ms: seq<Message>, rest: seq<byte>) {
    b == EncodeAll(ms) + rest && (forall m <- ms :: Legal(m)) && Extract(rest).Incomplete?
  }

  /** Such bytes, and no others, are decoded without dropping any. */
  lemma NothingDropped(b: seq<byte>)
    ensures Parse(b).skipped == 0 <==> WellFramed(b)
  {
    if Parse(b).skipped == 0 {
      ParseAccounting(b);
      UnskippedIsFramed(b);
      assert FramedAs(b, Parse(b).messages, Parse(b).residue);
    } else if WellFramed(b) {
      var ms, rest :| FramedAs(b, ms, rest);
      ParseEncodedRest(ms, rest);
    }
  }

  lemma ParseEncodedRest(ms: seq<Message>, rest: seq<byte>)
    requires (forall m <- ms :: Legal(m)) && Extract(rest).Incomplete?
    ensures Parse(EncodeAll(ms) + rest) == Parsed(ms, rest, 0)
  {
    hide Parse, Extract;
    ParseEncoded(ms);
    ParseAppend(EncodeAll(ms), rest);
    ParseUndecided(rest);
    assert [] + rest == rest && ms + [] == ms;
  }

  lemma {:induction false} UnskippedIsFramed(b: seq<byte>)
    requires Parse(b).skipped == 0
    ensures b == EncodeAll(Parse(b).messages) + Parse(b).residue
    decreases |b|
  {
    match Extract(b)
    case Incomplete =>
    case Frame(m, k) =>
      hide Parse, Extract, Encode, EncodeAll;
      ParseFrame(b);
      UnskippedIsFramed(b[k..]);
      FrameIsEncoding(b);
      EncodeAllFirst(m, Parse(b[k..]).messages);
      Regroup(Encode(m), EncodeAll(Parse(b[k..]).messages), Parse(b[k..]).residue);
    case Invalid =>
  }

  lemma Regroup(a: seq<byte>, b: seq<byte>, c: seq<byte>)
    ensures a + (b + c) == a + b + c
  {
  }

  lemma FrameIsEncoding(b: seq<byte>)
    requires Extract(b).Frame?
    ensures b == Encode(Extract(b).message) + b[Extract(b).consumed..]
  {
    hide WriteUInt32BE, ReadUInt32BE;
    var m, k := Extract(b).message, Extract(b).consumed;
    ReadThenWrite(b);
    assert Encode(m) == b[..HEADER_SIZE] + m == b[..k];
  }

  /** The proxy sees what the server and the client see exactly on the streams in which
      no byte has to be dropped: encoded legal messages and an undecided rest. */
  lemma ProxyAgrees(b: seq<byte>)
    ensures ProxyParse(b) == ProxyParsed(Parse(b).messages, Parse(b).residue) <==> WellFramed(b)
  {
    ProxyAgreesUnskipped(b);
    NothingDropped(b);
  }

  lemma {:induction false} ProxyAgreesUnskipped(b: seq<byte>)
    ensures ProxyParse(b) == ProxyParsed(Parse(b).messages, Parse(b).residue) <==> Parse(b).skipped == 0
    decreases |b|
  {
    match Extract(b)
    case Incomplete =>
    case Frame(m, k) =>
      ProxyAgreesUnskipped(b[k..]);
      var p, q := ProxyParse(b[k..]), Parse(b[k..]);
      assert ([m] + p.messages)[1..] == p.messages;
      assert ([m] + q.messages)[1..] == q.messages;
    case Invalid =>
      ParseAccounting(b);
      ParseAccounting(b[1..]);
      var length := ReadUInt32BE(b);
      if |b| >= HEADER_SIZE + length {
        var first := b[HEADER_SIZE..HEADER_SIZE + length];
        assert ProxyParse(b).messages[0] == first && !Legal(first);
      } else {
        assert |Parse(b).residue| < |b|;
      }
  }

  /** A list of legal messages comes through all three decoders unchanged. */
  lemma AllDecodersRoundTrip(ms: seq<Message>)
    requires forall m <- ms :: Legal(m)
    ensures Parse(EncodeAll(ms)) == Parsed(ms, [], 0)
    ensures ProxyParse(EncodeAll(ms)) == ProxyParsed(ms, [])
  {
    ParseEncoded(ms);
    ProxyAgrees(EncodeAll(ms));
  }

  /** The proxy takes more than the others: a list of messages of any length a header can name,
      empty ones included, comes through it unchanged. */
  lemma {:induction false} ProxyRoundTrip(ms: seq<Message>)
    requires forall m <- ms :: |m| < 0x1_0000_0000
    ensures ProxyParse(EncodeAll(ms)) == ProxyParsed(ms, [])
  {
    if ms != [] {
      var m, rest := ms[0], EncodeAll(ms[1..]);
      var b := EncodeAll(ms);
      assert b == WriteUInt32BE(|m|) + (m + rest);
      LengthRoundTrip(|m|, m + rest);
      ProxyRoundTrip(ms[1..]);
      hide WriteUInt32BE, ReadUInt32BE, ProxyParse, EncodeAll;
      ProxyParseTaken(b);
      assert b[HEADER_SIZE..HEADER_SIZE + |m|] == m && b[HEADER_SIZE + |m|..] == rest;
      assert [m] + ms[1..] == ms;
    }
  }
}
