/** The wire format shared by the server, the console client and the web proxy: a
    four-byte big-endian length followed by that many bytes.

    `Parse` is the specification every decoder of the system is measured against:
    it cuts a byte string into messages, drops one byte whenever the four bytes in
    front are not a legal length, and keeps the undecided rest. */
module Framing {

  type byte = x: int | 0 <= x < 256
  type Message = seq<byte>

  const HEADER_SIZE: nat := 4
  const MAX_MESSAGE_SIZE: nat := 65536
  const MAX_TOTAL_SIZE: nat := HEADER_SIZE + MAX_MESSAGE_SIZE
  const RECV_BUFFER_SIZE: nat := 262144
  const RECV_CHUNK_SIZE: nat := 65536
  const UINT32: nat := 0x1_0000_0000

  // ---------- lengths ----------

  function WriteUInt32BE(n: nat): (r: seq<byte>)
    requires n < UINT32
    ensures |r| == HEADER_SIZE
  {
    [n / 16777216, n / 65536 % 256, n / 256 % 256, n % 256]
  }

  function ReadUInt32BE(b: seq<byte>): (n: nat)
    requires |b| >= HEADER_SIZE
    ensures n < UINT32
  {
    16777216 * (b[0] as int) + 65536 * (b[1] as int) + 256 * (b[2] as int) + (b[3] as int)
  }

  lemma LengthRoundTrip(n: nat, rest: seq<byte>)
    requires n < UINT32
    ensures ReadUInt32BE(WriteUInt32BE(n) + rest) == n
  {
    var w := WriteUInt32BE(n);
    assert (w + rest)[..4] == w;
    assert n / 65536 == n / 16777216 * 256 + n / 65536 % 256 by {
      assert n / 65536 / 256 == n / 16777216;
    }
    assert n / 256 == n / 65536 * 256 + n / 256 % 256 by {
      assert n / 256 / 256 == n / 65536;
    }
  }

  lemma ReadThenWrite(b: seq<byte>)
    requires |b| >= HEADER_SIZE
    ensures WriteUInt32BE(ReadUInt32BE(b)) == b[..HEADER_SIZE]
  {
    DigitsOfSum(b[0], b[1], b[2], b[3]);
  }

  lemma DigitsOfSum(b0: byte, b1: byte, b2: byte, b3: byte)
    ensures
      var n := 16777216 * (b0 as int) + 65536 * (b1 as int) + 256 * (b2 as int) + (b3 as int);
      n / 16777216 == b0 && n / 65536 % 256 == b1 && n / 256 % 256 == b2 && n % 256 == b3
  {
    var high := 256 * (b0 as int) + (b1 as int);
    var upper := 256 * high + (b2 as int);
    var n := 256 * upper + (b3 as int);
    assert n / 256 == upper && n % 256 == b3;
    assert upper / 256 == high && upper % 256 == b2;
    assert high / 256 == b0 && high % 256 == b1;
    assert n / 65536 == high;
    assert n / 16777216 == b0;
  }

  /** The first byte in which two equally long byte strings differ decides. */
  predicate LexLess(a: seq<byte>, b: seq<byte>)
    requires |a| == |b|
  {
    exists k: nat :: k < |a| && a[..k] == b[..k] && a[k] < b[k]
  }

  /** Big-endian: the byte strings are ordered as the numbers are. */
  lemma LengthOrder(n: nat, m: nat)
    requires n < m < UINT32
    ensures LexLess(WriteUInt32BE(n), WriteUInt32BE(m))
  {
    var a, b := WriteUInt32BE(n), WriteUInt32BE(m);
    ByteSums(n);
    ByteSums(m);
    var k: nat := if a[0] != b[0] then 0 else if a[1] != b[1] then 1 else if a[2] != b[2] then 2 else 3;
    assert a[..k] == b[..k] && a[k] < b[k];
  }

  lemma ByteSums(n: nat)
    requires n < UINT32
    ensures ReadUInt32BE(WriteUInt32BE(n)) == n
  {
    LengthRoundTrip(n, []);
    assert WriteUInt32BE(n) + [] == WriteUInt32BE(n);
  }

  // ---------- encoding ----------

  ghost predicate Legal(m: Message) {
    1 <= |m| <= MAX_MESSAGE_SIZE
  }

  /** What `encodeMessage` puts on the wire; the length field has 32 bits. */
  function Encode(m: Message): seq<byte> {
    WriteUInt32BE(|m| % UINT32) + m
  }

  function EncodeAll(ms: seq<Message>): seq<byte> {
    if ms == [] then [] else Encode(ms[0]) + EncodeAll(ms[1..])
  }

  lemma EncodeAllFirst(m: Message, ms: seq<Message>)
    ensures EncodeAll([m] + ms) == Encode(m) + EncodeAll(ms)
  {
    assert ([m] + ms)[1..] == ms;
  }

  // ---------- decoding one message ----------

  datatype Extracted = Incomplete | Invalid | Frame(message: Message, consumed: nat)

  /** The decision taken at the front of a buffer. */
  function Extract(b: seq<byte>): (r: Extracted)
    ensures r.Frame? ==> r.consumed <= |b| && r.consumed == HEADER_SIZE + |r.message| && Legal(r.message)
    ensures r.Invalid? ==> |b| >= HEADER_SIZE
  {
    if |b| < HEADER_SIZE then Incomplete
    else
      var len := ReadUInt32BE(b);
      if len == 0 || len > MAX_MESSAGE_SIZE then Invalid
      else if |b| < HEADER_SIZE + len then Incomplete
      else Frame(b[HEADER_SIZE..HEADER_SIZE + len], HEADER_SIZE + len)
  }

  /** The integer the C++ decoders return for a decision. */
  function Code(e: Extracted): int {
    match e
    case Incomplete => -1
    case Invalid => -2
    case Frame(_, consumed) => consumed
  }

  lemma Codes(m: Message, consumed: nat)
    ensures Code(Incomplete) == -1 && Code(Invalid) == -2 && Code(Frame(m, consumed)) == consumed
  {
  }

  /** Once decided, a decision does not change when more bytes arrive behind it. */
  lemma ExtractStable(a: seq<byte>, b: seq<byte>)
    requires !Extract(a).Incomplete?
    ensures Extract(a + b) == Extract(a)
  {
    assert (a + b)[..4] == a[..4];
    if Extract(a).Frame? {
      var k := Extract(a).consumed;
      assert (a + b)[HEADER_SIZE..k] == a[HEADER_SIZE..k];
    }
  }

  lemma ExtractIncompleteIsShort(b: seq<byte>)
    requires Extract(b).Incomplete?
    ensures |b| < MAX_TOTAL_SIZE
  {
  }

  // ---------- decoding a stream ----------

  datatype Parsed = Parsed(messages: seq<Message>, residue: seq<byte>, skipped: nat)

  function Parse(b: seq<byte>): (p: Parsed)
    decreases |b|
  {
    match Extract(b)
    case Incomplete => Parsed([], b, 0)
    case Invalid =>
      var p := Parse(b[1..]);
      p.(skipped := p.skipped + 1)
    case Frame(m, consumed) =>
      var p := Parse(b[consumed..]);
      p.(messages := [m] + p.messages)
  }

  lemma ParseFrame(b: seq<byte>)
    requires Extract(b).Frame?
    ensures
      var p := Parse(b[Extract(b).consumed..]);
      Parse(b) == p.(messages := [Extract(b).message] + p.messages)
  {
  }

  lemma ParseNothing()
    ensures Parse([]) == Parsed([], [], 0)
  {
  }

  lemma ParseUndecided(b: seq<byte>)
    requires Extract(b).Incomplete?
    ensures Parse(b) == Parsed([], b, 0)
  {
  }

  /** What two consecutive parses amount to. */
  function Then(p: Parsed, q: Parsed): Parsed {
    Parsed(p.messages + q.messages, q.residue, p.skipped + q.skipped)
  }

  lemma ThenAfterMessage(m: Message, p: Parsed, q: Parsed)
    ensures Then(p.(messages := [m] + p.messages), q) == Then(p, q).(messages := [m] + Then(p, q).messages)
  {
    assert [m] + (p.messages + q.messages) == [m] + p.messages + q.messages;
  }

  /** Chunking independence: parsing `a`, keeping the residue, and parsing it again
      with `b` behind it is the same as parsing `a + b` in one go. */
  lemma {:induction false} ParseAppend(a: seq<byte>, b: seq<byte>)
    ensures Parse(a + b) == Then(Parse(a), Parse(Parse(a).residue + b))
    decreases |a|
  {
    hide Extract;
    match Extract(a)
    case Incomplete =>
    case Invalid =>
      ExtractStable(a, b);
      assert (a + b)[1..] == a[1..] + b;
      ParseAppend(a[1..], b);
    case Frame(m, k) =>
      ExtractStable(a, b);
      assert (a + b)[k..] == a[k..] + b;
      ParseAppend(a[k..], b);
      ThenAfterMessage(m, Parse(a[k..]), Parse(Parse(a[k..]).residue + b));
  }

  /** A decoder that keeps its residue between reads. */
  function ParseChunks(residue: seq<byte>, chunks: seq<seq<byte>>): (p: Parsed)
    decreases |chunks|
  {
    if chunks == [] then Parsed([], residue, 0)
    else
      var p := Parse(residue + chunks[0]);
      var q := ParseChunks(p.residue, chunks[1..]);
      Then(p, q)
  }

  function Concat(chunks: seq<seq<byte>>): seq<byte> {
    if chunks == [] then [] else chunks[0] + Concat(chunks[1..])
  }

  /** Every way of cutting one stream into reads gives the messages, the residue and
      the number of dropped bytes of the uncut stream. */
  lemma {:induction false} ChunkingIndependence(residue: seq<byte>, chunks: seq<seq<byte>>)
    requires Extract(residue).Incomplete?
    ensures ParseChunks(residue, chunks) == Parse(residue + Concat(chunks))
    decreases |chunks|
  {
    hide Parse, Extract;
    if chunks == [] {
      ParseUndecided(residue);
      assert residue + Concat(chunks) == residue;
    } else {
      ResidueIsUndecided(residue + chunks[0]);
      ChunkingIndependence(Parse(residue + chunks[0]).residue, chunks[1..]);
      ParseAppend(residue + chunks[0], Concat(chunks[1..]));
      assert residue + Concat(chunks) == (residue + chunks[0]) + Concat(chunks[1..]);
    }
  }

  lemma ResidueIsUndecided(b: seq<byte>)
    ensures Extract(Parse(b).residue).Incomplete?
  {
    ParseAccounting(b);
  }

  function WireSize(ms: seq<Message>): nat {
    if ms == [] then 0 else HEADER_SIZE + |ms[0]| + WireSize(ms[1..])
  }

  /** Where the bytes went: every byte is in a message, in a header, dropped, or in
      the residue, which is an undecided suffix shorter than one full message. */
  lemma {:induction false} ParseAccounting(b: seq<byte>)
    ensures
      var p := Parse(b);
      && |b| == WireSize(p.messages) + p.skipped + |p.residue|
      && p.residue == b[|b| - |p.residue|..]
      && Extract(p.residue).Incomplete?
      && |p.residue| < MAX_TOTAL_SIZE
      && (forall m <- p.messages :: Legal(m))
    decreases |b|
  {
    hide Extract;
    match Extract(b)
    case Incomplete => ExtractIncompleteIsShort(b);
    case Invalid => ParseAccounting(b[1..]);
    case Frame(m, k) =>
      ParseAccounting(b[k..]);
      assert Parse(b).messages[1..] == Parse(b[k..]).messages;
  }

  lemma ExtractEncode(m: Message, rest: seq<byte>)
    requires Legal(m)
    ensures Extract(Encode(m) + rest) == Frame(m, HEADER_SIZE + |m|)
  {
    var s := Encode(m) + rest;
    assert s == WriteUInt32BE(|m|) + (m + rest);
    LengthRoundTrip(|m|, m + rest);
    assert s[HEADER_SIZE..HEADER_SIZE + |m|] == m;
  }

  lemma {:induction false} ParseEncoded(ms: seq<Message>)
    requires forall m <- ms :: Legal(m)
    ensures Parse(EncodeAll(ms)) == Parsed(ms, [], 0)
  {
    if ms != [] {
      var rest := EncodeAll(ms[1..]);
      ExtractEncode(ms[0], rest);
      assert EncodeAll(ms)[HEADER_SIZE + |ms[0]|..] == rest;
      ParseEncoded(ms[1..]);
    }
  }

  /** The round trip, with the exact set of messages it works for: a list comes back
      with nothing left over precisely when every length is in 1..65536. */
  lemma {:induction false} StreamRoundTrip(ms: seq<Message>)
    ensures Parse(EncodeAll(ms)) == Parsed(ms, [], 0) <==> forall m <- ms :: 1 <= |m| <= 65536
  {
    if forall m <- ms :: Legal(m) {
      ParseEncoded(ms);
    }
    ParseAccounting(EncodeAll(ms));
  }

  /** What a frame that is cut short in its body does: the decoder takes the missing bytes from
      whatever comes next, and waits until they are there. */
  lemma TornFrame(m: Message, cut: nat, next: seq<byte>)
    requires Legal(m) && HEADER_SIZE <= cut < HEADER_SIZE + |m|
    ensures
      var torn, missing := Encode(m)[..cut], HEADER_SIZE + |m| - cut;
      if |next| < missing then Parse(torn + next) == Parsed([], torn + next, 0)
      else
        var p := Parse(next[missing..]);
        Parse(torn + next) == p.(messages := [m[..cut - HEADER_SIZE] + next[..missing]] + p.messages)
  {
    hide Parse, Extract;
    TornExtract(m, cut, next);
    var torn, missing := Encode(m)[..cut], HEADER_SIZE + |m| - cut;
    hide Encode;
    if |next| < missing {
      ParseUndecided(torn + next);
    } else {
      FrameAcross(torn, next, m[..cut - HEADER_SIZE] + next[..missing], missing);
    }
  }

  /** A frame that ends `k` bytes into the second part. */
  lemma FrameAcross(a: seq<byte>, b: seq<byte>, m: Message, k: nat)
    requires k <= |b| && Extract(a + b) == Frame(m, |a| + k)
    ensures
      var p := Parse(b[k..]);
      Parse(a + b) == p.(messages := [m] + p.messages)
  {
    hide Extract, Parse;
    ParseFrame(a + b);
    assert (a + b)[|a| + k..] == b[k..];
  }

  lemma TornExtract(m: Message, cut: nat, next: seq<byte>)
    requires Legal(m) && HEADER_SIZE <= cut < HEADER_SIZE + |m|
    ensures
      var missing := HEADER_SIZE + |m| - cut;
      Extract(Encode(m)[..cut] + next) ==
      if |next| < missing then Incomplete
      else Frame(m[..cut - HEADER_SIZE] + next[..missing], HEADER_SIZE + |m|)
  {
    hide WriteUInt32BE, ReadUInt32BE;
    var header, body := WriteUInt32BE(|m|), m[..cut - HEADER_SIZE] + next;
    assert Encode(m)[..cut] + next == header + body by {
      assert Encode(m)[..cut] == header + m[..cut - HEADER_SIZE];
    }
    LengthRoundTrip(|m|, body);
    if |body| >= |m| {
      assert (header + body)[HEADER_SIZE..HEADER_SIZE + |m|] == body[..|m|];
      assert body[..|m|] == m[..cut - HEADER_SIZE] + next[..HEADER_SIZE + |m| - cut];
    }
  }

  // ---------- a decoder in the middle of its work ----------

  predicate IsSuffix(a: seq<byte>, b: seq<byte>) {
    |a| <= |b| && a == b[|b| - |a|..]
  }

  /** The unread bytes are the last ones received; the messages already extracted followed
      by those the unread bytes hold are the messages of everything received, and both byte
      strings end in the same undecided rest. */
  ghost predicate Accounts(extracted: seq<Message>, unread: seq<byte>, received: seq<byte>) {
    && IsSuffix(unread, received)
    && extracted + Parse(unread).messages == Parse(received).messages
    && Parse(unread).residue == Parse(received).residue
  }

  lemma AccountsEmpty()
    ensures Accounts([], [], [])
  {
  }

  lemma AccountsNothing(b: seq<byte>)
    ensures Accounts([], b, b)
  {
  }

  lemma AccountsReceive(extracted: seq<Message>, unread: seq<byte>, received: seq<byte>, chunk: seq<byte>)
    requires Accounts(extracted, unread, received)
    ensures Accounts(extracted, unread + chunk, received + chunk)
  {
    var p, q := Parse(unread), Parse(received);
    var more := Parse(q.residue + chunk);
    ParseAppend(unread, chunk);
    ParseAppend(received, chunk);
    AccountsCombine(extracted, p, q, more, Parse(unread + chunk), Parse(received + chunk));
    SuffixAppend(unread, received, chunk);
  }

  lemma SuffixAppend(a: seq<byte>, b: seq<byte>, c: seq<byte>)
    requires IsSuffix(a, b)
    ensures IsSuffix(a + c, b + c)
  {
  }

  lemma SuffixDrop(a: seq<byte>, b: seq<byte>, k: nat)
    requires IsSuffix(a, b) && k <= |a|
    ensures IsSuffix(a[k..], b)
  {
  }

  lemma AccountsCombine(extracted: seq<Message>, p: Parsed, q: Parsed, more: Parsed, p': Parsed, q': Parsed)
    requires extracted + p.messages == q.messages
    requires p' == Parsed(p.messages + more.messages, more.residue, p.skipped + more.skipped)
    requires q' == Parsed(q.messages + more.messages, more.residue, q.skipped + more.skipped)
    ensures extracted + p'.messages == q'.messages && p'.residue == q'.residue
  {
  }

  /** Decoding on a tail read earlier takes the message the whole unread content starts with. */
  lemma AccountsExtract(extracted: seq<Message>, unread: seq<byte>, received: seq<byte>, seen: seq<byte>)
    requires Accounts(extracted, unread, received)
    requires seen <= unread
    ensures match Extract(seen)
      case Incomplete => true
      case Invalid => Accounts(extracted, unread[1..], received)
      case Frame(m, k) => Accounts(extracted + [m], unread[k..], received)
  {
    hide Extract;
    match Extract(seen) {
      case Incomplete =>
      case Invalid => SuffixDrop(unread, received, 1);
      case Frame(_, k) => SuffixDrop(unread, received, k);
    }
    if !Extract(seen).Incomplete? {
      ExtractStable(seen, unread[|seen|..]);
      assert unread == seen + unread[|seen|..];
    }
    if Extract(seen).Frame? {
      var Frame(m, k) := Extract(seen);
      assert extracted + ([m] + Parse(unread[k..]).messages) == extracted + [m] + Parse(unread[k..]).messages;
    }
  }

  // ---------- the C++ functions ----------

  /** `encodeMessage`: header and body copied into one resized string. */
  method EncodeMessage(message: Message) returns (encoded: seq<byte>)
    ensures encoded == Encode(message)
  {
    var msgLen := WriteUInt32BE(|message| % UINT32);
    var buffer := new byte[HEADER_SIZE + |message|](_ => 0);
    forall i | 0 <= i < HEADER_SIZE {
      buffer[i] := msgLen[i];
    }
    forall i | 0 <= i < |message| {
      buffer[HEADER_SIZE + i] := message[i];
    }
    encoded := buffer[..];
  }

  /** `extractMessage`: the linear decoder over the first `bufferLen` bytes. */
  method ExtractMessage(buffer: array<byte>, bufferLen: nat) returns (code: int, message: Message)
    requires bufferLen <= buffer.Length
    ensures code == Code(Extract(buffer[..bufferLen]))
    ensures code > 0 ==> message == Extract(buffer[..bufferLen]).message
  {
    message := [];
    if bufferLen < HEADER_SIZE {
      return -1, message;
    }
    var msgLen := ReadUInt32BE(buffer[..HEADER_SIZE]);
    assert buffer[..bufferLen][..HEADER_SIZE] == buffer[..HEADER_SIZE];
    if msgLen == 0 || msgLen > MAX_MESSAGE_SIZE {
      return -2, message;
    }
    var totalNeeded := HEADER_SIZE + msgLen;
    if bufferLen < totalNeeded {
      return -1, message;
    }
    message := buffer[HEADER_SIZE..totalNeeded];
    assert buffer[..bufferLen][HEADER_SIZE..totalNeeded] == message;
    code := totalNeeded;
  }
}
