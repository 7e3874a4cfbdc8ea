/** The per-connection receive ring: a fixed array with a read index `head` and a
    write index `tail`. The first half states the ring on values (array contents as a
    sequence), which the parser-pool protocol uses step by step; the second half is the
    class with the in-place operations. */
module Ring {
  import opened Framing

  const SIZE_T: nat := 0x1_0000_0000_0000_0000

  /** Capacities the ring works for: more than one full message, and small enough that
      index sums do not leave `size_t`. */
  ghost predicate GoodCapacity(n: nat) {
    MAX_TOTAL_SIZE < n <= SIZE_T / 4
  }

  lemma ServerCapacityIsGood()
    ensures GoodCapacity(RECV_BUFFER_SIZE)
  {
  }

  // ---------- index arithmetic ----------

  function Advance(i: nat, k: nat, n: nat): (r: nat)
    requires i < n && k <= n
    ensures r < n
  {
    if i + k < n then i + k else i + k - n
  }

  lemma AdvanceIsModulo(i: nat, k: nat, n: nat)
    requires i < n && k <= n
    ensures Advance(i, k, n) == (i + k) % n
  {
    QuotientUnique(i + k, n, if i + k < n then 0 else 1, Advance(i, k, n));
  }

  lemma ModuloStep(x: nat, n: nat)
    requires 0 < n
    ensures (x + n) % n == x % n
  {
    assert x + n == n * (x / n + 1) + x % n;
    QuotientUnique(x + n, n, x / n + 1, x % n);
  }

  lemma QuotientUnique(x: nat, n: nat, q: nat, r: nat)
    requires 0 < n && r < n && x == n * q + r
    ensures x % n == r
  {
    var d := x / n - q;
    assert n * d == r - x % n;
    ProductGap(n, d);
  }

  lemma ProductGap(n: int, d: int)
    requires 0 < n
    ensures d >= 1 ==> n * d >= n
    ensures d <= -1 ==> n * d <= -n
  {
  }

  /** How many bytes lie between the two indices. */
  function CircularSize(head: nat, tail: nat, n: nat): (r: nat)
    requires head < n && tail < n
    ensures r < n && Advance(head, r, n) == tail
  {
    if head <= tail then tail - head else tail + n - head
  }

  /** The source computes it as `(tail - head + n) % n` in unsigned 64-bit arithmetic,
      where the difference may wrap around. */
  lemma CircularSizeExpression(head: nat, tail: nat, n: nat)
    requires head < n && tail < n <= SIZE_T / 4
    ensures ((tail - head) % SIZE_T + n) % SIZE_T % n == CircularSize(head, tail, n)
  {
    assert ((tail - head) % SIZE_T + n) % SIZE_T == tail - head + n;
    if head <= tail {
      ModuloStep(tail - head, n);
      QuotientUnique(tail - head, n, 0, tail - head);
    } else {
      QuotientUnique(tail + n - head, n, 0, tail + n - head);
    }
  }

  // ---------- the ring on values ----------

  /** The `k` bytes that start at index `from` and wrap around. */
  function Slice(mem: seq<byte>, from: nat, k: nat): (r: seq<byte>)
    requires from < |mem| && k <= |mem|
    ensures |r| == k
  {
    seq(k, i requires 0 <= i < k => mem[Advance(from, i, |mem|)])
  }

  /** What the ring reads as, given its two indices. */
  function Unread(mem: seq<byte>, head: nat, tail: nat): seq<byte>
    requires head < |mem| && tail < |mem|
  {
    Slice(mem, head, CircularSize(head, tail, |mem|))
  }

  /** One `memcpy` into the ring. */
  function Write(mem: seq<byte>, at: nat, bytes: seq<byte>): (r: seq<byte>)
    requires at + |bytes| <= |mem|
    ensures |r| == |mem|
  {
    mem[..at] + bytes + mem[at + |bytes|..]
  }

  lemma WriteNothing(mem: seq<byte>)
    ensures Write(mem, 0, []) == mem
  {
  }

  /** How much of a chunk fits before the end of the array. */
  function FirstPart(tail: nat, chunk: seq<byte>, n: nat): (r: nat)
    requires tail < n
    ensures r <= |chunk| && tail + r <= n
    ensures r < |chunk| ==> tail + r == n
  {
    if |chunk| <= n - tail then |chunk| else n - tail
  }

  lemma SliceConcat(mem: seq<byte>, from: nat, a: nat, b: nat)
    requires from < |mem| && a + b <= |mem|
    ensures Slice(mem, from, a + b) == Slice(mem, from, a) + Slice(mem, Advance(from, a, |mem|), b)
  {
  }

  lemma SliceDrop(mem: seq<byte>, from: nat, k: nat, c: nat)
    requires from < |mem| && c <= k <= |mem|
    ensures Slice(mem, from, k)[c..] == Slice(mem, Advance(from, c, |mem|), k - c)
  {
  }

  lemma SliceTake(mem: seq<byte>, from: nat, k: nat, c: nat)
    requires from < |mem| && c <= k <= |mem|
    ensures Slice(mem, from, k)[..c] == Slice(mem, from, c)
  {
  }

  /** A slice that may straddle the end of the array, read in two pieces. */
  lemma SliceInTwo(mem: seq<byte>, from: nat, k: nat)
    requires from < |mem| && k <= |mem|
    ensures Slice(mem, from, k) ==
            if k <= |mem| - from then mem[from..from + k] else mem[from..] + mem[..k - (|mem| - from)]
  {
  }

  /** Consuming `c` bytes at the head leaves exactly the rest. */
  lemma ConsumeContents(mem: seq<byte>, head: nat, tail: nat, c: nat)
    requires head < |mem| && tail < |mem|
    requires c <= CircularSize(head, tail, |mem|)
    ensures
      var head' := Advance(head, c, |mem|);
      && CircularSize(head', tail, |mem|) == CircularSize(head, tail, |mem|) - c
      && Unread(mem, head', tail) == Unread(mem, head, tail)[c..]
  {
    SliceDrop(mem, head, CircularSize(head, tail, |mem|), c);
  }

  /** Neither `memcpy` of an append touches the unread bytes in front of it. */
  lemma CopyKeepsUnread(mem: seq<byte>, head: nat, tail: nat, chunk: seq<byte>, k: nat)
    requires head < |mem| && tail < |mem|
    requires k + |chunk| <= |mem| && Advance(head, k, |mem|) == tail
    ensures
      var first := FirstPart(tail, chunk, |mem|);
      && Slice(Write(mem, tail, chunk[..first]), head, k) == Slice(mem, head, k)
      && Slice(Write(mem, 0, chunk[first..]), head, k) == Slice(mem, head, k)
  {
  }

  /** After the first `memcpy` the bytes up to the end of the array are in place, after
      the second the whole chunk is. */
  lemma CopyStores(mem: seq<byte>, tail: nat, chunk: seq<byte>)
    requires tail < |mem| && |chunk| <= |mem|
    ensures
      var first := FirstPart(tail, chunk, |mem|);
      && Slice(Write(mem, tail, chunk[..first]), tail, first) == chunk[..first]
      && (Slice(mem, tail, first) == chunk[..first] ==>
            Slice(Write(mem, 0, chunk[first..]), tail, |chunk|) == chunk)
  {
    var first := FirstPart(tail, chunk, |mem|);
    var m := Write(mem, 0, chunk[first..]);
    if Slice(mem, tail, first) == chunk[..first] {
      forall i | 0 <= i < |chunk| ensures Slice(m, tail, |chunk|)[i] == chunk[i] {
        if i < first {
          assert Slice(mem, tail, first)[i] == chunk[..first][i];
        }
      }
    }
  }

  /** Moving the tail over a stored chunk appends it, unless it fills the ring exactly;
      then the two indices meet and the ring reads as empty. */
  lemma PublishContents(mem: seq<byte>, head: nat, tail: nat, chunk: seq<byte>)
    requires head < |mem| && tail < |mem|
    requires 1 <= |chunk| && CircularSize(head, tail, |mem|) + |chunk| <= |mem|
    requires Slice(mem, tail, |chunk|) == chunk
    ensures
      var tail' := Advance(tail, |chunk|, |mem|);
      if CircularSize(head, tail, |mem|) + |chunk| < |mem| then
        Unread(mem, head, tail') == Unread(mem, head, tail) + chunk
      else
        tail' == head && Unread(mem, head, tail') == []
    ensures Unread(mem, head, Advance(tail, |chunk|, |mem|)) == Unread(mem, head, tail) + chunk
       <==> CircularSize(head, tail, |mem|) + |chunk| < |mem|
  {
    var k := CircularSize(head, tail, |mem|);
    if k + |chunk| < |mem| {
      SliceConcat(mem, head, k, |chunk|);
    }
  }

  // ---------- the ring in place ----------

  class ClientBuffer {
    var buffer: array<byte>
    var head: nat
    var tail: nat

    ghost predicate Valid()
      reads this
    {
      GoodCapacity(buffer.Length) && head < buffer.Length && tail < buffer.Length
    }

    /** The bytes between the read index and `end`. */
    ghost function View(end: nat): seq<byte>
      requires Valid() && end < buffer.Length
      reads this, buffer
    {
      Unread(buffer[..], head, end)
    }

    ghost function Contents(): seq<byte>
      requires Valid()
      reads this, buffer
    {
      View(tail)
    }

    constructor (capacity: nat)
      requires GoodCapacity(capacity)
      ensures Valid() && fresh(buffer) && buffer.Length == capacity
      ensures Contents() == []
    {
      buffer := new byte[capacity](_ => 0);
      head, tail := 0, 0;
    }

    /** `size()`, and the same expression inside the circular decoder. */
    method SizeUpTo(end: nat) returns (size: nat)
      requires Valid() && end < buffer.Length
      ensures size == |View(end)| == CircularSize(head, end, buffer.Length)
    {
      CircularSizeExpression(head, end, buffer.Length);
      size := ((end - head) % SIZE_T + buffer.Length) % SIZE_T % buffer.Length;
    }

    method Wrap(i: nat, k: nat) returns (r: nat)
      requires Valid() && i < buffer.Length && k <= buffer.Length
      ensures r == Advance(i, k, buffer.Length) == (i + k) % buffer.Length
    {
      AdvanceIsModulo(i, k, buffer.Length);
      r := (i + k) % buffer.Length;
    }

    /** The four length bytes, which may straddle the end of the array. */
    method ReadHeader(end: nat) returns (header: seq<byte>)
      requires Valid() && end < buffer.Length && |View(end)| >= HEADER_SIZE
      ensures header == View(end)[..HEADER_SIZE]
    {
      var n := buffer.Length;
      if head + HEADER_SIZE <= n {
        header := buffer[head..head + HEADER_SIZE];
      } else {
        var first := n - head;
        header := buffer[head..] + buffer[..HEADER_SIZE - first];
      }
    }

    /** The body, which may straddle it too. */
    method ReadBody(end: nat, msgLen: nat) returns (message: Message)
      requires Valid() && end < buffer.Length && |View(end)| >= HEADER_SIZE + msgLen
      ensures message == View(end)[HEADER_SIZE..HEADER_SIZE + msgLen]
    {
      var n := buffer.Length;
      var dataPos := Wrap(head, HEADER_SIZE);
      hide Slice;
      var first := if msgLen < n - dataPos then msgLen else n - dataPos;
      message := buffer[dataPos..dataPos + first];
      if msgLen > first {
        message := message + buffer[..msgLen - first];
      }
      SliceInTwo(buffer[..], dataPos, msgLen);
      SliceDrop(buffer[..], head, |View(end)|, HEADER_SIZE);
      assert message == Slice(buffer[..], dataPos, msgLen);
      SliceTake(buffer[..], dataPos, |View(end)| - HEADER_SIZE, msgLen);
    }

    /** `extractMessageCircular`: decides on the bytes up to `end`, exactly as the linear
        decoder decides on the same bytes laid out straight, and consumes what it
        returns. Nothing moves on -1 and -2. */
    method ExtractMessageCircular(end: nat) returns (code: int, message: Message)
      requires Valid() && end < buffer.Length
      modifies this`head
      ensures Valid()
      ensures code == Code(Extract(old(View(end))))
      ensures code > 0 ==> message == Extract(old(View(end))).message
      ensures code > 0 ==> head == Advance(old(head), code, buffer.Length) == (old(head) + code) % buffer.Length
      ensures code > 0 ==> View(end) == old(View(end))[code..]
      ensures code < 0 ==> head == old(head)
    {
      message := [];
      var currentSize := SizeUpTo(end);
      if currentSize < HEADER_SIZE {
        return -1, message;
      }
      var header := ReadHeader(end);
      var msgLen := ReadUInt32BE(header);
      if msgLen == 0 || msgLen > MAX_MESSAGE_SIZE {
        return -2, message;
      }
      var totalNeeded := HEADER_SIZE + msgLen;
      if currentSize < totalNeeded {
        return -1, message;
      }
      message := ReadBody(end, msgLen);
      ConsumeContents(buffer[..], head, end, totalNeeded);
      head := Wrap(head, totalNeeded);
      code := totalNeeded;
    }

    /** The resynchronising step of the drain loop. */
    method SkipByte()
      requires Valid() && |Contents()| > 0
      modifies this`head
      ensures Valid() && Contents() == old(Contents())[1..]
      ensures head == (old(head) + 1) % buffer.Length
    {
      ConsumeContents(buffer[..], head, tail, 1);
      head := Wrap(head, 1);
    }

    /** One `memcpy` into the array. */
    method Copy(at: nat, bytes: seq<byte>)
      requires at + |bytes| <= buffer.Length
      modifies buffer
      ensures buffer[..] == Write(old(buffer[..]), at, bytes)
    {
      forall i | 0 <= i < |bytes| {
        buffer[at + i] := bytes[i];
      }
    }

    /** The two copies of an append; the indices stay. */
    method Store(chunk: seq<byte>)
      requires Valid() && |Contents()| + |chunk| <= buffer.Length
      modifies buffer
      ensures Contents() == old(Contents())
      ensures Slice(buffer[..], tail, |chunk|) == chunk
    {
      hide Slice, Write;
      ghost var before := buffer[..];
      var first := if |chunk| <= buffer.Length - tail then |chunk| else buffer.Length - tail;
      Copy(tail, chunk[..first]);
      ghost var between := buffer[..];
      if |chunk| > first {
        Copy(0, chunk[first..]);
      } else {
        WriteNothing(between);
        assert chunk[first..] == [];
      }
      CopyKeepsUnread(before, head, tail, chunk, CircularSize(head, tail, buffer.Length));
      CopyKeepsUnread(between, head, tail, chunk, CircularSize(head, tail, buffer.Length));
      CopyStores(before, tail, chunk);
      CopyStores(between, tail, chunk);
    }

    /** The reactor's append of one `recv` result. The guard lets a chunk through that
        fills the ring exactly; all bytes then become unreadable. */
    method Append(chunk: seq<byte>) returns (ok: bool)
      requires Valid() && |chunk| >= 1
      modifies this`tail, buffer
      ensures Valid()
      ensures ok <==> |old(Contents())| + |chunk| <= buffer.Length
      ensures !ok ==> Contents() == old(Contents())
      ensures ok && |old(Contents())| + |chunk| < buffer.Length ==> Contents() == old(Contents()) + chunk
      ensures ok && |old(Contents())| + |chunk| == buffer.Length ==> Contents() == []
    {
      var size := SizeUpTo(tail);
      var available := buffer.Length - size;
      if available < |chunk| {
        return false;
      }
      Store(chunk);
      PublishContents(buffer[..], head, tail, chunk);
      tail := Wrap(tail, |chunk|);
      ok := true;
    }
  }
}
