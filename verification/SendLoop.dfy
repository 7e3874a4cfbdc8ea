/** The blocking send loop over a non-blocking socket. The kernel's answers are an input;
    when the list of answers runs out the call is simply still in progress. */
module SendLoop {
  import opened Framing

  const MAX_RETRIES: nat := 5

  /** One return of `send`: some bytes taken, EINTR, EAGAIN, another error, or zero. */
  datatype SendOutcome = Sent(n: nat) | Interrupted | Again | Error | Zero

  datatype SendResult = Delivered | GaveUp | InProgress

  ghost predicate FromKernel(o: SendOutcome) {
    o.Sent? ==> o.n >= 1
  }

  /** Bytes taken by a list of outcomes. */
  function Taken(os: seq<SendOutcome>): nat {
    if os == [] then 0
    else Taken(os[..|os| - 1]) + (if os[|os| - 1].Sent? then os[|os| - 1].n else 0)
  }

  /** EAGAINs since the last byte was taken; EINTR neither counts nor resets. */
  function Stalls(os: seq<SendOutcome>): nat {
    if os == [] then 0
    else match os[|os| - 1]
      case Sent(_) => 0
      case Again => Stalls(os[..|os| - 1]) + 1
      case _ => Stalls(os[..|os| - 1])
  }

  /** The positions of EAGAINs in a stretch of outcomes. */
  function Agains(os: seq<SendOutcome>, from: nat, to: nat): set<nat>
    requires to <= |os|
  {
    set k: nat | from <= k < to && os[k].Again?
  }

  lemma AgainsStep(os: seq<SendOutcome>, from: nat, to: nat)
    requires from <= to < |os|
    ensures |Agains(os, from, to + 1)| == |Agains(os, from, to)| + (if os[to].Again? then 1 else 0)
  {
    assert Agains(os, from, to + 1) == Agains(os, from, to) + if os[to].Again? then {to} else {};
  }

  ghost predicate NoneSent(os: seq<SendOutcome>, from: nat, to: nat)
    requires to <= |os|
  {
    forall k | from <= k < to :: !os[k].Sent?
  }

  /** What the count stands for: there is a last stretch without a byte taken, it goes back to
      the last `Sent` or to the beginning, and its EAGAINs are counted. */
  lemma {:induction false} StallsAreAgains(os: seq<SendOutcome>, i: nat) returns (from: nat)
    requires i <= |os|
    ensures from <= i && NoneSent(os, from, i) && (from == 0 || os[from - 1].Sent?)
    ensures Stalls(os[..i]) == |Agains(os, from, i)|
    decreases i
  {
    if i == 0 {
      from := 0;
      assert Agains(os, 0, 0) == {};
    } else {
      assert os[..i][..i - 1] == os[..i - 1];
      from := StallsAreAgains(os, i - 1);
      if os[i - 1].Sent? {
        from := i;
        assert Agains(os, i, i) == {};
      } else {
        AgainsStep(os, from, i - 1);
      }
    }
  }

  lemma AgainsOrder(os: seq<SendOutcome>, a: nat, b: nat, to: nat)
    requires b <= a && to <= |os|
    ensures |Agains(os, a, to)| <= |Agains(os, b, to)|
  {
    assert Agains(os, b, to) == Agains(os, a, to) + (Agains(os, b, to) - Agains(os, a, to));
  }

  /** A stretch up to and including `i` without a byte taken, with more than five EAGAINs. */
  ghost predicate Stalled(os: seq<SendOutcome>, from: nat, i: nat)
    requires i < |os|
  {
    from <= i && NoneSent(os, from, i + 1) && |Agains(os, from, i + 1)| > 5
  }

  /** When an answer of the kernel ends the call in failure: an error or a zero does, an EAGAIN
      does exactly when it is more than the fifth in a stretch without a byte taken, and nothing
      else does. */
  lemma FatalMeans(os: seq<SendOutcome>, i: nat)
    requires i < |os|
    ensures os[i].Error? || os[i].Zero? ==> FatalAt(os, i)
    ensures os[i].Sent? || os[i].Interrupted? ==> !FatalAt(os, i)
    ensures os[i].Again? ==>
              (FatalAt(os, i) <==> exists from: nat :: Stalled(os, from, i))
  {
    if os[i].Again? {
      var from := StallsAreAgains(os, i + 1);
      assert |Agains(os, from, i + 1)| > 5 ==> Stalled(os, from, i);
      forall other: nat | Stalled(os, other, i) ensures FatalAt(os, i) {
        AgainsOrder(os, other, from, i + 1);
      }
    }
  }

  /** Taken bytes add up: what is taken in two stretches one after the other. */
  lemma {:induction false} TakenAdds(a: seq<SendOutcome>, b: seq<SendOutcome>)
    ensures Taken(a + b) == Taken(a) + Taken(b)
    ensures forall n :: Taken([Sent(n)]) == n
    ensures Taken([Interrupted]) == Taken([Again]) == Taken([Error]) == Taken([Zero]) == 0
    decreases |b|
  {
    if b == [] {
      assert a + b == a;
    } else {
      assert (a + b)[..|a + b| - 1] == a + b[..|b| - 1];
      TakenAdds(a, b[..|b| - 1]);
    }
  }

  ghost predicate FatalAt(os: seq<SendOutcome>, i: nat)
    requires i < |os|
  {
    os[i].Error? || os[i].Zero? || (os[i].Again? && Stalls(os[..i + 1]) > MAX_RETRIES)
  }

  ghost predicate Survives(os: seq<SendOutcome>, k: nat)
    requires k <= |os|
  {
    forall i: nat | i < k :: !FatalAt(os, i)
  }

  /** Enough bytes were taken before the first fatal answer. */
  ghost predicate Completes(os: seq<SendOutcome>, length: nat) {
    exists k: nat :: k <= |os| && Survives(os, k) && Taken(os[..k]) >= length
  }

  lemma {:induction false} TakenMonotone(os: seq<SendOutcome>, j: nat, k: nat)
    requires j <= k <= |os|
    ensures Taken(os[..j]) <= Taken(os[..k])
    decreases k
  {
    if j < k {
      assert os[..k][..k - 1] == os[..k - 1];
      TakenMonotone(os, j, k - 1);
    }
  }

  lemma NotCompleted(os: seq<SendOutcome>, length: nat, i: nat)
    requires i <= |os| && Taken(os[..i]) < length
    requires i == |os| || FatalAt(os, i)
    ensures !Completes(os, length)
  {
    forall k: nat | k <= |os| && Taken(os[..k]) >= length ensures !Survives(os, k) {
      if k <= i {
        TakenMonotone(os, k, i);
      } else {
        assert FatalAt(os, i);
      }
    }
  }

  function Min(a: nat, b: nat): nat {
    if a < b then a else b
  }

  /** `sendMessage`: `tries` counts the calls of `send`, `wire` is what went out and `sleeps` how
      often the loop paused. The wire carries the bytes the kernel took and no more, all of them
      exactly on success; every EAGAIN pauses the loop except the one that ends it. */
  method SendMessage(message: Message, outcomes: seq<SendOutcome>)
    returns (result: SendResult, wire: seq<byte>, sleeps: nat, tries: nat)
    requires forall o <- outcomes :: FromKernel(o)
    ensures tries <= |outcomes| && (result == InProgress ==> tries == |outcomes|)
    ensures wire == Encode(message)[..Min(Taken(outcomes[..tries]), |Encode(message)|)]
    ensures result == Delivered <==> wire == Encode(message)
    ensures result == Delivered <==> Completes(outcomes, |Encode(message)|)
    ensures result == GaveUp <==> !Completes(outcomes, |Encode(message)|) && !Survives(outcomes, |outcomes|)
    ensures result == GaveUp ==> tries > 0 && FatalAt(outcomes, tries - 1)
    ensures |Agains(outcomes, 0, tries)| ==
            sleeps + if result == GaveUp && outcomes[tries - 1].Again? then 1 else 0
    ensures sleeps <= 5 * (4 + |message|)
  {
    var encoded := EncodeMessage(message);
    var total, retryCount := 0, 0;
    sleeps, tries := 0, 0;
    assert outcomes[..0] == [] && Agains(outcomes, 0, 0) == {};
    while total < |encoded|
      invariant 0 <= tries <= |outcomes| && Survives(outcomes, tries)
      invariant total == Min(Taken(outcomes[..tries]), |encoded|)
      invariant retryCount == Stalls(outcomes[..tries]) <= MAX_RETRIES
      invariant sleeps == |Agains(outcomes, 0, tries)| <= MAX_RETRIES * total + retryCount
      invariant total == |encoded| ==> retryCount == 0
      decreases |outcomes| - tries
    {
      wire := encoded[..total];
      if tries == |outcomes| {
        NotCompleted(outcomes, |encoded|, tries);
        return InProgress, wire, sleeps, tries;
      }
      assert outcomes[..tries + 1][..tries] == outcomes[..tries];
      assert FromKernel(outcomes[tries]);
      AgainsStep(outcomes, 0, tries);
      match outcomes[tries] {
        case Sent(n) =>
          total := if n < |encoded| - total then total + n else |encoded|;
          retryCount := 0;
        case Interrupted =>
        case Again =>
          retryCount := retryCount + 1;
          if retryCount > MAX_RETRIES {
            assert FatalAt(outcomes, tries);
            NotCompleted(outcomes, |encoded|, tries);
            return GaveUp, wire, sleeps, tries + 1;
          }
          sleeps := sleeps + 1;
        case _ =>
          assert FatalAt(outcomes, tries);
          NotCompleted(outcomes, |encoded|, tries);
          return GaveUp, wire, sleeps, tries + 1;
      }
      tries := tries + 1;
    }
    assert encoded[..total] == encoded;
    return Delivered, encoded, sleeps, tries;
  }
}
