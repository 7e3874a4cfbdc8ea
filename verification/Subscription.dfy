/** The Redis subscriptions of one server: worker threads change the set of wanted channels
    under `redis_mutex` and queue a command; the subscription thread swaps the queue out and
    sends the commands one by one. hiredis errors and reconnects do not occur here. */
module Subscription {
  import opened Wrappers

  datatype Command = Sub(channel: int) | Unsub(channel: int)

  /** `change` is a command that has been queued while `redis_subscribed_channels` has not
      been updated yet. `issued` is history. */
  datatype State = State(
    running: bool,
    channels: set<int>,
    change: Option<Command>,
    queue: seq<Command>,
    local: seq<Command>,
    actual: set<int>,
    issued: seq<Command>)

  datatype Step =
    | Subscribe(channel: int)
    | Unsubscribe(channel: int)
    | UpdateChannels
    | SwapQueue
    | SendCommand
    | SetRunning(on: bool)

  ghost predicate Init(s: State) {
    s.channels == {} && s.change.None? && s.queue == [] && s.local == [] && s.actual == {} && s.issued == []
  }

  ghost predicate Enabled(s: State, a: Step) {
    match a
    case Subscribe(channel) => s.change.None? && channel !in s.channels
    case Unsubscribe(channel) => s.change.None? && channel in s.channels
    case UpdateChannels => s.change.Some?
    case SwapQueue => s.local == []
    case SendCommand => s.local != []
    case SetRunning(_) => true
  }

  function Effect1(set0: set<int>, c: Command): set<int> {
    match c
    case Sub(channel) => set0 + {channel}
    case Unsub(channel) => set0 - {channel}
  }

  function Effect(set0: set<int>, cs: seq<Command>): set<int>
    decreases |cs|
  {
    if cs == [] then set0 else Effect(Effect1(set0, cs[0]), cs[1..])
  }

  /** Queueing fails when the subscriber is not running; then nothing changes. */
  function Queue(s: State, c: Command): State {
    if s.running then s.(queue := s.queue + [c], issued := s.issued + [c], change := Some(c)) else s
  }

  function Apply(s: State, a: Step): State
    requires Enabled(s, a)
  {
    match a
    case Subscribe(channel) => Queue(s, Sub(channel))
    case Unsubscribe(channel) => Queue(s, Unsub(channel))
    case UpdateChannels => s.(channels := Effect1(s.channels, s.change.value), change := None)
    case SwapQueue => s.(local := s.queue, queue := [])
    case SendCommand => s.(actual := Effect1(s.actual, s.local[0]), local := s.local[1..])
    case SetRunning(on) => s.(running := on)
  }

  lemma {:induction false} EffectAppend(set0: set<int>, a: seq<Command>, b: seq<Command>)
    ensures Effect(set0, a + b) == Effect(Effect(set0, a), b)
    decreases |a|
  {
    if a == [] {
      assert a + b == b;
    } else {
      assert (a + b)[1..] == a[1..] + b;
      EffectAppend(Effect1(set0, a[0]), a[1..], b);
    }
  }

  /** The same object in place: `Subscribe` and `Unsubscribe` keep the queue and the set of
      channels in step, and draining the queue makes Redis catch up. */
  class Subscriber {
    var running: bool
    var channels: set<int>
    var queue: seq<Command>
    var actual: set<int>

    ghost predicate Valid()
      reads this
    {
      Effect(actual, queue) == channels
    }

    constructor ()
      ensures Valid() && running && channels == {} && queue == []
    {
      running, channels, queue, actual := true, {}, [], {};
    }

    /** The block of the sign-in handler. */
    method Subscribe(channel: int)
      requires Valid()
      modifies this
      ensures Valid() && running == old(running) && actual == old(actual)
      ensures channels == old(channels) + (if running then {channel} else {})
      ensures queue == old(queue) + (if running && channel !in old(channels) then [Sub(channel)] else [])
    {
      if channel !in channels && running {
        EffectAppend(actual, queue, [Sub(channel)]);
        assert [Sub(channel)][1..] == [];
        queue := queue + [Sub(channel)];
        channels := channels + {channel};
      }
    }

    /** The block of the quit handler and of `close_clint`. */
    method Unsubscribe(channel: int)
      requires Valid()
      modifies this
      ensures Valid() && running == old(running) && actual == old(actual)
      ensures channels == old(channels) - (if running then {channel} else {})
      ensures queue == old(queue) + (if running && channel in old(channels) then [Unsub(channel)] else [])
    {
      if channel in channels && running {
        EffectAppend(actual, queue, [Unsub(channel)]);
        assert [Unsub(channel)][1..] == [];
        queue := queue + [Unsub(channel)];
        channels := channels - {channel};
      }
    }

    /** `process_pending_commands`. */
    method ProcessPendingCommands()
      requires Valid()
      modifies this`queue, this`actual
      ensures Valid() && queue == [] && actual == channels
    {
      var local := queue;
      queue := [];
      while local != []
        invariant queue == [] && Effect(actual, local) == channels
        decreases |local|
      {
        actual := Effect1(actual, local[0]);
        local := local[1..];
      }
    }
  }

  /** The set wanted once the update under way is done. */
  function Wanted(s: State): set<int> {
    if s.change.Some? then Effect1(s.channels, s.change.value) else s.channels
  }

  /** The commands of one channel. */
  function Of(cs: seq<Command>, channel: int): seq<Command> {
    if cs == [] then []
    else Of(cs[..|cs| - 1], channel) + (if cs[|cs| - 1].channel == channel then [cs[|cs| - 1]] else [])
  }

  /** Sub, Unsub, Sub, ... */
  ghost predicate Alternates(cs: seq<Command>) {
    forall i :: 0 <= i < |cs| ==> cs[i].Sub? == (i % 2 == 0)
  }

  ghost predicate Inv(s: State) {
    && Effect(s.actual, s.local + s.queue) == Wanted(s)
    && (forall channel :: Alternates(Of(s.issued, channel)))
    && (forall channel :: channel in Wanted(s) <==> |Of(s.issued, channel)| % 2 == 1)
  }

  lemma OfAppend(cs: seq<Command>, c: Command, channel: int)
    ensures Of(cs + [c], channel) == Of(cs, channel) + (if c.channel == channel then [c] else [])
  {
    assert (cs + [c])[..|cs|] == cs;
  }

  lemma QueueKeepsMirror(s: State, c: Command)
    requires Inv(s) && s.change.None? && s.running
    ensures Effect(s.actual, s.local + (s.queue + [c])) == Effect1(s.channels, c)
  {
    assert s.local + (s.queue + [c]) == s.local + s.queue + [c];
    EffectAppend(s.actual, s.local + s.queue, [c]);
    assert [c][1..] == [];
  }

  lemma QueueKeepsAlternation(s: State, c: Command, channel: int)
    requires Inv(s) && s.change.None?
    requires c.Sub? <==> c.channel !in s.channels
    ensures Alternates(Of(s.issued + [c], channel))
    ensures channel in Effect1(s.channels, c) <==> |Of(s.issued + [c], channel)| % 2 == 1
  {
    OfAppend(s.issued, c, channel);
    assert Alternates(Of(s.issued, channel));
    assert channel in Wanted(s) <==> |Of(s.issued, channel)| % 2 == 1;
  }

  lemma QueueKeepsInv(s: State, c: Command)
    requires Inv(s) && s.change.None?
    requires c.Sub? <==> c.channel !in s.channels
    ensures Inv(Queue(s, c))
  {
    if s.running {
      QueueKeepsMirror(s, c);
      forall channel
        ensures Alternates(Of(s.issued + [c], channel))
        ensures channel in Effect1(s.channels, c) <==> |Of(s.issued + [c], channel)| % 2 == 1
      {
        QueueKeepsAlternation(s, c, channel);
      }
    }
  }

  lemma {:induction false} KeepsInv(s: State, a: Step)
    requires Inv(s) && Enabled(s, a)
    ensures Inv(Apply(s, a))
  {
    match a
    case Subscribe(channel) => QueueKeepsInv(s, Sub(channel));
    case Unsubscribe(channel) => QueueKeepsInv(s, Unsub(channel));
    case SwapQueue => assert s.local + s.queue == s.queue == s.queue + [];
    case SendCommand => assert (s.local + s.queue)[1..] == s.local[1..] + s.queue;
    case UpdateChannels =>
    case SetRunning(_) =>
  }

  ghost predicate Run(s: State, steps: seq<Step>, t: State)
    decreases |steps|
  {
    if steps == [] then s == t
    else Enabled(s, steps[0]) && Run(Apply(s, steps[0]), steps[1..], t)
  }

  ghost predicate Reachable(t: State) {
    exists s, steps :: Init(s) && Run(s, steps, t)
  }

  lemma {:induction false} RunKeepsInv(s: State, steps: seq<Step>, t: State)
    requires Inv(s) && Run(s, steps, t)
    ensures Inv(t)
    decreases |steps|
  {
    hide Inv, Enabled, Apply;
    if steps != [] {
      KeepsInv(s, steps[0]);
      RunKeepsInv(Apply(s, steps[0]), steps[1..], t);
    }
  }

  /** The subscriptions Redis will have when the commands taken and the commands queued are
      through are the ones the server believes in, and once both are through they are so
      already. Per channel the commands strictly alternate, beginning with SUB. */
  lemma SubscriptionMirror(t: State, channel: int)
    requires Reachable(t)
    ensures t.change.None? ==> Effect(t.actual, t.local + t.queue) == t.channels
    ensures t.change.None? && t.local == [] && t.queue == [] ==> t.actual == t.channels
    ensures Alternates(Of(t.issued, channel))
  {
    var s, steps :| Init(s) && Run(s, steps, t);
    assert Inv(s) by {
      assert s.local + s.queue == [];
    }
    RunKeepsInv(s, steps, t);
    if t.local == [] && t.queue == [] {
      assert t.local + t.queue == [];
    }
  }

  // ---------- what is done when nobody comes between ----------

  /** The block of a handler: command and recorded set change together while the subscriber runs,
      and nothing does when it does not. */
  lemma BlockSteps(s: State, channel: int)
    requires s.change.None?
    ensures channel !in s.channels ==>
              var s1 := Apply(s, Subscribe(channel));
              if s.running then
                && Enabled(s1, UpdateChannels)
                && Apply(s1, UpdateChannels) ==
                   s.(channels := s.channels + {channel}, queue := s.queue + [Sub(channel)],
                      issued := s.issued + [Sub(channel)])
              else s1 == s
    ensures channel in s.channels ==>
              var s1 := Apply(s, Unsubscribe(channel));
              if s.running then
                && Enabled(s1, UpdateChannels)
                && Apply(s1, UpdateChannels) ==
                   s.(channels := s.channels - {channel}, queue := s.queue + [Unsub(channel)],
                      issued := s.issued + [Unsub(channel)])
              else s1 == s
  {
  }

  /** Sending what has been taken, one command after the other. */
  function SendAll(s: State): State
    decreases |s.local|
  {
    if s.local == [] then s else SendAll(Apply(s, SendCommand))
  }

  lemma {:induction false} SendingAll(s: State)
    ensures SendAll(s) == s.(actual := Effect(s.actual, s.local), local := [])
    decreases |s.local|
  {
    if s.local != [] {
      SendingAll(Apply(s, SendCommand));
    }
  }

  /** A command switches its own channel and no other. */
  lemma CommandsSwitch(subscribed: set<int>, channel: int)
    ensures Effect(subscribed, [Sub(channel)]) == subscribed + {channel}
    ensures Effect(subscribed, [Unsub(channel)]) == subscribed - {channel}
  {
    assert [Sub(channel)][1..] == [] && [Unsub(channel)][1..] == [];
  }

  /** `process_pending_commands`: swap and send all, and Redis has what the server recorded. */
  lemma DrainSteps(s: State)
    requires Reachable(s) && s.local == [] && s.change.None?
    ensures
      var t := SendAll(Apply(s, SwapQueue));
      t == s.(queue := [], actual := s.channels)
  {
    SubscriptionMirror(s, 0);
    assert s.local + s.queue == s.queue;
    SendingAll(Apply(s, SwapQueue));
  }
}
