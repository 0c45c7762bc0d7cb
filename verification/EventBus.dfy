/** The event bus (core/events.go): bounded channels, sends that never wait. */
module EventBus {
  import opened Wrappers
  import opened Machines

  datatype Event = Event(kind: string, source: string, message: string)

  const CAPACITY := 10

  /** A non-blocking send: a full channel drops the event. */
  function Offer(buffer: seq<Event>, e: Event): seq<Event> {
    if |buffer| < CAPACITY then buffer + [e] else buffer
  }

  // ---------------------------------------------------------------- the object

  class Channel {
    var buffer: seq<Event>
    var closed: bool

    constructor ()
      ensures buffer == [] && !closed
    {
      buffer, closed := [], false;
    }

    /** Sending on a closed channel would panic. */
    method TrySend(e: Event)
      requires !closed
      modifies this`buffer
      ensures buffer == if |old(buffer)| < 10 then old(buffer) + [e] else old(buffer)
    {
      if |buffer| < CAPACITY {
        buffer := buffer + [e];
      }
    }

    method Close()
      requires !closed
      modifies this`closed
      ensures closed
    {
      closed := true;
    }
  }

  class Bus {
    var listeners: map<string, seq<Channel>>

    /** Each listening channel is open and listed once. */
    ghost predicate Valid()
      reads this, AllChannels()
    {
      Listed() && forall c :: c in AllChannels() ==> !c.closed
    }

    ghost predicate Listed()
      reads this
    {
      && (forall k, i, j :: k in listeners && 0 <= i < j < |listeners[k]| ==> listeners[k][i] != listeners[k][j])
      && (forall k, l, c :: k in listeners && l in listeners && c in listeners[k] && c in listeners[l] ==> k == l)
    }

    ghost function AllChannels(): set<Channel>
      reads this
    {
      set k, c | k in listeners && c in listeners[k] :: c
    }

    function Of(kind: string): seq<Channel>
      reads this
    {
      if kind in listeners then listeners[kind] else []
    }

    constructor ()
      ensures Valid() && listeners == map[]
    {
      listeners := map[];
    }

    method Subscribe(kind: string) returns (c: Channel)
      requires Valid()
      modifies this
      ensures Valid() && fresh(c) && c.buffer == [] && !c.closed
      ensures listeners == old(listeners)[kind := old(Of(kind)) + [c]]
    {
      c := new Channel();
      listeners := listeners[kind := Of(kind) + [c]];
    }

    /** Every channel of the event's kind is offered it once; no other channel changes. */
    method Publish(e: Event)
      requires Valid()
      modifies AllChannels()
      ensures Valid() && listeners == old(listeners)
      ensures forall c :: c in Of(e.kind) ==>
                c.buffer == if |old(c.buffer)| < 10 then old(c.buffer) + [e] else old(c.buffer)
      ensures forall c :: c in AllChannels() && c !in Of(e.kind) ==> c.buffer == old(c.buffer)
    {
      var channels := Of(e.kind);
      for i := 0 to |channels|
        invariant Valid() && listeners == old(listeners)
        invariant forall j :: 0 <= j < i ==> channels[j].buffer == Offer(old(channels[j].buffer), e)
        invariant forall j :: i <= j < |channels| ==> channels[j].buffer == old(channels[j].buffer)
        invariant forall c :: c in AllChannels() && c !in channels ==> c.buffer == old(c.buffer)
      {
        assert channels[i] in listeners[e.kind] && channels[i] in AllChannels();
        channels[i].TrySend(e);
      }
    }

    /** Closes every channel once and forgets them; what is queued stays to be received. */
    method UnsubscribeAll()
      requires Valid()
      modifies this, AllChannels()
      ensures Valid() && listeners == map[]
      ensures forall c :: c in old(AllChannels()) ==> c.closed && c.buffer == old(c.buffer)
    {
      var kinds := listeners.Keys;
      while kinds != {}
        invariant kinds <= listeners.Keys && listeners == old(listeners) && Listed()
        invariant forall k, c :: k in kinds && c in listeners[k] ==> !c.closed
        invariant forall k, c :: k in listeners.Keys - kinds && c in listeners[k] ==> c.closed
        invariant forall c :: c in AllChannels() ==> c.buffer == old(c.buffer)
      {
        var k :| k in kinds;
        var channels := listeners[k];
        for i := 0 to |channels|
          invariant listeners == old(listeners) && Listed()
          invariant forall j :: 0 <= j < i ==> channels[j].closed
          invariant forall j :: i <= j < |channels| ==> !channels[j].closed
          invariant forall l, c :: l in kinds && l != k && c in listeners[l] ==> !c.closed
          invariant forall l, c :: l in listeners.Keys - kinds && c in listeners[l] ==> c.closed
          invariant forall c :: c in AllChannels() ==> c.buffer == old(c.buffer)
        {
          assert channels[i] in old(listeners)[k] && channels[i] in old(AllChannels());
          channels[i].Close();
        }
        kinds := kinds - {k};
      }
      listeners := map[];
    }
  }

  // ---------------------------------------------------------------- whole runs

  /** A subscription: its channel, what its reader has received, and how many events had been
      published when it was made. */
  datatype Sub = Sub(kind: string, buffer: seq<Event>, closed: bool, received: seq<Event>, since: nat)

  /** `listening` holds the subscriptions in the listener table; `published` is the history. */
  datatype State = State(subs: seq<Sub>, listening: set<nat>, published: seq<Event>, panicked: bool)

  datatype Action = Subscribe(kind: string) | Publish(e: Event) | Receive(i: nat) | UnsubscribeAll

  const INIT := State([], {}, [], false)

  function Offered(s: Sub, e: Event): Sub {
    if s.kind == e.kind then s.(buffer := Offer(s.buffer, e)) else s
  }

  function Step(s: State, a: Action): Option<State> {
    match a
    case Subscribe(kind) =>
      Some(s.(subs := s.subs + [Sub(kind, [], false, [], |s.published|)], listening := s.listening + {|s.subs|}))
    case Publish(e) =>
      Some(s.(published := s.published + [e],
              panicked := s.panicked || exists i :: 0 <= i < |s.subs| && i in s.listening && s.subs[i].kind == e.kind
                                                    && s.subs[i].closed,
              subs := seq(|s.subs|, i requires 0 <= i < |s.subs| =>
                            if i in s.listening then Offered(s.subs[i], e) else s.subs[i])))
    case Receive(i) =>
      if i >= |s.subs| || s.subs[i].buffer == [] then None
      else Some(s.(subs := s.subs[i := s.subs[i].(buffer := s.subs[i].buffer[1..],
                                                  received := s.subs[i].received + [s.subs[i].buffer[0]])]))
    case UnsubscribeAll =>
      Some(s.(listening := {},
              panicked := s.panicked || exists i :: 0 <= i < |s.subs| && i in s.listening && s.subs[i].closed,
              subs := seq(|s.subs|, i requires 0 <= i < |s.subs| =>
                            if i in s.listening then s.subs[i].(closed := true) else s.subs[i])))
  }

  function Run(acts: seq<Action>): Option<State> {
    Replay(INIT, Step, acts)
  }

  /** The events of one kind, in order. */
  function Matching(es: seq<Event>, kind: string): seq<Event> {
    if es == [] then []
    else Matching(es[..|es| - 1], kind) + if es[|es| - 1].kind == kind then [es[|es| - 1]] else []
  }

  /** xs is ys with some elements left out, order kept. */
  predicate Subsequence<T(==)>(xs: seq<T>, ys: seq<T>) {
    xs == [] || (ys != [] && ((xs[|xs| - 1] == ys[|ys| - 1] && Subsequence(xs[..|xs| - 1], ys[..|ys| - 1]))
                              || Subsequence(xs, ys[..|ys| - 1])))
  }

  lemma SubsequenceSkip<T>(xs: seq<T>, ys: seq<T>, y: T)
    requires Subsequence(xs, ys)
    ensures Subsequence(xs, ys + [y]) && Subsequence(xs + [y], ys + [y])
  {
    assert (ys + [y])[..|ys|] == ys && (xs + [y])[..|xs|] == xs;
  }

  lemma MatchingGrows(es: seq<Event>, since: nat, e: Event, kind: string)
    requires since <= |es|
    ensures Matching((es + [e])[since..], kind) == Matching(es[since..], kind) + if e.kind == kind then [e] else []
  {
    var more := (es + [e])[since..];
    assert more == es[since..] + [e];
    assert more[..|more| - 1] == es[since..];
  }

  ghost predicate SubOk(s: State, i: nat)
    requires i < |s.subs|
  {
    var x := s.subs[i];
    && |x.buffer| <= CAPACITY && x.since <= |s.published|
    && Subsequence(x.received + x.buffer, Matching(s.published[x.since..], x.kind))
    && (x.closed <==> i !in s.listening)
  }

  ghost predicate Inv(s: State) {
    !s.panicked && (forall i :: i in s.listening ==> i < |s.subs|)
    && forall i :: 0 <= i < |s.subs| ==> SubOk(s, i)
  }

  lemma PublishKeepsSub(s: State, e: Event, i: nat)
    requires Inv(s) && i < |s.subs|
    ensures SubOk(Step(s, Publish(e)).value, i)
  {
    assert SubOk(s, i);
    var x := s.subs[i];
    var y := Step(s, Publish(e)).value.subs[i];
    var before := Matching(s.published[x.since..], x.kind);
    MatchingGrows(s.published, x.since, e, x.kind);
    if x.kind == e.kind {
      SubsequenceSkip(x.received + x.buffer, before, e);
      assert y.received + y.buffer == x.received + x.buffer
          || y.received + y.buffer == x.received + x.buffer + [e];
    } else {
      assert y == x && before + [] == before;
    }
  }

  lemma StepKeepsInv(s: State, a: Action)
    requires Inv(s) && Step(s, a).Some?
    ensures Inv(Step(s, a).value)
  {
    var t := Step(s, a).value;
    forall i | 0 <= i < |t.subs| ensures SubOk(t, i) {
      match a
      case Publish(e) => PublishKeepsSub(s, e, i);
      case Subscribe(kind) => if i < |s.subs| { assert SubOk(s, i); }
      case Receive(j) =>
        assert SubOk(s, i);
        assert s.subs[j].received + s.subs[j].buffer
            == s.subs[j].received + [s.subs[j].buffer[0]] + s.subs[j].buffer[1..];
      case UnsubscribeAll => assert SubOk(s, i);
    }
    assert !t.panicked by {
      forall i | 0 <= i < |s.subs| && i in s.listening ensures !s.subs[i].closed { assert SubOk(s, i); }
    }
  }

  lemma InvAfter(acts: seq<Action>)
    requires Run(acts).Some?
    ensures Inv(Run(acts).value)
  {
    forall s, a | Inv(s) && Step(s, a).Some? ensures Inv(Step(s, a).value) {
      StepKeepsInv(s, a);
    }
    InvariantHolds(INIT, Step, s => Inv(s), acts);
  }

  /** In every run each subscriber's received and queued events are an in-order subsequence of
      the matching events published after it subscribed; at most ten are queued; and nothing is
      sent on, or closed again after, a close. */
  lemma SubscribersSeeASubsequence(acts: seq<Action>)
    requires Run(acts).Some?
    ensures var s := Run(acts).value;
            && !s.panicked
            && forall i :: 0 <= i < |s.subs| ==>
                 && |s.subs[i].buffer| <= 10 && s.subs[i].since <= |s.published|
                 && Subsequence(s.subs[i].received + s.subs[i].buffer,
                                Matching(s.published[s.subs[i].since..], s.subs[i].kind))
  {
    InvAfter(acts);
    var s := Run(acts).value;
    forall i | 0 <= i < |s.subs|
      ensures |s.subs[i].buffer| <= CAPACITY && s.subs[i].since <= |s.published|
      ensures Subsequence(s.subs[i].received + s.subs[i].buffer,
                          Matching(s.published[s.subs[i].since..], s.subs[i].kind))
    {
      assert SubOk(s, i);
    }
  }

  /** The matching events that were published while subscription i was open and had fewer than
      ten queued. */
  ghost function Kept(acts: seq<Action>, i: nat): seq<Event>
    requires Run(acts).Some?
  {
    if acts == [] then []
    else
      var (before, a) := (acts[..|acts| - 1], acts[|acts| - 1]);
      var s := Run(before).value;
      Kept(before, i) +
      if a.Publish? && i < |s.subs| && s.subs[i].kind == a.e.kind && !s.subs[i].closed && |s.subs[i].buffer| < 10
      then [a.e] else []
  }

  /** Step by step: a subscription gains the event just published, or nothing. */
  lemma StepKeeps(s: State, a: Action, i: nat)
    requires Inv(s) && Step(s, a).Some? && i < |Step(s, a).value.subs|
    ensures var y := Step(s, a).value.subs[i];
            if i >= |s.subs| then y.received + y.buffer == []
            else
              var x := s.subs[i];
              y.kind == x.kind && y.received + y.buffer == x.received + x.buffer +
                if a.Publish? && x.kind == a.e.kind && !x.closed && |x.buffer| < CAPACITY then [a.e] else []
  {
    if i < |s.subs| {
      assert SubOk(s, i);
      var x := s.subs[i];
      assert a.Publish? ==> x.received + (x.buffer + [a.e]) == x.received + x.buffer + [a.e];
      if a == Receive(i) {
        assert x.received + x.buffer == x.received + [x.buffer[0]] + x.buffer[1..];
      }
    }
  }

  /** Exactly what a subscriber gets, in every run: an event is dropped when the queue is full or
      the subscription closed, and only then, whatever was dropped before. */
  lemma {:induction false} SubscribersGetExactlyTheKept(acts: seq<Action>, i: nat)
    requires Run(acts).Some? && i < |Run(acts).value.subs|
    ensures var x := Run(acts).value.subs[i]; x.received + x.buffer == Kept(acts, i)
  {
    if acts != [] {
      var (before, a) := (acts[..|acts| - 1], acts[|acts| - 1]);
      var s := Run(before).value;
      InvAfter(before);
      StepKeeps(s, a, i);
      if i < |s.subs| {
        SubscribersGetExactlyTheKept(before, i);
      } else {
        NotYetKept(before, i);
      }
    }
  }

  lemma {:induction false} NotYetKept(acts: seq<Action>, i: nat)
    requires Run(acts).Some? && i >= |Run(acts).value.subs|
    ensures Kept(acts, i) == []
  {
    if acts != [] {
      NotYetKept(acts[..|acts| - 1], i);
    }
  }

  /** A subscriber that keeps up: whenever an event of its kind is published it is open and has
      fewer than ten queued. */
  ghost predicate KeepsUp(acts: seq<Action>, i: nat) {
    forall n :: 0 <= n < |acts| && acts[n].Publish? && Run(acts[..n]).Some? && i < |Run(acts[..n]).value.subs| ==>
      var x := Run(acts[..n]).value.subs[i];
      x.kind == acts[n].e.kind ==> !x.closed && |x.buffer| < CAPACITY
  }

  /** In particular, a subscriber that keeps up gets every matching event since it subscribed. */
  lemma {:induction false} NothingElseIsDropped(acts: seq<Action>, i: nat)
    requires Run(acts).Some? && i < |Run(acts).value.subs| && KeepsUp(acts, i)
    ensures var s := Run(acts).value;
            var x := s.subs[i];
            x.since <= |s.published| && x.received + x.buffer == Matching(s.published[x.since..], x.kind)
  {
    if acts != [] {
      var n := |acts| - 1;
      var (before, s) := (acts[..n], Run(acts[..n]).value);
      InvAfter(before);
      StepKeeps(s, acts[n], i);
      if i < |s.subs| {
        assert KeepsUp(before, i) by {
          assert forall m :: 0 <= m < n ==> before[..m] == acts[..m] && before[m] == acts[m];
        }
        NothingElseIsDropped(before, i);
        assert SubOk(s, i);
        if acts[n].Publish? {
          MatchingGrows(s.published, s.subs[i].since, acts[n].e, s.subs[i].kind);
        }
      } else {
        assert s.published[|s.published|..] == [];
      }
    }
  }

  // ---------------------------------------------------------------- what a run records

  /** The events a schedule published. */
  function Published(acts: seq<Action>): seq<Event> {
    if acts == [] then []
    else
      var a := acts[|acts| - 1];
      Published(acts[..|acts| - 1]) + if a.Publish? then [a.e] else []
  }

  /** Its subscriptions: their kinds, and how many events had been published before each. */
  function Subscribed(acts: seq<Action>): seq<(string, nat)> {
    if acts == [] then []
    else
      var (before, a) := (acts[..|acts| - 1], acts[|acts| - 1]);
      Subscribed(before) + if a.Subscribe? then [(a.kind, |Published(before)|)] else []
  }

  /** How many of them existed when UnsubscribeAll last ran. */
  function Ended(acts: seq<Action>): nat {
    if acts == [] then 0
    else
      var (before, a) := (acts[..|acts| - 1], acts[|acts| - 1]);
      if a.UnsubscribeAll? then |Subscribed(before)| else Ended(before)
  }

  ghost predicate Recorded(s: State, acts: seq<Action>) {
    && s.published == Published(acts) && |s.subs| == |Subscribed(acts)| && Ended(acts) <= |s.subs|
    && (forall i :: 0 <= i < |s.subs| ==>
          && (s.subs[i].kind, s.subs[i].since) == Subscribed(acts)[i]
          && (s.subs[i].closed <==> i < Ended(acts)))
  }

  lemma StepRecords(s: State, acts: seq<Action>, a: Action)
    requires Inv(s) && Recorded(s, acts) && Step(s, a).Some?
    ensures Recorded(Step(s, a).value, acts + [a])
  {
    var t := Step(s, a).value;
    assert (acts + [a])[..|acts|] == acts;
    if a.UnsubscribeAll? {
      forall i | 0 <= i < |t.subs| ensures t.subs[i].closed { assert SubOk(s, i); }
    }
  }

  /** A run's subscriptions are the ones its schedule made, in order, and each is closed exactly if
      UnsubscribeAll ran after it was made. */
  lemma {:induction false} RunsRecordTheirSteps(acts: seq<Action>)
    requires Run(acts).Some?
    ensures var s := Run(acts).value;
            && s.published == Published(acts) && |s.subs| == |Subscribed(acts)|
            && forall i :: 0 <= i < |s.subs| ==>
                 && s.subs[i].kind == Subscribed(acts)[i].0 && s.subs[i].since == Subscribed(acts)[i].1
                 && (s.subs[i].closed <==> i < Ended(acts))
    ensures Recorded(Run(acts).value, acts)
  {
    if acts != [] {
      var before := acts[..|acts| - 1];
      RunsRecordTheirSteps(before);
      InvAfter(before);
      assert acts == before + [acts[|acts| - 1]];
      StepRecords(Run(before).value, before, acts[|acts| - 1]);
    }
  }
}
