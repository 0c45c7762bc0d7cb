/** What a run of the dispatch protocol owes to the steps it was made of: who was asked, why a
    call ended as it did, and that no agent works on an unacknowledged registration. */
module DispatchHistory {
  import opened Wrappers
  import opened Machines
  import opened Protocol
  import opened Sessions
  import opened Dispatch
  import opened DispatchSafety
  import Agents

  // ---------------------------------------------------------------- why calls end as they do

  /** The ways in which the steps of a call can have decided its ending. */
  predicate TimedOutIn(acts: seq<Action>, i: nat) {
    OnCall(i, Timeout) in acts
  }

  predicate SendFailedIn(acts: seq<Action>, i: nat) {
    OnCall(i, SendRequest(true, false)) in acts || OnCall(i, SendRequest(false, false)) in acts
  }

  predicate AnsweredIn(acts: seq<Action>, i: nat) {
    OnCall(i, TakeReply) in acts
  }

  predicate Decided(why: Ending, acts: seq<Action>, i: nat) {
    && (why.TimedOut? <==> TimedOutIn(acts, i)) && (why.SendFailed? <==> SendFailedIn(acts, i))
    && (why.Answer? || why.Cancelled? <==> AnsweredIn(acts, i))
  }

  ghost predicate EndingOk(s: State, acts: seq<Action>, i: nat)
    requires i < |s.calls|
  {
    match s.calls[i].pc
    case Cancelling(why) => Decided(why, acts, i)
    case CancelTook(why, _) => Decided(why, acts, i)
    case Done(ending) => Decided(ending, acts, i)
    case _ => !TimedOutIn(acts, i) && !SendFailedIn(acts, i) && !AnsweredIn(acts, i)
  }

  ghost predicate EndingsOk(s: State, acts: seq<Action>) {
    && (forall i :: 0 <= i < |s.calls| ==> EndingOk(s, acts, i))
    && (forall k :: 0 <= k < |acts| && acts[k].OnCall? ==> acts[k].i < |s.calls|)
  }

  lemma InLonger(acts: seq<Action>, a: Action, b: Action)
    ensures b in acts + [a] <==> b in acts || b == a
  {
  }

  /** The steps that count for call i, before and after one more. */
  lemma DecidersGrow(acts: seq<Action>, a: Action, i: nat)
    ensures TimedOutIn(acts + [a], i) <==> TimedOutIn(acts, i) || a == OnCall(i, Timeout)
    ensures SendFailedIn(acts + [a], i) <==>
            SendFailedIn(acts, i) || (a.OnCall? && a.i == i && a.call.SendRequest? && !a.call.ok)
    ensures AnsweredIn(acts + [a], i) <==> AnsweredIn(acts, i) || a == OnCall(i, TakeReply)
  {
    InLonger(acts, a, OnCall(i, Timeout));
    InLonger(acts, a, OnCall(i, TakeReply));
    InLonger(acts, a, OnCall(i, SendRequest(true, false)));
    InLonger(acts, a, OnCall(i, SendRequest(false, false)));
  }

  /** What the record of call i keeps when some other call or a connection moves. */
  predicate SameCall(s: State, t: State, i: nat)
    requires i < |s.calls|
  {
    && |s.calls| <= |t.calls| && t.calls[i].pc == s.calls[i].pc && t.calls[i].agent == s.calls[i].agent
    && t.calls[i].request == s.calls[i].request
  }

  lemma ServerStepsKeepCall(s: State, c: nat, e: ConnEvent, i: nat)
    requires c < |s.conns| && ConnStep(s, c, e).Some? && i < |s.calls| && !e.AgentHandle?
    ensures var t := ConnStep(s, c, e).value;
            SameCall(s, t, i) && |t.calls| == |s.calls| && t.calls[i].trail == s.calls[i].trail && t.log == s.log
  {
    if e.TakeForReply? || e.SendReply? || e.CloseReply? {
      ReplyStepsKeepCall(s, c, e, i);
    }
  }

  lemma ReplyStepsKeepCall(s: State, c: nat, e: ConnEvent, i: nat)
    requires c < |s.conns| && ConnStep(s, c, e).Some? && i < |s.calls|
    requires e.TakeForReply? || e.SendReply? || e.CloseReply?
    ensures var t := ConnStep(s, c, e).value;
            SameCall(s, t, i) && |t.calls| == |s.calls| && t.calls[i].trail == s.calls[i].trail && t.log == s.log
  {
  }

  lemma OtherCallsKeepCall(s: State, j: nat, e: CallEvent, i: nat)
    requires j < |s.calls| && CallStep(s, j, e).Some? && i < |s.calls| && i != j
    ensures var t := CallStep(s, j, e).value;
            SameCall(s, t, i) && |t.calls| == |s.calls| && t.calls[i].trail == s.calls[i].trail && t.log == s.log
  {
  }

  lemma HandlingKeepsCall(s: State, c: nat, r: Agents.Outcome, i: nat)
    requires c < |s.conns| && DoAgentHandle(s, c, r).Some? && i < |s.calls|
    ensures var t := DoAgentHandle(s, c, r).value; SameCall(s, t, i) && |t.calls| == |s.calls|
  {
  }

  /** Steps of a connection, of other calls, and the making of new ones leave a call's place alone. */
  lemma OthersKeepPc(s: State, a: Action, i: nat)
    requires Step(s, a).Some? && i < |s.calls| && !(a.OnCall? && a.i == i)
    ensures SameCall(s, Step(s, a).value, i)
  {
    match a
    case Connect(_, _) =>
    case Start(_, _) =>
    case OnCall(j, e) => OtherCallsKeepCall(s, j, e, i);
    case OnConn(c, e) =>
      if e.AgentHandle? { HandlingKeepsCall(s, c, e.result, i); } else { ServerStepsKeepCall(s, c, e, i); }
  }

  lemma OwnStepDecides(s: State, acts: seq<Action>, i: nat, e: CallEvent)
    requires i < |s.calls| && CallStep(s, i, e).Some? && EndingOk(s, acts, i)
    ensures EndingOk(CallStep(s, i, e).value, acts + [OnCall(i, e)], i)
  {
    DecidersGrow(acts, OnCall(i, e), i);
  }

  lemma StepKeepsEndings(s: State, acts: seq<Action>, a: Action)
    requires EndingsOk(s, acts) && Step(s, a).Some?
    ensures EndingsOk(Step(s, a).value, acts + [a])
  {
    var t := Step(s, a).value;
    CallsStay(s, a);
    forall i | 0 <= i < |t.calls| ensures EndingOk(t, acts + [a], i) {
      if i < |s.calls| {
        StepKeepsEnding(s, acts, a, i);
      } else {
        NewCallsLook(s, a, i);
        DecidersGrow(acts, a, i);
      }
    }
  }

  lemma StepKeepsEnding(s: State, acts: seq<Action>, a: Action, i: nat)
    requires Step(s, a).Some? && i < |s.calls| && EndingOk(s, acts, i)
    ensures i < |Step(s, a).value.calls| && EndingOk(Step(s, a).value, acts + [a], i)
  {
    if a.OnCall? && a.i == i {
      OwnStepDecides(s, acts, i, a.call);
    } else {
      OthersKeepPc(s, a, i);
      DecidersGrow(acts, a, i);
    }
  }

  lemma CallsStay(s: State, a: Action)
    requires Step(s, a).Some?
    ensures |Step(s, a).value.calls| >= |s.calls| && (a.OnCall? ==> a.i < |s.calls|)
  {
    if |s.calls| > 0 && !(a.OnCall? && a.i == 0) {
      OthersKeepPc(s, a, 0);
    }
  }

  lemma {:induction false} EndingsAfter(acts: seq<Action>)
    requires Run(acts).Some?
    ensures EndingsOk(Run(acts).value, acts)
  {
    if acts != [] {
      var (before, a) := (acts[..|acts| - 1], acts[|acts| - 1]);
      EndingsAfter(before);
      assert acts == before + [a];
      StepKeepsEndings(Run(before).value, before, a);
    }
  }

  /** A finished call tells what happened to it: it timed out exactly if its timer won, failed to
      send exactly if the write failed, returned a message exactly if it received one, and is
      offline exactly if none of these happened; and no wait is ever cancelled. */
  lemma EndingsTellWhatHappened(acts: seq<Action>, i: nat)
    requires Run(acts).Some? && i < |Run(acts).value.calls| && Run(acts).value.calls[i].pc.Done?
    ensures var ending := Run(acts).value.calls[i].pc.ending;
            && (ending.TimedOut? <==> OnCall(i, Timeout) in acts)
            && (ending.SendFailed? <==> exists d :: OnCall(i, SendRequest(d, false)) in acts)
            && (ending.Answer? <==> OnCall(i, TakeReply) in acts)
            && !ending.Cancelled?
  {
    EndingsAfter(acts);
    InvAfter(acts);
    var s := Run(acts).value;
    assert EndingOk(s, acts, i) && CallOk(s, i);
  }

  // ---------------------------------------------------------------- where requests go

  /** No session of the agent is being served. */
  ghost predicate Nobody(s: State, agent: AgentId) {
    agent !in s.latest || (s.latest[agent] < |s.conns| && s.conns[s.latest[agent]].reader.Gone?)
  }

  /** Connection c is where the call is sending, has sent, or was handled. */
  ghost predicate RoutedTo(s: State, i: nat, c: nat)
    requires i < |s.calls|
  {
    var x := s.calls[i];
    && (x.pc.Found? || x.pc.Registered? ==> x.pc.conn == c)
    && (x.trail.OnWire? ==> x.trail.conn == c)
    && (x.trail.Handled? ==> x.trail.entry < |s.log| && s.log[x.trail.entry].conn == c)
  }

  /** b, the state at the lookup of call i, decided whether and where it went. */
  ghost predicate RouteFrom(b: State, s: State, i: nat)
    requires i < |s.calls|
  {
    var agent := s.calls[i].agent;
    && (s.calls[i].pc == Done(Offline) <==> Nobody(b, agent))
    && (!Nobody(b, agent) ==> agent in b.latest && RoutedTo(s, i, b.latest[agent]))
  }

  /** Step k looked call i up, and the state before it decided. */
  ghost predicate LookedUp(acts: seq<Action>, k: nat, s: State, i: nat)
    requires i < |s.calls|
  {
    && k < |acts| && acts[k] == OnCall(i, Lookup)
    && Run(acts[..k]).Some? && RouteFrom(Run(acts[..k]).value, s, i)
  }

  ghost predicate RouteOk(s: State, acts: seq<Action>, i: nat)
    requires i < |s.calls|
  {
    s.calls[i].pc.Looking? || exists k: nat :: LookedUp(acts, k, s, i)
  }

  lemma LookupRoutes(s: State, i: nat)
    requires Inv(s) && i < |s.calls| && DoLookup(s, i).Some?
    ensures RouteFrom(s, DoLookup(s, i).value, i) && !DoLookup(s, i).value.calls[i].pc.Looking?
  {
    assert CallOk(s, i);
  }

  lemma OwnStepKeepsRoute(s: State, i: nat, e: CallEvent, c: nat)
    requires Inv(s) && i < |s.calls| && !e.Lookup? && CallStep(s, i, e).Some?
    ensures var t := CallStep(s, i, e).value;
            && !t.calls[i].pc.Looking? && t.calls[i].agent == s.calls[i].agent
            && s.calls[i].pc != Done(Offline) && t.calls[i].pc != Done(Offline)
            && (RoutedTo(s, i, c) ==> RoutedTo(t, i, c))
  {
    assert CallOk(s, i);
  }

  lemma HandlingKeepsRoute(s: State, f: nat, r: Agents.Outcome, i: nat, c: nat)
    requires Inv(s) && f < |s.conns| && DoAgentHandle(s, f, r).Some? && i < |s.calls| && RoutedTo(s, i, c)
    ensures i < |DoAgentHandle(s, f, r).value.calls| && RoutedTo(DoAgentHandle(s, f, r).value, i, c)
  {
    HandlingKeepsCall(s, f, r, i);
    var m := s.conns[f].toAgent[0];
    assert ConnOk(s, f);
    assert QueuedOk(s, f, m);
    Agents.OneReplyPerRequest(s.conns[f].machine in s.frozen, m, r);
  }

  lemma OtherStepsKeepRoute(s: State, a: Action, i: nat, c: nat)
    requires Inv(s) && Step(s, a).Some? && i < |s.calls| && !(a.OnCall? && a.i == i)
    ensures SameCall(s, Step(s, a).value, i) && (RoutedTo(s, i, c) ==> RoutedTo(Step(s, a).value, i, c))
  {
    OthersKeepPc(s, a, i);
    match a
    case Connect(_, _) =>
    case Start(_, _) =>
    case OnCall(j, e) => OtherCallsKeepCall(s, j, e, i);
    case OnConn(f, e) =>
      if !e.AgentHandle? { ServerStepsKeepCall(s, f, e, i); }
      else if RoutedTo(s, i, c) { HandlingKeepsRoute(s, f, e.result, i, c); }
  }

  /** Later steps do not change what the lookup decided. */
  lemma RouteKept(b: State, s: State, a: Action, i: nat)
    requires Inv(s) && Step(s, a).Some? && i < |s.calls| && !s.calls[i].pc.Looking? && RouteFrom(b, s, i)
    ensures i < |Step(s, a).value.calls| && !Step(s, a).value.calls[i].pc.Looking?
    ensures RouteFrom(b, Step(s, a).value, i)
  {
    var agent := s.calls[i].agent;
    var c := if agent in b.latest then b.latest[agent] else 0;
    if a.OnCall? && a.i == i {
      OwnStepKeepsRoute(s, i, a.call, c);
    } else {
      OtherStepsKeepRoute(s, a, i, c);
    }
  }

  lemma LookedUpInLonger(acts: seq<Action>, a: Action, k: nat, t: State, i: nat)
    requires i < |t.calls| && k < |acts| && acts[k] == OnCall(i, Lookup) && Run(acts[..k]).Some?
    requires RouteFrom(Run(acts[..k]).value, t, i)
    ensures RouteOk(t, acts + [a], i)
  {
    assert (acts + [a])[..k] == acts[..k] && LookedUp(acts + [a], k, t, i);
  }

  lemma LookedUpNow(acts: seq<Action>, s: State, i: nat)
    requires Run(acts) == Some(s) && Inv(s) && i < |s.calls| && DoLookup(s, i).Some?
    ensures RouteOk(DoLookup(s, i).value, acts + [OnCall(i, Lookup)], i)
  {
    var (t, more) := (DoLookup(s, i).value, acts + [OnCall(i, Lookup)]);
    LookupRoutes(s, i);
    assert more[..|acts|] == acts && LookedUp(more, |acts|, t, i);
  }

  lemma StepKeepsRoute(s: State, acts: seq<Action>, a: Action, i: nat)
    requires Run(acts) == Some(s) && Inv(s) && Step(s, a).Some? && i < |s.calls| && RouteOk(s, acts, i)
    ensures i < |Step(s, a).value.calls| && RouteOk(Step(s, a).value, acts + [a], i)
  {
    if s.calls[i].pc.Looking? {
      if a.OnCall? && a.i == i {
        assert a == OnCall(i, Lookup);
        LookedUpNow(acts, s, i);
      } else {
        OthersKeepPc(s, a, i);
      }
    } else {
      var k: nat :| LookedUp(acts, k, s, i);
      RouteKept(Run(acts[..k]).value, s, a, i);
      LookedUpInLonger(acts, a, k, Step(s, a).value, i);
    }
  }

  lemma {:induction false} RouteAfter(acts: seq<Action>, i: nat)
    requires Run(acts).Some? && i < |Run(acts).value.calls|
    ensures RouteOk(Run(acts).value, acts, i)
  {
    if acts != [] {
      var (before, a) := (acts[..|acts| - 1], acts[|acts| - 1]);
      var s := Run(before).value;
      InvAfter(before);
      assert acts == before + [a];
      if i < |s.calls| {
        RouteAfter(before, i);
        StepKeepsRoute(s, before, a, i);
      } else {
        NewCallsLook(s, a, i);
      }
    }
  }

  lemma NewCallsLook(s: State, a: Action, i: nat)
    requires Step(s, a).Some? && |s.calls| <= i < |Step(s, a).value.calls|
    ensures Step(s, a).value.calls[i].pc.Looking?
  {
    match a
    case Connect(_, _) =>
    case Start(_, _) =>
    case OnCall(j, e) => CallCountKept(s, j, e);
    case OnConn(c, e) => ConnCountKept(s, c, e);
  }

  lemma CallCountKept(s: State, j: nat, e: CallEvent)
    requires j < |s.calls| && CallStep(s, j, e).Some?
    ensures |CallStep(s, j, e).value.calls| == |s.calls|
  {
  }

  lemma ConnCountKept(s: State, c: nat, e: ConnEvent)
    requires c < |s.conns| && ConnStep(s, c, e).Some?
    ensures |ConnStep(s, c, e).value.calls| == |s.calls|
  {
  }

  /** A dispatch that has looked its agent up goes by the session table of that moment: it ends as
      offline exactly if no session of the agent was being served then, and otherwise its request
      goes to, and is handled on, the connection published last. */
  lemma DispatchAsksTheCurrentSession(acts: seq<Action>, i: nat)
    requires Run(acts).Some? && i < |Run(acts).value.calls| && !Run(acts).value.calls[i].pc.Looking?
    ensures exists k: nat :: LookedUp(acts, k, Run(acts).value, i)
  {
    RouteAfter(acts, i);
  }

  // ---------------------------------------------------------------- what is recorded has happened

  ghost predicate Grounded(s: State, acts: seq<Action>) {
    && (forall i :: 0 <= i < |s.calls| ==> Start(s.calls[i].agent, s.calls[i].request) in acts)
    && (forall c :: 0 <= c < |s.conns| ==> Connect(s.conns[c].agent, s.conns[c].machine) in acts)
    && (forall e :: 0 <= e < |s.log| ==> HandledIn(s.log[e], acts))
    && (forall c :: 0 <= c < |s.conns| ==> AckedIn(s, c, acts))
  }

  predicate HandledIn(h: LogEntry, acts: seq<Action>) {
    OnConn(h.conn, AgentHandle(h.result)) in acts && OnConn(h.conn, Acknowledge(true)) in acts
  }

  /** An agent serves only on a connection that was acknowledged to it. */
  predicate AckedIn(s: State, c: nat, acts: seq<Action>)
    requires c < |s.conns|
  {
    (s.conns[c].client.Serving? || s.conns[c].client.Replying? || RegisterOk in s.conns[c].toAgent)
    ==> OnConn(c, Acknowledge(true)) in acts
  }

  /** What the records keep when a step makes no call, connection or log entry. */
  predicate SameRecords(s: State, t: State) {
    && |t.calls| == |s.calls| && |t.conns| == |s.conns| && t.log == s.log
    && (forall i :: 0 <= i < |s.calls| ==>
          t.calls[i].agent == s.calls[i].agent && t.calls[i].request == s.calls[i].request)
    && (forall c :: 0 <= c < |s.conns| ==>
          t.conns[c].agent == s.conns[c].agent && t.conns[c].machine == s.conns[c].machine)
  }

  lemma CallStepsKeepRecords(s: State, i: nat, e: CallEvent)
    requires i < |s.calls| && CallStep(s, i, e).Some?
    ensures SameRecords(s, CallStep(s, i, e).value)
  {
  }

  lemma ConnStepsKeepRecords(s: State, c: nat, e: ConnEvent)
    requires c < |s.conns| && ConnStep(s, c, e).Some? && !e.AgentHandle?
    ensures SameRecords(s, ConnStep(s, c, e).value)
  {
  }

  lemma CallStepsKeepAcks(s: State, i: nat, e: CallEvent, acts: seq<Action>, f: nat)
    requires i < |s.calls| && CallStep(s, i, e).Some? && f < |s.conns| && AckedIn(s, f, acts)
    ensures f < |CallStep(s, i, e).value.conns| && AckedIn(CallStep(s, i, e).value, f, acts)
  {
  }

  lemma ConnStepsKeepAcks(s: State, c: nat, e: ConnEvent, acts: seq<Action>, f: nat)
    requires c < |s.conns| && ConnStep(s, c, e).Some? && f < |s.conns| && AckedIn(s, f, acts)
    ensures f < |ConnStep(s, c, e).value.conns| && AckedIn(ConnStep(s, c, e).value, f, acts + [OnConn(c, e)])
  {
  }

  lemma AgentHandleRecords(s: State, c: nat, r: Agents.Outcome)
    requires c < |s.conns| && DoAgentHandle(s, c, r).Some?
    ensures var t := DoAgentHandle(s, c, r).value;
            && SameRecords(s, t.(log := s.log)) && |s.log| <= |t.log| <= |s.log| + 1 && s.log <= t.log
            && (|t.log| > |s.log| ==> t.log[|s.log|].conn == c && t.log[|s.log|].result == r)
            && s.conns[c].client.Serving?
  {
  }

  lemma GroundedInLonger(s: State, acts: seq<Action>, a: Action)
    requires Grounded(s, acts)
    ensures Grounded(s, acts + [a]) && a in acts + [a]
  {
    assert (acts + [a])[|acts|] == a;
    forall b | b in acts ensures b in acts + [a] { InLonger(acts, a, b); }
    forall c | 0 <= c < |s.conns| ensures AckedIn(s, c, acts + [a]) { assert AckedIn(s, c, acts); }
  }

  lemma StepKeepsGrounded(s: State, acts: seq<Action>, a: Action)
    requires Grounded(s, acts) && Step(s, a).Some?
    ensures Grounded(Step(s, a).value, acts + [a])
  {
    var t := Step(s, a).value;
    GroundedInLonger(s, acts, a);
    match a
    case Connect(agent, machine) =>
      assert t.conns == s.conns + [Conn(agent, machine, [], [], Accepted, AwaitAck)];
      forall f | 0 <= f < |s.conns| ensures AckedIn(t, f, acts + [a]) { assert AckedIn(s, f, acts + [a]); }
    case Start(_, _) =>
      forall f | 0 <= f < |t.conns| ensures AckedIn(t, f, acts + [a]) { assert AckedIn(s, f, acts + [a]); }
    case OnCall(i, e) =>
      CallStepsKeepRecords(s, i, e);
      forall f | 0 <= f < |t.conns| ensures AckedIn(t, f, acts + [a]) { CallStepsKeepAcks(s, i, e, acts, f); }
    case OnConn(c, e) =>
      if e.AgentHandle? {
        AgentHandleRecords(s, c, e.result);
        assert AckedIn(s, c, acts + [a]);
        forall k | 0 <= k < |t.log| ensures HandledIn(t.log[k], acts + [a]) {
          if k < |s.log| { assert t.log[k] == s.log[k]; }
        }
      } else {
        ConnStepsKeepRecords(s, c, e);
      }
      forall f | 0 <= f < |t.conns| ensures AckedIn(t, f, acts + [a]) { ConnStepsKeepAcks(s, c, e, acts, f); }
  }

  /** Everything a run records has happened in it: calls were started with that agent and request,
      connections made by that agent process, and every handling is a step of its connection with
      that outcome, after the registration on this very connection was acknowledged. */
  lemma {:induction false} RecordsAreGrounded(acts: seq<Action>)
    requires Run(acts).Some?
    ensures Grounded(Run(acts).value, acts)
  {
    if acts != [] {
      var (before, a) := (acts[..|acts| - 1], acts[|acts| - 1]);
      RecordsAreGrounded(before);
      assert acts == before + [a];
      StepKeepsGrounded(Run(before).value, before, a);
    }
  }

  // ---------------------------------------------------------------- connections are queues

  /** A queue is left alone, gets one message at its end, or loses the one at its front. */
  predicate FifoStep<T(==)>(q: seq<T>, r: seq<T>) {
    r == q || (r != [] && r[..|r| - 1] == q) || (q != [] && r == q[1..])
  }

  lemma AppendIsFifo<T>(q: seq<T>, m: T)
    ensures FifoStep(q, q + [m])
  {
    assert (q + [m])[..|q|] == q;
  }

  lemma CallStepsAreFifo(s: State, i: nat, e: CallEvent, c: nat)
    requires i < |s.calls| && CallStep(s, i, e).Some? && c < |s.conns|
    ensures var t := CallStep(s, i, e).value;
            && c < |t.conns| && t.conns[c].toServer == s.conns[c].toServer
            && FifoStep(s.conns[c].toAgent, t.conns[c].toAgent)
  {
    AppendIsFifo(s.conns[c].toAgent, s.calls[i].request);
  }

  /** What a step does to the two queues of its connection. */
  lemma ServerStepsQueue(s: State, c: nat, e: ConnEvent)
    requires c < |s.conns| && ConnStep(s, c, e).Some? && !e.AgentHandle?
    ensures var (t, k) := (ConnStep(s, c, e).value, s.conns[c]);
            && |t.conns| == |s.conns| && (forall f :: 0 <= f < |s.conns| && f != c ==> t.conns[f] == s.conns[f])
            && t.conns[c].toAgent == (if e == Acknowledge(true) then k.toAgent + [RegisterOk]
                                      else if e.AgentAck? then k.toAgent[1..] else k.toAgent)
            && (e.AgentAck? ==> k.toAgent != []) && (e.Receive? ==> k.toServer != [])
            && (e.AgentReply? ==> k.client.Replying?)
            && t.conns[c].toServer == (if e.Receive? then k.toServer[1..]
                                       else if e.AgentReply? then k.toServer + [k.client.reply]
                                       else if e.AgentBeat? then k.toServer + [Heartbeat(e.status)] else k.toServer)
  {
    assert s.conns[c].toAgent + [] == s.conns[c].toAgent;
  }

  lemma ServerStepsAreFifo(s: State, c: nat, e: ConnEvent, f: nat)
    requires c < |s.conns| && ConnStep(s, c, e).Some? && f < |s.conns| && !e.AgentHandle?
    ensures var t := ConnStep(s, c, e).value;
            && f < |t.conns| && FifoStep(s.conns[f].toAgent, t.conns[f].toAgent)
            && FifoStep(s.conns[f].toServer, t.conns[f].toServer)
  {
    ServerStepsQueue(s, c, e);
    AppendIsFifo(s.conns[f].toAgent, RegisterOk);
    if e.AgentReply? { AppendIsFifo(s.conns[f].toServer, s.conns[c].client.reply); }
    if e.AgentBeat? { AppendIsFifo(s.conns[f].toServer, Heartbeat(e.status)); }
  }

  lemma HandlingIsFifo(s: State, c: nat, r: Agents.Outcome, f: nat)
    requires c < |s.conns| && DoAgentHandle(s, c, r).Some? && f < |s.conns|
    ensures var t := DoAgentHandle(s, c, r).value;
            && f < |t.conns| && FifoStep(s.conns[f].toAgent, t.conns[f].toAgent)
            && t.conns[f].toServer == s.conns[f].toServer
            && s.conns[c].toAgent != [] && t.conns[c].toAgent == s.conns[c].toAgent[1..]
            && (|t.log| > |s.log| ==> t.log[|s.log|].request == s.conns[c].toAgent[0])
  {
  }

  /** In every run each connection delivers in order: a step adds at the end of a queue or takes
      from its front, and what an agent handles is the message it took. */
  lemma ConnectionsAreFifo(acts: seq<Action>, a: Action, c: nat)
    requires Run(acts + [a]).Some? && Run(acts).Some? && c < |Run(acts).value.conns|
    ensures var (s, t) := (Run(acts).value, Run(acts + [a]).value);
            && c < |t.conns| && FifoStep(s.conns[c].toAgent, t.conns[c].toAgent)
            && FifoStep(s.conns[c].toServer, t.conns[c].toServer)
            && (|t.log| > |s.log| ==> a.OnConn? && a.c < |s.conns| && s.conns[a.c].toAgent != []
                                      && t.log[|s.log|].request == s.conns[a.c].toAgent[0])
  {
    ReplayOneMore(INIT, Step, acts, a);
    var s := Run(acts).value;
    match a
    case Connect(_, _) =>
    case Start(_, _) =>
    case OnCall(i, e) =>
      CallStepsAreFifo(s, i, e, c);
      CallStepsKeepRecords(s, i, e);
    case OnConn(f, e) =>
      if e.AgentHandle? {
        HandlingIsFifo(s, f, e.result, c);
      } else {
        ServerStepsAreFifo(s, f, e, c);
        ConnStepsKeepRecords(s, f, e);
      }
  }
}
