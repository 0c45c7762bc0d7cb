/** What every interleaving of the dispatch protocol keeps. */
module DispatchSafety {
  import opened Wrappers
  import opened Machines
  import opened Protocol
  import opened Sessions
  import opened Dispatch
  import Agents

  // ---------------------------------------------------------------- the invariant

  /** Entry e of the history is the one handling of the command it names, by an agent of the target. */
  ghost predicate EntryOk(s: State, e: nat)
    requires e < |s.log|
  {
    var h := s.log[e];
    && h.conn < |s.conns| && h.request.IsRequest() && h.request.cmd in s.issued
    && var i := s.issued[h.request.cmd];
       && i < |s.calls| && s.calls[i].request == h.request && s.calls[i].trail == Handled(e)
       && s.conns[h.conn].agent == s.calls[i].agent
       && !h.reply.Heartbeat? && h.reply.cmd == h.request.cmd
  }

  /** m is the reply that the history records for its command, on connection c. */
  ghost predicate Logged(s: State, c: nat, m: AgentMsg) {
    !m.Heartbeat? && m.cmd in s.issued
    && var i := s.issued[m.cmd];
       && i < |s.calls| && s.calls[i].trail.Handled? && s.calls[i].trail.entry < |s.log|
       && s.log[s.calls[i].trail.entry].conn == c
       && s.log[s.calls[i].trail.entry].reply == m
  }

  /** resp is the stamped form of the reply that the history records for call i. */
  ghost predicate Genuine(s: State, i: nat, resp: Response) {
    && i < |s.calls| && s.calls[i].trail.Handled? && s.calls[i].trail.entry < |s.log|
    && var h := s.log[s.calls[i].trail.entry];
       !h.reply.Heartbeat? && resp == Stamp(s.calls[i].agent, h.reply)
       && resp.cmd == s.calls[i].request.cmd
  }

  ghost predicate Held(s: State, i: nat, c: nat) {
    c < |s.conns| && ((s.conns[c].reader.Took? && s.conns[c].reader.call == i)
                      || (s.conns[c].reader.Sent? && s.conns[c].reader.call == i))
  }

  /** The channel of a call looks the way its owner's progress says. */
  ghost predicate ChanOk(s: State, i: nat)
    requires i < |s.calls|
  {
    var x := s.calls[i];
    && (x.chan.buffer == [] || (|x.chan.buffer| == 1 && x.sends == 1 && Genuine(s, i, x.chan.buffer[0])))
    && x.sends <= 1 && x.closes == (if x.chan.closed then 1 else 0)
    && match x.owner
       case NotMade => x.chan == Chan([], false) && x.sends == 0
       case InTable => x.chan == Chan([], false) && x.sends == 0 && x.request.cmd in s.manager.pending
                       && s.manager.pending[x.request.cmd] == i
       case ByReader(c) => !x.chan.closed && Held(s, i, c)
                           && (s.conns[c].reader.Took? ==> x.sends == 0 && x.chan.buffer == [])
                           && (s.conns[c].reader.Sent? && x.pc.Waiting? ==> x.chan.buffer != [])
       case ByCanceller => x.chan == Chan([], false) && x.sends == 0 && x.pc.CancelTook?
       case Finished => x.chan.closed && (x.pc.Waiting? ==> x.chan.buffer != [])
  }

  ghost predicate PcOk(s: State, i: nat)
    requires i < |s.calls|
  {
    var x := s.calls[i];
    match x.pc
    case Looking => x.owner == NotMade && x.trail == Unsent
    case Found(c) => x.owner == NotMade && x.trail == Unsent && c < |s.conns| && s.conns[c].agent == x.agent
    case Registered(c) => x.owner == InTable && x.trail == Unsent
                          && c < |s.conns| && s.conns[c].agent == x.agent
    case Waiting => !x.owner.NotMade? && !x.owner.ByCanceller?
    case Cancelling(why) => !x.owner.NotMade? && !x.owner.ByCanceller? && (why.SendFailed? || why.TimedOut?)
    case CancelTook(why, j) => j == i && x.owner == ByCanceller && (why.SendFailed? || why.TimedOut?)
    case Done(ending) =>
      && !ending.Cancelled? && (x.owner.NotMade? <==> ending.Offline?)
      && (x.owner.NotMade? || x.owner.ByReader? || x.owner.Finished?)
      && (ending.Answer? ==> x.sends == 1 && Genuine(s, i, ending.resp))
  }

  ghost predicate CallOk(s: State, i: nat)
    requires i < |s.calls|
  {
    && s.calls[i].request.cmd in s.issued && s.issued[s.calls[i].request.cmd] == i
    && ChanOk(s, i) && PcOk(s, i)
  }

  /** A queued message that is a request is the undelivered request of its call, and queued once. */
  ghost predicate QueuedOk(s: State, c: nat, m: ServerMsg)
    requires c < |s.conns|
  {
    m.IsRequest() ==>
      && m.cmd in s.issued
      && var i := s.issued[m.cmd];
         i < |s.calls| && s.calls[i].request == m && s.calls[i].trail == OnWire(c)
         && s.calls[i].agent == s.conns[c].agent
  }

  ghost predicate QueueOk(s: State, c: nat)
    requires c < |s.conns|
  {
    var q := s.conns[c].toAgent;
    && (forall p :: 0 <= p < |q| ==> QueuedOk(s, c, q[p]))
    && (forall p, r :: 0 <= p < r < |q| && q[p].IsRequest() && q[r].IsRequest() ==> q[p].cmd != q[r].cmd)
  }

  ghost predicate ReaderOk(s: State, c: nat)
    requires c < |s.conns|
  {
    match s.conns[c].reader
    case Resolving(resp) => resp.cmd in s.issued && Genuine(s, s.issued[resp.cmd], resp)
    case Took(i, resp) => i < |s.calls| && s.calls[i].owner == ByReader(c) && Genuine(s, i, resp)
    case Sent(i) => i < |s.calls| && s.calls[i].owner == ByReader(c)
    case _ => true
  }

  ghost predicate ConnOk(s: State, c: nat)
    requires c < |s.conns|
  {
    && QueueOk(s, c) && ReaderOk(s, c)
    && (forall p :: 0 <= p < |s.conns[c].toServer| ==>
          s.conns[c].toServer[p].Heartbeat? || Logged(s, c, s.conns[c].toServer[p]))
    && (s.conns[c].client.Replying? ==> Logged(s, c, s.conns[c].client.reply))
  }

  ghost predicate TablesOk(s: State) {
    && (forall k :: k in s.manager.pending ==>
          k in s.issued && s.manager.pending[k] == s.issued[k] && s.issued[k] < |s.calls|
          && s.calls[s.issued[k]].owner == InTable)
    && (forall k :: k in s.issued ==> s.issued[k] < |s.calls| && s.calls[s.issued[k]].request.cmd == k)
  }

  /** The session table against the history of publications. */
  ghost predicate SessionsOk(s: State) {
    && (forall a :: a in s.manager.sessions ==> a in s.latest && s.manager.sessions[a] == s.latest[a])
    && (forall a :: a in s.latest ==>
          var c := s.latest[a];
          && c < |s.conns| && s.conns[c].agent == a && !s.conns[c].reader.Accepted?
          && (!s.conns[c].reader.Gone? <==> a in s.manager.sessions))
  }

  ghost predicate Inv(s: State) {
    && !s.panicked && TablesOk(s) && SessionsOk(s)
    && (forall i :: 0 <= i < |s.calls| ==> CallOk(s, i))
    && (forall c :: 0 <= c < |s.conns| ==> ConnOk(s, c))
    && (forall e :: 0 <= e < |s.log| ==> EntryOk(s, e))
  }

  // ---------------------------------------------------------------- what no step disturbs

  /** The histories only grow, and a recorded handling is never revised. */
  ghost predicate Extends(s: State, t: State) {
    && |s.calls| <= |t.calls| && |s.conns| <= |t.conns| && s.log <= t.log
    && (forall k :: k in s.issued ==> k in t.issued && t.issued[k] == s.issued[k])
    && (forall j :: 0 <= j < |s.calls| ==>
          && t.calls[j].agent == s.calls[j].agent && t.calls[j].request == s.calls[j].request
          && (s.calls[j].trail.Handled? ==> t.calls[j].trail == s.calls[j].trail))
    && (forall c :: 0 <= c < |s.conns| ==> t.conns[c].agent == s.conns[c].agent)
  }

  lemma EntriesKept(s: State, t: State)
    requires Inv(s) && Extends(s, t)
    ensures forall e :: 0 <= e < |s.log| ==> EntryOk(t, e)
  {
    forall e | 0 <= e < |s.log| ensures EntryOk(t, e) {
      assert EntryOk(s, e) && t.log[e] == s.log[e];
    }
  }

  /** A call whose record, table entry and reader are unchanged stays in order. */
  lemma CallKept(s: State, t: State, j: nat)
    requires Inv(s) && Extends(s, t) && j < |s.calls| && t.calls[j] == s.calls[j]
    requires var cmd := s.calls[j].request.cmd;
             s.calls[j].owner == InTable ==> cmd in t.manager.pending && t.manager.pending[cmd] == j
    requires var o := s.calls[j].owner;
             o.ByReader? && o.conn < |s.conns| ==> t.conns[o.conn].reader == s.conns[o.conn].reader
    ensures CallOk(t, j)
  {
    assert CallOk(s, j);
  }

  /** A connection whose record, queued calls and held channel are unchanged stays in order. */
  lemma ConnKept(s: State, t: State, c: nat)
    requires Inv(s) && Extends(s, t) && c < |s.conns| && t.conns[c] == s.conns[c]
    requires forall j :: 0 <= j < |s.calls| && s.calls[j].trail == OnWire(c) ==> t.calls[j].trail == OnWire(c)
    requires forall j :: 0 <= j < |s.calls| && s.calls[j].owner == ByReader(c) ==> t.calls[j].owner == ByReader(c)
    ensures ConnOk(t, c)
  {
    assert ConnOk(s, c);
    var q := s.conns[c].toAgent;
    forall p | 0 <= p < |q| ensures QueuedOk(t, c, q[p]) {
      assert QueuedOk(s, c, q[p]);
    }
  }

  /** A logged reply, stamped by the connection it came on, is the genuine answer to its command. */
  lemma LoggedIsGenuine(s: State, c: nat, m: AgentMsg)
    requires Inv(s) && c < |s.conns| && Logged(s, c, m)
    ensures Genuine(s, s.issued[m.cmd], Stamp(s.conns[c].agent, m))
  {
    var e := s.calls[s.issued[m.cmd]].trail.entry;
    assert EntryOk(s, e);
  }

  /** A step that changes one connection, which held no channel before or after, and perhaps the
      session table. */
  lemma OnlyConn(s: State, t: State, c: nat)
    requires Inv(s) && c < |s.conns| && |t.conns| == |s.conns|
    requires t.calls == s.calls && t.log == s.log && t.issued == s.issued && !t.panicked
    requires t.manager.pending == s.manager.pending && SessionsOk(t)
    requires forall f :: 0 <= f < |s.conns| && f != c ==> t.conns[f] == s.conns[f]
    requires t.conns[c].agent == s.conns[c].agent && ConnOk(t, c)
    requires t.conns[c].reader == s.conns[c].reader || !(s.conns[c].reader.Took? || s.conns[c].reader.Sent?)
    ensures Inv(t)
  {
    EntriesKept(s, t);
    forall j | 0 <= j < |t.calls| ensures CallOk(t, j) {
      assert CallOk(s, j);
      CallKept(s, t, j);
    }
    forall f | 0 <= f < |t.conns| ensures ConnOk(t, f) {
      if f != c { ConnKept(s, t, f); }
    }
  }

  /** A step that changes one call, whose channel no reader gains or loses, and perhaps its table entry. */
  lemma OnlyCall(s: State, t: State, i: nat)
    requires Inv(s) && i < |s.calls| && |t.calls| == |s.calls|
    requires t.conns == s.conns && t.log == s.log && t.issued == s.issued && t.latest == s.latest && !t.panicked
    requires t.manager.sessions == s.manager.sessions && TablesOk(t)
    requires forall k :: k != s.calls[i].request.cmd ==>
               && (k in t.manager.pending <==> k in s.manager.pending)
               && (k in s.manager.pending ==> t.manager.pending[k] == s.manager.pending[k])
    requires forall j :: 0 <= j < |s.calls| && j != i ==> t.calls[j] == s.calls[j]
    requires t.calls[i].agent == s.calls[i].agent && t.calls[i].request == s.calls[i].request
    requires t.calls[i].trail == s.calls[i].trail && CallOk(t, i)
    requires s.calls[i].owner.ByReader? ==> t.calls[i].owner == s.calls[i].owner
    ensures Inv(t)
  {
    EntriesKept(s, t);
    forall j | 0 <= j < |t.calls| ensures CallOk(t, j) {
      assert CallOk(s, j);
      if j != i { CallKept(s, t, j); }
    }
    forall f | 0 <= f < |t.conns| ensures ConnOk(t, f) {
      ConnKept(s, t, f);
    }
  }

  /** A step of connection c on the channel of call i. */
  lemma OnlyPair(s: State, t: State, c: nat, i: nat)
    requires Inv(s) && c < |s.conns| && i < |s.calls| && |t.conns| == |s.conns| && |t.calls| == |s.calls|
    requires t.log == s.log && t.issued == s.issued && t.latest == s.latest && !t.panicked
    requires t.manager.sessions == s.manager.sessions && TablesOk(t)
    requires forall k :: k != s.calls[i].request.cmd ==>
               && (k in t.manager.pending <==> k in s.manager.pending)
               && (k in s.manager.pending ==> t.manager.pending[k] == s.manager.pending[k])
    requires forall j :: 0 <= j < |s.calls| && j != i ==> t.calls[j] == s.calls[j]
    requires forall f :: 0 <= f < |s.conns| && f != c ==> t.conns[f] == s.conns[f]
    requires t.calls[i].agent == s.calls[i].agent && t.calls[i].request == s.calls[i].request
    requires t.calls[i].trail == s.calls[i].trail && CallOk(t, i)
    requires t.conns[c].agent == s.conns[c].agent && ConnOk(t, c)
    requires s.conns[c].reader.Gone? <==> t.conns[c].reader.Gone?
    requires s.conns[c].reader.Accepted? <==> t.conns[c].reader.Accepted?
    requires s.calls[i].owner.ByReader? ==> s.calls[i].owner.conn == c
    requires forall j :: Held(s, j, c) ==> j == i
    ensures Inv(t)
  {
    EntriesKept(s, t);
    forall j | 0 <= j < |t.calls| ensures CallOk(t, j) {
      assert CallOk(s, j);
      if j != i { CallKept(s, t, j); }
    }
    forall f | 0 <= f < |t.conns| ensures ConnOk(t, f) {
      if f != c { ConnKept(s, t, f); }
    }
  }

  /** Taking the entry of call i out of the table. */
  lemma TakingKeepsTables(s: State, t: State, i: nat)
    requires Inv(s) && i < |s.calls| && |t.calls| == |s.calls| && t.issued == s.issued
    requires t.manager.pending == s.manager.pending - {s.calls[i].request.cmd}
    requires forall j :: 0 <= j < |s.calls| && j != i ==> t.calls[j] == s.calls[j]
    requires t.calls[i].request == s.calls[i].request
    ensures TablesOk(t)
  {
  }

  lemma LookupKeepsInv(s: State, i: nat)
    requires Inv(s) && i < |s.calls| && DoLookup(s, i).Some?
    ensures Inv(DoLookup(s, i).value)
  {
    assert CallOk(s, i);
    OnlyCall(s, DoLookup(s, i).value, i);
  }

  lemma AddPendingKeepsInv(s: State, i: nat)
    requires Inv(s) && i < |s.calls| && DoAddPending(s, i).Some?
    ensures Inv(DoAddPending(s, i).value)
  {
    assert CallOk(s, i);
    OnlyCall(s, DoAddPending(s, i).value, i);
  }

  lemma SendRequestCalls(s: State, i: nat, d: bool, ok: bool)
    requires Inv(s) && i < |s.calls| && DoSendRequest(s, i, d, ok).Some?
    ensures var t := DoSendRequest(s, i, d, ok).value; forall j :: 0 <= j < |t.calls| ==> CallOk(t, j)
  {
    var t := DoSendRequest(s, i, d, ok).value;
    assert CallOk(s, i);
    forall j | 0 <= j < |t.calls| ensures CallOk(t, j) {
      assert CallOk(s, j);
      if j != i { CallKept(s, t, j); }
    }
  }

  /** The receiving end of a delivered request: it is queued once, behind what was there. */
  lemma SendRequestQueue(s: State, i: nat, ok: bool)
    requires Inv(s) && i < |s.calls| && DoSendRequest(s, i, true, ok).Some?
    ensures ConnOk(DoSendRequest(s, i, true, ok).value, s.calls[i].pc.conn)
  {
    var t := DoSendRequest(s, i, true, ok).value;
    var c := s.calls[i].pc.conn;
    assert CallOk(s, i);
    assert ConnOk(s, c);
    var q := s.conns[c].toAgent;
    assert t.conns[c].toAgent == q + [s.calls[i].request];
    forall p | 0 <= p < |q| ensures QueuedOk(t, c, q[p]) {
      assert QueuedOk(s, c, q[p]);
    }
    assert QueueOk(t, c);
  }

  lemma SendRequestConns(s: State, i: nat, d: bool, ok: bool)
    requires Inv(s) && i < |s.calls| && DoSendRequest(s, i, d, ok).Some?
    ensures var t := DoSendRequest(s, i, d, ok).value; forall f :: 0 <= f < |t.conns| ==> ConnOk(t, f)
  {
    var t := DoSendRequest(s, i, d, ok).value;
    assert CallOk(s, i);
    if d { SendRequestQueue(s, i, ok); }
    forall f | 0 <= f < |t.conns| ensures ConnOk(t, f) {
      if f != s.calls[i].pc.conn || !d { ConnKept(s, t, f); }
    }
  }

  lemma SendRequestKeepsInv(s: State, i: nat, d: bool, ok: bool)
    requires Inv(s) && i < |s.calls| && DoSendRequest(s, i, d, ok).Some?
    ensures Inv(DoSendRequest(s, i, d, ok).value)
  {
    var t := DoSendRequest(s, i, d, ok).value;
    SendRequestCalls(s, i, d, ok);
    SendRequestConns(s, i, d, ok);
    assert CallOk(s, i);
    EntriesKept(s, t);
  }

  lemma TakeReplyKeepsInv(s: State, i: nat)
    requires Inv(s) && i < |s.calls| && DoTakeReply(s, i).Some?
    ensures Inv(DoTakeReply(s, i).value)
  {
    assert CallOk(s, i);
    OnlyCall(s, DoTakeReply(s, i).value, i);
  }

  lemma TimeoutKeepsInv(s: State, i: nat)
    requires Inv(s) && i < |s.calls| && DoTimeout(s, i).Some?
    ensures Inv(DoTimeout(s, i).value)
  {
    assert CallOk(s, i);
    OnlyCall(s, DoTimeout(s, i).value, i);
  }

  lemma TakeForCancelKeepsInv(s: State, i: nat)
    requires Inv(s) && i < |s.calls| && DoTakeForCancel(s, i).Some?
    ensures Inv(DoTakeForCancel(s, i).value)
  {
    assert CallOk(s, i);
    var (t, x) := (DoTakeForCancel(s, i).value, s.calls[i]);
    if x.request.cmd in s.manager.pending {
      TakingKeepsTables(s, t, i);
      assert t.calls == s.calls[i := x.(pc := CancelTook(x.pc.why, i), owner := ByCanceller)];
    } else {
      assert t == SetCall(s, i, x.(pc := Done(x.pc.why)));
    }
    OnlyCall(s, t, i);
  }

  lemma CloseCancelledKeepsInv(s: State, i: nat)
    requires Inv(s) && i < |s.calls| && DoCloseCancelled(s, i).Some?
    ensures Inv(DoCloseCancelled(s, i).value)
  {
    assert CallOk(s, i);
    OnlyCall(s, DoCloseCancelled(s, i).value, i);
  }

  lemma PublishKeepsInv(s: State, c: nat)
    requires Inv(s) && c < |s.conns| && DoPublish(s, c).Some?
    ensures Inv(DoPublish(s, c).value)
  {
    assert ConnOk(s, c);
    OnlyConn(s, DoPublish(s, c).value, c);
  }

  lemma AcknowledgeKeepsInv(s: State, c: nat, d: bool)
    requires Inv(s) && c < |s.conns| && DoAcknowledge(s, c, d).Some?
    ensures Inv(DoAcknowledge(s, c, d).value)
  {
    assert ConnOk(s, c);
    OnlyConn(s, DoAcknowledge(s, c, d).value, c);
  }

  lemma ReceiveKeepsInv(s: State, c: nat)
    requires Inv(s) && c < |s.conns| && DoReceive(s, c).Some?
    ensures Inv(DoReceive(s, c).value)
  {
    assert ConnOk(s, c);
    if !s.conns[c].toServer[0].Heartbeat? { LoggedIsGenuine(s, c, s.conns[c].toServer[0]); }
    OnlyConn(s, DoReceive(s, c).value, c);
  }

  lemma TakeForReplyHit(s: State, c: nat)
    requires Inv(s) && c < |s.conns| && DoTakeForReply(s, c).Some?
    requires s.conns[c].reader.resp.cmd in s.manager.pending
    ensures Inv(DoTakeForReply(s, c).value)
  {
    assert ConnOk(s, c);
    var i := s.issued[s.conns[c].reader.resp.cmd];
    assert CallOk(s, i);
    var t := DoTakeForReply(s, c).value;
    TakingKeepsTables(s, t, i);
    OnlyPair(s, t, c, i);
  }

  lemma TakeForReplyMiss(s: State, c: nat)
    requires Inv(s) && c < |s.conns| && DoTakeForReply(s, c).Some?
    requires s.conns[c].reader.resp.cmd !in s.manager.pending
    ensures Inv(DoTakeForReply(s, c).value)
  {
    var t := DoTakeForReply(s, c).value;
    assert t == SetConn(s, c, s.conns[c].(reader := Reading));
    assert ConnOk(s, c);
    OnlyConn(s, t, c);
  }

  lemma TakeForReplyKeepsInv(s: State, c: nat)
    requires Inv(s) && c < |s.conns| && DoTakeForReply(s, c).Some?
    ensures Inv(DoTakeForReply(s, c).value)
  {
    if s.conns[c].reader.resp.cmd in s.manager.pending { TakeForReplyHit(s, c); } else { TakeForReplyMiss(s, c); }
  }

  lemma SendReplyKeepsInv(s: State, c: nat)
    requires Inv(s) && c < |s.conns| && DoSendReply(s, c).Some?
    ensures Inv(DoSendReply(s, c).value)
  {
    assert ConnOk(s, c);
    var i := s.conns[c].reader.call;
    assert CallOk(s, i);
    OnlyPair(s, DoSendReply(s, c).value, c, i);
  }

  lemma CloseReplyKeepsInv(s: State, c: nat)
    requires Inv(s) && c < |s.conns| && DoCloseReply(s, c).Some?
    ensures Inv(DoCloseReply(s, c).value)
  {
    assert ConnOk(s, c);
    var i := s.conns[c].reader.call;
    assert CallOk(s, i);
    OnlyPair(s, DoCloseReply(s, c).value, c, i);
  }

  lemma HangupKeepsInv(s: State, c: nat)
    requires Inv(s) && c < |s.conns| && DoHangup(s, c).Some?
    ensures Inv(DoHangup(s, c).value)
  {
    assert ConnOk(s, c);
    OnlyConn(s, DoHangup(s, c).value, c);
  }

  lemma AgentAckKeepsInv(s: State, c: nat)
    requires Inv(s) && c < |s.conns| && DoAgentAck(s, c).Some?
    ensures Inv(DoAgentAck(s, c).value)
  {
    assert ConnOk(s, c);
    OnlyConn(s, DoAgentAck(s, c).value, c);
  }

  lemma AgentHandleCalls(s: State, c: nat, r: Agents.Outcome)
    requires Inv(s) && c < |s.conns| && DoAgentHandle(s, c, r).Some?
    ensures var t := DoAgentHandle(s, c, r).value; forall j :: 0 <= j < |t.calls| ==> CallOk(t, j)
  {
    var t := DoAgentHandle(s, c, r).value;
    assert ConnOk(s, c);
    var m := s.conns[c].toAgent[0];
    assert QueuedOk(s, c, m);
    Agents.OneReplyPerRequest(s.conns[c].machine in s.frozen, m, r);
    var i := if m.IsRequest() then s.issued[m.cmd] else |s.calls|;
    forall j | 0 <= j < |t.calls| ensures CallOk(t, j) {
      assert CallOk(s, j);
      if j != i { CallKept(s, t, j); }
    }
  }

  /** The handling end: the queue lost its head and the reply is the logged one. */
  lemma AgentHandleQueue(s: State, c: nat, r: Agents.Outcome)
    requires Inv(s) && c < |s.conns| && DoAgentHandle(s, c, r).Some?
    ensures ConnOk(DoAgentHandle(s, c, r).value, c)
  {
    var t := DoAgentHandle(s, c, r).value;
    assert ConnOk(s, c);
    var q := s.conns[c].toAgent;
    assert QueuedOk(s, c, q[0]);
    Agents.OneReplyPerRequest(s.conns[c].machine in s.frozen, q[0], r);
    assert t.conns[c].toAgent == q[1..];
    forall p | 0 < p < |q| ensures QueuedOk(t, c, q[p]) {
      assert QueuedOk(s, c, q[p]);
    }
    assert QueueOk(t, c);
  }

  lemma AgentHandleConns(s: State, c: nat, r: Agents.Outcome)
    requires Inv(s) && c < |s.conns| && DoAgentHandle(s, c, r).Some?
    ensures var t := DoAgentHandle(s, c, r).value; forall f :: 0 <= f < |t.conns| ==> ConnOk(t, f)
  {
    var t := DoAgentHandle(s, c, r).value;
    assert QueuedOk(s, c, s.conns[c].toAgent[0]) by { assert ConnOk(s, c); }
    AgentHandleQueue(s, c, r);
    forall f | 0 <= f < |t.conns| ensures ConnOk(t, f) {
      if f != c { ConnKept(s, t, f); }
    }
  }

  lemma AgentHandleKeepsInv(s: State, c: nat, r: Agents.Outcome)
    requires Inv(s) && c < |s.conns| && DoAgentHandle(s, c, r).Some?
    ensures Inv(DoAgentHandle(s, c, r).value)
  {
    var t := DoAgentHandle(s, c, r).value;
    AgentHandleCalls(s, c, r);
    AgentHandleConns(s, c, r);
    var m := s.conns[c].toAgent[0];
    assert QueuedOk(s, c, m) by { assert ConnOk(s, c); }
    Agents.OneReplyPerRequest(s.conns[c].machine in s.frozen, m, r);
    EntriesKept(s, t);
    forall e | 0 <= e < |t.log| ensures EntryOk(t, e) {
      if e == |s.log| { assert t.log[e].request == m; }
    }
  }

  lemma AgentReplyKeepsInv(s: State, c: nat)
    requires Inv(s) && c < |s.conns| && DoAgentReply(s, c).Some?
    ensures Inv(DoAgentReply(s, c).value)
  {
    assert ConnOk(s, c);
    OnlyConn(s, DoAgentReply(s, c).value, c);
  }

  lemma AgentBeatKeepsInv(s: State, c: nat, b: string)
    requires Inv(s) && c < |s.conns| && DoAgentBeat(s, c, b).Some?
    ensures Inv(DoAgentBeat(s, c, b).value)
  {
    assert ConnOk(s, c);
    OnlyConn(s, DoAgentBeat(s, c, b).value, c);
  }

  lemma AgentCloseKeepsInv(s: State, c: nat)
    requires Inv(s) && c < |s.conns| && DoAgentClose(s, c).Some?
    ensures Inv(DoAgentClose(s, c).value)
  {
    assert ConnOk(s, c);
    OnlyConn(s, DoAgentClose(s, c).value, c);
  }

  lemma ConnectKeepsInv(s: State, agent: AgentId, machine: nat)
    requires Inv(s)
    ensures Inv(DoConnect(s, agent, machine))
  {
    var t := DoConnect(s, agent, machine);
    EntriesKept(s, t);
    forall j | 0 <= j < |t.calls| ensures CallOk(t, j) {
      assert CallOk(s, j);
      CallKept(s, t, j);
    }
    forall f | 0 <= f < |t.conns| ensures ConnOk(t, f) {
      if f < |s.conns| { ConnKept(s, t, f); }
    }
  }

  lemma StartKeepsInv(s: State, agent: AgentId, request: Request)
    requires Inv(s) && DoStart(s, agent, request).Some?
    ensures Inv(DoStart(s, agent, request).value)
  {
    var t := DoStart(s, agent, request).value;
    EntriesKept(s, t);
    forall j | 0 <= j < |t.calls| ensures CallOk(t, j) {
      if j < |s.calls| { assert CallOk(s, j); CallKept(s, t, j); }
    }
    forall f | 0 <= f < |t.conns| ensures ConnOk(t, f) { ConnKept(s, t, f); }
  }

  lemma ConnStepKeepsInv(s: State, c: nat, e: ConnEvent)
    requires Inv(s) && c < |s.conns| && ConnStep(s, c, e).Some?
    ensures Inv(ConnStep(s, c, e).value)
  {
    match e
    case Publish => PublishKeepsInv(s, c);
    case Acknowledge(delivered) => AcknowledgeKeepsInv(s, c, delivered);
    case Receive => ReceiveKeepsInv(s, c);
    case TakeForReply => TakeForReplyKeepsInv(s, c);
    case SendReply => SendReplyKeepsInv(s, c);
    case CloseReply => CloseReplyKeepsInv(s, c);
    case Hangup => HangupKeepsInv(s, c);
    case AgentAck => AgentAckKeepsInv(s, c);
    case AgentHandle(result) => AgentHandleKeepsInv(s, c, result);
    case AgentReply => AgentReplyKeepsInv(s, c);
    case AgentBeat(status) => AgentBeatKeepsInv(s, c, status);
    case AgentClose => AgentCloseKeepsInv(s, c);
  }

  lemma CallStepKeepsInv(s: State, i: nat, e: CallEvent)
    requires Inv(s) && i < |s.calls| && CallStep(s, i, e).Some?
    ensures Inv(CallStep(s, i, e).value)
  {
    match e
    case Lookup => LookupKeepsInv(s, i);
    case AddPending => AddPendingKeepsInv(s, i);
    case SendRequest(delivered, ok) => SendRequestKeepsInv(s, i, delivered, ok);
    case TakeReply => TakeReplyKeepsInv(s, i);
    case Timeout => TimeoutKeepsInv(s, i);
    case TakeForCancel => TakeForCancelKeepsInv(s, i);
    case CloseCancelled => CloseCancelledKeepsInv(s, i);
  }

  lemma StepKeepsInv(s: State, a: Action)
    requires Inv(s) && Step(s, a).Some?
    ensures Inv(Step(s, a).value)
  {
    match a
    case Connect(agent, machine) => ConnectKeepsInv(s, agent, machine);
    case Start(agent, request) => StartKeepsInv(s, agent, request);
    case OnConn(c, e) => ConnStepKeepsInv(s, c, e);
    case OnCall(i, e) => CallStepKeepsInv(s, i, e);
  }

  lemma InvAfter(acts: seq<Action>)
    requires Run(acts).Some?
    ensures Inv(Run(acts).value)
  {
    forall s, a | Inv(s) && Step(s, a).Some? ensures Inv(Step(s, a).value) {
      StepKeepsInv(s, a);
    }
    InvariantHolds(INIT, Step, s => Inv(s), acts);
  }

  // ---------------------------------------------------------------- the results

  /** The goroutines that may still finish the channel of call i. */
  ghost predicate CancellerHolds(s: State, i: nat, j: nat) {
    j < |s.calls| && s.calls[j].pc.CancelTook? && s.calls[j].pc.taken == i
  }

  ghost predicate TableHolds(s: State, i: nat) {
    exists k :: k in s.manager.pending && s.manager.pending[k] == i
  }

  /** In every interleaving each channel is sent to at most once and closed at most once, never
      sent to or closed after a close, and at most one goroutine, or the table, holds the right to
      finish it; a call that got an answer had exactly one send. */
  lemma ChannelsAreFinishedOnce(acts: seq<Action>)
    requires Run(acts).Some?
    ensures var s := Run(acts).value;
            && !s.panicked
            && (forall i :: 0 <= i < |s.calls| ==>
                  var x := s.calls[i];
                  && x.sends <= 1 && x.closes <= 1 && (x.closes == 1 <==> x.chan.closed)
                  && (x.pc.Done? && x.pc.ending.Answer? ==> x.sends == 1))
            && (forall i, c, d :: Held(s, i, c) && Held(s, i, d) ==> c == d)
            && (forall i, c, j :: Held(s, i, c) ==> !CancellerHolds(s, i, j))
            && (forall i, j, l :: CancellerHolds(s, i, j) && CancellerHolds(s, i, l) ==> j == l == i)
            && (forall i :: TableHolds(s, i) ==>
                  (forall c :: !Held(s, i, c)) && (forall j :: !CancellerHolds(s, i, j)))
            && (forall i :: 0 <= i < |s.calls| && s.calls[i].chan.closed ==>
                  !TableHolds(s, i) && (forall c :: !Held(s, i, c)) && (forall j :: !CancellerHolds(s, i, j)))
  {
    InvAfter(acts);
    var s := Run(acts).value;
    forall i | 0 <= i < |s.calls|
      ensures var x := s.calls[i];
              && x.sends <= 1 && x.closes <= 1 && (x.closes == 1 <==> x.chan.closed)
              && (x.pc.Done? && x.pc.ending.Answer? ==> x.sends == 1)
    {
      assert CallOk(s, i);
    }
    forall i: nat, c: nat | Held(s, i, c)
      ensures i < |s.calls| && s.calls[i].owner == ByReader(c) && !s.calls[i].chan.closed {
      assert ConnOk(s, c);
      assert CallOk(s, i);
    }
    forall i: nat, j: nat | CancellerHolds(s, i, j)
      ensures i == j && s.calls[i].owner == ByCanceller && !s.calls[i].chan.closed
    {
      assert CallOk(s, j);
    }
    forall i: nat | TableHolds(s, i) ensures i < |s.calls| && s.calls[i].owner == InTable && !s.calls[i].chan.closed {
      var k :| k in s.manager.pending && s.manager.pending[k] == i;
      assert CallOk(s, i);
    }
  }

  /** Neither a read loop that is delivering an answer nor a call that is cancelling ever waits:
      whatever has happened to the other side, its next step is enabled. */
  lemma FinishersNeverBlock(acts: seq<Action>)
    requires Run(acts).Some?
    ensures var s := Run(acts).value;
            && (forall c :: 0 <= c < |s.conns| ==>
                  && (s.conns[c].reader.Resolving? ==> Step(s, OnConn(c, TakeForReply)).Some?)
                  && (s.conns[c].reader.Took? ==> Step(s, OnConn(c, SendReply)).Some?)
                  && (s.conns[c].reader.Sent? ==> Step(s, OnConn(c, CloseReply)).Some?))
            && (forall i :: 0 <= i < |s.calls| ==>
                  && (s.calls[i].pc.Cancelling? ==> Step(s, OnCall(i, TakeForCancel)).Some?)
                  && (s.calls[i].pc.CancelTook? ==> Step(s, OnCall(i, CloseCancelled)).Some?))
  {
    InvAfter(acts);
    var s := Run(acts).value;
    forall c | 0 <= c < |s.conns|
      ensures s.conns[c].reader.Resolving? ==> Step(s, OnConn(c, TakeForReply)).Some?
      ensures s.conns[c].reader.Took? ==> Step(s, OnConn(c, SendReply)).Some?
      ensures s.conns[c].reader.Sent? ==> Step(s, OnConn(c, CloseReply)).Some?
    {
      assert ConnOk(s, c);
      if s.conns[c].reader.Took? { assert CallOk(s, s.conns[c].reader.call); }
    }
    forall i | 0 <= i < |s.calls|
      ensures s.calls[i].pc.Cancelling? ==> Step(s, OnCall(i, TakeForCancel)).Some?
      ensures s.calls[i].pc.CancelTook? ==> Step(s, OnCall(i, CloseCancelled)).Some?
    {
      assert CallOk(s, i);
    }
  }

  predicate HasRegistered(x: Call) {
    !x.pc.Looking? && !x.pc.Found? && x.pc != Done(Offline)
  }

  /** The pending keys are exactly the ids of the calls that registered a channel that
      nobody has taken.  A finished call leaves no entry, and no wait is ever cancelled. */
  lemma PendingIsExactlyTheUntaken(acts: seq<Action>)
    requires Run(acts).Some?
    ensures var s := Run(acts).value;
            && (forall i :: 0 <= i < |s.calls| ==>
                  var x := s.calls[i];
                  && (x.request.cmd in s.manager.pending <==>
                      HasRegistered(x) && !x.chan.closed && (forall c :: !Held(s, i, c)) && !x.pc.CancelTook?)
                  && (x.pc.Done? ==> x.request.cmd !in s.manager.pending && !x.pc.ending.Cancelled?))
            && (forall k :: k in s.manager.pending ==>
                  s.manager.pending[k] < |s.calls| && s.calls[s.manager.pending[k]].request.cmd == k)
  {
    InvAfter(acts);
    var s := Run(acts).value;
    forall i | 0 <= i < |s.calls|
      ensures s.calls[i].request.cmd in s.manager.pending <==>
              HasRegistered(s.calls[i]) && !s.calls[i].chan.closed && (forall c :: !Held(s, i, c))
              && !s.calls[i].pc.CancelTook?
      ensures s.calls[i].pc.Done? ==> s.calls[i].request.cmd !in s.manager.pending && !s.calls[i].pc.ending.Cancelled?
    {
      assert CallOk(s, i);
      forall c | Held(s, i, c) ensures s.calls[i].owner == ByReader(c) {
        assert ConnOk(s, c);
      }
    }
  }

  predicate Switches(h: LogEntry, machine: nat, control: string) {
    h.machine == machine && h.request.Control? && h.request.control == control
  }

  /** The mode that a history asks of a machine: some freeze was not followed by an unfreeze. */
  ghost predicate FrozenBy(log: seq<LogEntry>, machine: nat) {
    exists k :: 0 <= k < |log| && Switches(log[k], machine, "freeze")
                && forall j :: k < j < |log| ==> !Switches(log[j], machine, "unfreeze")
  }

  lemma FrozenByStep(log: seq<LogEntry>, h: LogEntry, machine: nat)
    ensures FrozenBy(log + [h], machine) <==>
            Switches(h, machine, "freeze") || (FrozenBy(log, machine) && !Switches(h, machine, "unfreeze"))
  {
    var all := log + [h];
    if Switches(h, machine, "freeze") {
      assert Switches(all[|log|], machine, "freeze");
    } else if FrozenBy(log, machine) && !Switches(h, machine, "unfreeze") {
      var k :| 0 <= k < |log| && Switches(log[k], machine, "freeze")
               && forall j :: k < j < |log| ==> !Switches(log[j], machine, "unfreeze");
      assert Switches(all[k], machine, "freeze");
    } else {
      forall k | 0 <= k < |all| && Switches(all[k], machine, "freeze")
        ensures exists j :: k < j < |all| && Switches(all[j], machine, "unfreeze")
      {
        var j := if Switches(h, machine, "unfreeze") then |log|
                 else var j :| k < j < |log| && Switches(log[j], machine, "unfreeze"); j;
        assert Switches(all[j], machine, "unfreeze");
      }
    }
  }

  /** What an agent answered is what the request, the outcome and the mode that its own history asks
      for call for. */
  ghost predicate HonestEntry(s: State, e: nat)
    requires e < |s.log|
  {
    var h := s.log[e];
    && h.request.IsRequest() && Agents.ReplySays(h.request, h.frozen, h.result, h.reply)
    && h.conn < |s.conns| && s.conns[h.conn].machine == h.machine
    && (h.frozen <==> FrozenBy(s.log[..e], h.machine))
  }

  ghost predicate Honest(s: State) {
    && (forall m: nat :: m in s.frozen <==> FrozenBy(s.log, m))
    && (forall e :: 0 <= e < |s.log| ==> HonestEntry(s, e))
  }

  /** Most steps leave the history, the modes and the machines alone. */
  ghost predicate SameHistory(s: State, t: State) {
    && t.log == s.log && t.frozen == s.frozen && |s.conns| <= |t.conns|
    && (forall c :: 0 <= c < |s.conns| ==> t.conns[c].machine == s.conns[c].machine)
  }

  lemma OtherConnStepsKeepHistory(s: State, c: nat, e: ConnEvent)
    requires c < |s.conns| && !e.AgentHandle? && ConnStep(s, c, e).Some?
    ensures SameHistory(s, ConnStep(s, c, e).value)
  {
  }

  lemma CallStepsKeepHistory(s: State, i: nat, e: CallEvent)
    requires i < |s.calls| && CallStep(s, i, e).Some?
    ensures SameHistory(s, CallStep(s, i, e).value)
  {
  }

  lemma HistoryKeepsHonest(s: State, t: State)
    requires Honest(s) && SameHistory(s, t)
    ensures Honest(t)
  {
    forall e | 0 <= e < |t.log| ensures HonestEntry(t, e) {
      assert HonestEntry(s, e);
    }
  }

  lemma EntryKeepsHonest(s: State, t: State, h: LogEntry)
    requires Honest(s) && t.log == s.log + [h] && t.conns == s.conns
    requires forall m: nat :: m in t.frozen <==>
               Switches(h, m, "freeze") || (m in s.frozen && !Switches(h, m, "unfreeze"))
    requires h.request.IsRequest() && Agents.ReplySays(h.request, h.frozen, h.result, h.reply)
    requires h.conn < |s.conns| && s.conns[h.conn].machine == h.machine && (h.frozen <==> h.machine in s.frozen)
    ensures Honest(t)
  {
    forall m: nat ensures m in t.frozen <==> FrozenBy(t.log, m) {
      FrozenByStep(s.log, h, m);
    }
    forall e | 0 <= e < |t.log| ensures HonestEntry(t, e) {
      assert t.log[..e] == s.log[..e];
      if e < |s.log| { assert HonestEntry(s, e); } else { assert s.log[..e] == s.log; }
    }
  }

  lemma AgentHandleKeepsHonest(s: State, c: nat, r: Agents.Outcome)
    requires Honest(s) && c < |s.conns| && DoAgentHandle(s, c, r).Some?
    ensures Honest(DoAgentHandle(s, c, r).value)
  {
    var t := DoAgentHandle(s, c, r).value;
    var (k, m) := (s.conns[c], s.conns[c].toAgent[0]);
    Agents.OneReplyPerRequest(k.machine in s.frozen, m, r);
    if m.IsRequest() {
      var reply := Agents.Handle(k.machine in s.frozen, m, r).reply.value;
      EntryKeepsHonest(s, t.(conns := s.conns), LogEntry(c, k.machine, m, k.machine in s.frozen, r, reply));
      HistoryKeepsHonest(t.(conns := s.conns), t);
    } else {
      HistoryKeepsHonest(s, t);
    }
  }

  lemma StepKeepsHonest(s: State, a: Action)
    requires Honest(s) && Step(s, a).Some?
    ensures Honest(Step(s, a).value)
  {
    match a
    case Connect(_, _) => HistoryKeepsHonest(s, Step(s, a).value);
    case Start(_, _) => HistoryKeepsHonest(s, Step(s, a).value);
    case OnCall(i, e) =>
      CallStepsKeepHistory(s, i, e);
      HistoryKeepsHonest(s, Step(s, a).value);
    case OnConn(c, e) =>
      if e.AgentHandle? {
        AgentHandleKeepsHonest(s, c, e.result);
      } else {
        OtherConnStepsKeepHistory(s, c, e);
        HistoryKeepsHonest(s, Step(s, a).value);
      }
  }

  /** In every run, whatever agents, connections and calls interleave: each recorded reply is the
      handler's, and the mode it was given in is the one that the controls the same agent process
      handled before ask for. */
  lemma HonestAfter(acts: seq<Action>)
    requires Run(acts).Some?
    ensures Honest(Run(acts).value)
  {
    forall s, a | Honest(s) && Step(s, a).Some? ensures Honest(Step(s, a).value) {
      StepKeepsHonest(s, a);
    }
    InvariantHolds(INIT, Step, s => Honest(s), acts);
  }

  /** End to end: a dispatch that returns a message returns, field by field, what an agent of its
      target had to say to this very request, in the mode its own controls asked for and with the
      outcome its execution had; and that is the only answer any agent ever gave to that id. */
  lemma AnswersAreTheTargetsOwn(acts: seq<Action>, i: nat)
    requires Run(acts).Some?
    requires i < |Run(acts).value.calls| && Run(acts).value.calls[i].pc.Done?
    requires Run(acts).value.calls[i].pc.ending.Answer?
    ensures var s := Run(acts).value;
            var x := s.calls[i];
            var resp := x.pc.ending.resp;
            exists e :: 0 <= e < |s.log|
              && s.log[e].request == x.request
              && s.log[e].conn < |s.conns| && s.conns[s.log[e].conn].agent == x.agent
              && s.log[e].machine == s.conns[s.log[e].conn].machine
              && (s.log[e].frozen <==> FrozenBy(s.log[..e], s.log[e].machine))
              && Agents.ReplySays(x.request, s.log[e].frozen, s.log[e].result, s.log[e].reply)
              && resp.cmd == x.request.cmd && resp.agent == x.agent && (resp.success <==> resp.error == "")
              && Agents.AnswerSays(x.request, s.log[e].frozen, s.log[e].result, resp.result, resp.error, resp.status)
              && (forall f :: 0 <= f < |s.log| && s.log[f].request.IsRequest() && s.log[f].request.cmd == x.request.cmd
                    ==> f == e)
  {
    InvAfter(acts);
    HonestAfter(acts);
    var s := Run(acts).value;
    assert CallOk(s, i);
    var e := s.calls[i].trail.entry;
    assert EntryOk(s, e) && HonestEntry(s, e);
    forall f | 0 <= f < |s.log| && s.log[f].request.IsRequest() && s.log[f].request.cmd == s.calls[i].request.cmd
      ensures f == e
    {
      assert EntryOk(s, f);
    }
  }

  /** The session table holds, for each agent, either nothing or the session published last; and
      it holds that one as long as its handler has not left. */
  lemma SessionsFollowPublications(acts: seq<Action>)
    requires Run(acts).Some?
    ensures var s := Run(acts).value;
            && (forall a :: a in s.manager.sessions ==> a in s.latest && s.manager.sessions[a] == s.latest[a])
            && (forall a :: a in s.latest ==>
                  var c := s.latest[a];
                  && c < |s.conns| && s.conns[c].agent == a
                  && (s.manager.Get(a) == Some(c) <==> !s.conns[c].reader.Gone?)
                  && (s.manager.Get(a) == None <==> s.conns[c].reader.Gone?))
  {
    InvAfter(acts);
  }

  /** A handler that leaves after its session was replaced does not touch the table. */
  lemma StaleHandlerRemovesNothing(acts: seq<Action>, c: nat)
    requires Run(acts).Some? && c < |Run(acts).value.conns|
    requires Run(acts + [OnConn(c, Hangup)]).Some?
    ensures var (s, t) := (Run(acts).value, Run(acts + [OnConn(c, Hangup)]).value);
            var a := s.conns[c].agent;
            && (a in s.latest && s.latest[a] != c ==> t.manager == s.manager)
            && (forall b :: b != a ==> t.manager.Get(b) == s.manager.Get(b))
  {
    InvAfter(acts);
    ReplayOneMore(INIT, Step, acts, OnConn(c, Hangup));
  }

  // ---------------------------------------------------------------- the runs meant to happen do happen

  lemma Then(acts: seq<Action>, s: State, a: Action) returns (acts': seq<Action>, s': State)
    requires Run(acts) == Some(s) && Step(s, a).Some?
    ensures acts' == acts + [a] && Some(s') == Step(s, a) && Run(acts') == Some(s')
  {
    acts', s' := acts + [a], Step(s, a).value;
    ReplayOneMore(INIT, Step, acts, a);
  }

  /** An agent connects, is acknowledged and serves; a request reaches it. */
  lemma RequestArrives(request: Request, ok: bool) returns (acts: seq<Action>, s: State)
    ensures Run(acts) == Some(s)
    ensures s == State(
      Manager(map["a" := 0], map[request.cmd := 0]),
      [Call("a", request, if ok then Waiting else Cancelling(SendFailed), Chan([], false), InTable, OnWire(0), 0, 0)],
      [Conn("a", 0, [request], [], Reading, Serving)], {}, false, map[request.cmd := 0], map["a" := 0], [])
  {
    acts, s := [], INIT;
    acts, s := Then(acts, s, Connect("a", 0));
    acts, s := Then(acts, s, OnConn(0, Publish));
    acts, s := Then(acts, s, OnConn(0, Acknowledge(true)));
    assert s.conns[0].toAgent == [RegisterOk];
    acts, s := Then(acts, s, OnConn(0, AgentAck));
    assert s.conns[0] == Conn("a", 0, [], [], Reading, Serving);
    acts, s := Then(acts, s, Start("a", request));
    acts, s := Then(acts, s, OnCall(0, Lookup));
    acts, s := Then(acts, s, OnCall(0, AddPending));
    acts, s := Then(acts, s, OnCall(0, SendRequest(true, ok)));
    assert s.conns[0].toAgent == [request];
    var pc := if ok then Waiting else Cancelling(SendFailed);
    assert s.calls[0] == Call("a", request, pc, Chan([], false), InTable, OnWire(0), 0, 0);
  }

  /** The agent answers, and the read loop takes the answer off the wire. */
  lemma AnswerArrives(request: Request, result: Agents.Outcome, ok: bool) returns (acts: seq<Action>, s: State)
    ensures Run(acts) == Some(s) && |s.calls| == 1 && |s.conns| == 1
    ensures s.calls[0].chan == Chan([], false) && s.calls[0].request == request
    ensures s.conns[0].reader.Resolving? && s.conns[0].reader.resp.cmd == request.cmd
    ensures s.calls[0].pc == (if ok then Waiting else Cancelling(SendFailed))
    ensures s.manager.pending == map[request.cmd := 0]
    ensures Agents.Handle(false, request, result).reply.Some?
    ensures s.conns[0].reader == Resolving(Stamp("a", Agents.Handle(false, request, result).reply.value))
  {
    Agents.OneReplyPerRequest(false, request, result);
    var reply := Agents.Handle(false, request, result).reply.value;
    acts, s := RequestArrives(request, ok);
    acts, s := Then(acts, s, OnConn(0, AgentHandle(result)));
    assert s.conns[0].client == Replying(reply);
    acts, s := Then(acts, s, OnConn(0, AgentReply));
    assert s.conns[0].toServer == [reply];
    acts, s := Then(acts, s, OnConn(0, Receive));
  }

  /** The answer is taken from the table and sent. */
  lemma AnswerIsSent(before: seq<Action>, s0: State, resp: Response) returns (acts: seq<Action>, s: State)
    requires Run(before) == Some(s0) && |s0.calls| == 1 && |s0.conns| == 1
    requires s0.conns[0].reader == Resolving(resp) && s0.manager.pending == map[resp.cmd := 0]
    requires s0.calls[0].chan == Chan([], false)
    ensures Run(acts) == Some(s) && |s.calls| == 1 && |s.conns| == 1 && s.conns[0].reader == Sent(0)
    ensures var x := s0.calls[0];
            s.calls[0] == x.(chan := Chan([resp], false), owner := ByReader(0), sends := x.sends + 1)
  {
    acts, s := Then(before, s0, OnConn(0, TakeForReply));
    acts, s := Then(acts, s, OnConn(0, SendReply));
  }

  /** Every request can be answered, with what it and the outcome call for. */
  lemma EveryRequestCanBeAnswered(request: Request, result: Agents.Outcome) returns (acts: seq<Action>)
    ensures Run(acts).Some? && |Run(acts).value.calls| == 1 && Run(acts).value.calls[0].request == request
    ensures var pc := Run(acts).value.calls[0].pc;
            && pc.Done? && pc.ending.Answer? && pc.ending.resp.cmd == request.cmd
            && var resp := pc.ending.resp;
               Agents.AnswerSays(request, false, result, resp.result, resp.error, resp.status)
  {
    var s;
    Agents.OneReplyPerRequest(false, request, result);
    acts, s := AnswerArrives(request, result, true);
    acts, s := AnswerIsSent(acts, s, s.conns[0].reader.resp);
    acts, s := Then(acts, s, OnConn(0, CloseReply));
    acts, s := Then(acts, s, OnCall(0, TakeReply));
  }

  /** A timeout can win the race although the answer is already in the channel: the call ends
      as timed out, finds nothing to cancel, and the read loop still closes undisturbed. */
  lemma TimeoutCanBeatTheAnswer(request: Request, result: Agents.Outcome) returns (acts: seq<Action>)
    ensures Run(acts).Some? && |Run(acts).value.calls| == 1 && |Run(acts).value.conns| == 1
    ensures Run(acts).value.calls[0].pc == Done(TimedOut)
    ensures |Run(acts).value.calls[0].chan.buffer| == 1 && Run(acts).value.conns[0].reader == Reading
  {
    var s;
    acts, s := AnswerArrives(request, result, true);
    acts, s := AnswerIsSent(acts, s, s.conns[0].reader.resp);
    acts, s := Then(acts, s, OnCall(0, Timeout));
    InvAfter(acts);
    assert CallOk(s, 0);
    assert request.cmd !in s.manager.pending;
    acts, s := Then(acts, s, OnCall(0, TakeForCancel));
    acts, s := Then(acts, s, OnConn(0, CloseReply));
  }
}
