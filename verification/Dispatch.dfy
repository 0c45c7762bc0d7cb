/** Commands in flight: dispatching goroutines, one read loop per connection and
    the agents at the other end, interleaved step by step (server/session.go,
    server/server.go, agent/agent.go). */
module Dispatch {
  import opened Wrappers
  import opened Machines
  import opened Protocol
  import opened Sessions
  import Agents

  /** How a call of `dispatch` ends. */
  datatype Ending = Offline | SendFailed | TimedOut | Cancelled | Answer(resp: Response)

  /** Where a dispatching goroutine is. */
  datatype CallPc =
    | Looking                     // before the lookup
    | Found(conn: nat)            // session found, nothing registered yet
    | Registered(conn: nat)       // reply channel registered, message not sent
    | Waiting                     // in the select
    | Cancelling(why: Ending)    // about to enter cancelPending
    | CancelTook(why: Ending, taken: nat)   // cancelPending took a channel, not closed yet
    | Done(ending: Ending)

  /** A reply channel: one buffered message at most. */
  datatype Chan = Chan(buffer: seq<Response>, closed: bool)

  /** History: who has the right to finish a reply channel. */
  datatype Owner = NotMade | InTable | ByReader(conn: nat) | ByCanceller | Finished

  /** History: how far the request travelled. */
  datatype Trail = Unsent | OnWire(conn: nat) | Handled(entry: nat)

  /** One call of dispatch.  Its reply channel is named by the call that made it; `sends` and
      `closes` count what has been done to that channel. */
  datatype Call = Call(agent: AgentId, request: Request, pc: CallPc, chan: Chan,
                       owner: Owner, trail: Trail, sends: nat, closes: nat)

  /** Where the server's goroutine of one connection is. */
  datatype ReaderPc =
    | Accepted                            // register message decoded
    | Published                           // session in the table, RegisterOk not sent
    | Reading
    | Resolving(resp: Response)           // about to enter resolvePending
    | Took(call: nat, resp: Response)     // resolvePending took the channel
    | Sent(call: nat)                     // message sent, channel not closed
    | Gone

  /** Where the agent's receive loop is on one connection. */
  datatype ClientPc = AwaitAck | Serving | Replying(reply: AgentMsg) | Closed

  /** One connection: two FIFO queues and the goroutines at its ends. */
  datatype Conn = Conn(agent: AgentId, machine: nat, toAgent: seq<ServerMsg>, toServer: seq<AgentMsg>,
                       reader: ReaderPc, client: ClientPc)

  /** History: one request handled by one agent, in the mode it was in. */
  datatype LogEntry = LogEntry(conn: nat, machine: nat, request: ServerMsg, frozen: bool, result: Agents.Outcome,
                               reply: AgentMsg)

  /** `issued` and `latest` and `log` are histories: which call got which command id,
      the last session published for an agent, and what agents handled.  `frozen`
      holds the machines in frozen mode.  `panicked` records a send on a closed
      channel or a second close. */
  datatype State = State(
    manager: Manager<nat, nat>,
    calls: seq<Call>,
    conns: seq<Conn>,
    frozen: set<nat>,
    panicked: bool,
    issued: map<CommandId, nat>,
    latest: map<AgentId, nat>,
    log: seq<LogEntry>)

  const INIT := State(Manager(map[], map[]), [], [], {}, false, map[], map[], [])

  /** The atomic steps of the two goroutines of one connection. */
  datatype ConnEvent =
    | Publish | Acknowledge(delivered: bool) | Receive | TakeForReply | SendReply | CloseReply | Hangup
    | AgentAck | AgentHandle(result: Agents.Outcome) | AgentReply | AgentBeat(status: string) | AgentClose

  /** The atomic steps of one call of dispatch. */
  datatype CallEvent =
    | Lookup | AddPending | SendRequest(delivered: bool, ok: bool) | TakeReply | Timeout
    | TakeForCancel | CloseCancelled

  datatype Action =
    | Connect(agent: AgentId, machine: nat)
    | Start(agent: AgentId, request: Request)
    | OnConn(c: nat, conn: ConnEvent)
    | OnCall(i: nat, call: CallEvent)

  function SetConn(s: State, c: nat, conn: Conn): State
    requires c < |s.conns|
  {
    s.(conns := s.conns[c := conn])
  }

  function SetCall(s: State, i: nat, call: Call): State
    requires i < |s.calls|
  {
    s.(calls := s.calls[i := call])
  }

  /** Putting a message into a channel: panics when closed, cannot proceed when full. */
  function ChanSend(ch: Chan, m: Response): Option<(Chan, bool)> {
    if ch.closed then Some((ch, true))
    else if |ch.buffer| >= 1 then None
    else Some((ch.(buffer := ch.buffer + [m]), false))
  }

  function ChanClose(ch: Chan): (Chan, bool) {
    (ch.(closed := true), ch.closed)
  }

  // ---------------------------------------------------------------- the server side of a connection

  function DoPublish(s: State, c: nat): Option<State>
    requires c < |s.conns|
  {
    var k := s.conns[c];
    if !k.reader.Accepted? then None
    else Some(SetConn(s, c, k.(reader := Published))
              .(manager := s.manager.Register(k.agent, c), latest := s.latest[k.agent := c]))
  }

  function DoAcknowledge(s: State, c: nat, delivered: bool): Option<State>
    requires c < |s.conns|
  {
    var k := s.conns[c];
    if !k.reader.Published? then None
    else Some(SetConn(s, c, k.(reader := Reading, toAgent := k.toAgent + if delivered then [RegisterOk] else [])))
  }

  function DoReceive(s: State, c: nat): Option<State>
    requires c < |s.conns|
  {
    var k := s.conns[c];
    if !k.reader.Reading? || k.toServer == [] then None
    else
      var m := k.toServer[0];
      Some(SetConn(s, c, k.(toServer := k.toServer[1..],
                            reader := if m.Heartbeat? then Reading else Resolving(Stamp(k.agent, m)))))
  }

  function DoTakeForReply(s: State, c: nat): Option<State>
    requires c < |s.conns|
  {
    var k := s.conns[c];
    if !k.reader.Resolving? then None
    else
      var (manager, taken) := s.manager.TakePending(k.reader.resp.cmd);
      match taken
      case None => Some(SetConn(s, c, k.(reader := Reading)).(manager := manager))
      case Some(i) =>
        if i >= |s.calls| then None
        else Some(SetCall(SetConn(s, c, k.(reader := Took(i, k.reader.resp))), i,
                          s.calls[i].(owner := ByReader(c))).(manager := manager))
  }

  function DoSendReply(s: State, c: nat): Option<State>
    requires c < |s.conns|
  {
    var k := s.conns[c];
    if !k.reader.Took? || k.reader.call >= |s.calls| then None
    else
      var i := k.reader.call;
      match ChanSend(s.calls[i].chan, k.reader.resp)
      case None => None
      case Some((ch, panic)) =>
        Some(SetCall(SetConn(s, c, k.(reader := Sent(i))), i,
                     s.calls[i].(chan := ch, sends := s.calls[i].sends + 1))
             .(panicked := s.panicked || panic))
  }

  function DoCloseReply(s: State, c: nat): Option<State>
    requires c < |s.conns|
  {
    var k := s.conns[c];
    if !k.reader.Sent? || k.reader.call >= |s.calls| then None
    else
      var i := k.reader.call;
      var (ch, panic) := ChanClose(s.calls[i].chan);
      Some(SetCall(SetConn(s, c, k.(reader := Reading)), i,
                   s.calls[i].(chan := ch, owner := Finished, closes := s.calls[i].closes + 1))
           .(panicked := s.panicked || panic))
  }

  function DoHangup(s: State, c: nat): Option<State>
    requires c < |s.conns|
  {
    var k := s.conns[c];
    if !k.reader.Reading? then None
    else Some(SetConn(s, c, k.(reader := Gone)).(manager := s.manager.Unregister(k.agent, c)))
  }

  // ---------------------------------------------------------------- the agent side of a connection

  /** Anything but the acknowledgement makes the agent give the connection up. */
  function DoAgentAck(s: State, c: nat): Option<State>
    requires c < |s.conns|
  {
    var k := s.conns[c];
    if !k.client.AwaitAck? || k.toAgent == [] then None
    else Some(SetConn(s, c, k.(toAgent := k.toAgent[1..],
                               client := if k.toAgent[0].RegisterOk? then Serving else Closed)))
  }

  /** The agent takes its next message and reacts as Agents.Handle says. */
  function DoAgentHandle(s: State, c: nat, result: Agents.Outcome): Option<State>
    requires c < |s.conns|
  {
    var k := s.conns[c];
    if !k.client.Serving? || k.toAgent == [] then None
    else
      var m := k.toAgent[0];
      var frozen := k.machine in s.frozen;
      var h := Agents.Handle(frozen, m, result);
      var client := if h.reply.Some? then Replying(h.reply.value) else Closed;
      var s1 := SetConn(s, c, k.(toAgent := k.toAgent[1..], client := client))
                .(frozen := if h.frozen then s.frozen + {k.machine} else s.frozen - {k.machine});
      Some(if m.IsRequest() && h.reply.Some?
           then Record(s1, LogEntry(c, k.machine, m, frozen, result, h.reply.value)) else s1)
  }

  /** History only: remember what was handled, and where its request ended. */
  function Record(s: State, h: LogEntry): State
    requires h.request.IsRequest()
  {
    var t := s.(log := s.log + [h]);
    var cmd := h.request.cmd;
    if cmd in s.issued && s.issued[cmd] < |s.calls|
    then SetCall(t, s.issued[cmd], s.calls[s.issued[cmd]].(trail := Handled(|s.log|)))
    else t
  }

  function DoAgentReply(s: State, c: nat): Option<State>
    requires c < |s.conns|
  {
    var k := s.conns[c];
    if !k.client.Replying? then None
    else Some(SetConn(s, c, k.(toServer := k.toServer + [k.client.reply], client := Serving)))
  }

  function DoAgentBeat(s: State, c: nat, status: string): Option<State>
    requires c < |s.conns|
  {
    Some(SetConn(s, c, s.conns[c].(toServer := s.conns[c].toServer + [Heartbeat(status)])))
  }

  function DoAgentClose(s: State, c: nat): Option<State>
    requires c < |s.conns|
  {
    Some(SetConn(s, c, s.conns[c].(client := Closed)))
  }

  // ---------------------------------------------------------------- a call of dispatch

  function DoLookup(s: State, i: nat): Option<State>
    requires i < |s.calls|
  {
    var x := s.calls[i];
    if !x.pc.Looking? then None
    else
      var session := s.manager.Get(x.agent);
      Some(SetCall(s, i, x.(pc := if session.Some? then Found(session.value) else Done(Offline))))
  }

  function DoAddPending(s: State, i: nat): Option<State>
    requires i < |s.calls|
  {
    var x := s.calls[i];
    if !x.pc.Found? then None
    else Some(SetCall(s, i, x.(pc := Registered(x.pc.conn), chan := Chan([], false), owner := InTable))
              .(manager := s.manager.AddPending(x.request.cmd, i)))
  }

  /** A write can fail, and can be lost or delivered either way. */
  function DoSendRequest(s: State, i: nat, delivered: bool, ok: bool): Option<State>
    requires i < |s.calls|
  {
    var x := s.calls[i];
    if !x.pc.Registered? || x.pc.conn >= |s.conns| then None
    else
      var c := x.pc.conn;
      var s1 := SetCall(s, i, x.(pc := if ok then Waiting else Cancelling(SendFailed),
                                 trail := if delivered then OnWire(c) else x.trail));
      Some(if delivered
           then SetConn(s1, c, s.conns[c].(toAgent := s.conns[c].toAgent + [x.request])) else s1)
  }

  function DoTakeReply(s: State, i: nat): Option<State>
    requires i < |s.calls|
  {
    var x := s.calls[i];
    if !x.pc.Waiting? then None
    else if x.chan.buffer != [] then
      Some(SetCall(s, i, x.(pc := Done(Answer(x.chan.buffer[0])), chan := x.chan.(buffer := x.chan.buffer[1..]))))
    else if x.chan.closed then Some(SetCall(s, i, x.(pc := Done(Cancelled))))
    else None
  }

  function DoTimeout(s: State, i: nat): Option<State>
    requires i < |s.calls|
  {
    if !s.calls[i].pc.Waiting? then None
    else Some(SetCall(s, i, s.calls[i].(pc := Cancelling(TimedOut))))
  }

  function DoTakeForCancel(s: State, i: nat): Option<State>
    requires i < |s.calls|
  {
    var x := s.calls[i];
    if !x.pc.Cancelling? then None
    else
      var (manager, taken) := s.manager.TakePending(x.request.cmd);
      match taken
      case None => Some(SetCall(s, i, x.(pc := Done(x.pc.why))).(manager := manager))
      case Some(j) =>
        if j >= |s.calls| then None
        else
          var s1 := SetCall(s, i, x.(pc := CancelTook(x.pc.why, j))).(manager := manager);
          Some(SetCall(s1, j, s1.calls[j].(owner := ByCanceller)))
  }

  function DoCloseCancelled(s: State, i: nat): Option<State>
    requires i < |s.calls|
  {
    var x := s.calls[i];
    if !x.pc.CancelTook? || x.pc.taken >= |s.calls| then None
    else
      var j := x.pc.taken;
      var s1 := SetCall(s, i, x.(pc := Done(x.pc.why)));
      var (ch, panic) := ChanClose(s1.calls[j].chan);
      Some(SetCall(s1, j, s1.calls[j].(chan := ch, owner := Finished, closes := s1.calls[j].closes + 1))
           .(panicked := s.panicked || panic))
  }

  // ---------------------------------------------------------------- the whole system

  function DoConnect(s: State, agent: AgentId, machine: nat): State {
    s.(conns := s.conns + [Conn(agent, machine, [], [], Accepted, AwaitAck)])
  }

  /** Command ids come from NewRequestID: a new call gets one never issued before. */
  function DoStart(s: State, agent: AgentId, request: Request): Option<State> {
    if request.cmd in s.issued then None
    else Some(s.(calls := s.calls + [Call(agent, request, Looking, Chan([], false), NotMade, Unsent, 0, 0)],
                 issued := s.issued[request.cmd := |s.calls|]))
  }

  function ConnStep(s: State, c: nat, e: ConnEvent): Option<State>
    requires c < |s.conns|
  {
    match e
    case Publish => DoPublish(s, c)
    case Acknowledge(delivered) => DoAcknowledge(s, c, delivered)
    case Receive => DoReceive(s, c)
    case TakeForReply => DoTakeForReply(s, c)
    case SendReply => DoSendReply(s, c)
    case CloseReply => DoCloseReply(s, c)
    case Hangup => DoHangup(s, c)
    case AgentAck => DoAgentAck(s, c)
    case AgentHandle(result) => DoAgentHandle(s, c, result)
    case AgentReply => DoAgentReply(s, c)
    case AgentBeat(status) => DoAgentBeat(s, c, status)
    case AgentClose => DoAgentClose(s, c)
  }

  function CallStep(s: State, i: nat, e: CallEvent): Option<State>
    requires i < |s.calls|
  {
    match e
    case Lookup => DoLookup(s, i)
    case AddPending => DoAddPending(s, i)
    case SendRequest(delivered, ok) => DoSendRequest(s, i, delivered, ok)
    case TakeReply => DoTakeReply(s, i)
    case Timeout => DoTimeout(s, i)
    case TakeForCancel => DoTakeForCancel(s, i)
    case CloseCancelled => DoCloseCancelled(s, i)
  }

  function Step(s: State, a: Action): Option<State> {
    match a
    case Connect(agent, machine) => Some(DoConnect(s, agent, machine))
    case Start(agent, request) => DoStart(s, agent, request)
    case OnConn(c, e) => if c < |s.conns| then ConnStep(s, c, e) else None
    case OnCall(i, e) => if i < |s.calls| then CallStep(s, i, e) else None
  }

  function Run(acts: seq<Action>): Option<State> {
    Replay(INIT, Step, acts)
  }
}
