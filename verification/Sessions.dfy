/** The session manager's shared tables (server/session.go).  Manager is the
    value of the two maps; its functions are the critical sections, so the
    concurrent model and the object below take the very same locked steps. */
module Sessions {
  import opened Wrappers
  import opened Protocol

  datatype Manager<S(==), C> = Manager(sessions: map<AgentId, S>, pending: map<CommandId, C>) {
    function Register(agent: AgentId, session: S): Manager<S, C> {
      this.(sessions := sessions[agent := session])
    }

    /** Only the current session of the agent is removed. */
    function Unregister(agent: AgentId, session: S): Manager<S, C> {
      if agent in sessions && sessions[agent] == session then this.(sessions := sessions - {agent}) else this
    }

    function Get(agent: AgentId): Option<S> {
      if agent in sessions then Some(sessions[agent]) else None
    }

    function AddPending(cmd: CommandId, channel: C): Manager<S, C> {
      this.(pending := pending[cmd := channel])
    }

    /** Looking the entry up and deleting it is one locked step. */
    function TakePending(cmd: CommandId): (Manager<S, C>, Option<C>) {
      if cmd in pending then (this.(pending := pending - {cmd}), Some(pending[cmd])) else (this, None)
    }
  }

  /** A reply channel is handed out at most once per registration, to whoever takes it first. */
  lemma PendingIsTakenOnce<S, C>(m: Manager<S, C>, cmd: CommandId, channel: C)
    ensures var (m1, first) := m.AddPending(cmd, channel).TakePending(cmd);
            first == Some(channel) && m1.TakePending(cmd) == (m1, None)
    ensures cmd !in m.pending ==> m.AddPending(cmd, channel).TakePending(cmd).0 == m
  {
    if cmd !in m.pending {
      assert m.pending[cmd := channel] - {cmd} == m.pending;
    }
  }

  /** A handler that leaves after its session was replaced changes nothing; otherwise the agent is gone. */
  lemma UnregisterAfterRegister<S, C>(m: Manager<S, C>, agent: AgentId, stale: S, current: S)
    ensures var after := m.Register(agent, current);
            && (stale != current ==> after.Unregister(agent, stale) == after)
            && after.Unregister(agent, current).Get(agent) == None
            && after.Unregister(agent, current).sessions == m.sessions - {agent}
  {
    assert m.sessions[agent := current] - {agent} == m.sessions - {agent};
  }

  // ---------------------------------------------------------------- the objects

  class Connection {
    var open: bool

    constructor ()
      ensures open
    {
      open := true;
    }
  }

  class AgentSession {
    const conn: Connection
    var id: AgentId

    constructor (conn: Connection)
      ensures this.conn == conn && id == ""
    {
      this.conn, id := conn, "";
    }
  }

  /** A channel with a one-message buffer.  Sending needs an open channel with room
      (a full one would block, a closed one panics); closing needs an open one. */
  class ReplyChannel {
    var buffer: seq<Response>
    var closed: bool

    constructor ()
      ensures buffer == [] && !closed
    {
      buffer, closed := [], false;
    }

    method Send(m: Response)
      requires !closed && |buffer| < 1
      modifies this
      ensures buffer == old(buffer) + [m] && !closed
    {
      buffer := buffer + [m];
    }

    method Close()
      requires !closed
      modifies this
      ensures closed && buffer == old(buffer)
    {
      closed := true;
    }
  }

  class SessionManager {
    var sessions: map<AgentId, AgentSession>
    var pending: map<CommandId, ReplyChannel>

    ghost function View(): Manager<AgentSession, ReplyChannel>
      reads this
    {
      Manager(sessions, pending)
    }

    /** Every channel still in the table is open, empty and entered once. */
    ghost predicate Valid()
      reads this, pending.Values
    {
      && (forall k :: k in pending ==> !pending[k].closed && pending[k].buffer == [])
      && (forall k, l :: k in pending && l in pending && pending[k] == pending[l] ==> k == l)
    }

    constructor ()
      ensures Valid() && View() == Manager(map[], map[])
    {
      sessions, pending := map[], map[];
    }

    /** A previous session of the agent on another connection has that connection closed. */
    method Register(agent: AgentId, session: AgentSession)
      modifies this`sessions, session`id, (if agent in sessions then {sessions[agent].conn} else {})`open
      ensures View() == old(View()).Register(agent, session)
      ensures sessions == old(sessions)[agent := session] && pending == old(pending)
      ensures session.id == agent
      ensures agent in old(sessions) ==>
                var previous := old(sessions)[agent].conn;
                previous.open == (old(previous.open) && previous == session.conn)
    {
      if agent in sessions {
        if sessions[agent].conn != session.conn {
          sessions[agent].conn.open := false;
        }
      }
      session.id := agent;
      sessions := sessions[agent := session];
    }

    method Unregister(agent: AgentId, session: AgentSession)
      modifies this`sessions
      ensures View() == old(View()).Unregister(agent, session)
      ensures sessions == if agent in old(sessions) && old(sessions)[agent] == session then old(sessions) - {agent}
                          else old(sessions)
    {
      if agent in sessions && sessions[agent] == session {
        sessions := sessions - {agent};
      }
    }

    method Get(agent: AgentId) returns (session: Option<AgentSession>)
      ensures session == View().Get(agent)
      ensures match session
              case None => agent !in sessions
              case Some(found) => agent in sessions && sessions[agent] == found
    {
      if agent in sessions {
        return Some(sessions[agent]);
      }
      return None;
    }

    method RegisterPending(cmd: CommandId) returns (channel: ReplyChannel)
      requires Valid()
      modifies this`pending
      ensures Valid() && fresh(channel)
      ensures View() == old(View()).AddPending(cmd, channel)
      ensures pending == old(pending)[cmd := channel] && channel.buffer == [] && !channel.closed
    {
      channel := new ReplyChannel();
      pending := pending[cmd := channel];
    }

    /** With nobody interfering, the waiting dispatch finds exactly this message and then a closed channel. */
    method ResolvePending(msg: Response) returns (ok: bool)
      requires Valid()
      modifies this`pending, pending.Values
      ensures Valid()
      ensures ok == (msg.cmd in old(pending)) && View() == old(View()).TakePending(msg.cmd).0
      ensures pending == old(pending) - {msg.cmd}
      ensures ok ==> old(pending)[msg.cmd].buffer == [msg] && old(pending)[msg.cmd].closed
      ensures forall k :: k in old(pending) && k != msg.cmd ==> unchanged(old(pending)[k])
    {
      ok := msg.cmd in pending;
      if ok {
        var channel := pending[msg.cmd];
        pending := pending - {msg.cmd};
        channel.Send(msg);
        channel.Close();
      }
    }

    method CancelPending(cmd: CommandId)
      requires Valid()
      modifies this`pending, pending.Values
      ensures Valid()
      ensures View() == old(View()).TakePending(cmd).0
      ensures pending == old(pending) - {cmd}
      ensures cmd in old(pending) ==> old(pending)[cmd].buffer == [] && old(pending)[cmd].closed
      ensures forall k :: k in old(pending) && k != cmd ==> unchanged(old(pending)[k])
    {
      if cmd in pending {
        var channel := pending[cmd];
        pending := pending - {cmd};
        channel.Close();
      }
    }
  }
}
