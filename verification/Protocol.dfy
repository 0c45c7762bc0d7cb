/** The messages of the command protocol, reduced to the fields that decide
    where an answer goes and what it says. */
module Protocol {
  type AgentId = string
  type CommandId = string

  /** What the server writes on an agent's connection. */
  datatype ServerMsg =
    | RegisterOk
    | Exec(cmd: CommandId, command: string, args: seq<string>)
    | Control(cmd: CommandId, control: string)
    | Ping(cmd: CommandId)
    | ServerError(error: string)
    | Unknown(kind: string)
  {
    /** The messages that `dispatch` sends and that ask for an answer. */
    predicate IsRequest() {
      Exec? || Control? || Ping?
    }
  }

  type Request = m: ServerMsg | m.IsRequest() witness Ping("")

  /** What an agent writes on its connection after registering. */
  datatype AgentMsg =
    | Heartbeat(status: string)
    | ExecResult(cmd: CommandId, result: string, error: string, status: string)
    | PingResult(cmd: CommandId, result: string, status: string)

  /** An answer as the server hands it to the waiting dispatch: the agent id is
      that of the session it arrived on and success is recomputed from the error. */
  datatype Response = Response(agent: AgentId, cmd: CommandId, result: string, error: string,
                               status: string, success: bool)

  function Stamp(agent: AgentId, m: AgentMsg): Response
    requires !m.Heartbeat?
  {
    match m
    case ExecResult(cmd, result, error, status) => Response(agent, cmd, result, error, status, error == "")
    case PingResult(cmd, result, status) => Response(agent, cmd, result, "", status, true)
  }
}
