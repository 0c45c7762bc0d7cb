/** The agent's side of the protocol (agent/agent.go): the frozen mode, one
    reply per request, heartbeats from a second goroutine, any number of
    reconnections. */
module Agents {
  import opened Wrappers
  import opened Protocol
  import opened Machines

  /** What running a command gives: its output and, when it failed, the error text. */
  datatype Outcome = Outcome(result: string, error: Option<string>)

  /** What handling one server message does to the agent.  `exit` is the code with which the
      process is to end shortly after the reply has been sent. */
  datatype Handling = Handling(frozen: bool, ran: bool, reply: Option<AgentMsg>, error: Option<string>,
                               exit: Option<nat>)

  function StatusOf(frozen: bool): string {
    if frozen then "frozen" else "online"
  }

  const FROZEN_ERROR := "agent is frozen and not accepting commands"

  function ControlHandling(frozen: bool, cmd: CommandId, control: string): Handling {
    if control == "freeze" then
      Handling(true, false, Some(ExecResult(cmd, "agent frozen", "", "frozen")), None, None)
    else if control == "unfreeze" then
      Handling(false, false, Some(ExecResult(cmd, "agent unfrozen", "", "online")), None, None)
    else if control == "stop" then
      Handling(frozen, false, Some(ExecResult(cmd, "agent stopping", "", "stopping")), None, Some(0))
    else if control == "restart" then
      Handling(frozen, false, Some(ExecResult(cmd, "agent restarting", "", "restarting")), None, Some(1))
    else
      Handling(frozen, false, Some(ExecResult(cmd, "", "unsupported agent control: " + control, "")), None, None)
  }

  /** The reaction to one server message; `outcome` is what the command gives if it is run. */
  function Handle(frozen: bool, m: ServerMsg, outcome: Outcome): Handling {
    match m
    case Exec(cmd, _, _) =>
      if frozen then
        Handling(frozen, false, Some(ExecResult(cmd, "", FROZEN_ERROR, "frozen")), None, None)
      else
        var error := if outcome.error.Some? then outcome.error.value else "";
        Handling(frozen, true, Some(ExecResult(cmd, outcome.result, error, "")), None, None)
    case Control(cmd, control) => ControlHandling(frozen, cmd, control)
    case Ping(cmd) => Handling(frozen, false, Some(PingResult(cmd, "pong", StatusOf(frozen))), None, None)
    case ServerError(error) => Handling(frozen, false, None, Some(error), None)
    case RegisterOk => Handling(frozen, false, None, Some("unsupported server message: register ok"), None)
    case Unknown(kind) => Handling(frozen, false, None, Some("unsupported server message: " + kind), None)
  }

  /** What the answer to a request says, field by field, when it met an agent in the given mode. */
  predicate AnswerSays(request: Request, frozen: bool, outcome: Outcome, result: string, error: string, status: string)
  {
    match request
    case Exec(_, _, _) =>
      if frozen then result == "" && error == "agent is frozen and not accepting commands" && status == "frozen"
      else result == outcome.result && status == ""
           && (outcome.error == None ==> error == "") && (outcome.error.Some? ==> error == outcome.error.value)
    case Ping(_) => result == "pong" && error == "" && status == (if frozen then "frozen" else "online")
    case Control(_, "freeze") => result == "agent frozen" && error == "" && status == "frozen"
    case Control(_, "unfreeze") => result == "agent unfrozen" && error == "" && status == "online"
    case Control(_, "stop") => result == "agent stopping" && error == "" && status == "stopping"
    case Control(_, "restart") => result == "agent restarting" && error == "" && status == "restarting"
    case Control(_, other) => result == "" && error == "unsupported agent control: " + other && status == ""
  }

  predicate ReplySays(request: Request, frozen: bool, outcome: Outcome, reply: AgentMsg) {
    match reply
    case Heartbeat(_) => false
    case ExecResult(cmd, result, error, status) =>
      !request.Ping? && cmd == request.cmd && AnswerSays(request, frozen, outcome, result, error, status)
    case PingResult(cmd, result, status) =>
      request.Ping? && cmd == request.cmd && AnswerSays(request, frozen, outcome, result, "", status)
  }

  /** Exactly the three kinds of request are answered, with their own command id and the fields
      that the request, the mode and the command's outcome call for; the mode changes by freeze
      and unfreeze only. */
  lemma OneReplyPerRequest(frozen: bool, m: ServerMsg, outcome: Outcome)
    ensures var h := Handle(frozen, m, outcome);
            && (h.reply.Some? <==> m.IsRequest()) && (h.reply.Some? <==> h.error.None?)
            && (m.IsRequest() ==> ReplySays(m, frozen, outcome, h.reply.value))
            && (h.frozen <==> if m.Control? && m.control == "freeze" then true
                              else if m.Control? && m.control == "unfreeze" then false else frozen)
            && (h.ran <==> m.Exec? && !frozen)
            && (h.exit == Some(0) <==> m.Control? && m.control == "stop")
            && (h.exit == Some(1) <==> m.Control? && m.control == "restart")
            && (h.exit.Some? ==> h.exit.value <= 1)
  {
    assert "stop"[0] == 's' && "restart"[0] == 'r' && "freeze"[0] == 'f' && "unfreeze"[0] == 'u';
  }

  // ---------------------------------------------------------------- the service object

  class AgentService {
    var frozen: bool
    var connected: bool          // an encoder is installed
    var sent: seq<AgentMsg>      // what the encoders have written so far
    var ran: seq<CommandId>      // the commands that were run
    var exits: seq<nat>          // the exit codes scheduled so far

    constructor ()
      ensures !frozen && !connected && sent == [] && ran == [] && exits == []
    {
      frozen, connected, sent, ran, exits := false, false, [], [], [];
    }

    method SetFrozen(value: bool)
      modifies this`frozen
      ensures frozen == value
    {
      frozen := value;
    }

    method CurrentStatus() returns (status: string)
      ensures status == if frozen then "frozen" else "online"
    {
      if frozen {
        return "frozen";
      }
      return "online";
    }

    method ClearConnection()
      modifies this`connected
      ensures !connected
    {
      connected := false;
    }

    /** `writes` says whether the encoder's write succeeds. */
    method Send(m: AgentMsg, writes: bool) returns (error: Option<string>)
      modifies this`sent
      ensures error.None? <==> connected && writes
      ensures sent == old(sent) + if connected && writes then [m] else []
    {
      if !connected {
        return Some("agent not connected");
      }
      if !writes {
        return Some("write failed");
      }
      sent := sent + [m];
      return None;
    }

    method HandleServerMessage(m: ServerMsg, outcome: Outcome, writes: bool) returns (error: Option<string>)
      modifies this`frozen, this`sent, this`ran, this`exits
      ensures var h := Handle(old(frozen), m, outcome);
              && frozen == h.frozen
              && ran == old(ran) + (if h.ran then [m.cmd] else [])
              && sent == old(sent) + (if h.reply.Some? && connected && writes then [h.reply.value] else [])
              && exits == old(exits) + (if h.exit.Some? && connected && writes then [h.exit.value] else [])
              && (error.None? <==> h.reply.Some? && connected && writes)
      ensures m.IsRequest() && connected && writes ==>
                && |sent| == |old(sent)| + 1 && sent[..|old(sent)|] == old(sent)
                && ReplySays(m, old(frozen), outcome, sent[|old(sent)|])
      ensures m.ServerError? ==> error == Some(m.error)
    {
      match m {
        case Exec(cmd, _, _) =>
          if frozen {
            error := Send(ExecResult(cmd, "", FROZEN_ERROR, "frozen"), writes);
            return;
          }
          ran := ran + [cmd];
          var text := "";
          if outcome.error.Some? {
            text := outcome.error.value;
          }
          error := Send(ExecResult(cmd, outcome.result, text, ""), writes);
        case Control(cmd, control) =>
          error := HandleControlMessage(cmd, control, writes);
        case Ping(cmd) =>
          var status := CurrentStatus();
          error := Send(PingResult(cmd, "pong", status), writes);
        case ServerError(text) =>
          error := Some(text);
        case RegisterOk =>
          error := Some("unsupported server message: register ok");
        case Unknown(kind) =>
          error := Some("unsupported server message: " + kind);
      }
    }

    method HandleControlMessage(cmd: CommandId, control: string, writes: bool) returns (error: Option<string>)
      modifies this`frozen, this`sent, this`exits
      ensures var h := ControlHandling(old(frozen), cmd, control);
              && frozen == h.frozen
              && sent == old(sent) + (if connected && writes then [h.reply.value] else [])
              && exits == old(exits) + (if h.exit.Some? && connected && writes then [h.exit.value] else [])
              && (error.None? <==> connected && writes)
      ensures connected && writes ==>
                && |sent| == |old(sent)| + 1 && sent[..|old(sent)|] == old(sent)
                && forall outcome :: ReplySays(Control(cmd, control), old(frozen), outcome, sent[|old(sent)|])
    {
      var reply: AgentMsg;
      if control == "freeze" {
        SetFrozen(true);
        reply := ExecResult(cmd, "agent frozen", "", "frozen");
      } else if control == "unfreeze" {
        SetFrozen(false);
        reply := ExecResult(cmd, "agent unfrozen", "", "online");
      } else if control == "stop" {
        error := Send(ExecResult(cmd, "agent stopping", "", "stopping"), writes);
        if error.None? {
          exits := exits + [0];
        }
        return;
      } else if control == "restart" {
        error := Send(ExecResult(cmd, "agent restarting", "", "restarting"), writes);
        if error.None? {
          exits := exits + [1];
        }
        return;
      } else {
        reply := ExecResult(cmd, "", "unsupported agent control: " + control, "");
      }
      error := Send(reply, writes);
    }
  }

  // ---------------------------------------------------------------- whole runs of one agent process

  /** The receive loop, the heartbeat goroutines (one per connection, the old ones possibly not
      ended yet) and the scheduled exits interleave: a heartbeat first reads the status and
      sends it in a later step. */
  datatype Action =
    | Connected
    | Dropped
    | Message(m: ServerMsg, outcome: Outcome, writes: bool)
    | BeatRead(g: nat)
    | BeatSend(g: nat, writes: bool)
    | Exit(k: nat)

  /** `reading` holds the statuses read and not yet sent, by goroutine; `exits` the exit codes scheduled. */
  datatype Process = Process(frozen: bool, connected: bool, ran: seq<CommandId>,
                             answers: seq<AgentMsg>, beats: seq<AgentMsg>, reading: map<nat, string>,
                             exits: seq<nat>, exited: Option<nat>)

  const INIT := Process(false, false, [], [], [], map[], [], None)

  function Step(p: Process, a: Action): Option<Process> {
    if p.exited.Some? then None else
    match a
    case Connected => if p.connected then None else Some(p.(connected := true))
    case Dropped => if p.connected then Some(p.(connected := false)) else None
    case Message(m, outcome, writes) =>
      if !p.connected then None
      else
        var h := Handle(p.frozen, m, outcome);
        Some(p.(frozen := h.frozen,
                connected := h.reply.Some? && writes,
                ran := p.ran + (if h.ran then [m.cmd] else []),
                exits := p.exits + (if h.exit.Some? && writes then [h.exit.value] else []),
                answers := p.answers + (if h.reply.Some? && writes then [h.reply.value] else [])))
    case BeatRead(g) => if g in p.reading then None else Some(p.(reading := p.reading[g := StatusOf(p.frozen)]))
    case BeatSend(g, writes) =>
      if g !in p.reading then None
      else Some(p.(reading := p.reading - {g},
                   beats := p.beats + if p.connected && writes then [Heartbeat(p.reading[g])] else []))
    case Exit(k) => if k >= |p.exits| then None else Some(p.(connected := false, exited := Some(p.exits[k])))
  }

  function Run(acts: seq<Action>): Option<Process> {
    Replay(INIT, Step, acts)
  }

  predicate IsControl(a: Action, control: string) {
    a.Message? && a.m.Control? && a.m.control == control
  }

  /** The mode a history of messages asks for: some freeze was not followed by an unfreeze. */
  ghost predicate FrozenAfter(acts: seq<Action>) {
    exists k :: 0 <= k < |acts| && IsControl(acts[k], "freeze")
                && forall j :: k < j < |acts| ==> !IsControl(acts[j], "unfreeze")
  }

  /** The commands that should have been run: the execs that met an unfrozen mode. */
  ghost function DueRuns(acts: seq<Action>): seq<CommandId> {
    if acts == [] then []
    else
      var (before, a) := (acts[..|acts| - 1], acts[|acts| - 1]);
      DueRuns(before) + if a.Message? && a.m.Exec? && !FrozenAfter(before) then [a.m.cmd] else []
  }

  /** The answers that should be on the wire: one for each request whose write succeeded. */
  ghost function DueAnswers(acts: seq<Action>): seq<AgentMsg> {
    if acts == [] then []
    else
      var (before, a) := (acts[..|acts| - 1], acts[|acts| - 1]);
      DueAnswers(before) +
      if a.Message? && a.m.IsRequest() && a.writes
      then [Handle(FrozenAfter(before), a.m, a.outcome).reply.value] else []
  }

  /** The exits that should be scheduled: one for each stop or restart whose reply was sent. */
  ghost function DueExits(acts: seq<Action>): seq<nat> {
    if acts == [] then []
    else
      var (before, a) := (acts[..|acts| - 1], acts[|acts| - 1]);
      DueExits(before) +
      if IsControl(a, "stop") && a.writes then [0] else if IsControl(a, "restart") && a.writes then [1] else []
  }

  /** Adding one event changes the mode only when it is a freeze or an unfreeze. */
  lemma FrozenAfterStep(before: seq<Action>, a: Action)
    ensures FrozenAfter(before + [a]) <==>
            (IsControl(a, "freeze") || (FrozenAfter(before) && !IsControl(a, "unfreeze")))
  {
    var acts := before + [a];
    if IsControl(a, "freeze") {
      assert IsControl(acts[|before|], "freeze");
    } else if FrozenAfter(before) && !IsControl(a, "unfreeze") {
      var k :| 0 <= k < |before| && IsControl(before[k], "freeze")
               && forall j :: k < j < |before| ==> !IsControl(before[j], "unfreeze");
      assert IsControl(acts[k], "freeze");
    } else {
      forall k | 0 <= k < |acts| && IsControl(acts[k], "freeze")
        ensures exists j :: k < j < |acts| && IsControl(acts[j], "unfreeze")
      {
        var j := if IsControl(a, "unfreeze") then |before|
                 else var j :| k < j < |before| && IsControl(before[j], "unfreeze"); j;
        assert IsControl(acts[j], "unfreeze");
      }
    }
  }

  /** What makes the agent give its connection up: losing it, a message that is no request, a
      reply that cannot be written, or the end of the process. */
  predicate Disconnects(a: Action) {
    a.Dropped? || a.Exit? || (a.Message? && !(a.m.IsRequest() && a.writes))
  }

  /** Some connection was made and not given up since. */
  ghost predicate ConnectedAfter(acts: seq<Action>) {
    exists k :: 0 <= k < |acts| && acts[k].Connected? && forall j :: k < j < |acts| ==> !Disconnects(acts[j])
  }

  lemma ConnectedAfterStep(before: seq<Action>, a: Action)
    ensures ConnectedAfter(before + [a]) <==> a.Connected? || (ConnectedAfter(before) && !Disconnects(a))
  {
    var acts := before + [a];
    if a.Connected? {
      assert acts[|before|].Connected?;
    } else if ConnectedAfter(before) && !Disconnects(a) {
      var k :| 0 <= k < |before| && before[k].Connected? && forall j :: k < j < |before| ==> !Disconnects(before[j]);
      assert acts[k].Connected?;
    } else {
      forall k | 0 <= k < |acts| && acts[k].Connected? ensures exists j :: k < j < |acts| && Disconnects(acts[j]) {
        var j := if Disconnects(a) then |before| else var j :| k < j < |before| && Disconnects(before[j]); j;
        assert Disconnects(acts[j]);
      }
    }
  }

  ghost predicate Follows(p: Process, acts: seq<Action>) {
    && p.frozen == FrozenAfter(acts) && p.ran == DueRuns(acts) && p.answers == DueAnswers(acts)
    && p.exits == DueExits(acts) && (p.exited.Some? ==> p.exited.value in DueExits(acts) && !p.connected)
    && p.connected == ConnectedAfter(acts)
  }

  /** What one more event adds to what is due. */
  lemma DueStep(before: seq<Action>, a: Action)
    ensures DueRuns(before + [a])
         == DueRuns(before) + if a.Message? && a.m.Exec? && !FrozenAfter(before) then [a.m.cmd] else []
    ensures DueAnswers(before + [a])
         == DueAnswers(before) + if a.Message? && a.m.IsRequest() && a.writes
                                 then [Handle(FrozenAfter(before), a.m, a.outcome).reply.value] else []
    ensures DueExits(before + [a])
         == DueExits(before) + if IsControl(a, "stop") && a.writes then [0]
                               else if IsControl(a, "restart") && a.writes then [1] else []
  {
    assert (before + [a])[..|before|] == before;
  }

  /** What one event does to the process. */
  lemma StepAdds(p: Process, a: Action)
    requires Step(p, a).Some?
    ensures var q := Step(p, a).value;
            && q.frozen == (IsControl(a, "freeze") || (p.frozen && !IsControl(a, "unfreeze")))
            && q.ran == p.ran + (if a.Message? && a.m.Exec? && !p.frozen then [a.m.cmd] else [])
            && q.answers == p.answers + (if a.Message? && a.m.IsRequest() && a.writes
                                         then [Handle(p.frozen, a.m, a.outcome).reply.value] else [])
            && q.exits == p.exits + (if IsControl(a, "stop") && a.writes then [0]
                                     else if IsControl(a, "restart") && a.writes then [1] else [])
            && (q.exited.Some? ==> q.exited.value in p.exits && !q.connected)
            && q.connected == (a.Connected? || (p.connected && !Disconnects(a)))
  {
    if a.Message? {
      OneReplyPerRequest(p.frozen, a.m, a.outcome);
    }
  }

  lemma StepFollows(p: Process, before: seq<Action>, a: Action)
    requires Follows(p, before) && Step(p, a).Some?
    ensures Follows(Step(p, a).value, before + [a])
  {
    FrozenAfterStep(before, a);
    ConnectedAfterStep(before, a);
    DueStep(before, a);
    StepAdds(p, a);
  }

  /** Over every history and any number of reconnections: the flag is the mode of
      the history, the connection is up exactly if one was made and not given up since,
      exactly the execs that met an unfrozen mode ran, the
      answers sent are exactly one per answered request, in order, and the process
      ends only as an answered stop or restart asks, with its code. */
  lemma {:induction false} AgentFollowsHistory(acts: seq<Action>)
    requires Run(acts).Some?
    ensures var p := Run(acts).value;
            && p.frozen == FrozenAfter(acts) && p.ran == DueRuns(acts) && p.answers == DueAnswers(acts)
            && p.exits == DueExits(acts) && (p.exited.Some? ==> p.exited.value in DueExits(acts) && !p.connected)
            && p.connected == ConnectedAfter(acts)
  {
    if acts != [] {
      var (before, a) := (acts[..|acts| - 1], acts[|acts| - 1]);
      AgentFollowsHistory(before);
      assert acts == before + [a];
      StepFollows(Run(before).value, before, a);
    }
  }

  /** An exec runs exactly when the latest freeze or unfreeze before it was not a freeze, and every
      answer says what its request, that mode and the outcome call for. */
  lemma ReplyReflectsHistory(before: seq<Action>, m: ServerMsg, outcome: Outcome)
    requires m.IsRequest() && Run(before).Some? && Run(before).value.connected
    ensures Run(before + [Message(m, outcome, true)]).Some?
    ensures var (p, q) := (Run(before).value, Run(before + [Message(m, outcome, true)]).value);
            && |q.answers| == |p.answers| + 1 && q.answers[..|p.answers|] == p.answers
            && ReplySays(m, FrozenAfter(before), outcome, q.answers[|p.answers|])
            && (m.Exec? ==> (q.ran == p.ran + [m.cmd] <==> !FrozenAfter(before))
                            && (FrozenAfter(before) ==> q.ran == p.ran))
            && (!m.Exec? ==> q.ran == p.ran)
  {
    var acts := before + [Message(m, outcome, true)];
    assert acts[..|acts| - 1] == before;
    AgentFollowsHistory(before);
    OneReplyPerRequest(FrozenAfter(before), m, outcome);
    var p := Run(before).value;
    var q := Run(acts).value;
    assert |p.ran + [m.cmd]| == |p.ran| + 1;
  }

  /** Goroutine g neither reads nor sends. */
  predicate Quiet(g: nat, acts: seq<Action>) {
    forall k :: 0 <= k < |acts| ==> acts[k] != BeatRead(g) && !(acts[k].BeatSend? && acts[k].g == g)
  }

  /** A status read by a heartbeat goroutine stays what it was until that goroutine sends it. */
  lemma {:induction false} BeatIsKept(g: nat, pre: seq<Action>, mid: seq<Action>)
    requires Quiet(g, mid) && Run(pre + [BeatRead(g)] + mid).Some?
    ensures Run(pre).Some?
    ensures var p := Run(pre + [BeatRead(g)] + mid).value;
            g in p.reading && p.reading[g] == if Run(pre).value.frozen then "frozen" else "online"
  {
    var acts := pre + [BeatRead(g)] + mid;
    if mid == [] {
      assert acts[..|acts| - 1] == pre;
    } else {
      assert acts[..|acts| - 1] == pre + [BeatRead(g)] + mid[..|mid| - 1];
      BeatIsKept(g, pre, mid[..|mid| - 1]);
      assert acts[|acts| - 1] == mid[|mid| - 1];
    }
  }

  /** A heartbeat carries the mode of the history at the moment its goroutine read the status,
      whatever happens in between, other heartbeats and reconnections included; it agrees with the
      mode at the moment it is sent exactly when those two modes agree. */
  lemma HeartbeatReportsModeWhenRead(g: nat, pre: seq<Action>, mid: seq<Action>)
    requires Quiet(g, mid) && Run(pre + [BeatRead(g)] + mid).Some?
    requires Run(pre + [BeatRead(g)] + mid).value.connected
    ensures Run(pre + [BeatRead(g)] + mid + [BeatSend(g, true)]).Some?
    ensures var beat := Heartbeat(if FrozenAfter(pre) then "frozen" else "online");
            && Run(pre + [BeatRead(g)] + mid + [BeatSend(g, true)]).value.beats
               == Run(pre + [BeatRead(g)] + mid).value.beats + [beat]
            && (beat == Heartbeat(if FrozenAfter(pre + [BeatRead(g)] + mid) then "frozen" else "online")
                <==> FrozenAfter(pre) == FrozenAfter(pre + [BeatRead(g)] + mid))
  {
    var acts := pre + [BeatRead(g)] + mid;
    BeatIsKept(g, pre, mid);
    AgentFollowsHistory(pre);
    AgentFollowsHistory(acts);
    ReplayOneMore(INIT, Step, acts, BeatSend(g, true));
    assert "frozen"[0] != "online"[0];
  }

  /** Without a connection, or when the write fails, no heartbeat goes out. */
  lemma NoBeatWithoutConnection(acts: seq<Action>, g: nat, writes: bool)
    requires Run(acts).Some? && Run(acts + [BeatSend(g, writes)]).Some? && !(ConnectedAfter(acts) && writes)
    ensures Run(acts + [BeatSend(g, writes)]).value.beats == Run(acts).value.beats
  {
    AgentFollowsHistory(acts);
    ReplayOneMore(INIT, Step, acts, BeatSend(g, writes));
  }

  /** The goroutines do race: a heartbeat can say "online" after the reply that said "frozen". */
  lemma HeartbeatCanBeStale()
    ensures var freeze := Message(Control("c", "freeze"), Outcome("", None), true);
            var acts := [Connected, BeatRead(0), freeze, BeatSend(0, true)];
            && Run(acts).Some? && Run(acts).value.frozen
            && Run(acts).value.beats == [Heartbeat("online")]
            && Run(acts).value.answers == [ExecResult("c", "agent frozen", "", "frozen")]
  {
    var freeze := Message(Control("c", "freeze"), Outcome("", None), true);
    ReplayOneMore(INIT, Step, [], Connected);
    assert [] + [Connected] == [Connected];
    ReplayOneMore(INIT, Step, [Connected], BeatRead(0));
    assert [Connected] + [BeatRead(0)] == [Connected, BeatRead(0)];
    ReplayOneMore(INIT, Step, [Connected, BeatRead(0)], freeze);
    assert [Connected, BeatRead(0)] + [freeze] == [Connected, BeatRead(0), freeze];
    ReplayOneMore(INIT, Step, [Connected, BeatRead(0), freeze], BeatSend(0, true));
    assert [Connected, BeatRead(0), freeze] + [BeatSend(0, true)]
        == [Connected, BeatRead(0), freeze, BeatSend(0, true)];
  }
}
