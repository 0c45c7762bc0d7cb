/** Running one command on many agents in parallel (cli/agent_groups.go,
    runExecMany): one goroutine per agent, a wait group and a buffered channel. */
module ExecFanout {
  import opened Wrappers
  import opened Machines
  import opened Text

  datatype ExecResult = ExecResult(agent: string, failed: bool)

  /** A worker executes, sends its result, then reports to the wait group. */
  datatype WorkerPc = Executing | Sending(failed: bool) | Reporting | Finished

  datatype Worker = Worker(agent: string, pc: WorkerPc)

  datatype MainPc = Spawning | Waiting | Closing | Draining | Returned

  datatype State = State(ids: seq<string>, workers: seq<Worker>, waiting: nat, channel: seq<ExecResult>, closed: bool,
                         panicked: bool, main: MainPc, drained: seq<ExecResult>, exitCode: int)

  datatype Action = Spawn | Execute(w: nat, fails: bool) | Send(w: nat) | Report(w: nat) | Wait | Close | Drain

  /** The ids are sorted in place first; with no id the command returns 1 at once. */
  function Init(agentIDs: seq<string>): State {
    var ids := SortBy(Self, agentIDs);
    State(ids, [], 0, [], false, false, if ids == [] then Returned else Spawning, [], if ids == [] then 1 else 0)
  }

  function SetWorker(s: State, w: nat, pc: WorkerPc): State
    requires w < |s.workers|
  {
    s.(workers := s.workers[w := s.workers[w].(pc := pc)])
  }

  /** The channel holds |ids| results: a send to a full one waits, to a closed one panics. */
  function Step(s: State, a: Action): Option<State> {
    match a
    case Spawn =>
      if !s.main.Spawning? then None
      else if |s.workers| < |s.ids| then
        Some(s.(waiting := s.waiting + 1, workers := s.workers + [Worker(s.ids[|s.workers|], Executing)]))
      else Some(s.(main := Waiting))
    case Execute(w, fails) =>
      if w >= |s.workers| || !s.workers[w].pc.Executing? then None else Some(SetWorker(s, w, Sending(fails)))
    case Send(w) =>
      if w >= |s.workers| || !s.workers[w].pc.Sending? then None
      else if s.closed then Some(s.(panicked := true))
      else if |s.channel| >= |s.ids| then None
      else
        var result := ExecResult(s.workers[w].agent, s.workers[w].pc.failed);
        Some(SetWorker(s, w, Reporting).(channel := s.channel + [result]))
    case Report(w) =>
      if w >= |s.workers| || !s.workers[w].pc.Reporting? then None
      else if s.waiting == 0 then Some(s.(panicked := true))
      else Some(SetWorker(s, w, Finished).(waiting := s.waiting - 1))
    case Wait => if s.main.Waiting? && s.waiting == 0 then Some(s.(main := Closing)) else None
    case Close =>
      if !s.main.Closing? then None
      else Some(s.(main := Draining, closed := true, panicked := s.panicked || s.closed))
    case Drain =>
      if !s.main.Draining? then None
      else if s.channel != [] then
        Some(s.(channel := s.channel[1..], drained := s.drained + [s.channel[0]],
                exitCode := if s.channel[0].failed then 1 else s.exitCode))
      else if s.closed then Some(s.(main := Returned))
      else None
  }

  function Run(agentIDs: seq<string>, acts: seq<Action>): Option<State> {
    Replay(Init(agentIDs), Step, acts)
  }

  // ---------------------------------------------------------------- counting

  function Agents(rs: seq<ExecResult>): multiset<string> {
    if rs == [] then multiset{} else Agents(rs[..|rs| - 1]) + multiset{rs[|rs| - 1].agent}
  }

  function Share(w: Worker): multiset<string> {
    if w.pc.Executing? || w.pc.Sending? then multiset{w.agent} else multiset{}
  }

  /** The agents whose result is still owed. */
  function Owed(ws: seq<Worker>): multiset<string> {
    if ws == [] then multiset{} else Owed(ws[..|ws| - 1]) + Share(ws[|ws| - 1])
  }

  function Load(w: Worker): nat {
    if w.pc.Finished? then 0 else 1
  }

  /** The workers that have not reported. */
  function Active(ws: seq<Worker>): nat {
    if ws == [] then 0 else Active(ws[..|ws| - 1]) + Load(ws[|ws| - 1])
  }

  lemma Shuffle(a: multiset<string>, b: multiset<string>, p: multiset<string>, q: multiset<string>, r: multiset<string>)
    requires a + p == b + q
    ensures (a + r) + p == (b + r) + q
  {
    assert (a + r) + p == (a + p) + r && (b + r) + q == (b + q) + r;
  }

  lemma Swap(a: multiset<string>, p: multiset<string>, q: multiset<string>)
    ensures (a + p) + q == (a + q) + p
  {
  }

  lemma Cancel(a: multiset<string>, b: multiset<string>, p: multiset<string>)
    requires a + p == b + p
    ensures a == b
  {
    assert a == (a + p) - p && b == (b + p) - p;
  }

  lemma {:induction false} OwedChange(ws: seq<Worker>, j: nat, w: Worker)
    requires j < |ws|
    ensures Owed(ws[j := w]) + Share(ws[j]) == Owed(ws) + Share(w)
  {
    var n := |ws| - 1;
    var us := ws[j := w];
    var (front, last) := (Owed(ws[..n]), Share(ws[n]));
    assert Owed(ws) == front + last;
    if j == n {
      assert us[..n] == ws[..n] && us[n] == w;
      Swap(front, Share(w), last);
    } else {
      assert us[..n] == ws[..n][j := w] && us[n] == ws[n];
      OwedChange(ws[..n], j, w);
      var front' := Owed(us[..n]);
      assert Owed(us) == front' + last;
      Shuffle(front', front, Share(ws[j]), Share(w), last);
    }
  }

  lemma {:induction false} ActiveChange(ws: seq<Worker>, j: nat, w: Worker)
    requires j < |ws|
    ensures Active(ws[j := w]) + Load(ws[j]) == Active(ws) + Load(w)
  {
    var n := |ws| - 1;
    if j == n {
      assert ws[j := w][..n] == ws[..n];
    } else {
      assert ws[j := w][..n] == ws[..n][j := w];
      ActiveChange(ws[..n], j, w);
    }
  }

  lemma ChangeOne(ws: seq<Worker>, j: nat, w: Worker)
    requires j < |ws|
    ensures Owed(ws[j := w]) + Share(ws[j]) == Owed(ws) + Share(w)
    ensures Active(ws[j := w]) + Load(ws[j]) == Active(ws) + Load(w)
  {
    OwedChange(ws, j, w);
    ActiveChange(ws, j, w);
  }

  lemma {:induction false} ActiveCovers(ws: seq<Worker>, j: nat)
    requires j < |ws|
    ensures Active(ws) >= Load(ws[j])
    ensures Active(ws) == 0 ==> Owed(ws) == multiset{}
  {
    if j < |ws| - 1 {
      ActiveCovers(ws[..|ws| - 1], j);
    } else if |ws| > 1 {
      ActiveCovers(ws[..|ws| - 1], 0);
    }
  }

  lemma {:induction false} AgentsMove(x: ExecResult, rs: seq<ExecResult>)
    ensures Agents([x] + rs) == multiset{x.agent} + Agents(rs)
  {
    if rs == [] {
      assert [x] + rs == [x] && [x][..0] == [];
    } else {
      assert ([x] + rs)[..|rs|] == [x] + rs[..|rs| - 1];
      AgentsMove(x, rs[..|rs| - 1]);
    }
  }

  lemma {:induction false} AgentsSize(rs: seq<ExecResult>)
    ensures |Agents(rs)| == |rs|
  {
    if rs != [] {
      AgentsSize(rs[..|rs| - 1]);
    }
  }

  // ---------------------------------------------------------------- the invariant

  ghost predicate Inv(s: State) {
    && !s.panicked && |s.workers| <= |s.ids|
    && s.waiting == Active(s.workers)
    && Agents(s.drained) + Agents(s.channel) + Owed(s.workers) + multiset(s.ids[|s.workers|..]) == multiset(s.ids)
    && (s.main.Spawning? || |s.workers| == |s.ids|)
    && (s.main.Spawning? || s.main.Waiting? || s.waiting == 0)
    && (s.closed <==> s.main.Draining? || (s.main.Returned? && s.ids != []))
    && (s.drained != [] ==> s.closed)
    && (s.main.Returned? ==> s.channel == [])
    && (s.exitCode == 1 <==> s.ids == [] || Failed(s.drained))
    && (s.exitCode == 0 || s.exitCode == 1) && (s.ids == [] <==> s.main.Returned? && !s.closed)
  }

  ghost predicate InvFor(ids: seq<string>, s: State) {
    Inv(s) && s.ids == ids
  }

  ghost predicate Failed(rs: seq<ExecResult>) {
    exists k :: 0 <= k < |rs| && rs[k].failed
  }

  lemma FailedAppend(rs: seq<ExecResult>, x: ExecResult)
    ensures Failed(rs + [x]) <==> Failed(rs) || x.failed
  {
    if Failed(rs) {
      var k :| 0 <= k < |rs| && rs[k].failed;
      assert (rs + [x])[k].failed;
    }
    if x.failed {
      assert (rs + [x])[|rs|].failed;
    }
  }

  /** A worker that has not reported keeps the wait group up. */
  lemma BusyWorker(s: State, w: nat)
    requires Inv(s) && w < |s.workers| && !s.workers[w].pc.Finished?
    ensures s.waiting > 0 && !s.closed && (s.main.Spawning? || s.main.Waiting?)
  {
    ActiveCovers(s.workers, w);
  }

  /** The channel has room for every owed result. */
  lemma RoomToSend(s: State, w: nat)
    requires Inv(s) && w < |s.workers| && s.workers[w].pc.Sending?
    ensures |s.channel| < |s.ids|
  {
    AgentsSize(s.channel);
    AgentsSize(s.drained);
    ChangeOne(s.workers, w, s.workers[w].(pc := Reporting));
    assert |Owed(s.workers)| >= 1;
    assert |multiset(s.ids)| == |s.ids|;
    assert |Agents(s.drained) + Agents(s.channel) + Owed(s.workers) + multiset(s.ids[|s.workers|..])|
        == |Agents(s.drained)| + |Agents(s.channel)| + |Owed(s.workers)| + |multiset(s.ids[|s.workers|..])|;
  }

  lemma NextId(ids: seq<string>, k: nat)
    requires k < |ids|
    ensures multiset(ids[k..]) == multiset{ids[k]} + multiset(ids[k + 1..])
  {
    assert ids[k..] == [ids[k]] + ids[k + 1..];
  }

  lemma SpawnKeepsInv(s: State)
    requires Inv(s) && Step(s, Spawn).Some?
    ensures InvFor(s.ids, Step(s, Spawn).value)
  {
    var t := Step(s, Spawn).value;
    if |s.workers| < |s.ids| {
      NextId(s.ids, |s.workers|);
      assert t.workers[..|s.workers|] == s.workers;
    }
  }

  lemma SendKeepsInv(s: State, w: nat)
    requires Inv(s) && Step(s, Send(w)).Some?
    ensures InvFor(s.ids, Step(s, Send(w)).value)
  {
    var t := Step(s, Send(w)).value;
    BusyWorker(s, w);
    ChangeOne(s.workers, w, t.workers[w]);
    assert t.channel[..|s.channel|] == s.channel;
    var rest := multiset(s.ids[|s.workers|..]);
    assert Agents(t.channel) == Agents(s.channel) + multiset{s.workers[w].agent};
    assert Owed(t.workers) + multiset{s.workers[w].agent} == Owed(s.workers);
  }

  lemma ExecuteKeepsInv(s: State, w: nat, fails: bool)
    requires Inv(s) && Step(s, Execute(w, fails)).Some?
    ensures InvFor(s.ids, Step(s, Execute(w, fails)).value)
  {
    var t := Step(s, Execute(w, fails)).value;
    ChangeOne(s.workers, w, t.workers[w]);
    Cancel(Owed(t.workers), Owed(s.workers), Share(s.workers[w]));
  }

  lemma ReportKeepsInv(s: State, w: nat)
    requires Inv(s) && Step(s, Report(w)).Some?
    ensures InvFor(s.ids, Step(s, Report(w)).value)
  {
    var t := Step(s, Report(w)).value;
    BusyWorker(s, w);
    ChangeOne(s.workers, w, t.workers[w]);
    Cancel(Owed(t.workers), Owed(s.workers), Share(s.workers[w]));
  }

  lemma MainKeepsInv(s: State, a: Action)
    requires Inv(s) && Step(s, a).Some? && (a.Wait? || a.Close?)
    ensures InvFor(s.ids, Step(s, a).value)
  {
  }

  lemma DrainMoves(s: State)
    requires s.channel != []
    ensures Agents(s.drained + [s.channel[0]]) + Agents(s.channel[1..]) == Agents(s.drained) + Agents(s.channel)
  {
    var x := s.channel[0];
    assert s.channel == [x] + s.channel[1..];
    AgentsMove(x, s.channel[1..]);
    assert (s.drained + [x])[..|s.drained|] == s.drained;
  }

  lemma DrainKeepsInv(s: State)
    requires Inv(s) && Step(s, Drain).Some?
    ensures InvFor(s.ids, Step(s, Drain).value)
  {
    if s.channel != [] {
      DrainMoves(s);
      FailedAppend(s.drained, s.channel[0]);
    }
  }

  lemma StepKeepsInv(s: State, a: Action)
    requires Inv(s) && Step(s, a).Some?
    ensures InvFor(s.ids, Step(s, a).value)
  {
    match a
    case Spawn => SpawnKeepsInv(s);
    case Execute(w, fails) => ExecuteKeepsInv(s, w, fails);
    case Send(w) => SendKeepsInv(s, w);
    case Report(w) => ReportKeepsInv(s, w);
    case Wait => MainKeepsInv(s, a);
    case Close => MainKeepsInv(s, a);
    case Drain => DrainKeepsInv(s);
  }

  lemma InitHasInv(agentIDs: seq<string>)
    ensures InvFor(SortBy(Self, agentIDs), Init(agentIDs))
  {
    var init := Init(agentIDs);
    assert init.ids[0..] == init.ids;
    assert Owed([]) == multiset{} && Active([]) == 0 && Agents([]) == multiset{};
  }

  lemma InvAfter(agentIDs: seq<string>, acts: seq<Action>)
    requires Run(agentIDs, acts).Some?
    ensures InvFor(SortBy(Self, agentIDs), Run(agentIDs, acts).value)
  {
    var ids := SortBy(Self, agentIDs);
    InitHasInv(agentIDs);
    forall s, a | InvFor(ids, s) && Step(s, a).Some? ensures InvFor(ids, Step(s, a).value) {
      StepKeepsInv(s, a);
    }
    InvariantHolds(Init(agentIDs), Step, s => InvFor(ids, s), acts);
  }

  // ---------------------------------------------------------------- the results

  /** In every schedule: nothing is sent or closed after the close, and no worker ever waits to send. */
  lemma WorkersNeverBlock(agentIDs: seq<string>, acts: seq<Action>)
    requires Run(agentIDs, acts).Some?
    ensures var s := Run(agentIDs, acts).value;
            && !s.panicked
            && forall w :: 0 <= w < |s.workers| && s.workers[w].pc.Sending? ==>
                 !s.closed && Step(s, Send(w)).Some?
  {
    InvAfter(agentIDs, acts);
    var s := Run(agentIDs, acts).value;
    forall w | 0 <= w < |s.workers| && s.workers[w].pc.Sending? ensures !s.closed && Step(s, Send(w)).Some? {
      BusyWorker(s, w);
      RoomToSend(s, w);
    }
  }

  lemma {:induction false} SomeActive(ws: seq<Worker>) returns (w: nat)
    requires Active(ws) > 0
    ensures w < |ws| && !ws[w].pc.Finished?
  {
    if ws[|ws| - 1].pc.Finished? {
      w := SomeActive(ws[..|ws| - 1]);
    } else {
      w := |ws| - 1;
    }
  }

  lemma WorkerCanStep(s: State) returns (a: Action)
    requires Inv(s) && s.waiting > 0
    ensures Step(s, a).Some?
  {
    var w := SomeActive(s.workers);
    match s.workers[w].pc
    case Executing => a := Execute(w, false);
    case Sending(_) => RoomToSend(s, w); a := Send(w);
    case Reporting => a := Report(w);
  }

  lemma SomebodyCanStep(s: State) returns (a: Action)
    requires Inv(s) && !s.main.Returned?
    ensures Step(s, a).Some?
  {
    match s.main
    case Spawning => a := Spawn;
    case Waiting => if s.waiting == 0 { a := Wait; } else { a := WorkerCanStep(s); }
    case Closing => a := Close;
    case Draining => a := Drain;
  }

  /** No schedule gets stuck: until the command has returned, some step is enabled. */
  lemma NeverDeadlocks(agentIDs: seq<string>, acts: seq<Action>)
    requires Run(agentIDs, acts).Some? && !Run(agentIDs, acts).value.main.Returned?
    ensures exists a :: Step(Run(agentIDs, acts).value, a).Some?
  {
    InvAfter(agentIDs, acts);
    var a := SomebodyCanStep(Run(agentIDs, acts).value);
  }

  /** Steps left for one worker. */
  function Ahead(w: Worker): nat {
    match w.pc case Executing => 4 case Sending(_) => 3 case Reporting => 1 case Finished => 0
  }

  function AllAhead(ws: seq<Worker>): nat {
    if ws == [] then 0 else AllAhead(ws[..|ws| - 1]) + Ahead(ws[|ws| - 1])
  }

  lemma {:induction false} AheadOne(ws: seq<Worker>, j: nat, w: Worker)
    requires j < |ws|
    ensures AllAhead(ws[j := w]) + Ahead(ws[j]) == AllAhead(ws) + Ahead(w)
  {
    var n := |ws| - 1;
    if j == n {
      assert ws[j := w][..n] == ws[..n];
    } else {
      assert ws[j := w][..n] == ws[..n][j := w];
      AheadOne(ws[..n], j, w);
    }
  }

  /** A bound on the steps still possible. */
  function Remaining(s: State): int {
    5 * (|s.ids| - |s.workers|) + AllAhead(s.workers) + |s.channel|
    + (match s.main case Spawning => 4 case Waiting => 3 case Closing => 2 case Draining => 1 case Returned => 0)
  }

  lemma WorkerRunsOut(s: State, w: nat, a: Action)
    requires Inv(s) && Step(s, a).Some? && (a == Report(w) || a == Send(w) || (a.Execute? && a.w == w))
    ensures Remaining(Step(s, a).value) < Remaining(s)
  {
    var t := Step(s, a).value;
    BusyWorker(s, w);
    AheadOne(s.workers, w, t.workers[w]);
  }

  lemma SpawnRunsOut(s: State)
    requires Inv(s) && Step(s, Spawn).Some?
    ensures Remaining(Step(s, Spawn).value) < Remaining(s)
  {
    if |s.workers| < |s.ids| {
      var ws := Step(s, Spawn).value.workers;
      assert ws[..|s.workers|] == s.workers && Ahead(ws[|s.workers|]) == 4;
      assert AllAhead(ws) == AllAhead(s.workers) + 4;
    }
  }

  lemma DrainRunsOut(s: State)
    requires Step(s, Drain).Some?
    ensures Remaining(Step(s, Drain).value) < Remaining(s)
  {
  }

  lemma MainRunsOut(s: State, a: Action)
    requires Step(s, a).Some? && (a.Wait? || a.Close?)
    ensures Remaining(Step(s, a).value) < Remaining(s)
  {
  }

  lemma StepsRunOut(s: State, a: Action)
    requires Inv(s) && Step(s, a).Some?
    ensures Remaining(Step(s, a).value) < Remaining(s)
  {
    match a
    case Spawn => SpawnRunsOut(s);
    case Execute(w, fails) => WorkerRunsOut(s, w, a);
    case Send(w) => WorkerRunsOut(s, w, a);
    case Report(w) => WorkerRunsOut(s, w, a);
    case Drain => DrainRunsOut(s);
    case _ => MainRunsOut(s, a);
  }

  lemma RemainingIsNat(s: State)
    requires Inv(s)
    ensures Remaining(s) >= 0
  {
  }

  lemma SortKeepsLength(agentIDs: seq<string>)
    ensures |SortBy(Self, agentIDs)| == |agentIDs|
  {
    SortBySorts(Self, agentIDs);
    assert |multiset(SortBy(Self, agentIDs))| == |multiset(agentIDs)|;
  }

  /** Every schedule ends: it has at most 5 n + 4 steps for n agents. */
  lemma {:induction false} SchedulesAreBounded(agentIDs: seq<string>, acts: seq<Action>)
    requires Run(agentIDs, acts).Some?
    ensures |acts| + Remaining(Run(agentIDs, acts).value) <= 5 * |agentIDs| + 4
    ensures Remaining(Run(agentIDs, acts).value) >= 0
  {
    if acts == [] {
      SortKeepsLength(agentIDs);
    } else {
      var before := acts[..|acts| - 1];
      SchedulesAreBounded(agentIDs, before);
      InvAfter(agentIDs, before);
      StepsRunOut(Run(agentIDs, before).value, acts[|acts| - 1]);
    }
    InvAfter(agentIDs, acts);
    RemainingIsNat(Run(agentIDs, acts).value);
  }

  // ---------------------------------------------------------------- what the executions did

  /** How often a result is held by a worker that has not sent it. */
  function HeldCount(ws: seq<Worker>, x: ExecResult): nat {
    if ws == [] then 0 else HeldCount(ws[..|ws| - 1], x) + HeldBy(ws[|ws| - 1], x)
  }

  function HeldBy(w: Worker, x: ExecResult): nat {
    if w == Worker(x.agent, Sending(x.failed)) then 1 else 0
  }

  /** How often the schedule's executions gave a result: worker w runs the command on the w-th of
      the sorted ids. */
  function Given(ids: seq<string>, acts: seq<Action>, x: ExecResult): nat {
    if acts == [] then 0
    else
      var (before, a) := (acts[..|acts| - 1], acts[|acts| - 1]);
      Given(ids, before, x) + if a.Execute? && a.w < |ids| && x == ExecResult(ids[a.w], a.fails) then 1 else 0
  }

  lemma {:induction false} HeldChange(ws: seq<Worker>, j: nat, w: Worker, x: ExecResult)
    requires j < |ws|
    ensures HeldCount(ws[j := w], x) + HeldBy(ws[j], x) == HeldCount(ws, x) + HeldBy(w, x)
  {
    var n := |ws| - 1;
    if j == n {
      assert ws[j := w][..n] == ws[..n];
    } else {
      assert ws[j := w][..n] == ws[..n][j := w];
      HeldChange(ws[..n], j, w, x);
    }
  }

  /** Every result given is drained, in the channel or held, and worker w works for the w-th id. */
  ghost predicate Accounted(s: State, acts: seq<Action>, x: ExecResult) {
    && |s.workers| <= |s.ids| && (forall w :: 0 <= w < |s.workers| ==> s.workers[w].agent == s.ids[w])
    && multiset(s.drained)[x] + multiset(s.channel)[x] + HeldCount(s.workers, x) == Given(s.ids, acts, x)
  }

  lemma SendAccounts(s: State, acts: seq<Action>, w: nat, x: ExecResult)
    requires Accounted(s, acts, x) && Step(s, Send(w)).Some?
    ensures Accounted(Step(s, Send(w)).value, acts + [Send(w)], x)
  {
    var t := Step(s, Send(w)).value;
    assert (acts + [Send(w)])[..|acts|] == acts;
    if !s.closed {
      HeldChange(s.workers, w, t.workers[w], x);
    }
  }

  lemma WorkerAccounts(s: State, acts: seq<Action>, a: Action, x: ExecResult)
    requires Accounted(s, acts, x) && Step(s, a).Some? && (a.Execute? || a.Report?)
    ensures Accounted(Step(s, a).value, acts + [a], x)
  {
    var t := Step(s, a).value;
    assert (acts + [a])[..|acts|] == acts;
    HeldChange(s.workers, a.w, t.workers[a.w], x);
    assert t.workers == s.workers[a.w := t.workers[a.w]];
  }

  lemma SpawnAccounts(s: State, acts: seq<Action>, x: ExecResult)
    requires Accounted(s, acts, x) && Step(s, Spawn).Some?
    ensures Accounted(Step(s, Spawn).value, acts + [Spawn], x)
  {
    var t := Step(s, Spawn).value;
    assert (acts + [Spawn])[..|acts|] == acts;
    if |s.workers| < |s.ids| {
      assert t.workers[..|s.workers|] == s.workers;
    }
  }

  lemma DrainAccounts(s: State, acts: seq<Action>, x: ExecResult)
    requires Accounted(s, acts, x) && Step(s, Drain).Some?
    ensures Accounted(Step(s, Drain).value, acts + [Drain], x)
  {
    assert (acts + [Drain])[..|acts|] == acts;
    if s.channel != [] {
      assert s.channel == [s.channel[0]] + s.channel[1..];
    }
  }

  lemma MainAccounts(s: State, acts: seq<Action>, a: Action, x: ExecResult)
    requires Accounted(s, acts, x) && Step(s, a).Some? && (a.Wait? || a.Close?)
    ensures Accounted(Step(s, a).value, acts + [a], x)
  {
    assert (acts + [a])[..|acts|] == acts;
  }

  lemma {:induction false} AccountedAfter(agentIDs: seq<string>, acts: seq<Action>, x: ExecResult)
    requires Run(agentIDs, acts).Some?
    ensures Accounted(Run(agentIDs, acts).value, acts, x)
  {
    if acts != [] {
      var (before, a) := (acts[..|acts| - 1], acts[|acts| - 1]);
      AccountedAfter(agentIDs, before, x);
      assert acts == before + [a];
      var s := Run(agentIDs, before).value;
      match a
      case Spawn => SpawnAccounts(s, before, x);
      case Drain => DrainAccounts(s, before, x);
      case Send(w) => SendAccounts(s, before, w, x);
      case Wait => MainAccounts(s, before, a, x);
      case Close => MainAccounts(s, before, a, x);
      case _ => WorkerAccounts(s, before, a, x);
    }
  }

  lemma {:induction false} NothingHeld(ws: seq<Worker>, x: ExecResult)
    requires Active(ws) == 0
    ensures HeldCount(ws, x) == 0
  {
    if ws != [] {
      NothingHeld(ws[..|ws| - 1], x);
    }
  }

  /** A result was given exactly if some execution gave it. */
  lemma {:induction false} GivenByExecution(ids: seq<string>, acts: seq<Action>, x: ExecResult)
    ensures Given(ids, acts, x) > 0 <==>
            exists k :: 0 <= k < |acts| && acts[k].Execute? && acts[k].w < |ids|
                        && x == ExecResult(ids[acts[k].w], acts[k].fails)
  {
    if acts != [] {
      var (before, n) := (acts[..|acts| - 1], |acts| - 1);
      GivenByExecution(ids, before, x);
      assert forall k :: 0 <= k < n ==> acts[k] == before[k];
      if Given(ids, before, x) > 0 {
        var k :| 0 <= k < |before| && before[k].Execute? && before[k].w < |ids|
                 && x == ExecResult(ids[before[k].w], before[k].fails);
        assert acts[k] == before[k];
      }
    }
  }

  lemma ExecuteIsWorker(s: State, a: Action)
    requires Inv(s) && a.Execute? && Step(s, a).Some?
    ensures a.w < |s.ids|
  {
  }

  /** Only workers that were started execute. */
  lemma {:induction false} ExecutionsAreWorkers(agentIDs: seq<string>, acts: seq<Action>)
    requires Run(agentIDs, acts).Some?
    ensures forall k :: 0 <= k < |acts| && acts[k].Execute? ==> acts[k].w < |SortBy(Self, agentIDs)|
  {
    if acts != [] {
      var before := acts[..|acts| - 1];
      ExecutionsAreWorkers(agentIDs, before);
      InvAfter(agentIDs, before);
      if acts[|acts| - 1].Execute? { ExecuteIsWorker(Run(agentIDs, before).value, acts[|acts| - 1]); }
      assert forall k :: 0 <= k < |before| ==> acts[k] == before[k];
    }
  }

  /** When the command returns, every result has been drained as often as the executions of the
      schedule gave it, agent by agent, failures included. */
  lemma ResultsAreTheExecutions(agentIDs: seq<string>, acts: seq<Action>, x: ExecResult)
    requires Run(agentIDs, acts).Some? && Run(agentIDs, acts).value.main.Returned?
    ensures multiset(Run(agentIDs, acts).value.drained)[x] == Given(SortBy(Self, agentIDs), acts, x)
  {
    InvAfter(agentIDs, acts);
    AccountedAfter(agentIDs, acts, x);
    NothingHeld(Run(agentIDs, acts).value.workers, x);
  }

  /** So the exit code is 1 exactly when no agent was given or some execution failed. */
  lemma ExitCodeTellsFailure(agentIDs: seq<string>, acts: seq<Action>)
    requires Run(agentIDs, acts).Some? && Run(agentIDs, acts).value.main.Returned?
    ensures var exitCode := Run(agentIDs, acts).value.exitCode;
            && (exitCode == 1 <==> agentIDs == [] || exists k :: 0 <= k < |acts| && acts[k].Execute? && acts[k].fails)
            && (exitCode == 0 || exitCode == 1)
  {
    var (s, ids) := (Run(agentIDs, acts).value, SortBy(Self, agentIDs));
    InvAfter(agentIDs, acts);
    SortKeepsLength(agentIDs);
    ExecutionsAreWorkers(agentIDs, acts);
    if k :| 0 <= k < |acts| && acts[k].Execute? && acts[k].fails {
      var x := ExecResult(ids[acts[k].w], true);
      ResultsAreTheExecutions(agentIDs, acts, x);
      GivenByExecution(ids, acts, x);
      assert x in s.drained;
    }
    if Failed(s.drained) {
      var k :| 0 <= k < |s.drained| && s.drained[k].failed;
      assert s.drained[k] in multiset(s.drained);
      ResultsAreTheExecutions(agentIDs, acts, s.drained[k]);
      GivenByExecution(ids, acts, s.drained[k]);
    }
  }

  /** When the command returns, it has drained one result per requested agent id, duplicates
      kept, and its exit code is 1 exactly when some result failed or no agent was given. */
  lemma OneResultPerAgent(agentIDs: seq<string>, acts: seq<Action>)
    requires Run(agentIDs, acts).Some? && Run(agentIDs, acts).value.main.Returned?
    ensures var s := Run(agentIDs, acts).value;
            && Agents(s.drained) == multiset(agentIDs)
            && (s.exitCode == 1 <==> agentIDs == [] || Failed(s.drained))
            && (s.exitCode == 0 || s.exitCode == 1)
            && SortedBy(Self, s.ids)
  {
    InvAfter(agentIDs, acts);
    SortBySorts(Self, agentIDs);
    var s := Run(agentIDs, acts).value;
    if s.workers != [] {
      ActiveCovers(s.workers, 0);
    }
    assert s.ids[|s.workers|..] == [];
    SortKeepsLength(agentIDs);
  }
}
