/** The server's lock file (server/lock.go), with every file operation a separate
    step, any number of processes, and crashes anywhere. */
module ProcessLock {
  import opened Wrappers
  import opened Machines

  /** The file at the lock path.  `id` tells one creation from another; `parsed` is what
      its text parses to as a number, if anything. */
  datatype LockFile = LockFile(id: nat, parsed: Option<nat>)

  datatype Pc =
    | Starting                        // about to create the file exclusively
    | Exists                          // creation found a file: about to read it
    | Judging(parsed: Option<nat>)    // read: about to decide whether it is stale
    | Removing                        // stale: about to remove it and try again
    | Created                         // created, process id not written
    | Holding
    | WriteFailed                     // writing failed, file still open
    | FailedClosed                    // closed, about to remove
    | Releasing                       // Release: closed, about to remove
    | Ended

  datatype Proc = Proc(pid: nat, alive: bool, pc: Pc, handle: Option<nat>)

  datatype State = State(file: Option<LockFile>, nextId: nat, procs: seq<Proc>)

  datatype Event =
    | TryCreate
    | PartialWrite(parsed: Option<nat>)      // what is visible while the id is being written
    | WritePid(ok: bool)
    | CloseFailed
    | Read
    | Judge(running: bool)
    | Remove(refused: bool)                  // any removal may also fail for other reasons
    | ReleaseClose
    | GiveUp                                 // any other file error before the file is created
    | Crash

  datatype Action = Spawn(pid: nat) | Do(p: nat, event: Event)

  predicate OpenByLive(s: State, id: nat) {
    exists p :: 0 <= p < |s.procs| && s.procs[p].alive && s.procs[p].handle == Some(id)
  }

  predicate LivePid(s: State, pid: nat) {
    exists p :: 0 <= p < |s.procs| && s.procs[p].alive && s.procs[p].pid == pid
  }

  /** os.Remove; with the `sharing` rule of the operating system a file that a live
      process has open stays. */
  function RemoveFile(s: State, sharing: bool, refused: bool): (Option<LockFile>, bool) {
    if s.file.None? then (None, true)
    else if refused || (sharing && OpenByLive(s, s.file.value.id)) then (s.file, false)
    else (None, true)
  }

  function Set(s: State, p: nat, proc: Proc): State
    requires p < |s.procs|
  {
    s.(procs := s.procs[p := proc])
  }

  function WithText(s: State, id: nat, parsed: Option<nat>): State {
    if s.file.Some? && s.file.value.id == id then s.(file := Some(LockFile(id, parsed))) else s
  }

  function DoEvent(sharing: bool, s: State, p: nat, e: Event): Option<State>
    requires p < |s.procs|
  {
    var x := s.procs[p];
    if !x.alive then None
    else
      match e
      case TryCreate =>
        if !x.pc.Starting? then None
        else if s.file.Some? then Some(Set(s, p, x.(pc := Exists)))
        else Some(Set(s, p, x.(pc := Created, handle := Some(s.nextId)))
                  .(file := Some(LockFile(s.nextId, None)), nextId := s.nextId + 1))
      case PartialWrite(parsed) =>
        if !x.pc.Created? || x.handle.None? then None else Some(WithText(s, x.handle.value, parsed))
      case WritePid(ok) =>
        if !x.pc.Created? || x.handle.None? then None
        else if ok then Some(Set(WithText(s, x.handle.value, Some(x.pid)), p, x.(pc := Holding)))
        else Some(Set(s, p, x.(pc := WriteFailed)))
      case CloseFailed =>
        if !x.pc.WriteFailed? then None else Some(Set(s, p, x.(pc := FailedClosed, handle := None)))
      case Read =>
        if !x.pc.Exists? then None
        else if s.file.None? then Some(Set(s, p, x.(pc := Ended)))
        else Some(Set(s, p, x.(pc := Judging(s.file.value.parsed))))
      case Judge(running) =>
        if !x.pc.Judging? then None
        else if x.pc.parsed.None? then Some(Set(s, p, x.(pc := Removing)))
        else if running then Some(Set(s, p, x.(pc := Ended)))
        else if LivePid(s, x.pc.parsed.value) then None
        else Some(Set(s, p, x.(pc := Removing)))
      case Remove(refused) =>
        if !(x.pc.Removing? || x.pc.FailedClosed? || x.pc.Releasing?) then None
        else
          var (file, gone) := RemoveFile(s, sharing, refused);
          Some(Set(s, p, x.(pc := if x.pc.Removing? && gone then Starting else Ended)).(file := file))
      case ReleaseClose =>
        if !x.pc.Holding? then None else Some(Set(s, p, x.(pc := Releasing, handle := None)))
      case GiveUp =>
        if x.handle.Some? then None else Some(Set(s, p, x.(pc := Ended)))
      case Crash => Some(Set(s, p, x.(alive := false, pc := Ended, handle := None)))
  }

  /** Live processes have distinct ids. */
  function Step(sharing: bool, s: State, a: Action): Option<State> {
    match a
    case Spawn(pid) =>
      if LivePid(s, pid) then None
      else Some(s.(procs := s.procs + [Proc(pid, true, Starting, None)]))
    case Do(p, e) => if p < |s.procs| then DoEvent(sharing, s, p, e) else None
  }

  /** There may be a file left over from an earlier time, with any text. */
  function Init(leftover: Option<Option<nat>>): State {
    State(if leftover.Some? then Some(LockFile(0, leftover.value)) else None, 1, [])
  }

  function Run(sharing: bool, leftover: Option<Option<nat>>, acts: seq<Action>): Option<State> {
    Replay(Init(leftover), (s, a) => Step(sharing, s, a), acts)
  }

  predicate HasLock(s: State, p: nat) {
    p < |s.procs| && s.procs[p].alive && s.procs[p].pc.Holding?
  }

  ghost predicate Exclusive(s: State) {
    forall p: nat, q: nat :: HasLock(s, p) && HasLock(s, q) ==> p == q
  }

  ghost predicate ProcOk(s: State, p: nat)
    requires p < |s.procs|
  {
    var x := s.procs[p];
    && (!x.alive ==> x.pc.Ended?)
    && (x.handle.Some? <==> x.alive && (x.pc.Created? || x.pc.Holding? || x.pc.WriteFailed?))
    && (x.handle.Some? ==> s.file.Some? && s.file.value.id == x.handle.value)
    && (x.pc.Holding? ==> s.file.Some? && s.file.value.parsed == Some(x.pid))
  }

  /** An open handle always belongs to the file at the path, so there is at most one. */
  ghost predicate Inv(s: State) {
    && (forall p :: 0 <= p < |s.procs| ==> ProcOk(s, p))
    && (forall p, q :: 0 <= p < |s.procs| && 0 <= q < |s.procs| && s.procs[p].handle.Some? && s.procs[q].handle.Some?
          ==> p == q)
  }

  lemma EventKeepsInv(s: State, p: nat, e: Event)
    requires Inv(s) && p < |s.procs| && DoEvent(true, s, p, e).Some?
    ensures Inv(DoEvent(true, s, p, e).value)
  {
    var t := DoEvent(true, s, p, e).value;
    assert ProcOk(s, p);
    forall q | 0 <= q < |t.procs| ensures ProcOk(t, q) {
      assert ProcOk(s, q);
      if s.procs[q].handle.Some? { assert OpenByLive(s, s.file.value.id); }
    }
    if e.TryCreate? && s.file.None? {
      forall q | 0 <= q < |s.procs| ensures s.procs[q].handle.None? { assert ProcOk(s, q); }
    }
  }

  lemma InvAfter(leftover: Option<Option<nat>>, acts: seq<Action>)
    requires Run(true, leftover, acts).Some?
    ensures Inv(Run(true, leftover, acts).value)
  {
    var step := (s: State, a: Action) => Step(true, s, a);
    forall s, a | Inv(s) && step(s, a).Some? ensures Inv(step(s, a).value) {
      match a
      case Spawn(pid) =>
        var t := step(s, a).value;
        forall q | 0 <= q < |t.procs| ensures ProcOk(t, q) {
          if q < |s.procs| { assert ProcOk(s, q); }
        }
      case Do(p, e) => EventKeepsInv(s, p, e);
    }
    InvariantHolds(Init(leftover), step, s => Inv(s), acts);
  }

  /** With the sharing rule at most one live process holds the lock, in every run, and the
      file at the path then carries its process id. */
  lemma AtMostOneHolder(leftover: Option<Option<nat>>, acts: seq<Action>)
    requires Run(true, leftover, acts).Some?
    ensures var s := Run(true, leftover, acts).value;
            && Exclusive(s)
            && (forall p: nat :: HasLock(s, p) ==> s.file.Some? && s.file.value.parsed == Some(s.procs[p].pid))
  {
    InvAfter(leftover, acts);
    var s := Run(true, leftover, acts).value;
    forall p: nat | HasLock(s, p)
      ensures s.procs[p].handle.Some? && s.file.Some? && s.file.value.parsed == Some(s.procs[p].pid)
    {
      assert ProcOk(s, p);
    }
  }

  // ---------------------------------------------------------------- what the rule is needed for

  lemma Then(sharing: bool, leftover: Option<Option<nat>>, acts: seq<Action>, s: State, a: Action)
    returns (acts': seq<Action>, s': State)
    requires Run(sharing, leftover, acts) == Some(s) && Step(sharing, s, a).Some?
    ensures acts' == acts + [a] && Some(s') == Step(sharing, s, a) && Run(sharing, leftover, acts') == Some(s')
  {
    acts', s' := acts + [a], Step(sharing, s, a).value;
    var step := (s: State, a: Action) => Step(sharing, s, a);
    ReplayOneMore(Init(leftover), step, acts, a);
  }

  /** Where open files can be removed, a second process takes the half-written file of the
      first for a stale one, and both end up holding the lock. */
  lemma TwoHoldersWithoutTheRule() returns (acts: seq<Action>)
    ensures Run(false, None, acts).Some?
    ensures HasLock(Run(false, None, acts).value, 0) && HasLock(Run(false, None, acts).value, 1)
  {
    var s := Init(None);
    acts := [];
    acts, s := Then(false, None, acts, s, Spawn(10));
    acts, s := Then(false, None, acts, s, Spawn(20));
    acts, s := Then(false, None, acts, s, Do(0, TryCreate));
    acts, s := Then(false, None, acts, s, Do(1, TryCreate));
    acts, s := Then(false, None, acts, s, Do(1, Read));
    acts, s := Then(false, None, acts, s, Do(1, Judge(false)));
    acts, s := Then(false, None, acts, s, Do(1, Remove(false)));
    acts, s := Then(false, None, acts, s, Do(0, WritePid(true)));
    acts, s := Then(false, None, acts, s, Do(1, TryCreate));
    acts, s := Then(false, None, acts, s, Do(1, WritePid(true)));
  }

  /** Mutual exclusion holds in all runs exactly when the operating system keeps open files. */
  lemma ExclusionIsTheSharingRule(sharing: bool)
    ensures sharing <==>
            forall leftover, acts :: Run(sharing, leftover, acts).Some?
              ==> Exclusive(Run(sharing, leftover, acts).value)
  {
    if sharing {
      forall leftover, acts | Run(true, leftover, acts).Some?
        ensures Exclusive(Run(true, leftover, acts).value)
      {
        AtMostOneHolder(leftover, acts);
      }
    } else {
      var acts := TwoHoldersWithoutTheRule();
      var s := Run(false, None, acts).value;
      assert HasLock(s, 0) && HasLock(s, 1) && !Exclusive(s);
    }
  }

  /** The steps of taking over a lock file that names nobody alive. */
  const TAKE_OVER := [TryCreate, Read, Judge(false), Remove(false), TryCreate, WritePid(true)]

  function Steps(sharing: bool, s: State, p: nat, events: seq<Event>): Option<State>
    decreases |events|
  {
    if events == [] then Some(s)
    else if p >= |s.procs| then None
    else
      match DoEvent(sharing, s, p, events[0])
      case None => None
      case Some(t) => Steps(sharing, t, p, events[1..])
  }

  /** The lock is recoverable: a file whose text is no number, or the id of no live process,
      and that no live process has open, is taken over by a process that runs undisturbed. */
  lemma StaleLockIsTakenOver(sharing: bool, s: State, p: nat)
    requires p < |s.procs| && s.procs[p].alive && s.procs[p].pc.Starting? && s.file.Some?
    requires !OpenByLive(s, s.file.value.id)
    requires s.file.value.parsed.Some? ==> !LivePid(s, s.file.value.parsed.value)
    ensures Steps(sharing, s, p, TAKE_OVER).Some? && HasLock(Steps(sharing, s, p, TAKE_OVER).value, p)
    ensures Steps(sharing, s, p, TAKE_OVER).value.file == Some(LockFile(s.nextId, Some(s.procs[p].pid)))
  {
    var x := s.procs[p];
    var s1 := Set(s, p, x.(pc := Exists));
    var s2 := Set(s1, p, x.(pc := Judging(s.file.value.parsed)));
    var s3 := Set(s2, p, x.(pc := Removing));
    assert s2.file.value.parsed.Some? ==> !LivePid(s2, s2.file.value.parsed.value) by {
      assert forall q :: 0 <= q < |s.procs| ==>
               s2.procs[q].alive == s.procs[q].alive && s2.procs[q].pid == s.procs[q].pid;
    }
    assert !OpenByLive(s3, s.file.value.id) by {
      assert forall q :: 0 <= q < |s.procs| ==>
               s3.procs[q].alive == s.procs[q].alive && s3.procs[q].handle == s.procs[q].handle;
    }
    var s4 := Set(s3, p, x.(pc := Starting)).(file := None);
    assert DoEvent(sharing, s, p, TryCreate) == Some(s1);
    assert DoEvent(sharing, s1, p, Read) == Some(s2);
    assert DoEvent(sharing, s2, p, Judge(false)) == Some(s3);
    assert DoEvent(sharing, s3, p, Remove(false)) == Some(s4);
    var s5 := DoEvent(sharing, s4, p, TryCreate).value;
    var s6 := DoEvent(sharing, s5, p, WritePid(true)).value;
    assert Steps(sharing, s6, p, TAKE_OVER[1..][1..][1..][1..][1..][1..]) == Some(s6);
    assert Steps(sharing, s5, p, TAKE_OVER[1..][1..][1..][1..][1..]) == Some(s6);
    assert Steps(sharing, s4, p, TAKE_OVER[1..][1..][1..][1..]) == Some(s6);
    assert Steps(sharing, s3, p, TAKE_OVER[1..][1..][1..]) == Some(s6);
    assert Steps(sharing, s2, p, TAKE_OVER[1..][1..]) == Some(s6);
    assert Steps(sharing, s1, p, TAKE_OVER[1..]) == Some(s6);
  }

  /** Two steps in a row. */
  lemma StepsOne(sharing: bool, s: State, p: nat, e: Event, t: State, rest: seq<Event>)
    requires p < |s.procs| && DoEvent(sharing, s, p, e) == Some(t)
    ensures Steps(sharing, s, p, [e] + rest) == Steps(sharing, t, p, rest)
  {
    assert ([e] + rest)[1..] == rest;
  }

  /** Nobody else has the file of an open handle open, so once closed it can be removed. */
  lemma ClosedCanGo(s: State, p: nat, pc: Pc)
    requires Inv(s) && p < |s.procs| && s.procs[p].alive && s.procs[p].handle.Some?
    ensures s.file.Some? && !OpenByLive(Set(s, p, s.procs[p].(pc := pc, handle := None)), s.file.value.id)
  {
    assert ProcOk(s, p);
    forall q | 0 <= q < |s.procs| && q != p ensures s.procs[q].handle.None? {
      assert ProcOk(s, q);
    }
  }

  /** A release that nothing disturbs leaves no lock file and no holder, and touches no other process. */
  lemma ReleaseFreesTheLock(leftover: Option<Option<nat>>, acts: seq<Action>, p: nat)
    requires Run(true, leftover, acts).Some? && HasLock(Run(true, leftover, acts).value, p)
    ensures var s := Run(true, leftover, acts).value;
            var t := Steps(true, s, p, [ReleaseClose, Remove(false)]);
            && t.Some? && t.value.file == None && (forall q: nat :: !HasLock(t.value, q))
            && |t.value.procs| == |s.procs|
            && forall q :: 0 <= q < |s.procs| && q != p ==> t.value.procs[q] == s.procs[q]
  {
    InvAfter(leftover, acts);
    AtMostOneHolder(leftover, acts);
    var s := Run(true, leftover, acts).value;
    var x := s.procs[p];
    assert ProcOk(s, p);
    ClosedCanGo(s, p, Releasing);
    var s1 := Set(s, p, x.(pc := Releasing, handle := None));
    var s2 := Set(s1, p, x.(pc := Ended, handle := None)).(file := None);
    assert [ReleaseClose, Remove(false)] == [ReleaseClose] + [Remove(false)];
    StepsOne(true, s, p, ReleaseClose, s1, [Remove(false)]);
    assert [Remove(false)] == [Remove(false)] + [];
    StepsOne(true, s1, p, Remove(false), s2, []);
    forall q: nat | HasLock(s2, q) ensures false {
      assert HasLock(s, q);
    }
  }

  /** A process whose write fails, undisturbed, leaves no lock file either. */
  lemma FailedWriteLeavesNoFile(leftover: Option<Option<nat>>, acts: seq<Action>, p: nat)
    requires Run(true, leftover, acts).Some? && p < |Run(true, leftover, acts).value.procs|
    requires Run(true, leftover, acts).value.procs[p].alive && Run(true, leftover, acts).value.procs[p].pc.Created?
    ensures var t := Steps(true, Run(true, leftover, acts).value, p, [WritePid(false), CloseFailed, Remove(false)]);
            t.Some? && t.value.file == None && !HasLock(t.value, p)
  {
    InvAfter(leftover, acts);
    var s := Run(true, leftover, acts).value;
    var x := s.procs[p];
    assert ProcOk(s, p);
    ClosedCanGo(s, p, FailedClosed);
    var s1 := Set(s, p, x.(pc := WriteFailed));
    var s2 := Set(s, p, x.(pc := FailedClosed, handle := None));
    var s3 := Set(s2, p, x.(pc := Ended, handle := None)).(file := None);
    assert [WritePid(false), CloseFailed, Remove(false)] == [WritePid(false)] + [CloseFailed, Remove(false)];
    StepsOne(true, s, p, WritePid(false), s1, [CloseFailed, Remove(false)]);
    assert [CloseFailed, Remove(false)] == [CloseFailed] + [Remove(false)];
    assert Set(s1, p, s1.procs[p].(pc := FailedClosed, handle := None)) == s2;
    StepsOne(true, s1, p, CloseFailed, s2, [Remove(false)]);
    assert [Remove(false)] == [Remove(false)] + [];
    StepsOne(true, s2, p, Remove(false), s3, []);
  }

  /** A lock file that names a live process is never judged stale: whoever finds it gives up and
      leaves it as it is. */
  lemma RunningServerIsRespected(sharing: bool, s: State, p: nat)
    requires p < |s.procs| && s.procs[p].alive && s.procs[p].pc.Starting? && s.file.Some?
    requires s.file.value.parsed.Some? && LivePid(s, s.file.value.parsed.value)
    ensures Steps(sharing, s, p, [TryCreate, Read, Judge(false)]) == None
    ensures var t := Steps(sharing, s, p, [TryCreate, Read, Judge(true)]);
            t.Some? && t.value.file == s.file && t.value.procs[..p] == s.procs[..p]
            && |t.value.procs| == |s.procs| && t.value.procs[p].pc.Ended?
  {
    var x := s.procs[p];
    var s1 := Set(s, p, x.(pc := Exists));
    var s2 := Set(s1, p, x.(pc := Judging(s.file.value.parsed)));
    var s3 := Set(s2, p, x.(pc := Ended));
    var q :| 0 <= q < |s.procs| && s.procs[q].alive && s.procs[q].pid == s.file.value.parsed.value;
    assert s2.procs[q].alive && s2.procs[q].pid == s.procs[q].pid;
    assert LivePid(s2, s.file.value.parsed.value);
    forall judge | judge == Judge(false) || judge == Judge(true)
      ensures Steps(sharing, s, p, [TryCreate, Read, judge]) == Steps(sharing, s2, p, [judge])
    {
      assert [TryCreate, Read, judge] == [TryCreate] + [Read, judge] && [Read, judge] == [Read] + [judge];
      StepsOne(sharing, s, p, TryCreate, s1, [Read, judge]);
      StepsOne(sharing, s1, p, Read, s2, [judge]);
    }
    assert DoEvent(sharing, s2, p, Judge(false)) == None;
    assert [Judge(true)] == [Judge(true)] + [];
    StepsOne(sharing, s2, p, Judge(true), s3, []);
  }
}
