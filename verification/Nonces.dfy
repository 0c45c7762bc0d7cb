/** Authentication of admin messages and the anti-replay cache
    (server/server.go, verifyCLIMessage and registerNonce).  A time is a number of
    nanoseconds since 1970; `skew` is the accepted clock skew. */
module Nonces {
  import opened Wrappers
  import opened Machines
  import opened Text

  type Time = int

  // ---------------------------------------------------------------- the clock's 64 bits

  const SECOND := 1_000_000_000
  const TWO_63 := 0x8000_0000_0000_0000

  type Int64 = x: int | -TWO_63 <= x < TWO_63

  type Skew = s: nat | s < TWO_63 - 1

  function Wrap64(x: int): Int64 {
    (x + TWO_63) % (2 * TWO_63) - TWO_63
  }

  /** The library keeps seconds since the year 1 in 64 bits, so time.Unix wraps around near the top. */
  const SECONDS_TO_1970 := 62_135_596_800

  function UnixTime(seconds: Int64): Time {
    (Wrap64(seconds + SECONDS_TO_1970) - SECONDS_TO_1970) * SECOND
  }

  /** Time.Sub: a difference that does not fit a Duration is the largest or smallest one. */
  function Sub(a: Time, b: Time): Int64 {
    var d := a - b;
    if d >= TWO_63 then TWO_63 - 1 else if d < -TWO_63 then -TWO_63 else d
  }

  /** Years from 1 on, and far enough from the top. */
  predicate OrdinaryClock(now: Time, skew: nat) {
    -SECONDS_TO_1970 * SECOND + skew <= now && now + skew < (TWO_63 - SECONDS_TO_1970) * SECOND
  }

  /** The 64-bit arithmetic decides freshness as unbounded arithmetic would: a timestamp so extreme
      that it wraps around is stale either way, and one that is fresh is kept as it is. */
  lemma ExtremeTimestampsAreStale(seconds: Int64, now: Time, skew: Skew)
    requires OrdinaryClock(now, skew)
    ensures Sub(now, UnixTime(seconds)) <= skew && Sub(UnixTime(seconds), now) <= skew
        <==> Fresh(seconds * SECOND, now, skew)
    ensures Fresh(seconds * SECOND, now, skew) ==> UnixTime(seconds) == seconds * SECOND
  {
    var internal := seconds + SECONDS_TO_1970;
    if internal >= TWO_63 {
      assert Wrap64(internal) == internal - 2 * TWO_63;
      assert UnixTime(seconds) < -SECONDS_TO_1970 * SECOND;
    } else {
      assert Wrap64(internal) == internal;
    }
  }

  // ---------------------------------------------------------------- the cache

  /** The entries that survive an eviction at time now. */
  function Evict(seen: map<string, Time>, now: Time, skew: nat): map<string, Time> {
    map n | n in seen && seen[n] >= now - 2 * skew :: seen[n]
  }

  /** The critical section of registerNonce: evict, then insert unless present. */
  function Register(seen: map<string, Time>, nonce: string, msgTime: Time, now: Time, skew: nat)
    : (map<string, Time>, bool)
  {
    var kept := Evict(seen, now, skew);
    if nonce in kept then (kept, false) else (kept[nonce := msgTime], true)
  }

  predicate Fresh(msgTime: Time, now: Time, skew: nat) {
    now - msgTime <= skew && msgTime - now <= skew
  }

  // ---------------------------------------------------------------- the server's check

  datatype AuthError = NoSecret | NoClientId | NoNonce | NoSignature | StaleTimestamp
                     | SignatureFailure | BadSignature | Replayed

  datatype CliMessage = CliMessage(clientId: string, timestamp: Int64, nonce: string, signature: string, body: string)

  class Server {
    const adminSecret: string
    const skew: Skew
    var seenNonces: map<string, Time>

    constructor (adminSecret: string, skew: Skew)
      ensures this.adminSecret == adminSecret && this.skew == skew && seenNonces == map[]
    {
      this.adminSecret, this.skew, seenNonces := adminSecret, skew, map[];
    }

    /** A nonce is refused exactly if it is cached with a time at most twice the skew ago; older
        entries go, the others stay as they are, and an accepted nonce is entered with its time.
        The eviction loop visits the keys in any order. */
    method RegisterNonce(nonce: string, msgTime: Time, now: Time) returns (ok: bool)
      modifies this
      ensures (seenNonces, ok) == Register(old(seenNonces), nonce, msgTime, now, skew)
      ensures ok <==> !(nonce in old(seenNonces) && old(seenNonces)[nonce] >= now - 2 * skew)
      ensures ok ==> nonce in seenNonces && seenNonces[nonce] == msgTime
      ensures forall k :: k != nonce || !ok ==>
                && (k in seenNonces <==> k in old(seenNonces) && old(seenNonces)[k] >= now - 2 * skew)
                && (k in seenNonces ==> seenNonces[k] == old(seenNonces)[k])
    {
      var cutoff := now - 2 * skew;
      var todo := seenNonces.Keys;
      while todo != {}
        invariant todo <= seenNonces.Keys <= old(seenNonces).Keys
        invariant forall k :: k in seenNonces ==> seenNonces[k] == old(seenNonces)[k]
        invariant forall k :: k in old(seenNonces) ==>
                    (k in seenNonces <==> k in todo || old(seenNonces)[k] >= cutoff)
      {
        var key :| key in todo;
        todo := todo - {key};
        if seenNonces[key] < cutoff {
          seenNonces := seenNonces - {key};
        }
      }
      assert seenNonces == Evict(old(seenNonces), now, skew);
      if nonce in seenNonces {
        return false;
      }
      seenNonces := seenNonces[nonce := msgTime];
      return true;
    }

    /** The error names the first thing that is wrong with the message. */
    ghost predicate Explains(error: AuthError, msg: CliMessage, sign: (CliMessage, string) -> Option<string>,
                             now: Time)
    {
      && (error.NoSecret? <==> TrimSpace(adminSecret) == "")
      && (error.NoSecret? || (error.NoClientId? <==> TrimSpace(msg.clientId) == ""))
      && (error.NoSecret? || error.NoClientId? || (error.NoNonce? <==> TrimSpace(msg.nonce) == ""))
      && (error.NoSignature? ==> TrimSpace(msg.signature) == "" && TrimSpace(msg.nonce) != "")
      && (error.StaleTimestamp? ==>
            TrimSpace(msg.signature) != "" && (msg.timestamp == 0 || !Fresh(UnixTime(msg.timestamp), now, skew)))
      && (error.SignatureFailure? || error.BadSignature? ==>
            && TrimSpace(msg.signature) != "" && msg.timestamp != 0 && Fresh(UnixTime(msg.timestamp), now, skew)
            && (error.SignatureFailure? <==> sign(msg, adminSecret) == None))
      && (error.BadSignature? ==> sign(msg, adminSecret) != Some(msg.signature))
    }

    /** `sign` is ComputeMessageSignature; the clock is read twice, at `checkedAt`
        and, under the lock, at `registeredAt`. */
    method VerifyCliMessage(msg: CliMessage, sign: (CliMessage, string) -> Option<string>,
                            checkedAt: Time, registeredAt: Time) returns (error: Option<AuthError>)
      modifies this
      ensures error.None? <==>
              && TrimSpace(adminSecret) != "" && TrimSpace(msg.clientId) != "" && TrimSpace(msg.nonce) != ""
              && TrimSpace(msg.signature) != "" && msg.timestamp != 0
              && UnixTime(msg.timestamp) - skew <= checkedAt <= UnixTime(msg.timestamp) + skew
              && sign(msg, adminSecret) == Some(msg.signature)
              && !(msg.nonce in old(seenNonces) && old(seenNonces)[msg.nonce] >= registeredAt - 2 * skew)
      ensures error.Some? && error != Some(Replayed) ==> Explains(error.value, msg, sign, checkedAt)
      ensures error == Some(Replayed) ==>
                msg.nonce in old(seenNonces) && old(seenNonces)[msg.nonce] >= registeredAt - 2 * skew
      ensures error.None? ==> msg.nonce in seenNonces && seenNonces[msg.nonce] == UnixTime(msg.timestamp)
      ensures error.None? || error == Some(Replayed) ==>
                seenNonces == Register(old(seenNonces), msg.nonce, UnixTime(msg.timestamp), registeredAt, skew).0
      ensures error.Some? && error != Some(Replayed) ==> seenNonces == old(seenNonces)
    {
      if TrimSpace(adminSecret) == "" { return Some(NoSecret); }
      if TrimSpace(msg.clientId) == "" { return Some(NoClientId); }
      if TrimSpace(msg.nonce) == "" { return Some(NoNonce); }
      if TrimSpace(msg.signature) == "" { return Some(NoSignature); }
      var msgTime := UnixTime(msg.timestamp);
      if msg.timestamp == 0 || Sub(checkedAt, msgTime) > skew || Sub(msgTime, checkedAt) > skew {
        return Some(StaleTimestamp);
      }
      var expected := sign(msg, adminSecret);
      if expected.None? { return Some(SignatureFailure); }
      if expected.value != msg.signature { return Some(BadSignature); }
      var ok := RegisterNonce(msg.nonce, msgTime, registeredAt);
      if !ok { return Some(Replayed); }
      return None;
    }
  }

  // ---------------------------------------------------------------- concurrent requests

  /** Each request is checked for freshness and registered in two separate steps. */
  datatype Phase = Arrived | Checked(at: Time) | Rejected | Accepted(at: Time)

  datatype Req = Req(nonce: string, time: Time, phase: Phase)

  /** `accepted` is the history of accepted requests, in registration order. */
  datatype State = State(clock: Time, seen: map<string, Time>, reqs: seq<Req>, accepted: seq<nat>)

  datatype Action = Tick(now: Time) | Arrive(nonce: string, time: Time) | Check(r: nat) | Enter(r: nat)

  /** The parameters of a run: the skew S, the longest delay between a request's
      check and its registration, and whether the clock may go backwards. */
  datatype Setting = Setting(skew: nat, delay: nat, monotonic: bool)

  function Step(p: Setting, s: State, a: Action): Option<State> {
    match a
    case Tick(now) => if p.monotonic && now < s.clock then None else Some(s.(clock := now))
    case Arrive(nonce, time) => Some(s.(reqs := s.reqs + [Req(nonce, time, Arrived)]))
    case Check(r) =>
      if r >= |s.reqs| || !s.reqs[r].phase.Arrived? then None
      else
        var ok := s.reqs[r].time != 0 && Fresh(s.reqs[r].time, s.clock, p.skew);
        Some(s.(reqs := s.reqs[r := s.reqs[r].(phase := if ok then Checked(s.clock) else Rejected)]))
    case Enter(r) =>
      if r >= |s.reqs| || !s.reqs[r].phase.Checked? || s.clock - s.reqs[r].phase.at > p.delay then None
      else
        var (seen, ok) := Register(s.seen, s.reqs[r].nonce, s.reqs[r].time, s.clock, p.skew);
        Some(s.(seen := seen,
                reqs := s.reqs[r := s.reqs[r].(phase := if ok then Accepted(s.clock) else Rejected)],
                accepted := if ok then s.accepted + [r] else s.accepted))
  }

  function Init(start: Time): State {
    State(start, map[], [], [])
  }

  function Run(p: Setting, start: Time, acts: seq<Action>): Option<State> {
    Replay(Init(start), (s, a) => Step(p, s, a), acts)
  }

  ghost predicate ReqOk(p: Setting, s: State, r: nat)
    requires r < |s.reqs|
  {
    var q := s.reqs[r];
    match q.phase
    case Arrived => true
    case Rejected => true
    case Checked(at) => at <= s.clock && Fresh(q.time, at, p.skew)
    case Accepted(at) => at <= s.clock && q.time >= at - p.delay - p.skew && q.time <= at + p.skew
                         && r in s.accepted
  }

  /** The last acceptance of a nonce is still cached, or so old that a later
      registration has gone past it. */
  ghost predicate CacheOk(p: Setting, s: State) {
    && (forall n :: n in s.seen ==> s.seen[n] <= s.clock + p.skew)
    && (forall k :: 0 <= k < |s.accepted| ==>
          s.accepted[k] < |s.reqs| && s.reqs[s.accepted[k]].phase.Accepted?)
    && (forall k :: 0 <= k < |s.accepted| ==>
          var q := s.reqs[s.accepted[k]];
          (q.nonce in s.seen && s.seen[q.nonce] >= q.time) || q.time < s.clock - 2 * p.skew)
    && (forall k, l :: 0 <= k < l < |s.accepted| ==>
          var (q, q') := (s.reqs[s.accepted[k]], s.reqs[s.accepted[l]]);
          s.accepted[k] != s.accepted[l]
          && (q.nonce == q'.nonce ==> q'.time - q.time > p.skew - p.delay))
  }

  ghost predicate Inv(p: Setting, s: State) {
    && CacheOk(p, s)
    && (forall r :: 0 <= r < |s.reqs| ==> ReqOk(p, s, r))
  }

  lemma EnterKeepsInv(p: Setting, s: State, r: nat)
    requires p.delay <= p.skew && Inv(p, s) && Step(p, s, Enter(r)).Some?
    ensures Inv(p, Step(p, s, Enter(r)).value)
  {
    var t := Step(p, s, Enter(r)).value;
    var q := s.reqs[r];
    assert ReqOk(p, s, r);
    var (seen, ok) := Register(s.seen, q.nonce, q.time, s.clock, p.skew);
    assert forall k :: 0 <= k < |s.accepted| ==> s.accepted[k] != r;
    forall k | 0 <= k < |s.accepted|
      ensures t.accepted[k] == s.accepted[k] && t.reqs[s.accepted[k]] == s.reqs[s.accepted[k]]
      ensures var a := s.reqs[s.accepted[k]];
              (a.nonce in t.seen && t.seen[a.nonce] >= a.time) || a.time < t.clock - 2 * p.skew
      ensures var a := s.reqs[s.accepted[k]]; ok && a.nonce == q.nonce ==> q.time - a.time > p.skew - p.delay
    {
      var a := s.reqs[s.accepted[k]];
      assert s.accepted[k] < |s.reqs|;
      if a.nonce == q.nonce && ok {
        assert a.time < s.clock - 2 * p.skew;
      }
    }
    forall i | 0 <= i < |t.reqs| ensures ReqOk(p, t, i) {
      assert ReqOk(p, s, i);
      if i == r && ok { assert t.accepted[|s.accepted|] == r; }
      else if s.reqs[i].phase.Accepted? {
        var k :| 0 <= k < |s.accepted| && s.accepted[k] == i;
        assert t.accepted[k] == i;
      }
    }
  }

  lemma StepKeepsInv(p: Setting, s: State, a: Action)
    requires p.monotonic && p.delay <= p.skew && Inv(p, s) && Step(p, s, a).Some?
    ensures Inv(p, Step(p, s, a).value)
  {
    var t := Step(p, s, a).value;
    if a.Enter? {
      EnterKeepsInv(p, s, a.r);
    } else {
      forall i | 0 <= i < |t.reqs| ensures ReqOk(p, t, i) {
        if i < |s.reqs| { assert ReqOk(p, s, i); }
      }
    }
  }

  lemma InvAfter(p: Setting, start: Time, acts: seq<Action>)
    requires p.monotonic && p.delay <= p.skew && Run(p, start, acts).Some?
    ensures Inv(p, Run(p, start, acts).value)
  {
    forall s, a | Inv(p, s) && Step(p, s, a).Some? ensures Inv(p, Step(p, s, a).value) {
      StepKeepsInv(p, s, a);
    }
    InvariantHolds(Init(start), (s, a) => Step(p, s, a), s => Inv(p, s), acts);
  }

  /** With a clock that does not go back and registrations at most delay <= skew after
      their check, two acceptances of one nonce carry timestamps more than
      skew - delay apart; in particular no (nonce, timestamp) is accepted twice. */
  lemma NoReplay(p: Setting, start: Time, acts: seq<Action>, i: nat, j: nat)
    requires p.monotonic && p.delay <= p.skew && Run(p, start, acts).Some?
    requires var s := Run(p, start, acts).value;
             i < |s.reqs| && j < |s.reqs| && i != j && s.reqs[i].phase.Accepted? && s.reqs[j].phase.Accepted?
             && s.reqs[i].nonce == s.reqs[j].nonce
    ensures var s := Run(p, start, acts).value;
            && s.reqs[i].time != s.reqs[j].time
            && (s.reqs[i].time - s.reqs[j].time > p.skew - p.delay
                || s.reqs[j].time - s.reqs[i].time > p.skew - p.delay)
  {
    InvAfter(p, start, acts);
    var s := Run(p, start, acts).value;
    assert ReqOk(p, s, i) && ReqOk(p, s, j);
    var k :| 0 <= k < |s.accepted| && s.accepted[k] == i;
    var l :| 0 <= l < |s.accepted| && s.accepted[l] == j;
    assert k < l || l < k;
  }

  /** After every registration at time t all cached times lie in [t - 2 skew, t + skew]. */
  lemma CacheStaysInWindow(p: Setting, start: Time, acts: seq<Action>, r: nat)
    requires p.monotonic && p.delay <= p.skew && Run(p, start, acts + [Enter(r)]).Some?
    ensures var t := Run(p, start, acts + [Enter(r)]).value;
            forall n :: n in t.seen ==> t.clock - 2 * p.skew <= t.seen[n] <= t.clock + p.skew
  {
    var step := (s: State, a: Action) => Step(p, s, a);
    ReplayOneMore(Init(start), step, acts, Enter(r));
    InvAfter(p, start, acts);
    InvAfter(p, start, acts + [Enter(r)]);
    var s := Run(p, start, acts).value;
    assert ReqOk(p, s, r);
  }

  // ---------------------------------------------------------------- which requests are refused

  /** The cache holds accepted times only. */
  ghost predicate CacheFrom(s: State) {
    && (forall n :: n in s.seen ==> exists r :: AcceptedAs(s, r, n, s.seen[n]))
  }

  /** Request r was accepted with this nonce and time. */
  ghost predicate AcceptedAs(s: State, r: nat, nonce: string, time: Time) {
    r < |s.reqs| && s.reqs[r].phase.Accepted? && s.reqs[r].nonce == nonce && s.reqs[r].time == time
  }

  /** Each accepted request is remembered, by its own entry or a later one of its nonce, until it
      is older than twice the skew. */
  ghost predicate Remembered(p: Setting, s: State) {
    forall r :: 0 <= r < |s.reqs| && s.reqs[r].phase.Accepted? ==>
      var q := s.reqs[r];
      (q.nonce in s.seen && s.seen[q.nonce] >= q.time) || q.time < s.clock - 2 * p.skew
  }

  lemma AcceptedStay(p: Setting, s: State, a: Action, r: nat, nonce: string, time: Time)
    requires Step(p, s, a).Some? && AcceptedAs(s, r, nonce, time)
    ensures AcceptedAs(Step(p, s, a).value, r, nonce, time)
  {
  }

  lemma StepKeepsCacheFrom(p: Setting, s: State, a: Action)
    requires CacheFrom(s) && Step(p, s, a).Some?
    ensures CacheFrom(Step(p, s, a).value)
  {
    var t := Step(p, s, a).value;
    forall n | n in t.seen ensures exists r :: AcceptedAs(t, r, n, t.seen[n]) {
      if n in s.seen && t.seen[n] == s.seen[n] {
        var r :| AcceptedAs(s, r, n, s.seen[n]);
        AcceptedStay(p, s, a, r, n, s.seen[n]);
      } else {
        assert AcceptedAs(t, a.r, n, t.seen[n]);
      }
    }
  }

  lemma StepKeepsRemembered(p: Setting, s: State, a: Action)
    requires p.monotonic && Remembered(p, s) && Step(p, s, a).Some?
    ensures Remembered(p, Step(p, s, a).value)
  {
  }

  lemma CacheFromAfter(p: Setting, start: Time, acts: seq<Action>)
    requires Run(p, start, acts).Some?
    ensures CacheFrom(Run(p, start, acts).value)
  {
    forall s, a | CacheFrom(s) && Step(p, s, a).Some? ensures CacheFrom(Step(p, s, a).value) {
      StepKeepsCacheFrom(p, s, a);
    }
    InvariantHolds(Init(start), (s, a) => Step(p, s, a), s => CacheFrom(s), acts);
  }

  lemma RememberedAfter(p: Setting, start: Time, acts: seq<Action>)
    requires p.monotonic && Run(p, start, acts).Some?
    ensures Remembered(p, Run(p, start, acts).value)
  {
    forall s, a | Remembered(p, s) && Step(p, s, a).Some? ensures Remembered(p, Step(p, s, a).value) {
      StepKeepsRemembered(p, s, a);
    }
    InvariantHolds(Init(start), (s, a) => Step(p, s, a), s => Remembered(p, s), acts);
  }

  /** An earlier accepted request of the nonce is at most twice the skew old. */
  ghost predicate AcceptedRecently(p: Setting, s: State, nonce: string) {
    exists r :: 0 <= r < |s.reqs| && s.reqs[r].phase.Accepted? && s.reqs[r].nonce == nonce
                && s.reqs[r].time >= s.clock - 2 * p.skew
  }

  /** Nothing is refused without need: a registration refuses only if a request with its nonce was
      accepted before and is at most twice the skew old, whatever the clock did and however late it
      comes; and with a clock that does not go back it refuses exactly then.  In particular a nonce
      that was never accepted is. */
  lemma RefusedExactlyWhenAcceptedRecently(p: Setting, start: Time, acts: seq<Action>, r: nat)
    requires Run(p, start, acts + [Enter(r)]).Some?
    ensures Run(p, start, acts).Some? && r < |Run(p, start, acts).value.reqs|
    ensures var (s, t) := (Run(p, start, acts).value, Run(p, start, acts + [Enter(r)]).value);
            && r < |t.reqs| && (t.reqs[r].phase.Rejected? || t.reqs[r].phase == Accepted(s.clock))
            && (t.reqs[r].phase.Rejected? ==> AcceptedRecently(p, s, s.reqs[r].nonce))
            && (p.monotonic ==> (t.reqs[r].phase.Rejected? <==> AcceptedRecently(p, s, s.reqs[r].nonce)))
  {
    ReplayOneMore(Init(start), (s, a) => Step(p, s, a), acts, Enter(r));
    var s := Run(p, start, acts).value;
    var n := s.reqs[r].nonce;
    CacheFromAfter(p, start, acts);
    if n in s.seen {
      var k :| AcceptedAs(s, k, n, s.seen[n]);
    }
    if p.monotonic {
      RememberedAfter(p, start, acts);
    }
  }

  /** The freshness check: it passes exactly the requests that carry a time, not 0, within the skew
      of the clock. */
  lemma CheckedExactlyWhenFresh(p: Setting, start: Time, acts: seq<Action>, r: nat)
    requires Run(p, start, acts + [Check(r)]).Some?
    ensures Run(p, start, acts).Some? && r < |Run(p, start, acts).value.reqs|
    ensures var (s, t) := (Run(p, start, acts).value, Run(p, start, acts + [Check(r)]).value);
            && r < |t.reqs| && t.seen == s.seen && t.accepted == s.accepted
            && (t.reqs[r].phase == Checked(s.clock) <==>
                s.reqs[r].time != 0 && s.reqs[r].time - p.skew <= s.clock <= s.reqs[r].time + p.skew)
            && (t.reqs[r].phase == Checked(s.clock) || t.reqs[r].phase.Rejected?)
  {
    ReplayOneMore(Init(start), (s, a) => Step(p, s, a), acts, Check(r));
  }

  /** Two requests with the same nonce and the same timestamp were both accepted. */
  ghost predicate ReplayAccepted(s: State) {
    exists i, j :: 0 <= i < j < |s.reqs| && s.reqs[i].phase.Accepted? && s.reqs[j].phase.Accepted?
                   && s.reqs[i].nonce == s.reqs[j].nonce && s.reqs[i].time == s.reqs[j].time
  }

  lemma Then(p: Setting, start: Time, acts: seq<Action>, s: State, a: Action) returns (acts': seq<Action>, s': State)
    requires Run(p, start, acts) == Some(s) && Step(p, s, a).Some?
    ensures acts' == acts + [a] && Some(s') == Step(p, s, a) && Run(p, start, acts') == Some(s')
  {
    acts', s' := acts + [a], Step(p, s, a).value;
    var step := (s: State, a: Action) => Step(p, s, a);
    ReplayOneMore(Init(start), step, acts, a);
  }

  /** The bound on the delay is exact: with any delay above the skew some run accepts a replay. */
  lemma ReplayIsImpossibleExactlyUpToSkew(skew: nat, delay: nat)
    ensures delay <= skew <==>
            forall start: Time, acts :: Run(Setting(skew, delay, true), start, acts).Some?
              ==> !ReplayAccepted(Run(Setting(skew, delay, true), start, acts).value)
  {
    var p := Setting(skew, delay, true);
    if delay <= skew {
      forall start: Time, acts | Run(p, start, acts).Some? ensures !ReplayAccepted(Run(p, start, acts).value) {
        var s := Run(p, start, acts).value;
        forall i, j | 0 <= i < j < |s.reqs| && s.reqs[i].phase.Accepted? && s.reqs[j].phase.Accepted?
                      && s.reqs[i].nonce == s.reqs[j].nonce
          ensures s.reqs[i].time != s.reqs[j].time
        {
          NoReplay(p, start, acts, i, j);
        }
      }
    } else {
      var acts := LateRegistration(p);
      assert ReplayAccepted(Run(p, 1, acts).value);
    }
  }

  /** The replay waits between its check and its registration until its original is evicted. */
  lemma LateRegistration(p: Setting) returns (acts: seq<Action>)
    requires p.monotonic && p.delay > p.skew
    ensures Run(p, 1, acts).Some? && ReplayAccepted(Run(p, 1, acts).value)
  {
    var s := Init(1);
    acts := [];
    acts, s := Then(p, 1, acts, s, Arrive("n", 1));
    acts, s := Then(p, 1, acts, s, Arrive("n", 1));
    acts, s := Then(p, 1, acts, s, Check(0));
    acts, s := Then(p, 1, acts, s, Enter(0));
    acts, s := Then(p, 1, acts, s, Tick(1 + p.skew));
    acts, s := Then(p, 1, acts, s, Check(1));
    assert s.seen == map["n" := 1];
    acts, s := Then(p, 1, acts, s, Tick(1 + p.skew + p.delay));
    acts, s := Then(p, 1, acts, s, Enter(1));
    assert s.reqs[0].phase.Accepted? && s.reqs[1].phase.Accepted?;
  }

  /** The clock assumption is needed too: after a backward jump even an immediate registration
      can accept a replay whose original was evicted meanwhile. */
  lemma BackwardClockAdmitsReplay(p: Setting) returns (acts: seq<Action>)
    requires !p.monotonic
    ensures Run(p, 1, acts).Some? && ReplayAccepted(Run(p, 1, acts).value)
  {
    var late := 2 * p.skew + 2;
    var s := Init(1);
    acts := [];
    acts, s := Then(p, 1, acts, s, Arrive("n", 1));
    acts, s := Then(p, 1, acts, s, Arrive("n", 1));
    acts, s := Then(p, 1, acts, s, Arrive("m", late));
    acts, s := Then(p, 1, acts, s, Check(0));
    acts, s := Then(p, 1, acts, s, Enter(0));
    acts, s := Then(p, 1, acts, s, Tick(late));
    acts, s := Then(p, 1, acts, s, Check(2));
    acts, s := Then(p, 1, acts, s, Enter(2));
    assert "n"[0] != "m"[0];
    assert "n" !in s.seen;
    acts, s := Then(p, 1, acts, s, Tick(1));
    acts, s := Then(p, 1, acts, s, Check(1));
    acts, s := Then(p, 1, acts, s, Enter(1));
    assert s.reqs[0].phase.Accepted? && s.reqs[1].phase.Accepted?;
  }
}
