/** Concurrent writers of the plugin file (server/plugin_store.go): every mutating
    operation takes its snapshot under the lock and writes it after the lock is released. */
module PluginWriters {
  import opened Wrappers
  import opened Machines
  import opened Plugins
  import opened PluginRecords
  import opened PluginFiles

  /** A mutating operation takes its snapshot in the locked step and writes it later.
      Writer w holds snapshot w + 1 of the history; `landed` lists the writes so far. */
  datatype Disk = Disk(records: Records, history: seq<Records>, written: seq<bool>, landed: seq<nat>, file: Records)

  datatype Action = Mutate(op: Op) | Land(writer: nat)

  function Step(h: Helpers, d: Disk, a: Action): Option<Disk> {
    match a
    case Mutate(op) =>
      var r := Apply(h, d.records, op);
      Some(if r.Err? then d
           else d.(records := r.value, history := d.history + [r.value], written := d.written + [false]))
    case Land(w) =>
      if w >= |d.written| || d.written[w] || w + 1 >= |d.history| then None
      else Some(d.(written := d.written[w := true], landed := d.landed + [w + 1], file := d.history[w + 1]))
  }

  function Fresh(rs: Records): Disk {
    Disk(rs, [rs], [], [], rs)
  }

  function Run(h: Helpers, rs: Records, acts: seq<Action>): Option<Disk> {
    Replay(Fresh(rs), (d, a) => Step(h, d, a), acts)
  }

  ghost predicate DiskOk(h: Helpers, d: Disk) {
    && |d.history| == |d.written| + 1 && d.records == d.history[|d.history| - 1]
    && (forall i :: 0 <= i < |d.history| ==> StoreOk(h, d.history[i]))
    && (forall k :: 0 <= k < |d.landed| ==> 0 < d.landed[k] < |d.history| && d.written[d.landed[k] - 1])
    && (forall w :: 0 <= w < |d.written| && d.written[w] ==> w + 1 in d.landed)
    && d.file == d.history[if d.landed == [] then 0 else d.landed[|d.landed| - 1]]
  }

  lemma AppendKeepsDisk(h: Helpers, d: Disk, rs: Records)
    requires DiskOk(h, d) && StoreOk(h, rs)
    ensures DiskOk(h, d.(records := rs, history := d.history + [rs], written := d.written + [false]))
  {
    assert forall w :: 0 <= w < |d.written| ==> (d.written + [false])[w] == d.written[w];
  }

  lemma MutateKeepsDisk(h: Helpers, d: Disk, op: Op)
    requires ValidatesNames(h) && DiskOk(h, d)
    ensures DiskOk(h, Step(h, d, Mutate(op)).value)
  {
    var r := Apply(h, d.records, op);
    if r.Ok? {
      ApplyKeepsStore(h, d.records, op);
      AppendKeepsDisk(h, d, r.value);
    }
  }

  lemma LandKeepsDisk(h: Helpers, d: Disk, w: nat)
    requires DiskOk(h, d) && Step(h, d, Land(w)).Some?
    ensures DiskOk(h, Step(h, d, Land(w)).value)
  {
    var t := Step(h, d, Land(w)).value;
    assert t.landed[|d.landed|] == w + 1;
    forall v | 0 <= v < |t.written| && t.written[v] ensures v + 1 in t.landed {
      if v != w { assert v + 1 in d.landed; }
    }
  }

  lemma StepKeepsDisk(h: Helpers, d: Disk, a: Action)
    requires ValidatesNames(h) && DiskOk(h, d) && Step(h, d, a).Some?
    ensures DiskOk(h, Step(h, d, a).value)
  {
    match a
    case Mutate(op) => MutateKeepsDisk(h, d, op);
    case Land(w) => LandKeepsDisk(h, d, w);
  }

  lemma DiskAfter(h: Helpers, rs: Records, acts: seq<Action>)
    requires ValidatesNames(h) && StoreOk(h, rs) && Run(h, rs, acts).Some?
    ensures DiskOk(h, Run(h, rs, acts).value)
  {
    var step := (d: Disk, a: Action) => Step(h, d, a);
    forall d, a | DiskOk(h, d) && step(d, a).Some? ensures DiskOk(h, step(d, a).value) {
      StepKeepsDisk(h, d, a);
    }
    InvariantHolds(Fresh(rs), step, d => DiskOk(h, d), acts);
  }

  /** A failing operation changes neither the store nor the file, and has nothing to write. */
  lemma FailuresWriteNothing(h: Helpers, rs: Records, acts: seq<Action>, op: Op)
    requires Run(h, rs, acts).Some? && Apply(h, Run(h, rs, acts).value.records, op).Err?
    ensures Run(h, rs, acts + [Mutate(op)]) == Run(h, rs, acts)
  {
    ReplayOneMore(Fresh(rs), (d, a) => Step(h, d, a), acts, Mutate(op));
  }

  ghost predicate InOrder(landed: seq<nat>) {
    forall i, j :: 0 <= i < j < |landed| ==> landed[i] < landed[j]
  }

  ghost predicate AllWritten(d: Disk) {
    forall w :: 0 <= w < |d.written| ==> d.written[w]
  }

  lemma LastIsLargest(landed: seq<nat>, k: nat)
    requires InOrder(landed) && k < |landed|
    ensures landed[k] <= landed[|landed| - 1]
  {
  }

  /** In every interleaving the file holds some state the store has passed through.  Once all
      writers are done it holds the snapshot that landed last, which is the current state
      whenever the writes landed in the order the snapshots were taken. */
  lemma FileHoldsAPastState(h: Helpers, rs: Records, acts: seq<Action>)
    requires ValidatesNames(h) && StoreOk(h, rs) && Run(h, rs, acts).Some?
    ensures var d := Run(h, rs, acts).value;
            && (exists i :: 0 <= i < |d.history| && d.file == d.history[i])
            && (AllWritten(d) && InOrder(d.landed) ==> d.file == d.records)
            && (AllWritten(d) && d.landed != [] && d.landed[|d.landed| - 1] == |d.history| - 1 ==> d.file == d.records)
  {
    DiskAfter(h, rs, acts);
    var d := Run(h, rs, acts).value;
    if AllWritten(d) && InOrder(d.landed) && |d.written| > 0 {
      var newest := |d.history| - 1;
      assert d.written[newest - 1];
      var k :| 0 <= k < |d.landed| && d.landed[k] == newest;
      LastIsLargest(d.landed, k);
    }
  }

  /** A restart after such a quiet moment restores the store exactly. */
  lemma RestartRestores(h: Helpers, c: Codec, rs: Records, acts: seq<Action>, snapshot: seq<Record>)
    requires ValidatesNames(h) && Faithful(c) && StoreOk(h, rs) && Run(h, rs, acts).Some?
    requires var d := Run(h, rs, acts).value;
             && AllWritten(d) && (d.landed == [] || d.landed[|d.landed| - 1] == |d.history| - 1)
             && IsSnapshot(d.file, snapshot)
    ensures Load(h, c, c.encode(snapshot)) == Ok(Run(h, rs, acts).value.records)
  {
    DiskAfter(h, rs, acts);
    FileHoldsAPastState(h, rs, acts);
    SaveThenLoad(h, c, Run(h, rs, acts).value.file, snapshot);
  }

  // ---------------------------------------------------------------- when the file is current

  /** A schedule without its operations: some change, or the write of a given writer. */
  datatype Slot = Change | Write(writer: nat)

  function Changes(shape: seq<Slot>): nat {
    if shape == [] then 0 else Changes(shape[..|shape| - 1]) + if shape[|shape| - 1].Change? then 1 else 0
  }

  /** The schedule with its operations filled in. */
  function Fill(shape: seq<Slot>, ops: seq<Op>): seq<Action>
    requires |ops| == Changes(shape)
  {
    if shape == [] then []
    else
      var before := shape[..|shape| - 1];
      match shape[|shape| - 1]
      case Change => Fill(before, ops[..|ops| - 1]) + [Mutate(ops[|ops| - 1])]
      case Write(w) => Fill(before, ops) + [Land(w)]
  }

  /** Nobody writes before its own change, or twice. */
  ghost predicate Ordered(shape: seq<Slot>) {
    && (forall k :: 0 <= k < |shape| && shape[k].Write? ==> shape[k].writer < Changes(shape[..k]))
    && (forall j, k :: 0 <= j < k < |shape| && shape[j].Write? ==> shape[j] != shape[k])
  }

  /** And in the end everybody has written. */
  ghost predicate Complete(shape: seq<Slot>) {
    Ordered(shape) && forall w :: 0 <= w < Changes(shape) ==> Write(w) in shape
  }

  /** How many changes the snapshot that landed last contains. */
  function LastWrite(shape: seq<Slot>): nat {
    if shape == [] then 0
    else if shape[|shape| - 1].Write? then shape[|shape| - 1].writer + 1
    else LastWrite(shape[..|shape| - 1])
  }

  ghost predicate Succeed(h: Helpers, rs: Records, ops: seq<Op>) {
    forall i :: 0 <= i < |ops| ==> Apply(h, RunOps(h, rs, ops[..i]), ops[i]).Ok?
  }

  lemma OrderedPrefix(shape: seq<Slot>)
    requires Ordered(shape) && shape != []
    ensures Ordered(shape[..|shape| - 1])
  {
    var before := shape[..|shape| - 1];
    forall k | 0 <= k < |before| && before[k].Write? ensures before[k].writer < Changes(before[..k]) {
      assert before[..k] == shape[..k];
    }
  }

  lemma SucceedPrefix(h: Helpers, rs: Records, ops: seq<Op>)
    requires Succeed(h, rs, ops) && ops != []
    ensures Succeed(h, rs, ops[..|ops| - 1])
  {
    var before := ops[..|ops| - 1];
    forall i | 0 <= i < |before| ensures Apply(h, RunOps(h, rs, before[..i]), before[i]).Ok? {
      assert before[..i] == ops[..i] && before[i] == ops[i];
    }
  }

  /** What a disk looks like after a schedule of succeeding operations. */
  ghost predicate Filled(h: Helpers, rs: Records, shape: seq<Slot>, ops: seq<Op>, d: Disk) {
    && |ops| == Changes(shape) && |d.history| == |ops| + 1 && |d.written| == |ops|
    && (forall i :: 0 <= i <= |ops| ==> d.history[i] == RunOps(h, rs, ops[..i]))
    && d.records == d.history[|ops|]
    && (forall w :: 0 <= w < |ops| ==> (d.written[w] <==> Write(w) in shape))
    && LastWrite(shape) <= |ops| && d.file == d.history[LastWrite(shape)]
  }

  lemma MutateAppends(h: Helpers, rs: Records, ops: seq<Op>, d: Disk)
    requires ops != [] && Succeed(h, rs, ops) && d.records == RunOps(h, rs, ops[..|ops| - 1])
    ensures var now := RunOps(h, rs, ops);
            Step(h, d, Mutate(ops[|ops| - 1]))
            == Some(d.(records := now, history := d.history + [now], written := d.written + [false]))
  {
  }

  lemma FillChange(h: Helpers, rs: Records, shape: seq<Slot>, ops: seq<Op>, d: Disk, t: Disk)
    requires shape != [] && shape[|shape| - 1] == Change && |ops| == Changes(shape)
    requires Filled(h, rs, shape[..|shape| - 1], ops[..|ops| - 1], d)
    requires Write(|ops| - 1) !in shape[..|shape| - 1]
    requires var now := RunOps(h, rs, ops);
             t == d.(records := now, history := d.history + [now], written := d.written + [false])
    ensures Filled(h, rs, shape, ops, t)
  {
    var (earlier, before) := (shape[..|shape| - 1], ops[..|ops| - 1]);
    assert ops[..|ops|] == ops;
    assert LastWrite(shape) == LastWrite(earlier);
    forall i | 0 <= i <= |ops| ensures t.history[i] == RunOps(h, rs, ops[..i]) {
      if i < |ops| { assert before[..i] == ops[..i]; }
    }
    forall w | 0 <= w < |ops| ensures t.written[w] <==> Write(w) in shape {
      InLast(earlier, Change, Write(w));
      assert shape == earlier + [Change];
    }
  }

  lemma InLast(shape: seq<Slot>, last: Slot, x: Slot)
    ensures x in shape + [last] <==> x in shape || x == last
  {
  }

  lemma FillWrite(h: Helpers, rs: Records, shape: seq<Slot>, ops: seq<Op>, d: Disk, w: nat)
    requires shape != [] && shape[|shape| - 1] == Write(w) && w < |ops| && Write(w) !in shape[..|shape| - 1]
    requires Filled(h, rs, shape[..|shape| - 1], ops, d)
    ensures Step(h, d, Land(w)).Some? && Filled(h, rs, shape, ops, Step(h, d, Land(w)).value)
  {
    var t := Step(h, d, Land(w)).value;
    forall v | 0 <= v < |ops| ensures t.written[v] <==> Write(v) in shape {
      assert Write(v) in shape <==> v == w || Write(v) in shape[..|shape| - 1];
    }
  }

  /** A schedule of succeeding operations runs, and leaves in the file the snapshot that landed last. */
  lemma {:induction false} FilledRun(h: Helpers, rs: Records, shape: seq<Slot>, ops: seq<Op>)
    requires Ordered(shape) && |ops| == Changes(shape) && Succeed(h, rs, ops)
    ensures Run(h, rs, Fill(shape, ops)).Some?
    ensures Filled(h, rs, shape, ops, Run(h, rs, Fill(shape, ops)).value)
  {
    if shape == [] {
      assert ops == [] && ops[..0] == [];
    } else {
      var (before, step) := (shape[..|shape| - 1], (d: Disk, a: Action) => Step(h, d, a));
      OrderedPrefix(shape);
      match shape[|shape| - 1]
      case Change =>
        var done := ops[..|ops| - 1];
        SucceedPrefix(h, rs, ops);
        FilledRun(h, rs, before, done);
        WritersHaveChanged(before);
        assert Write(|done|) !in before && done[..|done|] == done;
        var d := Run(h, rs, Fill(before, done)).value;
        MutateAppends(h, rs, ops, d);
        FillChange(h, rs, shape, ops, d, Step(h, d, Mutate(ops[|ops| - 1])).value);
        ReplayOneMore(Fresh(rs), step, Fill(before, done), Mutate(ops[|ops| - 1]));
      case Write(w) =>
        FilledRun(h, rs, before, ops);
        assert forall j :: 0 <= j < |before| ==> before[j] == shape[j];
        FillWrite(h, rs, shape, ops, Run(h, rs, Fill(before, ops)).value, w);
        ReplayOneMore(Fresh(rs), step, Fill(before, ops), Land(w));
    }
  }

  lemma {:induction false} WritersHaveChanged(shape: seq<Slot>)
    requires Ordered(shape)
    ensures forall w: nat :: Write(w) in shape ==> w < Changes(shape)
  {
    if shape != [] {
      var before := shape[..|shape| - 1];
      OrderedPrefix(shape);
      WritersHaveChanged(before);
      forall w: nat | Write(w) in shape ensures w < Changes(shape) {
        assert Write(w) in before || shape[|shape| - 1] == Write(w);
      }
    }
  }

  /** All operations succeed, everybody writes, and the file ends up as the store. */
  ghost predicate EndsCurrent(h: Helpers, rs: Records, acts: seq<Action>) {
    var r := Run(h, rs, acts);
    r.Some? && AllWritten(r.value) && r.value.file == r.value.records
  }

  /** Installing one plugin again and again, then removing it. */
  function InstallsThenRemove(pkg: Package, n: nat): seq<Op> {
    seq(n, i => if i == n - 1 then Remove(pkg.manifest.name) else Install(pkg))
  }

  lemma {:induction false} InstallsKeep(h: Helpers, pkg: Package, n: nat, i: nat)
    requires h.validate(pkg) && i < n
    ensures pkg.manifest.name in RunOps(h, map[], InstallsThenRemove(pkg, n)[..i]) <==> i > 0
    ensures RunOps(h, map[], InstallsThenRemove(pkg, n)[..i]).Keys <= {pkg.manifest.name}
  {
    var ops := InstallsThenRemove(pkg, n);
    if i > 0 {
      InstallsKeep(h, pkg, n, i - 1);
      assert ops[..i] == ops[..i - 1] + [ops[i - 1]];
    }
  }

  lemma RemoveEmpties(h: Helpers, pkg: Package, n: nat)
    requires ValidatesNames(h) && h.validate(pkg) && n >= 2
    ensures Succeed(h, map[], InstallsThenRemove(pkg, n))
    ensures RunOps(h, map[], InstallsThenRemove(pkg, n)) == map[]
  {
    var ops := InstallsThenRemove(pkg, n);
    forall i | 0 <= i < n ensures Apply(h, RunOps(h, map[], ops[..i]), ops[i]).Ok? {
      InstallsKeep(h, pkg, n, i);
    }
    InstallsKeep(h, pkg, n, n - 1);
    assert ops == ops[..n - 1] + [ops[n - 1]];
  }

  /** When the file can be trusted: whatever the operations, and however changes and writes
      interleave, the file ends up as the store if and only if the write of the newest snapshot
      lands last. */
  lemma FileIsCurrentExactlyWhenNewestLandsLast(h: Helpers, pkg: Package, shape: seq<Slot>)
    requires ValidatesNames(h) && h.validate(pkg) && Complete(shape)
    ensures LastWrite(shape) == Changes(shape) <==>
            forall rs, ops :: StoreOk(h, rs) && |ops| == Changes(shape) && Succeed(h, rs, ops)
              ==> EndsCurrent(h, rs, Fill(shape, ops))
  {
    var n := Changes(shape);
    forall rs, ops | |ops| == n && Succeed(h, rs, ops)
      ensures LastWrite(shape) == n ==> EndsCurrent(h, rs, Fill(shape, ops))
    {
      FilledRun(h, rs, shape, ops);
    }
    if LastWrite(shape) != n {
      var ops := InstallsThenRemove(pkg, n);
      SomebodyWroteLast(shape);
      RemoveEmpties(h, pkg, n);
      FilledRun(h, map[], shape, ops);
      InstallsKeep(h, pkg, n, LastWrite(shape));
      assert ops[..n] == ops;
      assert !EndsCurrent(h, map[], Fill(shape, ops));
    }
  }

  lemma {:induction false} LastWriteIs(shape: seq<Slot>)
    ensures LastWrite(shape) > 0 ==> Write(LastWrite(shape) - 1) in shape
    ensures LastWrite(shape) == 0 ==> forall w: nat :: Write(w) !in shape
  {
    if shape != [] {
      var (before, last) := (shape[..|shape| - 1], shape[|shape| - 1]);
      assert shape == before + [last];
      LastWriteIs(before);
    }
  }

  /** If the newest snapshot did not land last, an older one did. */
  lemma SomebodyWroteLast(shape: seq<Slot>)
    requires Complete(shape) && LastWrite(shape) != Changes(shape)
    ensures 0 < LastWrite(shape) < Changes(shape)
  {
    assert Changes(shape) > 0 ==> Write(0) in shape;
    WritersHaveChanged(shape);
    LastWriteIs(shape);
  }

  // ---------------------------------------------------------------- all changes first, then all writes

  ghost predicate Permutation(order: seq<nat>) {
    && (forall w :: w in order <==> 0 <= w < |order|)
    && (forall j, k :: 0 <= j < k < |order| ==> order[j] != order[k])
  }

  function Mutations(ops: seq<Op>): seq<Action> {
    seq(|ops|, i requires 0 <= i < |ops| => Mutate(ops[i]))
  }

  function Landings(order: seq<nat>): seq<Action> {
    seq(|order|, i requires 0 <= i < |order| => Land(order[i]))
  }

  function Batch(n: nat, order: seq<nat>): seq<Slot> {
    seq(n, i => Change) + seq(|order|, i requires 0 <= i < |order| => Write(order[i]))
  }

  lemma {:induction false} BatchFills(ops: seq<Op>, order: seq<nat>)
    ensures Changes(Batch(|ops|, order)) == |ops|
    ensures Fill(Batch(|ops|, order), ops) == Mutations(ops) + Landings(order)
  {
    var shape := Batch(|ops|, order);
    if order != [] {
      var before := order[..|order| - 1];
      BatchFills(ops, before);
      assert shape[..|shape| - 1] == Batch(|ops|, before);
      assert Landings(order) == Landings(before) + [Land(order[|order| - 1])];
    } else if ops != [] {
      var before := ops[..|ops| - 1];
      BatchFills(before, []);
      assert shape[..|shape| - 1] == Batch(|before|, []);
      assert Mutations(ops) == Mutations(before) + [Mutate(ops[|ops| - 1])];
    }
  }

  lemma {:induction false} BatchChanges(n: nat, order: seq<nat>)
    ensures Changes(Batch(n, order)) == n
  {
    var shape := Batch(n, order);
    if order != [] {
      assert shape[..|shape| - 1] == Batch(n, order[..|order| - 1]);
      BatchChanges(n, order[..|order| - 1]);
    } else if n > 0 {
      assert shape[..|shape| - 1] == Batch(n - 1, []);
      BatchChanges(n - 1, []);
    }
  }

  lemma BatchIsOrdered(order: seq<nat>)
    requires Permutation(order)
    ensures Ordered(Batch(|order|, order))
  {
    var (n, shape) := (|order|, Batch(|order|, order));
    forall k | 0 <= k < |shape| && shape[k].Write? ensures shape[k].writer < Changes(shape[..k]) {
      var i := k - n;
      assert shape[k] == Write(order[i]) && order[i] in order;
      assert shape[..k] == Batch(n, order[..i]);
      BatchChanges(n, order[..i]);
    }
    forall j, k | 0 <= j < k < |shape| && shape[j].Write? ensures shape[j] != shape[k] {
      assert order[j - n] != order[k - n];
    }
  }

  lemma BatchIsComplete(order: seq<nat>)
    requires Permutation(order) && order != []
    ensures Complete(Batch(|order|, order)) && Changes(Batch(|order|, order)) == |order|
    ensures LastWrite(Batch(|order|, order)) == order[|order| - 1] + 1
  {
    var (n, shape) := (|order|, Batch(|order|, order));
    BatchIsOrdered(order);
    BatchChanges(n, order);
    forall w: nat | w < n ensures Write(w) in shape {
      WritesInBatch(n, order, w);
    }
    LastOfBatch(n, order);
  }

  lemma WritesInBatch(n: nat, order: seq<nat>, w: nat)
    requires w in order
    ensures Write(w) in Batch(n, order)
  {
    var i :| 0 <= i < |order| && order[i] == w;
    assert Batch(n, order)[n + i] == Write(w);
  }

  lemma LastOfBatch(n: nat, order: seq<nat>)
    requires order != []
    ensures LastWrite(Batch(n, order)) == order[|order| - 1] + 1
  {
    var shape := Batch(n, order);
    assert shape[|shape| - 1] == Write(order[|order| - 1]);
  }

  /** In particular, when n operations run first and their writes land afterwards in some order:
      the file is current, whatever the operations, if and only if the last operation's write is
      the last to land. */
  lemma LandingOrderIsSafeExactlyWhenNewestIsLast(h: Helpers, pkg: Package, order: seq<nat>)
    requires ValidatesNames(h) && h.validate(pkg) && Permutation(order) && order != []
    ensures order[|order| - 1] == |order| - 1 <==>
            forall rs, ops :: StoreOk(h, rs) && |ops| == |order| && Succeed(h, rs, ops)
              ==> EndsCurrent(h, rs, Mutations(ops) + Landings(order))
  {
    var shape := Batch(|order|, order);
    BatchIsComplete(order);
    FileIsCurrentExactlyWhenNewestLandsLast(h, pkg, shape);
    forall ops: seq<Op> | |ops| == |order| ensures Fill(shape, ops) == Mutations(ops) + Landings(order) {
      BatchFills(ops, order);
    }
  }

  /** The everyday case: an install and a removal whose writes land in the opposite order leave
      the removed plugin in the file. */
  lemma LateWriteResurrects(h: Helpers, pkg: Package)
    requires ValidatesNames(h) && h.validate(pkg)
    ensures var acts := [Mutate(Install(pkg)), Mutate(Remove(pkg.manifest.name)), Land(1), Land(0)];
            && Run(h, map[], acts).Some? && AllWritten(Run(h, map[], acts).value)
            && Run(h, map[], acts).value.records == map[]
            && pkg.manifest.name in Run(h, map[], acts).value.file
  {
    var (ops, order) := (InstallsThenRemove(pkg, 2), [1, 0]);
    assert ops == [Install(pkg), Remove(pkg.manifest.name)] && ops[..2] == ops;
    assert order[0] == 1 && order[1] == 0;
    assert Mutations(ops) + Landings(order) == [Mutate(ops[0]), Mutate(ops[1]), Land(1), Land(0)];
    BatchIsComplete(order);
    BatchFills(ops, order);
    RemoveEmpties(h, pkg, 2);
    InstallsKeep(h, pkg, 2, 1);
    FilledRun(h, map[], Batch(2, order), ops);
  }
}
