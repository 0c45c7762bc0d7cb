/** The plugin store as a value: its records, what each operation makes of them,
    the invariant of every reachable store and the plain map it implements
    (server/plugin_store.go). */
module PluginRecords {
  import opened Wrappers
  import opened Text
  import opened Plugins

  datatype Record = Record(name: string, activeVersion: string, disabled: bool, versions: seq<Package>)

  type Records = map<string, Record>

  datatype StoreError = InvalidPackage | NameRequired | NotFound | VersionNotFound

  datatype Op =
    | Install(pkg: Package)
    | Remove(name: string)
    | SetEnabled(name: string, enabled: bool)
    | Rollback(name: string, version: string)

  // ---------------------------------------------------------------- one record

  /** The place of a version in the list, or its length. */
  function VersionIndex(versions: seq<Package>, version: string): (i: nat)
    ensures i <= |versions|
    ensures i < |versions| ==> versions[i].manifest.version == version
    ensures forall j :: 0 <= j < i ==> versions[j].manifest.version != version
  {
    if versions == [] || versions[0].manifest.version == version then 0
    else 1 + VersionIndex(versions[1..], version)
  }

  predicate HasVersion(r: Record, version: string) {
    VersionIndex(r.versions, version) < |r.versions|
  }

  function Upsert(versions: seq<Package>, pkg: Package): seq<Package> {
    var i := VersionIndex(versions, pkg.manifest.version);
    if i < |versions| then versions[i := pkg] else versions + [pkg]
  }

  function RecordOf(pkg: Package): Record {
    Record(pkg.manifest.name, pkg.manifest.version, pkg.manifest.disabled, [pkg])
  }

  /** activePluginPackage, with the fallback to the last version. */
  function ActivePackage(r: Record): Option<Package> {
    var i := VersionIndex(r.versions, r.activeVersion);
    if i < |r.versions| then Some(Shown(r.versions[i], r.disabled))
    else if r.versions == [] then None
    else Some(Shown(r.versions[|r.versions| - 1], r.disabled))
  }

  function Shown(pkg: Package, disabled: bool): Package {
    pkg.(manifest := pkg.manifest.(disabled := disabled))
  }

  // ---------------------------------------------------------------- the operations

  function InstallIn(h: Helpers, rs: Records, pkg: Package): Result<Records, StoreError> {
    if !h.validate(pkg) then Err(InvalidPackage)
    else
      var name := pkg.manifest.name;
      Ok(rs[name := if name in rs then Reinstalled(rs[name], pkg) else RecordOf(pkg)])
  }

  /** A new version becomes the active one, and enables the plugin. */
  function Reinstalled(r: Record, pkg: Package): Record {
    r.(versions := Upsert(r.versions, pkg), activeVersion := pkg.manifest.version, disabled := false)
  }

  function RemoveIn(rs: Records, name: string): Result<Records, StoreError> {
    if name == "" then Err(NameRequired) else if name !in rs then Err(NotFound) else Ok(rs - {name})
  }

  function SetEnabledIn(rs: Records, name: string, enabled: bool): Result<Records, StoreError> {
    if name == "" then Err(NameRequired)
    else if name !in rs then Err(NotFound)
    else Ok(rs[name := rs[name].(disabled := !enabled)])
  }

  function RollbackIn(rs: Records, name: string, version: string): Result<Records, StoreError> {
    if name == "" || version == "" then Err(NameRequired)
    else if name !in rs then Err(NotFound)
    else if !HasVersion(rs[name], version) then Err(VersionNotFound)
    else Ok(rs[name := rs[name].(activeVersion := version, disabled := false)])
  }

  function Apply(h: Helpers, rs: Records, op: Op): Result<Records, StoreError> {
    match op
    case Install(pkg) => InstallIn(h, rs, pkg)
    case Remove(name) => RemoveIn(rs, TrimSpace(name))
    case SetEnabled(name, enabled) => SetEnabledIn(rs, TrimSpace(name), enabled)
    case Rollback(name, version) => RollbackIn(rs, TrimSpace(name), TrimSpace(version))
  }

  /** A failing operation leaves the store as it was. */
  function After(h: Helpers, rs: Records, op: Op): Records {
    var r := Apply(h, rs, op);
    if r.Ok? then r.value else rs
  }

  function RunOps(h: Helpers, rs: Records, ops: seq<Op>): Records {
    if ops == [] then rs else After(h, RunOps(h, rs, ops[..|ops| - 1]), ops[|ops| - 1])
  }

  // ---------------------------------------------------------------- the invariant

  predicate DistinctVersions(versions: seq<Package>) {
    forall i, j :: 0 <= i < j < |versions| ==> versions[i].manifest.version != versions[j].manifest.version
  }

  /** What every stored record satisfies, whatever file it came from. */
  predicate RecordOk(h: Helpers, name: string, r: Record) {
    && r.name == name && name != "" && TrimSpace(name) == name
    && r.versions != [] && HasVersion(r, r.activeVersion)
    && forall i :: 0 <= i < |r.versions| ==> h.validate(r.versions[i]) && r.versions[i].manifest.name == name
  }

  predicate StoreOk(h: Helpers, rs: Records) {
    forall k {:trigger RecordOk(h, k, rs[k])} :: k in rs ==> RecordOk(h, k, rs[k])
  }

  predicate StoreDistinct(rs: Records) {
    forall k :: k in rs ==> DistinctVersions(rs[k].versions)
  }

  lemma {:induction false} VersionIndexIs(versions: seq<Package>, version: string, i: nat)
    requires i <= |versions| && (i < |versions| ==> versions[i].manifest.version == version)
    requires forall j :: 0 <= j < i ==> versions[j].manifest.version != version
    ensures VersionIndex(versions, version) == i
  {
    if i > 0 {
      VersionIndexIs(versions[1..], version, i - 1);
    }
  }

  lemma VersionPresent(versions: seq<Package>, i: nat)
    requires i < |versions|
    ensures VersionIndex(versions, versions[i].manifest.version) <= i
  {
  }

  lemma UpsertKeepsRecord(h: Helpers, r: Record, pkg: Package)
    requires RecordOk(h, pkg.manifest.name, r) && h.validate(pkg)
    ensures RecordOk(h, pkg.manifest.name, Reinstalled(r, pkg))
    ensures DistinctVersions(r.versions) ==> DistinctVersions(Upsert(r.versions, pkg))
  {
    var vs := Upsert(r.versions, pkg);
    var i := VersionIndex(r.versions, pkg.manifest.version);
    VersionIndexIs(vs, pkg.manifest.version, i);
  }

  lemma InstallKeepsStore(h: Helpers, rs: Records, pkg: Package)
    requires ValidatesNames(h) && StoreOk(h, rs) && h.validate(pkg)
    ensures var t := InstallIn(h, rs, pkg).value; StoreOk(h, t) && (StoreDistinct(rs) ==> StoreDistinct(t))
  {
    var name := pkg.manifest.name;
    var t := InstallIn(h, rs, pkg).value;
    if name in rs {
      UpsertKeepsRecord(h, rs[name], pkg);
    } else {
      VersionIndexIs([pkg], pkg.manifest.version, 0);
    }
    assert RecordOk(h, name, t[name]);
  }

  lemma RecordKept(h: Helpers, name: string, r: Record, active: string, disabled: bool)
    requires RecordOk(h, name, r) && HasVersion(r, active)
    ensures RecordOk(h, name, r.(activeVersion := active, disabled := disabled))
  {
  }

  /** Every operation keeps a well-formed store well formed, and keeps versions distinct. */
  lemma ApplyKeepsStore(h: Helpers, rs: Records, op: Op)
    requires ValidatesNames(h) && StoreOk(h, rs)
    ensures StoreOk(h, After(h, rs, op))
    ensures StoreDistinct(rs) ==> StoreDistinct(After(h, rs, op))
  {
    match op
    case Install(pkg) => if h.validate(pkg) { InstallKeepsStore(h, rs, pkg); }
    case Remove(n) => assert forall k :: k in After(h, rs, op) ==> k in rs && After(h, rs, op)[k] == rs[k];
    case SetEnabled(n, enabled) =>
      var name := TrimSpace(n);
      if name in rs { assert RecordOk(h, name, rs[name]); }
      ChangeKeepsStore(h, rs, After(h, rs, op), name);
    case Rollback(n, v) => ChangeKeepsStore(h, rs, After(h, rs, op), TrimSpace(n));
  }

  /** Changing only the active version (to one that exists) and the flag of one record is harmless. */
  lemma ChangeKeepsStore(h: Helpers, rs: Records, t: Records, name: string)
    requires StoreOk(h, rs)
    requires t != rs ==> name in rs
    requires t != rs ==> exists a, d :: HasVersion(rs[name], a)
                                        && t == rs[name := rs[name].(activeVersion := a, disabled := d)]
    ensures StoreOk(h, t) && (StoreDistinct(rs) ==> StoreDistinct(t))
  {
    if t != rs {
      var a, d :| HasVersion(rs[name], a) && t == rs[name := rs[name].(activeVersion := a, disabled := d)];
      RecordKept(h, name, rs[name], a, d);
    }
  }

  lemma RollbackKeepsStore(h: Helpers, rs: Records, name: string, version: string)
    requires StoreOk(h, rs) && RollbackIn(rs, name, version).Ok?
    ensures StoreOk(h, RollbackIn(rs, name, version).value)
  {
    ChangeKeepsStore(h, rs, RollbackIn(rs, name, version).value, name);
  }

  lemma {:induction false} RunKeepsStore(h: Helpers, rs: Records, ops: seq<Op>)
    requires ValidatesNames(h) && StoreOk(h, rs)
    ensures StoreOk(h, RunOps(h, rs, ops))
    ensures StoreDistinct(rs) ==> StoreDistinct(RunOps(h, rs, ops))
  {
    if ops != [] {
      RunKeepsStore(h, rs, ops[..|ops| - 1]);
      ApplyKeepsStore(h, RunOps(h, rs, ops[..|ops| - 1]), ops[|ops| - 1]);
    }
  }

  /** In a well-formed store the active version is always there, so the fallback of
      activePluginPackage is never taken. */
  lemma ActiveIsStored(h: Helpers, rs: Records, name: string)
    requires StoreOk(h, rs) && name in rs
    ensures ActivePackage(rs[name]).Some? && IsActiveOf(rs[name], ActivePackage(rs[name]).value)
  {
    assert RecordOk(h, name, rs[name]);
    var i := VersionIndex(rs[name].versions, rs[name].activeVersion);
    assert rs[name].versions[i].manifest.version == rs[name].activeVersion;
  }

  /** p has the files and the manifest of the (first) version that the record has active, but for
      the flag, which is the record's. */
  ghost predicate IsActiveOf(r: Record, p: Package) {
    exists i :: 0 <= i < |r.versions|
      && r.versions[i].manifest.version == r.activeVersion
      && (forall j :: 0 <= j < i ==> r.versions[j].manifest.version != r.activeVersion)
      && p.files == r.versions[i].files && p.manifest == r.versions[i].manifest.(disabled := r.disabled)
  }

  // ---------------------------------------------------------------- the map it implements

  /** One plugin, seen as a map from versions to packages. */
  datatype Plugin = Plugin(packages: map<string, Package>, active: string, disabled: bool)

  function PackagesOf(versions: seq<Package>): map<string, Package> {
    map i | 0 <= i < |versions| && VersionIndex(versions, versions[i].manifest.version) == i
        :: versions[i].manifest.version := versions[i]
  }

  function PluginOf(r: Record): Plugin {
    Plugin(PackagesOf(r.versions), r.activeVersion, r.disabled)
  }

  function Abstract(rs: Records): Catalog {
    map k | k in rs :: PluginOf(rs[k])
  }

  type Catalog = map<string, Plugin>

  /** The operations on the plain map. */
  function CatalogInstall(h: Helpers, ps: Catalog, pkg: Package): Result<Catalog, StoreError> {
    if !h.validate(pkg) then Err(InvalidPackage)
    else
      var (name, version) := (pkg.manifest.name, pkg.manifest.version);
      Ok(ps[name := if name in ps then Plugin(ps[name].packages[version := pkg], version, false)
                    else Plugin(map[version := pkg], version, pkg.manifest.disabled)])
  }

  function CatalogRemove(ps: Catalog, name: string): Result<Catalog, StoreError> {
    if name == "" then Err(NameRequired) else if name !in ps then Err(NotFound) else Ok(ps - {name})
  }

  function CatalogSetEnabled(ps: Catalog, name: string, enabled: bool): Result<Catalog, StoreError> {
    if name == "" then Err(NameRequired)
    else if name !in ps then Err(NotFound)
    else Ok(ps[name := ps[name].(disabled := !enabled)])
  }

  function CatalogRollback(ps: Catalog, name: string, version: string): Result<Catalog, StoreError> {
    if name == "" || version == "" then Err(NameRequired)
    else if name !in ps then Err(NotFound)
    else if version !in ps[name].packages then Err(VersionNotFound)
    else Ok(ps[name := ps[name].(active := version, disabled := false)])
  }

  function CatalogApply(h: Helpers, ps: Catalog, op: Op): Result<Catalog, StoreError> {
    match op
    case Install(pkg) => CatalogInstall(h, ps, pkg)
    case Remove(name) => CatalogRemove(ps, TrimSpace(name))
    case SetEnabled(name, enabled) => CatalogSetEnabled(ps, TrimSpace(name), enabled)
    case Rollback(name, version) => CatalogRollback(ps, TrimSpace(name), TrimSpace(version))
  }

  /** The concrete result and the plain one are the same error or the same contents. */
  predicate Agree(c: Result<Records, StoreError>, a: Result<Catalog, StoreError>) {
    match c case Err(e) => a == Err(e) case Ok(rs) => a == Ok(Abstract(rs))
  }

  lemma PackagesOfLooksUp(versions: seq<Package>, version: string)
    ensures version in PackagesOf(versions) <==> VersionIndex(versions, version) < |versions|
    ensures VersionIndex(versions, version) < |versions| ==>
              PackagesOf(versions)[version] == versions[VersionIndex(versions, version)]
  {
    var i := VersionIndex(versions, version);
    if i < |versions| {
      assert VersionIndex(versions, versions[i].manifest.version) == i;
    }
  }

  lemma UpsertIsMapUpdate(versions: seq<Package>, pkg: Package)
    ensures PackagesOf(Upsert(versions, pkg)) == PackagesOf(versions)[pkg.manifest.version := pkg]
  {
    var version := pkg.manifest.version;
    var vs := Upsert(versions, pkg);
    var i := VersionIndex(versions, version);
    forall v
      ensures v in PackagesOf(vs) <==> v == version || v in PackagesOf(versions)
      ensures v in PackagesOf(vs) ==> PackagesOf(vs)[v] == (if v == version then pkg else PackagesOf(versions)[v])
    {
      PackagesOfLooksUp(versions, v);
      PackagesOfLooksUp(vs, v);
      if v == version {
        VersionIndexIs(vs, v, i);
      } else {
        var k := VersionIndex(versions, v);
        VersionIndexIs(vs, v, if k == |versions| then |vs| else k);
      }
    }
  }

  lemma InstallRefines(h: Helpers, rs: Records, pkg: Package)
    ensures Agree(InstallIn(h, rs, pkg), CatalogInstall(h, Abstract(rs), pkg))
  {
    if h.validate(pkg) {
      var name := pkg.manifest.name;
      var r := if name in rs then Reinstalled(rs[name], pkg) else RecordOf(pkg);
      if name in rs {
        UpsertIsMapUpdate(rs[name].versions, pkg);
      } else {
        OneVersion(pkg);
      }
      UpdateIsUpdate(rs, name, r);
    }
  }

  lemma OneVersion(pkg: Package)
    ensures PluginOf(RecordOf(pkg))
         == Plugin(map[pkg.manifest.version := pkg], pkg.manifest.version, pkg.manifest.disabled)
  {
    UpsertIsMapUpdate([], pkg);
    assert PackagesOf([]) == map[];
    assert Upsert([], pkg) == [pkg];
  }

  lemma UpdateIsUpdate(rs: Records, name: string, r: Record)
    ensures Abstract(rs[name := r]) == Abstract(rs)[name := PluginOf(r)]
  {
  }

  lemma RollbackRefines(rs: Records, name: string, version: string)
    ensures Agree(RollbackIn(rs, name, version), CatalogRollback(Abstract(rs), name, version))
  {
    if name in rs {
      PackagesOfLooksUp(rs[name].versions, version);
      assert Abstract(rs[name := rs[name].(activeVersion := version, disabled := false)])
          == Abstract(rs)[name := Abstract(rs)[name].(active := version, disabled := false)];
    }
  }

  lemma FlagRefines(rs: Records, name: string, enabled: bool)
    ensures Agree(SetEnabledIn(rs, name, enabled), CatalogSetEnabled(Abstract(rs), name, enabled))
    ensures Agree(RemoveIn(rs, name), CatalogRemove(Abstract(rs), name))
  {
    assert Abstract(rs - {name}) == Abstract(rs) - {name};
    if name in rs {
      assert Abstract(rs[name := rs[name].(disabled := !enabled)])
          == Abstract(rs)[name := Abstract(rs)[name].(disabled := !enabled)];
    }
  }

  /** The list-and-pointer store refines the plain map, errors included. */
  lemma ApplyRefines(h: Helpers, rs: Records, op: Op)
    ensures Agree(Apply(h, rs, op), CatalogApply(h, Abstract(rs), op))
  {
    match op
    case Install(pkg) => InstallRefines(h, rs, pkg);
    case Remove(name) => FlagRefines(rs, TrimSpace(name), true);
    case SetEnabled(name, enabled) => FlagRefines(rs, TrimSpace(name), enabled);
    case Rollback(name, version) => RollbackRefines(rs, TrimSpace(name), TrimSpace(version));
  }

  // ---------------------------------------------------------------- what a history leaves in the store

  /** The package of the last successful install of (name, version) since the last removal of name. */
  function LastInstalled(h: Helpers, ops: seq<Op>, name: string, version: string): Option<Package> {
    if ops == [] then None
    else
      var (before, op) := (ops[..|ops| - 1], ops[|ops| - 1]);
      match op
      case Install(pkg) =>
        if h.validate(pkg) && pkg.manifest.name == name && pkg.manifest.version == version then Some(pkg)
        else LastInstalled(h, before, name, version)
      case Remove(n) => if TrimSpace(n) == name then None else LastInstalled(h, before, name, version)
      case _ => LastInstalled(h, before, name, version)
  }

  function Stored(rs: Records, name: string, version: string): Option<Package> {
    if name in rs && HasVersion(rs[name], version)
    then Some(rs[name].versions[VersionIndex(rs[name].versions, version)]) else None
  }

  function Listed(ps: Catalog, name: string, version: string): Option<Package> {
    if name in ps && version in ps[name].packages then Some(ps[name].packages[version]) else None
  }

  lemma StoredIsListed(rs: Records, name: string, version: string)
    ensures Stored(rs, name, version) == Listed(Abstract(rs), name, version)
  {
    if name in rs {
      PackagesOfLooksUp(rs[name].versions, version);
    }
  }

  function CatalogAfter(h: Helpers, ps: Catalog, op: Op): Catalog {
    var r := CatalogApply(h, ps, op);
    if r.Ok? then r.value else ps
  }

  function CatalogRun(h: Helpers, ops: seq<Op>): Catalog {
    if ops == [] then map[] else CatalogAfter(h, CatalogRun(h, ops[..|ops| - 1]), ops[|ops| - 1])
  }

  lemma {:induction false} ListedIsLastInstalled(h: Helpers, ops: seq<Op>, name: string, version: string)
    requires name != ""
    ensures Listed(CatalogRun(h, ops), name, version) == LastInstalled(h, ops, name, version)
  {
    if ops != [] {
      var (before, op) := (ops[..|ops| - 1], ops[|ops| - 1]);
      ListedIsLastInstalled(h, before, name, version);
      var ps := CatalogRun(h, before);
      match op
      case Install(pkg) =>
      case Remove(n) => var m := TrimSpace(n);
      case SetEnabled(n, _) => var m := TrimSpace(n);
      case Rollback(n, _) => var m := TrimSpace(n);
    }
  }

  /** The main result: after any operations from the empty store, records are well formed with
      distinct versions, and the store is the plain map that the same operations produce. */
  lemma {:induction false} StoreImplementsMap(h: Helpers, ops: seq<Op>)
    requires ValidatesNames(h)
    ensures var rs := RunOps(h, map[], ops);
            StoreOk(h, rs) && StoreDistinct(rs) && Abstract(rs) == CatalogRun(h, ops)
  {
    RunKeepsStore(h, map[], ops);
    if ops != [] {
      StoreImplementsMap(h, ops[..|ops| - 1]);
      ApplyRefines(h, RunOps(h, map[], ops[..|ops| - 1]), ops[|ops| - 1]);
    } else {
      assert Abstract(map[]) == map[];
    }
  }

  /** Over every sequence of operations from the empty store, upserts and rollbacks included,
      the package stored for a name and version is the last one installed since the last removal. */
  lemma StoredIsLastInstalled(h: Helpers, ops: seq<Op>, name: string, version: string)
    requires ValidatesNames(h) && name != ""
    ensures Stored(RunOps(h, map[], ops), name, version) == LastInstalled(h, ops, name, version)
  {
    StoreImplementsMap(h, ops);
    StoredIsListed(RunOps(h, map[], ops), name, version);
    ListedIsLastInstalled(h, ops, name, version);
  }

  /** What a history leaves as a plugin's active version and flag, if it leaves the plugin. */
  function LastPointer(h: Helpers, ops: seq<Op>, name: string): Option<(string, bool)> {
    if ops == [] then None
    else
      var (before, op) := (ops[..|ops| - 1], ops[|ops| - 1]);
      var was := LastPointer(h, before, name);
      match op
      case Install(pkg) =>
        if !h.validate(pkg) || pkg.manifest.name != name then was
        else if was.None? then Some((pkg.manifest.version, pkg.manifest.disabled))
        else Some((pkg.manifest.version, false))
      case Remove(n) => if TrimSpace(n) == name then None else was
      case SetEnabled(n, enabled) =>
        if TrimSpace(n) == name && was.Some? then Some((was.value.0, !enabled)) else was
      case Rollback(n, v) =>
        var version := TrimSpace(v);
        if TrimSpace(n) == name && version != "" && LastInstalled(h, before, name, version).Some?
        then Some((version, false)) else was
  }

  /** The active version is the one last installed or rolled back to; the flag is what enabling and
      disabling last set, cleared by a reinstall or a rollback, and at first the manifest's. */
  lemma {:induction false} PointerFollowsHistory(h: Helpers, ops: seq<Op>, name: string)
    requires ValidatesNames(h) && name != ""
    ensures var rs := RunOps(h, map[], ops);
            LastPointer(h, ops, name) == if name in rs then Some((rs[name].activeVersion, rs[name].disabled)) else None
  {
    if ops != [] {
      var (before, op) := (ops[..|ops| - 1], ops[|ops| - 1]);
      PointerFollowsHistory(h, before, name);
      if op.Rollback? {
        StoredIsLastInstalled(h, before, name, TrimSpace(op.version));
      }
    }
  }

  /** What a history leaves as a plugin's active package: the last one installed under the active
      version, files and manifest, but for the flag, which is the record's. */
  lemma ActiveIsLastInstalled(h: Helpers, ops: seq<Op>, name: string, p: Package)
    requires ValidatesNames(h) && name in RunOps(h, map[], ops) && IsActiveOf(RunOps(h, map[], ops)[name], p)
    ensures var r := RunOps(h, map[], ops)[name];
            var last := LastInstalled(h, ops, name, r.activeVersion);
            && LastPointer(h, ops, name) == Some((r.activeVersion, r.disabled))
            && last.Some? && p.files == last.value.files
            && p.manifest == last.value.manifest.(disabled := r.disabled)
            && p.manifest.name == name && p.manifest.version == r.activeVersion
  {
    var rs := RunOps(h, map[], ops);
    RunKeepsStore(h, map[], ops);
    assert RecordOk(h, name, rs[name]);
    PointerFollowsHistory(h, ops, name);
    StoredIsLastInstalled(h, ops, name, rs[name].activeVersion);
    var i :| 0 <= i < |rs[name].versions| && rs[name].versions[i].manifest.version == rs[name].activeVersion
             && (forall j :: 0 <= j < i ==> rs[name].versions[j].manifest.version != rs[name].activeVersion)
             && p.files == rs[name].versions[i].files
             && p.manifest == rs[name].versions[i].manifest.(disabled := rs[name].disabled);
    VersionIndexIs(rs[name].versions, rs[name].activeVersion, i);
  }
}
