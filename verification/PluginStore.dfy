/** The plugin store object: a map of mutable records (server/plugin_store.go). */
module PluginStore {
  import opened Wrappers
  import opened Text
  import opened Plugins
  import opened PluginRecords
  import opened PluginFiles

  function ManifestName(m: Manifest): string {
    m.name
  }

  predicate Exposes(p: Package, command: string) {
    exists i :: 0 <= i < |p.manifest.commands| && p.manifest.commands[i].name == command
  }

  /** p is what an enabled plugin of the store has active, and it exposes the command. */
  predicate Offers(rs: Records, name: string, p: Package, command: string) {
    name in rs && !rs[name].disabled && ActivePackage(rs[name]) == Some(p) && Exposes(p, command)
  }

  /** In a well-formed store what is offered is the stored package of the active version. */
  lemma OffersTheActive(h: Helpers, rs: Records, name: string, p: Package, command: string)
    requires StoreOk(h, rs)
    ensures Offers(rs, name, p, command) <==>
            name in rs && !rs[name].disabled && IsActiveOf(rs[name], p) && Exposes(p, command)
  {
    if name in rs {
      ActiveIsStored(h, rs, name);
    }
  }

  /** p is the stored package, files included, of an enabled plugin's active version, and exposes the command. */
  ghost predicate FoundIn(rs: Records, p: Package, command: string) {
    exists name :: name in rs && Offers(rs, name, p, command) && IsActiveOf(rs[name], p)
  }

  lemma OfferFound(h: Helpers, rs: Records, name: string, p: Package, command: string)
    requires StoreOk(h, rs) && Offers(rs, name, p, command)
    ensures FoundIn(rs, p, command) && Offered(rs, command)
  {
    OffersTheActive(h, rs, name, p, command);
  }

  ghost predicate Offered(rs: Records, command: string) {
    exists name, p :: Offers(rs, name, p, command)
  }

  /** The records of `done`, collected in some order, each once. */
  ghost predicate Collected(rs: Records, done: set<string>, found: seq<Record>) {
    && done <= rs.Keys
    && (forall r :: r in found <==> exists k :: k in done && rs[k] == r)
    && (forall i, j :: 0 <= i < j < |found| ==> RecordName(found[i]) != RecordName(found[j]))
  }

  lemma CollectOne(h: Helpers, rs: Records, done: set<string>, found: seq<Record>, k: string)
    requires StoreOk(h, rs) && Collected(rs, done, found) && k in rs && k !in done
    ensures Collected(rs, done + {k}, found + [rs[k]])
  {
    assert RecordOk(h, k, rs[k]);
    forall i | 0 <= i < |found| ensures RecordName(found[i]) != RecordName(rs[k]) {
      assert found[i] in found;
      var l :| l in done && rs[l] == found[i];
      assert RecordOk(h, l, rs[l]);
    }
    forall r ensures r in found + [rs[k]] <==> exists l :: l in done + {k} && rs[l] == r {
      if r in found {
        var l :| l in done && rs[l] == r;
        assert l in done + {k};
      } else if r == rs[k] {
        assert k in done + {k};
      }
    }
  }

  lemma CollectedSorts(rs: Records, found: seq<Record>)
    requires Collected(rs, rs.Keys, found)
    ensures IsSnapshot(rs, SortBy(RecordName, found))
  {
    SortByDistinct(RecordName, found);
    forall r ensures r in SortBy(RecordName, found) <==> r in rs.Values {
      assert r in SortBy(RecordName, found) <==> r in found;
      if r in rs.Values {
        var k :| k in rs && rs[k] == r;
      }
    }
  }

  /** What the list shows of one record. */
  function ShownManifest(r: Record): Manifest
    requires ActivePackage(r).Some?
  {
    ActivePackage(r).value.manifest
  }

  ghost predicate Manifests(rs: Records, done: set<string>, found: seq<Manifest>) {
    && done <= rs.Keys && (forall k :: k in done ==> ActivePackage(rs[k]).Some?)
    && (forall m :: m in found <==> exists k :: k in done && ShownManifest(rs[k]) == m)
    && (forall i, j :: 0 <= i < j < |found| ==> ManifestName(found[i]) != ManifestName(found[j]))
  }

  lemma ManifestOne(h: Helpers, rs: Records, done: set<string>, found: seq<Manifest>, k: string)
    requires StoreOk(h, rs) && Manifests(rs, done, found) && k in rs && k !in done
    ensures ActivePackage(rs[k]).Some?
    ensures Manifests(rs, done + {k}, found + [ShownManifest(rs[k])])
  {
    ActiveIsStored(h, rs, k);
    var m := ShownManifest(rs[k]);
    assert RecordOk(h, k, rs[k]) && m.name == k;
    forall i | 0 <= i < |found| ensures ManifestName(found[i]) != k {
      assert found[i] in found;
      var l :| l in done && ShownManifest(rs[l]) == found[i];
      ActiveIsStored(h, rs, l);
      assert RecordOk(h, l, rs[l]);
    }
    forall n ensures n in found + [m] <==> exists l :: l in done + {k} && ShownManifest(rs[l]) == n {
      if n in found {
        var l :| l in done && ShownManifest(rs[l]) == n;
        assert l in done + {k};
      } else if n == m {
        assert k in done + {k};
      }
    }
  }

  /** The active manifest of every plugin, in name order. */
  ghost predicate IsListing(rs: Records, plugins: seq<Manifest>) {
    && StrictlySortedBy(ManifestName, plugins)
    && (forall k :: k in rs ==> ActivePackage(rs[k]).Some?)
    && (forall m :: m in plugins <==> exists k :: k in rs && ShownManifest(rs[k]) == m)
  }

  lemma ManifestsSort(rs: Records, found: seq<Manifest>)
    requires Manifests(rs, rs.Keys, found)
    ensures IsListing(rs, SortBy(ManifestName, found))
  {
    SortByDistinct(ManifestName, found);
    forall m ensures m in SortBy(ManifestName, found) <==> exists k :: k in rs && ShownManifest(rs[k]) == m {
      assert m in SortBy(ManifestName, found) <==> m in found;
      if m in found {
        var k :| k in rs.Keys && ShownManifest(rs[k]) == m;
        assert k in rs;
      }
    }
  }

  class PluginRecord {
    var name: string
    var activeVersion: string
    var disabled: bool
    var versions: seq<Package>

    function Value(): Record
      reads this
    {
      Record(name, activeVersion, disabled, versions)
    }

    constructor (r: Record)
      ensures Value() == r
    {
      name, activeVersion, disabled, versions := r.name, r.activeVersion, r.disabled, r.versions;
    }

    /** Overwrites the package of the same version, or appends. */
    method UpsertVersion(pkg: Package)
      modifies this`versions
      ensures versions == Upsert(old(versions), pkg)
      ensures pkg in versions
      ensures if exists i :: 0 <= i < |old(versions)| && old(versions)[i].manifest.version == pkg.manifest.version
              then |versions| == |old(versions)| && forall i :: 0 <= i < |versions| ==>
                     versions[i] == old(versions)[i]
                     || (versions[i] == pkg && old(versions)[i].manifest.version == pkg.manifest.version)
              else versions == old(versions) + [pkg]
    {
      var i := 0;
      while i < |versions|
        invariant i <= |versions| && versions == old(versions)
        invariant forall j :: 0 <= j < i ==> versions[j].manifest.version != pkg.manifest.version
      {
        if versions[i].manifest.version == pkg.manifest.version {
          versions := versions[i := pkg];
          VersionIndexIs(old(versions), pkg.manifest.version, i);
          assert versions[i] == pkg && old(versions)[i].manifest.version == pkg.manifest.version;
          return;
        }
        i := i + 1;
      }
      VersionIndexIs(old(versions), pkg.manifest.version, |versions|);
      versions := versions + [pkg];
    }

    /** normalizePluginRecord: checks every version and repairs the active pointer. */
    method NormalizeRecord(h: Helpers) returns (error: Option<LoadError>)
      modifies this`name, this`activeVersion
      ensures match Normalize(h, old(Value()))
              case Err(e) => error == Some(e)
              case Ok(r) => error.None? && Value() == r
    {
      name := TrimSpace(name);
      if name == "" {
        return Some(NameMissing);
      }
      if |versions| == 0 {
        return Some(NoVersions(name));
      }
      var i := 0;
      while i < |versions|
        invariant i <= |versions|
        invariant CheckVersions(h, name, versions[i..]) == CheckVersions(h, name, versions)
      {
        assert versions[i..][1..] == versions[i + 1..];
        if !h.validate(versions[i]) {
          return Some(LoadError.InvalidVersion);
        }
        if versions[i].manifest.name != name {
          return Some(WrongName(versions[i].manifest.name));
        }
        i := i + 1;
      }
      var found := HasVersionNamed(activeVersion);
      if TrimSpace(activeVersion) == "" || !found {
        activeVersion := versions[|versions| - 1].manifest.version;
      }
      return None;
    }

    method HasVersionNamed(version: string) returns (found: bool)
      ensures found == HasVersion(Value(), version)
    {
      var i := 0;
      while i < |versions|
        invariant i <= |versions|
        invariant forall j :: 0 <= j < i ==> versions[j].manifest.version != version
      {
        if versions[i].manifest.version == version {
          VersionIndexIs(versions, version, i);
          return true;
        }
        i := i + 1;
      }
      VersionIndexIs(versions, version, |versions|);
      return false;
    }

    /** The body of findCommand's loop: the active package, if the plugin is enabled and it exposes
        the command. */
    method FindHere(command: string) returns (found: Option<Package>)
      ensures found.Some? ==> !disabled && found == ActivePackage(Value()) && Exposes(found.value, command)
      ensures found.None? ==>
                disabled || ActivePackage(Value()).None? || !Exposes(ActivePackage(Value()).value, command)
    {
      if disabled {
        return None;
      }
      var pkg := ActivePluginPackage();
      if pkg.None? {
        return None;
      }
      var i := 0;
      while i < |pkg.value.manifest.commands|
        invariant i <= |pkg.value.manifest.commands|
        invariant forall j :: 0 <= j < i ==> pkg.value.manifest.commands[j].name != command
      {
        if pkg.value.manifest.commands[i].name == command {
          return pkg;
        }
        i := i + 1;
      }
      return None;
    }

    method ActivePluginPackage() returns (pkg: Option<Package>)
      ensures pkg == ActivePackage(Value())
      ensures pkg.None? <==> versions == []
      ensures pkg.Some? && (exists i :: 0 <= i < |versions| && versions[i].manifest.version == activeVersion) ==>
                IsActiveOf(Value(), pkg.value)
      ensures pkg.Some? && (forall i :: 0 <= i < |versions| ==> versions[i].manifest.version != activeVersion) ==>
                var last := versions[|versions| - 1];
                pkg.value.files == last.files && pkg.value.manifest == last.manifest.(disabled := disabled)
    {
      var i := 0;
      while i < |versions|
        invariant i <= |versions|
        invariant forall j :: 0 <= j < i ==> versions[j].manifest.version != activeVersion
      {
        if versions[i].manifest.version == activeVersion {
          VersionIndexIs(versions, activeVersion, i);
          return Some(Shown(versions[i], disabled));
        }
        i := i + 1;
      }
      VersionIndexIs(versions, activeVersion, |versions|);
      if |versions| == 0 {
        return None;
      }
      return Some(Shown(versions[|versions| - 1], disabled));
    }
  }

  class Store {
    const h: Helpers
    var records: map<string, PluginRecord>

    function View(): Records
      reads this, records.Values
    {
      map k | k in records :: records[k].Value()
    }

    /** No record object serves two names. */
    ghost predicate Apart()
      reads this
    {
      forall k, l :: k in records && l in records && records[k] == records[l] ==> k == l
    }

    ghost predicate Valid()
      reads this, records.Values
    {
      ValidatesNames(h) && Apart() && StoreOk(h, View())
    }

    constructor (h: Helpers)
      requires ValidatesNames(h)
      ensures Valid() && View() == map[] && this.h == h
    {
      this.h := h;
      records := map[];
    }

    // The critical sections' writes, record by record.

    /** A record object that is not in the table yet is entered under its name. */
    method Enter(record: PluginRecord)
      requires Apart() && record !in records.Values
      modifies this`records
      ensures Apart() && records == old(records)[record.name := record]
      ensures View() == old(View())[record.name := record.Value()]
    {
      records := records[record.name := record];
    }

    method AddNormalized(r: Record) returns (error: Option<LoadError>)
      requires Apart()
      modifies this`records
      ensures Apart() && fresh(records.Values - old(records.Values))
      ensures match Normalize(h, r)
              case Err(e) => error == Some(e)
              case Ok(n) => error.None? && View() == old(View())[n.name := n]
    {
      var record := new PluginRecord(r);
      error := record.NormalizeRecord(h);
      assert View() == old(View());
      if error.None? {
        Enter(record);
      }
    }

    method Put(r: Record)
      requires Apart()
      modifies this`records
      ensures Apart() && View() == old(View())[r.name := r]
      ensures fresh(records.Values - old(records.Values))
    {
      var record := new PluginRecord(r);
      records := records[r.name := record];
    }

    method Reinstall(name: string, pkg: Package)
      requires Apart() && name in records
      modifies records[name]
      ensures Apart() && View() == old(View())[name := Reinstalled(old(View())[name], pkg)]
    {
      var record := records[name];
      record.UpsertVersion(pkg);
      record.activeVersion := pkg.manifest.version;
      record.disabled := false;
    }

    method Change(name: string, active: string, disabled: bool)
      requires Apart() && name in records
      modifies records[name]
      ensures Apart()
      ensures View() == old(View())[name := old(View())[name].(activeVersion := active, disabled := disabled)]
    {
      records[name].activeVersion := active;
      records[name].disabled := disabled;
    }

    /** Makes the directory, if it can be made, and reads the plugin file into a new store; a
        missing file is an empty store. */
    static method Open(h: Helpers, c: Codec, hasDirectory: bool, file: FileRead) returns (r: Result<Store, LoadError>)
      requires ValidatesNames(h)
      ensures !hasDirectory <==> r == Err(NoDirectory)
      ensures hasDirectory ==> match file
              case Missing => r.Ok? && r.value.View() == map[]
              case Unreadable => r == Err(CannotRead)
              case Text(text) => match Load(h, c, text)
                                 case Err(e) => r == Err(e)
                                 case Ok(rs) => r.Ok? && r.value.View() == rs
      ensures r.Ok? ==> fresh(r.value) && r.value.h == h && r.value.Valid()
    {
      if !hasDirectory {
        return Err(NoDirectory);
      }
      var store := new Store(h);
      if file.Unreadable? {
        return Err(CannotRead);
      }
      if file.Text? {
        var records := c.asRecords(file.text);
        var error: Option<LoadError>;
        if records.Some? && |records.value| > 0 && records.value[0].name != "" {
          error := store.LoadRecordList(records.value);
        } else {
          var packages := c.asPackages(file.text);
          if packages.None? {
            return Err(Malformed);
          }
          error := store.LoadPackageList(packages.value);
        }
        LoadFailsOnContents(h, c, file.text);
        if error.Some? {
          return Err(error.value);
        }
        LoadedStoreIsOk(h, c, file.text);
      }
      return Ok(store);
    }

    method LoadRecordList(list: seq<Record>) returns (error: Option<LoadError>)
      requires Apart()
      modifies this`records
      ensures Apart() && fresh(records.Values - old(records.Values))
      ensures match LoadRecords(h, old(View()), list)
              case Err(e) => error == Some(e)
              case Ok(rs) => error.None? && View() == rs
    {
      var i := 0;
      while i < |list|
        invariant i <= |list| && Apart() && fresh(records.Values - old(records.Values))
        invariant LoadRecords(h, View(), list[i..]) == LoadRecords(h, old(View()), list)
      {
        assert list[i..][1..] == list[i + 1..];
        error := AddNormalized(list[i]);
        if error.Some? {
          return;
        }
        i := i + 1;
      }
      return None;
    }

    method LoadPackageList(list: seq<Package>) returns (error: Option<LoadError>)
      requires Apart()
      modifies this`records
      ensures Apart() && fresh(records.Values - old(records.Values))
      ensures match LoadPackages(h, old(View()), list)
              case Err(e) => error == Some(e)
              case Ok(rs) => error.None? && View() == rs
    {
      var i := 0;
      while i < |list|
        invariant i <= |list| && Apart() && fresh(records.Values - old(records.Values))
        invariant LoadPackages(h, View(), list[i..]) == LoadPackages(h, old(View()), list)
      {
        assert list[i..][1..] == list[i + 1..];
        if !h.validate(list[i]) {
          return Some(LoadError.InvalidVersion);
        }
        Put(RecordOf(list[i]));
        i := i + 1;
      }
      return None;
    }

    /** The records are walked in any order, then sorted by name. */
    method SnapshotLocked() returns (snapshot: seq<Record>)
      requires Valid()
      ensures IsSnapshot(View(), snapshot)
    {
      var todo := records.Keys;
      var found: seq<Record> := [];
      ghost var rs := View();
      while todo != {}
        invariant todo <= rs.Keys && Collected(rs, rs.Keys - todo, found)
      {
        var k :| k in todo;
        CollectOne(h, rs, rs.Keys - todo, found, k);
        found := found + [records[k].Value()];
        todo := todo - {k};
        assert rs.Keys - todo == rs.Keys - (todo + {k}) + {k};
      }
      assert rs.Keys - todo == rs.Keys;
      CollectedSorts(rs, found);
      snapshot := SortBy(RecordName, found);
    }

    method Install(pkg: Package) returns (r: Result<seq<Record>, StoreError>)
      requires Valid()
      modifies this`records, records.Values
      ensures Valid() && fresh(records.Values - old(records.Values))
      ensures !h.validate(pkg) ==> r == Err(StoreError.InvalidPackage) && View() == old(View())
      ensures h.validate(pkg) ==>
                View() == InstallIn(h, old(View()), pkg).value && r.Ok? && IsSnapshot(View(), r.value)
    {
      if !h.validate(pkg) {
        return Err(StoreError.InvalidPackage);
      }
      var name := pkg.manifest.name;
      ghost var before := View();
      InstallKeepsStore(h, before, pkg);
      if name !in records {
        Put(RecordOf(pkg));
      } else {
        Reinstall(name, pkg);
      }
      assert View() == before[name := if name in before then Reinstalled(before[name], pkg) else RecordOf(pkg)];
      var snapshot := SnapshotLocked();
      return Ok(snapshot);
    }

    method Remove(untrimmed: string) returns (r: Result<seq<Record>, StoreError>)
      requires Valid()
      modifies this`records
      ensures Valid()
      ensures match RemoveIn(old(View()), TrimSpace(untrimmed))
              case Err(e) => r == Err(e) && View() == old(View())
              case Ok(rs) => View() == rs && r.Ok? && IsSnapshot(rs, r.value)
    {
      var name := TrimSpace(untrimmed);
      if name == "" {
        return Err(NameRequired);
      }
      if name !in records {
        return Err(NotFound);
      }
      ghost var before := View();
      records := records - {name};
      assert View() == before - {name};
      assert StoreOk(h, View()) by {
        forall k | k in View() ensures RecordOk(h, k, View()[k]) {
          assert k in before && View()[k] == before[k];
        }
      }
      var snapshot := SnapshotLocked();
      return Ok(snapshot);
    }

    method SetEnabled(untrimmed: string, enabled: bool) returns (r: Result<seq<Record>, StoreError>)
      requires Valid()
      modifies records.Values
      ensures Valid()
      ensures match SetEnabledIn(old(View()), TrimSpace(untrimmed), enabled)
              case Err(e) => r == Err(e) && View() == old(View())
              case Ok(rs) => View() == rs && r.Ok? && IsSnapshot(rs, r.value)
    {
      var name := TrimSpace(untrimmed);
      if name == "" {
        return Err(NameRequired);
      }
      if name !in records {
        return Err(NotFound);
      }
      ghost var before := View();
      var active := records[name].activeVersion;
      Change(name, active, !enabled);
      assert before[name] in before.Values && HasVersion(before[name], active) by {
        assert RecordOk(h, name, before[name]);
      }
      ChangeKeepsStore(h, before, View(), name);
      var snapshot := SnapshotLocked();
      return Ok(snapshot);
    }

    method Rollback(untrimmed: string, untrimmedVersion: string) returns (r: Result<seq<Record>, StoreError>)
      requires Valid()
      modifies records.Values
      ensures Valid()
      ensures match RollbackIn(old(View()), TrimSpace(untrimmed), TrimSpace(untrimmedVersion))
              case Err(e) => r == Err(e) && View() == old(View())
              case Ok(rs) => View() == rs && r.Ok? && IsSnapshot(rs, r.value)
    {
      var name, version := TrimSpace(untrimmed), TrimSpace(untrimmedVersion);
      if name == "" || version == "" {
        return Err(NameRequired);
      }
      if name !in records {
        return Err(NotFound);
      }
      var found := records[name].HasVersionNamed(version);
      if !found {
        return Err(VersionNotFound);
      }
      ghost var before := View();
      Change(name, version, false);
      assert RollbackIn(before, name, version) == Ok(View());
      RollbackKeepsStore(h, before, name, version);
      var snapshot := SnapshotLocked();
      return Ok(snapshot);
    }

    /** The active manifest of every plugin, in name order. */
    method List() returns (plugins: seq<Manifest>)
      requires Valid()
      ensures IsListing(View(), plugins)
    {
      var todo := records.Keys;
      var found: seq<Manifest> := [];
      ghost var rs := View();
      while todo != {}
        invariant todo <= rs.Keys && Manifests(rs, rs.Keys - todo, found)
      {
        var k :| k in todo;
        ManifestOne(h, rs, rs.Keys - todo, found, k);
        var pkg := records[k].ActivePluginPackage();
        if pkg.Some? {
          found := found + [pkg.value.manifest.(disabled := records[k].disabled)];
        }
        todo := todo - {k};
        assert rs.Keys - todo == rs.Keys - (todo + {k}) + {k};
      }
      assert rs.Keys - todo == rs.Keys;
      ManifestsSort(rs, found);
      plugins := SortBy(ManifestName, found);
    }

    /** The commands of the enabled plugins. */
    method CommandNames() returns (names: seq<string>)
      requires Valid()
      ensures StrictlySortedBy(Self, names)
      ensures forall c :: c in names <==> Offered(View(), c)
    {
      var plugins := List();
      var seen: set<string> := {};
      var found: seq<string> := [];
      for i := 0 to |plugins|
        invariant Distinct(found) && forall c :: c in found <==> c in seen
        invariant forall c :: c in seen <==> NamedBefore(plugins, i, c)
      {
        ghost var before := seen;
        if !plugins[i].disabled {
          var names := Plugins.CommandNames(plugins[i]);
          for j := 0 to |names|
            invariant Distinct(found) && forall c :: c in found <==> c in seen
            invariant forall c :: c in seen <==> c in before || c in names[..j]
          {
            if names[j] !in seen {
              seen := seen + {names[j]};
              found := found + [names[j]];
            }
          }
          assert names[..|names|] == names;
        }
        NamedBeforeStep(plugins, i, before, seen);
      }
      NamesAreOffered(View(), plugins);
      SortByDistinct(Self, found);
      names := SortBy(Self, found);
      forall c ensures c in names <==> Offered(View(), c) {
        assert c in names <==> c in found;
      }
    }

    /** The records are searched in any order. */
    method FindCommand(command: string) returns (r: Option<Package>)
      requires Valid()
      ensures r.Some? <==> Offered(View(), command)
      ensures r.Some? ==> FoundIn(View(), r.value, command)
    {
      var todo := records.Keys;
      ghost var rs := View();
      while todo != {}
        invariant todo <= rs.Keys
        invariant forall name, p :: Offers(rs, name, p, command) ==> name in todo
      {
        var k :| k in todo;
        todo := todo - {k};
        var pkg := records[k].FindHere(command);
        if pkg.Some? {
          OfferFound(h, rs, k, pkg.value, command);
          return pkg;
        }
      }
      return None;
    }
  }

  predicate Distinct(xs: seq<string>) {
    forall i, j :: 0 <= i < j < |xs| ==> xs[i] != xs[j]
  }

  /** c is a command of an enabled plugin among the first n. */
  ghost predicate NamedBefore(plugins: seq<Manifest>, n: nat, c: string)
    requires n <= |plugins|
  {
    exists i :: 0 <= i < n && !plugins[i].disabled && c in Plugins.CommandNames(plugins[i])
  }

  lemma NamedBeforeStep(plugins: seq<Manifest>, n: nat, before: set<string>, seen: set<string>)
    requires n < |plugins|
    requires forall c :: c in before <==> NamedBefore(plugins, n, c)
    requires forall c :: c in seen <==> c in before || (!plugins[n].disabled && c in Plugins.CommandNames(plugins[n]))
    ensures forall c :: c in seen <==> NamedBefore(plugins, n + 1, c)
  {
    forall c ensures c in seen <==> NamedBefore(plugins, n + 1, c) {
      if NamedBefore(plugins, n, c) {
        var i :| 0 <= i < n && !plugins[i].disabled && c in Plugins.CommandNames(plugins[i]);
        assert 0 <= i < n + 1;
      }
      if NamedBefore(plugins, n + 1, c) {
        var i :| 0 <= i < n + 1 && !plugins[i].disabled && c in Plugins.CommandNames(plugins[i]);
        assert i < n || i == n;
      }
    }
  }

  lemma ExposesIsNamed(p: Package, c: string)
    ensures c in Plugins.CommandNames(p.manifest) <==> Exposes(p, c)
  {
    var names := Plugins.CommandNames(p.manifest);
    if Exposes(p, c) {
      var i :| 0 <= i < |p.manifest.commands| && p.manifest.commands[i].name == c;
      assert names[i] == c;
    }
  }

  /** What FindCommand gives after any operations from the empty store: the package last installed
      under the active version of an enabled plugin, files and manifest, marked enabled. */
  lemma FoundIsLastInstalled(h: Helpers, ops: seq<Op>, name: string, p: Package, command: string)
    requires ValidatesNames(h) && Offers(RunOps(h, map[], ops), name, p, command)
    ensures name != "" && p.manifest.name == name
    ensures LastPointer(h, ops, name) == Some((p.manifest.version, false))
    ensures var last := LastInstalled(h, ops, name, p.manifest.version);
            last.Some? && p.files == last.value.files && p.manifest == last.value.manifest.(disabled := false)
    ensures exists i :: 0 <= i < |p.manifest.commands| && p.manifest.commands[i].name == command
  {
    var rs := RunOps(h, map[], ops);
    RunKeepsStore(h, map[], ops);
    assert RecordOk(h, name, rs[name]);
    OffersTheActive(h, rs, name, p, command);
    ActiveIsLastInstalled(h, ops, name, p);
  }

  /** And it is given whenever there is one. */
  lemma LastInstalledIsFound(h: Helpers, ops: seq<Op>, name: string, version: string, pkg: Package, command: string)
    requires ValidatesNames(h) && name != "" && LastPointer(h, ops, name) == Some((version, false))
    requires LastInstalled(h, ops, name, version) == Some(pkg) && Exposes(pkg, command)
    ensures Offered(RunOps(h, map[], ops), command)
  {
    var rs := RunOps(h, map[], ops);
    RunKeepsStore(h, map[], ops);
    PointerFollowsHistory(h, ops, name);
    ActiveIsStored(h, rs, name);
    var p := ActivePackage(rs[name]).value;
    ActiveIsLastInstalled(h, ops, name, p);
    var i :| 0 <= i < |pkg.manifest.commands| && pkg.manifest.commands[i].name == command;
    assert p.manifest.commands[i].name == command;
    assert Offers(rs, name, p, command);
  }

  /** What List gives after any operations from the empty store: for every stored plugin, exactly
      one manifest, the one last installed under the active version, with the record's flag. */
  lemma ListedAreLastInstalled(h: Helpers, ops: seq<Op>, plugins: seq<Manifest>, m: Manifest)
    requires ValidatesNames(h) && IsListing(RunOps(h, map[], ops), plugins)
    ensures m in plugins <==>
            && m.name != "" && LastPointer(h, ops, m.name) == Some((m.version, m.disabled))
            && var last := LastInstalled(h, ops, m.name, m.version);
               last.Some? && m == last.value.manifest.(disabled := m.disabled)
  {
    var rs := RunOps(h, map[], ops);
    RunKeepsStore(h, map[], ops);
    if m in plugins {
      var k :| k in rs && ShownManifest(rs[k]) == m;
      assert RecordOk(h, k, rs[k]);
      ActiveIsStored(h, rs, k);
      ActiveIsLastInstalled(h, ops, k, ActivePackage(rs[k]).value);
    } else if m.name != "" {
      PointerFollowsHistory(h, ops, m.name);
      if m.name in rs {
        ActiveIsStored(h, rs, m.name);
        ActiveIsLastInstalled(h, ops, m.name, ActivePackage(rs[m.name]).value);
        assert ShownManifest(rs[m.name]) in plugins;
      }
    }
  }

  /** The commands named by a listing are the commands the store offers. */
  lemma NamesAreOffered(rs: Records, plugins: seq<Manifest>)
    requires IsListing(rs, plugins)
    ensures forall c :: NamedBefore(plugins, |plugins|, c) <==> Offered(rs, c)
  {
    forall c ensures NamedBefore(plugins, |plugins|, c) <==> Offered(rs, c) {
      if NamedBefore(plugins, |plugins|, c) {
        var i :| 0 <= i < |plugins| && !plugins[i].disabled && c in Plugins.CommandNames(plugins[i]);
        assert plugins[i] in plugins;
        var k :| k in rs && ShownManifest(rs[k]) == plugins[i];
        ExposesIsNamed(ActivePackage(rs[k]).value, c);
        assert Offers(rs, k, ActivePackage(rs[k]).value, c);
      }
      if Offered(rs, c) {
        var k, p :| Offers(rs, k, p, c);
        ExposesIsNamed(p, c);
        assert ShownManifest(rs[k]) in plugins;
        var i :| 0 <= i < |plugins| && plugins[i] == ShownManifest(rs[k]);
        assert !plugins[i].disabled;
      }
    }
  }

  // ---------------------------------------------------------------- the list shown to admins

  /** r is the merge of two command lists: sorted, without repetitions, and its elements are
      the trimmed, non-empty elements of both. */
  ghost predicate IsMerge(base: seq<string>, extra: seq<string>, r: seq<string>) {
    StrictlySortedBy(Self, r) && forall c :: c in r <==> c != "" && TrimmedIn(base + extra, c)
  }

  ghost predicate TrimmedIn(xs: seq<string>, c: string) {
    exists i :: 0 <= i < |xs| && TrimSpace(xs[i]) == c
  }

  method MergeCommands(base: seq<string>, extra: seq<string>) returns (commands: seq<string>)
    ensures IsMerge(base, extra, commands)
  {
    var all := base + extra;
    var seen: set<string> := {};
    var found: seq<string> := [];
    for i := 0 to |all|
      invariant Distinct(found) && forall c :: c in found <==> c in seen
      invariant forall c :: c in seen <==> c != "" && TrimmedIn(all[..i], c)
    {
      var command := TrimSpace(all[i]);
      TrimmedInStep(all, i);
      if !(command == "" || command in seen) {
        seen := seen + {command};
        found := found + [command];
      }
    }
    assert all[..|all|] == all;
    SortByDistinct(Self, found);
    commands := SortBy(Self, found);
    forall c ensures c in commands <==> c != "" && TrimmedIn(all, c) {
      assert c in commands <==> c in found;
    }
  }

  lemma TrimmedInStep(xs: seq<string>, n: nat)
    requires n < |xs|
    ensures forall c :: TrimmedIn(xs[..n + 1], c) <==> TrimmedIn(xs[..n], c) || c == TrimSpace(xs[n])
  {
    forall c ensures TrimmedIn(xs[..n + 1], c) <==> TrimmedIn(xs[..n], c) || c == TrimSpace(xs[n]) {
      if TrimmedIn(xs[..n], c) {
        var i :| 0 <= i < n && TrimSpace(xs[..n][i]) == c;
        assert TrimSpace(xs[..n + 1][i]) == c;
      }
      if c == TrimSpace(xs[n]) {
        assert TrimSpace(xs[..n + 1][n]) == c;
      }
      if TrimmedIn(xs[..n + 1], c) {
        var i :| 0 <= i < n + 1 && TrimSpace(xs[..n + 1][i]) == c;
        assert i < n ==> xs[..n][i] == xs[i];
      }
    }
  }

  /** Elements of a merge are trimmed, so re-merging sees them as they are. */
  lemma MergeIsTrimmed(base: seq<string>, extra: seq<string>, r: seq<string>)
    requires IsMerge(base, extra, r)
    ensures forall c :: c in r ==> c != "" && TrimSpace(c) == c
  {
    forall c | c in r ensures c != "" && TrimSpace(c) == c {
      var i :| 0 <= i < |base + extra| && TrimSpace((base + extra)[i]) == c;
      TrimSpaceIdempotent((base + extra)[i]);
    }
  }

  /** Merging the merged list again, with the same or with no extra commands, changes nothing. */
  lemma MergeIsStable(base: seq<string>, extra: seq<string>, r: seq<string>, again: seq<string>, more: seq<string>)
    requires IsMerge(base, extra, r) && IsMerge(r, more, again) && (more == extra || more == [])
    ensures again == r
  {
    MergeIsTrimmed(base, extra, r);
    forall c ensures c in again <==> c in r {
      if c in r {
        var i :| 0 <= i < |r| && r[i] == c;
        assert TrimSpace((r + more)[i]) == c;
      }
      if c in again {
        var i :| 0 <= i < |r + more| && TrimSpace((r + more)[i]) == c;
        if i < |r| {
          assert r[i] in r;
        } else {
          var j := i - |r|;
          assert TrimSpace((base + extra)[|base| + j]) == c;
        }
      }
    }
    StrictlySortedUnique(Self, again, r);
  }
}
