/** The plugin file: what loading accepts, and what saving and loading give back
    (server/plugin_store.go). */
module PluginFiles {
  import opened Wrappers
  import opened Text
  import opened Plugins
  import opened PluginRecords

  function RecordName(r: Record): string {
    r.name
  }

  /** The list of a store's records, in name order. */
  ghost predicate IsSnapshot(rs: Records, snapshot: seq<Record>) {
    StrictlySortedBy(RecordName, snapshot) && forall r :: r in snapshot <==> r in rs.Values
  }

  /** Whatever order the map is walked in, there is one snapshot. */
  lemma SnapshotUnique(rs: Records, a: seq<Record>, b: seq<Record>)
    requires IsSnapshot(rs, a) && IsSnapshot(rs, b)
    ensures a == b
  {
    StrictlySortedUnique(RecordName, a, b);
  }

  /** JSON, as far as the store uses it: writing records, and reading a text as a list of
      records or, for files of the older format, as a list of packages. */
  datatype Codec = Codec(encode: seq<Record> -> string,
                         asRecords: string -> Option<seq<Record>>,
                         asPackages: string -> Option<seq<Package>>)

  /** Decoding undoes encoding, and the empty list is the same text in both formats. */
  ghost predicate Faithful(c: Codec) {
    (forall rs :: c.asRecords(c.encode(rs)) == Some(rs)) && c.asPackages(c.encode([])) == Some([])
  }

  /** What the operating system makes of reading the file. */
  datatype FileRead = Missing | Unreadable | Text(text: string)

  datatype LoadError = NoDirectory | CannotRead | Malformed | NameMissing | NoVersions(name: string) | InvalidVersion
                     | WrongName(found: string)

  // ---------------------------------------------------------------- loading

  function CheckVersions(h: Helpers, name: string, versions: seq<Package>): Option<LoadError> {
    if versions == [] then None
    else if !h.validate(versions[0]) then Some(InvalidVersion)
    else if versions[0].manifest.name != name then Some(WrongName(versions[0].manifest.name))
    else CheckVersions(h, name, versions[1..])
  }

  function Normalize(h: Helpers, r: Record): Result<Record, LoadError> {
    var name := TrimSpace(r.name);
    if name == "" then Err(NameMissing)
    else if r.versions == [] then Err(NoVersions(name))
    else
      var bad := CheckVersions(h, name, r.versions);
      if bad.Some? then Err(bad.value)
      else
        var keep := TrimSpace(r.activeVersion) != "" && HasVersion(r, r.activeVersion);
        Ok(r.(name := name,
              activeVersion := if keep then r.activeVersion else r.versions[|r.versions| - 1].manifest.version))
  }

  /** Later records replace earlier ones of the same name. */
  function LoadRecords(h: Helpers, rs: Records, list: seq<Record>): Result<Records, LoadError>
    decreases |list|
  {
    if list == [] then Ok(rs)
    else
      match Normalize(h, list[0])
      case Err(e) => Err(e)
      case Ok(r) => LoadRecords(h, rs[r.name := r], list[1..])
  }

  function LoadPackages(h: Helpers, rs: Records, list: seq<Package>): Result<Records, LoadError>
    decreases |list|
  {
    if list == [] then Ok(rs)
    else if !h.validate(list[0]) then Err(InvalidVersion)
    else LoadPackages(h, rs[list[0].manifest.name := RecordOf(list[0])], list[1..])
  }

  function Load(h: Helpers, c: Codec, text: string): Result<Records, LoadError> {
    var records := c.asRecords(text);
    if records.Some? && |records.value| > 0 && records.value[0].name != "" then
      LoadRecords(h, map[], records.value)
    else
      var packages := c.asPackages(text);
      if packages.None? then Err(Malformed) else LoadPackages(h, map[], packages.value)
  }

  lemma CheckVersionsFails(h: Helpers, name: string, versions: seq<Package>)
    ensures CheckVersions(h, name, versions) != Some(NoDirectory)
    ensures var e := CheckVersions(h, name, versions); e.Some? ==> e.value.InvalidVersion? || e.value.WrongName?
  {
  }

  lemma {:induction false} RecordsFail(h: Helpers, rs: Records, list: seq<Record>)
    ensures LoadRecords(h, rs, list) != Err(NoDirectory)
    decreases |list|
  {
    if list != [] {
      var r := Normalize(h, list[0]);
      CheckVersionsFails(h, TrimSpace(list[0].name), list[0].versions);
      if r.Ok? { RecordsFail(h, rs[r.value.name := r.value], list[1..]); }
    }
  }

  lemma PackagesFail(h: Helpers, rs: Records, list: seq<Package>)
    ensures LoadPackages(h, rs, list) != Err(NoDirectory)
    decreases |list|
  {
  }

  /** A text that was read fails to load for what it says. */
  lemma LoadFailsOnContents(h: Helpers, c: Codec, text: string)
    ensures Load(h, c, text) != Err(NoDirectory)
  {
    var records := c.asRecords(text);
    if records.Some? { RecordsFail(h, map[], records.value); }
    if c.asPackages(text).Some? { PackagesFail(h, map[], c.asPackages(text).value); }
  }

  lemma {:induction false} CheckVersionsChecksAll(h: Helpers, name: string, versions: seq<Package>)
    ensures CheckVersions(h, name, versions).None? <==>
            forall i :: 0 <= i < |versions| ==> h.validate(versions[i]) && versions[i].manifest.name == name
  {
    if versions != [] {
      CheckVersionsChecksAll(h, name, versions[1..]);
      assert versions == [versions[0]] + versions[1..];
    }
  }

  /** A record that loading accepts is well formed, whatever the file said was active. */
  lemma NormalizedIsOk(h: Helpers, r: Record)
    requires Normalize(h, r).Ok?
    ensures RecordOk(h, Normalize(h, r).value.name, Normalize(h, r).value)
  {
    var n := Normalize(h, r).value;
    TrimSpaceIdempotent(r.name);
    CheckVersionsChecksAll(h, n.name, r.versions);
    if n.activeVersion != r.activeVersion || !HasVersion(r, r.activeVersion) {
      VersionPresent(r.versions, |r.versions| - 1);
    }
  }

  /** Loading leaves a well-formed record exactly as it is. */
  lemma NormalizeKeepsOk(h: Helpers, r: Record)
    requires ValidatesNames(h) && RecordOk(h, r.name, r)
    ensures Normalize(h, r) == Ok(r)
  {
    CheckVersionsChecksAll(h, r.name, r.versions);
    var i := VersionIndex(r.versions, r.activeVersion);
    assert h.validate(r.versions[i]);
  }

  lemma {:induction false} LoadRecordsGivesOk(h: Helpers, rs: Records, list: seq<Record>)
    requires StoreOk(h, rs) && LoadRecords(h, rs, list).Ok?
    ensures StoreOk(h, LoadRecords(h, rs, list).value)
    decreases |list|
  {
    if list != [] {
      NormalizedIsOk(h, list[0]);
      var r := Normalize(h, list[0]).value;
      assert StoreOk(h, rs[r.name := r]) by {
        forall k | k in rs && k != r.name ensures RecordOk(h, k, rs[k]) {}
      }
      LoadRecordsGivesOk(h, rs[r.name := r], list[1..]);
    }
  }

  lemma {:induction false} LoadPackagesGivesOk(h: Helpers, rs: Records, list: seq<Package>)
    requires ValidatesNames(h) && StoreOk(h, rs) && LoadPackages(h, rs, list).Ok?
    ensures StoreOk(h, LoadPackages(h, rs, list).value)
    decreases |list|
  {
    if list != [] {
      var pkg := list[0];
      VersionIndexIs([pkg], pkg.manifest.version, 0);
      assert RecordOk(h, pkg.manifest.name, RecordOf(pkg));
      LoadPackagesGivesOk(h, rs[pkg.manifest.name := RecordOf(pkg)], list[1..]);
    }
  }

  /** Whatever is in the file, of either format: if loading succeeds the store is well formed. */
  lemma LoadedStoreIsOk(h: Helpers, c: Codec, text: string)
    requires ValidatesNames(h) && Load(h, c, text).Ok?
    ensures StoreOk(h, Load(h, c, text).value)
  {
    var records := c.asRecords(text);
    if records.Some? && |records.value| > 0 && records.value[0].name != "" {
      LoadRecordsGivesOk(h, map[], records.value);
    } else {
      LoadPackagesGivesOk(h, map[], c.asPackages(text).value);
    }
  }

  /** Loading well-formed records with distinct names adds each of them under its name. */
  lemma {:induction false} LoadRecordsAddsAll(h: Helpers, rs: Records, list: seq<Record>)
    requires ValidatesNames(h) && forall i :: 0 <= i < |list| ==> RecordOk(h, list[i].name, list[i])
    requires forall i, j :: 0 <= i < j < |list| ==> list[i].name != list[j].name
    ensures LoadRecords(h, rs, list).Ok?
    ensures var t := LoadRecords(h, rs, list).value;
            && (forall i :: 0 <= i < |list| ==> list[i].name in t && t[list[i].name] == list[i])
            && (forall k :: k in t ==> (exists i :: 0 <= i < |list| && list[i].name == k) || (k in rs && t[k] == rs[k]))
            && (forall k :: k in rs ==> k in t)
            && (forall k :: k in rs && (forall i :: 0 <= i < |list| ==> list[i].name != k) ==> t[k] == rs[k])
    decreases |list|
  {
    if list != [] {
      NormalizeKeepsOk(h, list[0]);
      var next := rs[list[0].name := list[0]];
      LoadRecordsAddsAll(h, next, list[1..]);
      var t := LoadRecords(h, next, list[1..]).value;
      assert t[list[0].name] == next[list[0].name];
      forall i | 0 <= i < |list| ensures list[i].name in t && t[list[i].name] == list[i] {
        if i > 0 { assert list[1..][i - 1] == list[i]; }
      }
      forall k | k in t ensures (exists i :: 0 <= i < |list| && list[i].name == k) || (k in rs && t[k] == rs[k]) {
        if exists i :: 0 <= i < |list[1..]| && list[1..][i].name == k {
          var i :| 0 <= i < |list[1..]| && list[1..][i].name == k;
          assert list[i + 1].name == k;
        } else {
          assert k == list[0].name || t[k] == rs[k];
        }
      }
    }
  }

  lemma SnapshotEntry(h: Helpers, rs: Records, snapshot: seq<Record>, i: nat)
    requires StoreOk(h, rs) && IsSnapshot(rs, snapshot) && i < |snapshot|
    ensures RecordOk(h, snapshot[i].name, snapshot[i])
    ensures snapshot[i].name in rs && rs[snapshot[i].name] == snapshot[i]
  {
    assert snapshot[i] in snapshot;
    assert snapshot[i] in rs.Values;
    var k :| k in rs && rs[k] == snapshot[i];
    assert RecordOk(h, k, rs[k]);
  }

  lemma SnapshotNamesDiffer(rs: Records, snapshot: seq<Record>)
    requires IsSnapshot(rs, snapshot)
    ensures forall i, j :: 0 <= i < j < |snapshot| ==> snapshot[i].name != snapshot[j].name
  {
    forall i, j | 0 <= i < j < |snapshot| ensures snapshot[i].name != snapshot[j].name {
      assert Less(RecordName(snapshot[i]), RecordName(snapshot[j]));
      LessTotal(RecordName(snapshot[i]), RecordName(snapshot[j]));
    }
  }

  /** A map made of exactly the entries of a snapshot is the store it was taken from. */
  lemma EntriesMakeStore(h: Helpers, rs: Records, snapshot: seq<Record>, t: Records)
    requires StoreOk(h, rs) && IsSnapshot(rs, snapshot)
    requires forall i :: 0 <= i < |snapshot| ==> snapshot[i].name in t && t[snapshot[i].name] == snapshot[i]
    requires forall k :: k in t ==> exists i :: 0 <= i < |snapshot| && snapshot[i].name == k
    ensures t == rs
  {
    forall k | k in rs ensures k in t && t[k] == rs[k] {
      assert RecordOk(h, k, rs[k]);
      assert rs[k] in rs.Values;
      assert rs[k] in snapshot;
      var i :| 0 <= i < |snapshot| && snapshot[i] == rs[k];
    }
    forall k | k in t ensures k in rs {
      var i :| 0 <= i < |snapshot| && snapshot[i].name == k;
      SnapshotEntry(h, rs, snapshot, i);
    }
  }

  /** The records of a snapshot load back into the store it was taken from. */
  lemma SnapshotLoads(h: Helpers, rs: Records, snapshot: seq<Record>)
    requires ValidatesNames(h) && StoreOk(h, rs) && IsSnapshot(rs, snapshot)
    ensures LoadRecords(h, map[], snapshot) == Ok(rs)
  {
    forall i | 0 <= i < |snapshot| ensures RecordOk(h, snapshot[i].name, snapshot[i]) {
      SnapshotEntry(h, rs, snapshot, i);
    }
    SnapshotNamesDiffer(rs, snapshot);
    LoadRecordsAddsAll(h, map[], snapshot);
    EntriesMakeStore(h, rs, snapshot, LoadRecords(h, map[], snapshot).value);
  }

  /** Saving a reachable store and loading the file gives back the same records; the empty
      store survives too, by way of the older format. */
  lemma SaveThenLoad(h: Helpers, c: Codec, rs: Records, snapshot: seq<Record>)
    requires ValidatesNames(h) && Faithful(c) && StoreOk(h, rs) && IsSnapshot(rs, snapshot)
    ensures Load(h, c, c.encode(snapshot)) == Ok(rs)
  {
    SnapshotLoads(h, rs, snapshot);
    if snapshot != [] {
      SnapshotEntry(h, rs, snapshot, 0);
    }
  }

  // ---------------------------------------------------------------- what a text loads as

  /** The checks of a record, the first of which to fail is the error, and what an accepted record
      becomes: its name trimmed, its active version kept if it names a stored one, else the last;
      nothing else changed. */
  lemma NormalizeMeans(h: Helpers, r: Record)
    ensures var (name, n) := (TrimSpace(r.name), Normalize(h, r));
            && (n == Err(NameMissing) <==> name == "")
            && (n == Err(NoVersions(name)) <==> name != "" && r.versions == [])
            && (n.Ok? <==> name != "" && r.versions != [] && forall i :: 0 <= i < |r.versions| ==>
                             h.validate(r.versions[i]) && r.versions[i].manifest.name == name)
            && (n.Ok? ==> n.value.name == name && n.value.versions == r.versions && n.value.disabled == r.disabled
                          && n.value.activeVersion ==
                             if TrimSpace(r.activeVersion) != "" && StoresVersion(r, r.activeVersion)
                             then r.activeVersion else r.versions[|r.versions| - 1].manifest.version)
  {
    var name := TrimSpace(r.name);
    CheckVersionsChecksAll(h, name, r.versions);
    CheckVersionsFails(h, name, r.versions);
    var i := VersionIndex(r.versions, r.activeVersion);
    if i < |r.versions| {
      assert r.versions[i].manifest.version == r.activeVersion;
    }
  }

  ghost predicate StoresVersion(r: Record, version: string) {
    exists i :: 0 <= i < |r.versions| && r.versions[i].manifest.version == version
  }

  /** The first version that is invalid or carries another name is the error. */
  lemma {:induction false} FirstBadVersion(h: Helpers, name: string, versions: seq<Package>)
    requires CheckVersions(h, name, versions).Some?
    ensures var e := CheckVersions(h, name, versions).value;
            exists i :: 0 <= i < |versions| && BadVersionAt(h, name, versions, i, e)
  {
    var (first, rest) := (versions[0], versions[1..]);
    if h.validate(first) && first.manifest.name == name {
      FirstBadVersion(h, name, rest);
      var e := CheckVersions(h, name, rest).value;
      var i :| 0 <= i < |rest| && BadVersionAt(h, name, rest, i, e);
      assert forall j :: 0 < j < |versions| ==> versions[j] == rest[j - 1];
      assert BadVersionAt(h, name, versions, i + 1, e);
    } else {
      assert BadVersionAt(h, name, versions, 0, CheckVersions(h, name, versions).value);
    }
  }

  ghost predicate BadVersionAt(h: Helpers, name: string, versions: seq<Package>, i: nat, error: LoadError)
    requires i < |versions|
  {
    && (forall j :: 0 <= j < i ==> h.validate(versions[j]) && versions[j].manifest.name == name)
    && (error == InvalidVersion <==> !h.validate(versions[i]))
    && (error != InvalidVersion ==> versions[i].manifest.name != name && error == WrongName(versions[i].manifest.name))
  }

  /** The last entry of a list under a name. */
  function LastNamed<T>(name: T -> string, list: seq<T>, k: string): (r: Option<T>)
    ensures r.Some? ==> exists i :: 0 <= i < |list| && list[i] == r.value && name(list[i]) == k
                                    && forall j :: i < j < |list| ==> name(list[j]) != k
    ensures r.None? ==> forall i :: 0 <= i < |list| ==> name(list[i]) != k
  {
    if list == [] then None
    else
      var (n, last) := (|list| - 1, list[|list| - 1]);
      if name(last) == k then assert list[n] == last; Some(last) else LastNamed(name, list[..n], k)
  }

  function PackageName(p: Package): string {
    p.manifest.name
  }

  function TrimmedName(r: Record): string {
    TrimSpace(r.name)
  }

  lemma {:induction false} LastNamedFirst<T>(name: T -> string, x: T, list: seq<T>, k: string)
    ensures LastNamed(name, [x] + list, k)
         == var r := LastNamed(name, list, k); if r.Some? then r else if name(x) == k then Some(x) else None
  {
    var all := [x] + list;
    if list == [] {
      assert all[..0] == [];
    } else {
      assert all[..|list|] == [x] + list[..|list| - 1];
      LastNamedFirst(name, x, list[..|list| - 1], k);
    }
  }

  function Lookup(rs: Records, k: string): Option<Record> {
    if k in rs then Some(rs[k]) else None
  }

  /** The list of an older file loads exactly if every package in it is valid; the last package of
      each name becomes that plugin's only version, active, with the flag of its manifest, and nothing
      else changes. */
  lemma {:induction false} LoadPackagesMeans(h: Helpers, rs: Records, list: seq<Package>, k: string)
    ensures var t := LoadPackages(h, rs, list);
            && (t.Ok? <==> forall i :: 0 <= i < |list| ==> h.validate(list[i]))
            && (t.Err? ==> t.error == InvalidVersion)
            && (t.Ok? ==>
                  Lookup(t.value, k) ==
                  match LastNamed(PackageName, list, k)
                  case None => Lookup(rs, k)
                  case Some(p) => Some(Record(k, p.manifest.version, p.manifest.disabled, [p])))
    decreases |list|
  {
    if list != [] && h.validate(list[0]) {
      assert list == [list[0]] + list[1..];
      LastNamedFirst(PackageName, list[0], list[1..], k);
      LoadPackagesMeans(h, rs[list[0].manifest.name := RecordOf(list[0])], list[1..], k);
    }
  }

  /** The record list of a file loads exactly if each record is accepted; else the first that is
      not gives the error. */
  lemma {:induction false} LoadRecordsSucceeds(h: Helpers, rs: Records, list: seq<Record>)
    ensures var t := LoadRecords(h, rs, list);
            && (t.Ok? <==> forall i :: 0 <= i < |list| ==> Normalize(h, list[i]).Ok?)
            && (t.Err? ==> exists i :: 0 <= i < |list| && FirstRefused(h, list, i, t.error))
    decreases |list|
  {
    if list != [] {
      var (first, rest) := (Normalize(h, list[0]), list[1..]);
      if first.Err? {
        assert FirstRefused(h, list, 0, first.error);
      } else {
        LoadRecordsSucceeds(h, rs[first.value.name := first.value], rest);
        var t := LoadRecords(h, rs[first.value.name := first.value], rest);
        if t.Err? {
          var i :| 0 <= i < |rest| && FirstRefused(h, rest, i, t.error);
          assert forall j :: 0 < j < |list| ==> list[j] == rest[j - 1];
          assert FirstRefused(h, list, i + 1, t.error);
        } else {
          assert forall j :: 0 < j < |list| ==> list[j] == rest[j - 1];
        }
      }
    }
  }

  ghost predicate FirstRefused(h: Helpers, list: seq<Record>, i: nat, error: LoadError)
    requires i < |list|
  {
    Normalize(h, list[i]) == Err(error) && forall j :: 0 <= j < i ==> Normalize(h, list[j]).Ok?
  }

  /** Of a record list that loads, the last record of each name is stored, normalized, and nothing
      else changes. */
  lemma {:induction false} LoadRecordsMeans(h: Helpers, rs: Records, list: seq<Record>, k: string)
    requires LoadRecords(h, rs, list).Ok?
    ensures var t := LoadRecords(h, rs, list).value;
            match LastNamed(TrimmedName, list, k)
            case None => Lookup(t, k) == Lookup(rs, k)
            case Some(r) => k in t && Normalize(h, r) == Ok(t[k])
    decreases |list|
  {
    if list != [] {
      var first := Normalize(h, list[0]).value;
      assert list == [list[0]] + list[1..];
      assert first.name == TrimmedName(list[0]);
      LastNamedFirst(TrimmedName, list[0], list[1..], k);
      LoadRecordsMeans(h, rs[first.name := first], list[1..], k);
    }
  }

  /** Which format a text is read in: as records if it is a list of them and the first has a name,
      else as the older format, and malformed if it is neither; and what is then in the store. */
  lemma LoadChoosesFormat(h: Helpers, c: Codec, text: string, k: string)
    ensures var (r, p, t) := (c.asRecords(text), c.asPackages(text), Load(h, c, text));
            if r.Some? && r.value != [] && r.value[0].name != "" then
              && (t.Ok? <==> forall i :: 0 <= i < |r.value| ==> Normalize(h, r.value[i]).Ok?)
              && (t.Ok? ==> match LastNamed(TrimmedName, r.value, k)
                            case None => k !in t.value
                            case Some(last) => k in t.value && Normalize(h, last) == Ok(t.value[k]))
            else
              && (t == Err(Malformed) <==> p.None?)
              && (t.Ok? <==> p.Some? && forall i :: 0 <= i < |p.value| ==> h.validate(p.value[i]))
              && (t.Ok? ==> match LastNamed(PackageName, p.value, k)
                            case None => k !in t.value
                            case Some(last) =>
                              var m := last.manifest;
                              k in t.value && t.value[k] == Record(k, m.version, m.disabled, [last]))
  {
    if c.asRecords(text).Some? {
      var records := c.asRecords(text).value;
      LoadRecordsSucceeds(h, map[], records);
      if LoadRecords(h, map[], records).Ok? { LoadRecordsMeans(h, map[], records, k); }
    }
    if c.asPackages(text).Some? { LoadPackagesMeans(h, map[], c.asPackages(text).value, k); }
  }
}
