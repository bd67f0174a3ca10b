/** Migrations of the client cache between client versions (client/migrations.py):
    the version-gated plan of migration steps, the settings.yml update
    decision, the two metadata.json repairs, and the two text transforms of
    conan.conf (moving [settings_defaults] into the default profile, and
    converting the general.config_install item). */
module Migrations {
  import opened Common
  import opened Cache
  import opened Text

  // ---------------------------------------------------------------------
  // The plan of _make_migrations

  /** The migration steps, named after what they migrate. */
  datatype Step =
    | SettingsYml
    | DefaultProfile
    | CSrcExportSource
    | LockFiles
    | PluginsToHooks
    | CreateMetadata
    | ConfigInstall
    | FullMetadata
    | RegistryFile

  /** The order in which _make_migrations considers the steps. */
  const Order: seq<Step> := [SettingsYml, DefaultProfile, CSrcExportSource, LockFiles, PluginsToHooks,
                             CreateMetadata, ConfigInstall, FullMetadata, RegistryFile]

  function Rank(s: Step): (k: nat)
    ensures k < |Order| && Order[k] == s
  {
    match s
    case SettingsYml => 0
    case DefaultProfile => 1
    case CSrcExportSource => 2
    case LockFiles => 3
    case PluginsToHooks => 4
    case CreateMetadata => 5
    case ConfigInstall => 6
    case FullMetadata => 7
    case RegistryFile => 8
  }

  /** Rank is the inverse of Order. */
  lemma RankOrder(k: nat)
    requires k < |Order|
    ensures Rank(Order[k]) == k
  {
  }

  /** Whether step `s` runs when migrating from version `v`: the settings
      update always does, every other step iff `v` is older than the version
      that introduced it; the two 0.25 steps only when no default profile
      exists yet. `less` is the order of Version. */
  predicate Runs(s: Step, v: string, less: (string, string) -> bool, profileExists: bool) {
    match s
    case SettingsYml => true
    case DefaultProfile => less(v, "0.25") && !profileExists
    case CSrcExportSource => less(v, "0.25") && !profileExists
    case LockFiles => less(v, "1.0")
    case PluginsToHooks => less(v, "1.12.0")
    case CreateMetadata => less(v, "1.13.0")
    case ConfigInstall => less(v, "1.14.0")
    case FullMetadata => less(v, "1.14.2")
    case RegistryFile => less(v, "1.15.0")
  }

  /** The steps among the first `n` of Order that run, in order. */
  function StepsBelow(v: string, less: (string, string) -> bool, profileExists: bool, n: nat): seq<Step>
    requires n <= |Order|
  {
    if n == 0 then []
    else StepsBelow(v, less, profileExists, n - 1)
         + (if Runs(Order[n - 1], v, less, profileExists) then [Order[n - 1]] else [])
  }

  /** The steps _make_migrations runs for an installation last run with
      `oldVersion` (None: a fresh cache, nothing to migrate). */
  function MigrationSteps(oldVersion: Option<string>, less: (string, string) -> bool, profileExists: bool): seq<Step> {
    if oldVersion.None? then [] else StepsBelow(oldVersion.value, less, profileExists, |Order|)
  }

  /** The plan through step `k` extends the plan before it by that step when its gate holds. */
  lemma StepsBelowExtend(done: seq<Step>, v: string, less: (string, string) -> bool, profileExists: bool, k: nat)
    requires k < |Order|
    ensures done + StepsBelow(v, less, profileExists, k)
      + (if Runs(Order[k], v, less, profileExists) then [Order[k]] else [])
      == done + StepsBelow(v, less, profileExists, k + 1)
  {
  }

  /** A step is planned among the first `n` iff it is one of them and its gate holds. */
  lemma {:induction false} StepsBelowMembers(v: string, less: (string, string) -> bool, profileExists: bool, n: nat)
    requires n <= |Order|
    ensures forall s :: s in StepsBelow(v, less, profileExists, n) <==> Rank(s) < n && Runs(s, v, less, profileExists)
    decreases n
  {
    if n > 0 {
      StepsBelowMembers(v, less, profileExists, n - 1);
      forall s ensures Rank(s) == n - 1 ==> s == Order[n - 1] {
      }
    }
  }

  /** The planned steps come in strictly increasing rank, all below `n`. */
  lemma {:induction false} StepsBelowRanks(v: string, less: (string, string) -> bool, profileExists: bool, n: nat)
    requires n <= |Order|
    ensures forall i :: 0 <= i < |StepsBelow(v, less, profileExists, n)| ==> Rank(StepsBelow(v, less, profileExists, n)[i]) < n
    ensures forall i, j :: 0 <= i < j < |StepsBelow(v, less, profileExists, n)| ==>
      Rank(StepsBelow(v, less, profileExists, n)[i]) < Rank(StepsBelow(v, less, profileExists, n)[j])
    decreases n
  {
    if n > 0 {
      StepsBelowRanks(v, less, profileExists, n - 1);
      RankOrder(n - 1);
    }
  }

  /** The settings update is always planned first. */
  lemma {:induction false} StepsBelowFirst(v: string, less: (string, string) -> bool, profileExists: bool, n: nat)
    requires 0 < n <= |Order|
    ensures var sb := StepsBelow(v, less, profileExists, n);
      |sb| > 0 && sb[0] == SettingsYml
    decreases n
  {
    if n > 1 {
      StepsBelowFirst(v, less, profileExists, n - 1);
    }
  }

  /** A step runs iff its gate holds; with no previous version none runs. */
  lemma MigrationStepsGated(oldVersion: Option<string>, less: (string, string) -> bool, profileExists: bool, s: Step)
    ensures s in MigrationSteps(oldVersion, less, profileExists) <==>
      oldVersion.Some? && Runs(s, oldVersion.value, less, profileExists)
  {
    if oldVersion.Some? {
      StepsBelowMembers(oldVersion.value, less, profileExists, |Order|);
    }
  }

  /** The steps run in the fixed order, each at most once, and the settings
      update comes first. */
  lemma MigrationStepsInOrder(oldVersion: Option<string>, less: (string, string) -> bool, profileExists: bool)
    ensures var steps := MigrationSteps(oldVersion, less, profileExists);
      (forall i, j :: 0 <= i < j < |steps| ==> Rank(steps[i]) < Rank(steps[j]))
      && (oldVersion.Some? ==> |steps| > 0 && steps[0] == SettingsYml)
  {
    if oldVersion.Some? {
      var v := oldVersion.value;
      StepsBelowRanks(v, less, profileExists, |Order|);
      StepsBelowFirst(v, less, profileExists, |Order|);
    }
  }

  /** An older installation migrates at least as much: under a transitive
      Version order every step run from `newer` also runs from `older`. */
  lemma MigrationStepsMonotone(older: string, newer: string, less: (string, string) -> bool, profileExists: bool)
    requires forall a, b, c :: less(a, b) && less(b, c) ==> less(a, c)
    requires less(older, newer)
    ensures forall s :: s in MigrationSteps(Some(newer), less, profileExists) ==>
      s in MigrationSteps(Some(older), less, profileExists)
  {
    forall s | s in MigrationSteps(Some(newer), less, profileExists)
      ensures s in MigrationSteps(Some(older), less, profileExists)
    {
      MigrationStepsGated(Some(newer), less, profileExists, s);
      MigrationStepsGated(Some(older), less, profileExists, s);
    }
  }

  // ---------------------------------------------------------------------
  // _update_settings_yml

  /** The attribute of migrations_settings holding the settings.yml shipped
      with a version: "settings_" followed by the version with its dots made
      underscores. */
  function SettingsVarName(version: string): string {
    "settings_" + seq(|version|, i requires 0 <= i < |version| => if version[i] == '.' then '_' else version[i])
  }

  /** Versions are written with dots, never underscores, so each version has
      its own attribute. */
  lemma SettingsVarNameInjective(a: string, b: string)
    requires '_' !in a && '_' !in b
    requires SettingsVarName(a) == SettingsVarName(b)
    ensures a == b
  {
    assert |a| == |b|;
    forall i | 0 <= i < |a| ensures a[i] == b[i] {
      assert SettingsVarName(a)[9 + i] == SettingsVarName(b)[9 + i];
      assert a[i] in a && b[i] in b;
    }
  }

  /** What _update_settings_yml does. */
  datatype SettingsAction =
    | NoSettingsYet     // no settings.yml: nothing is written
    | AlreadyUpToDate   // the old version shipped the current defaults
    | Overwrite         // the user file is the old default: replace it
    | WriteNew          // keep the user file, write settings.yml.new

  /** The decision, from the current settings.yml (None when absent), the
      previous version, the defaults each version shipped (by attribute
      name) and the current defaults. */
  function SettingsUpdate(settings: Option<string>, oldVersion: string, shipped: map<string, string>,
                          current: string): SettingsAction
  {
    if settings.None? then NoSettingsYet
    else
      var name := SettingsVarName(oldVersion);
      if name !in shipped then WriteNew
      else if shipped[name] == current then AlreadyUpToDate
      else if settings.value != shipped[name] then WriteNew
      else Overwrite
  }

  /** The user's settings.yml is replaced only when it is exactly what the
      previous version shipped and that differs from the current defaults;
      a file the user edited, or one from an unknown version, is kept and
      the new defaults go beside it. */
  lemma {:induction false} SettingsUpdateKeepsUserEdits(settings: Option<string>, oldVersion: string,
                                                       shipped: map<string, string>, current: string)
    ensures var name := SettingsVarName(oldVersion);
      (SettingsUpdate(settings, oldVersion, shipped, current) == Overwrite <==>
        settings.Some? && name in shipped && settings.value == shipped[name] && shipped[name] != current)
      && (SettingsUpdate(settings, oldVersion, shipped, current) == WriteNew <==>
        settings.Some? && (name !in shipped || (shipped[name] != current && settings.value != shipped[name])))
      && (SettingsUpdate(settings, oldVersion, shipped, current) == NoSettingsYet <==> settings.None?)
  {
  }

  // ---------------------------------------------------------------------
  // The metadata repairs

  /** What the metadata migrations read from the cache folders: the
      references found four levels below the store, the export manifest hash
      of each reference, the package folders of each reference and the
      manifest hash of each package. A missing hash is a manifest that does
      not load. */
  datatype CacheDisk = CacheDisk(
    refs: seq<RecipeId>,
    exportHash: map<RecipeId, string>,
    packageFolders: map<RecipeId, seq<string>>,
    packageHash: map<(RecipeId, string), string>)

  /** The revision of a recipe: its export manifest hash, or the default. */
  function ExportRevision(disk: CacheDisk, id: RecipeId): string {
    if id in disk.exportHash then disk.exportHash[id] else DefaultRevisionV1
  }

  /** The revision of a package: its manifest hash, or the default. */
  function PackageRevision(disk: CacheDisk, id: RecipeId, packageId: string): string {
    if (id, packageId) in disk.packageHash then disk.packageHash[(id, packageId)] else DefaultRevisionV1
  }

  /** The ids of the package folders of a reference (none when the packages
      folder does not exist). */
  function PackageIds(disk: CacheDisk, id: RecipeId): seq<string> {
    if id in disk.packageFolders then disk.packageFolders[id] else []
  }

  /** A record as the migrations leave it: a recipe revision, and exactly one
      entry per package folder holding that package's revision and the
      recipe revision. */
  predicate Consistent(m: Metadata, disk: CacheDisk, id: RecipeId) {
    m.recipe.revision.Some?
    && m.packages.Keys == (set p | p in PackageIds(disk, id))
    && (forall p :: p in m.packages ==>
          m.packages[p] == PackageMeta(Some(PackageRevision(disk, id, p)), m.recipe.revision))
  }

  /** The record _migrate_full_metadata leaves for a reference. */
  function MigratedRecord(m: Metadata, disk: CacheDisk, id: RecipeId): (r: Metadata)
    ensures Consistent(r, disk, id)
    ensures m.recipe.revision.Some? ==> r.recipe.revision == m.recipe.revision
    ensures m.recipe.revision.None? ==> r.recipe.revision == Some(ExportRevision(disk, id))
    ensures r.recipe.remote == m.recipe.remote
  {
    var rrev := if m.recipe.revision.Some? then m.recipe.revision else Some(ExportRevision(disk, id));
    Metadata(RecipeMeta(rrev, m.recipe.remote),
             map p | p in PackageIds(disk, id) :: PackageMeta(Some(PackageRevision(disk, id, p)), rrev))
  }

  /** A consistent record is left as it is, so repairing twice is repairing
      once. */
  lemma ConsistentIsFixpoint(m: Metadata, disk: CacheDisk, id: RecipeId)
    requires Consistent(m, disk, id)
    ensures MigratedRecord(m, disk, id) == m
  {
    var r := MigratedRecord(m, disk, id);
    assert r.packages.Keys == m.packages.Keys;
    assert r.recipe == m.recipe;
  }

  lemma MigratedRecordIdempotent(m: Metadata, disk: CacheDisk, id: RecipeId)
    ensures MigratedRecord(MigratedRecord(m, disk, id), disk, id) == MigratedRecord(m, disk, id)
  {
    ConsistentIsFixpoint(MigratedRecord(m, disk, id), disk, id);
  }

  /** The stale-entry loop: the entries whose package folder is gone are
      deleted, the others kept as they are. */
  method DropStale(packages: map<string, PackageMeta>, existing: seq<string>) returns (r: map<string, PackageMeta>)
    ensures forall p :: p in r <==> p in packages && p in existing
    ensures forall p :: p in r ==> r[p] == packages[p]
  {
    r := packages;
    var keys := packages.Keys;
    while keys != {}
      invariant keys <= packages.Keys
      invariant forall p :: p in r <==> p in packages && (p in keys || p in existing)
      invariant forall p :: p in r ==> r[p] == packages[p]
      decreases keys
    {
      var p :| p in keys;
      if p !in existing {
        r := r - {p};
      }
      keys := keys - {p};
    }
  }

  /** The loop over the package folders: each listed package gets an entry
      with its revision and the recipe revision `rrev`; other entries are
      untouched. */
  method RecordPackageRevisions(packages: map<string, PackageMeta>, ids: seq<string>, disk: CacheDisk,
                                id: RecipeId, rrev: Option<string>)
    returns (r: map<string, PackageMeta>)
    ensures forall p :: p in r <==> p in packages || p in ids
    ensures forall p :: p in r ==>
      r[p] == (if p in ids then PackageMeta(Some(PackageRevision(disk, id, p)), rrev) else packages[p])
  {
    r := packages;
    for i := 0 to |ids|
      invariant forall p :: p in r <==> p in packages || p in ids[..i]
      invariant forall p :: p in r ==>
        r[p] == (if p in ids[..i] then PackageMeta(Some(PackageRevision(disk, id, p)), rrev) else packages[p])
    {
      assert ids[..i + 1] == ids[..i] + [ids[i]];
      r := r[ids[i] := PackageMeta(Some(PackageRevision(disk, id, ids[i])), rrev)];
    }
    assert ids[..|ids|] == ids;
  }

  /** The body of the update_metadata scope of _migrate_full_metadata. */
  method RepairRecord(m: Metadata, disk: CacheDisk, id: RecipeId) returns (r: Metadata)
    ensures r == MigratedRecord(m, disk, id)
  {
    var rrev := m.recipe.revision;
    if rrev.None? {
      rrev := Some(ExportRevision(disk, id));
    }
    var ids := PackageIds(disk, id);
    var kept := DropStale(m.packages, ids);
    var packages := RecordPackageRevisions(kept, ids, disk, id, rrev);
    r := Metadata(RecipeMeta(rrev, m.recipe.remote), packages);
    assert packages == MigratedRecord(m, disk, id).packages;
  }

  /** The record update_metadata starts from: the stored one, or a fresh
      one when no file exists. */
  function Current(meta: map<RecipeId, MetaFile>, id: RecipeId): Metadata {
    if id in meta && meta[id].Parsed? then meta[id].record else EmptyMetadata
  }

  predicate IsUnreadable(meta: map<RecipeId, MetaFile>, id: RecipeId) {
    id in meta && meta[id].Unreadable?
  }

  /** The metadata files after the references in `done` went through the
      full migration. */
  function FullyMigrated(meta: map<RecipeId, MetaFile>, disk: CacheDisk, done: seq<RecipeId>): map<RecipeId, MetaFile> {
    map id | id in meta.Keys + (set d | d in done) ::
      if id in done then Parsed(MigratedRecord(Current(meta, id), disk, id)) else meta[id]
  }

  /** Every migrated reference has a consistent file that keeps a recipe
      revision it had and its remote; no other file changes. */
  lemma FullyMigratedFacts(meta: map<RecipeId, MetaFile>, disk: CacheDisk, done: seq<RecipeId>)
    ensures forall id :: id in done ==>
      id in FullyMigrated(meta, disk, done) && FullyMigrated(meta, disk, done)[id].Parsed?
      && Consistent(FullyMigrated(meta, disk, done)[id].record, disk, id)
      && FullyMigrated(meta, disk, done)[id].record.recipe.remote == Current(meta, id).recipe.remote
      && (Current(meta, id).recipe.revision.Some? ==>
            FullyMigrated(meta, disk, done)[id].record.recipe.revision == Current(meta, id).recipe.revision)
    ensures forall id :: id !in done ==>
      (id in FullyMigrated(meta, disk, done) <==> id in meta)
      && (id in meta ==> FullyMigrated(meta, disk, done)[id] == meta[id])
  {
  }

  /** Migrating one more reference extends the migrated prefix; a reference
      listed twice is repaired twice to the same record. */
  lemma FullyMigratedStep(meta: map<RecipeId, MetaFile>, disk: CacheDisk, done: seq<RecipeId>, id: RecipeId)
    requires !IsUnreadable(meta, id)
    ensures var now := FullyMigrated(meta, disk, done);
      now[id := Parsed(MigratedRecord(Current(now, id), disk, id))] == FullyMigrated(meta, disk, done + [id])
  {
    var now := FullyMigrated(meta, disk, done);
    if id in done {
      MigratedRecordIdempotent(Current(meta, id), disk, id);
    } else {
      assert Current(now, id) == Current(meta, id);
    }
  }

  /** Running the full migration again after it succeeded changes nothing. */
  lemma FullMigrationIdempotent(meta: map<RecipeId, MetaFile>, disk: CacheDisk, done: seq<RecipeId>)
    ensures FullyMigrated(FullyMigrated(meta, disk, done), disk, done) == FullyMigrated(meta, disk, done)
  {
    var once := FullyMigrated(meta, disk, done);
    forall id | id in done
      ensures FullyMigrated(once, disk, done)[id] == once[id]
    {
      MigratedRecordIdempotent(Current(meta, id), disk, id);
    }
  }

  /** _migrate_full_metadata. It stops at the first reference whose file
      cannot be read, with an error naming it; the references before it
      stay migrated. */
  method MigrateFullMetadata(cache: ClientCache, disk: CacheDisk) returns (r: Outcome)
    modifies cache`metadata
    ensures r.Pass? ==>
      (forall j :: 0 <= j < |disk.refs| ==> !IsUnreadable(old(cache.metadata), disk.refs[j]))
      && cache.metadata == FullyMigrated(old(cache.metadata), disk, disk.refs)
    ensures r.Failed? ==>
      exists k :: (0 <= k < |disk.refs|
        && IsUnreadable(old(cache.metadata), disk.refs[k])
        && (forall j :: 0 <= j < k ==> !IsUnreadable(old(cache.metadata), disk.refs[j]))
        && r.error == MetadataMigrationFailed(disk.refs[k])
        && cache.metadata == FullyMigrated(old(cache.metadata), disk, disk.refs[..k]))
    ensures var k := FirstUnreadable(old(cache.metadata), disk.refs);
      (r.Pass? <==> k == |disk.refs|) && (r.Failed? ==> r.error == MetadataMigrationFailed(disk.refs[k]))
      && cache.metadata == FullyMigrated(old(cache.metadata), disk, disk.refs[..k])
  {
    ghost var first := FirstUnreadable(cache.metadata, disk.refs);
    for i := 0 to |disk.refs|
      invariant cache.metadata == FullyMigrated(old(cache.metadata), disk, disk.refs[..i])
      invariant forall j :: 0 <= j < i ==> !IsUnreadable(old(cache.metadata), disk.refs[j])
      invariant i <= first
    {
      var id := disk.refs[i];
      var record := cache.MetadataForUpdate(Reference(id, None));
      if record.Fail? {
        assert IsUnreadable(old(cache.metadata), id);
        assert first == i;
        return Failed(MetadataMigrationFailed(id));
      }
      assert i != first;
      assert record.value == Current(cache.metadata, id);
      var repaired := RepairRecord(record.value, disk, id);
      FullyMigratedStep(old(cache.metadata), disk, disk.refs[..i], id);
      assert disk.refs[..i + 1] == disk.refs[..i] + [id];
      cache.metadata := cache.metadata[id := Parsed(repaired)];
    }
    assert disk.refs[..|disk.refs|] == disk.refs;
    return Pass;
  }

  /** The metadata files after _migrate_create_metadata visited `done`:
      existing files, readable or not, are kept; a missing one is created
      as the full migration would repair an empty record. */
  function Created(meta: map<RecipeId, MetaFile>, disk: CacheDisk, done: seq<RecipeId>): map<RecipeId, MetaFile> {
    map id | id in meta.Keys + (set d | d in done) ::
      if id in meta then meta[id] else Parsed(MigratedRecord(EmptyMetadata, disk, id))
  }

  /** Creation never touches an existing file; every created record has the
      export revision, no remote, and one consistent entry per package
      folder; and a later full migration leaves it as it is. */
  lemma CreatedFacts(meta: map<RecipeId, MetaFile>, disk: CacheDisk, done: seq<RecipeId>)
    ensures forall id :: id in meta ==> id in Created(meta, disk, done) && Created(meta, disk, done)[id] == meta[id]
    ensures forall id :: id in Created(meta, disk, done) <==> id in meta || id in done
    ensures forall id :: id in done && id !in meta ==>
      var m := Created(meta, disk, done)[id].record;
      Created(meta, disk, done)[id].Parsed? && Consistent(m, disk, id)
      && m.recipe.revision == Some(ExportRevision(disk, id)) && m.recipe.remote.None?
      && MigratedRecord(m, disk, id) == m
  {
    forall id | id in done && id !in meta
      ensures MigratedRecord(Created(meta, disk, done)[id].record, disk, id) == Created(meta, disk, done)[id].record
    {
      MigratedRecordIdempotent(EmptyMetadata, disk, id);
    }
  }

  /** _migrate_create_metadata. No step of it can fail in this model. */
  method MigrateCreateMetadata(cache: ClientCache, disk: CacheDisk)
    modifies cache`metadata
    ensures cache.metadata == Created(old(cache.metadata), disk, disk.refs)
  {
    for i := 0 to |disk.refs|
      invariant cache.metadata == Created(old(cache.metadata), disk, disk.refs[..i])
    {
      var id := disk.refs[i];
      var rrev := ExportRevision(disk, id);
      assert disk.refs[..i + 1] == disk.refs[..i] + [id];
      if id !in cache.metadata {
        var packages := RecordPackageRevisions(map[], PackageIds(disk, id), disk, id, Some(rrev));
        var created := Metadata(RecipeMeta(Some(rrev), None), packages);
        assert packages == MigratedRecord(EmptyMetadata, disk, id).packages;
        cache.metadata := cache.metadata[id := Parsed(created)];
      }
    }
    assert disk.refs[..|disk.refs|] == disk.refs;
  }

  // ---------------------------------------------------------------------
  // migrate_to_default_profile

  const SettingsDefaultsTag: string := "[settings_defaults]"

  /** The effect on conan.conf and the default profile. */
  datatype ProfileMigration = Unchanged | Migrated(conf: string, profile: string)

  /** A Python slice bound: a negative index counts from the end. */
  function SliceBound(s: string, k: int): (i: nat)
    ensures i <= |s|
    ensures 0 <= k <= |s| ==> i == k
    ensures -|s| <= k < 0 ==> i == |s| + k
  {
    if k < 0 then (if |s| + k < 0 then 0 else |s| + k) else if k > |s| then |s| else k
  }

  /** migrate_to_default_profile as written: the text before the tag is
      kept; when the rest holds a "]" the conf keeps the rest from its first
      "[" and the settings are the stripped text before it, a "[" that is
      absent (-1) being read as the last character; a tag at offset 0 leaves
      everything as it is. */
  function MigrateToDefaultProfile(conf: string): ProfileMigration {
    if !Contains(conf, SettingsDefaultsTag) then Unchanged
    else
      var tmp := Find(conf, SettingsDefaultsTag);
      var prefix := conf[..tmp];
      var rest := conf[tmp + |SettingsDefaultsTag|..];
      if tmp == 0 then Unchanged
      else if Contains(rest, "]") then
        var k := SliceBound(rest, Find(rest, "["));
        Migrated(prefix + rest[k..], "[settings]\n" + Strip(rest[..k]))
      else
        Migrated(prefix, "[settings]\n" + Strip(rest))
  }

  /** The evidently intended transform: the section runs from the tag to
      the next "[" or to the end, wherever the tag is. */
  function MigrateToDefaultProfileIntended(conf: string): ProfileMigration {
    if !Contains(conf, SettingsDefaultsTag) then Unchanged
    else
      var tmp := Find(conf, SettingsDefaultsTag);
      var rest := conf[tmp + |SettingsDefaultsTag|..];
      var next := Find(rest, "[");
      var k := if next == -1 then |rest| else next;
      Migrated(conf[..tmp] + rest[k..], "[settings]\n" + Strip(rest[..k]))
  }

  /** Find returns the first occurrence. */
  lemma FindFirst(s: string, sub: string, i: nat)
    requires OccursAt(s, sub, i)
    requires forall j :: 0 <= j < i ==> !OccursAt(s, sub, j)
    ensures Find(s, sub) == i
  {
    assert Contains(s, sub);
  }

  lemma FindAbsentChar(s: string, c: char)
    requires c !in s
    ensures Find(s, [c]) == -1
  {
    forall i | 0 <= i <= |s| - 1 ensures !OccursAt(s, [c], i) {
      assert s[i..i + 1] == [s[i]];
    }
  }

  lemma FindChar(s: string, c: char, i: nat)
    requires i < |s| && s[i] == c && c !in s[..i]
    ensures Find(s, [c]) == i
  {
    forall j | 0 <= j < i ensures !OccursAt(s, [c], j) {
      assert s[j..j + 1] == [s[j]];
      assert s[j] == s[..i][j];
    }
    assert s[i..i + 1] == [c];
    FindFirst(s, [c], i);
  }

  lemma ContainsChar(s: string, c: char)
    requires c in s
    ensures Contains(s, [c])
  {
    var t :| 0 <= t < |s| && s[t] == c;
    assert s[t..t + 1] == [c];
    assert OccursAt(s, [c], t);
  }

  lemma LacksChar(s: string, c: char)
    requires c !in s
    ensures !Contains(s, [c])
  {
    FindAbsentChar(s, c);
  }

  /** The tag occurs at `|prefix|` of `prefix + tag + after` and nowhere before. */
  lemma LocateTag(prefix: string, after: string)
    requires forall j :: 0 <= j < |prefix| ==> !OccursAt(prefix + SettingsDefaultsTag + after, SettingsDefaultsTag, j)
    ensures var conf := prefix + SettingsDefaultsTag + after;
      Contains(conf, SettingsDefaultsTag) && Find(conf, SettingsDefaultsTag) == |prefix|
      && conf[..|prefix|] == prefix && conf[|prefix| + |SettingsDefaultsTag|..] == after
  {
    var conf := prefix + SettingsDefaultsTag + after;
    assert conf[|prefix|..|prefix| + |SettingsDefaultsTag|] == SettingsDefaultsTag;
    FindFirst(conf, SettingsDefaultsTag, |prefix|);
  }

  /** The as-written transform once the tag is found at `n` > 0 and the
      first "[" after it at `k` (or nowhere). */
  lemma AsWrittenAt(conf: string, n: nat, k: int)
    requires Contains(conf, SettingsDefaultsTag) && Find(conf, SettingsDefaultsTag) == n > 0
    requires Find(conf[n + |SettingsDefaultsTag|..], "[") == k
    ensures var rest := conf[n + |SettingsDefaultsTag|..];
      MigrateToDefaultProfile(conf)
        == if Contains(rest, "]") then
             Migrated(conf[..n] + rest[SliceBound(rest, k)..], "[settings]\n" + Strip(rest[..SliceBound(rest, k)]))
           else Migrated(conf[..n], "[settings]\n" + Strip(rest))
  {
  }

  /** The intended transform once the tag is found at `n` and the first
      "[" after it at `k` (or nowhere). */
  lemma IntendedAt(conf: string, n: nat, k: int)
    requires Contains(conf, SettingsDefaultsTag) && Find(conf, SettingsDefaultsTag) == n
    requires Find(conf[n + |SettingsDefaultsTag|..], "[") == k
    ensures var rest := conf[n + |SettingsDefaultsTag|..];
      var e := if k == -1 then |rest| else k;
      0 <= e <= |rest| &&
      MigrateToDefaultProfileIntended(conf) == Migrated(conf[..n] + rest[e..], "[settings]\n" + Strip(rest[..e]))
  {
  }

  /** The as-written transform when [settings_defaults] is the last section. */
  lemma AsWrittenLastSection(prefix: string, body: string)
    requires |prefix| > 0
    requires forall j :: 0 <= j < |prefix| ==> !OccursAt(prefix + SettingsDefaultsTag + body, SettingsDefaultsTag, j)
    requires '[' !in body && ']' !in body
    ensures MigrateToDefaultProfile(prefix + SettingsDefaultsTag + body) == Migrated(prefix, "[settings]\n" + Strip(body))
  {
    var conf := prefix + SettingsDefaultsTag + body;
    LocateTag(prefix, body);
    LacksChar(body, ']');
    FindAbsentChar(body, '[');
    AsWrittenAt(conf, |prefix|, -1);
  }

  /** The as-written transform when a section header follows [settings_defaults]. */
  lemma AsWrittenBeforeHeader(prefix: string, body: string, tail: string)
    requires |prefix| > 0
    requires forall j :: 0 <= j < |prefix| ==> !OccursAt(prefix + SettingsDefaultsTag + (body + tail), SettingsDefaultsTag, j)
    requires '[' !in body
    requires |tail| > 0 && tail[0] == '[' && ']' in tail
    ensures MigrateToDefaultProfile(prefix + SettingsDefaultsTag + (body + tail))
      == Migrated(prefix + tail, "[settings]\n" + Strip(body))
  {
    var rest := body + tail;
    var conf := prefix + SettingsDefaultsTag + rest;
    LocateTag(prefix, rest);
    assert rest[|body|] == '[' && rest[..|body|] == body && rest[|body|..] == tail;
    FindChar(rest, '[', |body|);
    assert ']' in rest;
    ContainsChar(rest, ']');
    AsWrittenAt(conf, |prefix|, |body|);
  }

  /** On a well-formed conan.conf, where [settings_defaults] follows other
      text and is either the last section or followed by a section header,
      the code as written moves the section body into the profile and keeps
      every other section. */
  lemma MigrateToDefaultProfileMovesSection(prefix: string, body: string, tail: string)
    requires |prefix| > 0
    requires forall j :: 0 <= j < |prefix| ==> !OccursAt(prefix + SettingsDefaultsTag + (body + tail), SettingsDefaultsTag, j)
    requires '[' !in body
    requires (tail == [] && ']' !in body) || (|tail| > 0 && tail[0] == '[' && ']' in tail)
    ensures MigrateToDefaultProfile(prefix + SettingsDefaultsTag + body + tail)
      == Migrated(prefix + tail, "[settings]\n" + Strip(body))
  {
    assert prefix + SettingsDefaultsTag + body + tail == prefix + SettingsDefaultsTag + (body + tail);
    if tail == [] {
      assert body + tail == body && prefix + tail == prefix;
      AsWrittenLastSection(prefix, body);
    } else {
      AsWrittenBeforeHeader(prefix, body, tail);
    }
  }

  /** The intended transform moves the section wherever the tag is and
      whatever the body holds besides "[". */
  lemma IntendedMovesSection(prefix: string, body: string, tail: string)
    requires forall j :: 0 <= j < |prefix| ==> !OccursAt(prefix + SettingsDefaultsTag + (body + tail), SettingsDefaultsTag, j)
    requires '[' !in body
    requires tail == [] || tail[0] == '['
    ensures MigrateToDefaultProfileIntended(prefix + SettingsDefaultsTag + body + tail)
      == Migrated(prefix + tail, "[settings]\n" + Strip(body))
  {
    var rest := body + tail;
    LocateTag(prefix, rest);
    assert prefix + SettingsDefaultsTag + body + tail == prefix + SettingsDefaultsTag + rest;
    if tail == [] {
      assert rest == body;
      FindAbsentChar(rest, '[');
    } else {
      assert rest[|body|] == '[' && rest[..|body|] == body;
      FindChar(rest, '[', |body|);
      assert rest[|body|..] == tail;
    }
  }

  /** The as-written transform on a last section that holds a "]". */
  lemma AsWrittenStrayBracket(prefix: string, body: string)
    requires |prefix| > 0
    requires forall j :: 0 <= j < |prefix| ==> !OccursAt(prefix + SettingsDefaultsTag + body, SettingsDefaultsTag, j)
    requires '[' !in body && ']' in body
    ensures MigrateToDefaultProfile(prefix + SettingsDefaultsTag + body)
      == Migrated(prefix + [body[|body| - 1]], "[settings]\n" + Strip(body[..|body| - 1]))
  {
    var conf := prefix + SettingsDefaultsTag + body;
    LocateTag(prefix, body);
    FindAbsentChar(body, '[');
    ContainsChar(body, ']');
    assert body[|body| - 1..] == [body[|body| - 1]];
    AsWrittenAt(conf, |prefix|, -1);
  }

  /** The intended transform on a last section. */
  lemma IntendedLastSection(prefix: string, body: string)
    requires forall j :: 0 <= j < |prefix| ==> !OccursAt(prefix + SettingsDefaultsTag + body, SettingsDefaultsTag, j)
    requires '[' !in body
    ensures MigrateToDefaultProfileIntended(prefix + SettingsDefaultsTag + body)
      == Migrated(prefix, "[settings]\n" + Strip(body))
  {
    var conf := prefix + SettingsDefaultsTag + body;
    LocateTag(prefix, body);
    FindAbsentChar(body, '[');
    IntendedAt(conf, |prefix|, -1);
    assert body[|body|..] == [] && body[..|body|] == body && prefix + [] == prefix;
  }

  /** As written, a section that is the last one and holds a "]" loses its
      last character to conan.conf, where the intended transform moves all
      of it into the profile. */
  lemma MigrateToDefaultProfileStrayBracket(prefix: string, body: string)
    requires |prefix| > 0
    requires forall j :: 0 <= j < |prefix| ==> !OccursAt(prefix + SettingsDefaultsTag + body, SettingsDefaultsTag, j)
    requires '[' !in body && ']' in body
    ensures MigrateToDefaultProfile(prefix + SettingsDefaultsTag + body)
      == Migrated(prefix + [body[|body| - 1]], "[settings]\n" + Strip(body[..|body| - 1]))
    ensures MigrateToDefaultProfileIntended(prefix + SettingsDefaultsTag + body)
      == Migrated(prefix, "[settings]\n" + Strip(body))
    ensures MigrateToDefaultProfile(prefix + SettingsDefaultsTag + body)
      != MigrateToDefaultProfileIntended(prefix + SettingsDefaultsTag + body)
  {
    AsWrittenStrayBracket(prefix, body);
    IntendedLastSection(prefix, body);
    assert |prefix + [body[|body| - 1]]| != |prefix|;
  }

  /** As written, a conan.conf that starts with the tag is not migrated,
      where the intended transform moves the section into the profile. */
  lemma MigrateToDefaultProfileAtStart(body: string)
    requires '[' !in body
    ensures MigrateToDefaultProfile(SettingsDefaultsTag + body) == Unchanged
    ensures MigrateToDefaultProfileIntended(SettingsDefaultsTag + body) == Migrated("", "[settings]\n" + Strip(body))
  {
    assert SettingsDefaultsTag + body == [] + SettingsDefaultsTag + body;
    LocateTag([], body);
    IntendedLastSection([], body);
  }

  /** Whether the code as written changes anything: exactly when the tag is
      present and its first occurrence is not at offset 0. */
  lemma MigrateToDefaultProfileUnchanged(conf: string)
    ensures MigrateToDefaultProfile(conf).Unchanged? <==>
      !Contains(conf, SettingsDefaultsTag) || OccursAt(conf, SettingsDefaultsTag, 0)
  {
    if Contains(conf, SettingsDefaultsTag) && OccursAt(conf, SettingsDefaultsTag, 0) {
      FindFirst(conf, SettingsDefaultsTag, 0);
    }
  }

  // ---------------------------------------------------------------------
  // migrate_config_install

  /** The origin saved to the config_install file (_ConfigOrigin). */
  datatype ConfigOrigin = ConfigOrigin(configType: Option<string>, uri: string, verifySsl: bool, args: Option<string>)

  /** What the conversion of general.config_install does: nothing when the
      item is absent (the ConanException is swallowed), a saved origin, or an
      error for an item of any other shape, which propagates. */
  datatype ConfigInstallParse = NoItem | Converted(origin: ConfigOrigin) | Unrecognised(items: seq<string>)

  function StripAll(parts: seq<string>): (items: seq<string>)
    ensures |items| == |parts| && forall i :: 0 <= i < |parts| ==> items[i] == Strip(parts[i])
  {
    seq(|parts|, i requires 0 <= i < |parts| => Strip(parts[i]))
  }

  /** verify_ssl holds iff "true" occurs in its lower-case text; args is
      None iff "none" occurs in its lower-case text. */
  function Origin(configType: Option<string>, uri: string, verify: string, args: string): ConfigOrigin {
    ConfigOrigin(configType, uri, Contains(Lower(verify), "true"), if Contains(Lower(args), "none") then None else Some(args))
  }

  function ParseConfigInstall(item: Option<string>): ConfigInstallParse {
    if item.None? then NoItem
    else
      var items := StripAll(Split(item.value, ','));
      if |items| == 4 then Converted(Origin(Some(items[0]), items[1], items[2], items[3]))
      else if |items| == 1 then Converted(Origin(None, items[0], "True", "None"))
      else Unrecognised(items)
  }

  /** The item is refused exactly when it holds neither zero nor three commas. */
  lemma ConfigInstallShape(item: string)
    ensures ParseConfigInstall(Some(item)).Unrecognised? <==> Count(item, ',') != 0 && Count(item, ',') != 3
  {
    SplitJoin(item, ',');
  }

  /** A lone uri converts to an origin with no type, SSL verification on and
      no arguments. */
  lemma ConfigInstallUriOnly(uri: string)
    requires ',' !in uri
    ensures ParseConfigInstall(Some(uri)) == Converted(ConfigOrigin(None, Strip(uri), true, None))
  {
    SplitNoSeparator(uri, ',');
    assert Lower("True") == "true";
    assert OccursAt(Lower("True"), "true", 0);
    assert Lower("None") == "none";
    assert OccursAt(Lower("None"), "none", 0);
  }

  /** Joining four comma-free, stripped fields with commas and converting
      gives back the fields. */
  lemma ConfigInstallRoundTrip(configType: string, uri: string, verify: string, args: string)
    requires forall f :: f in [configType, uri, verify, args] ==> ',' !in f && Strip(f) == f
    ensures ParseConfigInstall(Some(Join([configType, uri, verify, args], ',')))
      == Converted(Origin(Some(configType), uri, verify, args))
  {
    JoinSplit([configType, uri, verify, args], ',');
  }

  // ---------------------------------------------------------------------
  // The effect of each step on the migrated files

  /** The files the migration steps read and write: settings.yml and
      settings.yml.new, conan.conf with its general.config_install item, the
      config_install file, the default profile, and the metadata files. */
  datatype MigrationFiles = MigrationFiles(
    settings: Option<string>, settingsNew: Option<string>,
    conf: string, configItem: Option<string>, configOrigins: Option<seq<ConfigOrigin>>,
    defaultProfile: Option<string>, metadata: map<RecipeId, MetaFile>)

  /** The outcome of the steps run so far, and the files they left. */
  datatype Progress = Progress(outcome: Outcome, files: MigrationFiles)

  /** The position of the first reference whose metadata file cannot be
      read, or |refs| when every one can. */
  function FirstUnreadable(meta: map<RecipeId, MetaFile>, refs: seq<RecipeId>): (k: nat)
    ensures k <= |refs|
    ensures forall j :: 0 <= j < k ==> !IsUnreadable(meta, refs[j])
    ensures k < |refs| ==> IsUnreadable(meta, refs[k])
    decreases |refs|
  {
    if refs == [] || IsUnreadable(meta, refs[0]) then 0
    else 1 + FirstUnreadable(meta, refs[1..])
  }

  /** conan.conf after migrate_plugins_to_hooks: every `[plugins]` section
      header becomes `[hooks]`; a file without one is left as it is. */
  function HooksConf(conf: string): (r: string)
    ensures !Contains(conf, "[plugins]") ==> r == conf
  {
    if !Contains(conf, "[plugins]") then
      ReplaceAbsent(conf, "[plugins]", "[hooks]");
      Replace(conf, "[plugins]", "[hooks]")
    else
      Replace(conf, "[plugins]", "[hooks]")
  }

  /** What one step does to the files, migrating from version `v`. */
  function StepEffect(s: Step, v: string, f: MigrationFiles, disk: CacheDisk,
                      shipped: map<string, string>, currentSettings: string): Progress
  {
    match s
    case SettingsYml =>
      Progress(Pass, match SettingsUpdate(f.settings, v, shipped, currentSettings)
                     case Overwrite => f.(settings := Some(currentSettings))
                     case WriteNew => f.(settingsNew := Some(currentSettings))
                     case _ => f)
    case DefaultProfile =>
      Progress(Pass, match MigrateToDefaultProfile(f.conf)
                     case Unchanged => f
                     case Migrated(conf, profile) => f.(conf := conf, defaultProfile := Some(profile)))
    case PluginsToHooks => Progress(Pass, f.(conf := HooksConf(f.conf)))
    case CreateMetadata => Progress(Pass, f.(metadata := Created(f.metadata, disk, disk.refs)))
    case ConfigInstall =>
      (match ParseConfigInstall(f.configItem)
       case NoItem => Progress(Pass, f)
       case Converted(origin) => Progress(Pass, f.(configItem := None, configOrigins := Some([origin])))
       case Unrecognised(items) => Progress(Failed(UnrecognisedConfigInstall(items)), f))
    case FullMetadata =>
      var k := FirstUnreadable(f.metadata, disk.refs);
      Progress(if k < |disk.refs| then Failed(MetadataMigrationFailed(disk.refs[k])) else Pass,
               f.(metadata := FullyMigrated(f.metadata, disk, disk.refs[..k])))
    case _ => Progress(Pass, f)
  }

  /** Only the config install and the full metadata repair can fail, each
      with its own error, and each file is written only by its own steps:
      conan.conf by the default profile and plugins-to-hooks steps. */
  lemma StepEffectFacts(s: Step, v: string, f: MigrationFiles, disk: CacheDisk,
                        shipped: map<string, string>, currentSettings: string)
    ensures var p := StepEffect(s, v, f, disk, shipped, currentSettings);
      (p.outcome.Failed? ==>
        (s == ConfigInstall && p.outcome.error.UnrecognisedConfigInstall?)
        || (s == FullMetadata && p.outcome.error.MetadataMigrationFailed?))
      && (s != SettingsYml ==> p.files.settings == f.settings && p.files.settingsNew == f.settingsNew)
      && (s != DefaultProfile && s != PluginsToHooks ==> p.files.conf == f.conf)
      && (s != DefaultProfile ==> p.files.defaultProfile == f.defaultProfile)
      && (s != ConfigInstall ==> p.files.configItem == f.configItem && p.files.configOrigins == f.configOrigins)
      && (s != CreateMetadata && s != FullMetadata ==> p.files.metadata == f.metadata)
  {
  }

  /** The steps run in order from the files `f`; the first that fails stops
      the migration with the files as it leaves them. */
  function Migrate(steps: seq<Step>, v: string, f: MigrationFiles, disk: CacheDisk,
                   shipped: map<string, string>, currentSettings: string): Progress
    decreases |steps|
  {
    if steps == [] then Progress(Pass, f)
    else
      var before := Migrate(steps[..|steps| - 1], v, f, disk, shipped, currentSettings);
      if before.outcome.Failed? then before
      else StepEffect(steps[|steps| - 1], v, before.files, disk, shipped, currentSettings)
  }

  /** The plan through step `k` runs that step after the plan before it,
      when its gate holds and nothing has failed. */
  lemma MigrateNext(v: string, less: (string, string) -> bool, profileExists: bool, k: nat,
                    f: MigrationFiles, disk: CacheDisk, shipped: map<string, string>, currentSettings: string)
    requires k < |Order|
    ensures var before := Migrate(StepsBelow(v, less, profileExists, k), v, f, disk, shipped, currentSettings);
      Migrate(StepsBelow(v, less, profileExists, k + 1), v, f, disk, shipped, currentSettings)
        == if before.outcome.Failed? || !Runs(Order[k], v, less, profileExists) then before
           else StepEffect(Order[k], v, before.files, disk, shipped, currentSettings)
  {
    var sb := StepsBelow(v, less, profileExists, k);
    if Runs(Order[k], v, less, profileExists) {
      assert (sb + [Order[k]])[..|sb|] == sb;
    } else {
      assert sb + [] == sb;
    }
  }

  /** Once a step has failed, the rest of the plan changes nothing. */
  lemma {:induction false} MigrateStopsBelow(v: string, less: (string, string) -> bool, profileExists: bool,
                                             k: nat, n: nat, f: MigrationFiles, disk: CacheDisk,
                                             shipped: map<string, string>, currentSettings: string)
    requires k <= n <= |Order|
    requires Migrate(StepsBelow(v, less, profileExists, k), v, f, disk, shipped, currentSettings).outcome.Failed?
    ensures Migrate(StepsBelow(v, less, profileExists, n), v, f, disk, shipped, currentSettings)
         == Migrate(StepsBelow(v, less, profileExists, k), v, f, disk, shipped, currentSettings)
    decreases n
  {
    if n > k {
      MigrateStopsBelow(v, less, profileExists, k, n - 1, f, disk, shipped, currentSettings);
      MigrateNext(v, less, profileExists, n - 1, f, disk, shipped, currentSettings);
    }
  }

  /** A file no step of the plan writes is left as it was. */
  lemma {:induction false} MigrationFrame(steps: seq<Step>, v: string, f: MigrationFiles, disk: CacheDisk,
                                          shipped: map<string, string>, currentSettings: string)
    ensures var p := Migrate(steps, v, f, disk, shipped, currentSettings);
      (SettingsYml !in steps ==> p.files.settings == f.settings && p.files.settingsNew == f.settingsNew)
      && (DefaultProfile !in steps && PluginsToHooks !in steps ==> p.files.conf == f.conf)
      && (DefaultProfile !in steps ==> p.files.defaultProfile == f.defaultProfile)
      && (ConfigInstall !in steps ==> p.files.configItem == f.configItem && p.files.configOrigins == f.configOrigins)
      && (CreateMetadata !in steps && FullMetadata !in steps ==> p.files.metadata == f.metadata)
    decreases |steps|
  {
    if steps != [] {
      var init := steps[..|steps| - 1];
      MigrationFrame(init, v, f, disk, shipped, currentSettings);
      StepEffectFacts(steps[|steps| - 1], v, Migrate(init, v, f, disk, shipped, currentSettings).files,
                      disk, shipped, currentSettings);
      assert forall s :: s in init ==> s in steps;
      assert steps[|steps| - 1] in steps;
    }
  }

  /** Every reference found on disk has a readable, consistent record. */
  predicate AllConsistent(meta: map<RecipeId, MetaFile>, disk: CacheDisk) {
    forall id :: id in disk.refs ==> id in meta && meta[id].Parsed? && Consistent(meta[id].record, disk, id)
  }

  /** A full metadata repair that succeeds leaves every record consistent,
      and no step that succeeds afterwards breaks one. */
  lemma StepKeepsConsistent(s: Step, v: string, f: MigrationFiles, disk: CacheDisk,
                            shipped: map<string, string>, currentSettings: string)
    requires s == FullMetadata || AllConsistent(f.metadata, disk)
    ensures var p := StepEffect(s, v, f, disk, shipped, currentSettings);
      p.outcome.Pass? ==> AllConsistent(p.files.metadata, disk)
  {
    var p := StepEffect(s, v, f, disk, shipped, currentSettings);
    if s == FullMetadata && p.outcome.Pass? {
      assert disk.refs[..|disk.refs|] == disk.refs;
      FullyMigratedFacts(f.metadata, disk, disk.refs);
    } else if s == CreateMetadata {
      CreatedFacts(f.metadata, disk, disk.refs);
    }
  }

  /** A migration that runs the full metadata repair and succeeds leaves a
      consistent record for every reference in the cache. */
  lemma {:induction false} MigrationRepairsMetadata(steps: seq<Step>, v: string, f: MigrationFiles, disk: CacheDisk,
                                                    shipped: map<string, string>, currentSettings: string)
    requires FullMetadata in steps
    ensures var p := Migrate(steps, v, f, disk, shipped, currentSettings);
      p.outcome.Pass? ==> AllConsistent(p.files.metadata, disk)
    decreases |steps|
  {
    var init, last := steps[..|steps| - 1], steps[|steps| - 1];
    var before := Migrate(init, v, f, disk, shipped, currentSettings);
    if FullMetadata in init {
      MigrationRepairsMetadata(init, v, f, disk, shipped, currentSettings);
    } else {
      assert steps == init + [last];
    }
    if before.outcome.Pass? {
      StepKeepsConsistent(last, v, before.files, disk, shipped, currentSettings);
    }
  }

  /** A migration that runs the config install step and succeeds leaves no
      general.config_install item, and an item there was is saved as the
      single origin it converts to. */
  lemma {:induction false} MigrationConvertsConfigItem(steps: seq<Step>, v: string, f: MigrationFiles, disk: CacheDisk,
                                                       shipped: map<string, string>, currentSettings: string)
    requires ConfigInstall in steps
    ensures var p := Migrate(steps, v, f, disk, shipped, currentSettings);
      p.outcome.Pass? ==>
        p.files.configItem.None?
        && (f.configItem.Some? ==>
              ParseConfigInstall(f.configItem).Converted?
              && p.files.configOrigins == Some([ParseConfigInstall(f.configItem).origin]))
    decreases |steps|
  {
    var init, last := steps[..|steps| - 1], steps[|steps| - 1];
    assert steps == init + [last];
    var before := Migrate(init, v, f, disk, shipped, currentSettings);
    if before.outcome.Pass? {
      ConfigInstallEffect(v, before.files, disk, shipped, currentSettings);
      if ConfigInstall in init {
        MigrationConvertsConfigItem(init, v, f, disk, shipped, currentSettings);
        StepEffectFacts(last, v, before.files, disk, shipped, currentSettings);
      } else {
        MigrationFrame(init, v, f, disk, shipped, currentSettings);
      }
    }
  }

  /** The config install step converts a recognised item into the single
      saved origin and leaves files without an item as they are. */
  lemma ConfigInstallEffect(v: string, f: MigrationFiles, disk: CacheDisk,
                            shipped: map<string, string>, currentSettings: string)
    ensures var p := StepEffect(ConfigInstall, v, f, disk, shipped, currentSettings);
      (f.configItem.None? ==> p == Progress(Pass, f))
      && (p.outcome.Pass? ==> p.files.configItem.None?)
      && (p.outcome.Pass? && f.configItem.Some? ==>
            ParseConfigInstall(f.configItem).Converted?
            && p.files.configOrigins == Some([ParseConfigInstall(f.configItem).origin]))
  {
  }

  /** The settings update runs first and no later step writes settings.yml,
      so every migration leaves it as that update does. */
  lemma {:induction false} MigrationUpdatesSettings(v: string, less: (string, string) -> bool, profileExists: bool,
                                                    n: nat, f: MigrationFiles, disk: CacheDisk,
                                                    shipped: map<string, string>, currentSettings: string)
    requires 0 < n <= |Order|
    ensures var p := Migrate(StepsBelow(v, less, profileExists, n), v, f, disk, shipped, currentSettings);
      var first := StepEffect(SettingsYml, v, f, disk, shipped, currentSettings).files;
      p.files.settings == first.settings && p.files.settingsNew == first.settingsNew
    decreases n
  {
    MigrateNext(v, less, profileExists, n - 1, f, disk, shipped, currentSettings);
    if n > 1 {
      var before := Migrate(StepsBelow(v, less, profileExists, n - 1), v, f, disk, shipped, currentSettings);
      MigrationUpdatesSettings(v, less, profileExists, n - 1, f, disk, shipped, currentSettings);
      StepEffectFacts(Order[n - 1], v, before.files, disk, shipped, currentSettings);
      assert Order[n - 1] != SettingsYml;
    }
  }

  /** What a migration from an older release leaves behind: below 1.14.2
      every reference has a consistent record, below 1.14.0 the config item
      is converted, and a step that does not run leaves its files alone. */
  lemma MigrationFromRelease(v: string, less: (string, string) -> bool, profileExists: bool, f: MigrationFiles,
                             disk: CacheDisk, shipped: map<string, string>, currentSettings: string)
    ensures var p := Migrate(MigrationSteps(Some(v), less, profileExists), v, f, disk, shipped, currentSettings);
      (p.outcome.Pass? && less(v, "1.14.2") ==> AllConsistent(p.files.metadata, disk))
      && (p.outcome.Pass? && less(v, "1.14.0") ==> p.files.configItem.None?)
      && (!less(v, "1.14.0") ==> p.files.configItem == f.configItem && p.files.configOrigins == f.configOrigins)
      && (!less(v, "1.13.0") && !less(v, "1.14.2") ==> p.files.metadata == f.metadata)
      && (!(less(v, "0.25") && !profileExists) ==> p.files.defaultProfile == f.defaultProfile)
      && (!(less(v, "0.25") && !profileExists) && !less(v, "1.12.0") ==> p.files.conf == f.conf)
      && (SettingsUpdate(f.settings, v, shipped, currentSettings) == Overwrite ==>
            p.files.settings == Some(currentSettings) && p.files.settingsNew == f.settingsNew)
      && (SettingsUpdate(f.settings, v, shipped, currentSettings) == WriteNew ==>
            p.files.settings == f.settings && p.files.settingsNew == Some(currentSettings))
  {
    var steps := MigrationSteps(Some(v), less, profileExists);
    MigrationUpdatesSettings(v, less, profileExists, |Order|, f, disk, shipped, currentSettings);
    MigrationStepsGated(Some(v), less, profileExists, FullMetadata);
    MigrationStepsGated(Some(v), less, profileExists, ConfigInstall);
    MigrationStepsGated(Some(v), less, profileExists, CreateMetadata);
    MigrationStepsGated(Some(v), less, profileExists, DefaultProfile);
    MigrationStepsGated(Some(v), less, profileExists, PluginsToHooks);
    MigrationFrame(steps, v, f, disk, shipped, currentSettings);
    if less(v, "1.14.2") {
      MigrationRepairsMetadata(steps, v, f, disk, shipped, currentSettings);
    }
    if less(v, "1.14.0") {
      MigrationConvertsConfigItem(steps, v, f, disk, shipped, currentSettings);
    }
  }

  // ---------------------------------------------------------------------
  // The migrator

  /** ClientMigrator: the files it migrates, and the steps it has run. The
      housekeeping steps (lock files, the old export_source layout, the
      remote registry) are recorded by name only; plugins to hooks rewrites
      the section header in conan.conf. */
  class ClientMigrator {
    const cache: ClientCache
    const disk: CacheDisk
    /** The settings.yml each version shipped, by attribute name. */
    const shipped: map<string, string>
    const currentSettings: string
    /** The order of Version. */
    const less: (string, string) -> bool
    /** settings.yml and settings.yml.new; None when absent. */
    var settings: Option<string>
    var settingsNew: Option<string>
    /** conan.conf, its general.config_install item, and the
        config_install file. */
    var conf: string
    var configItem: Option<string>
    var configOrigins: Option<seq<ConfigOrigin>>
    var defaultProfile: Option<string>
    var ran: seq<Step>

    constructor (cache: ClientCache, disk: CacheDisk, shipped: map<string, string>, currentSettings: string,
                 less: (string, string) -> bool, settings: Option<string>, conf: string,
                 configItem: Option<string>, defaultProfile: Option<string>)
      ensures this.cache == cache && this.disk == disk && this.shipped == shipped
      ensures this.currentSettings == currentSettings && this.less == less
      ensures this.settings == settings && this.conf == conf && this.configItem == configItem
      ensures this.defaultProfile == defaultProfile
      ensures settingsNew.None? && configOrigins.None? && ran == []
    {
      this.cache := cache;
      this.disk := disk;
      this.shipped := shipped;
      this.currentSettings := currentSettings;
      this.less := less;
      this.settings := settings;
      this.conf := conf;
      this.configItem := configItem;
      this.defaultProfile := defaultProfile;
      settingsNew := None;
      configOrigins := None;
      ran := [];
    }

    /** The files the steps migrate, as they are now. */
    function Files(): MigrationFiles
      reads this`settings, this`settingsNew, this`conf, this`configItem, this`configOrigins,
            this`defaultProfile, cache`metadata
    {
      MigrationFiles(settings, settingsNew, conf, configItem, configOrigins, defaultProfile, cache.metadata)
    }

    /** _update_settings_yml. */
    method UpdateSettingsYml(oldVersion: string)
      modifies this`settings, this`settingsNew
      ensures var action := SettingsUpdate(old(settings), oldVersion, shipped, currentSettings);
        (action == Overwrite ==> settings == Some(currentSettings) && settingsNew == old(settingsNew))
        && (action == WriteNew ==> settings == old(settings) && settingsNew == Some(currentSettings))
        && (action == NoSettingsYet || action == AlreadyUpToDate ==>
              settings == old(settings) && settingsNew == old(settingsNew))
    {
      if settings.None? {
        return;
      }
      var name := SettingsVarName(oldVersion);
      if name in shipped {
        if shipped[name] != currentSettings {
          if settings.value != shipped[name] {
            settingsNew := Some(currentSettings);
          } else {
            settings := Some(currentSettings);
          }
        }
      } else {
        settingsNew := Some(currentSettings);
      }
    }

    /** The call of migrate_to_default_profile on conan.conf and the default
        profile. */
    method MoveSettingsDefaults()
      modifies this`conf, this`defaultProfile
      ensures MigrateToDefaultProfile(old(conf)).Unchanged? ==>
        conf == old(conf) && defaultProfile == old(defaultProfile)
      ensures MigrateToDefaultProfile(old(conf)).Migrated? ==>
        conf == MigrateToDefaultProfile(old(conf)).conf
        && defaultProfile == Some(MigrateToDefaultProfile(old(conf)).profile)
    {
      var m := MigrateToDefaultProfile(conf);
      if m.Migrated? {
        conf := m.conf;
        defaultProfile := Some(m.profile);
      }
    }

    /** migrate_config_install: the item becomes the single saved origin
        and is removed from conan.conf. */
    method MigrateConfigInstall() returns (r: Outcome)
      modifies this`configItem, this`configOrigins
      ensures ParseConfigInstall(old(configItem)).NoItem? ==>
        r == Pass && configItem == old(configItem) && configOrigins == old(configOrigins)
      ensures ParseConfigInstall(old(configItem)).Converted? ==>
        r == Pass && configItem.None? && configOrigins == Some([ParseConfigInstall(old(configItem)).origin])
      ensures ParseConfigInstall(old(configItem)).Unrecognised? ==>
        r == Failed(UnrecognisedConfigInstall(ParseConfigInstall(old(configItem)).items))
        && configItem == old(configItem) && configOrigins == old(configOrigins)
    {
      match ParseConfigInstall(configItem)
      case NoItem =>
        return Pass;
      case Converted(origin) =>
        configOrigins := Some([origin]);
        configItem := None;
        return Pass;
      case Unrecognised(items) =>
        return Failed(UnrecognisedConfigInstall(items));
    }

    /** One step of _make_migrations, recorded as run. Only the config
        install conversion and the full metadata repair can fail. */
    method RunStep(s: Step, v: string) returns (r: Outcome)
      modifies this`ran, this`settings, this`settingsNew, this`conf, this`defaultProfile, this`configItem, this`configOrigins, cache`metadata
      ensures ran == old(ran) + [s]
      ensures Progress(r, Files()) == StepEffect(s, v, old(Files()), disk, shipped, currentSettings)
      ensures r.Failed? ==>
        (s == ConfigInstall && r.error.UnrecognisedConfigInstall?)
        || (s == FullMetadata && r.error.MetadataMigrationFailed?)
      ensures s != DefaultProfile ==> defaultProfile == old(defaultProfile)
    {
      ran := ran + [s];
      r := Pass;
      match s
      case SettingsYml => UpdateSettingsYml(v);
      case DefaultProfile => MoveSettingsDefaults();
      case CreateMetadata => MigrateCreateMetadata(cache, disk);
      case ConfigInstall => r := MigrateConfigInstall();
      case FullMetadata => r := MigrateFullMetadata(cache, disk);
      case CSrcExportSource =>
      case LockFiles =>
      case PluginsToHooks => conf := HooksConf(conf);
      case RegistryFile =>
    }

    /** A step of _make_migrations behind its version gate: a step whose
        gate holds runs, with its effect on the files; any other changes
        nothing. The steps run from `base` and the files from `start` on
        extend to this step. */
    method Gate(s: Step, v: string, profileExists: bool, ghost base: seq<Step>, ghost start: MigrationFiles)
      returns (r: Outcome)
      requires Rank(s) > 0 && ran == base + StepsBelow(v, less, profileExists, Rank(s))
      requires Migrate(StepsBelow(v, less, profileExists, Rank(s)), v, start, disk, shipped, currentSettings)
            == Progress(Pass, Files())
      modifies this`ran, this`settings, this`settingsNew, this`conf, this`defaultProfile, this`configItem, this`configOrigins, cache`metadata
      ensures !Runs(s, v, less, profileExists) ==> r == Pass && Files() == old(Files()) && ran == old(ran)
      ensures Runs(s, v, less, profileExists) ==>
        Progress(r, Files()) == StepEffect(s, v, old(Files()), disk, shipped, currentSettings)
      ensures ran == base + StepsBelow(v, less, profileExists, Rank(s) + 1)
      ensures Migrate(StepsBelow(v, less, profileExists, Rank(s) + 1), v, start, disk, shipped, currentSettings)
           == Progress(r, Files())
      ensures r.Failed? ==>
        (s == ConfigInstall && r.error.UnrecognisedConfigInstall?)
        || (s == FullMetadata && r.error.MetadataMigrationFailed?)
    {
      r := Pass;
      StepsBelowExtend(base, v, less, profileExists, Rank(s));
      MigrateNext(v, less, profileExists, Rank(s), start, disk, shipped, currentSettings);
      if Runs(s, v, less, profileExists) {
        r := RunStep(s, v);
      }
    }

    /** _make_migrations: with no previous version nothing runs; otherwise
        the steps whose gate holds run in order, each with its effect on the
        files, and the first that raises stops the migration. */
    method MakeMigrations(oldVersion: Option<string>) returns (r: Outcome)
      modifies this`ran, this`settings, this`settingsNew, this`conf, this`defaultProfile, this`configItem, this`configOrigins, cache`metadata
      ensures oldVersion.None? ==> r == Pass && unchanged(this) && unchanged(cache)
      ensures oldVersion.Some? ==>
        Progress(r, Files()) == Migrate(MigrationSteps(oldVersion, less, old(defaultProfile).Some?), oldVersion.value,
                                        old(Files()), disk, shipped, currentSettings)
      ensures oldVersion.Some? && r.Pass? ==>
        ran == old(ran) + MigrationSteps(oldVersion, less, old(defaultProfile).Some?)
      // a failure stops the plan right after the step that raised it
      ensures r.Failed? ==>
        oldVersion.Some?
        && ((r.error.UnrecognisedConfigInstall?
             && ran == old(ran) + StepsBelow(oldVersion.value, less, old(defaultProfile).Some?, Rank(ConfigInstall) + 1))
            || (r.error.MetadataMigrationFailed?
             && ran == old(ran) + StepsBelow(oldVersion.value, less, old(defaultProfile).Some?, Rank(FullMetadata) + 1)))
    {
      if oldVersion.None? {
        return Pass;
      }
      r := MigrateFrom(oldVersion.value);
    }

    /** The body of _make_migrations below its first line. */
    method MigrateFrom(v: string) returns (r: Outcome)
      modifies this`ran, this`settings, this`settingsNew, this`conf, this`defaultProfile, this`configItem, this`configOrigins, cache`metadata
      ensures Progress(r, Files())
           == Migrate(StepsBelow(v, less, old(defaultProfile).Some?, |Order|), v, old(Files()), disk, shipped, currentSettings)
      ensures r.Pass? ==> ran == old(ran) + StepsBelow(v, less, old(defaultProfile).Some?, |Order|)
      ensures r.Failed? ==>
        (r.error.UnrecognisedConfigInstall?
         && ran == old(ran) + StepsBelow(v, less, old(defaultProfile).Some?, Rank(ConfigInstall) + 1))
        || (r.error.MetadataMigrationFailed?
         && ran == old(ran) + StepsBelow(v, less, old(defaultProfile).Some?, Rank(FullMetadata) + 1))
    {
      ghost var start := Files();
      r := RunStep(SettingsYml, v);
      // the default profile is looked for after the settings update, which leaves it alone
      var profileExists := defaultProfile.Some?;
      assert ran == old(ran) + StepsBelow(v, less, profileExists, 1);
      MigrateNext(v, less, profileExists, 0, start, disk, shipped, currentSettings);
      r := GatesThroughConfigInstall(v, profileExists, old(ran), start);
      if r.Failed? {
        MigrateStopsBelow(v, less, profileExists, Rank(ConfigInstall) + 1, |Order|, start, disk, shipped, currentSettings);
        return;
      }
      r := GatesAfterConfigInstall(v, profileExists, old(ran), start);
    }

    /** The gated steps from the default profile to the config install. */
    method GatesThroughConfigInstall(v: string, profileExists: bool, ghost base: seq<Step>, ghost start: MigrationFiles)
      returns (r: Outcome)
      requires ran == base + StepsBelow(v, less, profileExists, 1)
      requires Migrate(StepsBelow(v, less, profileExists, 1), v, start, disk, shipped, currentSettings)
            == Progress(Pass, Files())
      modifies this`ran, this`settings, this`settingsNew, this`conf, this`defaultProfile, this`configItem, this`configOrigins, cache`metadata
      ensures ran == base + StepsBelow(v, less, profileExists, Rank(ConfigInstall) + 1)
      ensures Migrate(StepsBelow(v, less, profileExists, Rank(ConfigInstall) + 1), v, start, disk, shipped, currentSettings)
           == Progress(r, Files())
      ensures r.Failed? ==> r.error.UnrecognisedConfigInstall?
    {
      HousekeepingGates(v, profileExists, base, start);
      r := Gate(CreateMetadata, v, profileExists, base, start);
      r := Gate(ConfigInstall, v, profileExists, base, start);
    }

    /** The gated steps from the default profile to plugins-to-hooks, none
        of which can fail. */
    method HousekeepingGates(v: string, profileExists: bool, ghost base: seq<Step>, ghost start: MigrationFiles)
      requires ran == base + StepsBelow(v, less, profileExists, 1)
      requires Migrate(StepsBelow(v, less, profileExists, 1), v, start, disk, shipped, currentSettings)
            == Progress(Pass, Files())
      modifies this`ran, this`settings, this`settingsNew, this`conf, this`defaultProfile, this`configItem, this`configOrigins, cache`metadata
      ensures ran == base + StepsBelow(v, less, profileExists, Rank(PluginsToHooks) + 1)
      ensures Migrate(StepsBelow(v, less, profileExists, Rank(PluginsToHooks) + 1), v, start, disk, shipped, currentSettings)
           == Progress(Pass, Files())
    {
      var r := Gate(DefaultProfile, v, profileExists, base, start);
      r := Gate(CSrcExportSource, v, profileExists, base, start);
      r := Gate(LockFiles, v, profileExists, base, start);
      r := Gate(PluginsToHooks, v, profileExists, base, start);
    }

    /** The gated steps after the config install; the full metadata
        migration may fail and stop the rest. */
    method GatesAfterConfigInstall(v: string, profileExists: bool, ghost base: seq<Step>, ghost start: MigrationFiles)
      returns (r: Outcome)
      requires ran == base + StepsBelow(v, less, profileExists, Rank(ConfigInstall) + 1)
      requires Migrate(StepsBelow(v, less, profileExists, Rank(ConfigInstall) + 1), v, start, disk, shipped, currentSettings)
            == Progress(Pass, Files())
      modifies this`ran, this`settings, this`settingsNew, this`conf, this`defaultProfile, this`configItem, this`configOrigins, cache`metadata
      ensures Migrate(StepsBelow(v, less, profileExists, |Order|), v, start, disk, shipped, currentSettings)
           == Progress(r, Files())
      ensures r.Pass? ==> ran == base + StepsBelow(v, less, profileExists, |Order|)
      ensures r.Failed? ==>
        r.error.MetadataMigrationFailed? && ran == base + StepsBelow(v, less, profileExists, Rank(FullMetadata) + 1)
    {
      r := Gate(FullMetadata, v, profileExists, base, start);
      if r.Failed? {
        MigrateStopsBelow(v, less, profileExists, Rank(FullMetadata) + 1, |Order|, start, disk, shipped, currentSettings);
        return;
      }
      r := Gate(RegistryFile, v, profileExists, base, start);
    }
  }
}
