/** Copying a cache entry to another user/channel (cmd/copy.py): the
    export folder, the export-sources folder and the selected binaries are
    copied, overwrites can be declined, and the destination metadata is
    rewritten from the revisions recorded for the source. */
module Copy {
  import opened Common
  import opened Cache
  import Source

  /** The package_ids argument: falsy (do not copy binaries), True (every
      existing binary) or an explicit list. */
  datatype PackageSelection = NoPackages | AllPackages | Listed(ids: seq<string>)

  /** _get_package_ids. `listing` is the content of the packages folder, None
      when that folder does not exist. */
  function GetPackageIds(selection: PackageSelection, listing: Option<seq<string>>): (ids: seq<string>)
    ensures selection.NoPackages? ==> ids == []
    ensures selection.AllPackages? ==> (listing.None? ==> ids == []) && (listing.Some? ==> ids == listing.value)
    ensures selection.Listed? ==> ids == selection.ids
  {
    match selection
    case NoPackages => []
    case AllPackages => listing.GetOr([])
    case Listed(ids) => ids
  }

  /** The destination reference: the source's name and version under the
      given user and channel, without a revision. */
  function DestinationRef(src: Reference, user: string, channel: string): (d: Reference)
    ensures d.id.name == src.id.name && d.id.version == src.id.version
    ensures d.id.user == user && d.id.channel == channel
    ensures d.revision.None?
  {
    Reference(RecipeId(src.id.name, src.id.version, user, channel), None)
  }

  // ---------------------------------------------------------------------
  // The binaries loop of package_copy
  // ---------------------------------------------------------------------

  datatype CopyState = CopyState(store: map<Folder, Tree>, trace: seq<Event>,
                                 revs: map<string, PackageMeta>, failure: Option<Error>)

  /** The revision pair recorded for a copied binary: its own revision and
      the recipe revision, both as the source metadata holds them. */
  function RecordedPair(srcMeta: Metadata, packageId: string): PackageMeta {
    PackageMeta(PackageEntry(srcMeta, packageId).revision, srcMeta.recipe.revision)
  }

  /** Whether a binary may be written: its destination is absent, the copy
      is forced, or the user agrees to the override. */
  predicate MayWrite(store: map<Folder, Tree>, dst: RecipeId, short: bool, force: bool,
                     answer: Question -> bool, packageId: string) {
    PackageFolder(dst, packageId, short) !in store || force || answer(OverridePackage(packageId))
  }

  /** One iteration over a package id. */
  function CopyPackage(st: CopyState, src: RecipeId, dst: RecipeId, short: bool, force: bool,
                       answer: Question -> bool, srcMeta: Metadata, packageId: string): CopyState {
    var origin := PackageFolder(src, packageId, short);
    var dest := PackageFolder(dst, packageId, short);
    var asked := if dest in st.store && !force then [Asked(OverridePackage(packageId))] else [];
    if !MayWrite(st.store, dst, short, force, answer, packageId) then st.(trace := st.trace + asked)
    else
      var cleared := st.store - {dest};
      var revs := st.revs[packageId := RecordedPair(srcMeta, packageId)];
      if origin !in cleared then CopyState(cleared, st.trace + asked, revs, Some(MissingFolder(origin)))
      else CopyState(cleared[dest := cleared[origin]], st.trace + asked, revs, None)
  }

  /** One iteration touches only the destination folder of its id, records
      only its id, and asks nothing when forced. */
  lemma CopyPackageEffect(st: CopyState, src: RecipeId, dst: RecipeId, short: bool, force: bool,
                          answer: Question -> bool, srcMeta: Metadata, packageId: string)
    ensures var e := CopyPackage(st, src, dst, short, force, answer, srcMeta, packageId);
      (forall f :: f != PackageFolder(dst, packageId, short) ==>
        (f in e.store <==> f in st.store) && (f in st.store ==> e.store[f] == st.store[f]))
      && (forall p :: p in e.revs ==>
        (p in st.revs && e.revs[p] == st.revs[p]) || (p == packageId && e.revs[p] == RecordedPair(srcMeta, p)))
      && (force ==> e.trace == st.trace)
  {
  }

  /** The loop over the ids, stopping at the first failure. */
  function CopyPackages(st: CopyState, src: RecipeId, dst: RecipeId, short: bool, force: bool,
                        answer: Question -> bool, srcMeta: Metadata, ids: seq<string>): CopyState
    decreases |ids|
  {
    if ids == [] then st
    else
      var before := CopyPackages(st, src, dst, short, force, answer, srcMeta, ids[..|ids| - 1]);
      if before.failure.Some? then before
      else CopyPackage(before, src, dst, short, force, answer, srcMeta, ids[|ids| - 1])
  }

  /** One more id runs CopyPackage on the state so far, unless that has failed. */
  lemma CopyPackagesNext(st: CopyState, src: RecipeId, dst: RecipeId, short: bool, force: bool,
                         answer: Question -> bool, srcMeta: Metadata, ids: seq<string>, i: nat)
    requires i < |ids|
    ensures var before := CopyPackages(st, src, dst, short, force, answer, srcMeta, ids[..i]);
      CopyPackages(st, src, dst, short, force, answer, srcMeta, ids[..i + 1])
        == if before.failure.Some? then before else CopyPackage(before, src, dst, short, force, answer, srcMeta, ids[i])
  {
    assert ids[..i + 1][..i] == ids[..i];
  }

  lemma {:induction false} CopyPackagesStops(st: CopyState, src: RecipeId, dst: RecipeId, short: bool, force: bool,
                                             answer: Question -> bool, srcMeta: Metadata, ids: seq<string>, n: nat)
    requires n <= |ids|
    requires CopyPackages(st, src, dst, short, force, answer, srcMeta, ids[..n]).failure.Some?
    ensures CopyPackages(st, src, dst, short, force, answer, srcMeta, ids)
         == CopyPackages(st, src, dst, short, force, answer, srcMeta, ids[..n])
    decreases |ids|
  {
    if n < |ids| {
      assert ids[..|ids| - 1][..n] == ids[..n];
      CopyPackagesStops(st, src, dst, short, force, answer, srcMeta, ids[..|ids| - 1], n);
    } else {
      assert ids[..n] == ids;
    }
  }

  /** The loop only ever touches the destination package folders of the
      listed ids; a forced copy asks nothing. */
  lemma {:induction false} CopyPackagesFrame(st: CopyState, src: RecipeId, dst: RecipeId, short: bool, force: bool,
                                             answer: Question -> bool, srcMeta: Metadata, ids: seq<string>)
    requires st.failure.None?
    ensures var e := CopyPackages(st, src, dst, short, force, answer, srcMeta, ids);
      forall f :: ((f in e.store <==> f in st.store) && (f in st.store ==> e.store[f] == st.store[f]))
        || (f.PackageFolder? && f.id == dst && f.short == short && f.packageId in ids)
    ensures force ==> CopyPackages(st, src, dst, short, force, answer, srcMeta, ids).trace == st.trace
    decreases |ids|
  {
    if ids != [] {
      var init := ids[..|ids| - 1];
      CopyPackagesFrame(st, src, dst, short, force, answer, srcMeta, init);
      CopyPackageEffect(CopyPackages(st, src, dst, short, force, answer, srcMeta, init),
                        src, dst, short, force, answer, srcMeta, ids[|ids| - 1]);
      assert forall p :: p in init ==> p in ids;
      assert ids[|ids| - 1] in ids;
    }
  }

  /** A binary whose destination exists and whose override is declined
      keeps its destination and is never recorded. */
  lemma {:induction false} DeclinedPackagesAreKept(st: CopyState, src: RecipeId, dst: RecipeId, short: bool,
                                                   answer: Question -> bool, srcMeta: Metadata, ids: seq<string>,
                                                   packageId: string)
    requires st.failure.None?
    requires PackageFolder(dst, packageId, short) in st.store && !answer(OverridePackage(packageId))
    requires packageId !in st.revs
    ensures var e := CopyPackages(st, src, dst, short, false, answer, srcMeta, ids);
      PackageFolder(dst, packageId, short) in e.store
      && e.store[PackageFolder(dst, packageId, short)] == st.store[PackageFolder(dst, packageId, short)]
      && packageId !in e.revs
    decreases |ids|
  {
    if ids != [] {
      DeclinedPackagesAreKept(st, src, dst, short, answer, srcMeta, ids[..|ids| - 1], packageId);
    }
  }

  /** Every recorded binary was listed and carries its source revision pair. */
  lemma {:induction false} RecordedPackagesAreListed(st: CopyState, src: RecipeId, dst: RecipeId, short: bool, force: bool,
                                                     answer: Question -> bool, srcMeta: Metadata, ids: seq<string>)
    requires st.failure.None?
    ensures var e := CopyPackages(st, src, dst, short, force, answer, srcMeta, ids);
      forall p :: p in e.revs ==>
        (p in st.revs && e.revs[p] == st.revs[p]) || (p in ids && e.revs[p] == RecordedPair(srcMeta, p))
    decreases |ids|
  {
    if ids != [] {
      var init := ids[..|ids| - 1];
      RecordedPackagesAreListed(st, src, dst, short, force, answer, srcMeta, init);
      CopyPackageEffect(CopyPackages(st, src, dst, short, force, answer, srcMeta, init),
                        src, dst, short, force, answer, srcMeta, ids[|ids| - 1]);
      assert forall p :: p in init ==> p in ids;
      assert ids[|ids| - 1] in ids;
    }
  }

  /** When the loop succeeds between two different recipes, every listed
      binary that may be written is recorded with its source revision pair
      and its destination holds the source binary. */
  lemma {:induction false} CopiedPackagesMatchSource(st: CopyState, src: RecipeId, dst: RecipeId, short: bool, force: bool,
                                                     answer: Question -> bool, srcMeta: Metadata, ids: seq<string>)
    requires st.failure.None? && src != dst
    ensures var e := CopyPackages(st, src, dst, short, force, answer, srcMeta, ids);
      e.failure.None? ==>
        forall p :: p in ids && MayWrite(st.store, dst, short, force, answer, p) ==>
          p in e.revs && e.revs[p] == RecordedPair(srcMeta, p)
          && PackageFolder(src, p, short) in st.store
          && PackageFolder(dst, p, short) in e.store
          && e.store[PackageFolder(dst, p, short)] == st.store[PackageFolder(src, p, short)]
    decreases |ids|
  {
    if ids != [] {
      var init, last := ids[..|ids| - 1], ids[|ids| - 1];
      CopiedPackagesMatchSource(st, src, dst, short, force, answer, srcMeta, init);
      CopyPackagesFrame(st, src, dst, short, force, answer, srcMeta, init);
      var before := CopyPackages(st, src, dst, short, force, answer, srcMeta, init);
      var e := CopyPackages(st, src, dst, short, force, answer, srcMeta, ids);
      if e.failure.None? {
        assert before.failure.None?;
        var lastDest := PackageFolder(dst, last, short);
        forall p | p in ids && MayWrite(st.store, dst, short, force, answer, p)
          ensures p in e.revs && e.revs[p] == RecordedPair(srcMeta, p)
          ensures PackageFolder(src, p, short) in st.store
          ensures PackageFolder(dst, p, short) in e.store
          ensures e.store[PackageFolder(dst, p, short)] == st.store[PackageFolder(src, p, short)]
        {
          var origin := PackageFolder(src, p, short);
          assert origin in before.store <==> origin in st.store;
          if p != last {
            assert p in init;
          } else if !(p in init) {
            assert MayWrite(before.store, dst, short, force, answer, p) by {
              assert lastDest in before.store ==> lastDest in st.store;
            }
          }
        }
      }
    }
  }

  // ---------------------------------------------------------------------
  // package_copy and cmd_copy on the cache
  // ---------------------------------------------------------------------

  /** The recorded revisions merged into the destination record: the recipe
      revision is replaced, each copied binary gets its pair, and every
      other entry is left as it was. */
  function WithCopiedRevisions(m: Metadata, recipeRevision: Option<string>,
                               revs: map<string, PackageMeta>): (r: Metadata)
    ensures r.recipe.revision == recipeRevision && r.recipe.remote == m.recipe.remote
    ensures forall p :: p in revs ==> p in r.packages && r.packages[p] == revs[p]
    ensures forall p :: p !in revs ==>
      (p in r.packages <==> p in m.packages) && (p in m.packages ==> r.packages[p] == m.packages[p])
  {
    Metadata(m.recipe.(revision := recipeRevision), m.packages + revs)
  }

  datatype RecipeCopy = Declined | Copied | CopyFailed(error: Error)

  /** The export and export-sources part of package_copy: what it answers,
      and the folders and trace it leaves. */
  datatype RecipeStep = RecipeStep(outcome: RecipeCopy, store: map<Folder, Tree>, trace: seq<Event>)

  /** The export part of package_copy, on the folders and the trace. */
  function CopyRecipeOf(store: map<Folder, Tree>, trace: seq<Event>, srcRef: Reference, dstRef: Reference,
                        short: bool, force: bool, answer: Question -> bool): RecipeStep
  {
    var exportOrigin, exportDest := ExportFolder(srcRef.id), ExportFolder(dstRef.id);
    var asked := if exportDest in store && !force then [Asked(OverrideRecipe(dstRef))] else [];
    if exportOrigin !in store then RecipeStep(CopyFailed(DoesNotExist(srcRef)), store, trace)
    else if exportDest in store && !force && !answer(OverrideRecipe(dstRef)) then RecipeStep(Declined, store, trace + asked)
    else
      var cleared := store - {exportDest};
      if exportOrigin !in cleared then RecipeStep(CopyFailed(MissingFolder(exportOrigin)), cleared, trace + asked)
      else
        var copied := cleared[exportDest := cleared[exportOrigin]];
        var sourcesOrigin, sourcesDest := ExportSourcesFolder(srcRef.id, short), ExportSourcesFolder(dstRef.id, short);
        var emptied := copied - {sourcesDest};
        if sourcesOrigin !in emptied then RecipeStep(CopyFailed(MissingFolder(sourcesOrigin)), emptied, trace + asked)
        else RecipeStep(Copied, emptied[sourcesDest := emptied[sourcesOrigin]], trace + asked)
  }

  /** A missing source export fails before anything is asked; an existing
      destination export is overridden only when forced or agreed to; only
      the two destination folders change, and a copy leaves the source
      export and export sources there. */
  lemma CopyRecipeFacts(store: map<Folder, Tree>, trace: seq<Event>, srcRef: Reference, dstRef: Reference,
                        short: bool, force: bool, answer: Question -> bool)
    ensures var e := CopyRecipeOf(store, trace, srcRef, dstRef, short, force, answer);
      (e.outcome.Declined? <==>
        ExportFolder(srcRef.id) in store && ExportFolder(dstRef.id) in store && !force && !answer(OverrideRecipe(dstRef)))
      && (e.outcome.Declined? ==> e.store == store)
      && |trace| <= |e.trace| && e.trace[..|trace|] == trace
      && (forall i :: |trace| <= i < |e.trace| ==> e.trace[i] == Asked(OverrideRecipe(dstRef)))
      && (forall f :: f != ExportFolder(dstRef.id) && f != ExportSourcesFolder(dstRef.id, short) ==>
            (f in e.store <==> f in store) && (f in store ==> e.store[f] == store[f]))
      && (e.outcome.Copied? ==>
            srcRef.id != dstRef.id
            && ExportFolder(dstRef.id) in e.store && e.store[ExportFolder(dstRef.id)] == store[ExportFolder(srcRef.id)]
            && ExportSourcesFolder(srcRef.id, short) in store && ExportSourcesFolder(dstRef.id, short) in e.store
            && e.store[ExportSourcesFolder(dstRef.id, short)] == store[ExportSourcesFolder(srcRef.id, short)])
    ensures ExportFolder(srcRef.id) !in store ==>
      CopyRecipeOf(store, trace, srcRef, dstRef, short, force, answer) == RecipeStep(CopyFailed(DoesNotExist(srcRef)), store, trace)
  {
  }

  /** The export and export-sources part of package_copy, against CopyRecipeOf. */
  method CopyRecipe(cache: ClientCache, srcRef: Reference, dstRef: Reference, short: bool, force: bool,
                    answer: Question -> bool) returns (r: RecipeCopy)
    modifies cache`store, cache`trace
    ensures RecipeStep(r, cache.store, cache.trace)
         == CopyRecipeOf(old(cache.store), old(cache.trace), srcRef, dstRef, short, force, answer)
  {
    var exportOrigin, exportDest := ExportFolder(srcRef.id), ExportFolder(dstRef.id);
    if exportOrigin !in cache.store {
      return CopyFailed(DoesNotExist(srcRef));
    }
    if exportDest in cache.store {
      if !force {
        cache.trace := cache.trace + [Asked(OverrideRecipe(dstRef))];
        if !answer(OverrideRecipe(dstRef)) {
          return Declined;
        }
      }
      cache.store := cache.store - {exportDest};
    }
    if exportOrigin !in cache.store {
      return CopyFailed(MissingFolder(exportOrigin));
    }
    cache.store := cache.store[exportDest := cache.store[exportOrigin]];
    var sourcesOrigin, sourcesDest := ExportSourcesFolder(srcRef.id, short), ExportSourcesFolder(dstRef.id, short);
    cache.store := cache.store - {sourcesDest};
    if sourcesOrigin !in cache.store {
      return CopyFailed(MissingFolder(sourcesOrigin));
    }
    cache.store := cache.store[sourcesDest := cache.store[sourcesOrigin]];
    r := Copied;
  }

  /** The binaries loop of package_copy, against CopyPackages. */
  method CopyBinaries(cache: ClientCache, src: RecipeId, dst: RecipeId, short: bool, force: bool,
                      answer: Question -> bool, srcMeta: Metadata, ids: seq<string>)
    returns (failure: Option<Error>, revs: map<string, PackageMeta>)
    modifies cache`store, cache`trace
    ensures CopyPackages(CopyState(old(cache.store), old(cache.trace), map[], None), src, dst, short, force,
                         answer, srcMeta, ids)
         == CopyState(cache.store, cache.trace, revs, failure)
  {
    ghost var st0 := CopyState(cache.store, cache.trace, map[], None);
    revs := map[];
    failure := None;
    for i := 0 to |ids|
      invariant CopyPackages(st0, src, dst, short, force, answer, srcMeta, ids[..i])
             == CopyState(cache.store, cache.trace, revs, None)
    {
      CopyPackagesNext(st0, src, dst, short, force, answer, srcMeta, ids, i);
      var packageId := ids[i];
      var origin, dest := PackageFolder(src, packageId, short), PackageFolder(dst, packageId, short);
      if dest in cache.store {
        if !force {
          cache.trace := cache.trace + [Asked(OverridePackage(packageId))];
          if !answer(OverridePackage(packageId)) {
            continue;
          }
        }
        cache.store := cache.store - {dest};
      }
      revs := revs[packageId := RecordedPair(srcMeta, packageId)];
      if origin !in cache.store {
        failure := Some(MissingFolder(origin));
        CopyPackagesStops(st0, src, dst, short, force, answer, srcMeta, ids, i + 1);
        return;
      }
      cache.store := cache.store[dest := cache.store[origin]];
    }
    assert ids[..|ids|] == ids;
  }

  /** What package_copy leaves: its outcome, whether the recipe override
      was declined (which ends the copy with nothing written), the folders,
      the trace and the metadata files. */
  datatype PackageCopyState = PackageCopyState(outcome: Outcome, declined: bool, store: map<Folder, Tree>,
                                               trace: seq<Event>, metadata: map<RecipeId, MetaFile>)

  /** package_copy from the source record `srcMeta` as load_metadata gives
      it and the destination record `dstRecord` as update_metadata starts
      from it: the recipe folders are copied, then the binaries, then the
      destination record gets the source recipe revision and the pairs of
      the copied binaries. */
  function PackageCopyOf(store: map<Folder, Tree>, trace: seq<Event>, metadata: map<RecipeId, MetaFile>,
                         srcRef: Reference, user: string, channel: string, ids: seq<string>, short: bool,
                         force: bool, answer: Question -> bool,
                         srcMeta: Result<Metadata>, dstRecord: Result<Metadata>): PackageCopyState
  {
    var dstRef := DestinationRef(srcRef, user, channel);
    if srcMeta.Fail? then PackageCopyState(Failed(srcMeta.error), false, store, trace, metadata)
    else
      var recipe := CopyRecipeOf(store, trace, srcRef, dstRef, short, force, answer);
      match recipe.outcome
      case CopyFailed(error) => PackageCopyState(Failed(error), false, recipe.store, recipe.trace, metadata)
      case Declined => PackageCopyState(Pass, true, recipe.store, recipe.trace, metadata)
      case Copied =>
        var bins := CopyPackages(CopyState(recipe.store, recipe.trace, map[], None), srcRef.id, dstRef.id,
                                 short, force, answer, srcMeta.value, ids);
        if bins.failure.Some? then PackageCopyState(Failed(bins.failure.value), false, bins.store, bins.trace, metadata)
        else if dstRecord.Fail? then PackageCopyState(Failed(dstRecord.error), false, bins.store, bins.trace, metadata)
        else PackageCopyState(Pass, false, bins.store, bins.trace,
                              metadata[dstRef.id := Parsed(WithCopiedRevisions(dstRecord.value, srcMeta.value.recipe.revision, bins.revs))])
  }

  /** An unreadable source record and a missing source export fail with
      nothing changed; a declined recipe override passes with nothing but
      the question added, and it happens exactly when the destination
      export exists, the copy is not forced and the user says no. */
  lemma PackageCopyStopsEarly(store: map<Folder, Tree>, trace: seq<Event>, metadata: map<RecipeId, MetaFile>,
                              srcRef: Reference, user: string, channel: string, ids: seq<string>, short: bool,
                              force: bool, answer: Question -> bool,
                              srcMeta: Result<Metadata>, dstRecord: Result<Metadata>)
    ensures var e := PackageCopyOf(store, trace, metadata, srcRef, user, channel, ids, short, force, answer,
                                   srcMeta, dstRecord);
      (srcMeta.Fail? ==> e == PackageCopyState(Failed(srcMeta.error), false, store, trace, metadata))
      && (srcMeta.Ok? && ExportFolder(srcRef.id) !in store ==>
            e == PackageCopyState(Failed(DoesNotExist(srcRef)), false, store, trace, metadata))
      && (e.declined <==>
            srcMeta.Ok? && ExportFolder(srcRef.id) in store && ExportFolder(DestinationRef(srcRef, user, channel).id) in store
            && !force && !answer(OverrideRecipe(DestinationRef(srcRef, user, channel))))
      && (e.declined ==> e.outcome == Pass && e.store == store && e.metadata == metadata)
  {
    CopyRecipeFacts(store, trace, srcRef, DestinationRef(srcRef, user, channel), short, force, answer);
  }

  /** The copy only ever adds override questions to the trace. */
  lemma PackageCopyAsksOnly(store: map<Folder, Tree>, trace: seq<Event>, metadata: map<RecipeId, MetaFile>,
                            srcRef: Reference, user: string, channel: string, ids: seq<string>, short: bool,
                            force: bool, answer: Question -> bool,
                            srcMeta: Result<Metadata>, dstRecord: Result<Metadata>)
    ensures var e := PackageCopyOf(store, trace, metadata, srcRef, user, channel, ids, short, force, answer,
                                   srcMeta, dstRecord);
      |trace| <= |e.trace| && e.trace[..|trace|] == trace
      && forall i :: |trace| <= i < |e.trace| ==> e.trace[i].Asked?
  {
    if srcMeta.Ok? {
      var dstRef := DestinationRef(srcRef, user, channel);
      CopyRecipeFacts(store, trace, srcRef, dstRef, short, force, answer);
      var recipe := CopyRecipeOf(store, trace, srcRef, dstRef, short, force, answer);
      if recipe.outcome.Copied? {
        var st := CopyState(recipe.store, recipe.trace, map[], None);
        CopyAsksOnly(st, srcRef.id, dstRef.id, short, force, answer, srcMeta.value, ids);
        var bins := CopyPackages(st, srcRef.id, dstRef.id, short, force, answer, srcMeta.value, ids);
        assert bins.trace[..|trace|] == bins.trace[..|recipe.trace|][..|trace|];
        forall i | |trace| <= i < |bins.trace|
          ensures bins.trace[i].Asked?
        {
          if i < |recipe.trace| {
            assert bins.trace[i] == bins.trace[..|recipe.trace|][i];
          }
        }
      }
    }
  }

  /** Only the destination record can change. When it does, the copy
      passed, and the record keeps its remote, carries the source recipe
      revision, and each of its binaries is either one the copy recorded,
      with the source revision pair, or one it had before. */
  lemma PackageCopyRecord(store: map<Folder, Tree>, trace: seq<Event>, metadata: map<RecipeId, MetaFile>,
                          srcRef: Reference, user: string, channel: string, ids: seq<string>, short: bool,
                          force: bool, answer: Question -> bool,
                          srcMeta: Result<Metadata>, dstRecord: Result<Metadata>)
    ensures var e := PackageCopyOf(store, trace, metadata, srcRef, user, channel, ids, short, force, answer,
                                   srcMeta, dstRecord);
      var dstId := DestinationRef(srcRef, user, channel).id;
      (forall id :: id != dstId ==> (id in e.metadata <==> id in metadata)
                                    && (id in metadata ==> e.metadata[id] == metadata[id]))
      && (e.metadata != metadata ==>
            e.outcome.Pass? && !e.declined && srcMeta.Ok? && dstRecord.Ok?
            && dstId in e.metadata && e.metadata[dstId].Parsed?
            && e.metadata[dstId].record.recipe.revision == srcMeta.value.recipe.revision
            && e.metadata[dstId].record.recipe.remote == dstRecord.value.recipe.remote
            && forall p :: p in e.metadata[dstId].record.packages ==>
                 (p in ids && e.metadata[dstId].record.packages[p] == RecordedPair(srcMeta.value, p))
                 || (p in dstRecord.value.packages && e.metadata[dstId].record.packages[p] == dstRecord.value.packages[p]))
  {
    if srcMeta.Ok? {
      var dstRef := DestinationRef(srcRef, user, channel);
      var recipe := CopyRecipeOf(store, trace, srcRef, dstRef, short, force, answer);
      if recipe.outcome.Copied? {
        RecordedPackagesAreListed(CopyState(recipe.store, recipe.trace, map[], None), srcRef.id, dstRef.id,
                                  short, force, answer, srcMeta.value, ids);
      }
    }
  }

  /** A copy that passes without a declined override leaves the source
      export and export sources at the destination, and every listed binary
      that may be written copied there and recorded with its source
      revision pair; no other folder than these changes. */
  lemma PackageCopyCopiesAll(store: map<Folder, Tree>, trace: seq<Event>, metadata: map<RecipeId, MetaFile>,
                             srcRef: Reference, user: string, channel: string, ids: seq<string>, short: bool,
                             force: bool, answer: Question -> bool,
                             srcMeta: Result<Metadata>, dstRecord: Result<Metadata>)
    ensures var e := PackageCopyOf(store, trace, metadata, srcRef, user, channel, ids, short, force, answer,
                                   srcMeta, dstRecord);
      var src, dst := srcRef.id, DestinationRef(srcRef, user, channel).id;
      e.outcome.Pass? && !e.declined ==>
        ExportFolder(dst) in e.store && e.store[ExportFolder(dst)] == store[ExportFolder(src)]
        && ExportSourcesFolder(src, short) in store && ExportSourcesFolder(dst, short) in e.store
        && e.store[ExportSourcesFolder(dst, short)] == store[ExportSourcesFolder(src, short)]
        && dst in e.metadata && e.metadata[dst].Parsed?
        && (forall p :: p in ids && MayWrite(store, dst, short, force, answer, p) ==>
              PackageFolder(src, p, short) in store && PackageFolder(dst, p, short) in e.store
              && e.store[PackageFolder(dst, p, short)] == store[PackageFolder(src, p, short)]
              && p in e.metadata[dst].record.packages
              && e.metadata[dst].record.packages[p] == RecordedPair(srcMeta.value, p))
        && (forall f :: f != ExportFolder(dst) && f != ExportSourcesFolder(dst, short)
                        && !(f.PackageFolder? && f.id == dst && f.short == short && f.packageId in ids) ==>
              (f in e.store <==> f in store) && (f in store ==> e.store[f] == store[f]))
  {
    var e := PackageCopyOf(store, trace, metadata, srcRef, user, channel, ids, short, force, answer,
                           srcMeta, dstRecord);
    if e.outcome.Pass? && !e.declined {
      var src, dstRef := srcRef.id, DestinationRef(srcRef, user, channel);
      var dst := dstRef.id;
      CopyRecipeFacts(store, trace, srcRef, dstRef, short, force, answer);
      var recipe := CopyRecipeOf(store, trace, srcRef, dstRef, short, force, answer);
      var st := CopyState(recipe.store, recipe.trace, map[], None);
      CopyPackagesFrame(st, src, dst, short, force, answer, srcMeta.value, ids);
      CopiedPackagesMatchSource(st, src, dst, short, force, answer, srcMeta.value, ids);
      forall p | p in ids && MayWrite(store, dst, short, force, answer, p)
        ensures MayWrite(recipe.store, dst, short, force, answer, p)
      {
        assert PackageFolder(dst, p, short) in recipe.store <==> PackageFolder(dst, p, short) in store;
      }
      forall p | p in ids
        ensures PackageFolder(src, p, short) in recipe.store <==> PackageFolder(src, p, short) in store
        ensures PackageFolder(src, p, short) in store ==> recipe.store[PackageFolder(src, p, short)] == store[PackageFolder(src, p, short)]
      {
      }
    }
  }

  /** package_copy, against PackageCopyOf. The destination record is read
      for update only once the binaries are copied, when nothing has changed
      the metadata yet. */
  method PackageCopy(cache: ClientCache, srcRef: Reference, user: string, channel: string,
                     ids: seq<string>, short: bool, force: bool, answer: Question -> bool)
    returns (r: Outcome, declined: bool)
    modifies cache`store, cache`trace, cache`metadata
    ensures PackageCopyState(r, declined, cache.store, cache.trace, cache.metadata)
         == PackageCopyOf(old(cache.store), old(cache.trace), old(cache.metadata), srcRef, user, channel, ids,
                          short, force, answer, old(cache.LoadMetadata(srcRef)),
                          old(cache.MetadataForUpdate(DestinationRef(srcRef, user, channel))))
    ensures old(cache.LoadMetadata(srcRef)).Ok? && ExportFolder(srcRef.id) !in old(cache.store) ==>
      r == Failed(DoesNotExist(srcRef)) && !declined
      && cache.store == old(cache.store) && cache.trace == old(cache.trace) && cache.metadata == old(cache.metadata)
    ensures declined ==> r == Pass && cache.store == old(cache.store) && cache.metadata == old(cache.metadata)
  {
    var dstRef := DestinationRef(srcRef, user, channel);
    PackageCopyStopsEarly(cache.store, cache.trace, cache.metadata, srcRef, user, channel, ids, short, force, answer,
                          cache.LoadMetadata(srcRef), cache.MetadataForUpdate(dstRef));
    declined := false;
    var srcMeta := cache.LoadMetadata(srcRef);
    if srcMeta.Fail? {
      return Failed(srcMeta.error), false;
    }
    var recipe := CopyRecipe(cache, srcRef, dstRef, short, force, answer);
    if recipe.Declined? {
      return Pass, true;
    }
    if recipe.CopyFailed? {
      return Failed(recipe.error), false;
    }
    var failure, revs := CopyBinaries(cache, srcRef.id, dstRef.id, short, force, answer, srcMeta.value, ids);
    if failure.Some? {
      return Failed(failure.value), false;
    }
    r := UpdateDestinationMetadata(cache, dstRef, srcMeta.value.recipe.revision, revs);
  }

  /** The update_metadata scope of package_copy: the destination record,
      or a fresh one, gets the source recipe revision and the copied pairs. */
  method UpdateDestinationMetadata(cache: ClientCache, dstRef: Reference, recipeRevision: Option<string>,
                                   revs: map<string, PackageMeta>)
    returns (r: Outcome)
    modifies cache`metadata
    ensures old(cache.MetadataForUpdate(dstRef)).Fail? ==>
      r == Failed(old(cache.MetadataForUpdate(dstRef)).error) && cache.metadata == old(cache.metadata)
    ensures old(cache.MetadataForUpdate(dstRef)).Ok? ==>
      r == Pass && cache.metadata == old(cache.metadata)[dstRef.id :=
        Parsed(WithCopiedRevisions(old(cache.MetadataForUpdate(dstRef)).value, recipeRevision, revs))]
  {
    var record := cache.MetadataForUpdate(dstRef);
    if record.Fail? {
      return Failed(record.error);
    }
    cache.metadata := cache.metadata[dstRef.id := Parsed(WithCopiedRevisions(record.value, recipeRevision, revs))];
    r := Pass;
  }

  /** The only effects the loop adds to the trace are questions. */
  lemma {:induction false} CopyAsksOnly(st: CopyState, src: RecipeId, dst: RecipeId, short: bool, force: bool,
                                        answer: Question -> bool, srcMeta: Metadata, ids: seq<string>)
    ensures var e := CopyPackages(st, src, dst, short, force, answer, srcMeta, ids);
      |st.trace| <= |e.trace| && e.trace[..|st.trace|] == st.trace
      && forall i :: |st.trace| <= i < |e.trace| ==> e.trace[i].Asked?
    decreases |ids|
  {
    if ids != [] {
      CopyAsksOnly(st, src, dst, short, force, answer, srcMeta, ids[..|ids| - 1]);
    }
  }

  /** A binary recorded by a successful loop has a destination folder. */
  lemma {:induction false} CopiedPackagesStayPut(st: CopyState, src: RecipeId, dst: RecipeId, short: bool, force: bool,
                                                 answer: Question -> bool, srcMeta: Metadata, ids: seq<string>)
    requires st.failure.None? && st.revs == map[]
    ensures var e := CopyPackages(st, src, dst, short, force, answer, srcMeta, ids);
      e.failure.None? ==> forall p :: p in e.revs ==> PackageFolder(dst, p, short) in e.store
    decreases |ids|
  {
    if ids != [] {
      CopiedPackagesStayPut(st, src, dst, short, force, answer, srcMeta, ids[..|ids| - 1]);
    }
  }

  /** The outcome of cmd_copy and the folders, trace and metadata it
      leaves. */
  datatype CopyRun = CopyRun(outcome: Outcome, store: map<Folder, Tree>, trace: seq<Event>,
                             metadata: map<RecipeId, MetaFile>)

  /** cmd_copy after pinning: the sources of the pinned reference are
      completed, and only then is the entry copied with the pinned
      reference and the selected ids. `srcMeta` is the record load_metadata
      gives for it, `dstRecord` the one update_metadata starts from. */
  function CmdCopyOf(store: map<Folder, Tree>, trace: seq<Event>, metadata: map<RecipeId, MetaFile>,
                     pinned: Reference, user: string, channel: string, ids: seq<string>, short: bool,
                     hasExportsSources: bool, remotes: map<string, Remote>, delivered: Tree,
                     force: bool, answer: Question -> bool,
                     srcMeta: Result<Metadata>, dstRecord: Result<Metadata>): CopyRun
  {
    var c := Source.SourcesCompleted(store, trace, pinned, short, hasExportsSources, remotes, delivered, srcMeta);
    if c.outcome.Failed? then CopyRun(c.outcome, c.store, c.trace, metadata)
    else
      var e := PackageCopyOf(c.store, c.trace, metadata, pinned, user, channel, ids, short, force, answer,
                             srcMeta, dstRecord);
      CopyRun(e.outcome, e.store, e.trace, e.metadata)
  }

  /** cmd_copy keeps the trace so far and adds only source fetches for the
      pinned reference, which all come before any question, and questions;
      a failed completion copies nothing. */
  lemma CmdCopyTrace(store: map<Folder, Tree>, trace: seq<Event>, metadata: map<RecipeId, MetaFile>,
                     pinned: Reference, user: string, channel: string, ids: seq<string>, short: bool,
                     hasExportsSources: bool, remotes: map<string, Remote>, delivered: Tree,
                     force: bool, answer: Question -> bool,
                     srcMeta: Result<Metadata>, dstRecord: Result<Metadata>)
    ensures var run := CmdCopyOf(store, trace, metadata, pinned, user, channel, ids, short, hasExportsSources,
                                 remotes, delivered, force, answer, srcMeta, dstRecord);
      |trace| <= |run.trace| && run.trace[..|trace|] == trace
      && (forall i :: |trace| <= i < |run.trace| ==>
            (run.trace[i].GetRecipeSources? && run.trace[i].ref == pinned) || run.trace[i].Asked?)
      && (forall i, j :: |trace| <= i < j < |run.trace| && run.trace[j].GetRecipeSources? ==> !run.trace[i].Asked?)
      && (Source.SourcesCompleted(store, trace, pinned, short, hasExportsSources, remotes, delivered, srcMeta).outcome.Failed? ==>
            run.metadata == metadata && run.store == store && run.trace == trace)
  {
    Source.SourcesCompletedFacts(store, trace, pinned, short, hasExportsSources, remotes, delivered, srcMeta);
    var c := Source.SourcesCompleted(store, trace, pinned, short, hasExportsSources, remotes, delivered, srcMeta);
    if c.outcome.Pass? {
      PackageCopyAsksOnly(c.store, c.trace, metadata, pinned, user, channel, ids, short, force, answer, srcMeta, dstRecord);
      var run := CmdCopyOf(store, trace, metadata, pinned, user, channel, ids, short, hasExportsSources,
                           remotes, delivered, force, answer, srcMeta, dstRecord);
      assert run.trace[..|trace|] == run.trace[..|c.trace|][..|trace|];
      forall i | |trace| <= i < |run.trace|
        ensures (run.trace[i].GetRecipeSources? && run.trace[i].ref == pinned) || run.trace[i].Asked?
        ensures run.trace[i].GetRecipeSources? ==> i < |c.trace|
      {
        if i < |c.trace| {
          assert run.trace[i] == run.trace[..|c.trace|][i] == c.trace[i];
        }
      }
    }
  }

  /** cmd_copy: the source reference is pinned to the recipe revision its
      metadata records before the sources are completed and the entry is
      copied. */
  method CmdCopy(cache: ClientCache, ref: Reference, user: string, channel: string,
                 selection: PackageSelection, listing: Option<seq<string>>,
                 remotes: map<string, Remote>, hasExportsSources: bool, short: bool, delivered: Tree,
                 force: bool, answer: Question -> bool)
    returns (r: Outcome, pinned: Reference)
    modifies cache
    ensures old(cache.LoadMetadata(ref)).Fail? ==>
      r == Failed(old(cache.LoadMetadata(ref)).error) && cache.store == old(cache.store)
      && cache.trace == old(cache.trace) && cache.metadata == old(cache.metadata)
    ensures old(cache.LoadMetadata(ref)).Ok? ==>
      pinned == ref.CopyWithRev(old(cache.LoadMetadata(ref)).value.recipe.revision)
    ensures old(cache.LoadMetadata(ref)).Ok? ==>
      CopyRun(r, cache.store, cache.trace, cache.metadata)
      == CmdCopyOf(old(cache.store), old(cache.trace), old(cache.metadata), pinned, user, channel,
                   GetPackageIds(selection, listing), short, hasExportsSources, remotes, delivered, force, answer,
                   old(cache.LoadMetadata(pinned)), old(cache.MetadataForUpdate(DestinationRef(pinned, user, channel))))
    ensures |old(cache.trace)| <= |cache.trace| && cache.trace[..|old(cache.trace)|] == old(cache.trace)
    ensures forall e :: e in cache.trace[|old(cache.trace)|..] && e.GetRecipeSources? ==> e.ref == pinned
  {
    pinned := ref;
    var meta := cache.LoadMetadata(ref);
    if meta.Fail? {
      return Failed(meta.error), pinned;
    }
    pinned := ref.CopyWithRev(meta.value.recipe.revision);
    ghost var store0, trace0, metadata0 := cache.store, cache.trace, cache.metadata;
    ghost var srcMeta := cache.LoadMetadata(pinned);
    ghost var dstRecord := cache.MetadataForUpdate(DestinationRef(pinned, user, channel));
    var ids := GetPackageIds(selection, listing);
    CmdCopyTrace(store0, trace0, metadata0, pinned, user, channel, ids, short, hasExportsSources,
                 remotes, delivered, force, answer, srcMeta, dstRecord);
    r := Source.CompleteRecipeSources(cache, pinned, short, hasExportsSources, remotes, delivered);
    if r.Failed? {
      return;
    }
    var declined;
    r, declined := PackageCopy(cache, pinned, user, channel, ids, short, force, answer);
    forall e | e in cache.trace[|trace0|..] && e.GetRecipeSources? ensures e.ref == pinned {
      var i :| 0 <= i < |cache.trace[|trace0|..]| && cache.trace[|trace0|..][i] == e;
      assert cache.trace[|trace0| + i] == e;
    }
  }
}
