/** Downloading a recipe and its binaries from one remote (cmd/download.py),
    as the ordered trace of the calls it makes: hooks, remote-manager calls,
    the metadata update that records the origin remote, and the eager
    completion of the recipe sources. */
module Download {
  import opened Common
  import opened Cache
  import Source

  /** The package ids to download: none for a recipe-only download, the
      given ids when there are any, otherwise the ids the remote search
      reports. */
  function SelectedIds(packageIds: seq<string>, remoteIds: seq<string>, recipeOnly: bool): (ids: seq<string>)
    ensures recipeOnly ==> ids == []
    ensures !recipeOnly && packageIds != [] ==> ids == packageIds
    ensures !recipeOnly && packageIds == [] ==> ids == remoteIds
  {
    if recipeOnly then [] else if packageIds != [] then packageIds else remoteIds
  }

  /** The get_package call for one binary, into the cache folder computed
      with the recipe's short_paths. */
  function PackageCall(ref: Reference, packageId: string, short: bool, remote: Remote): Event {
    GetPackage(PackageReference(ref, packageId, None), PackageFolder(ref.id, packageId, short), remote)
  }

  /** The calls _download_binaries makes, one per id. */
  function PackageCalls(ref: Reference, ids: seq<string>, short: bool, remote: Remote): seq<Event>
    decreases |ids|
  {
    if ids == [] then []
    else PackageCalls(ref, ids[..|ids| - 1], short, remote) + [PackageCall(ref, ids[|ids| - 1], short, remote)]
  }

  /** Each selected id is downloaded exactly once per listing, in the order
      given, and nothing else is called. */
  lemma {:induction false} PackageCallsInOrder(ref: Reference, ids: seq<string>, short: bool, remote: Remote)
    ensures |PackageCalls(ref, ids, short, remote)| == |ids|
    ensures forall i :: 0 <= i < |ids| ==>
      PackageCalls(ref, ids, short, remote)[i]
        == GetPackage(PackageReference(ref, ids[i], None), PackageFolder(ref.id, ids[i], short), remote)
    decreases |ids|
  {
    if ids != [] {
      PackageCallsInOrder(ref, ids[..|ids| - 1], short, remote);
    }
  }

  /** The binaries downloaded are exactly the selected ids. */
  lemma PackageCallsDownloadSelected(ref: Reference, ids: seq<string>, short: bool, remote: Remote, e: Event)
    ensures e in PackageCalls(ref, ids, short, remote) <==>
      exists i :: 0 <= i < |ids| && e == PackageCall(ref, ids[i], short, remote)
  {
    PackageCallsInOrder(ref, ids, short, remote);
    if e in PackageCalls(ref, ids, short, remote) {
      var i :| 0 <= i < |ids| && PackageCalls(ref, ids, short, remote)[i] == e;
    }
  }

  /** _download_binaries. */
  method DownloadBinaries(cache: ClientCache, ref: Reference, ids: seq<string>, short: bool, remote: Remote)
    modifies cache
    ensures cache.trace == old(cache.trace) + PackageCalls(ref, ids, short, remote)
    ensures cache.store == old(cache.store) && cache.metadata == old(cache.metadata) && cache.dirty == old(cache.dirty)
    ensures cache.scmPointer == old(cache.scmPointer) && cache.userPaths == old(cache.userPaths)
  {
    for i := 0 to |ids|
      invariant cache.trace == old(cache.trace) + PackageCalls(ref, ids[..i], short, remote)
      invariant cache.store == old(cache.store) && cache.metadata == old(cache.metadata)
      invariant cache.dirty == old(cache.dirty)
      invariant cache.scmPointer == old(cache.scmPointer) && cache.userPaths == old(cache.userPaths)
    {
      assert ids[..i + 1][..i] == ids[..i];
      cache.trace := cache.trace + [PackageCall(ref, ids[i], short, remote)];
    }
    assert ids[..|ids|] == ids;
  }

  /** The effects download ends with: the package search when no id was
      given, the binaries, then the post_download hook. */
  function FinalCalls(fetched: Reference, packageIds: seq<string>, remoteIds: seq<string>, recipeOnly: bool,
                      short: bool, remote: Remote): seq<Event>
  {
    (if !recipeOnly && packageIds == [] then [SearchRemotePackages(fetched, remote)] else [])
    + PackageCalls(fetched, SelectedIds(packageIds, remoteIds, recipeOnly), short, remote)
    + [PostDownloadHook(fetched)]
  }

  /** Lines 24-35 of download. */
  method FinishDownload(cache: ClientCache, fetched: Reference, packageIds: seq<string>, remoteIds: seq<string>,
                        recipeOnly: bool, short: bool, remote: Remote)
    modifies cache
    ensures cache.trace == old(cache.trace) + FinalCalls(fetched, packageIds, remoteIds, recipeOnly, short, remote)
    ensures cache.store == old(cache.store) && cache.metadata == old(cache.metadata) && cache.dirty == old(cache.dirty)
    ensures cache.scmPointer == old(cache.scmPointer) && cache.userPaths == old(cache.userPaths)
  {
    if !recipeOnly {
      var ids := packageIds;
      if ids == [] {
        cache.trace := cache.trace + [SearchRemotePackages(fetched, remote)];
        ids := remoteIds;
      }
      DownloadBinaries(cache, fetched, ids, short, remote);
    }
    cache.trace := cache.trace + [PostDownloadHook(fetched)];
  }

  /** The record after `metadata.recipe.remote = remote.name`. */
  function WithRemote(m: Metadata, remoteName: string): (r: Metadata)
    ensures r.recipe.remote == Some(remoteName) && r.recipe.revision == m.recipe.revision
    ensures r.packages == m.packages
  {
    m.(recipe := m.recipe.(remote := Some(remoteName)))
  }

  /** download. The remote manager's answers are parameters: the revision
      get_recipe resolves and the ids search_packages reports. */
  method Download(cache: ClientCache, ref: Reference, packageIds: seq<string>, remote: Remote, recipeOnly: bool,
                  remotes: map<string, Remote>, fetchedRevision: Option<string>, hasExportsSources: bool,
                  short: bool, delivered: Tree, remoteIds: seq<string>)
    returns (r: Outcome, fetched: Reference)
    modifies cache
    ensures fetched == ref.CopyWithRev(fetchedRevision)
    ensures cache.dirty == old(cache.dirty)
    ensures cache.scmPointer == old(cache.scmPointer) && cache.userPaths == old(cache.userPaths)
    // the pre_download hook runs before any remote call, and the recipe is fetched first
    ensures |cache.trace| >= |old(cache.trace)| + 2
    ensures cache.trace[..|old(cache.trace)| + 2] == old(cache.trace) + [PreDownloadHook(ref), GetRecipe(ref, remote)]
    // the origin remote is recorded unless the stored record is unreadable
    ensures old(cache.MetadataForUpdate(fetched)).Fail? ==>
      r == Failed(old(cache.MetadataForUpdate(fetched)).error) && cache.metadata == old(cache.metadata)
    ensures old(cache.MetadataForUpdate(fetched)).Ok? ==>
      cache.metadata == old(cache.metadata)[fetched.id := Parsed(WithRemote(old(cache.MetadataForUpdate(fetched)).value, remote.name))]
    // sources are completed even for a recipe-only download
    ensures r.Pass? ==> ExportSourcesFolder(fetched.id, short) in cache.store
    // a recipe-only download fetches no binary
    ensures recipeOnly ==> forall e :: e in cache.trace ==> e in old(cache.trace) || !e.GetPackage?
    // on success the selected binaries are fetched, in order, then post_download runs
    ensures r.Pass? ==>
      var tail := FinalCalls(fetched, packageIds, remoteIds, recipeOnly, short, remote);
      |cache.trace| >= |tail| && cache.trace[|cache.trace| - |tail|..] == tail
    ensures r.Failed? ==> forall e :: e in cache.trace ==> e in old(cache.trace) || !e.PostDownloadHook?
    // an unreadable record stops the download right after get_recipe
    ensures old(cache.MetadataForUpdate(fetched)).Fail? ==>
      cache.store == old(cache.store) && cache.trace == old(cache.trace) + [PreDownloadHook(ref), GetRecipe(ref, remote)]
    // otherwise the sources are completed from the recorded remote, and
    // the download succeeds iff the completion does
    ensures old(cache.MetadataForUpdate(fetched)).Ok? ==>
      var c := Source.SourcesCompleted(old(cache.store), old(cache.trace) + [PreDownloadHook(ref), GetRecipe(ref, remote)],
                                       fetched, short, hasExportsSources, remotes, delivered,
                                       Ok(WithRemote(old(cache.MetadataForUpdate(fetched)).value, remote.name)));
      r == c.outcome && cache.store == c.store
      && cache.trace == c.trace + (if r.Pass? then FinalCalls(fetched, packageIds, remoteIds, recipeOnly, short, remote) else [])
    ensures old(cache.MetadataForUpdate(fetched)).Ok? ==>
      (r.Pass? <==>
        ExportSourcesFolder(fetched.id, short) in old(cache.store) || !hasExportsSources
        || (remote.name != "" && remote.name in remotes))
  {
    cache.trace := cache.trace + [PreDownloadHook(ref)];
    cache.trace := cache.trace + [GetRecipe(ref, remote)];
    fetched := ref.CopyWithRev(fetchedRevision);
    var record := cache.MetadataForUpdate(fetched);
    if record.Fail? {
      return Failed(record.error), fetched;
    }
    cache.metadata := cache.metadata[fetched.id := Parsed(WithRemote(record.value, remote.name))];
    Source.SourcesCompletedFacts(cache.store, cache.trace, fetched, short, hasExportsSources, remotes, delivered,
                                 Ok(WithRemote(record.value, remote.name)));
    r := Source.CompleteRecipeSources(cache, fetched, short, hasExportsSources, remotes, delivered);
    if r.Failed? {
      return;
    }
    ghost var afterSources := cache.trace;
    assert forall e :: e in afterSources ==> e in old(cache.trace) || (!e.GetPackage? && !e.PostDownloadHook?);
    FinishDownload(cache, fetched, packageIds, remoteIds, recipeOnly, short, remote);
    assert recipeOnly ==> cache.trace == afterSources + [PostDownloadHook(fetched)];
  }
}
