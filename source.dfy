/** Lazy completion of bundled recipe sources, the source-folder dirty-marker
    protocol, the scm decision of the source step, and the directory merge
    and clean-up helpers (conans/client/source.py). */
module Source {
  import opened Common
  import opened Cache

  // ---------------------------------------------------------------------
  // complete_recipe_sources
  // ---------------------------------------------------------------------

  /** The outcome of complete_recipe_sources and the folders and trace it
      leaves. */
  datatype Completion = Completion(outcome: Outcome, store: map<Folder, Tree>, trace: seq<Event>)

  /** complete_recipe_sources on the folders and the trace, given the
      recipe's record as load_metadata reads it. */
  function SourcesCompleted(store: map<Folder, Tree>, trace: seq<Event>, ref: Reference, shortPaths: bool,
                            hasExportsSources: bool, remotes: map<string, Remote>, delivered: Tree,
                            loaded: Result<Metadata>): Completion
  {
    var sources := ExportSourcesFolder(ref.id, shortPaths);
    if sources in store then Completion(Pass, store, trace)
    else if !hasExportsSources then Completion(Pass, store[sources := EmptyTree], trace)
    else if loaded.Fail? then Completion(Failed(loaded.error), store, trace)
    else
      var current := loaded.value.recipe.remote;
      if !Truthy(current) then Completion(Failed(NoRemoteDefined(ref)), store, trace)
      else if current.value !in remotes then Completion(Failed(NoSuchRemote(current.value)), store, trace)
      else Completion(Pass, store[sources := delivered],
                      trace + [GetRecipeSources(ref, ExportFolder(ref.id), sources, remotes[current.value])])
  }

  /** Completion succeeds iff the folder is there, the recipe bundles no
      sources, or its record names a known remote; it then leaves the
      folder in place. It changes only that folder, fetches at most once,
      and a failure changes nothing. */
  lemma SourcesCompletedFacts(store: map<Folder, Tree>, trace: seq<Event>, ref: Reference, shortPaths: bool,
                              hasExportsSources: bool, remotes: map<string, Remote>, delivered: Tree,
                              loaded: Result<Metadata>)
    ensures var c := SourcesCompleted(store, trace, ref, shortPaths, hasExportsSources, remotes, delivered, loaded);
      var sources := ExportSourcesFolder(ref.id, shortPaths);
      (c.outcome.Pass? <==>
        sources in store || !hasExportsSources
        || (loaded.Ok? && Truthy(loaded.value.recipe.remote) && loaded.value.recipe.remote.value in remotes))
      && (c.outcome.Pass? ==> sources in c.store)
      && (c.outcome.Failed? ==> c.store == store && c.trace == trace)
      && (forall f :: f != sources ==> (f in c.store <==> f in store) && (f in store ==> c.store[f] == store[f]))
      && |trace| <= |c.trace| <= |trace| + 1 && c.trace[..|trace|] == trace
      && (forall i :: |trace| <= i < |c.trace| ==> c.trace[i].GetRecipeSources? && c.trace[i].ref == ref)
  {
  }

  /** Makes sure the export-sources folder of `ref` exists, fetching it from
      the remote recorded in the metadata when the recipe bundles sources.
      `hasExportsSources` is "exports_sources is not None" of the loaded
      recipe; `delivered` is what the remote manager places in the folder. */
  method CompleteRecipeSources(cache: ClientCache, ref: Reference, shortPaths: bool,
                               hasExportsSources: bool, remotes: map<string, Remote>,
                               delivered: Tree)
    returns (r: Outcome)
    modifies cache
    ensures cache.dirty == old(cache.dirty) && cache.metadata == old(cache.metadata)
    ensures cache.scmPointer == old(cache.scmPointer) && cache.userPaths == old(cache.userPaths)
    ensures var sources := ExportSourcesFolder(ref.id, shortPaths);
      if sources in old(cache.store) then
        r == Pass && cache.store == old(cache.store) && cache.trace == old(cache.trace)
      else if !hasExportsSources then
        r == Pass && cache.store == old(cache.store)[sources := EmptyTree]
        && cache.trace == old(cache.trace)
      else match cache.LoadMetadata(ref)
        case Fail(e) =>
          r == Failed(e) && cache.store == old(cache.store) && cache.trace == old(cache.trace)
        case Ok(m) =>
          if !Truthy(m.recipe.remote) then
            r == Failed(NoRemoteDefined(ref))
            && cache.store == old(cache.store) && cache.trace == old(cache.trace)
          else if m.recipe.remote.value !in remotes then
            r == Failed(NoSuchRemote(m.recipe.remote.value))
            && cache.store == old(cache.store) && cache.trace == old(cache.trace)
          else
            r == Pass
            && cache.trace == old(cache.trace)
               + [GetRecipeSources(ref, ExportFolder(ref.id), sources, remotes[m.recipe.remote.value])]
            && cache.store == old(cache.store)[sources := delivered]
    ensures Completion(r, cache.store, cache.trace)
         == SourcesCompleted(old(cache.store), old(cache.trace), ref, shortPaths, hasExportsSources, remotes, delivered,
                             old(cache.LoadMetadata(ref)))
  {
    var sources := ExportSourcesFolder(ref.id, shortPaths);
    if sources in cache.store {
      return Pass;
    }
    if !hasExportsSources {
      cache.store := cache.store[sources := EmptyTree];
      return Pass;
    }
    var loaded := cache.LoadMetadata(ref);
    if loaded.Fail? {
      return Failed(loaded.error);
    }
    var current := loaded.value.recipe.remote;
    if !Truthy(current) {
      return Failed(NoRemoteDefined(ref));
    }
    if current.value !in remotes {
      return Failed(NoSuchRemote(current.value));
    }
    var remote := remotes[current.value];
    cache.trace := cache.trace + [GetRecipeSources(ref, ExportFolder(ref.id), sources, remote)];
    cache.store := cache.store[sources := delivered];
    r := Pass;
  }

  /** Completing sources twice contacts the remote at most once: the second
      call finds the folder the first one created. */
  method CompleteRecipeSourcesTwice(cache: ClientCache, ref: Reference, shortPaths: bool,
                                    hasExportsSources: bool, remotes: map<string, Remote>,
                                    delivered: Tree)
    returns (first: Outcome, second: Outcome)
    modifies cache
    ensures first.Pass? ==> second == Pass
    ensures |cache.trace| <= |old(cache.trace)| + 1
    ensures ExportSourcesFolder(ref.id, shortPaths) in old(cache.store) ==> cache.trace == old(cache.trace)
  {
    first := CompleteRecipeSources(cache, ref, shortPaths, hasExportsSources, remotes, delivered);
    second := CompleteRecipeSources(cache, ref, shortPaths, hasExportsSources, remotes, delivered);
  }

  // ---------------------------------------------------------------------
  // config_source and its dirty-marker bracket
  // ---------------------------------------------------------------------

  /** What `_run_source` did: it returned normally, leaving the materialised
      sources, or it raised, leaving whatever it had written so far. */
  datatype SourceRun = Completed(sources: Tree) | Raised(partial: Tree)

  /** The local working copy recorded by the scm_folder pointer file. */
  function LocalSourcesPath(pointers: map<RecipeId, string>, id: RecipeId): (p: Option<string>)
    ensures p.Some? <==> id in pointers
  {
    if id in pointers then Some(pointers[id]) else None
  }

  /** The three reasons to wipe an existing source folder, tested in this
      order: it is dirty, the build policy is "always", or the scm pointer
      names a working copy that exists. */
  predicate MustWipe(isDirty: bool, buildPolicyAlways: bool, local: Option<string>, userPaths: set<string>) {
    isDirty || buildPolicyAlways || (Truthy(local) && local.value in userPaths)
  }

  /** remove_source: on failure the folder is marked dirty and the error is
      raised; the folder stays in place. */
  method RemoveSource(cache: ClientCache, src: Folder, removalFails: bool) returns (r: Outcome)
    modifies cache
    ensures cache.metadata == old(cache.metadata) && cache.scmPointer == old(cache.scmPointer)
    ensures cache.userPaths == old(cache.userPaths)
    ensures removalFails ==>
      r == Failed(UnableToRemoveSource(src)) && cache.store == old(cache.store)
      && cache.dirty == old(cache.dirty) + {src}
      && cache.trace == old(cache.trace) + [RemoveFolder(src), SetDirty(src)]
    ensures !removalFails ==>
      r == Pass && cache.store == old(cache.store) - {src} && cache.dirty == old(cache.dirty)
      && cache.trace == old(cache.trace) + [RemoveFolder(src)]
  {
    cache.trace := cache.trace + [RemoveFolder(src)];
    if removalFails {
      cache.dirty := cache.dirty + {src};
      cache.trace := cache.trace + [SetDirty(src)];
      return Failed(UnableToRemoveSource(src));
    }
    cache.store := cache.store - {src};
    r := Pass;
  }

  /** The dirty-marker bracket around materialising a missing source folder:
      the marker is set and the folder created before the source step runs,
      and cleared only when the step returns normally. */
  method MaterialiseSource(cache: ClientCache, src: Folder, run: SourceRun) returns (r: Outcome)
    modifies cache
    ensures cache.metadata == old(cache.metadata) && cache.scmPointer == old(cache.scmPointer)
    ensures cache.userPaths == old(cache.userPaths)
    ensures run.Completed? ==>
      r == Pass && cache.store == old(cache.store)[src := run.sources]
      && cache.dirty == old(cache.dirty) - {src}
      && cache.trace == old(cache.trace) + [SetDirty(src), MakeFolder(src), RunSource(src), CleanDirty(src)]
    ensures run.Raised? ==>
      r == Failed(SourceMethodFailed(src)) && cache.store == old(cache.store)[src := run.partial]
      && cache.dirty == old(cache.dirty) + {src}
      && cache.trace == old(cache.trace) + [SetDirty(src), MakeFolder(src), RunSource(src)]
  {
    cache.dirty := cache.dirty + {src};
    cache.trace := cache.trace + [SetDirty(src)];
    cache.store := cache.store[src := EmptyTree];
    cache.trace := cache.trace + [MakeFolder(src)];
    cache.trace := cache.trace + [RunSource(src)];
    match run {
      case Completed(t) =>
        cache.store := cache.store[src := t];
        cache.dirty := cache.dirty - {src};
        cache.trace := cache.trace + [CleanDirty(src)];
        r := Pass;
      case Raised(t) =>
        cache.store := cache.store[src := t];
        r := Failed(SourceMethodFailed(src));
    }
  }

  /** config_source: wipes the source folder when required, then, if the
      folder is missing, materialises it inside the dirty-marker bracket. The
      three wipe reasons of the source share one removal, so they are tested
      as one disjunction. */
  method ConfigSource(cache: ClientCache, ref: Reference, shortPaths: bool,
                      buildPolicyAlways: bool, removalFails: bool, run: SourceRun)
    returns (r: Outcome)
    modifies cache
    ensures cache.metadata == old(cache.metadata) && cache.scmPointer == old(cache.scmPointer)
    ensures cache.userPaths == old(cache.userPaths)
    ensures var src := SourceFolder(ref.id, shortPaths);
      cache.store - {src} == old(cache.store) - {src}
      && cache.dirty - {src} == old(cache.dirty) - {src}
    // The crash-safety invariant: a normal return leaves a clean, present
    // folder; an abnormal one leaves the marker set.
    ensures var src := SourceFolder(ref.id, shortPaths);
      (r.Pass? ==> src in cache.store && src !in cache.dirty)
      && (r.Failed? ==> src in cache.dirty)
    ensures var src := SourceFolder(ref.id, shortPaths);
      var wipe := MustWipe(src in old(cache.dirty), buildPolicyAlways,
                           LocalSourcesPath(old(cache.scmPointer), ref.id), old(cache.userPaths));
      wipe && removalFails ==>
        r == Failed(UnableToRemoveSource(src)) && cache.store == old(cache.store)
        && cache.trace == old(cache.trace) + [RemoveFolder(src), SetDirty(src)]
    ensures var src := SourceFolder(ref.id, shortPaths);
      var wipe := MustWipe(src in old(cache.dirty), buildPolicyAlways,
                           LocalSourcesPath(old(cache.scmPointer), ref.id), old(cache.userPaths));
      !wipe && src in old(cache.store) ==>
        r == Pass && cache.store == old(cache.store) && cache.dirty == old(cache.dirty)
        && cache.trace == old(cache.trace)
    ensures var src := SourceFolder(ref.id, shortPaths);
      var wipe := MustWipe(src in old(cache.dirty), buildPolicyAlways,
                           LocalSourcesPath(old(cache.scmPointer), ref.id), old(cache.userPaths));
      var bracket := [SetDirty(src), MakeFolder(src), RunSource(src)];
      (wipe && !removalFails) || (!wipe && src !in old(cache.store)) ==>
        cache.trace == old(cache.trace) + (if wipe then [RemoveFolder(src)] else []) + bracket
                       + (if run.Completed? then [CleanDirty(src)] else [])
        && (run.Completed? ==> r == Pass && cache.store == old(cache.store)[src := run.sources])
        && (run.Raised? ==> r == Failed(SourceMethodFailed(src))
                            && cache.store == old(cache.store)[src := run.partial])
  {
    var src := SourceFolder(ref.id, shortPaths);
    var local := LocalSourcesPath(cache.scmPointer, ref.id);
    if MustWipe(src in cache.dirty, buildPolicyAlways, local, cache.userPaths) {
      r := RemoveSource(cache, src, removalFails);
      if r.Failed? { return; }
    }
    r := Pass;
    if src !in cache.store {
      r := MaterialiseSource(cache, src, run);
    }
  }

  /** A source step that raised is repaired by the next one: the marker it
      left forces a wipe, then a fresh materialisation. */
  method ConfigSourceAfterInterruption(cache: ClientCache, ref: Reference, shortPaths: bool,
                                       buildPolicyAlways: bool, partial: Tree, sources: Tree)
    returns (first: Outcome, second: Outcome)
    modifies cache
    ensures first.Failed? && second.Pass?
    ensures SourceFolder(ref.id, shortPaths) in cache.store
    ensures cache.store[SourceFolder(ref.id, shortPaths)] == sources
    ensures SourceFolder(ref.id, shortPaths) !in cache.dirty
    ensures var src := SourceFolder(ref.id, shortPaths);
      |cache.trace| >= 5 && cache.trace[|cache.trace| - 5..] == [RemoveFolder(src), SetDirty(src), MakeFolder(src), RunSource(src), CleanDirty(src)]
  {
    var src := SourceFolder(ref.id, shortPaths);
    // Force the first attempt to (re)materialise the folder.
    first := ConfigSource(cache, ref, shortPaths, true, false, Raised(partial));
    if first.Pass? {
      assert false;
    }
    assert src in cache.dirty;
    ghost var mid := cache.trace;
    second := ConfigSource(cache, ref, shortPaths, buildPolicyAlways, false, Completed(sources));
    assert cache.trace == mid + [RemoveFolder(src)] + [SetDirty(src), MakeFolder(src), RunSource(src)] + [CleanDirty(src)];
  }

  // ---------------------------------------------------------------------
  // _run_scm: where the sources of an scm-enabled recipe come from
  // ---------------------------------------------------------------------

  /** The scm attribute of a recipe, as far as the decision needs it. */
  datatype ScmData = ScmData(url: string, subfolder: string, captureOrigin: bool, captureRevision: bool)

  datatype ScmSource = MergeLocal(path: string) | Checkout

  /** What _run_scm does: nothing, or fill `subfolder` of the source folder
      from a local working copy or an scm checkout, then (in the cache)
      clean the generated files from it. */
  datatype ScmPlan = NoScm | ScmStep(source: ScmSource, subfolder: string, cleanAfter: bool)

  /** Whether a usable local working copy exists. In the cache it must be
      recorded and exist; in user space it is used only when origin or
      revision capture is requested, and then the scm's own local path for
      the url takes precedence over the folder of the recipe. */
  function UsableLocalCopy(scm: ScmData, inCache: bool, localSourcesPath: Option<string>,
                           userPaths: set<string>, localPathToUrl: Option<string>): (p: Option<string>)
    ensures p.Some? ==> p.value != ""
    ensures inCache ==> (p.Some? <==> Truthy(localSourcesPath) && localSourcesPath.value in userPaths)
    ensures inCache && p.Some? ==> p == localSourcesPath
    ensures !inCache && !(scm.captureOrigin || scm.captureRevision) ==> p.None?
    ensures !inCache && (scm.captureOrigin || scm.captureRevision) ==>
      p == (if Truthy(localPathToUrl) then localPathToUrl
            else if Truthy(localSourcesPath) then localSourcesPath else None)
  {
    var local :=
      if inCache then
        (if !Truthy(localSourcesPath) || localSourcesPath.value !in userPaths then None
         else localSourcesPath)
      else if scm.captureOrigin || scm.captureRevision then
        (if Truthy(localPathToUrl) then localPathToUrl else localSourcesPath)
      else None;
    if Truthy(local) then local else None
  }

  /** The decision of _run_scm. */
  function PlanScm(scm: Option<ScmData>, inCache: bool, localSourcesPath: Option<string>,
                   userPaths: set<string>, localPathToUrl: Option<string>, develop: bool): (p: ScmPlan)
    ensures scm.None? <==> p.NoScm?
    ensures p.ScmStep? ==> p.subfolder == scm.value.subfolder && p.cleanAfter == inCache
    ensures p.ScmStep? ==>
      (p.source.MergeLocal? <==>
         develop && UsableLocalCopy(scm.value, inCache, localSourcesPath, userPaths, localPathToUrl).Some?)
    ensures p.ScmStep? && p.source.MergeLocal? ==>
      Some(p.source.path) == UsableLocalCopy(scm.value, inCache, localSourcesPath, userPaths, localPathToUrl)
  {
    match scm
    case None => NoScm
    case Some(data) =>
      var local := UsableLocalCopy(data, inCache, localSourcesPath, userPaths, localPathToUrl);
      var source := if local.Some? && develop then MergeLocal(local.value) else Checkout;
      ScmStep(source, data.subfolder, inCache)
  }

  // ---------------------------------------------------------------------
  // merge_directories and _clean_source_folder on a file system
  // ---------------------------------------------------------------------

  /** One file as the walk lists it: its name, the content a copy of it
      would have, and the link target when it is a symbolic link. */
  datatype SrcFile = SrcFile(name: string, content: string, link: Option<string>)

  /** One directory as the walk yields it: its path relative to the merge
      source, whether it is a symbolic link, and the files it lists. */
  datatype WalkStep = WalkStep(rel: Path, isLink: bool, files: seq<SrcFile>)

  /** is_excluded: the destination itself, or an entry whose path relative
      to the source is in the excluded list. */
  predicate IsExcluded(src: Path, dst: Path, excluded: set<Path>, rel: Path) {
    src + rel == dst || rel in excluded
  }

  /** The walk only reaches a directory none of whose proper ancestors was
      excluded: clearing `dirs` of an excluded directory stops the walk from
      descending below it. */
  predicate Reached(src: Path, dst: Path, excluded: set<Path>, rel: Path) {
    forall n :: 0 <= n < |rel| ==> !IsExcluded(src, dst, excluded, rel[..n])
  }

  /** A path, relative to the source, that is neither excluded itself nor
      below an excluded directory (nor the destination, nor below it). */
  predicate Included(src: Path, dst: Path, excluded: set<Path>, rel: Path) {
    forall n :: 0 <= n <= |rel| ==> !IsExcluded(src, dst, excluded, rel[..n])
  }

  /** The files of a directory that survive the exclusion filter, in order. */
  function Kept(src: Path, dst: Path, excluded: set<Path>, rel: Path, files: seq<SrcFile>): (r: seq<SrcFile>)
    ensures forall f :: f in r <==> f in files && !IsExcluded(src, dst, excluded, rel + [f.name])
    ensures |r| <= |files|
  {
    if files == [] then []
    else
      var rest := Kept(src, dst, excluded, rel, files[1..]);
      if IsExcluded(src, dst, excluded, rel + [files[0].name]) then rest else [files[0]] + rest
  }

  /** A (step, file) pair whose file merge_directories copies. */
  predicate Copies(src: Path, dst: Path, excluded: set<Path>, step: WalkStep, f: SrcFile) {
    Reached(src, dst, excluded, step.rel) && !IsExcluded(src, dst, excluded, step.rel)
    && !step.isLink && f in step.files && !IsExcluded(src, dst, excluded, step.rel + [f.name])
  }

  /** What a copied file becomes: a link when it is one and symlinks are
      preserved, otherwise a regular file with the content it points to. */
  function CopyOf(f: SrcFile, symlinks: bool): Node {
    if f.link.Some? && symlinks then Symlink(f.link.value) else Regular(f.content)
  }

  /** The state the merge builds: destination directories and files, the
      linked folders it recorded, and the path at which it failed, if any. */
  datatype MergeState = MergeState(dirs: set<Path>, files: map<Path, Node>, linked: seq<Path>,
                                   failure: Option<Path>)

  /** Writing one file: a link is created with os.symlink, which refuses an
      existing entry; a regular copy overwrites. */
  function WriteFile(s: MergeState, q: Path, f: SrcFile, symlinks: bool): MergeState {
    if f.link.Some? && symlinks && q in s.files then s.(failure := Some(q))
    else s.(files := s.files[q := CopyOf(f, symlinks)])
  }

  /** The files of one directory written into `dstDir`, in order, stopping
      at the first failure. */
  function CopyFiles(s: MergeState, dstDir: Path, files: seq<SrcFile>, symlinks: bool): MergeState
    decreases |files|
  {
    if files == [] then s
    else
      var before := CopyFiles(s, dstDir, files[..|files| - 1], symlinks);
      if before.failure.Some? then before
      else WriteFile(before, dstDir + [files[|files| - 1].name], files[|files| - 1], symlinks)
  }

  /** The effect of one walk step. */
  function MergeStep(src: Path, dst: Path, excluded: set<Path>, symlinks: bool, s: MergeState, step: WalkStep): MergeState {
    if !Reached(src, dst, excluded, step.rel) then s
    else if IsExcluded(src, dst, excluded, step.rel) then s
    else if step.isLink then s.(linked := s.linked + [step.rel])
    else
      CopyFiles(s.(dirs := s.dirs + {dst + step.rel}), dst + step.rel,
                Kept(src, dst, excluded, step.rel, step.files), symlinks)
  }

  /** The effect of the whole walk, stopping at the first failure. */
  function MergeWalk(src: Path, dst: Path, excluded: set<Path>, symlinks: bool, base: MergeState,
                     walk: seq<WalkStep>): MergeState
    decreases |walk|
  {
    if walk == [] then base
    else
      var before := MergeWalk(src, dst, excluded, symlinks, base, walk[..|walk| - 1]);
      if before.failure.Some? then before
      else MergeStep(src, dst, excluded, symlinks, before, walk[|walk| - 1])
  }

  /** The files _clean_source_folder deletes: the exported archives, the
      recipe, its compiled forms and the manifest. */
  const GeneratedNames: seq<string> :=
    ["conan_export.tgz", "conan_sources.tgz", "conanfile.pyc", "conanfile.pyo", "conanfile.py", "conanmanifest.txt"]

  predicate Under(root: Path, q: Path) {
    |root| <= |q| && q[..|root|] == root
  }

  /** A generated file directly inside `folder`. */
  predicate Generated(folder: Path, q: Path) {
    |q| == |folder| + 1 && q[..|folder|] == folder && q[|folder|] in GeneratedNames
  }

  /** The state after _clean_source_folder: the generated files are gone,
      and the __pycache__ tree is gone when it is a directory (removing a
      missing entry is ignored, as is removing a tree that is not a
      directory). */
  ghost function Cleaned(t: Tree, folder: Path): Tree {
    var pycache := folder + ["__pycache__"];
    var wipe := pycache in t.dirs;
    Tree(set d | d in t.dirs && !(wipe && Under(pycache, d)),
         map q | q in t.files && !Generated(folder, q) && !(wipe && Under(pycache, q)) :: t.files[q])
  }

  /** Cleaning a second time changes nothing. */
  lemma CleanIsIdempotent(t: Tree, folder: Path)
    ensures Cleaned(Cleaned(t, folder), folder) == Cleaned(t, folder)
  {
    var once := Cleaned(t, folder);
    assert folder + ["__pycache__"] !in once.dirs;
    assert Cleaned(once, folder).dirs == once.dirs;
    assert Cleaned(once, folder).files == once.files;
  }

  class FileSystem {
    var dirs: set<Path>
    var files: map<Path, Node>

    constructor (dirs: set<Path>, files: map<Path, Node>)
      ensures this.dirs == dirs && this.files == files
    {
      this.dirs := dirs;
      this.files := files;
    }

    /** _clean_source_folder: removes each generated file that exists, then
        the __pycache__ tree. */
    method CleanSourceFolder(folder: Path)
      modifies this
      ensures Tree(dirs, files) == Cleaned(Tree(old(dirs), old(files)), folder)
      ensures forall q :: q in old(files) && Generated(folder, q) ==> q !in files
      ensures forall q :: q in files ==> q in old(files) && files[q] == old(files)[q]
      ensures forall q :: q in old(files) && !Generated(folder, q) && !Under(folder + ["__pycache__"], q) ==> q in files
    {
      ghost var t := Tree(dirs, files);
      for i := 0 to |GeneratedNames|
        invariant dirs == t.dirs
        invariant forall q :: q in files <==>
          q in t.files && !(Generated(folder, q) && q[|folder|] in GeneratedNames[..i])
        invariant forall q :: q in files ==> files[q] == t.files[q]
      {
        var q := folder + [GeneratedNames[i]];
        assert Generated(folder, q) && q[..|folder|] == folder;
        files := files - {q};
        forall p | Generated(folder, p) ensures p[|folder|] in GeneratedNames[..i + 1] <==>
          p[|folder|] in GeneratedNames[..i] || p == q
        {
          assert GeneratedNames[..i + 1] == GeneratedNames[..i] + [GeneratedNames[i]];
          if p[|folder|] == GeneratedNames[i] {
            assert p == p[..|folder|] + [p[|folder|]];
          }
        }
      }
      assert GeneratedNames[..|GeneratedNames|] == GeneratedNames;
      var pycache := folder + ["__pycache__"];
      if pycache in dirs {
        files := map q | q in files && !Under(pycache, q) :: files[q];
        dirs := set d | d in dirs && !Under(pycache, d);
      }
    }

    /** merge_directories: walks `src` (the walk is given) and copies into
        `dst`, returning the linked folders it recorded for the final
        link step. */
    method MergeDirectories(src: Path, dst: Path, walk: seq<WalkStep>, excluded: set<Path>, symlinks: bool)
      returns (r: Outcome, linked: seq<Path>)
      modifies this
      ensures var m := MergeWalk(src, dst, excluded, symlinks, MergeState(old(dirs), old(files), [], None), walk);
        dirs == m.dirs && files == m.files && linked == m.linked
        && (r.Pass? <==> m.failure.None?)
        && (r.Failed? ==> r.error == LinkExists(m.failure.value))
    {
      ghost var base := MergeState(dirs, files, [], None);
      linked := [];
      var i := 0;
      while i < |walk|
        invariant 0 <= i <= |walk|
        invariant MergeWalk(src, dst, excluded, symlinks, base, walk[..i]) == MergeState(dirs, files, linked, None)
      {
        MergeWalkSnoc(src, dst, excluded, symlinks, base, walk, i);
        ghost var before := MergeState(dirs, files, linked, None);
        var step := walk[i];
        i := i + 1;
        if !Reached(src, dst, excluded, step.rel) {
          continue;  // below an excluded directory: never yielded by the walk
        }
        if IsExcluded(src, dst, excluded, step.rel) {
          continue;
        }
        if step.isLink {
          linked := linked + [step.rel];
          continue;
        }
        var kept := Kept(src, dst, excluded, step.rel, step.files);
        var dstDir := dst + step.rel;
        if dstDir !in dirs {
          dirs := dirs + {dstDir};
        }
        assert MergeState(dirs, files, linked, None) == before.(dirs := before.dirs + {dstDir});
        var failure := CopyDirFiles(dstDir, kept, symlinks, linked);
        assert MergeStep(src, dst, excluded, symlinks, before, step) == MergeState(dirs, files, linked, failure);
        if failure.Some? {
          MergeWalkStops(src, dst, excluded, symlinks, base, walk, i);
          return Failed(LinkExists(failure.value)), linked;
        }
      }
      assert walk[..|walk|] == walk;
      r := Pass;
    }

    /** The file loop of one directory: each kept file is recreated as a
        link or copied, stopping at a link that cannot be created. */
    method CopyDirFiles(dstDir: Path, kept: seq<SrcFile>, symlinks: bool, ghost linked: seq<Path>)
      returns (failure: Option<Path>)
      modifies this
      ensures CopyFiles(MergeState(old(dirs), old(files), linked, None), dstDir, kept, symlinks)
              == MergeState(dirs, files, linked, failure)
    {
      ghost var start := MergeState(dirs, files, linked, None);
      var j := 0;
      while j < |kept|
        invariant 0 <= j <= |kept|
        invariant dirs == old(dirs)
        invariant CopyFiles(start, dstDir, kept[..j], symlinks) == MergeState(dirs, files, linked, None)
      {
        CopyFilesSnoc(start, dstDir, kept, j, symlinks);
        var f := kept[j];
        var q := dstDir + [f.name];
        if f.link.Some? && symlinks {
          if q in files {
            CopyFilesStops(start, dstDir, kept, j + 1, symlinks);
            return Some(q);
          }
          files := files[q := Symlink(f.link.value)];
        } else {
          files := files[q := Regular(f.content)];
        }
        j := j + 1;
      }
      assert kept[..|kept|] == kept;
      failure := None;
    }
  }

  lemma CopyFilesSnoc(s: MergeState, dstDir: Path, files: seq<SrcFile>, j: nat, symlinks: bool)
    requires j < |files|
    ensures var before := CopyFiles(s, dstDir, files[..j], symlinks);
      CopyFiles(s, dstDir, files[..j + 1], symlinks)
      == if before.failure.Some? then before
         else WriteFile(before, dstDir + [files[j].name], files[j], symlinks)
  {
    assert files[..j + 1][..j] == files[..j];
  }

  lemma MergeWalkSnoc(src: Path, dst: Path, excluded: set<Path>, symlinks: bool,
                      base: MergeState, walk: seq<WalkStep>, i: nat)
    requires i < |walk|
    ensures var before := MergeWalk(src, dst, excluded, symlinks, base, walk[..i]);
      MergeWalk(src, dst, excluded, symlinks, base, walk[..i + 1])
      == if before.failure.Some? then before
         else MergeStep(src, dst, excluded, symlinks, before, walk[i])
  {
    assert walk[..i + 1][..i] == walk[..i];
  }

  /** Once the file copy of a directory has failed, later files change nothing. */
  lemma {:induction false} CopyFilesStops(s: MergeState, dstDir: Path, files: seq<SrcFile>, k: nat, symlinks: bool)
    requires k <= |files|
    requires CopyFiles(s, dstDir, files[..k], symlinks).failure.Some?
    ensures CopyFiles(s, dstDir, files, symlinks) == CopyFiles(s, dstDir, files[..k], symlinks)
    decreases |files| - k
  {
    if k < |files| {
      assert files[..k + 1][..k] == files[..k];
      CopyFilesStops(s, dstDir, files, k + 1, symlinks);
    } else {
      assert files[..k] == files;
    }
  }

  /** Once the walk has failed, later steps change nothing. */
  lemma {:induction false} MergeWalkStops(src: Path, dst: Path, excluded: set<Path>, symlinks: bool,
                                          base: MergeState, walk: seq<WalkStep>, k: nat)
    requires k <= |walk|
    requires MergeWalk(src, dst, excluded, symlinks, base, walk[..k]).failure.Some?
    ensures MergeWalk(src, dst, excluded, symlinks, base, walk) == MergeWalk(src, dst, excluded, symlinks, base, walk[..k])
    decreases |walk| - k
  {
    if k < |walk| {
      assert walk[..k + 1][..k] == walk[..k];
      MergeWalkStops(src, dst, excluded, symlinks, base, walk, k + 1);
    } else {
      assert walk[..k] == walk;
    }
  }

  // ---------------------------------------------------------------------
  // What merge_directories guarantees
  // ---------------------------------------------------------------------

  /** Within one directory listing a name identifies the file. */
  ghost predicate NamesIdentify(files: seq<SrcFile>) {
    forall f, g :: f in files && g in files && f.name == g.name ==> f == g
  }

  /** The walk yields each directory once. */
  ghost predicate DistinctDirs(walk: seq<WalkStep>) {
    forall k, l :: 0 <= k < l < |walk| ==> walk[k].rel != walk[l].rel
  }

  /** `q` is the destination of a file that merge_directories copies. */
  ghost predicate WrittenBy(src: Path, dst: Path, excluded: set<Path>, walk: seq<WalkStep>, q: Path) {
    exists k, f :: 0 <= k < |walk| && Copies(src, dst, excluded, walk[k], f) && q == dst + walk[k].rel + [f.name]
  }

  /** A walk step that merge_directories records as a linked folder. */
  predicate LinkRecorded(src: Path, dst: Path, excluded: set<Path>, step: WalkStep) {
    Reached(src, dst, excluded, step.rel) && !IsExcluded(src, dst, excluded, step.rel) && step.isLink
  }

  /** Changed entries after a directory's file loop; its frame. */
  lemma {:induction false} CopyFilesFacts(s: MergeState, dstDir: Path, fs: seq<SrcFile>, symlinks: bool)
    requires s.failure.None?
    ensures var m := CopyFiles(s, dstDir, fs, symlinks);
      m.dirs == s.dirs && m.linked == s.linked && s.files.Keys <= m.files.Keys
    ensures var m := CopyFiles(s, dstDir, fs, symlinks);
      forall q :: q in m.files && (q !in s.files || m.files[q] != s.files[q]) ==>
        exists f :: f in fs && q == dstDir + [f.name]
    ensures var m := CopyFiles(s, dstDir, fs, symlinks);
      m.failure.None? ==> forall f :: f in fs ==> dstDir + [f.name] in m.files
    ensures var m := CopyFiles(s, dstDir, fs, symlinks);
      m.failure.None? && NamesIdentify(fs) ==>
        forall f :: f in fs ==> m.files[dstDir + [f.name]] == CopyOf(f, symlinks)
    decreases |fs|
  {
    if fs != [] {
      var init, last := fs[..|fs| - 1], fs[|fs| - 1];
      assert fs == init + [last];
      assert NamesIdentify(fs) ==> NamesIdentify(init);
      CopyFilesFacts(s, dstDir, init, symlinks);
      var before := CopyFiles(s, dstDir, init, symlinks);
      var m := CopyFiles(s, dstDir, fs, symlinks);
      if before.failure.None? {
        var q0 := dstDir + [last.name];
        assert m == WriteFile(before, q0, last, symlinks);
        forall q | q in m.files && (q !in s.files || m.files[q] != s.files[q])
          ensures exists f :: f in fs && q == dstDir + [f.name]
        {
          if q != q0 {
            assert q in before.files && before.files[q] == m.files[q];
            var f :| f in init && q == dstDir + [f.name];
            assert f in fs;
          }
        }
        if m.failure.None? {
          forall f | f in fs
            ensures dstDir + [f.name] in m.files
            ensures NamesIdentify(fs) ==> m.files[dstDir + [f.name]] == CopyOf(f, symlinks)
          {
            if f != last {
              assert f in init;
              if NamesIdentify(fs) {
                assert f.name != last.name;
                assert dstDir + [f.name] != q0 by {
                  assert (dstDir + [f.name])[|dstDir|] == f.name;
                }
              }
            }
          }
        }
      }
    }
  }

  /** Every file merge_directories writes or overwrites is the copy of a
      file it was allowed to copy: in a reached directory that is neither
      excluded nor a symbolic link, and not excluded itself. */
  lemma {:induction false} MergeWritesOnlyCopies(src: Path, dst: Path, excluded: set<Path>, symlinks: bool,
                                                 base: MergeState, walk: seq<WalkStep>)
    requires base.failure.None?
    ensures var m := MergeWalk(src, dst, excluded, symlinks, base, walk);
      base.files.Keys <= m.files.Keys
    ensures var m := MergeWalk(src, dst, excluded, symlinks, base, walk);
      forall q :: q in m.files && (q !in base.files || m.files[q] != base.files[q]) ==>
        WrittenBy(src, dst, excluded, walk, q)
    decreases |walk|
  {
    if walk != [] {
      var init, last := walk[..|walk| - 1], walk[|walk| - 1];
      MergeWritesOnlyCopies(src, dst, excluded, symlinks, base, init);
      var before := MergeWalk(src, dst, excluded, symlinks, base, init);
      var m := MergeWalk(src, dst, excluded, symlinks, base, walk);
      forall q | q in before.files && (q !in base.files || before.files[q] != base.files[q])
        ensures WrittenBy(src, dst, excluded, walk, q)
      {
        var k, f :| 0 <= k < |init| && Copies(src, dst, excluded, init[k], f) && q == dst + init[k].rel + [f.name];
        assert walk[k] == init[k];
      }
      if before.failure.None? && Reached(src, dst, excluded, last.rel)
         && !IsExcluded(src, dst, excluded, last.rel) && !last.isLink {
        var dstDir := dst + last.rel;
        var kept := Kept(src, dst, excluded, last.rel, last.files);
        var s1 := before.(dirs := before.dirs + {dstDir});
        CopyFilesFacts(s1, dstDir, kept, symlinks);
        forall q | q in m.files && (q !in base.files || m.files[q] != base.files[q])
          ensures WrittenBy(src, dst, excluded, walk, q)
        {
          if q !in before.files || m.files[q] != before.files[q] {
            var f :| f in kept && q == dstDir + [f.name];
            assert Copies(src, dst, excluded, walk[|walk| - 1], f);
          }
        }
      }
    }
  }

  /** A copied file's destination path is an included path below `dst`:
      nothing is copied from the destination itself or from an excluded
      entry or directory. */
  lemma CopiedPathsAreIncluded(src: Path, dst: Path, excluded: set<Path>, step: WalkStep, f: SrcFile)
    requires Copies(src, dst, excluded, step, f)
    ensures Included(src, dst, excluded, step.rel + [f.name])
    ensures !step.isLink
  {
    var r := step.rel + [f.name];
    forall n | 0 <= n <= |r| ensures !IsExcluded(src, dst, excluded, r[..n]) {
      if n < |r| {
        assert r[..n] == step.rel[..n];
      } else {
        assert r[..n] == r;
      }
    }
  }

  /** On success, every file merge_directories may copy is present in the
      destination. */
  lemma {:induction false} MergeCopiesEveryIncludedFile(src: Path, dst: Path, excluded: set<Path>, symlinks: bool,
                                                        base: MergeState, walk: seq<WalkStep>)
    requires base.failure.None?
    ensures var m := MergeWalk(src, dst, excluded, symlinks, base, walk);
      m.failure.None? ==>
        forall k, f :: 0 <= k < |walk| && Copies(src, dst, excluded, walk[k], f) ==>
          dst + walk[k].rel + [f.name] in m.files
    decreases |walk|
  {
    if walk != [] {
      var init, last := walk[..|walk| - 1], walk[|walk| - 1];
      MergeCopiesEveryIncludedFile(src, dst, excluded, symlinks, base, init);
      var before := MergeWalk(src, dst, excluded, symlinks, base, init);
      var m := MergeWalk(src, dst, excluded, symlinks, base, walk);
      if m.failure.None? {
        assert before.failure.None?;
        var dstDir := dst + last.rel;
        var kept := Kept(src, dst, excluded, last.rel, last.files);
        var s1 := before.(dirs := before.dirs + {dstDir});
        CopyFilesFacts(s1, dstDir, kept, symlinks);
        forall k, f | 0 <= k < |walk| && Copies(src, dst, excluded, walk[k], f)
          ensures dst + walk[k].rel + [f.name] in m.files
        {
          if k < |init| {
            assert init[k] == walk[k];
          } else {
            assert f in kept;
          }
        }
      }
    }
  }

  /** On success, when the walk yields each directory once and names
      identify files, every copied file holds exactly its copy: a link is
      recreated as a link when `symlinks` is set, anything else is copied. */
  lemma {:induction false} MergeCopiesFaithfully(src: Path, dst: Path, excluded: set<Path>, symlinks: bool,
                                                 base: MergeState, walk: seq<WalkStep>)
    requires base.failure.None?
    requires DistinctDirs(walk)
    requires forall k :: 0 <= k < |walk| ==> NamesIdentify(walk[k].files)
    ensures var m := MergeWalk(src, dst, excluded, symlinks, base, walk);
      m.failure.None? ==>
        forall k, f :: 0 <= k < |walk| && Copies(src, dst, excluded, walk[k], f) ==>
          dst + walk[k].rel + [f.name] in m.files
          && m.files[dst + walk[k].rel + [f.name]] == CopyOf(f, symlinks)
    decreases |walk|
  {
    MergeCopiesEveryIncludedFile(src, dst, excluded, symlinks, base, walk);
    if walk != [] {
      var init, last := walk[..|walk| - 1], walk[|walk| - 1];
      assert DistinctDirs(init);
      MergeCopiesFaithfully(src, dst, excluded, symlinks, base, init);
      MergeCopiesEveryIncludedFile(src, dst, excluded, symlinks, base, init);
      var before := MergeWalk(src, dst, excluded, symlinks, base, init);
      var m := MergeWalk(src, dst, excluded, symlinks, base, walk);
      if m.failure.None? {
        assert before.failure.None? && m == MergeStep(src, dst, excluded, symlinks, before, last);
        forall k, f | 0 <= k < |walk| && Copies(src, dst, excluded, walk[k], f)
          ensures m.files[dst + walk[k].rel + [f.name]] == CopyOf(f, symlinks)
        {
          if k < |init| {
            assert init[k] == walk[k];
            StepKeepsOtherDirs(src, dst, excluded, symlinks, before, last, walk[k].rel, f.name);
          } else {
            StepCopiesFaithfully(src, dst, excluded, symlinks, before, last, f);
          }
        }
      }
    }
  }

  /** A step leaves the files of every other directory as they were. */
  lemma StepKeepsOtherDirs(src: Path, dst: Path, excluded: set<Path>, symlinks: bool,
                           s: MergeState, step: WalkStep, rel: Path, name: string)
    requires s.failure.None? && rel != step.rel && dst + rel + [name] in s.files
    ensures var m := MergeStep(src, dst, excluded, symlinks, s, step);
      dst + rel + [name] in m.files && m.files[dst + rel + [name]] == s.files[dst + rel + [name]]
  {
    if Reached(src, dst, excluded, step.rel) && !IsExcluded(src, dst, excluded, step.rel) && !step.isLink {
      var dstDir := dst + step.rel;
      var kept := Kept(src, dst, excluded, step.rel, step.files);
      var s1 := s.(dirs := s.dirs + {dstDir});
      CopyFilesFacts(s1, dstDir, kept, symlinks);
      var m := CopyFiles(s1, dstDir, kept, symlinks);
      var q := dst + rel + [name];
      if m.files[q] != s.files[q] {
        var g :| g in kept && q == dstDir + [g.name];
        DistinctTargets(dst, rel, name, step.rel, g.name);
      }
    }
  }

  /** A successful step writes each of its copied files as its copy. */
  lemma StepCopiesFaithfully(src: Path, dst: Path, excluded: set<Path>, symlinks: bool,
                             s: MergeState, step: WalkStep, f: SrcFile)
    requires s.failure.None? && NamesIdentify(step.files) && Copies(src, dst, excluded, step, f)
    requires MergeStep(src, dst, excluded, symlinks, s, step).failure.None?
    ensures var m := MergeStep(src, dst, excluded, symlinks, s, step);
      dst + step.rel + [f.name] in m.files && m.files[dst + step.rel + [f.name]] == CopyOf(f, symlinks)
  {
    var dstDir := dst + step.rel;
    var kept := Kept(src, dst, excluded, step.rel, step.files);
    KeptNamesIdentify(src, dst, excluded, step.rel, step.files);
    CopyFilesFacts(s.(dirs := s.dirs + {dstDir}), dstDir, kept, symlinks);
    assert f in kept;
  }

  lemma DistinctTargets(dst: Path, r1: Path, n1: string, r2: Path, n2: string)
    requires r1 != r2
    ensures dst + r1 + [n1] != dst + r2 + [n2]
  {
    var a, b := dst + r1 + [n1], dst + r2 + [n2];
    if |r1| == |r2| {
      assert exists i :: 0 <= i < |r1| && r1[i] != r2[i];
      var i :| 0 <= i < |r1| && r1[i] != r2[i];
      assert a[|dst| + i] == r1[i] && b[|dst| + i] == r2[i];
    } else {
      assert |a| != |b|;
    }
  }

  lemma KeptNamesIdentify(src: Path, dst: Path, excluded: set<Path>, rel: Path, files: seq<SrcFile>)
    requires NamesIdentify(files)
    ensures NamesIdentify(Kept(src, dst, excluded, rel, files))
  {
  }

  /** The linked folders are exactly the symbolic-link directories the walk
      reaches and does not exclude; their files are not copied. */
  lemma {:induction false} MergeRecordsLinkedFolders(src: Path, dst: Path, excluded: set<Path>, symlinks: bool,
                                                     base: MergeState, walk: seq<WalkStep>)
    requires base.failure.None?
    ensures var m := MergeWalk(src, dst, excluded, symlinks, base, walk);
      forall p :: p in m.linked ==>
        p in base.linked || exists k :: 0 <= k < |walk| && LinkRecorded(src, dst, excluded, walk[k]) && p == walk[k].rel
    ensures var m := MergeWalk(src, dst, excluded, symlinks, base, walk);
      m.failure.None? ==>
        forall k :: 0 <= k < |walk| && LinkRecorded(src, dst, excluded, walk[k]) ==> walk[k].rel in m.linked
    decreases |walk|
  {
    if walk != [] {
      var init, last := walk[..|walk| - 1], walk[|walk| - 1];
      MergeRecordsLinkedFolders(src, dst, excluded, symlinks, base, init);
      var before := MergeWalk(src, dst, excluded, symlinks, base, init);
      var m := MergeWalk(src, dst, excluded, symlinks, base, walk);
      if before.failure.None? {
        var dstDir := dst + last.rel;
        var kept := Kept(src, dst, excluded, last.rel, last.files);
        var s1 := before.(dirs := before.dirs + {dstDir});
        CopyFilesFacts(s1, dstDir, kept, symlinks);
        assert forall p :: p in before.linked ==> p in m.linked;
        forall p | p in m.linked
          ensures p in base.linked || exists k :: 0 <= k < |walk| && LinkRecorded(src, dst, excluded, walk[k]) && p == walk[k].rel
        {
          if p in before.linked && p !in base.linked {
            var k :| 0 <= k < |init| && LinkRecorded(src, dst, excluded, init[k]) && p == init[k].rel;
            assert walk[k] == init[k];
          }
        }
        if m.failure.None? {
          forall k | 0 <= k < |walk| && LinkRecorded(src, dst, excluded, walk[k])
            ensures walk[k].rel in m.linked
          {
            if k < |init| {
              assert init[k] == walk[k];
            }
          }
        }
      }
    }
  }
}
