/** Shared vocabulary of the cache model: references, metadata records, cache
    folders, folder contents, the trace of effects and the error taxonomy. */
module Common {

  datatype Option<+T> = None | Some(value: T) {
    function GetOr(default: T): T {
      match this
      case Some(v) => v
      case None => default
    }
  }

  datatype Result<+T> = Ok(value: T) | Fail(error: Error)

  /** Outcome of an operation that only changes state. */
  datatype Outcome = Pass | Failed(error: Error)

  /** Python truthiness of an optional string: None and "" are false. */
  predicate Truthy(s: Option<string>) {
    s.Some? && s.value != ""
  }

  /** The identity of a recipe: name/version@user/channel. The cache lays out
      folders by this identity only, never by revision. */
  datatype RecipeId = RecipeId(name: string, version: string, user: string, channel: string)

  /** A recipe reference, optionally pinned to a recipe revision. */
  datatype Reference = Reference(id: RecipeId, revision: Option<string>) {
    function CopyWithRev(rev: Option<string>): (r: Reference)
      ensures r.id == id && r.revision == rev
    {
      Reference(id, rev)
    }

    function CopyClearRev(): (r: Reference)
      ensures r.id == id && r.revision.None?
    {
      Reference(id, None)
    }
  }

  datatype PackageReference = PackageReference(ref: Reference, packageId: string, revision: Option<string>)

  /** The recipe part of a metadata.json record. */
  datatype RecipeMeta = RecipeMeta(revision: Option<string>, remote: Option<string>)

  /** One binary's entry in a metadata.json record. */
  datatype PackageMeta = PackageMeta(revision: Option<string>, recipeRevision: Option<string>)

  datatype Metadata = Metadata(recipe: RecipeMeta, packages: map<string, PackageMeta>)

  /** A freshly constructed record: every field null, no packages. */
  const EmptyMetadata: Metadata := Metadata(RecipeMeta(None, None), map[])

  /** The package entries of a record behave like a dictionary with default
      values: reading an absent id yields an entry whose fields are null. */
  function PackageEntry(m: Metadata, packageId: string): (e: PackageMeta)
    ensures packageId !in m.packages ==> e == PackageMeta(None, None)
    ensures packageId in m.packages ==> e == m.packages[packageId]
  {
    if packageId in m.packages then m.packages[packageId] else PackageMeta(None, None)
  }

  /** The state of a metadata.json file that exists. */
  datatype MetaFile = Parsed(record: Metadata) | Unreadable

  /** The revision written when a manifest cannot be loaded. The constant is
      defined in conans/__init__.py, which is not part of this model; no proof
      depends on its value. */
  const DefaultRevisionV1: string := "0"

  type Path = seq<string>

  /** A file entry of a tree: a regular file with its content, or a
      symbolic link with its target. */
  datatype Node = Regular(content: string) | Symlink(target: string)

  /** The contents of a folder: its sub-directories and its files, by path
      relative to the folder. */
  datatype Tree = Tree(dirs: set<Path>, files: map<Path, Node>)

  const EmptyTree: Tree := Tree({}, map[])

  /** The managed folders of a cache entry, as the package layout computes
      them. `short` is the short_paths flag the layout was built with. */
  datatype Folder =
    | ExportFolder(id: RecipeId)
    | ExportSourcesFolder(id: RecipeId, short: bool)
    | SourceFolder(id: RecipeId, short: bool)
    | PackageFolder(id: RecipeId, packageId: string, short: bool)

  datatype Remote = Remote(name: string, url: string)

  /** The questions put to the user through request_boolean. */
  datatype Question = OverrideRecipe(dest: Reference) | OverridePackage(packageId: string)

  /** Observable effects, in the order they happen: calls to the remote
      manager, hooks, questions to the user and source-folder steps. */
  datatype Event =
    | PreDownloadHook(ref: Reference)
    | PostDownloadHook(ref: Reference)
    | GetRecipe(ref: Reference, remote: Remote)
    | GetRecipeSources(ref: Reference, exportFolder: Folder, dest: Folder, remote: Remote)
    | SearchRemotePackages(ref: Reference, remote: Remote)
    | GetPackage(pref: PackageReference, dest: Folder, remote: Remote)
    | Asked(question: Question)
    | SetDirty(folder: Folder)
    | RemoveFolder(folder: Folder)
    | MakeFolder(folder: Folder)
    | RunSource(folder: Folder)
    | CleanDirty(folder: Folder)

  datatype Error =
    | NoRemoteDefined(ref: Reference)
    | NoSuchRemote(remoteName: string)
    | RecipeNotFound(ref: Reference)
    | CorruptMetadata(id: RecipeId)
    | UnableToRemoveSource(folder: Folder)
    | SourceMethodFailed(folder: Folder)
    | DoesNotExist(ref: Reference)
    | MissingFolder(folder: Folder)
    | LinkExists(path: Path)
    | NoLatestRevision(ref: Reference)
    | Forbidden(ref: Reference)
    | AuthorizerFailed(ref: Reference)
    | MetadataMigrationFailed(id: RecipeId)
    | UnrecognisedConfigInstall(items: seq<string>)
}
