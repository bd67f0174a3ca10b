/** The client-side package cache as abstract state: which managed folders
    exist and what they hold, which carry the dirty marker, the metadata.json
    file of each unrevisioned reference, the scm pointer files, the paths that
    exist outside the cache, and the ordered trace of observable effects. */
module Cache {
  import opened Common

  class ClientCache {
    var store: map<Folder, Tree>
    var dirty: set<Folder>
    var metadata: map<RecipeId, MetaFile>
    /** Content of the scm_folder pointer file of a reference, when present. */
    var scmPointer: map<RecipeId, string>
    /** Paths outside the cache that exist (user working copies). */
    var userPaths: set<string>
    var trace: seq<Event>

    constructor (store: map<Folder, Tree>, metadata: map<RecipeId, MetaFile>,
                 scmPointer: map<RecipeId, string>, userPaths: set<string>)
      ensures this.store == store && this.metadata == metadata
      ensures this.scmPointer == scmPointer && this.userPaths == userPaths
      ensures dirty == {} && trace == []
    {
      this.store := store;
      this.metadata := metadata;
      this.scmPointer := scmPointer;
      this.userPaths := userPaths;
      dirty := {};
      trace := [];
    }

    /** load_metadata: a missing file means the recipe is not in the cache,
        a file that does not parse is an error. */
    function LoadMetadata(ref: Reference): (r: Result<Metadata>)
      reads this`metadata
      ensures r.Ok? <==> ref.id in metadata && metadata[ref.id].Parsed?
      ensures r.Ok? ==> r.value == metadata[ref.id].record
      ensures ref.id !in metadata ==> r == Fail(RecipeNotFound(ref))
    {
      if ref.id !in metadata then Fail(RecipeNotFound(ref))
      else match metadata[ref.id]
        case Parsed(m) => Ok(m)
        case Unreadable => Fail(CorruptMetadata(ref.id))
    }

    /** The record update_metadata hands to its scope: the stored record, or a
        fresh one when no file exists yet. */
    function MetadataForUpdate(ref: Reference): (r: Result<Metadata>)
      reads this`metadata
      ensures r.Ok? <==> ref.id !in metadata || metadata[ref.id].Parsed?
      ensures ref.id !in metadata ==> r == Ok(EmptyMetadata)
      ensures r.Ok? && ref.id in metadata ==> r.value == metadata[ref.id].record
    {
      if ref.id !in metadata then Ok(EmptyMetadata) else LoadMetadata(ref)
    }
  }
}
