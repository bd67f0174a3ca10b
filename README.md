# Conan cache operations and migrations, modelled in Dafny

This project models five pieces of the Conan 1.x package manager and proves
properties about them. Each piece is a decision procedure or a record update
over the local package cache or the server store:

- **Lazy source completion and the source folder** (`conans/client/source.py`).
  - `complete_recipe_sources` fetches the bundled sources of a recipe only when needed.
  - `config_source` wipes and re-creates a source folder, bracketed by a persistent dirty marker.
  - The scm decision of `_run_scm`.
  - `merge_directories` and `_clean_source_folder` on a small file system.
- **Copying a cache entry to another user/channel** (`conans/client/cmd/copy.py`).
  - The export, the export sources and the selected binaries are copied.
  - Overwrites may be declined.
  - The destination metadata is rewritten from the revisions recorded for the source.
- **Downloading a recipe and its binaries** (`conans/client/cmd/download.py`).
  - The download is the ordered trace of hook and remote-manager calls.
  - It also updates the metadata and completes the sources.
- **Server-side search** (`conans/server/service/common/search.py`).
  - Package infos are collected across recipe revisions; the first readable one wins.
  - The recipe listing is sorted.
  - The listing is filtered by the authorizer.
- **Client cache migrations** (`conans/client/migrations.py`).
  - The version-gated sequence of steps.
  - The `settings.yml` update table.
  - The two metadata repairs.
  - The `[settings_defaults]` text transform and the `config_install` item parser.

The local cache is the class `Cache.ClientCache`. Its fields are:

- the managed folders and their trees;
- the folders that carry the dirty marker;
- the `metadata.json` file of each reference;
- the scm pointer files;
- the user paths that exist;
- an ordered trace of observable effects (remote calls, hooks, questions, folder operations).

Collaborators whose code is not part of this model are parameters:

- the remote manager's answers;
- manifest hashes;
- directory listings and the directory walk;
- the user's answers to override prompts;
- the authorizer;
- the pattern match;
- the `Version` order;
- whether the recipe's `source()` returns or raises.

Modules:

- `common.dfy`: references, metadata records, folders, trees, events, errors.
- `cache.dfy`: the client cache.
- `source.dfy`, `copy.dfy`, `download.dfy`, `search.dfy`, `migrations.dfy`: one per source file.
- `ordering.dfy`: the reference order and the sort used by the search.
- `text.dfy`: the Python string operations the migrations use (`in`, `find`, `replace`, `split`, `join`, `strip`, `lower`).

## Model

| member | source | states |
|---|---|---|
| Cache.ClientCache.LoadMetadata | conan/conans/client/cmd/copy.py:37 | a missing record means the recipe is not in the cache; an unreadable one is an error; otherwise the stored record is returned |
| Cache.ClientCache.MetadataForUpdate | conan/conans/client/cmd/copy.py:91 | update_metadata starts from the stored record, or from an empty one when no file exists; an unreadable file is an error |
| Source.CompleteRecipeSources | conan/conans/client/source.py:17-40 | the outcome, folders and trace are those SourcesCompleted gives from the old folders, trace and metadata; the four-way decision: if the export-sources folder exists, nothing changes and no remote is called; with no exports_sources an empty folder is created; a record without a remote raises "no remote defined" naming the ref; otherwise exactly one get_recipe_sources call is made, with the export path, the sources folder and the recorded remote |
| Source.SourcesCompletedFacts | conan/conans/client/source.py:17-40 | the completion passes iff the export-sources folder exists, the recipe has no exports_sources, or the record names a remote that is configured; a pass leaves the sources folder present, a failure changes neither folders nor trace; no other folder changes; at most one get_recipe_sources call is added, for the given reference |
| Source.CompleteRecipeSourcesTwice | conan/conans/client/source.py:22-24 | completing twice contacts the remote at most once, and the second call passes once the first did |
| Source.LocalSourcesPath | conan/conans/client/source.py:123-124 | the local sources path exists iff the scm pointer file exists |
| Source.RemoveSource | conan/conans/client/source.py:109-121 | a failed removal leaves the folder, marks it dirty and raises; a successful one removes only that folder |
| Source.MaterialiseSource | conan/conans/client/source.py:135-147 | the marker is set and the folder created before the source step runs; the marker is cleared only when the step returns normally |
| Source.ConfigSource | conan/conans/client/source.py:103-147 | wipe iff dirty, build policy "always", or an existing recorded working copy; a normal return leaves a clean, present folder, and an abnormal one leaves the marker set; no other folder changes |
| Source.ConfigSourceAfterInterruption | conan/conans/client/source.py:125-147 | a source step that raised is repaired by the next one: the marker forces a wipe, then a fresh materialisation, and the folder ends clean |
| Source.UsableLocalCopy | conan/conans/client/source.py:207-223 | in the cache the recorded working copy is used iff it exists; in user space only when origin or revision capture is on, the scm's own path taking precedence |
| Source.PlanScm | conan/conans/client/source.py:202-236 | no scm data means no step; a local merge happens iff develop is set and a usable copy exists, and then it merges from exactly that copy; otherwise a checkout; the subfolder is cleaned afterwards iff in the cache |
| Source.Kept | conan/conans/client/source.py:70 | the file filter keeps exactly the files that are not excluded |
| Source.CleanIsIdempotent | conan/conans/client/source.py:189-199 | cleaning a folder a second time changes nothing |
| Source.FileSystem.CleanSourceFolder | conan/conans/client/source.py:189-199 | every generated file is gone and __pycache__ is gone when it is a directory; every other file is kept unchanged |
| Source.FileSystem.MergeDirectories | conan/conans/client/source.py:43-84 | the walk loop produces the directories, files and linked folders of the walk specification; it fails iff creating a file link hits an existing entry |
| Source.FileSystem.CopyDirFiles | conan/conans/client/source.py:75-82 | the per-directory file loop agrees with its specification, stopping at the first link that cannot be created |
| Source.CopyFilesFacts | conan/conans/client/source.py:75-82 | the file loop changes only the entries of listed files; on success each one is present and holds its copy |
| Source.MergeWritesOnlyCopies | conan/conans/client/source.py:49-82 | every file the merge writes or overwrites is the copy of a file in a reached, non-excluded, non-link directory, and is not excluded itself |
| Source.CopiedPathsAreIncluded | conan/conans/client/source.py:49-55 | a copied path is neither the destination nor an excluded path, nor below one |
| Source.MergeCopiesEveryIncludedFile | conan/conans/client/source.py:58-82 | on success every file that may be copied is present in the destination |
| Source.MergeCopiesFaithfully | conan/conans/client/source.py:75-82 | on success each copied file holds its copy: a link stays a link when symlinks is set, anything else is copied |
| Source.MergeRecordsLinkedFolders | conan/conans/client/source.py:64-67 | the linked folders are exactly the reached, non-excluded symbolic-link directories |
| Copy.GetPackageIds | conan/conans/client/cmd/copy.py:17-26 | falsy gives no ids; True gives the packages listing, or nothing when the folder is absent; a list is returned unchanged |
| Copy.DestinationRef | conan/conans/client/cmd/copy.py:45-47 | the destination keeps the source name and version, takes the given user and channel, and has no revision |
| Copy.CopyPackagesFrame | conan/conans/client/cmd/copy.py:74-88 | the binaries loop touches only the destination package folders of the listed ids; a forced copy asks nothing |
| Copy.DeclinedPackagesAreKept | conan/conans/client/cmd/copy.py:80-83 | a binary whose override is declined keeps its destination and is never recorded |
| Copy.RecordedPackagesAreListed | conan/conans/client/cmd/copy.py:85-86 | every recorded binary was listed and carries the source (package revision, recipe revision) pair |
| Copy.CopiedPackagesMatchSource | conan/conans/client/cmd/copy.py:75-88 | after a successful loop every listed binary that may be written is recorded, and its destination holds the source binary |
| Copy.CopiedPackagesStayPut | conan/conans/client/cmd/copy.py:84-87 | every recorded binary has a destination folder after a successful loop |
| Copy.CopyAsksOnly | conan/conans/client/cmd/copy.py:80-83 | the loop only appends override questions to the trace |
| Copy.CopyRecipe | conan/conans/client/cmd/copy.py:53-71 | the export part of package_copy leaves the outcome, folders and trace that CopyRecipeOf gives |
| Copy.CopyRecipeFacts | conan/conans/client/cmd/copy.py:53-71 | a missing source export fails with nothing changed; the override is declined iff the destination export exists, the copy is not forced and the user says no, and then no folder changes; only the override question is added to the trace; only the two destination folders change; a copy leaves the source export and export sources at the destination |
| Copy.CopyBinaries | conan/conans/client/cmd/copy.py:73-88 | the binaries loop agrees with its specification CopyPackages |
| Copy.WithCopiedRevisions | conan/conans/client/cmd/copy.py:91-95 | the recipe revision is replaced, each copied id gets its pair, every other entry is untouched |
| Copy.UpdateDestinationMetadata | conan/conans/client/cmd/copy.py:91-95 | the destination record, or a fresh one, is rewritten with WithCopiedRevisions; an unreadable record is an error |
| Copy.PackageCopy | conan/conans/client/cmd/copy.py:44-95 | leaves the outcome, folders, trace and metadata that PackageCopyOf gives from the source record and the destination record as update_metadata reads it; a missing export fails with DoesNotExist and nothing changed; a declined recipe override passes with folders and metadata unchanged |
| Copy.PackageCopyStopsEarly | conan/conans/client/cmd/copy.py:50-61 | an unreadable source record and a missing source export fail with nothing changed; the copy is declined iff the destination export exists, the copy is not forced and the user says no, and a declined copy passes with folders and metadata unchanged |
| Copy.PackageCopyAsksOnly | conan/conans/client/cmd/copy.py:59-83 | the copy keeps the trace so far and only adds override questions |
| Copy.PackageCopyRecord | conan/conans/client/cmd/copy.py:85-95 | only the destination record can change; when it does the copy passed, and the record keeps its remote, takes the source recipe revision, and each binary entry is either a copied one with the source revision pair or one it had before |
| Copy.PackageCopyCopiesAll | conan/conans/client/cmd/copy.py:53-95 | a copy that passes without a declined override leaves the source export, the export sources and every listed binary that may be written at the destination, records each such binary with its source pair, and changes no other folder |
| Copy.CmdCopy | conan/conans/client/cmd/copy.py:29-41 | an unreadable source record fails with nothing changed; otherwise the source is pinned to the recipe revision its metadata records, and the outcome, folders, trace and metadata are those CmdCopyOf gives: the sources of the pinned reference are completed, a failure there ends the command with nothing else changed, and otherwise package_copy runs on the pinned reference and the ids _get_package_ids selects, from the folders and trace the completion leaves; every source fetch uses the pinned reference |
| Copy.CmdCopyTrace | conan/conans/client/cmd/copy.py:29-41 | the command keeps the trace so far and only adds source fetches for the pinned reference and override questions, every fetch before every question; a failed completion ends the command with metadata, folders and trace unchanged |
| Download.SelectedIds | conan/conans/client/cmd/download.py:24-30 | a recipe-only download selects no binary; given ids are used; otherwise the ids the remote search reports |
| Download.PackageCallsInOrder | conan/conans/client/cmd/download.py:38-46 | one get_package call per selected id, in order, into the package folder computed with short_paths |
| Download.PackageCallsDownloadSelected | conan/conans/client/cmd/download.py:38-46 | a binary is downloaded iff its id is selected |
| Download.DownloadBinaries | conan/conans/client/cmd/download.py:38-46 | the loop appends exactly the calls of PackageCalls; the modelled folders, metadata, dirty markers and scm pointers are left as they are |
| Download.FinishDownload | conan/conans/client/cmd/download.py:24-35 | the search happens only when no id was given and binaries are wanted; then the binaries; then post_download |
| Download.WithRemote | conan/conans/client/cmd/download.py:15-16 | the record names the remote and keeps its revision and packages |
| Download.Download | conan/conans/client/cmd/download.py:6-35 | pre_download runs first and the recipe is fetched before any other remote call; an unreadable record fails after those two calls with no folder changed; otherwise the origin remote is recorded, and the outcome, folders and trace are those SourcesCompleted gives from the record naming that remote, followed on success by the selected downloads and post_download; the download passes iff the export-sources folder exists, the recipe has no exports_sources, or the remote has a name that is configured; sources are completed even for a recipe-only download, which fetches no binary |
| ServerSearch.ScannedRefs | conan/conans/server/service/common/search.py:19-22 | with look_in_all, one reference per stored recipe revision, in the stored order, each the given reference pinned to that revision; otherwise only the reference as given |
| ServerSearch.CollectIdsFacts | conan/conans/server/service/common/search.py:24-44 | an id already collected keeps its info; a new id is added iff it is listed and its info is readable |
| ServerSearch.FirstReadableInfoWins | conan/conans/server/service/common/search.py:16-45 | an id is in the result iff some scanned revision lists it with a readable info, and it carries the info of the first such revision; unreadable infos are skipped |
| ServerSearch.GetLocalInfosMin | conan/conans/server/service/common/search.py:16-45 | the nested loops agree with CollectRefs over the scanned references |
| ServerSearch.SearchPackagesIn | conan/conans/server/service/common/search.py:48-66 | a single-revision search without revision is pinned to the latest revision, and fails when there is none; a recipe without a revisions root is not found; otherwise the filtered infos of the scanned references; the result is PackagesFound |
| ServerSearch.SearchService.SearchPackages | conan/conans/server/service/common/search.py:76-80 | the read check comes first: a denied or failing check yields its error, and an allowed one yields exactly what search_packages yields (PackagesFound) |
| ServerSearch.SearchService.SearchRecipes | conan/conans/server/service/common/search.py:82-111 | the result is sorted by name, Version order, user and channel; without a pattern it is a permutation of the stored references; with one it has no duplicates and holds exactly the revision-cleared matches |
| Ordering.SortRefsCorrect | conan/conans/server/service/common/search.py:103 | under any strict total Version order, sorting gives a sorted permutation |
| Ordering.RefLeTotal | conan/conans/server/service/common/search.py:103 | any two references are comparable, and they are tied iff they have the same name, version, user and channel |
| Ordering.RefLeTransitive | conan/conans/server/service/common/search.py:103 | the order sorted uses is transitive |
| Ordering.VersionDecides | conan/conans/server/service/common/search.py:103 | with equal names, a version smaller in the Version order sorts first, whatever its text |
| Ordering.SortRefsKeepsElements | conan/conans/server/service/common/search.py:111 | sorting a duplicate-free list keeps it duplicate-free, with the same elements |
| ServerSearch.PermittedFacts | conan/conans/server/service/common/search.py:118-127 | filtering keeps exactly the readable references and keeps a sorted listing sorted |
| ServerSearch.FirstBroken | conan/conans/server/service/common/search.py:121-126 | the first reference whose check fails with an error other than forbidden |
| ServerSearch.SearchService.Search | conan/conans/server/service/common/search.py:113-127 | the listing in order, dropping exactly the forbidden references; any other check failure aborts at the first reference that raises it |
| Migrations.MigrationStepsGated | conan/conans/client/migrations.py:63-103 | with no previous version nothing runs; otherwise a step runs iff its version gate holds |
| Migrations.MigrationStepsInOrder | conan/conans/client/migrations.py:63-103 | the steps run in the fixed order, each at most once, starting with the settings update |
| Migrations.MigrationStepsMonotone | conan/conans/client/migrations.py:72-103 | under a transitive Version order, migrating from an older version runs every step a newer one runs |
| Migrations.ClientMigrator.MakeMigrations | conan/conans/client/migrations.py:63-103 | None changes nothing; otherwise the outcome and the files are those Migrate gives for the gated plan; success runs exactly the planned steps; a failure stops right after the config install or the full metadata step |
| Migrations.ClientMigrator.RunStep | conan/conans/client/migrations.py:69-103 | one step is recorded and the outcome and files are what StepEffect gives for it; only the config install and the full metadata repair can fail |
| Migrations.ClientMigrator.Gate | conan/conans/client/migrations.py:72-103 | a step whose gate fails changes nothing; one whose gate holds runs with its StepEffect; the steps run and the files both extend the plan through this step |
| Migrations.SettingsVarNameInjective | conan/conans/client/migrations.py:38 | distinct versions name distinct attributes |
| Migrations.SettingsUpdateKeepsUserEdits | conan/conans/client/migrations.py:29-61 | the decision table: the user file is overwritten iff it equals the old default and that differs from the current one; .new is written iff the version is unknown or the file was edited; nothing happens without settings |
| Migrations.ClientMigrator.UpdateSettingsYml | conan/conans/client/migrations.py:29-61 | settings.yml and settings.yml.new change as the decision table says |
| Migrations.MigratedRecord | conan/conans/client/migrations.py:126-153 | the repaired record is consistent: it keeps a revision it had, or takes the export revision; one entry per package folder with its revision and the recipe revision; the remote is kept |
| Migrations.ConsistentIsFixpoint | conan/conans/client/migrations.py:126-153 | a consistent record is left as it is |
| Migrations.MigratedRecordIdempotent | conan/conans/client/migrations.py:126-153 | repairing twice is repairing once |
| Migrations.DropStale | conan/conans/client/migrations.py:138-144 | exactly the entries whose package folder is gone are deleted; the others are unchanged |
| Migrations.RecordPackageRevisions | conan/conans/client/migrations.py:146-153 | each listed package gets its revision and the recipe revision; other entries are untouched |
| Migrations.RepairRecord | conan/conans/client/migrations.py:126-153 | the update_metadata body computes MigratedRecord |
| Migrations.FullyMigratedFacts | conan/conans/client/migrations.py:117-158 | every migrated reference has a consistent record; no other file changes |
| Migrations.FullMigrationIdempotent | conan/conans/client/migrations.py:117-158 | running the full migration again after success changes nothing |
| Migrations.MigrateFullMetadata | conan/conans/client/migrations.py:117-158 | success migrates every reference; otherwise it stops at the first unreadable reference (FirstUnreadable) with an error naming it, with the references before it migrated |
| Migrations.CreatedFacts | conan/conans/client/migrations.py:161-197 | existing files are never touched; each created record has the export revision, no remote and a consistent entry per package folder, and a later full migration leaves it as it is |
| Migrations.MigrateCreateMetadata | conan/conans/client/migrations.py:161-197 | the loop writes exactly the missing files, as Created says |
| Migrations.SliceBound | conan/conans/client/migrations.py:256-258 | a Python slice bound: a negative index counts from the end |
| Migrations.MigrateToDefaultProfileUnchanged | conan/conans/client/migrations.py:249-254 | the transform changes nothing iff the tag is absent or its first occurrence is at offset 0 |
| Migrations.MigrateToDefaultProfileMovesSection | conan/conans/client/migrations.py:251-264 | when the section follows other text and is the last one or followed by a header, the conf keeps everything else and the profile is "[settings]\n" plus the stripped section |
| Migrations.MigrateToDefaultProfileStrayBracket | conan/conans/client/migrations.py:255-258 | as written, a last section that holds "]" loses its last character to the conf, unlike the intended transform |
| Migrations.MigrateToDefaultProfileAtStart | conan/conans/client/migrations.py:254 | as written, a conf that starts with the tag is left alone, unlike the intended transform |
| Migrations.IntendedMovesSection | conan/conans/client/migrations.py:246-264 | the intended transform moves the section wherever the tag is, whatever the section holds besides "[" |
| Migrations.ClientMigrator.MoveSettingsDefaults | conan/conans/client/migrations.py:72-81 | conan.conf and the default profile become what the transform gives, or stay as they were |
| Migrations.StripAll | conan/conans/client/migrations.py:227 | each item is the stripped part |
| Migrations.ConfigInstallShape | conan/conans/client/migrations.py:227-236 | the item is refused iff it has neither zero nor three commas |
| Migrations.ConfigInstallUriOnly | conan/conans/client/migrations.py:230-238 | a lone uri converts to an origin with no type, SSL verification on and no arguments |
| Migrations.ConfigInstallRoundTrip | conan/conans/client/migrations.py:227-238 | four comma-free, stripped fields joined with commas convert back to those fields |
| Migrations.ClientMigrator.MigrateConfigInstall | conan/conans/client/migrations.py:224-243 | a converted item becomes the single saved origin and is removed; an unrecognised one raises and changes nothing |
| Migrations.FirstUnreadable | conan/conans/client/migrations.py:117-158 | the position of the first reference whose record cannot be read: every reference before it can be read |
| Migrations.StepEffectFacts | conan/conans/client/migrations.py:69-103 | only the config install and the full metadata repair can fail, each with its own error; settings.yml, the default profile, the config item and the metadata are each written only by their own steps, and conan.conf only by the default profile move and plugins-to-hooks |
| Migrations.HooksConf | conan/conans/client/migrations.py:281-286 | a conan.conf without a `[plugins]` header is left as it is; otherwise each header is replaced |
| Migrations.MigrateNext | conan/conans/client/migrations.py:72-103 | the plan through a step runs that step after the plan before it iff its gate holds and nothing failed |
| Migrations.MigrateStopsBelow | conan/conans/client/migrations.py:63-103 | once a step has raised, the rest of the plan changes nothing |
| Migrations.MigrationFrame | conan/conans/client/migrations.py:63-103 | a file no step of the plan writes is left as it was |
| Migrations.StepKeepsConsistent | conan/conans/client/migrations.py:99-103 | a successful full metadata repair leaves every record consistent, and no later successful step breaks one |
| Migrations.MigrationRepairsMetadata | conan/conans/client/migrations.py:99-158 | a successful migration that runs the full repair leaves a consistent record for every reference |
| Migrations.ConfigInstallEffect | conan/conans/client/migrations.py:224-243 | the step leaves files without an item alone; on success no item remains and a present item is the single saved origin |
| Migrations.MigrationConvertsConfigItem | conan/conans/client/migrations.py:96-97 | a successful migration that runs the config install leaves no item, and an item there was becomes the single saved origin |
| Migrations.MigrationUpdatesSettings | conan/conans/client/migrations.py:69-70 | the settings update runs first and nothing later writes settings.yml, so the migration leaves it as that update does |
| Migrations.MigrationFromRelease | conan/conans/client/migrations.py:63-103 | from a release below 1.14.2 a successful migration leaves every record consistent; below 1.14.0 the config item is converted; from 1.14.0 on the config is untouched; from 1.14.2 on the metadata; unless the 0.25 profile move runs, the profile, and conan.conf too from 1.12.0 on; the settings files change as the decision table says |
| Text.ReplaceAbsent | conan/conans/client/migrations.py:286 | replacing a pattern that does not occur gives the string back |
| Text.Find | conan/conans/client/migrations.py:251 | -1 iff the substring does not occur, otherwise its first occurrence |
| Text.SplitJoin | conan/conans/client/migrations.py:227 | joining the parts of a split gives the string back; no part holds the separator; there is one more part than separators |
| Text.JoinSplit | conan/conans/client/migrations.py:227 | splitting a join of separator-free parts gives the parts back |
| Text.Strip | conan/conans/client/migrations.py:258 | the result is a slice of the input with no leading or trailing whitespace, and only whitespace was removed |
| Text.StripIdempotent | conan/conans/client/migrations.py:261 | stripping twice is stripping once |
| Text.Lower | conan/conans/client/migrations.py:237-238 | lower-casing keeps the length and maps each ASCII capital to its small letter |

## Findings

| source | as written | input that shows it | evidently intended | confidence | as-written member | corrected member |
|---|---|---|---|---|---|---|
| conan/conans/client/migrations.py:255-258 | tests for "]" in the rest, then slices at rest.find("["); with no "[" after the tag, find gives -1 and the slice drops the last character | conan.conf `a[settings_defaults]b]` gives conf `a]` and profile `[settings]\nb` | the section runs to the next "[" or to the end: conf `a`, profile `[settings]\nb]` | medium, not executed | Migrations.MigrateToDefaultProfileStrayBracket | Migrations.IntendedMovesSection |
| conan/conans/client/migrations.py:254 | `if tmp:` treats a tag at offset 0 like a missing tag | conan.conf `[settings_defaults]os=Linux` is left as it is and no profile is written | the section is moved wherever the tag is: conf empty, profile `[settings]\nos=Linux` | medium, not executed | Migrations.MigrateToDefaultProfileAtStart | Migrations.IntendedMovesSection |

- Both halves are defined: `Migrations.MigrateToDefaultProfile` is the transform as written and `Migrations.MigrateToDefaultProfileIntended` is the corrected one.
- The migrator (`Migrations.ClientMigrator.MoveSettingsDefaults`) applies the transform as written, because it models what an old cache actually undergoes.

## Left out

- Download.Download: the writes the remote manager makes to the cache are not modelled. `get_recipe` fills the export folder (download.py:14); it is a call in the trace only, so the modelled folders do not change with it.
- Download.DownloadBinaries: `get_package` fills each package folder (download.py:46); it is a call in the trace only, so the modelled package folders do not change with it.
- Copy.PackageCopy: the method also returns whether the recipe override was declined; package_copy returns None on both paths, and the flag only makes the early return visible to the contract.
- Remote calls always succeed; their results are parameters. These are the fetched recipe revision, the delivered sources, the search result and the package downloads; a remote error is not modelled.
- The file system is abstract. Folders are keys of a map, trees are values, and there is no path normalisation, no permission model and no partial copy.
  - `shutil.copytree` and `rmdir` are single map updates.
  - A missing copytree origin is an error.
- `package_cache_layout.py`, `metadata.py` and the path helpers are not part of this model. Their behaviour is assumed:
  - a missing metadata file means "recipe not found";
  - an unparsable one is an error;
  - update_metadata on a missing file starts from an empty record;
  - a missing package entry reads as an empty pair.
- Source.MaterialiseSource: `_run_source` is one step whose outcome (the materialised tree or a raise with a partial tree) is a parameter. Its hooks, the scm step, the merges from the export folders and the clean-up run inside it and are modelled separately (`PlanScm`, `MergeDirectories`, `CleanSourceFolder`), not composed into `ConfigSource`.
- `config_source_local` and the user-space export of `_run_source` are not modelled.
- Source.FileSystem.MergeDirectories: the walk is an input sequence of steps. The walk still descends into a linked folder, as `os.walk(followlinks=True)` does, because the code does not clear `dirs` there; those sub-steps are processed like any other. The final `FileCopier.link_folders` call is left to the caller, which receives the linked folders.
- Source.FileSystem.CleanSourceFolder: removing a missing file or a non-directory `__pycache__` is a no-op, as the ignored `OSError` makes it.
- Logging, warnings and output text are not modelled, nor are the latin1 decoding of errors and the `KeyboardInterrupt` special case. `remove_source` is always called with `raise_error=True`, so a failed removal always raises.
- Prompts (`user_io.request_boolean`) are a function from question to answer. The question is recorded in the trace.
- Hooks are events in the trace.
- `conanfile.short_paths` and `exports_sources` are parameters; the conanfile loader is not modelled.
- ServerSearch.SearchRecipes: the pattern match (`fnmatch.translate`, `_partial_match`, the case-insensitive flag) is a parameter. `list_folder_subdirs` is the sequence of stored references. The unused helper `get_ref` is not modelled.
- ServerSearch.SearchPackagesIn: `filter_packages` and `ConanInfo` parsing are parameters. An info is the minimal serialisation or a malformed file.
- Ordering.SortRefsCorrect: the comparison of `ConanFileReference` is not part of this model. References are ordered as tuples of name, version, user and channel, with Python's string order on the text fields and the order of the `Version` class, a parameter required to be a strict total order, on the version. Two version strings that `Version` holds equal but that differ as text (`1.0` and `1.0.0`) are treated as different. The revision is left out of the order, and the stability of `sorted` is not stated.
- Migrations.ClientMigrator.MakeMigrations: the Version order is a parameter.
  - Three housekeeping steps are recorded by name only, and Migrations.StepEffectFacts, Migrations.MigrationFrame and Migrations.MigrationFromRelease say nothing about what they do:
    - `_migrate_lock_files` removes the lock files of every package folder, and it raises when a removal fails (migrations.py:200-221), so that step can fail in the code but never in the model;
    - `migrate_c_src_export_source` removes each whole reference folder that has the old export_source layout, its metadata.json included (migrations.py:267-278);
    - `migrate_registry_file` converts the remote registry (migrations.py:103).
  - Plugins to hooks rewrites `[plugins]` to `[hooks]` in conan.conf (Migrations.HooksConf); the rename of the plugins folder (migrations.py:283-284) is not modelled.
  - The config install step removes `general.config_install` from conan.conf (migrations.py:241); the model keeps that item as its own field, apart from the conan.conf text.
  - The default profile's existence is read once, after the settings update, which never touches it.
- Migrations.ClientMigrator.MigrateConfigInstall: the `general.config_install` item is a field rather than being parsed out of conan.conf.
  - `_ConfigOrigin.from_item` and `_save_configs` are replaced by the origin record and the saved list.
  - A `ConanException` they could raise, which the code swallows, is not modelled.
- Migrations.MigrateCreateMetadata: no step can fail in this model. Manifest loading falls back to the default revision, and saving is a map update, so the exception path of lines 193-196 is not reachable.
- Text.Lower: maps ASCII letters only; the Unicode case mapping of Python's `str.lower` is not modelled.
- `conan_requester.py` and the deploy generator are not modelled, and neither is the version-range resolution that some tests exercise.
