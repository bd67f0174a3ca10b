/** Server-side search (server/service/common/search.py): the package infos
    of a recipe, collected across its revisions with the first revision
    that has a readable info winning, and the recipe listing, filtered by
    what the authenticated user may read. */
module ServerSearch {
  import opened Common
  import opened Ordering

  /** The conaninfo.txt of a package revision on the server: its minimal
      serialisation, or a file that does not load. */
  datatype InfoFile = Valid(min: string) | Malformed

  /** The server store as the search reads it. */
  datatype ServerStore = ServerStore(
    /** get_recipe_revisions, in the order the store lists them. */
    recipeRevisions: map<RecipeId, seq<string>>,
    /** get_last_revision of a recipe, when it has one. */
    latest: map<RecipeId, string>,
    /** The recipes whose revisions root folder exists. */
    roots: set<RecipeId>,
    /** The package-id folders under a (possibly pinned) reference. */
    packageDirs: map<Reference, seq<string>>,
    /** get_last_package_revision, keyed by the unrevisioned package reference. */
    lastPackageRevision: map<PackageReference, string>,
    /** The conaninfo.txt files, keyed by the full package reference. */
    infos: map<PackageReference, InfoFile>,
    /** The folders five levels under the store root, as references with
        their revision. */
    stored: seq<Reference>)

  /** The package-id folders under `r`; a missing folder lists nothing. */
  function Listing(store: ServerStore, r: Reference): seq<string> {
    if r in store.packageDirs then store.packageDirs[r] else []
  }

  /** The minimal info of one package, when it has a last revision and a
      readable conaninfo.txt; any other case is skipped. */
  function ReadInfo(store: ServerStore, r: Reference, packageId: string): Option<string> {
    var pref := PackageReference(r, packageId, None);
    if pref !in store.lastPackageRevision then None
    else
      var full := PackageReference(r, packageId, Some(store.lastPackageRevision[pref]));
      if full in store.infos && store.infos[full].Valid? then Some(store.infos[full].min) else None
  }

  /** The revisions the store lists for a recipe; none when it lists none. */
  function StoredRevisions(store: ServerStore, id: RecipeId): seq<string> {
    if id in store.recipeRevisions then store.recipeRevisions[id] else []
  }

  /** The references _get_local_infos_min scans: every recipe revision, in
      the order the store lists them, or only the reference as given. */
  function ScannedRefs(store: ServerStore, ref: Reference, lookInAll: bool): (refs: seq<Reference>)
    ensures !lookInAll ==> refs == [ref]
    ensures lookInAll ==> |refs| == |StoredRevisions(store, ref.id)|
    ensures lookInAll ==> forall i :: 0 <= i < |refs| ==>
      refs[i].id == ref.id && refs[i].revision == Some(StoredRevisions(store, ref.id)[i])
  {
    if !lookInAll then [ref]
    else
      var revs := StoredRevisions(store, ref.id);
      seq(|revs|, i requires 0 <= i < |revs| => ref.CopyWithRev(Some(revs[i])))
  }

  /** The infos gathered from one reference's listing, on top of `acc`. */
  function CollectIds(store: ServerStore, r: Reference, ids: seq<string>, acc: map<string, string>): map<string, string>
    decreases |ids|
  {
    if ids == [] then acc
    else
      var before := CollectIds(store, r, ids[..|ids| - 1], acc);
      var packageId := ids[|ids| - 1];
      if packageId in before then before
      else match ReadInfo(store, r, packageId)
        case None => before
        case Some(info) => before[packageId := info]
  }

  /** The infos gathered from the scanned references, in order. */
  function CollectRefs(store: ServerStore, refs: seq<Reference>): map<string, string>
    decreases |refs|
  {
    if refs == [] then map[]
    else
      var r := refs[|refs| - 1];
      CollectIds(store, r, Listing(store, r), CollectRefs(store, refs[..|refs| - 1]))
  }

  /** `packageId` has a readable info under `refs[k]`. */
  predicate Readable(store: ServerStore, refs: seq<Reference>, k: int, packageId: string)
    requires 0 <= k < |refs|
  {
    packageId in Listing(store, refs[k]) && ReadInfo(store, refs[k], packageId).Some?
  }

  lemma {:induction false} CollectIdsFacts(store: ServerStore, r: Reference, ids: seq<string>,
                                           acc: map<string, string>, packageId: string)
    ensures var m := CollectIds(store, r, ids, acc);
      packageId in acc ==> packageId in m && m[packageId] == acc[packageId]
    ensures var m := CollectIds(store, r, ids, acc);
      packageId !in acc ==>
        (packageId in m <==> packageId in ids && ReadInfo(store, r, packageId).Some?)
        && (packageId in m ==> m[packageId] == ReadInfo(store, r, packageId).value)
    decreases |ids|
  {
    if ids != [] {
      CollectIdsFacts(store, r, ids[..|ids| - 1], acc, packageId);
      assert ids == ids[..|ids| - 1] + [ids[|ids| - 1]];
    }
  }

  /** First revision wins: a package id is in the result exactly when some
      scanned reference lists it with a readable info, and its info is the
      one of the first such reference. A package whose info cannot be read
      is skipped without failing the search. */
  lemma {:induction false} FirstReadableInfoWins(store: ServerStore, refs: seq<Reference>, packageId: string)
    ensures var m := CollectRefs(store, refs);
      packageId in m <==> exists k :: 0 <= k < |refs| && Readable(store, refs, k, packageId)
    ensures var m := CollectRefs(store, refs);
      forall k :: (0 <= k < |refs| && Readable(store, refs, k, packageId)
                   && forall j :: 0 <= j < k ==> !Readable(store, refs, j, packageId)) ==>
        m[packageId] == ReadInfo(store, refs[k], packageId).value
    decreases |refs|
  {
    if refs != [] {
      var init, last := refs[..|refs| - 1], refs[|refs| - 1];
      FirstReadableInfoWins(store, init, packageId);
      var before := CollectRefs(store, init);
      CollectIdsFacts(store, last, Listing(store, last), before, packageId);
      assert forall k :: 0 <= k < |init| ==> (Readable(store, init, k, packageId) <==> Readable(store, refs, k, packageId));
      var lastIndex := |refs| - 1;
      assert Readable(store, refs, lastIndex, packageId) <==>
        packageId in Listing(store, last) && ReadInfo(store, last, packageId).Some?;
      if packageId !in before {
        assert forall k :: 0 <= k < |init| ==> !Readable(store, refs, k, packageId);
      } else {
        var k :| 0 <= k < |init| && Readable(store, init, k, packageId);
        assert Readable(store, refs, k, packageId);
      }
    }
  }

  /** _get_local_infos_min. */
  method GetLocalInfosMin(store: ServerStore, ref: Reference, lookInAll: bool) returns (result: map<string, string>)
    ensures result == CollectRefs(store, ScannedRefs(store, ref, lookInAll))
  {
    var refs := ScannedRefs(store, ref, lookInAll);
    result := map[];
    for k := 0 to |refs|
      invariant result == CollectRefs(store, refs[..k])
    {
      assert refs[..k + 1][..k] == refs[..k];
      var newRef := refs[k];
      var ids := Listing(store, newRef);
      ghost var acc := result;
      for i := 0 to |ids|
        invariant result == CollectIds(store, newRef, ids[..i], acc)
      {
        assert ids[..i + 1][..i] == ids[..i];
        var packageId := ids[i];
        if packageId in result {
          continue;
        }
        var info := ReadInfo(store, newRef, packageId);
        if info.Some? {
          result := result[packageId := info.value];
        }
      }
      assert ids[..|ids|] == ids;
    }
    assert refs[..|refs|] == refs;
  }

  /** What search_packages answers: no latest revision to pin to, a recipe
      without a revisions root, or the filtered infos of the scanned
      references. */
  function PackagesFound(store: ServerStore, ref: Reference, query: Option<string>, lookInAll: bool,
                         filter: (Option<string>, map<string, string>) -> map<string, string>): Result<map<string, string>>
  {
    if !lookInAll && ref.revision.None? && ref.id !in store.latest then Fail(NoLatestRevision(ref))
    else
      var searched := if !lookInAll && ref.revision.None? then ref.CopyWithRev(Some(store.latest[ref.id])) else ref;
      if searched.id !in store.roots then Fail(RecipeNotFound(searched))
      else Ok(filter(query, CollectRefs(store, ScannedRefs(store, searched, lookInAll))))
  }

  /** search_packages. The reference is pinned to the latest revision when
      a single revision is searched and none is given; the recipe must have
      a revisions root. `filter` is filter_packages applied to the query. */
  method SearchPackagesIn(store: ServerStore, ref: Reference, query: Option<string>, lookInAll: bool,
                        filter: (Option<string>, map<string, string>) -> map<string, string>)
    returns (r: Result<map<string, string>>, searched: Reference)
    ensures !lookInAll && ref.revision.None? && ref.id !in store.latest ==> r == Fail(NoLatestRevision(ref))
    ensures searched.id == ref.id
    ensures !lookInAll && ref.revision.None? && ref.id in store.latest ==> searched.revision == Some(store.latest[ref.id])
    ensures lookInAll || ref.revision.Some? ==> searched == ref
    ensures r.Ok? <==> (lookInAll || ref.revision.Some? || ref.id in store.latest) && ref.id in store.roots
    ensures r.Fail? && (lookInAll || ref.revision.Some? || ref.id in store.latest) ==> r == Fail(RecipeNotFound(searched))
    ensures r.Ok? ==> r.value == filter(query, CollectRefs(store, ScannedRefs(store, searched, lookInAll)))
    ensures r == PackagesFound(store, ref, query, lookInAll, filter)
  {
    searched := ref;
    if !lookInAll && ref.revision.None? {
      if ref.id !in store.latest {
        return Fail(NoLatestRevision(ref)), searched;
      }
      searched := ref.CopyWithRev(Some(store.latest[ref.id]));
    }
    if searched.CopyClearRev().id !in store.roots {
      return Fail(RecipeNotFound(searched)), searched;
    }
    var infos := GetLocalInfosMin(store, searched, lookInAll);
    r := Ok(filter(query, infos));
  }

  /** The authorizer's verdict on a read: allowed, forbidden, or an error of
      any other kind. */
  datatype ReadCheck = Allowed | Denied | Broken

  /** The references `search` keeps: those the user may read, in order. */
  function Permitted(refs: seq<Reference>, check: Reference -> ReadCheck): seq<Reference>
    decreases |refs|
  {
    if refs == [] then []
    else
      var init := Permitted(refs[..|refs| - 1], check);
      if check(refs[|refs| - 1]).Allowed? then init + [refs[|refs| - 1]] else init
  }

  /** Filtering keeps exactly the readable references and keeps a sorted
      listing sorted. */
  lemma {:induction false} PermittedFacts(refs: seq<Reference>, check: Reference -> ReadCheck,
                                          versionLess: (string, string) -> bool)
    ensures forall x :: x in Permitted(refs, check) <==> x in refs && check(x).Allowed?
    ensures Sorted(refs, versionLess) ==> Sorted(Permitted(refs, check), versionLess)
    ensures |Permitted(refs, check)| <= |refs|
    decreases |refs|
  {
    if refs != [] {
      var init, last := refs[..|refs| - 1], refs[|refs| - 1];
      PermittedFacts(init, check, versionLess);
      assert refs == init + [last];
      var p := Permitted(init, check);
      if Sorted(refs, versionLess) && check(last).Allowed? {
        assert Sorted(init, versionLess);
        forall i, j | 0 <= i < j < |p + [last]| ensures RefLe((p + [last])[i], (p + [last])[j], versionLess) {
          if j == |p| {
            assert p[i] in p;
            var k :| 0 <= k < |init| && init[k] == p[i];
            assert refs[k] == p[i];
          }
        }
      }
    }
  }

  /** The first reference whose read check is neither allowed nor
      forbidden, if any. */
  function FirstBroken(refs: seq<Reference>, check: Reference -> ReadCheck): (b: Option<nat>)
    ensures b.Some? ==>
      b.value < |refs| && check(refs[b.value]).Broken? && forall i :: 0 <= i < b.value ==> !check(refs[i]).Broken?
    ensures b.None? ==> forall i :: 0 <= i < |refs| ==> !check(refs[i]).Broken?
    decreases |refs|
  {
    if refs == [] then None
    else if check(refs[0]).Broken? then Some(0)
    else match FirstBroken(refs[1..], check)
      case None => None
      case Some(k) => Some(k + 1)
  }

  /** The search service of one authenticated user. */
  class SearchService {
    const authorizer: (string, Reference) -> ReadCheck
    const store: ServerStore
    const authUser: string

    constructor (authorizer: (string, Reference) -> ReadCheck, store: ServerStore, authUser: string)
      ensures this.authorizer == authorizer && this.store == store && this.authUser == authUser
    {
      this.authorizer := authorizer;
      this.store := store;
      this.authUser := authUser;
    }

    /** The read check for this service's user. */
    function Check(): Reference -> ReadCheck {
      r => authorizer(authUser, r)
    }

    /** search_packages of the service: the read check comes first. */
    method SearchPackages(reference: Reference, query: Option<string>, lookInAll: bool,
                          filter: (Option<string>, map<string, string>) -> map<string, string>)
      returns (r: Result<map<string, string>>)
      ensures authorizer(authUser, reference).Denied? ==> r == Fail(Forbidden(reference))
      ensures authorizer(authUser, reference).Broken? ==> r == Fail(AuthorizerFailed(reference))
      ensures authorizer(authUser, reference).Allowed? ==>
        r == PackagesFound(store, reference, query, lookInAll, filter)
    {
      match authorizer(authUser, reference)
      case Denied => return Fail(Forbidden(reference));
      case Broken => return Fail(AuthorizerFailed(reference));
      case Allowed =>
        var searched;
        r, searched := SearchPackagesIn(store, reference, query, lookInAll, filter);
    }

    /** _search_recipes. Without a pattern every stored reference is listed
        with its revision; with one, the matching references are collected
        without revision into a set. `matches` is the fnmatch-style
        partial match of the pattern against the full reference;
        `versionLess` is the order of the Version class. */
    method SearchRecipes(pattern: Option<string>, ignorecase: bool,
                         matches: (string, bool, Reference) -> bool, versionLess: (string, string) -> bool)
      returns (refs: seq<Reference>)
      requires StrictTotalOrder(versionLess)
      ensures Sorted(refs, versionLess)
      ensures !Truthy(pattern) ==> multiset(refs) == multiset(store.stored)
      ensures Truthy(pattern) ==> NoDuplicates(refs)
      ensures Truthy(pattern) ==> forall x :: x in refs <==>
        exists s :: s in store.stored && matches(pattern.value, ignorecase, s) && x == s.CopyClearRev()
    {
      if !Truthy(pattern) {
        refs := SortRefs(store.stored, versionLess);
        SortRefsCorrect(store.stored, versionLess);
        return;
      }
      var ret: seq<Reference> := [];
      for i := 0 to |store.stored|
        invariant NoDuplicates(ret)
        invariant forall x :: x in ret <==>
          exists s :: s in store.stored[..i] && matches(pattern.value, ignorecase, s) && x == s.CopyClearRev()
      {
        var newRef := store.stored[i];
        assert store.stored[..i + 1] == store.stored[..i] + [newRef];
        if matches(pattern.value, ignorecase, newRef) && newRef.CopyClearRev() !in ret {
          ret := ret + [newRef.CopyClearRev()];
        }
      }
      assert store.stored[..|store.stored|] == store.stored;
      refs := SortRefs(ret, versionLess);
      SortRefsCorrect(ret, versionLess);
      SortRefsKeepsElements(ret, versionLess);
    }

    /** search: the listing in order, dropping exactly the references the
        user may not read; any other failure of the check aborts the search
        at the first reference that raises it. */
    method Search(pattern: Option<string>, ignorecase: bool, matches: (string, bool, Reference) -> bool,
                  versionLess: (string, string) -> bool)
      returns (r: Result<seq<Reference>>, listed: seq<Reference>)
      requires StrictTotalOrder(versionLess)
      ensures Sorted(listed, versionLess)
      ensures !Truthy(pattern) ==> multiset(listed) == multiset(store.stored)
      ensures FirstBroken(listed, Check()).Some? ==>
        r == Fail(AuthorizerFailed(listed[FirstBroken(listed, Check()).value]))
      ensures FirstBroken(listed, Check()).None? ==> r == Ok(Permitted(listed, Check()))
    {
      listed := SearchRecipes(pattern, ignorecase, matches, versionLess);
      var filtered: seq<Reference> := [];
      for i := 0 to |listed|
        invariant filtered == Permitted(listed[..i], Check())
        invariant forall j :: 0 <= j < i ==> !Check()(listed[j]).Broken?
      {
        assert listed[..i + 1][..i] == listed[..i];
        var ref := listed[i];
        match authorizer(authUser, ref)
        case Allowed =>
          filtered := filtered + [ref];
        case Denied =>
        case Broken =>
          assert FirstBroken(listed, Check()) == Some(i) by {
            FirstBrokenIs(listed, Check(), i);
          }
          return Fail(AuthorizerFailed(ref)), listed;
      }
      assert listed[..|listed|] == listed;
      r := Ok(filtered);
    }
  }

  lemma {:induction false} FirstBrokenIs(refs: seq<Reference>, check: Reference -> ReadCheck, i: nat)
    requires i < |refs| && check(refs[i]).Broken?
    requires forall j :: 0 <= j < i ==> !check(refs[j]).Broken?
    ensures FirstBroken(refs, check) == Some(i)
    decreases i
  {
    if i > 0 {
      FirstBrokenIs(refs[1..], check, i - 1);
    }
  }
}
