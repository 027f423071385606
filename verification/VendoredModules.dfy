/**
 * The vendored module tree under `modules/` and `verifyVendoredModules` of
 * scripts/modules-cli.ts, which must accept it only when lock, artifacts and
 * runtime catalog correspond one to one.
 */
module VendoredModules {
  import opened Common
  import opened Text
  import opened ModuleLock
  import O = Ordering

  // ---- the tree, as far as the program looks at it ----

  /** A file's contents, by what they parse as. */
  datatype File =
    | ManifestFile(manifest: Manifest, bytes: nat)
    | LockFile(entries: seq<LockEntry>, bytes: nat)
    | OtherFile(bytes: nat)

  /** A directory entry where a file is expected; a symlink or a directory is not a real file. */
  datatype Node = RealFile(file: File) | NotAFile

  datatype Child = Folder(files: map<string, Node>) | NotAFolder

  datatype Bundled = NoBundled | BundledFolder(children: map<string, Child>) | OddBundled

  /** `temps` are the staged files beside the lock, under names nothing else looks at. */
  datatype Tree =
    | NoRoot
    | NoModules
    | OddModules
    | Modules(vendorLock: Option<nat>, lock: Option<Node>, temps: map<string, File>, bundled: Bundled)
  {
    function Lock(): Option<Node> { if Modules? then lock else None }

    function Bundle(): Bundled { if Modules? then bundled else NoBundled }

    function Children(): map<string, Child> { if Bundle().BundledFolder? then Bundle().children else map[] }

    predicate Locked() { Modules? && vendorLock.Some? }
  }

  // ---- reading one file ----

  /** `checkModule` on the file at this place. */
  function CheckedManifest(node: Option<Node>): Option<Manifest> {
    match node
    case Some(RealFile(ManifestFile(m, bytes))) => if bytes <= MANIFEST_BYTES && ManifestOk(m) then Some(m) else None
    case _ => None
  }

  function FileIn(child: Child, name: string): Option<Node> {
    if child.Folder? && name in child.files then Some(child.files[name]) else None
  }

  function ManifestAt(tree: Tree, slug: string): Option<Manifest> {
    if slug in tree.Children() then CheckedManifest(FileIn(tree.Children()[slug], MANIFEST_NAME)) else None
  }

  /** `readModuleLock`: a missing lock is an empty one. */
  function ReadLock(env: Env, node: Option<Node>): Option<seq<LockEntry>> {
    match node
    case None => Some([])
    case Some(RealFile(LockFile(entries, bytes))) =>
      if bytes <= LOCK_BYTES && (forall e | e in entries :: EntryOk(env, e)) && Ids(Sort(entries)) == Ids(entries)
      then Some(entries) else None
    case _ => None
  }

  // ---- what verification means ----

  predicate Agrees(env: Env, e: LockEntry, m: Manifest) {
    e.id == m.id && e.slug == m.slug && e.version == m.version && e.digest == env.digest(m)
  }

  /** The lock entry points at a real artifact that matches it. */
  predicate Backed(env: Env, tree: Tree, e: LockEntry) {
    e.path == ManifestPath(e.slug) && ManifestAt(tree, e.slug).Some? && Agrees(env, e, ManifestAt(tree, e.slug).value)
  }

  /** A module folder as `listVendoredArtifactSlugs` demands: the manifest and nothing else. */
  predicate TidyFolder(slug: string, child: Child) {
    SlugOk(slug) && child.Folder? && child.files.Keys == {MANIFEST_NAME} && child.files[MANIFEST_NAME].RealFile?
  }

  ghost predicate HasSlug(entries: seq<LockEntry>, slug: string) {
    exists e :: e in entries && e.slug == slug
  }

  ghost predicate HasId(catalog: seq<Manifest>, id: string) {
    exists m :: m in catalog && m.id == id
  }

  ghost predicate UniqueManifests(catalog: seq<Manifest>) {
    forall i, j | 0 <= i < j < |catalog| :: catalog[i].id != catalog[j].id && catalog[i].slug != catalog[j].slug
  }

  ghost predicate MirrorsOne(env: Env, entries: seq<LockEntry>, m: Manifest) {
    ManifestOk(m) && exists e :: e in entries && Agrees(env, e, m)
  }

  ghost predicate Mirrors(env: Env, entries: seq<LockEntry>, catalog: seq<Manifest>) {
    && UniqueManifests(catalog)
    && (forall m | m in catalog :: MirrorsOne(env, entries, m))
    && (forall e | e in entries :: HasId(catalog, e.id))
  }

  ghost predicate LockAgrees(env: Env, tree: Tree, entries: seq<LockEntry>) {
    && UniqueIds(entries) && UniqueSlugs(entries)
    && !tree.Bundle().OddBundled?
    && (forall e | e in entries :: Backed(env, tree, e))
    && (forall slug | slug in tree.Children() :: TidyFolder(slug, tree.Children()[slug]) && HasSlug(entries, slug))
  }

  /** The tree verifies, the vendor lock aside. */
  ghost predicate Consistent(env: Env, tree: Tree) {
    && !tree.NoRoot? && !tree.OddModules? && ReadLock(env, tree.Lock()).Some?
    && LockAgrees(env, tree, ReadLock(env, tree.Lock()).value)
  }

  ghost predicate Accepts(env: Env, tree: Tree, catalog: Option<seq<Manifest>>, allowVendorLock: bool) {
    && Consistent(env, tree) && (tree.Locked() ==> allowVendorLock)
    && (catalog.Some? ==> Mirrors(env, ReadLock(env, tree.Lock()).value, catalog.value))
  }

  // ---- verifyVendoredModules ----

  datatype Failure =
    | RootNotADirectory | VendoringInProgress | ModulesNotADirectory | InvalidLock | DuplicateId | DuplicateSlug
    | WrongPath | BadArtifact | Mismatch | UnexpectedEntry | UnlockedArtifact | MissingArtifact
    | InvalidManifest | DuplicateRuntime | UnlockedRuntime | RuntimeMismatch | AbsentFromRuntime

  method VerifyVendoredModules(env: Env, tree: Tree, catalog: Option<seq<Manifest>>, allowVendorLock: bool)
    returns (r: Result<seq<LockEntry>, Failure>)
    ensures r.Ok? <==> Accepts(env, tree, catalog, allowVendorLock)
    ensures r.Ok? ==> ReadLock(env, tree.Lock()) == Some(r.value)
    ensures r == Err(VendoringInProgress) <==> tree.Locked() && !allowVendorLock
  {
    if tree.NoRoot? { return Err(RootNotADirectory); }
    if !allowVendorLock && tree.Locked() { return Err(VendoringInProgress); }
    if tree.OddModules? { return Err(ModulesNotADirectory); }
    var lock := ReadLock(env, tree.Lock());
    if lock.None? { return Err(InvalidLock); }
    var entries := lock.value;
    var failure := VerifyEntries(env, tree, entries);
    if failure.Some? { return Err(failure.value); }
    failure := VerifyArtifacts(tree, entries);
    if failure.Some? { return Err(failure.value); }
    if catalog.Some? {
      failure := VerifyCatalog(env, entries, catalog.value);
      if failure.Some? { return Err(failure.value); }
    }
    return Ok(entries);
  }

  ghost predicate Seen(names: seq<string>, i: nat, seen: set<string>)
    requires i <= |names|
  {
    forall x :: x in seen <==> exists k :: 0 <= k < i && names[k] == x
  }

  lemma RepeatedId(entries: seq<LockEntry>, i: nat, ids: set<string>)
    requires i < |entries| && Seen(Ids(entries), i, ids) && entries[i].id in ids
    ensures !UniqueIds(entries)
  {
    var k :| 0 <= k < i && Ids(entries)[k] == entries[i].id;
    assert entries[k].id == entries[i].id;
  }

  function Slugs(entries: seq<LockEntry>): (r: seq<string>)
    ensures |r| == |entries| && forall i | 0 <= i < |r| :: r[i] == entries[i].slug
  {
    seq(|entries|, i requires 0 <= i < |entries| => entries[i].slug)
  }

  lemma RepeatedSlug(entries: seq<LockEntry>, i: nat, slugs: set<string>)
    requires i < |entries| && Seen(Slugs(entries), i, slugs) && entries[i].slug in slugs
    ensures !UniqueSlugs(entries)
  {
    var k :| 0 <= k < i && Slugs(entries)[k] == entries[i].slug;
    assert entries[k].slug == entries[i].slug;
  }

  ghost predicate Distinct(names: seq<string>, i: nat)
    requires i <= |names|
  {
    forall j, k | 0 <= j < k < i :: names[j] != names[k]
  }

  lemma DistinctNext(names: seq<string>, i: nat, seen: set<string>)
    requires i < |names| && Seen(names, i, seen) && Distinct(names, i) && names[i] !in seen
    ensures Seen(names, i + 1, seen + {names[i]}) && Distinct(names, i + 1)
  {
  }

  lemma DistinctAll(entries: seq<LockEntry>)
    requires Distinct(Ids(entries), |entries|) && Distinct(Slugs(entries), |entries|)
    ensures UniqueIds(entries) && UniqueSlugs(entries)
  {
    forall i, j | 0 <= i < j < |entries| ensures entries[i].id != entries[j].id && entries[i].slug != entries[j].slug {
      assert Ids(entries)[i] != Ids(entries)[j] && Slugs(entries)[i] != Slugs(entries)[j];
    }
  }

  /** The loop over `lock.modules`. */
  lemma NothingSeen(names: seq<string>)
    ensures Seen(names, 0, {}) && Distinct(names, 0)
  {
  }

  method VerifyEntries(env: Env, tree: Tree, entries: seq<LockEntry>) returns (failure: Option<Failure>)
    ensures failure.None? <==>
      UniqueIds(entries) && UniqueSlugs(entries) && forall e | e in entries :: Backed(env, tree, e)
    ensures failure != Some(VendoringInProgress)
  {
    hide Backed, Seen, Distinct, Agrees, UniqueIds, UniqueSlugs;
    var ids: set<string>, slugs: set<string> := {}, {};
    NothingSeen(Ids(entries));
    NothingSeen(Slugs(entries));
    for i := 0 to |entries|
      invariant Seen(Ids(entries), i, ids) && Distinct(Ids(entries), i)
      invariant Seen(Slugs(entries), i, slugs) && Distinct(Slugs(entries), i)
      invariant forall e | e in entries[..i] :: Backed(env, tree, e)
    {
      var entry := entries[i];
      if entry.id in ids {
        RepeatedId(entries, i, ids);
        return Some(DuplicateId);
      }
      if entry.slug in slugs {
        RepeatedSlug(entries, i, slugs);
        return Some(DuplicateSlug);
      }
      DistinctNext(Ids(entries), i, ids);
      DistinctNext(Slugs(entries), i, slugs);
      ids, slugs := ids + {entry.id}, slugs + {entry.slug};
      failure := VerifyEntry(env, tree, entry);
      if failure.Some? { return; }
      assert entries[..i + 1] == entries[..i] + [entry];
    }
    assert entries[..|entries|] == entries;
    DistinctAll(entries);
    return None;
  }

  method VerifyEntry(env: Env, tree: Tree, entry: LockEntry) returns (failure: Option<Failure>)
    ensures failure.None? <==> Backed(env, tree, entry)
    ensures failure != Some(VendoringInProgress)
  {
    if entry.path != ManifestPath(entry.slug) { return Some(WrongPath); }
    var checked := ManifestAt(tree, entry.slug);
    if checked.None? { return Some(BadArtifact); }
    if !Agrees(env, entry, checked.value) { return Some(Mismatch); }
    return None;
  }

  predicate SlugAtMost(a: string, b: string) { !Less(b, a) }

  lemma SlugOrder()
    ensures O.Preorder(SlugAtMost)
  {
    forall a: string, b: string ensures SlugAtMost(a, b) || SlugAtMost(b, a) { LessTotal(a, b); }
    forall a: string, b: string, c: string | SlugAtMost(a, b) && SlugAtMost(b, c) ensures SlugAtMost(a, c) {
      LessTotal(a, b);
      LessTotal(b, c);
      if Less(c, a) && Less(a, b) { LessTransitive(c, a, b); }
    }
  }

  /** `listVendoredArtifactSlugs`: the folders, each once and in code-unit order, or None when it throws. */
  method ListVendoredArtifactSlugs(tree: Tree) returns (slugs: Option<seq<string>>)
    ensures slugs.Some? <==>
      !tree.Bundle().OddBundled? && forall slug | slug in tree.Children() :: TidyFolder(slug, tree.Children()[slug])
    ensures slugs.Some? ==> (forall slug :: slug in slugs.value <==> slug in tree.Children())
    ensures slugs.Some? ==> NoDup(slugs.value) && O.SortedBy(SlugAtMost, slugs.value)
  {
    hide TidyFolder, SlugAtMost;
    if tree.Bundle().OddBundled? { return None; }
    var children := tree.Children();
    var left, listed: seq<string> := children.Keys, [];
    while left != {}
      invariant left <= children.Keys && NoDup(listed)
      invariant forall slug :: slug in listed <==> slug in children.Keys - left
      invariant forall slug | slug in listed :: TidyFolder(slug, children[slug])
      decreases left
    {
      var slug :| slug in left;
      if !TidyFolder(slug, children[slug]) { return None; }
      left, listed := left - {slug}, listed + [slug];
    }
    var sorted := O.SortBy(SlugAtMost, listed);
    SlugOrder();
    O.SortSorts(SlugAtMost, listed);
    O.SameElements(sorted, listed);
    O.NoDupOfMultiset(listed, sorted);
    return Some(sorted);
  }

  /** Artifacts and lock entries name the same slugs. */
  method VerifyArtifacts(tree: Tree, entries: seq<LockEntry>) returns (failure: Option<Failure>)
    requires forall e | e in entries :: ManifestAt(tree, e.slug).Some?
    ensures failure.None? <==>
      && !tree.Bundle().OddBundled?
      && (forall slug | slug in tree.Children() :: TidyFolder(slug, tree.Children()[slug]) && HasSlug(entries, slug))
    ensures failure != Some(VendoringInProgress)
  {
    hide TidyFolder, HasSlug, NoDup, SlugAtMost, O.SortedBy;
    var listed := ListVendoredArtifactSlugs(tree);
    if listed.None? { return Some(UnexpectedEntry); }
    var slugs := listed.value;
    for i := 0 to |slugs|
      invariant forall slug | slug in slugs[..i] :: HasSlug(entries, slug)
    {
      var locked := IsLocked(entries, slugs[i]);
      if !locked {
        assert slugs[i] in tree.Children();
        return Some(UnlockedArtifact);
      }
      assert slugs[..i + 1] == slugs[..i] + [slugs[i]];
    }
    assert slugs[..|slugs|] == slugs;
    for i := 0 to |entries| {
      assert entries[i] in entries;
      if entries[i].slug !in slugs { return Some(MissingArtifact); }
    }
    return None;
  }

  method IsLocked(entries: seq<LockEntry>, slug: string) returns (locked: bool)
    ensures locked <==> HasSlug(entries, slug)
  {
    locked := exists e :: e in entries && e.slug == slug;
  }

  function CatalogIds(catalog: seq<Manifest>): (r: seq<string>)
    ensures |r| == |catalog| && forall i | 0 <= i < |r| :: r[i] == catalog[i].id
  {
    seq(|catalog|, i requires 0 <= i < |catalog| => catalog[i].id)
  }

  function CatalogSlugs(catalog: seq<Manifest>): (r: seq<string>)
    ensures |r| == |catalog| && forall i | 0 <= i < |r| :: r[i] == catalog[i].slug
  {
    seq(|catalog|, i requires 0 <= i < |catalog| => catalog[i].slug)
  }

  lemma RepeatedManifest(catalog: seq<Manifest>, i: nat, ids: set<string>, slugs: set<string>)
    requires i < |catalog| && Seen(CatalogIds(catalog), i, ids) && Seen(CatalogSlugs(catalog), i, slugs)
    requires catalog[i].id in ids || catalog[i].slug in slugs
    ensures !UniqueManifests(catalog)
  {
    if catalog[i].id in ids {
      var k :| 0 <= k < i && CatalogIds(catalog)[k] == catalog[i].id;
      assert catalog[k].id == catalog[i].id;
    } else {
      var k :| 0 <= k < i && CatalogSlugs(catalog)[k] == catalog[i].slug;
      assert catalog[k].slug == catalog[i].slug;
    }
  }

  lemma UniqueAll(catalog: seq<Manifest>)
    requires Distinct(CatalogIds(catalog), |catalog|) && Distinct(CatalogSlugs(catalog), |catalog|)
    ensures UniqueManifests(catalog)
  {
    forall i, j | 0 <= i < j < |catalog| ensures catalog[i].id != catalog[j].id && catalog[i].slug != catalog[j].slug {
      assert CatalogIds(catalog)[i] != CatalogIds(catalog)[j] && CatalogSlugs(catalog)[i] != CatalogSlugs(catalog)[j];
    }
  }

  lemma SeenIds(catalog: seq<Manifest>, ids: set<string>, id: string)
    requires Seen(CatalogIds(catalog), |catalog|, ids)
    ensures id in ids <==> HasId(catalog, id)
  {
    if id in ids {
      var k :| 0 <= k < |catalog| && CatalogIds(catalog)[k] == id;
      assert catalog[k] in catalog && catalog[k].id == id;
    }
    if HasId(catalog, id) {
      var m :| m in catalog && m.id == id;
      var k :| 0 <= k < |catalog| && catalog[k] == m;
      assert CatalogIds(catalog)[k] == id;
    }
  }

  /** The runtime catalog as a two-way allowlist. */
  method VerifyCatalog(env: Env, entries: seq<LockEntry>, catalog: seq<Manifest>) returns (failure: Option<Failure>)
    requires UniqueIds(entries)
    ensures failure.None? <==> Mirrors(env, entries, catalog)
    ensures failure != Some(VendoringInProgress)
  {
    var ids: set<string>, slugs: set<string> := {}, {};
    for i := 0 to |catalog|
      invariant Seen(CatalogIds(catalog), i, ids) && Distinct(CatalogIds(catalog), i)
      invariant Seen(CatalogSlugs(catalog), i, slugs) && Distinct(CatalogSlugs(catalog), i)
      invariant forall m | m in catalog[..i] :: MirrorsOne(env, entries, m)
    {
      var manifest := catalog[i];
      assert manifest in catalog;
      if !ManifestOk(manifest) {
        assert !MirrorsOne(env, entries, manifest);
        return Some(InvalidManifest);
      }
      if manifest.id in ids || manifest.slug in slugs {
        RepeatedManifest(catalog, i, ids, slugs);
        return Some(DuplicateRuntime);
      }
      DistinctNext(CatalogIds(catalog), i, ids);
      DistinctNext(CatalogSlugs(catalog), i, slugs);
      ids, slugs := ids + {manifest.id}, slugs + {manifest.slug};
      failure := VerifyRuntime(env, entries, manifest);
      if failure.Some? { return; }
      assert catalog[..i + 1] == catalog[..i] + [manifest];
    }
    assert catalog[..|catalog|] == catalog;
    UniqueAll(catalog);
    failure := VerifyPresence(entries, catalog, ids);
  }

  /** Every locked module is in the catalog. */
  method VerifyPresence(entries: seq<LockEntry>, catalog: seq<Manifest>, ids: set<string>)
    returns (failure: Option<Failure>)
    requires Seen(CatalogIds(catalog), |catalog|, ids)
    ensures failure.None? <==> forall e | e in entries :: HasId(catalog, e.id)
    ensures failure != Some(VendoringInProgress)
  {
    for i := 0 to |entries|
      invariant forall e | e in entries[..i] :: HasId(catalog, e.id)
    {
      SeenIds(catalog, ids, entries[i].id);
      if entries[i].id !in ids { return Some(AbsentFromRuntime); }
      assert entries[..i + 1] == entries[..i] + [entries[i]];
    }
    assert entries[..|entries|] == entries;
    return None;
  }

  method VerifyRuntime(env: Env, entries: seq<LockEntry>, manifest: Manifest) returns (failure: Option<Failure>)
    requires UniqueIds(entries) && ManifestOk(manifest)
    ensures failure.None? <==> MirrorsOne(env, entries, manifest)
    ensures failure != Some(VendoringInProgress)
  {
    OnlyPinnedAgrees(env, entries, manifest);
    var entry := Pinned(entries, manifest.id);
    if entry.None? { return Some(UnlockedRuntime); }
    if !Agrees(env, entry.value, manifest) { return Some(RuntimeMismatch); }
    return None;
  }

  lemma OnlyPinnedAgrees(env: Env, entries: seq<LockEntry>, m: Manifest)
    requires UniqueIds(entries)
    ensures (exists e :: e in entries && Agrees(env, e, m)) <==>
      Pinned(entries, m.id).Some? && Agrees(env, Pinned(entries, m.id).value, m)
  {
    forall e | e in entries && Agrees(env, e, m) ensures Pinned(entries, m.id) == Some(e) {
      PinnedIs(entries, e);
    }
  }

  // ---- one to one ----

  datatype Identity = Identity(id: string, slug: string, version: string, digest: string)

  function IdentityOf(env: Env, m: Manifest): Identity { Identity(m.id, m.slug, m.version, env.digest(m)) }

  function LockedIdentity(e: LockEntry): Identity { Identity(e.id, e.slug, e.version, e.digest) }

  ghost function LockedSet(entries: seq<LockEntry>): set<Identity> {
    set e | e in entries :: LockedIdentity(e)
  }

  ghost function ArtifactSet(env: Env, tree: Tree): set<Identity> {
    set slug | slug in tree.Children() && ManifestAt(tree, slug).Some? :: IdentityOf(env, ManifestAt(tree, slug).value)
  }

  ghost function CatalogSet(env: Env, catalog: seq<Manifest>): set<Identity> {
    set m | m in catalog :: IdentityOf(env, m)
  }

  /** A folder holding one manifest, of the module it is named after. */
  predicate OwnFolder(tree: Tree, slug: string)
    requires slug in tree.Children()
  {
    TidyFolder(slug, tree.Children()[slug]) && ManifestAt(tree, slug).Some? && ManifestAt(tree, slug).value.slug == slug
  }

  /**
   * The loops over entries and folders accept exactly when lock and artifacts
   * are the same set of (id, slug, version, digest), no id or slug repeated.
   */
  lemma LockIsArtifacts(env: Env, tree: Tree, entries: seq<LockEntry>)
    ensures LockAgrees(env, tree, entries) <==>
      && UniqueIds(entries) && UniqueSlugs(entries) && !tree.Bundle().OddBundled?
      && (forall e | e in entries :: e.path == ManifestPath(e.slug))
      && (forall slug | slug in tree.Children() :: OwnFolder(tree, slug))
      && LockedSet(entries) == ArtifactSet(env, tree)
  {
    if LockAgrees(env, tree, entries) { AgreeingSets(env, tree, entries); }
    if (forall slug | slug in tree.Children() :: OwnFolder(tree, slug))
      && LockedSet(entries) == ArtifactSet(env, tree) {
      SetsAgree(env, tree, entries);
    }
  }

  lemma AgreeingSets(env: Env, tree: Tree, entries: seq<LockEntry>)
    requires LockAgrees(env, tree, entries)
    ensures forall slug | slug in tree.Children() :: OwnFolder(tree, slug)
    ensures LockedSet(entries) == ArtifactSet(env, tree)
  {
    forall slug | slug in tree.Children()
      ensures OwnFolder(tree, slug) && IdentityOf(env, ManifestAt(tree, slug).value) in LockedSet(entries)
    {
      var e :| e in entries && e.slug == slug;
      assert Backed(env, tree, e);
      assert LockedIdentity(e) in LockedSet(entries);
    }
    forall e | e in entries ensures LockedIdentity(e) in ArtifactSet(env, tree) {
      assert Backed(env, tree, e);
      assert e.slug in tree.Children();
    }
  }

  lemma SetsAgree(env: Env, tree: Tree, entries: seq<LockEntry>)
    requires forall slug | slug in tree.Children() :: OwnFolder(tree, slug)
    requires LockedSet(entries) == ArtifactSet(env, tree)
    ensures forall e | e in entries && e.path == ManifestPath(e.slug) :: Backed(env, tree, e)
    ensures forall slug | slug in tree.Children() :: HasSlug(entries, slug)
  {
    forall e | e in entries && e.path == ManifestPath(e.slug) ensures Backed(env, tree, e) {
      assert LockedIdentity(e) in ArtifactSet(env, tree);
      var slug :| slug in tree.Children() && ManifestAt(tree, slug).Some?
        && LockedIdentity(e) == IdentityOf(env, ManifestAt(tree, slug).value);
      assert OwnFolder(tree, slug);
    }
    forall slug | slug in tree.Children() ensures HasSlug(entries, slug) {
      assert OwnFolder(tree, slug);
      assert IdentityOf(env, ManifestAt(tree, slug).value) in LockedSet(entries);
      var e :| e in entries && LockedIdentity(e) == IdentityOf(env, ManifestAt(tree, slug).value);
      assert e.slug == slug;
    }
  }

  /** The catalog loops accept exactly when the catalog is that same set, no id or slug repeated. */
  lemma CatalogIsLock(env: Env, entries: seq<LockEntry>, catalog: seq<Manifest>)
    requires UniqueIds(entries)
    ensures Mirrors(env, entries, catalog) <==>
      && UniqueManifests(catalog) && (forall m | m in catalog :: ManifestOk(m))
      && CatalogSet(env, catalog) == LockedSet(entries)
  {
    if Mirrors(env, entries, catalog) { MirroredSets(env, entries, catalog); }
    if CatalogSet(env, catalog) == LockedSet(entries) {
      forall m | m in catalog ensures exists e :: e in entries && Agrees(env, e, m) {
        assert IdentityOf(env, m) in LockedSet(entries);
        var e :| e in entries && LockedIdentity(e) == IdentityOf(env, m);
        assert Agrees(env, e, m);
      }
      forall e | e in entries ensures HasId(catalog, e.id) {
        assert LockedIdentity(e) in CatalogSet(env, catalog);
        var m :| m in catalog && IdentityOf(env, m) == LockedIdentity(e);
        assert m.id == e.id;
      }
    }
  }

  lemma MirroredSets(env: Env, entries: seq<LockEntry>, catalog: seq<Manifest>)
    requires UniqueIds(entries) && Mirrors(env, entries, catalog)
    ensures CatalogSet(env, catalog) == LockedSet(entries)
  {
    forall m | m in catalog ensures IdentityOf(env, m) in LockedSet(entries) {
      assert MirrorsOne(env, entries, m);
      var e :| e in entries && Agrees(env, e, m);
      assert LockedIdentity(e) == IdentityOf(env, m);
    }
    forall e | e in entries ensures LockedIdentity(e) in CatalogSet(env, catalog) {
      var m :| m in catalog && m.id == e.id;
      assert MirrorsOne(env, entries, m);
      var other :| other in entries && Agrees(env, other, m);
      PinnedIs(entries, e);
      PinnedIs(entries, other);
      assert LockedIdentity(e) == IdentityOf(env, m);
    }
  }
}
