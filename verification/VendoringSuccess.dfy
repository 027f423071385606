/** What a successful vendor operation leaves behind, and exactly when it verifies. */
module VendoringSuccess {
  import opened Common
  import opened ModuleLock
  import opened VendoredModules
  import opened Vendoring
  import opened VendoringProof
  import opened VendoringTheorems
  import U = SourceRepository

  /** The guards that decide whether the tree a commit makes can be read back. */
  ghost predicate ReadsBack(env: Env, v: View, e: LockEntry, m: Manifest) {
    && env.repository(e.repository) == Some(e.repository)
    && env.manifestSize(m) <= MANIFEST_BYTES
    && env.lockSize(Upsert(Entries(v), e)) <= LOCK_BYTES
  }

  lemma ReadMeans(env: Env, lock: Option<Node>)
    requires lock.Some? && lock.value.RealFile? && lock.value.file.LockFile?
    ensures ReadLock(env, lock).Some? <==>
      && lock.value.file.bytes <= LOCK_BYTES
      && (forall e | e in lock.value.file.entries :: EntryOk(env, e)) && Sorted(lock.value.file.entries)
  {
    hide EntryOk, Sorted;
    SortedTest(lock.value.file.entries);
  }

  lemma OldEntriesOk(env: Env, v: View)
    requires ReadLock(env, v.lock).Some?
    ensures forall e | e in Entries(v) :: EntryOk(env, e)
  {
    hide EntryOk;
  }

  lemma FreshEntryOk(env: Env, e: LockEntry, m: Manifest)
    requires Digests(env) && FreshEntry(env, e, m)
    ensures EntryOk(env, e) <==> env.repository(e.repository) == Some(e.repository)
  {
    hide IdOk, SlugOk, VersionOk, DigestOk, CommitOk, LicenseOk;
  }

  lemma NewLockReads(env: Env, v: View, w: View, e: LockEntry, m: Manifest)
    requires Digests(env) && Commits(env, v, w, e) && AddsManifest(env, v, w, e, m)
    ensures ReadLock(env, w.lock).Some? <==>
      env.repository(e.repository) == Some(e.repository) && env.lockSize(Upsert(Entries(v), e)) <= LOCK_BYTES
  {
    hide EntryOk, Permitted, Sorted, FreshEntry, LockAgrees, OneManifest;
    ReadIsEntries(env, v);
    OldEntriesOk(env, v);
    OldUniqueIds(env, v);
    UpsertIs(Entries(v), e);
    FreshEntryOk(env, e, m);
    ReadMeans(env, w.lock);
  }

  lemma OldUniqueIds(env: Env, v: View)
    requires Consistent(env, TreeOf(v))
    ensures UniqueIds(Entries(v))
  {
    hide Backed, TidyFolder, EntryOk;
    ReadIsEntries(env, v);
  }

  /** The new entry's slug belongs to no other module, and no other module's folder is touched. */
  lemma OthersApart(env: Env, entries: seq<LockEntry>, e: LockEntry, x: LockEntry)
    requires UniqueIds(entries) && Permitted(env, entries, e) && x in entries
    ensures x.id == e.id <==> x.slug == e.slug
  {
    hide VersionOk;
    PinnedIs(entries, x);
  }

  lemma NewUniqueSlugs(env: Env, entries: seq<LockEntry>, e: LockEntry)
    requires UniqueIds(entries) && UniqueSlugs(entries) && Permitted(env, entries, e)
    ensures UniqueSlugs(Upsert(entries, e))
  {
    UpsertIs(entries, e);
    var after := Upsert(entries, e);
    hide Permitted, Upsert;
    forall i, j | 0 <= i < j < |after| ensures after[i].slug != after[j].slug {
      var x, y := after[i], after[j];
      assert x in after && y in after && x.id != y.id;
      if x == e {
        OthersApart(env, entries, e, y);
      } else if y == e {
        OthersApart(env, entries, e, x);
      } else {
        DifferentSlugs(entries, x, y);
      }
    }
  }

  lemma DifferentSlugs(entries: seq<LockEntry>, x: LockEntry, y: LockEntry)
    requires UniqueSlugs(entries) && x in entries && y in entries && x.id != y.id
    ensures x.slug != y.slug
  {
    var i :| 0 <= i < |entries| && entries[i] == x;
    var j :| 0 <= j < |entries| && entries[j] == y;
    if i < j { assert entries[i].slug != entries[j].slug; } else { assert j < i && entries[j].slug != entries[i].slug; }
  }

  lemma NewManifest(env: Env, v: View, w: View, e: LockEntry, m: Manifest)
    requires AddsManifest(env, v, w, e, m)
    ensures ManifestAt(TreeOf(w), e.slug) == if env.manifestSize(m) <= MANIFEST_BYTES then Some(m) else None
    ensures e.slug in Children(w) && TidyFolder(e.slug, Children(w)[e.slug])
    ensures Backed(env, TreeOf(w), e) <==> env.manifestSize(m) <= MANIFEST_BYTES
  {
    hide IdOk, SlugOk, VersionOk, CommitOk, LicenseOk;
    assert TreeOf(w).Children() == Children(w);
  }

  lemma OtherManifest(env: Env, v: View, w: View, e: LockEntry, m: Manifest, slug: string)
    requires AddsManifest(env, v, w, e, m) && slug != e.slug
    ensures ManifestAt(TreeOf(w), slug) == ManifestAt(TreeOf(v), slug)
    ensures slug in Children(w) <==> slug in Children(v)
    ensures slug in Children(v) ==> Children(w)[slug] == Children(v)[slug]
  {
    hide FreshEntry, OneManifest;
    assert TreeOf(w).Children() == Children(w) && TreeOf(v).Children() == Children(v);
  }

  lemma OthersBacked(env: Env, v: View, w: View, e: LockEntry, m: Manifest, x: LockEntry)
    requires LockAgrees(env, TreeOf(v), Entries(v)) && Permitted(env, Entries(v), e) && AddsManifest(env, v, w, e, m)
    requires x in Entries(v) && x.id != e.id
    ensures Backed(env, TreeOf(w), x)
  {
    hide Permitted, AddsManifest, ManifestAt;
    OthersApart(env, Entries(v), e, x);
    OtherManifest(env, v, w, e, m, x.slug);
    assert Backed(env, TreeOf(v), x);
  }

  lemma FoldersLocked(env: Env, v: View, w: View, e: LockEntry, m: Manifest, slug: string)
    requires LockAgrees(env, TreeOf(v), Entries(v)) && Permitted(env, Entries(v), e) && AddsManifest(env, v, w, e, m)
    requires slug in Children(w)
    ensures TidyFolder(slug, Children(w)[slug]) && HasSlug(Upsert(Entries(v), e), slug)
  {
    hide Permitted, AddsManifest, ManifestAt, TidyFolder, Backed, Upsert;
    UpsertIs(Entries(v), e);
    assert TreeOf(v).Children() == Children(v);
    if slug == e.slug {
      NewManifest(env, v, w, e, m);
      assert e in Upsert(Entries(v), e);
    } else {
      OtherManifest(env, v, w, e, m, slug);
      var x :| x in Entries(v) && x.slug == slug;
      OthersApart(env, Entries(v), e, x);
      assert x in Upsert(Entries(v), e);
    }
  }

  /** The new lock and artifacts correspond exactly when the new manifest is small enough to be checked. */
  lemma NewLockAgrees(env: Env, v: View, w: View, e: LockEntry, m: Manifest)
    requires LockAgrees(env, TreeOf(v), Entries(v)) && Permitted(env, Entries(v), e) && AddsManifest(env, v, w, e, m)
    requires w.bundled.BundledFolder?
    ensures LockAgrees(env, TreeOf(w), Upsert(Entries(v), e)) <==> env.manifestSize(m) <= MANIFEST_BYTES
  {
    hide Permitted, AddsManifest, ManifestAt, TidyFolder, Backed, Upsert, UniqueSlugs, UniqueIds, HasSlug;
    var after := Upsert(Entries(v), e);
    UpsertIs(Entries(v), e);
    NewUniqueSlugs(env, Entries(v), e);
    NewManifest(env, v, w, e, m);
    assert e in after;
    assert TreeOf(w).Children() == Children(w);
    forall x | x in after && x != e ensures Backed(env, TreeOf(w), x) {
      OthersBacked(env, v, w, e, m, x);
    }
    forall slug | slug in TreeOf(w).Children()
      ensures TidyFolder(slug, TreeOf(w).Children()[slug]) && HasSlug(after, slug)
    {
      FoldersLocked(env, v, w, e, m, slug);
    }
  }

  /**
   * After a commit the tree verifies exactly when the repository is a fixed
   * point of its canonicalization and both files are within the size limits
   * that readers enforce and the writer does not.
   */
  lemma CommitVerifies(env: Env, v: View, w: View, e: LockEntry, m: Manifest)
    requires Digests(env) && Commits(env, v, w, e) && AddsManifest(env, v, w, e, m)
    ensures Consistent(env, TreeOf(w)) <==> ReadsBack(env, v, e, m)
  {
    hide Permitted, AddsManifest, LockAgrees, Upsert, EntryOk, Digests;
    NewLockReads(env, v, w, e, m);
    ReadIsEntries(env, v);
    NewLockAgrees(env, v, w, e, m);
    if ReadLock(env, w.lock).Some? { ReadIsEntries(env, w); }
  }

  // ---- at the end of a run of vendorModule ----

  /**
   * When `vendorModule` is about to release the vendor lock and return
   * successfully, the tree it leaves is the one it verified with one entry and
   * one artifact put in, and it verifies exactly if `ReadsBack`.
   */
  lemma SuccessVerifies(env: Env, run: seq<State>, i: nat, p: nat)
    requires IsRun(env, run) && i < |run| && p in run[i].procs && run[i].procs[p].pc == Release(true) && Digests(env)
    ensures Enabled(env, run[i], Runs(p, "")) && RequestOk(env, run[i].procs[p].request)
    ensures
      var q := run[i].procs[p];
      var after := Apply(env, run[i], Runs(p, "")).tree;
      var v := ViewOf(q.before);
      && Commits(env, v, ViewOf(after), EntryFor(env, q.request))
      && (Accepts(env, after, None, false) <==> ReadsBack(env, v, EntryFor(env, q.request), q.request.manifest))
  {
    hide IsRun, Recorded, Credited, TreeInv, Commits, ReadsBack, Accepts, ReadLock, RequestOk;
    RunInv(env, run, i);
    Released(env, run[i], p);
    var q := run[i].procs[p];
    var after := Apply(env, run[i], Runs(p, "")).tree;
    FinalTree(env, q, after);
  }

  lemma Released(env: Env, s: State, p: nat)
    requires TreeInv(env, s) && p in s.procs && s.procs[p].pc == Release(true)
    ensures Enabled(env, s, Runs(p, "")) && RequestOk(env, s.procs[p].request)
    ensures Grounded(env, s.procs[p]) && s.procs[p].stage.Committed?
    ensures
      var after := Apply(env, s, Runs(p, "")).tree;
      && after.Modules? && after.vendorLock.None? && after.bundled == BundledAt(env, s.procs[p])
      && after.lock == Some(RealFile(LockFileFor(env, s.procs[p])))
  {
    hide RequestOk, MayAdd, WithFolder, Safe;
    assert ProcOk(env, s.tree, Last(s), s.procs[p]);
  }

  lemma FinalTree(env: Env, q: Proc, after: Tree)
    requires RequestOk(env, q.request) && Grounded(env, q) && q.stage.Committed? && Digests(env)
    requires after.Modules? && after.vendorLock.None? && after.bundled == BundledAt(env, q)
    requires after.lock == Some(RealFile(LockFileFor(env, q)))
    ensures
      var v := ViewOf(q.before);
      && Commits(env, v, ViewOf(after), EntryFor(env, q.request))
      && (Accepts(env, after, None, false) <==> ReadsBack(env, v, EntryFor(env, q.request), q.request.manifest))
  {
    hide RequestOk, MayAdd, BundledAt, LockFileFor, Commits, ReadsBack, Consistent, OneManifest, Digests, FreshEntry;
    var v, w := ViewOf(q.before), ViewOf(after);
    NewChildren(env, q);
    CommitIs(env, q, w);
    FreshIs(env, q.request);
    assert AddsManifest(env, v, w, EntryFor(env, q.request), q.request.manifest);
    CommitVerifies(env, v, w, EntryFor(env, q.request), q.request.manifest);
    ViewReading(env, after);
  }

  /**
   * So vendoring from a repository with an unstable path succeeds and leaves a
   * tree that never verifies.
   */
  lemma UnstableRepositoryBreaks(env: Env, run: seq<State>, i: nat, p: nat, host: string, path: string)
    requires IsRun(env, run) && i < |run| && p in run[i].procs && run[i].procs[p].pc == Release(true) && Digests(env)
    requires U.ReadsPaths(env.repository, host) && U.PathText(path) && U.Unstable(path)
    requires run[i].procs[p].request.source == U.Url(host, path)
    ensures Enabled(env, run[i], Runs(p, "")) && !Accepts(env, Apply(env, run[i], Runs(p, "")).tree, None, false)
  {
    hide IsRun, Enabled, Apply, Accepts, Digests, ManifestOk, CommitOk, LicenseOk, Upsert, Children, Consistent,
      U.ReadsPaths, U.PathText, U.Unstable, U.Url;
    SuccessVerifies(env, run, i, p);
    U.ReadAgain(env.repository, host, path);
  }
}
