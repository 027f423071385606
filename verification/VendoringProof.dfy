/** What every step of every vendor process keeps. */
module VendoringProof {
  import opened Common
  import opened ModuleLock
  import opened VendoredModules
  import opened Vendoring
  import S = Semver

  // ---- the tree while a holder writes ----

  function Slug(p: Proc): string { p.request.manifest.slug }

  /** `bundled` with the module's folder made. */
  function WithFolder(bundled: Bundled, slug: string): Bundled { MkFolder(MkBundled(bundled), slug) }

  function Prepared(p: Proc): Bundled { WithFolder(p.before.Bundle(), Slug(p)) }

  function BundledAt(env: Env, p: Proc): Bundled {
    match p.stage
    case Unverified => p.before.Bundle()
    case Untouched => p.before.Bundle()
    case Made => MkBundled(p.before.Bundle())
    case Foldered => Prepared(p)
    case Staged(file) => WithFile(Prepared(p), Slug(p), p.temp, RealFile(file))
    case _ => WithFile(Prepared(p), Slug(p), MANIFEST_NAME, RealFile(ManifestFileFor(env, p.request)))
  }

  function LockAt(env: Env, p: Proc): Option<Node>
    requires RequestOk(env, p.request)
  {
    if p.stage.Committed? then Some(RealFile(LockFileFor(env, p))) else p.before.Lock()
  }

  predicate TempFresh(p: Proc) {
    p.stage.Staged? || p.stage.Placed? || p.stage.Committed? ==>
      p.temp != MANIFEST_NAME && FileAt(Prepared(p), Slug(p), p.temp).None?
  }

  predicate StageAt(env: Env, p: Proc) {
    match p.pc
    case MakeModules => p.stage.Unverified?
    case OpenVendorLock => p.stage.Unverified?
    case WriteVendorLock => p.stage.Unverified?
    case Read => p.stage.Unverified?
    case Verify => p.stage.Unverified?
    case MakeBundled => p.stage.Untouched?
    case MakeFolder => p.stage.Made?
    case OpenManifest => p.stage.Foldered?
    case WriteManifest => p.stage.Staged?
    case OpenLock => p.stage == Staged(ManifestFileFor(env, p.request))
    case WriteLock => p.stage == Staged(ManifestFileFor(env, p.request))
    case RenameManifest => p.stage == Staged(ManifestFileFor(env, p.request))
    case RenameLock => p.stage.Placed?
    case RemoveManifest(ok, staged) =>
      (ok <==> p.stage.Committed?) && (ok ==> !staged) && (p.stage.Staged? || p.stage.Placed? || p.stage.Committed?)
    case RemoveLock => !p.stage.Unverified? && !p.stage.Committed?
    case Release(ok) => ok ==> p.stage.Committed?
    case Done => p.stage.Committed?
    case _ => true
  }

  predicate LockStaged(env: Env, temps: map<string, File>, p: Proc)
    requires RequestOk(env, p.request)
  {
    p.pc.RenameManifest? || p.pc.RenameLock? ==> p.lockTemp in temps && temps[p.lockTemp] == LockFileFor(env, p)
  }

  /** The holder verified `before`, holding `entries`, and may add its entry to them. */
  ghost predicate MayAdd(env: Env, before: Tree, entries: seq<LockEntry>, request: Request)
    requires RequestOk(env, request)
  {
    && before.Modules? && Consistent(env, before) && ReadLock(env, before.Lock()) == Some(entries)
    && Permitted(env, entries, EntryFor(env, request))
  }

  ghost predicate Grounded(env: Env, p: Proc)
    requires RequestOk(env, p.request)
  {
    MayAdd(env, p.before, p.entries, p.request)
  }

  ghost predicate WriterOk(env: Env, tree: Tree, last: View, p: Proc)
    requires RequestOk(env, p.request)
  {
    && Grounded(env, p) && TempFresh(p)
    && tree.Modules? && tree.bundled == BundledAt(env, p) && tree.lock == LockAt(env, p)
    && LockStaged(env, tree.temps, p)
    && last == (if p.stage.Committed? then ViewOf(tree) else ViewOf(p.before))
  }

  /** If the tree verifies, it is the last committed version. */
  ghost predicate Safe(env: Env, tree: Tree, last: View) {
    Consistent(env, tree) ==> ViewOf(tree) == last
  }

  lemma PreparedFolder(env: Env, p: Proc)
    requires RequestOk(env, p.request) && Grounded(env, p)
    ensures Prepared(p).BundledFolder? && Slug(p) in Prepared(p).children && Prepared(p).children[Slug(p)].Folder?
    ensures Slug(p) !in p.before.Children() ==> Prepared(p).children[Slug(p)].files == map[]
    ensures Slug(p) in p.before.Children() ==> p.before.Bundle() == Prepared(p)
    ensures Prepared(p).children[Slug(p)].files.Keys <= {MANIFEST_NAME}
    ensures forall slug | slug != Slug(p) :: slug in Prepared(p).children <==> slug in p.before.Children()
    ensures forall slug | slug in p.before.Children() :: Prepared(p).children[slug] == p.before.Children()[slug]
  {
    if Slug(p) in p.before.Children() {
      assert TidyFolder(Slug(p), p.before.Children()[Slug(p)]);
    }
  }

  /** A half-done tree never verifies; a tree no reader can tell from `before` is `before`. */
  lemma WriterSafe(env: Env, tree: Tree, last: View, p: Proc)
    requires RequestOk(env, p.request) && WriterOk(env, tree, last, p)
    ensures Safe(env, tree, last)
  {
    PreparedFolder(env, p);
    match p.stage {
      case Unverified =>
      case Untouched =>
      case Made =>
      case Foldered => if Consistent(env, tree) { FolderedSafe(env, tree, p); }
      case Staged(file) => StagedRefused(env, tree, p);
      case Placed => PlacedRefused(env, tree, p);
      case Committed =>
    }
  }

  lemma FolderedSafe(env: Env, tree: Tree, p: Proc)
    requires RequestOk(env, p.request) && Grounded(env, p) && tree.Modules? && tree.bundled == Prepared(p)
    requires tree.lock == p.before.Lock() && Consistent(env, tree)
    ensures ViewOf(tree) == ViewOf(p.before)
  {
    PreparedFolder(env, p);
    assert TidyFolder(Slug(p), tree.Children()[Slug(p)]);
  }

  lemma StagedRefused(env: Env, tree: Tree, p: Proc)
    requires RequestOk(env, p.request) && Grounded(env, p) && TempFresh(p) && p.stage.Staged?
    requires tree.Modules? && tree.bundled == BundledAt(env, p)
    ensures !Consistent(env, tree)
  {
    hide RequestOk, Grounded, Prepared, ReadLock, SlugOk;
    PreparedFolder(env, p);
    assert p.temp in tree.Children()[Slug(p)].files.Keys;
    assert !TidyFolder(Slug(p), tree.Children()[Slug(p)]);
  }

  lemma SameVersion(v: string)
    requires VersionOk(v)
    ensures S.Order(v, v) == 0
  {
    S.OrderAntisymmetric(v, v);
  }

  /** An entry that already has the module's slug is its pinned entry, at an older version. */
  lemma OwnerIsOlder(env: Env, entries: seq<LockEntry>, e: LockEntry, x: LockEntry)
    requires UniqueIds(entries) && Permitted(env, entries, e) && x in entries && x.slug == e.slug
    ensures x.version != e.version
  {
    hide VersionOk;
    SameVersion(e.version);
    PinnedIs(entries, x);
  }

  lemma PlacedManifest(env: Env, tree: Tree, p: Proc)
    requires RequestOk(env, p.request) && Grounded(env, p) && p.stage.Placed?
    requires tree.Modules? && tree.bundled == BundledAt(env, p)
    ensures Slug(p) in tree.Children()
    ensures ManifestAt(tree, Slug(p)).Some? ==> ManifestAt(tree, Slug(p)).value == p.request.manifest
  {
    hide RequestOk, Grounded, ManifestOk, Prepared;
    PreparedFolder(env, p);
  }

  lemma PlacedRefused(env: Env, tree: Tree, p: Proc)
    requires RequestOk(env, p.request) && Grounded(env, p) && p.stage.Placed?
    requires tree.Modules? && tree.bundled == BundledAt(env, p) && tree.lock == p.before.Lock()
    ensures !Consistent(env, tree)
  {
    hide Permitted, ManifestAt, RequestOk, TidyFolder, BundledAt;
    PlacedManifest(env, tree, p);
    if x :| x in p.entries && x.slug == Slug(p) {
      OwnerIsOlder(env, p.entries, EntryFor(env, p.request), x);
      assert !Backed(env, tree, x);
    }
  }

  // ---- the invariant ----

  ghost predicate Exclusive(s: State) {
    forall id | id in s.procs && s.procs[id].Holds() :: s.tree.Modules? && s.tree.vendorLock == Some(id)
  }

  ghost predicate ProcOk(env: Env, tree: Tree, last: View, p: Proc) {
    && RequestOk(env, p.request) && StageAt(env, p)
    && (p.pc.Verify? ==> ReadLock(env, tree.Lock()) == Some(p.entries))
    && (p.Writing() ==> WriterOk(env, tree, last, p))
  }

  ghost predicate Guarded(env: Env, s: State)
    requires s.history != []
  {
    && Exclusive(s) && Safe(env, s.tree, Last(s)) && !Last(s).bundled.NoBundled?
    && forall id | id in s.procs :: ProcOk(env, s.tree, Last(s), s.procs[id])
  }

  ghost predicate TreeInv(env: Env, s: State) {
    s.history != [] && Guarded(env, s)
  }

  lemma OneHolder(s: State, a: nat, b: nat)
    requires Exclusive(s) && a in s.procs && b in s.procs && s.procs[a].Holds() && s.procs[b].Holds()
    ensures a == b
  {
  }

  // ---- the writing calls, one at a time ----

  /** What a step of the holder has to show about its tree and its own state. */
  ghost predicate Advanced(env: Env, s: State, id: nat, after: State) {
    && id in s.procs && after.history != [] && after.procs.Keys == s.procs.Keys
    && (forall x | x in s.procs && x != id :: after.procs[x] == s.procs[x])
    && Safe(env, after.tree, Last(after)) && ProcOk(env, after.tree, Last(after), after.procs[id])
    && after.tree.Modules? && !Last(after).bundled.NoBundled?
    && (after.procs[id].Holds() ==> s.tree.Modules? && after.tree.vendorLock == s.tree.vendorLock)
  }

  lemma HolderWrites(env: Env, s: State, id: nat)
    requires TreeInv(env, s) && id in s.procs && s.procs[id].Holds()
    ensures s.history != [] && s.tree.Modules? && RequestOk(env, s.procs[id].request) && StageAt(env, s.procs[id])
    ensures s.procs[id].pc.OpenLock? || s.procs[id].pc.WriteLock? || s.procs[id].pc.RemoveManifest? ==>
      WriterOk(env, s.tree, Last(s), s.procs[id])
  {
    hide WriterOk, RequestOk, Safe, ReadLock;
    assert ProcOk(env, s.tree, Last(s), s.procs[id]);
  }

  /** A writer's step that commits nothing and keeps the vendor lock. */
  lemma WriterAdvances(env: Env, s: State, id: nat, tree: Tree, q: Proc)
    requires TreeInv(env, s) && id in s.procs && s.procs[id].Holds()
    requires RequestOk(env, q.request) && StageAt(env, q) && !q.pc.Verify? && WriterOk(env, tree, Last(s), q)
    requires tree.Modules? && s.tree.Modules? && tree.vendorLock == s.tree.vendorLock
    ensures Advanced(env, s, id, SetTree(s, tree, id, q))
  {
    hide WriterOk, RequestOk, StageAt, Safe, Exclusive, ReadLock;
    WriterSafe(env, tree, Last(s), q);
  }

  /** Only the holder ever writes, so nobody else's invariant is disturbed. */
  lemma HolderAdvances(env: Env, s: State, id: nat, after: State)
    requires TreeInv(env, s) && id in s.procs && s.procs[id].Holds() && Advanced(env, s, id, after)
    ensures TreeInv(env, after)
  {
    hide Consistent, Permitted, RequestOk, ReadLock, MayAdd;
    forall x | x in after.procs ensures ProcOk(env, after.tree, Last(after), after.procs[x]) {
      if s.procs[x].Holds() { OneHolder(s, id, x); }
    }
  }

  lemma MakeStep(env: Env, s: State, id: nat, name: string)
    requires TreeInv(env, s) && id in s.procs && s.procs[id].Holds()
    requires s.procs[id].pc.MakeBundled? || s.procs[id].pc.MakeFolder?
    ensures Advanced(env, s, id, Write(env, s, id, name))
  {
    hide Consistent, Permitted, RequestOk, ReadLock, MayAdd;
    var p := s.procs[id];
    assert ProcOk(env, s.tree, Last(s), p);
    var after := Write(env, s, id, name);
    WriterSafe(env, after.tree, Last(s), after.procs[id]);
  }

  lemma OpenManifestStep(env: Env, s: State, id: nat, name: string)
    requires TreeInv(env, s) && id in s.procs && s.procs[id].Holds() && s.procs[id].pc.OpenManifest?
    ensures Advanced(env, s, id, Write(env, s, id, name))
  {
    hide Consistent, Permitted, RequestOk, ReadLock, MayAdd;
    var p := s.procs[id];
    assert ProcOk(env, s.tree, Last(s), p);
    PreparedFolder(env, p);
    var after := Write(env, s, id, name);
    if FileAt(s.tree.bundled, Slug(p), TempName(name)).None? {
      WriterSafe(env, after.tree, Last(s), after.procs[id]);
    }
  }

  lemma WriteManifestStep(env: Env, s: State, id: nat, name: string)
    requires TreeInv(env, s) && id in s.procs && s.procs[id].Holds() && s.procs[id].pc.WriteManifest?
    ensures Advanced(env, s, id, Write(env, s, id, name))
  {
    hide Consistent, Permitted, RequestOk, ReadLock, MayAdd;
    var p := s.procs[id];
    assert ProcOk(env, s.tree, Last(s), p);
    PreparedFolder(env, p);
    var after := Write(env, s, id, name);
    Overwrite(Prepared(p), Slug(p), p.temp, RealFile(p.stage.file), RealFile(ManifestFileFor(env, p.request)));
    WriterSafe(env, after.tree, Last(s), after.procs[id]);
  }

  lemma Overwrite(bundled: Bundled, slug: string, name: string, a: Node, b: Node)
    ensures WithFile(WithFile(bundled, slug, name, a), slug, name, b) == WithFile(bundled, slug, name, b)
  {
    if bundled.BundledFolder? && slug in bundled.children && bundled.children[slug].Folder? {
      var files := bundled.children[slug].files;
      assert files[name := a][name := b] == files[name := b];
      assert bundled.children[slug := Folder(files[name := a])][slug := Folder(files[name := b])]
          == bundled.children[slug := Folder(files[name := b])];
    }
  }

  /** Adding a file that was not there and taking it away again. */
  lemma AddRemove(bundled: Bundled, slug: string, name: string, node: Node)
    requires FileAt(bundled, slug, name).None?
    ensures WithoutFile(WithFile(bundled, slug, name, node), slug, name) == bundled
  {
    if bundled.BundledFolder? && slug in bundled.children && bundled.children[slug].Folder? {
      var files := bundled.children[slug].files;
      assert files[name := node] - {name} == files;
      assert bundled.children[slug := Folder(files[name := node])][slug := Folder(files)] == bundled.children;
    }
  }

  lemma RemoveAbsent(bundled: Bundled, slug: string, name: string)
    requires FileAt(bundled, slug, name).None?
    ensures WithoutFile(bundled, slug, name) == bundled
  {
    if bundled.BundledFolder? && slug in bundled.children && bundled.children[slug].Folder? {
      var files := bundled.children[slug].files;
      assert files - {name} == files;
      assert bundled.children[slug := Folder(files)] == bundled.children;
    }
  }

  lemma LockStep(env: Env, s: State, id: nat, name: string)
    requires TreeInv(env, s) && id in s.procs && s.procs[id].Holds()
    requires s.procs[id].pc.OpenLock? || s.procs[id].pc.WriteLock?
    ensures Advanced(env, s, id, Write(env, s, id, name))
  {
    hide RequestOk, StageAt, WriterOk, LockFileFor, Advanced, TreeInv;
    HolderWrites(env, s, id);
    var after := Write(env, s, id, name);
    LockWriter(env, s, id, name);
    WriterAdvances(env, s, id, after.tree, after.procs[id]);
  }

  lemma LockWriter(env: Env, s: State, id: nat, name: string)
    requires s.history != [] && id in s.procs && RequestOk(env, s.procs[id].request) && s.tree.Modules?
    requires WriterOk(env, s.tree, Last(s), s.procs[id]) && StageAt(env, s.procs[id])
    requires s.procs[id].pc.OpenLock? || s.procs[id].pc.WriteLock?
    ensures
      var after := Write(env, s, id, name);
      StageAt(env, after.procs[id]) && WriterOk(env, after.tree, Last(s), after.procs[id])
  {
    hide Consistent, Permitted, RequestOk, ReadLock, MayAdd, WithFolder, WithFile, WithoutFile;
  }

  lemma RenameManifestStep(env: Env, s: State, id: nat, name: string)
    requires TreeInv(env, s) && id in s.procs && s.procs[id].Holds() && s.procs[id].pc.RenameManifest?
    ensures Advanced(env, s, id, Write(env, s, id, name))
    ensures Write(env, s, id, name).procs[id].pc.RenameLock?
  {
    hide Consistent, Permitted, RequestOk, ReadLock, MayAdd;
    var p := s.procs[id];
    assert ProcOk(env, s.tree, Last(s), p);
    PreparedFolder(env, p);
    var node := RealFile(ManifestFileFor(env, p.request));
    assert FileAt(s.tree.bundled, Slug(p), p.temp) == Some(node);
    AddRemove(Prepared(p), Slug(p), p.temp, node);
    var after := Write(env, s, id, name);
    WriterSafe(env, after.tree, Last(s), after.procs[id]);
  }

  lemma CommitStep(env: Env, s: State, id: nat)
    requires TreeInv(env, s) && id in s.procs && s.procs[id].Holds() && s.procs[id].pc.RenameLock?
    ensures s.tree.Modules? && RequestOk(env, s.procs[id].request) && s.procs[id].lockTemp in s.tree.temps
    ensures Advanced(env, s, id, Commit(env, s, id))
  {
    hide Consistent, Permitted, RequestOk, ReadLock, MayAdd;
    var p := s.procs[id];
    assert ProcOk(env, s.tree, Last(s), p);
    var after := Commit(env, s, id);
    assert Last(after) == ViewOf(after.tree);
    var q := after.procs[id];
    assert LockFileFor(env, q) == LockFileFor(env, p);
  }

  lemma RemoveManifestStep(env: Env, s: State, id: nat, name: string)
    requires TreeInv(env, s) && id in s.procs && s.procs[id].Holds() && s.procs[id].pc.RemoveManifest?
    ensures Advanced(env, s, id, Write(env, s, id, name))
  {
    hide RequestOk, StageAt, WriterOk, WithoutFile, Advanced, TreeInv;
    HolderWrites(env, s, id);
    var p, after := s.procs[id], Write(env, s, id, name);
    RemoveManifestWriter(env, s.tree, after.tree, Last(s), p, p.pc.ok, p.pc.staged, after.procs[id]);
    WriterAdvances(env, s, id, after.tree, after.procs[id]);
  }

  function WithBundled(tree: Tree, bundled: Bundled): Tree {
    if tree.Modules? then tree.(bundled := bundled) else tree
  }

  lemma RemoveManifestWriter(env: Env, tree: Tree, after: Tree, last: View, p: Proc, ok: bool, staged: bool, q: Proc)
    requires p.pc == RemoveManifest(ok, staged)
    requires q == p.(pc := if staged then RemoveLock else Release(ok),
                     stage := if p.stage.Staged? then Foldered else p.stage)
    requires after == WithBundled(tree, WithoutFile(tree.Bundle(), Slug(p), p.temp))
    requires RequestOk(env, p.request) && StageAt(env, p) && WriterOk(env, tree, last, p)
    ensures StageAt(env, q) && WriterOk(env, after, last, q)
  {
    hide RequestOk, MayAdd, WithFolder, WithoutFile, WithFile, FileAt;
    RemoveManifestTree(env, p);
  }

  lemma RemoveLockStep(env: Env, s: State, id: nat, name: string)
    requires TreeInv(env, s) && id in s.procs && s.procs[id].Holds() && s.procs[id].pc.RemoveLock?
    ensures Advanced(env, s, id, Write(env, s, id, name))
  {
    hide Consistent, Permitted, RequestOk, ReadLock, MayAdd, WithFolder;
    var p := s.procs[id];
    assert ProcOk(env, s.tree, Last(s), p);
    var after := Write(env, s, id, name);
    SameReading(env, s.tree, after.tree);
  }

  lemma ReleaseStep(env: Env, s: State, id: nat, name: string)
    requires TreeInv(env, s) && id in s.procs && s.procs[id].Holds() && s.procs[id].pc.Release?
    ensures Advanced(env, s, id, Write(env, s, id, name))
  {
    hide Consistent, Permitted, RequestOk, ReadLock, MayAdd, WriterOk;
    assert ProcOk(env, s.tree, Last(s), s.procs[id]);
    SameReading(env, s.tree, Write(env, s, id, name).tree);
  }

  lemma RemoveManifestTree(env: Env, p: Proc)
    requires RequestOk(env, p.request) && Grounded(env, p) && TempFresh(p) && StageAt(env, p) && p.pc.RemoveManifest?
    ensures WithoutFile(BundledAt(env, p), Slug(p), p.temp)
         == if p.stage.Staged? then Prepared(p) else BundledAt(env, p)
  {
    hide Consistent, Permitted, RequestOk, ReadLock, MayAdd;
    PreparedFolder(env, p);
    if p.stage.Staged? {
      AddRemove(Prepared(p), Slug(p), p.temp, RealFile(p.stage.file));
    } else {
      RemoveAbsent(BundledAt(env, p), Slug(p), p.temp);
    }
  }

  /** Consistency reads the lock and `bundled` only. */
  lemma SameReading(env: Env, a: Tree, b: Tree)
    requires a.Modules? && b.Modules? && a.lock == b.lock && a.bundled == b.bundled
    ensures Consistent(env, a) <==> Consistent(env, b)
    ensures ViewOf(a) == ViewOf(b)
  {
    assert a.Children() == b.Children();
    forall slug ensures ManifestAt(a, slug) == ManifestAt(b, slug) {}
  }

  // ---- the calls before preflight, launches, crashes, operators ----

  lemma FirstCalls(env: Env, s: State, id: nat, name: string)
    requires TreeInv(env, s) && id in s.procs && s.procs[id].Live()
    requires s.procs[id].pc.MakeModules? || s.procs[id].pc.OpenVendorLock?
    requires RequestOk(env, s.procs[id].request)
    ensures TreeInv(env, Proceed(env, s, id, name))
  {
    hide Permitted, RequestOk, ReadLock, LockAgrees;
    var after := Proceed(env, s, id, name);
    if after.tree != s.tree {
      NobodyHolds(s, id);
      if s.tree.Modules? { SameReading(env, s.tree, after.tree); } else { EmptyReading(env, s.tree, after.tree); }
    }
  }

  /** Making `modules` or taking the vendor lock happens only while nobody holds it. */
  lemma NobodyHolds(s: State, id: nat)
    requires Exclusive(s) && (s.tree.NoModules? || (s.tree.Modules? && s.tree.vendorLock.None?))
    ensures !Held(s)
  {
  }

  lemma EmptyReading(env: Env, a: Tree, b: Tree)
    requires a.NoModules? && b == Modules(None, None, map[], NoBundled)
    ensures Consistent(env, a) <==> Consistent(env, b)
    ensures ViewOf(a) == ViewOf(b)
  {
    assert a.Children() == b.Children();
  }

  lemma PreflightCalls(env: Env, s: State, id: nat, name: string)
    requires TreeInv(env, s) && id in s.procs && RequestOk(env, s.procs[id].request)
    requires s.procs[id].pc.WriteVendorLock? || s.procs[id].pc.Read?
    ensures TreeInv(env, Proceed(env, s, id, name))
  {
    hide RequestOk, Consistent, ReadLock, Permitted, WriterOk;
    assert ProcOk(env, s.tree, Last(s), s.procs[id]);
    HolderAdvances(env, s, id, Proceed(env, s, id, name));
  }

  lemma VerifyCalls(env: Env, s: State, id: nat, name: string)
    requires TreeInv(env, s) && id in s.procs && RequestOk(env, s.procs[id].request) && s.procs[id].pc.Verify?
    ensures TreeInv(env, Proceed(env, s, id, name))
  {
    hide RequestOk, Consistent, ReadLock, Permitted;
    assert ProcOk(env, s.tree, Last(s), s.procs[id]);
    HolderAdvances(env, s, id, Proceed(env, s, id, name));
  }

  lemma WriterCalls(env: Env, s: State, id: nat, name: string)
    requires TreeInv(env, s) && id in s.procs && s.procs[id].Holds() && RequestOk(env, s.procs[id].request)
    requires !s.procs[id].pc.WriteVendorLock? && !s.procs[id].pc.Read? && !s.procs[id].pc.Verify?
    ensures s.tree.Modules? && TreeInv(env, Write(env, s, id, name))
  {
    hide Consistent, Permitted, RequestOk, ReadLock, WriterOk, Write;
    var pc := s.procs[id].pc;
    if pc.MakeBundled? || pc.MakeFolder? { MakeStep(env, s, id, name); }
    else if pc.OpenManifest? { OpenManifestStep(env, s, id, name); }
    else if pc.WriteManifest? { WriteManifestStep(env, s, id, name); }
    else if pc.OpenLock? || pc.WriteLock? { LockStep(env, s, id, name); }
    else if pc.RenameManifest? { RenameManifestStep(env, s, id, name); }
    else if pc.RenameLock? { CommitCalls(env, s, id, name); }
    else if pc.RemoveManifest? { RemoveManifestStep(env, s, id, name); }
    else if pc.RemoveLock? { RemoveLockStep(env, s, id, name); }
    else { ReleaseStep(env, s, id, name); }
    HolderAdvances(env, s, id, Write(env, s, id, name));
  }

  lemma CommitCalls(env: Env, s: State, id: nat, name: string)
    requires TreeInv(env, s) && id in s.procs && s.procs[id].Holds() && s.procs[id].pc.RenameLock?
    ensures s.tree.Modules? && RequestOk(env, s.procs[id].request)
    ensures Advanced(env, s, id, Write(env, s, id, name))
  {
    hide Consistent, Permitted, RequestOk, ReadLock, WriterOk, Commit;
    CommitStep(env, s, id);
  }

  lemma ThrownOk(env: Env, tree: Tree, last: View, p: Proc)
    requires ProcOk(env, tree, last, p) && p.Live()
    ensures ProcOk(env, tree, last, p.(pc := AfterThrow(p.pc)))
  {
    hide Consistent, Permitted, RequestOk, ReadLock, MayAdd;
  }

  lemma SameHolders(s: State, id: nat)
    requires Exclusive(s) && id in s.procs && s.procs[id].Live()
    ensures Exclusive(Throw(s, id))
  {
  }

  lemma ThrowKeeps(env: Env, s: State, id: nat)
    requires TreeInv(env, s) && id in s.procs && s.procs[id].Live()
    ensures TreeInv(env, Throw(s, id))
  {
    hide ProcOk, Safe, Exclusive;
    ThrownOk(env, s.tree, Last(s), s.procs[id]);
    SameHolders(s, id);
  }

  lemma OthersKeep(env: Env, s: State, step: Step)
    requires TreeInv(env, s) && Enabled(env, s, step) && !step.Runs? && !step.Throws?
    ensures TreeInv(env, Apply(env, s, step))
  {
    hide Permitted, RequestOk, ReadLock, LockAgrees;
    var after := Apply(env, s, step);
    if step.ClearVendorLock? { SameReading(env, s.tree, after.tree); }
  }

  lemma StepKeepsTree(env: Env, s: State, step: Step)
    requires TreeInv(env, s) && Enabled(env, s, step)
    ensures TreeInv(env, Apply(env, s, step))
  {
    hide Consistent, Permitted, RequestOk, ReadLock, WriterOk, Write, TreeInv;
    match step {
      case Runs(id, name) =>
        var pc := s.procs[id].pc;
        if pc.MakeModules? || pc.OpenVendorLock? { FirstCalls(env, s, id, name); }
        else if pc.WriteVendorLock? || pc.Read? { PreflightCalls(env, s, id, name); }
        else if pc.Verify? { VerifyCalls(env, s, id, name); }
        else { WriterCalls(env, s, id, name); }
      case Throws(id) => ThrowKeeps(env, s, id);
      case _ => OthersKeep(env, s, step);
    }
  }
}
