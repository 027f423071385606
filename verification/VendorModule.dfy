/**
 * `vendorModule` as the program runs it, one call after another with its
 * `finally` blocks.  Whatever fails and wherever, the calls it makes are a run
 * of the transition system of `Vendoring`, so what holds on every run holds of it.
 */
module VendorModule {
  import opened Common
  import opened ModuleLock
  import opened VendoredModules
  import opened Vendoring
  import opened VendoringProof
  import opened VendoringTheorems
  import opened VendoringSuccess
  import O = Ordering
  import S = Semver
  import U = SourceRepository

  lemma RunSnoc(env: Env, run: seq<State>, step: Step)
    requires IsRun(env, run) && Enabled(env, run[|run| - 1], step)
    ensures IsRun(env, run + [Apply(env, run[|run| - 1], step)])
  {
    hide Enabled, Apply, Initial;
    var longer := run + [Apply(env, run[|run| - 1], step)];
    forall i | 0 < i < |longer| ensures FollowsAt(env, longer, i) {
      if i < |run| { assert FollowsAt(env, run, i); }
    }
  }

  lemma ParsedVersions(env: Env, tree: Tree, entries: seq<LockEntry>, r: Request)
    requires ReadLock(env, tree.Lock()) == Some(entries) && RequestOk(env, r)
    ensures VersionOk(EntryFor(env, r).version) && forall x | x in entries :: VersionOk(x.version)
  {
    hide VersionOk, IdOk, SlugOk;
  }

  ghost predicate NoFault(fault: Pc -> bool) {
    forall pc: Pc :: !fault(pc)
  }

  /** No call of a `finally` block fails. */
  ghost predicate CleansUp(fault: Pc -> bool) {
    forall pc: Pc :: pc.RemoveManifest? || pc.RemoveLock? || pc.Release? ==> !fault(pc)
  }

  function Temps(tree: Tree): map<string, File> { if tree.Modules? then tree.temps else map[] }

  /** The staged manifest is not there, or was there before. */
  predicate ManifestTempGone(before: Tree, after: Tree, slug: string, temp: string) {
    FileAt(after.Bundle(), slug, temp) in {None, FileAt(before.Bundle(), slug, temp)}
  }

  /** The vendor lock is as it was, and of the staged files only one whose writing failed can be left. */
  ghost predicate NothingLeft(before: Tree, after: Tree, slug: string, temp: string, fault: Pc -> bool) {
    && (after.Locked() <==> before.Locked())
    && (!fault(WriteLock) ==> Temps(after) == Temps(before))
    && (!fault(WriteManifest) ==> ManifestTempGone(before, after, slug, temp))
  }

  lemma FoldersAddNoFile(b: Bundled, folder: string, slug: string, name: string)
    ensures FileAt(MkBundled(b), slug, name) == FileAt(b, slug, name) == FileAt(MkFolder(b, folder), slug, name)
  {
  }

  lemma RemovedIsGone(b: Bundled, slug: string, name: string)
    ensures FileAt(WithoutFile(b, slug, name), slug, name).None?
  {
  }

  ghost predicate Leads(env: Env, s: State, step: Step, after: State) {
    Enabled(env, s, step) && after == Apply(env, s, step)
  }

  /** A lock whose writing throws stays where it was staged, though every clean-up runs: nothing knows its name yet. */
  lemma FailedWriteStays(env: Env, s: State, id: nat) returns (thrown: State, cleaned: State, failed: State)
    requires Calls(env, s, id, WriteLock) && s.procs[id].lockTemp in s.tree.temps
    ensures Leads(env, s, Throws(id), thrown) && Leads(env, thrown, Runs(id, ""), cleaned)
    ensures Leads(env, cleaned, Runs(id, ""), failed)
    ensures id in failed.procs && failed.procs[id].pc == Failed && !failed.tree.Locked()
    ensures s.procs[id].lockTemp in Temps(failed.tree)
  {
    hide RequestOk, WithoutFile;
    thrown := Apply(env, s, Throws(id));
    assert Calls(env, thrown, id, RemoveManifest(false, false)) && thrown.tree == s.tree;
    RemoveManifestCall(env, thrown, id, "", false, false);
    hide Apply, Enabled;
    cleaned := Apply(env, thrown, Runs(id, ""));
    ReleaseCall(env, cleaned, id, "", false);
    failed := Apply(env, cleaned, Runs(id, ""));
  }

  /**
   * A manifest whose writing throws stays where it was staged as well, and with
   * it no tree verifies and no vendoring succeeds, though the vendor lock is free.
   */
  lemma FailedManifestWriteBlocks(env: Env, run: seq<State>, id: nat) returns (thrown: State, failed: State)
    requires IsRun(env, run) && Calls(env, run[|run| - 1], id, WriteManifest)
    ensures Leads(env, run[|run| - 1], Throws(id), thrown) && Leads(env, thrown, Runs(id, ""), failed)
    ensures id in failed.procs && failed.procs[id].pc == Failed && failed.tree.Modules? && !failed.tree.Locked()
    ensures forall catalog :: !Accepts(env, failed.tree, catalog, false)
    ensures forall r, lockName :: !WillSucceed(env, failed.tree, r, lockName)
  {
    var s := run[|run| - 1];
    StagedAtWrite(env, run, id);
    thrown := Apply(env, s, Throws(id));
    assert Calls(env, thrown, id, Release(false)) && thrown.tree == s.tree;
    ReleaseCall(env, thrown, id, "", false);
    hide IsRun, Apply, Enabled, RequestOk, Consistent;
    failed := Apply(env, thrown, Runs(id, ""));
    SameReading(env, s.tree, failed.tree);
  }

  lemma StagedAtWrite(env: Env, run: seq<State>, id: nat)
    requires IsRun(env, run) && Calls(env, run[|run| - 1], id, WriteManifest)
    ensures !Consistent(env, run[|run| - 1].tree)
  {
    assert run != [];
    hide IsRun, Recorded, Credited, TreeInv, Consistent, Calls;
    RunInv(env, run, |run| - 1);
    WritingIsStaged(env, run[|run| - 1], id);
  }

  lemma WritingIsStaged(env: Env, s: State, id: nat)
    requires TreeInv(env, s) && Calls(env, s, id, WriteManifest)
    ensures !Consistent(env, s.tree)
  {
    var p := s.procs[id];
    assert ProcOk(env, s.tree, Last(s), p);
    hide RequestOk, Consistent, Safe, BundledAt, Grounded, TempFresh, Exclusive, ViewOf;
    assert WriterOk(env, s.tree, Last(s), p) && p.stage.Staged?;
    StagedRefused(env, s.tree, p);
  }

  lemma OpenedLeaves(tree: Tree, slug: string, temp: string, fault: Pc -> bool)
    ensures NothingLeft(tree, tree, slug, temp, fault) && NothingLeft(tree, Opened(tree), slug, temp, fault)
    ensures forall after ::
      NothingLeft(Opened(tree), after, slug, temp, fault) ==> NothingLeft(tree, after, slug, temp, fault)
  {
  }

  lemma WriteOwnerCall(env: Env, s: State, id: nat, name: string)
    requires Calls(env, s, id, WriteVendorLock)
    ensures Enabled(env, s, Runs(id, name))
    ensures Apply(env, s, Runs(id, name)) == SetTree(s, s.tree, id, s.procs[id].(pc := Read))
  {
  }

  /** What a holder finds when it makes its next call. */
  lemma HolderFinds(env: Env, s: State, id: nat)
    requires TreeInv(env, s) && id in s.procs && s.procs[id].Holds()
    ensures s.tree.Modules?
    ensures s.procs[id].pc.OpenManifest? ==>
      forall name :: FileAt(s.tree.bundled, s.procs[id].request.manifest.slug, TempName(name)).None?
    ensures s.procs[id].pc.RenameManifest? ==>
      FileAt(s.tree.bundled, s.procs[id].request.manifest.slug, s.procs[id].temp).Some?
    ensures s.procs[id].pc.RenameManifest? || s.procs[id].pc.RenameLock? ==> s.procs[id].lockTemp in s.tree.temps
  {
    hide Permitted, RequestOk, ReadLock, Consistent, Safe;
    var p := s.procs[id];
    assert ProcOk(env, s.tree, Last(s), p);
    if p.pc.OpenManifest? || p.pc.RenameManifest? { PreparedFolder(env, p); }
  }

  lemma HasTree(env: Env, run: seq<State>, id: nat)
    requires IsRun(env, run) && id in run[|run| - 1].procs && run[|run| - 1].procs[id].Holds()
    ensures run[|run| - 1].tree.Modules?
  {
    assert run != [];
    hide IsRun, Recorded, Credited, TreeInv, FileAt, TempName;
    RunInv(env, run, |run| - 1);
    HolderFinds(env, run[|run| - 1], id);
  }

  lemma PlaceFree(env: Env, run: seq<State>, id: nat, name: string)
    requires IsRun(env, run) && id in run[|run| - 1].procs && run[|run| - 1].procs[id].Holds()
    requires run[|run| - 1].procs[id].pc.OpenManifest?
    ensures FileAt(run[|run| - 1].tree.Bundle(), run[|run| - 1].procs[id].request.manifest.slug, TempName(name)).None?
  {
    assert run != [];
    hide IsRun, Recorded, Credited, TreeInv, FileAt, TempName;
    RunInv(env, run, |run| - 1);
    HolderFinds(env, run[|run| - 1], id);
  }

  lemma StagedThere(env: Env, run: seq<State>, id: nat)
    requires IsRun(env, run) && id in run[|run| - 1].procs && run[|run| - 1].procs[id].Holds()
    ensures
      var s := run[|run| - 1];
      var p := s.procs[id];
      && (p.pc.RenameManifest? ==> FileAt(s.tree.Bundle(), p.request.manifest.slug, p.temp).Some?)
      && (p.pc.RenameLock? ==> s.tree.Modules? && p.lockTemp in s.tree.temps)
  {
    assert run != [];
    hide IsRun, Recorded, Credited, TreeInv, FileAt, TempName;
    RunInv(env, run, |run| - 1);
    HolderFinds(env, run[|run| - 1], id);
  }

  function Opened(tree: Tree): Tree { if tree.NoModules? then Modules(None, None, map[], NoBundled) else tree }

  /** With no failing call: what decides whether vendoring succeeds. */
  ghost predicate WillSucceed(env: Env, tree: Tree, r: Request, lockName: string) {
    && RequestOk(env, r) && Opened(tree).Modules? && Opened(tree).vendorLock.None?
    && Consistent(env, tree) && MayFollow(env, ReadLock(env, tree.Lock()).value, EntryFor(env, r))
    && lockName !in Opened(tree).temps
  }

  lemma OpenedReading(env: Env, tree: Tree, id: nat)
    requires Opened(tree).Modules?
    ensures Consistent(env, Opened(tree).(vendorLock := Some(id))) <==> Consistent(env, tree)
    ensures Opened(tree).(vendorLock := Some(id)).Lock() == tree.Lock()
  {
    hide LockAgrees, ReadLock;
    if tree.NoModules? { EmptyReading(env, tree, Opened(tree)); }
    SameReading(env, Opened(tree), Opened(tree).(vendorLock := Some(id)));
  }

  /** `WillSucceed` in terms of the tree as it is once the vendor lock is held. */
  lemma SuccessMeans(env: Env, tree: Tree, r: Request, lockName: string, id: nat)
    requires RequestOk(env, r)
    ensures !Opened(tree).Modules? || Opened(tree).vendorLock.Some? ==> !WillSucceed(env, tree, r, lockName)
    ensures Opened(tree).Modules? && Opened(tree).vendorLock.None? ==>
      var held := Opened(tree).(vendorLock := Some(id));
      && ViewOf(held) == ViewOf(tree)
      && (WillSucceed(env, tree, r, lockName) <==>
            Accepts(env, held, None, true) && lockName !in held.temps
            && Permitted(env, ReadLock(env, held.Lock()).value, EntryFor(env, r)))
  {
    hide RequestOk, EntryFor, Permitted, MayFollow, LockAgrees, ReadLock;
    if Opened(tree).Modules? { OpenedReading(env, tree, id); }
    if Consistent(env, tree) { PermissionMeans(env, tree, r); }
  }

  lemma PermissionMeans(env: Env, tree: Tree, r: Request)
    requires RequestOk(env, r) && ReadLock(env, tree.Lock()).Some?
    ensures
      var entries := ReadLock(env, tree.Lock()).value;
      Permitted(env, entries, EntryFor(env, r)) <==> MayFollow(env, entries, EntryFor(env, r))
  {
    ParsedVersions(env, tree, ReadLock(env, tree.Lock()).value, r);
    PermittedIsMayFollow(env, ReadLock(env, tree.Lock()).value, EntryFor(env, r));
    hide RequestOk, EntryFor, Permitted, MayFollow, VersionOk, ReadLock;
  }

  /** From `s` to `now` process `id` alone committed anything, and its `entries` and `before` stand. */
  ghost predicate Since(id: nat, s: State, now: State) {
    && id in s.procs && id in now.procs
    && s.commits <= now.commits && (forall k | |s.commits| <= k < |now.commits| :: now.commits[k].0 == id)
    && now.procs[id].before == s.procs[id].before && now.procs[id].entries == s.procs[id].entries
  }

  lemma SinceTransitive(id: nat, a: State, b: State, c: State)
    requires Since(id, a, b) && Since(id, b, c)
    ensures Since(id, a, c)
  {
  }

  lemma SinceKeeps(id: nat, s: State, now: State)
    requires Since(id, s, now)
    ensures id in s.procs && id in now.procs
    ensures now.procs[id].entries == s.procs[id].entries && now.procs[id].before == s.procs[id].before
    ensures s.commits <= now.commits && forall k | |s.commits| <= k < |now.commits| :: now.commits[k].0 == id
  {
  }

  // ---- each call as one equation ----

  ghost predicate Calls(env: Env, s: State, id: nat, pc: Pc) {
    id in s.procs && s.procs[id].pc == pc && RequestOk(env, s.procs[id].request) && s.tree.Modules?
  }

  lemma MakeBundledCall(env: Env, s: State, id: nat, name: string)
    requires Calls(env, s, id, MakeBundled)
    ensures Enabled(env, s, Runs(id, name)) && Apply(env, s, Runs(id, name)) ==
      SetTree(s, s.tree.(bundled := MkBundled(s.tree.bundled)), id, s.procs[id].(pc := MakeFolder, stage := Made))
  {
  }

  lemma MakeFolderCall(env: Env, s: State, id: nat, name: string)
    requires Calls(env, s, id, MakeFolder)
    ensures Enabled(env, s, Runs(id, name)) && Apply(env, s, Runs(id, name)) ==
      SetTree(s, s.tree.(bundled := MkFolder(s.tree.bundled, s.procs[id].request.manifest.slug)), id,
              s.procs[id].(pc := OpenManifest, stage := Foldered))
  {
  }

  lemma OpenManifestCall(env: Env, s: State, id: nat, name: string)
    requires Calls(env, s, id, OpenManifest)
    requires FileAt(s.tree.bundled, s.procs[id].request.manifest.slug, TempName(name)).None?
    ensures Enabled(env, s, Runs(id, name)) && Apply(env, s, Runs(id, name)) ==
      SetTree(s, s.tree.(bundled := WithFile(s.tree.bundled, s.procs[id].request.manifest.slug, TempName(name),
                                             RealFile(OtherFile(0)))), id,
              s.procs[id].(pc := WriteManifest, temp := TempName(name), stage := Staged(OtherFile(0))))
  {
    hide WithFile, TempName, FileAt;
  }

  lemma WriteManifestCall(env: Env, s: State, id: nat, name: string)
    requires Calls(env, s, id, WriteManifest)
    ensures Enabled(env, s, Runs(id, name)) && Apply(env, s, Runs(id, name)) ==
      SetTree(s, s.tree.(bundled := WithFile(s.tree.bundled, s.procs[id].request.manifest.slug, s.procs[id].temp,
                                             RealFile(ManifestFileFor(env, s.procs[id].request)))), id,
              s.procs[id].(pc := OpenLock, stage := Staged(ManifestFileFor(env, s.procs[id].request))))
  {
    hide WithFile, ManifestFileFor;
  }

  lemma OpenLockCall(env: Env, s: State, id: nat, name: string)
    requires Calls(env, s, id, OpenLock) && name !in s.tree.temps
    ensures Enabled(env, s, Runs(id, name)) && Apply(env, s, Runs(id, name)) ==
      SetTree(s, s.tree.(temps := s.tree.temps[name := OtherFile(0)]), id,
              s.procs[id].(pc := WriteLock, lockTemp := name))
  {
  }

  lemma WriteLockCall(env: Env, s: State, id: nat, name: string)
    requires Calls(env, s, id, WriteLock)
    ensures Enabled(env, s, Runs(id, name)) && Apply(env, s, Runs(id, name)) ==
      SetTree(s, s.tree.(temps := s.tree.temps[s.procs[id].lockTemp := LockFileFor(env, s.procs[id])]), id,
              s.procs[id].(pc := RenameManifest))
  {
    hide LockFileFor;
  }

  lemma RenameManifestCall(env: Env, s: State, id: nat, name: string)
    requires Calls(env, s, id, RenameManifest)
    requires FileAt(s.tree.bundled, s.procs[id].request.manifest.slug, s.procs[id].temp).Some?
    ensures
      var (slug, temp) := (s.procs[id].request.manifest.slug, s.procs[id].temp);
      Enabled(env, s, Runs(id, name)) && Apply(env, s, Runs(id, name)) ==
      SetTree(s, s.tree.(bundled := WithFile(WithoutFile(s.tree.bundled, slug, temp), slug, MANIFEST_NAME,
                                             FileAt(s.tree.bundled, slug, temp).value)), id,
              s.procs[id].(pc := RenameLock, stage := Placed))
  {
    hide WithFile, WithoutFile, FileAt;
  }

  lemma RenameLockCall(env: Env, s: State, id: nat, name: string)
    requires Calls(env, s, id, RenameLock) && s.procs[id].lockTemp in s.tree.temps
    ensures Enabled(env, s, Runs(id, name)) && Apply(env, s, Runs(id, name)) == Commit(env, s, id)
  {
    hide Commit;
  }

  lemma RemoveManifestCall(env: Env, s: State, id: nat, name: string, ok: bool, staged: bool)
    requires Calls(env, s, id, RemoveManifest(ok, staged))
    ensures Enabled(env, s, Runs(id, name)) && Apply(env, s, Runs(id, name)) ==
      SetTree(s, s.tree.(bundled := WithoutFile(s.tree.bundled, s.procs[id].request.manifest.slug,
                                                s.procs[id].temp)), id,
              s.procs[id].(pc := if staged then RemoveLock else Release(ok),
                           stage := if s.procs[id].stage.Staged? then Foldered else s.procs[id].stage))
  {
    hide WithoutFile;
  }

  lemma ReleaseCall(env: Env, s: State, id: nat, name: string, ok: bool)
    requires Calls(env, s, id, Release(ok))
    ensures Enabled(env, s, Runs(id, name)) && Apply(env, s, Runs(id, name)) ==
      SetTree(s, s.tree.(vendorLock := None), id, s.procs[id].(pc := if ok then Done else Failed))
  {
  }

  // ---- what the renames do, in their order ----

  predicate StagedBoth(env: Env, t: Tree, r: Request, temp: string, lockTemp: string, modules: seq<LockEntry>) {
    && t.Modules? && FileAt(t.bundled, r.manifest.slug, temp) == Some(RealFile(ManifestFileFor(env, r)))
    && lockTemp in t.temps && t.temps[lockTemp] == LockFile(modules, env.lockSize(modules))
  }

  /** First the manifest alone moves into place, then the lock: `during` is the tree between the two. */
  predicate RenamedInOrder(env: Env, before: Tree, during: Tree, after: Tree, r: Request, modules: seq<LockEntry>) {
    && before.Modules? && during.Modules? && after.Modules?
    && FileAt(during.bundled, r.manifest.slug, MANIFEST_NAME) == Some(RealFile(ManifestFileFor(env, r)))
    && during.lock == before.lock
    && after.lock == Some(RealFile(LockFile(modules, env.lockSize(modules)))) && after.bundled == during.bundled
  }

  /** A written file holds what was written, if its folder is there at all. */
  lemma Written(b: Bundled, slug: string, name: string, node: Node)
    ensures FileAt(WithFile(b, slug, name, node), slug, name) in {None, Some(node)}
  {
  }

  lemma Renamed(b: Bundled, slug: string, temp: string)
    requires FileAt(b, slug, temp).Some?
    ensures FileAt(WithFile(WithoutFile(b, slug, temp), slug, MANIFEST_NAME, FileAt(b, slug, temp).value), slug,
                   MANIFEST_NAME)
         == FileAt(b, slug, temp)
  {
  }

  /** Into a repository that has no modules yet, any proper request goes. */
  lemma FirstSucceeds(env: Env, r: Request, lockName: string)
    requires RequestOk(env, r)
    ensures WillSucceed(env, NoModules, r, lockName)
  {
    hide IdOk, SlugOk, CommitOk, LicenseOk, VersionOk;
    assert ReadLock(env, NoModules.Lock()) == Some([]);
    assert VersionOk(r.manifest.version);
    assert LockAgrees(env, NoModules, []);
  }

  lemma FirstEntry(env: Env, r: Request, host: string, path: string)
    requires RequestOk(env, r) && U.ReadsPaths(env.repository, host) && U.PathText(path)
    requires r.source == U.Url(host, path)
    ensures
      var e := EntryFor(env, r);
      && (env.repository(e.repository) == Some(e.repository) <==> !U.Unstable(path))
      && Upsert(Entries(ViewOf(NoModules)), e) == [e]
  {
    hide U.ReadsPaths, U.PathText, U.Unstable, U.Canonical;
    U.ReadAgain(env.repository, host, path);
    var e := EntryFor(env, r);
    assert Entries(ViewOf(NoModules)) == [] && Others([], e.id) + [e] == [e];
    O.SortOfSorted(AtMost, [e]);
  }

  class Vendor {
    const env: Env
    const id: nat
    var tree: Tree
    ghost var run: seq<State>
    ghost var now: State

    /** A process that has yet to start, over the tree as it is. */
    constructor (env: Env, id: nat, tree: Tree)
      ensures Synced() && this.env == env && this.id == id && this.tree == tree && Initial(now)
    {
      this.env, this.id, this.tree := env, id, tree;
      now := State(tree, map[], [ViewOf(tree)], []);
      run := [State(tree, map[], [ViewOf(tree)], [])];
    }

    ghost predicate Synced()
      reads this
    {
      run != [] && IsRun(env, run) && now == run[|run| - 1] && now.tree == tree
    }

    /** This process is about to make the call at `pc`. */
    ghost predicate At(r: Request, pc: Pc)
      reads this
    {
      Synced() && id in now.procs && now.procs[id].pc == pc && now.procs[id].request == r && RequestOk(env, r)
    }

    ghost function Me(): Proc
      reads this
      requires id in now.procs
    {
      now.procs[id]
    }

    /** Adds a step to the run. */
    ghost method Took(step: Step)
      requires run != [] && IsRun(env, run) && now == run[|run| - 1] && Enabled(env, now, step)
      modifies this`run, this`now
      ensures now == Apply(env, old(now), step) && run == old(run) + [now] && IsRun(env, run)
    {
      RunSnoc(env, run, step);
      now := Apply(env, now, step);
      run := run + [now];
    }

    /** The call of this process at its `pc` has left it as `p`. */
    ghost method Ran(r: Request, name: string, p: Proc)
      requires run != [] && IsRun(env, run) && now == run[|run| - 1] && id in now.procs
      requires Enabled(env, now, Runs(id, name))
      requires Apply(env, now, Runs(id, name)) == SetTree(now, tree, id, p)
      requires p.request == r && RequestOk(env, r) && p.before == Me().before && p.entries == Me().entries
      modifies this`run, this`now
      ensures At(r, p.pc) && run == old(run) + [now] && Me() == p && Since(id, old(now), now)
    {
      hide IsRun, RequestOk, Apply, Enabled;
      Took(Runs(id, name));
    }

    ghost method Threw(r: Request, pc: Pc)
      requires At(r, pc) && !pc.Done? && !pc.Failed? && !pc.Dead?
      modifies this`run, this`now
      ensures At(r, AfterThrow(pc)) && tree == old(tree) && old(run) <= run && Since(id, old(now), now)
      ensures Me() == old(Me()).(pc := AfterThrow(pc))
    {
      hide IsRun, RequestOk;
      Took(Throws(id));
    }

    method AcquireVendorLock(r: Request, fault: Pc -> bool) returns (ok: bool)
      requires At(r, OpenVendorLock)
      modifies this
      ensures ok ==> old(tree).Modules? && old(tree).vendorLock.None? && tree == old(tree).(vendorLock := Some(id))
      ensures NoFault(fault) ==> (ok <==> old(tree).Modules? && old(tree).vendorLock.None?)
      ensures !ok && CleansUp(fault) ==> tree == old(tree)
      ensures At(r, if ok then Read else Failed) && old(run) <= run && Since(id, old(now), now)
    {
      hide IsRun, RequestOk, ReadLock, Consistent, Write, Permitted;
      if fault(OpenVendorLock) || !tree.Modules? || tree.vendorLock.Some? {
        Threw(r, OpenVendorLock);
        return false;
      }
      tree := tree.(vendorLock := Some(id));
      Took(Runs(id, ""));
      ok := WriteOwner(r, fault);
    }

    /** Writing into the vendor lock; a failure takes the lock away again. */
    method WriteOwner(r: Request, fault: Pc -> bool) returns (ok: bool)
      requires At(r, WriteVendorLock)
      modifies this
      ensures ok ==> tree == old(tree)
      ensures old(tree).Modules? && (!ok && CleansUp(fault) ==> tree == old(tree).(vendorLock := None))
      ensures NoFault(fault) ==> ok
      ensures At(r, if ok then Read else Failed) && old(run) <= run && Since(id, old(now), now)
    {
      HasTree(env, run, id);
      WriteOwnerCall(env, now, id, "");
      hide IsRun, RequestOk, Enabled, Apply, WithFile, WithoutFile, MkBundled, MkFolder, FileAt, TempName,
        ManifestFileFor, EntryFor, Upsert, ReadLock, ViewOf, Consistent, Permitted, LockFileFor, StagedBoth,
        RenamedInOrder, SetTree, Since, Calls;
      if fault(WriteVendorLock) {
        ghost var start := now;
        Threw(r, WriteVendorLock);
        ghost var thrown := now;
        var _ := ReleaseVendorLock(r, fault, false);
        SinceTransitive(id, start, thrown, now);
        return false;
      }
      Ran(r, "", Me().(pc := Read));
      return true;
    }

    method ReleaseVendorLock(r: Request, fault: Pc -> bool, done: bool) returns (ok: bool)
      requires At(r, Release(done))
      modifies this
      ensures NoFault(fault) ==> (ok <==> done)
      ensures old(tree).Modules? && tree == if fault(Release(done)) then old(tree) else old(tree).(vendorLock := None)
      ensures ok ==> done && Enabled(env, old(now), Runs(id, "")) && tree == Apply(env, old(now), Runs(id, "")).tree
      ensures At(r, if ok then Done else Failed) && old(run) <= run && Since(id, old(now), now)
    {
      hide IsRun, RequestOk;
      HasTree(env, run, id);
      hide Enabled, Apply, WithFile, WithoutFile, MkBundled, MkFolder, FileAt, TempName, ManifestFileFor, EntryFor,
        Upsert, ReadLock, ViewOf, Consistent, Permitted, Since, LockFileFor, StagedBoth, RenamedInOrder;
      if fault(Release(done)) {
        Threw(r, Release(done));
        return false;
      }
      ReleaseCall(env, now, id, "", done);
      tree := tree.(vendorLock := None);
      Ran(r, "", Me().(pc := if done then Done else Failed));
      return done;
    }

    /** `stageAtomicFile` for the manifest: a failure leaves the temporary file where it is. */
    method StageManifest(r: Request, name: string, fault: Pc -> bool) returns (ok: bool)
      requires At(r, OpenManifest)
      modifies this
      ensures At(r, if ok then OpenLock else Release(false)) && old(run) <= run && Since(id, old(now), now)
      ensures old(tree).Modules? && tree.Modules? && tree == old(tree).(bundled := tree.bundled)
      ensures ok ==> Me().temp == TempName(name)
      ensures ok ==>
        FileAt(tree.bundled, r.manifest.slug, TempName(name)) in {None, Some(RealFile(ManifestFileFor(env, r)))}
      ensures !ok && !fault(WriteManifest) ==> FileAt(tree.bundled, r.manifest.slug, TempName(name)).None?
      ensures NoFault(fault) ==> ok
    {
      hide IsRun, RequestOk, Enabled, Apply, WithFile, WithoutFile, MkBundled, MkFolder, FileAt, TempName,
        ManifestFileFor, EntryFor, Upsert, ReadLock, ViewOf, Consistent, Permitted, Since, SetTree, Calls,
        LockFileFor, StagedBoth, RenamedInOrder;
      ghost var start := now;
      ok := OpenStagedManifest(r, name, fault);
      if ok {
        ghost var begun := now;
        ok := WriteStagedManifest(r, TempName(name), fault);
        SinceTransitive(id, start, begun, now);
      }
    }

    method OpenStagedManifest(r: Request, name: string, fault: Pc -> bool) returns (ok: bool)
      requires At(r, OpenManifest)
      modifies this
      ensures At(r, if ok then WriteManifest else Release(false)) && old(run) <= run && Since(id, old(now), now)
      ensures old(tree).Modules? && tree.Modules? && tree == old(tree).(bundled := tree.bundled)
      ensures !ok ==> FileAt(tree.bundled, r.manifest.slug, TempName(name)).None?
      ensures (ok ==> Me().temp == TempName(name)) && (NoFault(fault) ==> ok)
    {
      HasTree(env, run, id);
      PlaceFree(env, run, id, name);
      hide IsRun, RequestOk, Enabled, Apply, WithFile, WithoutFile, MkBundled, MkFolder, FileAt, TempName,
        ManifestFileFor, EntryFor, Upsert, ReadLock, ViewOf, Consistent, Permitted, Since, SetTree, LockFileFor,
        StagedBoth, RenamedInOrder;
      var slug := r.manifest.slug;
      if fault(OpenManifest) || FileAt(tree.bundled, slug, TempName(name)).Some? {
        Threw(r, OpenManifest);
        return false;
      }
      OpenManifestCall(env, now, id, name);
      tree := tree.(bundled := WithFile(tree.bundled, slug, TempName(name), RealFile(OtherFile(0))));
      Ran(r, name, Me().(pc := WriteManifest, temp := TempName(name), stage := Staged(OtherFile(0))));
      return true;
    }

    method WriteStagedManifest(r: Request, temp: string, fault: Pc -> bool) returns (ok: bool)
      requires At(r, WriteManifest) && tree.Modules? && Me().temp == temp
      modifies this
      ensures At(r, if ok then OpenLock else Release(false)) && old(run) <= run && Since(id, old(now), now)
      ensures Me().temp == temp && tree.Modules? && tree == old(tree).(bundled := tree.bundled)
      ensures ok <==> !fault(WriteManifest)
      ensures ok ==> FileAt(tree.bundled, r.manifest.slug, temp) in {None, Some(RealFile(ManifestFileFor(env, r)))}
    {
      hide IsRun, RequestOk, Enabled, Apply, WithFile, WithoutFile, MkBundled, MkFolder, FileAt, TempName,
        ManifestFileFor, EntryFor, Upsert, ReadLock, ViewOf, Consistent, Permitted, Since, SetTree, LockFileFor,
        StagedBoth, RenamedInOrder;
      if fault(WriteManifest) {
        Threw(r, WriteManifest);
        return false;
      }
      WriteManifestCall(env, now, id, "");
      Written(tree.bundled, r.manifest.slug, temp, RealFile(ManifestFileFor(env, r)));
      tree := tree.(bundled := WithFile(tree.bundled, r.manifest.slug, temp, RealFile(ManifestFileFor(env, r))));
      Ran(r, "", Me().(pc := OpenLock, stage := Staged(ManifestFileFor(env, r))));
      return true;
    }

    /** `stageAtomicFile` for the lock. */
    method StageLock(r: Request, name: string, modules: seq<LockEntry>, fault: Pc -> bool) returns (ok: bool)
      requires At(r, OpenLock) && modules == Upsert(Me().entries, EntryFor(env, r))
      modifies this
      ensures At(r, if ok then RenameManifest else RemoveManifest(false, false))
      ensures old(run) <= run && Since(id, old(now), now)
      ensures Me().temp == old(Me().temp) && (ok ==> Me().lockTemp == name)
      ensures old(tree).Modules? && tree.Modules? && tree == old(tree).(temps := tree.temps)
      ensures ok ==> name in tree.temps && tree.temps[name] == LockFile(modules, env.lockSize(modules))
      ensures ok ==> name !in old(tree).temps && tree.temps - {name} == old(tree).temps
      ensures !ok && !fault(WriteLock) ==> tree == old(tree)
      ensures NoFault(fault) ==> (ok <==> name !in old(tree).temps)
    {
      hide IsRun, RequestOk, Enabled, Apply, WithFile, WithoutFile, MkBundled, MkFolder, FileAt, TempName,
        ManifestFileFor, EntryFor, Upsert, ReadLock, ViewOf, Consistent, Permitted, Since, SetTree, Calls,
        LockFileFor, StagedBoth, RenamedInOrder;
      ghost var start := now;
      ok := OpenStagedLock(r, name, fault);
      if ok {
        ghost var begun := now;
        ok := WriteStagedLock(r, name, modules, fault);
        SinceTransitive(id, start, begun, now);
      }
    }

    method OpenStagedLock(r: Request, name: string, fault: Pc -> bool) returns (ok: bool)
      requires At(r, OpenLock)
      modifies this
      ensures At(r, if ok then WriteLock else RemoveManifest(false, false)) && old(run) <= run
      ensures Since(id, old(now), now)
      ensures Me().temp == old(Me()).temp && Me().entries == old(Me()).entries && (ok ==> Me().lockTemp == name)
      ensures old(tree).Modules? && tree.Modules? && tree == old(tree).(temps := tree.temps)
      ensures ok ==> name !in old(tree).temps && tree.temps == old(tree).temps[name := OtherFile(0)]
      ensures !ok ==> tree == old(tree)
      ensures NoFault(fault) ==> (ok <==> name !in old(tree).temps)
    {
      hide IsRun, RequestOk;
      HasTree(env, run, id);
      hide Enabled, Apply, WithFile, WithoutFile, MkBundled, MkFolder, FileAt, TempName, ManifestFileFor, EntryFor,
        Upsert, ReadLock, ViewOf, Consistent, Permitted, Since, SetTree, LockFileFor, StagedBoth, RenamedInOrder;
      if fault(OpenLock) || name in tree.temps {
        Threw(r, OpenLock);
        return false;
      }
      OpenLockCall(env, now, id, name);
      tree := tree.(temps := tree.temps[name := OtherFile(0)]);
      Ran(r, name, Me().(pc := WriteLock, lockTemp := name));
      return true;
    }

    method WriteStagedLock(r: Request, name: string, modules: seq<LockEntry>, fault: Pc -> bool) returns (ok: bool)
      requires At(r, WriteLock) && tree.Modules? && modules == Upsert(Me().entries, EntryFor(env, r))
      requires Me().lockTemp == name
      modifies this
      ensures At(r, if ok then RenameManifest else RemoveManifest(false, false)) && old(run) <= run
      ensures Since(id, old(now), now) && Me().temp == old(Me().temp) && Me().lockTemp == name
      ensures tree.Modules? && tree == old(tree).(temps := tree.temps)
      ensures ok ==> name in tree.temps && tree.temps[name] == LockFile(modules, env.lockSize(modules))
      ensures (ok <==> !fault(WriteLock)) && tree.temps - {name} == old(tree).temps - {name}
    {
      hide IsRun, RequestOk, Enabled, Apply, WithFile, WithoutFile, MkBundled, MkFolder, FileAt, TempName,
        ManifestFileFor, EntryFor, Upsert, ReadLock, ViewOf, Consistent, Permitted, Since, SetTree, StagedBoth,
        RenamedInOrder;
      if fault(WriteLock) {
        Threw(r, WriteLock);
        return false;
      }
      WriteLockCall(env, now, id, name);
      tree := tree.(temps := tree.temps[name := LockFile(modules, env.lockSize(modules))]);
      Ran(r, name, Me().(pc := RenameManifest));
      return true;
    }

    /** The two renames, the manifest's first. */
    method RenameBoth(r: Request, temp: string, lockTemp: string, modules: seq<LockEntry>, fault: Pc -> bool)
      returns (ok: bool)
      requires At(r, RenameManifest) && Me().temp == temp && Me().lockTemp == lockTemp
      requires tree.Modules? && lockTemp in tree.temps
      requires tree.temps[lockTemp] == LockFile(modules, env.lockSize(modules))
      requires FileAt(tree.bundled, r.manifest.slug, temp) in {None, Some(RealFile(ManifestFileFor(env, r)))}
      modifies this
      ensures At(r, RemoveManifest(ok, !ok)) && old(run) <= run && Since(id, old(now), now)
      ensures Me().temp == temp && Me().lockTemp == lockTemp
      ensures StagedBoth(env, old(tree), r, temp, lockTemp, modules)
      ensures ok ==> |run| == |old(run)| + 2 && RenamedInOrder(env, old(tree), run[|old(run)|].tree, tree, r, modules)
      ensures !ok ==> tree.Modules? && tree.lock == old(tree).lock
      ensures tree.Modules? && tree.vendorLock == old(tree).vendorLock
      ensures tree.temps == if ok then old(tree).temps - {lockTemp} else old(tree).temps
      ensures NoFault(fault) ==> ok
    {
      hide IsRun, RequestOk, Enabled, Apply, WithFile, WithoutFile, MkBundled, MkFolder, FileAt, TempName,
        ManifestFileFor, EntryFor, Upsert, ReadLock, ViewOf, Consistent, Permitted, Since, SetTree, Calls,
        LockFileFor;
      ghost var start := now;
      ok := RenameStagedManifest(r, temp, fault);
      if ok {
        ghost var placed := now;
        ok := RenameStagedLock(r, lockTemp, fault);
        SinceTransitive(id, start, placed, now);
      }
    }

    method RenameStagedManifest(r: Request, temp: string, fault: Pc -> bool) returns (ok: bool)
      requires At(r, RenameManifest) && Me().temp == temp
      modifies this
      ensures At(r, if ok then RenameLock else RemoveManifest(false, true)) && old(run) <= run
      ensures Since(id, old(now), now)
      ensures Me().temp == temp && Me().lockTemp == old(Me()).lockTemp
      ensures old(tree).Modules? && tree.Modules? && FileAt(old(tree).bundled, r.manifest.slug, temp).Some?
      ensures tree == old(tree).(bundled := tree.bundled)
      ensures ok ==> run == old(run) + [now] && FileAt(tree.bundled, r.manifest.slug, MANIFEST_NAME)
                                             == FileAt(old(tree).bundled, r.manifest.slug, temp)
      ensures NoFault(fault) ==> ok
    {
      StagedThere(env, run, id);
      hide IsRun, RequestOk;
      HasTree(env, run, id);
      hide Enabled, Apply, WithFile, WithoutFile, MkBundled, MkFolder, FileAt, TempName, ManifestFileFor, EntryFor,
        Upsert, ReadLock, ViewOf, Consistent, Permitted, Since, SetTree, LockFileFor, StagedBoth, RenamedInOrder;
      var slug := r.manifest.slug;
      if fault(RenameManifest) || FileAt(tree.bundled, slug, temp).None? {
        Threw(r, RenameManifest);
        return false;
      }
      var file := FileAt(tree.bundled, slug, temp).value;
      Renamed(tree.bundled, slug, temp);
      RenameManifestCall(env, now, id, "");
      tree := tree.(bundled := WithFile(WithoutFile(tree.bundled, slug, temp), slug, MANIFEST_NAME, file));
      Ran(r, "", Me().(pc := RenameLock, stage := Placed));
      return true;
    }

    /** The lock rename: the commit point. */
    method RenameStagedLock(r: Request, lockTemp: string, fault: Pc -> bool) returns (ok: bool)
      requires At(r, RenameLock) && Me().lockTemp == lockTemp
      modifies this
      ensures At(r, RemoveManifest(ok, !ok)) && old(run) <= run && Since(id, old(now), now)
      ensures Me().temp == old(Me().temp) && Me().lockTemp == lockTemp
      ensures old(tree).Modules? && lockTemp in old(tree).temps
      ensures if ok then |run| == |old(run)| + 1
                         && tree == old(tree).(lock := Some(RealFile(old(tree).temps[lockTemp])),
                                               temps := old(tree).temps - {lockTemp})
              else tree == old(tree)
      ensures NoFault(fault) ==> ok
    {
      hide IsRun, RequestOk;
      StagedThere(env, run, id);
      hide Enabled, Apply, WithFile, WithoutFile, MkBundled, MkFolder, FileAt, TempName, ManifestFileFor, EntryFor,
        Upsert, ReadLock, ViewOf, Consistent, Permitted, SetTree, LockFileFor, StagedBoth, RenamedInOrder;
      if fault(RenameLock) || lockTemp !in tree.temps {
        Threw(r, RenameLock);
        return false;
      }
      RenameLockCall(env, now, id, "");
      tree := tree.(lock := Some(RealFile(tree.temps[lockTemp])), temps := tree.temps - {lockTemp});
      Took(Runs(id, ""));
      return true;
    }

    /** The `finally` block of `replaceVendoredPair`. */
    method RemoveStaged(r: Request, temp: string, lockTemp: string, ok: bool, staged: bool, fault: Pc -> bool)
      returns (done: bool)
      requires At(r, RemoveManifest(ok, staged)) && Me().temp == temp && (staged ==> Me().lockTemp == lockTemp && !ok)
      modifies this
      ensures (done ==> ok) && (NoFault(fault) ==> (done <==> ok))
      ensures old(tree).Modules? && tree.Modules? && tree.lock == old(tree).lock
      ensures tree.vendorLock == old(tree).vendorLock
      ensures CleansUp(fault) ==>
        && tree.temps == (if staged then old(tree).temps - {lockTemp} else old(tree).temps)
        && FileAt(tree.bundled, r.manifest.slug, temp).None?
      ensures At(r, Release(done)) && old(run) <= run && Since(id, old(now), now)
    {
      hide IsRun, RequestOk, NoFault;
      var removed := RemoveStagedManifest(r, temp, ok, staged, fault);
      if !removed { return false; }
      if staged { RemoveStagedLock(r, lockTemp, fault); }
      return ok;
    }

    method RemoveStagedManifest(r: Request, temp: string, ok: bool, staged: bool, fault: Pc -> bool)
      returns (removed: bool)
      requires At(r, RemoveManifest(ok, staged)) && Me().temp == temp
      modifies this
      ensures (removed <==> !fault(RemoveManifest(ok, staged))) && (NoFault(fault) ==> removed)
      ensures old(tree).Modules? && tree.Modules? && tree == old(tree).(bundled := tree.bundled)
      ensures removed ==> FileAt(tree.bundled, r.manifest.slug, temp).None?
      ensures At(r, if !removed then Release(false) else if staged then RemoveLock else Release(ok))
      ensures old(run) <= run && Since(id, old(now), now) && Me().lockTemp == old(Me().lockTemp)
    {
      hide IsRun, RequestOk;
      HasTree(env, run, id);
      hide Enabled, Apply, WithFile, WithoutFile, MkBundled, MkFolder, FileAt, TempName, ManifestFileFor, EntryFor,
        Upsert, ReadLock, ViewOf, Consistent, Permitted, Since, SetTree, LockFileFor, StagedBoth, RenamedInOrder;
      removed := !fault(RemoveManifest(ok, staged));
      if removed {
        RemovedIsGone(tree.bundled, r.manifest.slug, temp);
        RemoveManifestCall(env, now, id, "", ok, staged);
        ghost var stage := if Me().stage.Staged? then Foldered else Me().stage;
        tree := tree.(bundled := WithoutFile(tree.bundled, r.manifest.slug, temp));
        Ran(r, "", Me().(pc := if staged then RemoveLock else Release(ok), stage := stage));
      } else {
        Threw(r, RemoveManifest(ok, staged));
      }
    }

    method RemoveStagedLock(r: Request, lockTemp: string, fault: Pc -> bool)
      requires At(r, RemoveLock) && Me().lockTemp == lockTemp
      modifies this
      ensures old(tree).Modules? && tree.Modules? && tree == old(tree).(temps := tree.temps)
      ensures !fault(RemoveLock) ==> tree.temps == old(tree).temps - {lockTemp}
      ensures At(r, Release(false)) && old(run) <= run && Since(id, old(now), now)
    {
      hide IsRun, RequestOk, ReadLock, TempName, Consistent, ViewOf, Upsert, WithoutFile, EntryFor, FileAt;
      HasTree(env, run, id);
      if fault(RemoveLock) {
        Threw(r, RemoveLock);
      } else {
        tree := tree.(temps := tree.temps - {lockTemp});
        Took(Runs(id, ""));
      }
    }

    /** At step `k` of the run the manifest moved into place, both files being staged, and at the next the lock did. */
    ghost predicate ReplacedAt(k: nat, r: Request, name: string, lockName: string, modules: seq<LockEntry>)
      reads this
    {
      && 0 < k && k + 1 < |run| && StagedBoth(env, run[k - 1].tree, r, TempName(name), lockName, modules)
      && RenamedInOrder(env, run[k - 1].tree, run[k].tree, run[k + 1].tree, r, modules)
    }

    /**
     * Stages both files, renames the manifest and then the lock, and removes
     * what is left; nothing before the second rename touches the lock.
     */
    method ReplaceVendoredPair(r: Request, name: string, lockName: string, modules: seq<LockEntry>, fault: Pc -> bool)
      returns (done: bool)
      requires At(r, OpenManifest) && modules == Upsert(Me().entries, EntryFor(env, r))
      modifies this
      ensures At(r, Release(done)) && old(run) <= run && Since(id, old(now), now)
      ensures old(tree).Modules? && tree.Modules?
      ensures (exists k :: |old(run)| < k && ReplacedAt(k, r, name, lockName, modules)
                           && run[k - 1].tree.lock == old(tree).lock && tree.lock == run[k + 1].tree.lock)
              || (!done && tree.lock == old(tree).lock)
      ensures tree.vendorLock == old(tree).vendorLock
      ensures CleansUp(fault) && !fault(WriteLock) ==> tree.temps == old(tree).temps
      ensures CleansUp(fault) && !fault(WriteManifest) ==> FileAt(tree.bundled, r.manifest.slug, TempName(name)).None?
      ensures NoFault(fault) ==> (done <==> lockName !in old(tree).temps)
    {
      hide IsRun, RequestOk, Enabled, Apply, WithFile, WithoutFile, MkBundled, MkFolder, FileAt, TempName,
        ManifestFileFor, EntryFor, Upsert, ReadLock, ViewOf, Consistent, Permitted, Since, SetTree, Calls, NoFault,
        LockFileFor, StagedBoth, RenamedInOrder;
      ghost var start := now;
      var ok := StageManifest(r, name, fault);
      if !ok { return false; }
      ghost var mid := now;
      SinceKeeps(id, start, now);
      done := StageLockAndRename(r, name, lockName, modules, fault);
      SinceTransitive(id, start, mid, now);
    }

    /** From the staged manifest on. */
    method StageLockAndRename(r: Request, name: string, lockName: string, modules: seq<LockEntry>, fault: Pc -> bool)
      returns (done: bool)
      requires At(r, OpenLock) && modules == Upsert(Me().entries, EntryFor(env, r)) && Me().temp == TempName(name)
      requires tree.Modules?
      requires FileAt(tree.bundled, r.manifest.slug, TempName(name)) in {None, Some(RealFile(ManifestFileFor(env, r)))}
      modifies this
      ensures At(r, Release(done)) && old(run) <= run && Since(id, old(now), now) && tree.Modules?
      ensures (exists k :: |old(run)| <= k && ReplacedAt(k, r, name, lockName, modules)
                           && run[k - 1].tree.lock == old(tree).lock && tree.lock == run[k + 1].tree.lock)
              || (!done && tree.lock == old(tree).lock)
      ensures tree.vendorLock == old(tree).vendorLock
      ensures CleansUp(fault) && !fault(WriteLock) ==> tree.temps == old(tree).temps
      ensures CleansUp(fault) && !fault(WriteManifest) ==> FileAt(tree.bundled, r.manifest.slug, TempName(name)).None?
      ensures NoFault(fault) ==> (done <==> lockName !in old(tree).temps)
    {
      hide IsRun, RequestOk, Enabled, Apply, WithFile, WithoutFile, MkBundled, MkFolder, FileAt, TempName,
        ManifestFileFor, EntryFor, Upsert, ReadLock, ViewOf, Consistent, Permitted, Since, SetTree, Calls, NoFault,
        LockFileFor, StagedBoth, RenamedInOrder;
      ghost var start := now;
      var ok := StageLock(r, lockName, modules, fault);
      if !ok {
        ghost var mid := now;
        done := RemoveStaged(r, TempName(name), "", false, false, fault);
        SinceTransitive(id, start, mid, now);
        return;
      }
      done := RenameAndRemove(r, name, lockName, modules, start, fault);
    }

    method RenameAndRemove(r: Request, name: string, lockName: string, modules: seq<LockEntry>, ghost start: State,
                           fault: Pc -> bool)
      returns (done: bool)
      requires At(r, RenameManifest) && Me().temp == TempName(name) && Me().lockTemp == lockName
      requires Since(id, start, now) && tree.Modules?
      requires lockName in tree.temps && tree.temps[lockName] == LockFile(modules, env.lockSize(modules))
      requires FileAt(tree.bundled, r.manifest.slug, TempName(name)) in {None, Some(RealFile(ManifestFileFor(env, r)))}
      modifies this
      ensures At(r, Release(done)) && old(run) <= run && Since(id, start, now) && tree.Modules?
      ensures (ReplacedAt(|old(run)|, r, name, lockName, modules)
               && run[|old(run)| - 1].tree.lock == old(tree).lock && tree.lock == run[|old(run)| + 1].tree.lock)
              || (!done && tree.lock == old(tree).lock)
      ensures tree.vendorLock == old(tree).vendorLock
      ensures CleansUp(fault) ==>
        tree.temps == old(tree).temps - {lockName} && FileAt(tree.bundled, r.manifest.slug, TempName(name)).None?
      ensures NoFault(fault) ==> done
    {
      hide IsRun, RequestOk, Enabled, Apply, WithFile, WithoutFile, MkBundled, MkFolder, FileAt, TempName,
        ManifestFileFor, EntryFor, Upsert, ReadLock, ViewOf, Consistent, Permitted, Since, SetTree, Calls, NoFault,
        LockFileFor, StagedBoth, RenamedInOrder;
      ghost var k := |run|;
      ghost var mid := now;
      var ok := RenameBoth(r, TempName(name), lockName, modules, fault);
      SinceTransitive(id, start, mid, now);
      mid := now;
      done := RemoveStaged(r, TempName(name), lockName, ok, !ok, fault);
      SinceTransitive(id, start, mid, now);
    }

    /** The checks on the pinned entries, in order. */
    method MayReplace(entries: seq<LockEntry>, e: LockEntry) returns (ok: bool)
      requires VersionOk(e.version) && forall x | x in entries :: VersionOk(x.version)
      ensures ok <==> Permitted(env, entries, e)
      ensures ok <==>
        && (forall x | x in entries && x.slug == e.slug :: x.id == e.id)
        && (forall p | IsFirst(entries, e.id, p) ::
              && p.slug == e.slug && p.repository == e.repository && p.license == e.license
              && S.VersionBelow(p.version, e.version) && env.ancestor(p.commit, e.commit))
    {
      PermittedIsMayFollow(env, entries, e);
      hide VersionOk, S.VersionBelow, IsFirst;
      var existing := Pinned(entries, e.id);
      var slugOwner := Find(entries, (x: LockEntry) => x.slug == e.slug && x.id != e.id);
      if slugOwner.Some? { return false; }
      if existing.None? { return true; }
      var pinned := existing.value;
      if pinned.slug != e.slug || pinned.repository != e.repository || pinned.license != e.license { return false; }
      var order := CompareVersions(pinned.version, e.version);
      if order >= 0 { return false; }
      return env.ancestor(pinned.commit, e.commit);
    }

    method CompareVersions(left: string, right: string) returns (order: int)
      requires VersionOk(left) && VersionOk(right)
      ensures order == S.Order(left, right)
    {
      order := S.CompareSemver(left, right);
    }

    method ReadUnderLock(r: Request, fault: Pc -> bool) returns (entries: Option<seq<LockEntry>>)
      requires At(r, Read)
      modifies this
      ensures At(r, if entries.Some? then Verify else Release(false)) && old(run) <= run && tree == old(tree)
      ensures OnlyMine(old(now))
      ensures entries.Some? ==> Me().entries == entries.value && ReadLock(env, tree.Lock()) == entries
      ensures NoFault(fault) ==> (entries.Some? <==> ReadLock(env, tree.Lock()).Some?)
    {
      hide IsRun, RequestOk, ReadLock, Write;
      entries := ReadLock(env, tree.Lock());
      if fault(Read) || entries.None? {
        Threw(r, Read);
        return None;
      }
      Took(Runs(id, ""));
    }

    method VerifyUnderLock(r: Request, entries: seq<LockEntry>, fault: Pc -> bool) returns (ok: bool)
      requires At(r, Verify) && Me().entries == entries && ReadLock(env, tree.Lock()) == Some(entries)
      modifies this
      ensures At(r, if ok then MakeBundled else Release(false)) && old(run) <= run && tree == old(tree)
      ensures OnlyMine(old(now)) && (ok ==> Me().entries == entries && Me().before == tree)
      ensures NoFault(fault) ==> (ok <==> Accepts(env, tree, None, true) && Permitted(env, entries, EntryFor(env, r)))
    {
      hide IsRun, RequestOk, ReadLock, Consistent, Permitted, Write, EntryFor;
      var verified := VerifyVendoredModules(env, tree, None, true);
      ParsedVersions(env, tree, entries, r);
      ok := MayReplace(entries, EntryFor(env, r));
      if fault(Verify) || verified.Err? || !ok {
        Threw(r, Verify);
        return false;
      }
      Took(Runs(id, ""));
    }

    /** The two folders `mkdir` makes on the way to the target. */
    method MakeFolders(r: Request, fault: Pc -> bool) returns (ok: bool)
      requires At(r, MakeBundled)
      modifies this
      ensures At(r, if ok then OpenManifest else Release(false)) && old(run) <= run && Since(id, old(now), now)
      ensures old(tree).Modules? && tree.Modules? && tree == old(tree).(bundled := tree.bundled)
      ensures NoFault(fault) ==> ok
      ensures forall slug, name :: FileAt(tree.bundled, slug, name) == FileAt(old(tree).bundled, slug, name)
    {
      hide IsRun, RequestOk, Enabled, Apply, WithFile, WithoutFile, MkBundled, MkFolder, FileAt, TempName,
        ManifestFileFor, EntryFor, Upsert, ReadLock, ViewOf, Consistent, Permitted, Since, SetTree, Calls,
        LockFileFor, StagedBoth, RenamedInOrder;
      ghost var start := now;
      ok := MakeBundledFolder(r, fault);
      if ok {
        ghost var made := now;
        ok := MakeModuleFolder(r, fault);
        SinceTransitive(id, start, made, now);
      }
    }

    method MakeBundledFolder(r: Request, fault: Pc -> bool) returns (ok: bool)
      requires At(r, MakeBundled)
      modifies this
      ensures At(r, if ok then MakeFolder else Release(false)) && old(run) <= run && Since(id, old(now), now)
      ensures old(tree).Modules? && tree.Modules? && tree == old(tree).(bundled := tree.bundled)
      ensures NoFault(fault) ==> ok
      ensures forall slug, name :: FileAt(tree.bundled, slug, name) == FileAt(old(tree).bundled, slug, name)
    {
      hide IsRun, RequestOk;
      HasTree(env, run, id);
      hide Enabled, Apply, WithFile, WithoutFile, MkBundled, MkFolder, FileAt, TempName, ManifestFileFor, EntryFor,
        Upsert, ReadLock, ViewOf, Consistent, Permitted, Since, SetTree, LockFileFor, StagedBoth, RenamedInOrder;
      if fault(MakeBundled) {
        Threw(r, MakeBundled);
        return false;
      }
      forall slug, name { FoldersAddNoFile(tree.bundled, r.manifest.slug, slug, name); }
      MakeBundledCall(env, now, id, "");
      tree := tree.(bundled := MkBundled(tree.bundled));
      Ran(r, "", Me().(pc := MakeFolder, stage := Made));
      return true;
    }

    method MakeModuleFolder(r: Request, fault: Pc -> bool) returns (ok: bool)
      requires At(r, MakeFolder) && tree.Modules?
      modifies this
      ensures At(r, if ok then OpenManifest else Release(false)) && old(run) <= run && Since(id, old(now), now)
      ensures tree.Modules? && tree == old(tree).(bundled := tree.bundled) && (NoFault(fault) ==> ok)
      ensures forall slug, name :: FileAt(tree.bundled, slug, name) == FileAt(old(tree).bundled, slug, name)
    {
      hide IsRun, RequestOk, Enabled, Apply, WithFile, WithoutFile, MkBundled, MkFolder, FileAt, TempName,
        ManifestFileFor, EntryFor, Upsert, ReadLock, ViewOf, Consistent, Permitted, Since, SetTree, LockFileFor,
        StagedBoth, RenamedInOrder;
      if fault(MakeFolder) {
        Threw(r, MakeFolder);
        return false;
      }
      forall slug, name { FoldersAddNoFile(tree.bundled, r.manifest.slug, slug, name); }
      MakeFolderCall(env, now, id, "");
      tree := tree.(bundled := MkFolder(tree.bundled, r.manifest.slug));
      Ran(r, "", Me().(pc := OpenManifest, stage := Foldered));
      return true;
    }

    /** The `try` block of `vendorModule`. */
    method UnderLock(r: Request, name: string, lockName: string, fault: Pc -> bool) returns (done: bool)
      requires At(r, Read)
      modifies this
      ensures At(r, Release(done)) && old(run) <= run && (done ==> Me().before == old(tree)) && OnlyMine(old(now))
      ensures old(tree).Modules? ==> tree.Modules? && tree.vendorLock == old(tree).vendorLock
      ensures CleansUp(fault) ==> NothingLeft(old(tree), tree, r.manifest.slug, TempName(name), fault)
      ensures NoFault(fault) ==>
        (done <==> Accepts(env, old(tree), None, true) && old(tree).Modules? && lockName !in old(tree).temps
                   && Permitted(env, ReadLock(env, old(tree).Lock()).value, EntryFor(env, r)))
    {
      hide IsRun, RequestOk, Enabled, Apply, WithFile, WithoutFile, MkBundled, MkFolder, FileAt, TempName,
        ManifestFileFor, EntryFor, Upsert, ReadLock, ViewOf, Permitted, Since, SetTree, Calls, NoFault, LockFileFor,
        StagedBoth, RenamedInOrder;
      var entries := ReadUnderLock(r, fault);
      if entries.None? { return false; }
      var ok := VerifyUnderLock(r, entries.value, fault);
      if !ok { return false; }
      ghost var verified := now;
      done := WriteUnderLock(r, name, lockName, entries.value, fault);
      SinceKeeps(id, verified, now);
    }

    /** All the writing: the folders, and the two files. */
    method WriteUnderLock(r: Request, name: string, lockName: string, entries: seq<LockEntry>, fault: Pc -> bool)
      returns (done: bool)
      requires At(r, MakeBundled) && Me().entries == entries
      modifies this
      ensures At(r, Release(done)) && old(run) <= run && Since(id, old(now), now)
      ensures old(tree).Modules? && tree.Modules? && tree.vendorLock == old(tree).vendorLock
      ensures CleansUp(fault) ==> NothingLeft(old(tree), tree, r.manifest.slug, TempName(name), fault)
      ensures NoFault(fault) ==> (done <==> lockName !in old(tree).temps)
    {
      hide IsRun, RequestOk, Enabled, Apply, WithFile, WithoutFile, MkBundled, MkFolder, FileAt, TempName,
        ManifestFileFor, EntryFor, Upsert, ReadLock, ViewOf, Consistent, Permitted, Since, SetTree, Calls, NoFault,
        LockFileFor, StagedBoth, RenamedInOrder;
      ghost var start := now;
      done := MakeFolders(r, fault);
      if done {
        ghost var made := now;
        SinceKeeps(id, start, now);
        done := ReplaceVendoredPair(r, name, lockName, Upsert(entries, EntryFor(env, r)), fault);
        SinceTransitive(id, start, made, now);
      }
    }

    ghost predicate OnlyMine(s: State)
      reads this
    {
      s.commits <= now.commits && forall k | |s.commits| <= k < |now.commits| :: now.commits[k].0 == id
    }

    method MakeModulesFolder(r: Request, fault: Pc -> bool) returns (ok: bool)
      requires At(r, MakeModules)
      modifies this
      ensures At(r, if ok then OpenVendorLock else Failed) && old(run) <= run && Since(id, old(now), now)
      ensures ok ==> tree == Opened(old(tree)) && tree.Modules?
      ensures !ok ==> tree == old(tree)
      ensures NoFault(fault) ==> (ok <==> Opened(old(tree)).Modules?)
    {
      hide IsRun, RequestOk;
      if fault(MakeModules) || tree.NoRoot? || tree.OddModules? {
        Threw(r, MakeModules);
        return false;
      }
      if tree.NoModules? { tree := Modules(None, None, map[], NoBundled); }
      Took(Runs(id, ""));
      return true;
    }

    /**
     * `vendorModule`: whatever calls fail, it makes a run of the machine and
     * returns an entry exactly when that run ends in success; a tree that
     * verifies afterwards is the last committed version or that version with
     * this entry; a success verifies exactly if `ReadsBack`; and if no call
     * fails it succeeds exactly if `WillSucceed`.
     */
    method VendorModule(r: Request, name: string, lockName: string, fault: Pc -> bool)
      returns (entry: Option<LockEntry>)
      requires Synced() && id !in now.procs
      modifies this
      ensures Synced() && old(run) <= run && old(now).history != []
      ensures entry.Some? ==> RequestOk(env, r) && entry.value == EntryFor(env, r) && At(r, Done)
      ensures entry.None? ==> tree == old(tree) || At(r, Failed)
      ensures Consistent(env, tree) ==>
        || ViewOf(tree) == Last(old(now))
        || (RequestOk(env, r) && Commits(env, Last(old(now)), ViewOf(tree), EntryFor(env, r)))
      ensures entry.Some? && Digests(env) ==>
        && Commits(env, old(ViewOf(tree)), ViewOf(tree), entry.value)
        && (Accepts(env, tree, None, false) <==> ReadsBack(env, old(ViewOf(tree)), entry.value, r.manifest))
      ensures CleansUp(fault) ==> NothingLeft(old(tree), tree, r.manifest.slug, TempName(name), fault)
      ensures NoFault(fault) ==> (entry.Some? <==> WillSucceed(env, old(tree), r, lockName))
    {
      hide IsRun, Inv, RequestOk, Commits, ReadsBack, Accepts, Consistent, EntryFor, NoFault;
      ghost var start := |run| - 1;
      HistoryLength(env, run, start);
      if RequestOk(env, r) {
        Took(Launch(id, r));
        entry := Attempt(r, name, lockName, fault);
      } else {
        entry := None;
      }
      if Consistent(env, tree) { OldOrNew(env, run, start, |run| - 1, id); }
    }

    /**
     * The first module, with no call failing, from a repository given by host
     * and path: it succeeds, and the tree verifies exactly if the path is not
     * unstable and both files are within the readers' limits.
     */
    method VendorFirst(r: Request, host: string, path: string, name: string, lockName: string)
      returns (entry: LockEntry)
      requires Synced() && id !in now.procs && tree.NoModules? && RequestOk(env, r) && Digests(env)
      requires U.ReadsPaths(env.repository, host) && U.PathText(path) && r.source == U.Url(host, path)
      modifies this
      ensures Synced() && At(r, Done) && entry == EntryFor(env, r)
      ensures Accepts(env, tree, None, false) <==>
        !U.Unstable(path) && env.manifestSize(r.manifest) <= MANIFEST_BYTES && env.lockSize([entry]) <= LOCK_BYTES
    {
      FirstSucceeds(env, r, lockName);
      FirstEntry(env, r, host, path);
      hide IsRun, Accepts, Commits, WillSucceed, Opened, ReadLock, Upsert, Digests, RequestOk, EntryFor, ViewOf,
        Consistent, U.ReadsPaths, U.PathText, U.Unstable, U.Url;
      var vendored := VendorModule(r, name, lockName, _ => false);
      return vendored.value;
    }

    /** Everything after the command line has been checked. */
    method Attempt(r: Request, name: string, lockName: string, fault: Pc -> bool) returns (entry: Option<LockEntry>)
      requires At(r, MakeModules)
      modifies this
      ensures At(r, if entry.Some? then Done else Failed) && old(run) <= run && OnlyMine(old(now))
      ensures entry.Some? ==> entry.value == EntryFor(env, r)
      ensures entry.Some? && Digests(env) ==>
        && Commits(env, old(ViewOf(tree)), ViewOf(tree), entry.value)
        && (Accepts(env, tree, None, false) <==> ReadsBack(env, old(ViewOf(tree)), entry.value, r.manifest))
      ensures CleansUp(fault) ==> NothingLeft(old(tree), tree, r.manifest.slug, TempName(name), fault)
      ensures NoFault(fault) ==> (entry.Some? <==> WillSucceed(env, old(tree), r, lockName))
    {
      hide IsRun, RequestOk, Commits, ReadsBack, Apply, EntryFor, NoFault, Consistent, Permitted, ReadLock, Accepts,
        WillSucceed, Opened, ViewOf, NothingLeft, TempName;
      SuccessMeans(env, tree, r, lockName, id);
      OpenedLeaves(tree, r.manifest.slug, TempName(name), fault);
      var ok := MakeModulesFolder(r, fault);
      if !ok { return None; }
      ok := AcquireVendorLock(r, fault);
      if !ok { return None; }
      entry := HoldingLock(r, name, lockName, fault);
    }

    /** From reading the lock to releasing the vendor lock. */
    method HoldingLock(r: Request, name: string, lockName: string, fault: Pc -> bool) returns (entry: Option<LockEntry>)
      requires At(r, Read)
      modifies this
      ensures At(r, if entry.Some? then Done else Failed) && old(run) <= run && OnlyMine(old(now))
      ensures entry.Some? ==> entry.value == EntryFor(env, r)
      ensures entry.Some? && Digests(env) ==>
        && Commits(env, old(ViewOf(tree)), ViewOf(tree), entry.value)
        && (Accepts(env, tree, None, false) <==> ReadsBack(env, old(ViewOf(tree)), entry.value, r.manifest))
      ensures old(tree).Modules? && CleansUp(fault) ==>
        NothingLeft(old(tree).(vendorLock := None), tree, r.manifest.slug, TempName(name), fault)
      ensures NoFault(fault) ==>
        (entry.Some? <==> Accepts(env, old(tree), None, true) && old(tree).Modules? && lockName !in old(tree).temps
                          && Permitted(env, ReadLock(env, old(tree).Lock()).value, EntryFor(env, r)))
    {
      hide IsRun, RequestOk, Commits, ReadsBack, Apply, EntryFor, NoFault, Consistent, Permitted, ReadLock, ViewOf;
      var done := UnderLock(r, name, lockName, fault);
      if done && Digests(env) { SuccessVerifies(env, run, |run| - 1, id); }
      var ok := ReleaseVendorLock(r, fault, done);
      entry := if ok then Some(EntryFor(env, r)) else None;
    }
  }
}
