/**
 * `vendorModule`, `acquireVendorLock` and `replaceVendoredPair` of
 * scripts/modules-cli.ts as a transition system: any number of processes over
 * one tree, each file-system call one step that may succeed, throw, or be the
 * last thing its process does.
 */
module Vendoring {
  import opened Common
  import opened ModuleLock
  import opened VendoredModules
  import S = Semver

  // ---- one vendor operation ----

  /** The command line and the manifest proven to be the blob at `commit`. */
  datatype Request = Request(manifest: Manifest, source: string, commit: string, license: string)

  predicate RequestOk(env: Env, r: Request) {
    ManifestOk(r.manifest) && env.repository(r.source).Some? && CommitOk(r.commit) && LicenseOk(r.license)
  }

  function EntryFor(env: Env, r: Request): LockEntry
    requires RequestOk(env, r)
  {
    LockEntry(r.manifest.id, r.manifest.slug, r.manifest.version, env.digest(r.manifest), ManifestPath(r.manifest.slug),
              env.repository(r.source).value, r.commit, r.license)
  }

  /** The checks between preflight verification and the first write; `entries` have been parsed. */
  predicate Permitted(env: Env, entries: seq<LockEntry>, e: LockEntry) {
    && VersionOk(e.version) && (forall x | x in entries :: VersionOk(x.version))
    && Find(entries, (x: LockEntry) => x.slug == e.slug && x.id != e.id).None?
    && match Pinned(entries, e.id)
       case None => true
       case Some(existing) => Extends(env, existing, e)
  }

  /** What a pinned module may become. */
  predicate Extends(env: Env, pinned: LockEntry, e: LockEntry)
    requires VersionOk(pinned.version) && VersionOk(e.version)
  {
    && pinned.slug == e.slug && pinned.repository == e.repository && pinned.license == e.license
    && S.Order(pinned.version, e.version) < 0 && env.ancestor(pinned.commit, e.commit)
  }

  /**
   * Nobody else has the slug, and what is pinned under the id, if anything, has
   * this entry's slug, repository and license, a version below this one's, and a
   * commit this one's descends from.
   */
  ghost predicate MayFollow(env: Env, entries: seq<LockEntry>, e: LockEntry) {
    && (forall x | x in entries && x.slug == e.slug :: x.id == e.id)
    && (forall p | IsFirst(entries, e.id, p) :: Follows(env, p, e))
  }

  lemma PermittedIsMayFollow(env: Env, entries: seq<LockEntry>, e: LockEntry)
    requires VersionOk(e.version) && forall x | x in entries :: VersionOk(x.version)
    ensures Permitted(env, entries, e) <==> MayFollow(env, entries, e)
  {
    PinnedMeans(entries, e.id);
    FirstMayFollow(env, entries, e);
    hide VersionOk, Extends, S.VersionBelow, Pinned, IsFirst;
    if Pinned(entries, e.id).Some? { ExtendsMeans(env, Pinned(entries, e.id).value, e); }
  }

  lemma ExtendsMeans(env: Env, p: LockEntry, e: LockEntry)
    requires VersionOk(p.version) && VersionOk(e.version)
    ensures Extends(env, p, e) <==> Follows(env, p, e)
  {
    S.OrderIsVersionBelow(p.version, e.version);
    hide VersionOk, S.Order, S.VersionBelow;
  }

  ghost predicate Follows(env: Env, p: LockEntry, e: LockEntry) {
    && p.slug == e.slug && p.repository == e.repository && p.license == e.license
    && S.VersionBelow(p.version, e.version) && env.ancestor(p.commit, e.commit)
  }

  /** There is at most one first. */
  lemma FirstMayFollow(env: Env, entries: seq<LockEntry>, e: LockEntry)
    ensures (forall p | IsFirst(entries, e.id, p) :: Follows(env, p, e)) <==>
      (Pinned(entries, e.id).Some? ==> Follows(env, Pinned(entries, e.id).value, e))
  {
    PinnedMeans(entries, e.id);
    if Pinned(entries, e.id).Some? {
      forall q | IsFirst(entries, e.id, q) ensures q == Pinned(entries, e.id).value {
        FirstIsOne(entries, e.id, Pinned(entries, e.id).value, q);
      }
    }
    hide Follows, Pinned;
  }

  // ---- processes ----

  /** The call a process makes next. */
  datatype Pc =
    | MakeModules | OpenVendorLock | WriteVendorLock | Read | Verify
    | MakeBundled | MakeFolder | OpenManifest | WriteManifest | OpenLock | WriteLock | RenameManifest | RenameLock
    | RemoveManifest(ok: bool, staged: bool) | RemoveLock | Release(ok: bool)
    | Done | Failed | Dead

  /** What the holder has done to `bundled` and the lock since verifying. */
  datatype Stage = Unverified | Untouched | Made | Foldered | Staged(file: File) | Placed | Committed

  /**
   * `entries`, `temp` and `lockTemp` are the program's variables; `before` (the
   * tree it verified) and `stage` are bookkeeping.
   */
  datatype Proc = Proc(
    request: Request, pc: Pc, entries: seq<LockEntry>, temp: string, lockTemp: string, before: Tree, stage: Stage)
  {
    predicate Live() { !pc.Done? && !pc.Failed? && !pc.Dead? }

    predicate Holds() { Live() && !pc.MakeModules? && !pc.OpenVendorLock? }

    /** Past preflight: only these write under `bundled`. */
    predicate Writing() { Holds() && !stage.Unverified? }
  }

  /** What readers of the tree see: temporary files and the vendor lock aside, an absent folder like an empty one. */
  datatype View = View(lock: Option<Node>, bundled: Bundled)

  function ViewOf(tree: Tree): View {
    View(tree.Lock(), if tree.Bundle().NoBundled? then BundledFolder(map[]) else tree.Bundle())
  }

  /**
   * `history` and `commits` are bookkeeping: the first view, then the view after
   * each lock rename, with the process and entry that made it.
   */
  datatype State = State(tree: Tree, procs: map<nat, Proc>, history: seq<View>, commits: seq<(nat, LockEntry)>)

  function Last(s: State): View
    requires s.history != []
  {
    s.history[|s.history| - 1]
  }

  ghost predicate Initial(s: State) {
    s.procs == map[] && s.history == [ViewOf(s.tree)] && s.commits == []
  }

  // ---- the file-system calls ----

  /** Staged manifests are hidden files next to their target. */
  function TempName(name: string): (r: string)
    ensures r != MANIFEST_NAME
  {
    assert ("." + MANIFEST_NAME)[0] == '.';
    "." + MANIFEST_NAME + "." + name + ".tmp"
  }

  function WithFile(bundled: Bundled, slug: string, name: string, node: Node): Bundled {
    if bundled.BundledFolder? && slug in bundled.children && bundled.children[slug].Folder?
    then BundledFolder(bundled.children[slug := Folder(bundled.children[slug].files[name := node])])
    else bundled
  }

  function WithoutFile(bundled: Bundled, slug: string, name: string): Bundled {
    if bundled.BundledFolder? && slug in bundled.children && bundled.children[slug].Folder?
    then BundledFolder(bundled.children[slug := Folder(bundled.children[slug].files - {name})])
    else bundled
  }

  function MkBundled(bundled: Bundled): Bundled {
    if bundled.NoBundled? then BundledFolder(map[]) else bundled
  }

  function MkFolder(bundled: Bundled, slug: string): Bundled {
    if bundled.BundledFolder? && slug !in bundled.children
    then BundledFolder(bundled.children[slug := Folder(map[])]) else bundled
  }

  function FileAt(bundled: Bundled, slug: string, name: string): Option<Node> {
    if bundled.BundledFolder? && slug in bundled.children then FileIn(bundled.children[slug], name) else None
  }

  function ManifestFileFor(env: Env, r: Request): File { ManifestFile(r.manifest, env.manifestSize(r.manifest)) }

  function LockFileFor(env: Env, p: Proc): File
    requires RequestOk(env, p.request)
  {
    var modules := Upsert(p.entries, EntryFor(env, p.request));
    LockFile(modules, env.lockSize(modules))
  }

  // ---- one step of a process ----

  function Set(s: State, id: nat, p: Proc): State { s.(procs := s.procs[id := p]) }

  function SetTree(s: State, tree: Tree, id: nat, p: Proc): State { s.(tree := tree, procs := s.procs[id := p]) }

  /** Where a throw at each call leads: the `finally` blocks that enclose it. */
  function AfterThrow(pc: Pc): Pc {
    match pc
    case MakeModules => Failed
    case OpenVendorLock => Failed
    case OpenLock => RemoveManifest(false, false)
    case WriteLock => RemoveManifest(false, false)
    case RenameManifest => RemoveManifest(false, true)
    case RenameLock => RemoveManifest(false, true)
    case Release(_) => Failed
    case Done => Done
    case Failed => Failed
    case Dead => Dead
    case _ => Release(false)
  }

  function Throw(s: State, id: nat): State
    requires id in s.procs
  {
    Set(s, id, s.procs[id].(pc := AfterThrow(s.procs[id].pc)))
  }

  /** The call at `pc` runs; `name` is the fresh part of a temporary file's name. */
  ghost function Proceed(env: Env, s: State, id: nat, name: string): State
    requires id in s.procs && s.procs[id].Live() && RequestOk(env, s.procs[id].request)
  {
    var p := s.procs[id];
    var t := s.tree;
    match p.pc
    case MakeModules =>
      if t.NoModules? then SetTree(s, Modules(None, None, map[], NoBundled), id, p.(pc := OpenVendorLock))
      else if t.Modules? then Set(s, id, p.(pc := OpenVendorLock))
      else Throw(s, id)
    case OpenVendorLock =>
      if t.Modules? && t.vendorLock.None? then SetTree(s, t.(vendorLock := Some(id)), id, p.(pc := WriteVendorLock))
      else Throw(s, id)
    case WriteVendorLock => Set(s, id, p.(pc := Read))
    case Read =>
      match ReadLock(env, t.Lock()) {
        case Some(entries) => Set(s, id, p.(pc := Verify, entries := entries))
        case None => Throw(s, id)
      }
    case Verify => AfterVerify(env, s, id)
    case _ => if t.Modules? then Write(env, s, id, name) else Throw(s, id)
  }

  ghost function AfterVerify(env: Env, s: State, id: nat): State
    requires id in s.procs && RequestOk(env, s.procs[id].request)
  {
    var p := s.procs[id];
    if Passes(env, s.tree, p) then Set(s, id, p.(pc := MakeBundled, before := s.tree, stage := Untouched))
    else Throw(s, id)
  }

  /** `verifyVendoredModules` accepts and the entry may go in. */
  ghost predicate Passes(env: Env, tree: Tree, p: Proc)
    requires RequestOk(env, p.request)
  {
    Accepts(env, tree, None, true) && Permitted(env, p.entries, EntryFor(env, p.request))
  }

  /** Every call after preflight. */
  function Write(env: Env, s: State, id: nat, name: string): State
    requires id in s.procs && RequestOk(env, s.procs[id].request) && s.tree.Modules?
  {
    var p := s.procs[id];
    var t := s.tree;
    var slug := p.request.manifest.slug;
    match p.pc
    case MakeBundled =>
      SetTree(s, t.(bundled := MkBundled(t.bundled)), id, p.(pc := MakeFolder, stage := Made))
    case MakeFolder =>
      SetTree(s, t.(bundled := MkFolder(t.bundled, slug)), id, p.(pc := OpenManifest, stage := Foldered))
    case OpenManifest =>
      if FileAt(t.bundled, slug, TempName(name)).Some? then Throw(s, id)
      else SetTree(s, t.(bundled := WithFile(t.bundled, slug, TempName(name), RealFile(OtherFile(0)))), id,
                   p.(pc := WriteManifest, temp := TempName(name), stage := Staged(OtherFile(0))))
    case WriteManifest =>
      var file := ManifestFileFor(env, p.request);
      SetTree(s, t.(bundled := WithFile(t.bundled, slug, p.temp, RealFile(file))), id,
              p.(pc := OpenLock, stage := Staged(file)))
    case OpenLock =>
      if name in t.temps then Throw(s, id)
      else SetTree(s, t.(temps := t.temps[name := OtherFile(0)]), id, p.(pc := WriteLock, lockTemp := name))
    case WriteLock =>
      SetTree(s, t.(temps := t.temps[p.lockTemp := LockFileFor(env, p)]), id, p.(pc := RenameManifest))
    case RenameManifest =>
      match FileAt(t.bundled, slug, p.temp) {
        case None => Throw(s, id)
        case Some(node) =>
          SetTree(s, t.(bundled := WithFile(WithoutFile(t.bundled, slug, p.temp), slug, MANIFEST_NAME, node)), id,
                  p.(pc := RenameLock, stage := Placed))
      }
    case RenameLock => if p.lockTemp in t.temps then Commit(env, s, id) else Throw(s, id)
    case RemoveManifest(ok, staged) =>
      SetTree(s, t.(bundled := WithoutFile(t.bundled, slug, p.temp)), id,
              p.(pc := if staged then RemoveLock else Release(ok),
                 stage := if p.stage.Staged? then Foldered else p.stage))
    case RemoveLock => SetTree(s, t.(temps := t.temps - {p.lockTemp}), id, p.(pc := Release(false)))
    case Release(ok) => SetTree(s, t.(vendorLock := None), id, p.(pc := if ok then Done else Failed))
    case _ => s
  }

  /** The lock rename: the commit point. */
  function Commit(env: Env, s: State, id: nat): State
    requires id in s.procs && RequestOk(env, s.procs[id].request) && s.tree.Modules?
    requires s.procs[id].lockTemp in s.tree.temps
  {
    var p := s.procs[id];
    var t := s.tree.(lock := Some(RealFile(s.tree.temps[p.lockTemp])), temps := s.tree.temps - {p.lockTemp});
    State(t, s.procs[id := p.(pc := RemoveManifest(true, false), stage := Committed)],
          s.history + [ViewOf(t)], s.commits + [(id, EntryFor(env, p.request))])
  }

  // ---- all steps ----

  /**
   * `ClearVendorLock` and `Restore` are an operator cleaning up after a crash:
   * deleting the vendor lock, and putting the last committed version back.
   */
  datatype Step =
    | Launch(id: nat, request: Request)
    | Runs(id: nat, name: string)
    | Throws(id: nat)
    | Crashes(id: nat)
    | ClearVendorLock
    | Restore

  ghost predicate Held(s: State) {
    exists id :: id in s.procs && s.procs[id].Holds()
  }

  ghost predicate Enabled(env: Env, s: State, step: Step) {
    match step
    case Launch(id, request) => id !in s.procs && RequestOk(env, request)
    case Runs(id, name) => id in s.procs && s.procs[id].Live() && RequestOk(env, s.procs[id].request)
    case Throws(id) => id in s.procs && s.procs[id].Live()
    case Crashes(id) => id in s.procs && s.procs[id].Live()
    case ClearVendorLock => s.tree.Modules? && !Held(s)
    case Restore => s.tree.Modules? && !Held(s) && s.history != []
  }

  ghost function Apply(env: Env, s: State, step: Step): State
    requires Enabled(env, s, step)
  {
    match step
    case Launch(id, request) => Set(s, id, Proc(request, MakeModules, [], "", "", NoRoot, Unverified))
    case Runs(id, name) => Proceed(env, s, id, name)
    case Throws(id) => Throw(s, id)
    case Crashes(id) => Set(s, id, s.procs[id].(pc := Dead))
    case ClearVendorLock => s.(tree := s.tree.(vendorLock := None))
    case Restore => s.(tree := s.tree.(lock := Last(s).lock, bundled := Last(s).bundled))
  }

  ghost predicate Next(env: Env, s: State, after: State) {
    exists step :: Enabled(env, s, step) && after == Apply(env, s, step)
  }

  ghost predicate FollowsAt(env: Env, run: seq<State>, i: nat)
    requires 0 < i < |run|
  {
    Next(env, run[i - 1], run[i])
  }

  ghost predicate IsRun(env: Env, run: seq<State>) {
    run != [] && Initial(run[0]) && forall i | 0 < i < |run| :: FollowsAt(env, run, i)
  }
}
