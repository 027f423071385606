/** What holds on every run of any number of vendor processes, crashes and clean-ups included. */
module VendoringTheorems {
  import opened Common
  import opened ModuleLock
  import opened VendoredModules
  import opened Vendoring
  import opened VendoringProof
  import S = Semver

  // ---- one committed version and the next ----

  function TreeOf(v: View): Tree { Modules(None, v.lock, map[], v.bundled) }

  /** The entries a lock file lists. */
  function Entries(v: View): seq<LockEntry> {
    match v.lock
    case Some(RealFile(LockFile(entries, _))) => entries
    case _ => []
  }

  function Children(v: View): map<string, Child> { if v.bundled.BundledFolder? then v.bundled.children else map[] }

  /** An entry as `vendorModule` builds it: everything checked but that the repository is canonical again. */
  predicate FreshEntry(env: Env, e: LockEntry, m: Manifest) {
    && ManifestOk(m) && Agrees(env, e, m) && e.path == ManifestPath(m.slug) && CommitOk(e.commit)
    && LicenseOk(e.license)
  }

  /** `w` is `v`, which verified, with one entry and its artifact put in or replaced. */
  ghost predicate Commits(env: Env, v: View, w: View, e: LockEntry) {
    && Consistent(env, TreeOf(v)) && Permitted(env, Entries(v), e)
    && w.lock == Some(RealFile(LockFile(Upsert(Entries(v), e), env.lockSize(Upsert(Entries(v), e)))))
    && w.bundled.BundledFolder?
    && exists m: Manifest :: AddsManifest(env, v, w, e, m)
  }

  ghost predicate AddsManifest(env: Env, v: View, w: View, e: LockEntry, m: Manifest) {
    FreshEntry(env, e, m) && Children(w) == Children(v)[e.slug := OneManifest(env, m)]
  }

  function OneManifest(env: Env, m: Manifest): Child {
    Folder(map[MANIFEST_NAME := RealFile(ManifestFile(m, env.manifestSize(m)))])
  }

  // ---- the history ----

  ghost predicate Recorded(env: Env, s: State) {
    && |s.history| == |s.commits| + 1
    && forall k | 0 <= k < |s.commits| :: Commits(env, s.history[k], s.history[k + 1], s.commits[k].1)
  }

  /** Each process commits at most once, its own entry, and is marked as having done so. */
  ghost predicate Credited(env: Env, s: State) {
    && (forall k | 0 <= k < |s.commits| :: CreditedAt(env, s, k))
    && (forall j, k | 0 <= j < k < |s.commits| :: s.commits[j].0 != s.commits[k].0)
    && (forall id | id in s.procs && s.procs[id].stage.Committed? :: HasCommit(s, id))
  }

  ghost predicate CreditedAt(env: Env, s: State, k: nat)
    requires k < |s.commits|
  {
    var (id, e) := s.commits[k];
    && id in s.procs && s.procs[id].stage.Committed? && RequestOk(env, s.procs[id].request)
    && e == EntryFor(env, s.procs[id].request)
  }

  ghost predicate HasCommit(s: State, id: nat) {
    exists k :: 0 <= k < |s.commits| && s.commits[k].0 == id
  }

  ghost predicate Inv(env: Env, s: State) {
    TreeInv(env, s) && Recorded(env, s) && Credited(env, s)
  }

  lemma InitialInv(env: Env, s: State)
    requires Initial(s)
    ensures Inv(env, s)
  {
    hide Consistent;
  }

  /** Nothing but the lock rename touches the history. */
  ghost predicate Uneventful(s: State, after: State) {
    && after.history == s.history && after.commits == s.commits
    && (forall id | id in s.procs :: id in after.procs && after.procs[id].request == s.procs[id].request
          && (after.procs[id].stage.Committed? <==> s.procs[id].stage.Committed?))
    && (forall id | id in after.procs && after.procs[id].stage.Committed? :: id in s.procs)
  }

  predicate IsCommit(s: State, step: Step) {
    step.Runs? && step.id in s.procs && s.procs[step.id].pc.RenameLock?
  }

  lemma WriteUneventful(env: Env, s: State, id: nat, name: string)
    requires id in s.procs && RequestOk(env, s.procs[id].request) && s.tree.Modules?
    requires StageAt(env, s.procs[id]) && !s.procs[id].pc.RenameLock?
    ensures Uneventful(s, Write(env, s, id, name))
  {
    hide Uneventful, Write, RequestOk, StageAt;
    var pc := s.procs[id].pc;
    if pc.RemoveManifest? || pc.RemoveLock? || pc.Release? { CleanUneventful(env, s, id, name); }
    else { StagingUneventful(env, s, id, name); }
  }

  lemma CleanUneventful(env: Env, s: State, id: nat, name: string)
    requires id in s.procs && RequestOk(env, s.procs[id].request) && s.tree.Modules? && StageAt(env, s.procs[id])
    requires s.procs[id].pc.RemoveManifest? || s.procs[id].pc.RemoveLock? || s.procs[id].pc.Release?
    ensures Uneventful(s, Write(env, s, id, name))
  {
    hide RequestOk, Upsert, WithFile, WithoutFile, MkBundled, MkFolder, FileAt, ManifestFileFor, LockFileFor;
  }

  lemma StagingUneventful(env: Env, s: State, id: nat, name: string)
    requires id in s.procs && RequestOk(env, s.procs[id].request) && s.tree.Modules? && StageAt(env, s.procs[id])
    requires !s.procs[id].pc.RenameLock? && !s.procs[id].pc.RemoveManifest? && !s.procs[id].pc.RemoveLock?
    requires !s.procs[id].pc.Release?
    ensures Uneventful(s, Write(env, s, id, name))
  {
    hide RequestOk, Upsert, WithFile, WithoutFile, MkBundled, MkFolder, FileAt, ManifestFileFor, LockFileFor,
      TempName, Uneventful;
    OnlyProcChanged(s, id, Write(env, s, id, name));
  }

  lemma OnlyProcChanged(s: State, id: nat, after: State)
    requires id in s.procs && after.history == s.history && after.commits == s.commits
    requires id in after.procs && after.procs == s.procs[id := after.procs[id]]
    requires after.procs[id].request == s.procs[id].request
    requires after.procs[id].stage.Committed? <==> s.procs[id].stage.Committed?
    ensures Uneventful(s, after)
  {
  }

  lemma ProceedUneventful(env: Env, s: State, id: nat, name: string)
    requires id in s.procs && s.procs[id].Live() && RequestOk(env, s.procs[id].request)
    requires StageAt(env, s.procs[id]) && !s.procs[id].pc.RenameLock?
    ensures Uneventful(s, Proceed(env, s, id, name))
  {
    hide RequestOk, ReadLock, Passes, Write;
    if s.tree.Modules? { WriteUneventful(env, s, id, name); }
  }

  lemma OtherSteps(env: Env, s: State, step: Step)
    requires TreeInv(env, s) && Enabled(env, s, step) && !IsCommit(s, step)
    ensures Uneventful(s, Apply(env, s, step))
  {
    hide RequestOk, ReadLock, WriterOk, Proceed, Safe, Exclusive;
    if step.Runs? {
      assert ProcOk(env, s.tree, Last(s), s.procs[step.id]);
      ProceedUneventful(env, s, step.id, step.name);
    }
  }

  lemma UneventfulKeeps(env: Env, s: State, after: State)
    requires Recorded(env, s) && Credited(env, s) && Uneventful(s, after)
    ensures Recorded(env, after) && Credited(env, after)
  {
    hide Commits, RequestOk;
    forall k | 0 <= k < |after.commits| ensures CreditedAt(env, after, k) {
      assert CreditedAt(env, s, k);
    }
    forall id | id in after.procs && after.procs[id].stage.Committed? ensures HasCommit(after, id) {
      assert HasCommit(s, id);
    }
  }

  // ---- the commit ----

  /** Consistency does not tell an absent `bundled` from an empty one. */
  lemma ViewReading(env: Env, tree: Tree)
    requires tree.Modules?
    ensures Consistent(env, TreeOf(ViewOf(tree))) <==> Consistent(env, tree)
  {
    var other := TreeOf(ViewOf(tree));
    assert other.Children() == tree.Children();
    forall slug ensures ManifestAt(other, slug) == ManifestAt(tree, slug) {}
  }

  lemma ReadIsEntries(env: Env, v: View)
    requires ReadLock(env, v.lock).Some?
    ensures ReadLock(env, v.lock) == Some(Entries(v))
  {
  }

  lemma NewChildren(env: Env, p: Proc)
    requires RequestOk(env, p.request) && Grounded(env, p) && (p.stage.Placed? || p.stage.Committed?)
    ensures BundledAt(env, p).BundledFolder?
    ensures BundledAt(env, p).children == Children(ViewOf(p.before))[Slug(p) := OneManifest(env, p.request.manifest)]
  {
    hide RequestOk, MayAdd, OneManifest, WithFolder;
    PreparedFolder(env, p);
    OneManifestIs(env, p.request);
    var node := RealFile(ManifestFileFor(env, p.request));
    OnlyFile(Prepared(p).children[Slug(p)].files, node);
    SameOthers(p.before.Children(), Prepared(p).children, Slug(p), OneManifest(env, p.request.manifest));
  }

  lemma OnlyFile(files: map<string, Node>, node: Node)
    requires files.Keys <= {MANIFEST_NAME}
    ensures files[MANIFEST_NAME := node] == map[MANIFEST_NAME := node]
  {
  }

  lemma SameOthers(a: map<string, Child>, b: map<string, Child>, slug: string, child: Child)
    requires forall x | x != slug :: x in b <==> x in a
    requires forall x | x in a :: x in b && b[x] == a[x]
    ensures b[slug := child] == a[slug := child]
  {
  }

  lemma OneManifestIs(env: Env, r: Request)
    ensures OneManifest(env, r.manifest) == Folder(map[MANIFEST_NAME := RealFile(ManifestFileFor(env, r))])
  {
  }

  lemma FreshIs(env: Env, r: Request)
    requires RequestOk(env, r)
    ensures FreshEntry(env, EntryFor(env, r), r.manifest)
  {
    hide ManifestOk, CommitOk, LicenseOk;
  }

  lemma AtRename(env: Env, s: State, id: nat)
    requires TreeInv(env, s) && id in s.procs && s.procs[id].Holds() && s.procs[id].pc.RenameLock?
    ensures s.tree.Modules? && RequestOk(env, s.procs[id].request)
    ensures Grounded(env, s.procs[id]) && s.procs[id].stage.Placed? && Last(s) == ViewOf(s.procs[id].before)
    ensures s.tree.bundled == BundledAt(env, s.procs[id])
    ensures s.procs[id].lockTemp in s.tree.temps && s.tree.temps[s.procs[id].lockTemp] == LockFileFor(env, s.procs[id])
  {
    hide RequestOk, MayAdd, WithFolder, Safe;
    assert ProcOk(env, s.tree, Last(s), s.procs[id]);
  }

  lemma CommitMakes(env: Env, s: State, id: nat)
    requires TreeInv(env, s) && id in s.procs && s.procs[id].Holds() && s.procs[id].pc.RenameLock?
    ensures s.tree.Modules? && RequestOk(env, s.procs[id].request) && s.procs[id].lockTemp in s.tree.temps
    ensures Commits(env, Last(s), Last(Commit(env, s, id)), EntryFor(env, s.procs[id].request))
  {
    hide RequestOk, TreeInv, Commits, BundledAt, MayAdd, LockFileFor;
    AtRename(env, s, id);
    var p := s.procs[id];
    var after := Commit(env, s, id);
    NewChildren(env, p);
    CommitIs(env, p, Last(after));
  }

  lemma CommitIs(env: Env, p: Proc, w: View)
    requires RequestOk(env, p.request) && Grounded(env, p)
    requires w.lock == Some(RealFile(LockFileFor(env, p))) && w.bundled.BundledFolder?
    requires Children(w) == Children(ViewOf(p.before))[Slug(p) := OneManifest(env, p.request.manifest)]
    ensures Commits(env, ViewOf(p.before), w, EntryFor(env, p.request))
  {
    hide RequestOk, FreshEntry, Consistent, ReadLock, Permitted, OneManifest, Upsert;
    ViewReading(env, p.before);
    ReadIsEntries(env, ViewOf(p.before));
    FreshIs(env, p.request);
    assert AddsManifest(env, ViewOf(p.before), w, EntryFor(env, p.request), p.request.manifest);
  }

  lemma CommitRecords(env: Env, s: State, id: nat)
    requires Inv(env, s) && id in s.procs && s.procs[id].Holds() && s.procs[id].pc.RenameLock?
    ensures s.tree.Modules? && RequestOk(env, s.procs[id].request) && s.procs[id].lockTemp in s.tree.temps
    ensures Recorded(env, Commit(env, s, id)) && Credited(env, Commit(env, s, id))
  {
    hide Commits, RequestOk, TreeInv, Credited, Commit;
    CommitMakes(env, s, id);
    PlacedAtRename(env, s, id);
    CommitRecorded(env, s, id);
    CommitCredited(env, s, id);
  }

  lemma CommitRecorded(env: Env, s: State, id: nat)
    requires Recorded(env, s) && id in s.procs && RequestOk(env, s.procs[id].request)
    requires s.tree.Modules? && s.procs[id].lockTemp in s.tree.temps
    requires Commits(env, Last(s), Last(Commit(env, s, id)), EntryFor(env, s.procs[id].request))
    ensures Recorded(env, Commit(env, s, id))
  {
    hide Commits, RequestOk, ViewOf;
  }

  lemma CommitCredited(env: Env, s: State, id: nat)
    requires Credited(env, s) && StagePlaced(env, s, id) && RequestOk(env, s.procs[id].request)
    requires s.tree.Modules? && s.procs[id].lockTemp in s.tree.temps
    ensures Credited(env, Commit(env, s, id))
  {
    hide RequestOk, ViewOf;
    var after := Commit(env, s, id);
    forall k | 0 <= k < |after.commits| ensures CreditedAt(env, after, k) {
      if k < |s.commits| { assert CreditedAt(env, s, k); }
    }
    forall x | x in after.procs && after.procs[x].stage.Committed? ensures HasCommit(after, x) {
      if x == id {
        assert after.commits[|s.commits|].0 == id;
      } else {
        assert HasCommit(s, x);
        var k :| 0 <= k < |s.commits| && s.commits[k].0 == x;
        assert after.commits[k].0 == x;
      }
    }
    forall k | 0 <= k < |s.commits| ensures s.commits[k].0 != id {
      assert CreditedAt(env, s, k);
    }
  }

  predicate StagePlaced(env: Env, s: State, id: nat) {
    id in s.procs && s.procs[id].stage.Placed?
  }

  lemma PlacedAtRename(env: Env, s: State, id: nat)
    requires TreeInv(env, s) && id in s.procs && s.procs[id].pc.RenameLock?
    ensures StagePlaced(env, s, id)
  {
    hide RequestOk, Consistent, ReadLock, WriterOk;
    assert ProcOk(env, s.tree, Last(s), s.procs[id]);
  }

  lemma StepInv(env: Env, s: State, step: Step)
    requires Inv(env, s) && Enabled(env, s, step)
    ensures Inv(env, Apply(env, s, step))
  {
    hide RequestOk, Recorded, Credited, TreeInv, Write;
    StepKeepsTree(env, s, step);
    if IsCommit(s, step) {
      CommitRecords(env, s, step.id);
      CommitApplies(env, s, step);
    } else {
      OtherSteps(env, s, step);
      UneventfulKeeps(env, s, Apply(env, s, step));
    }
  }

  lemma CommitApplies(env: Env, s: State, step: Step)
    requires Enabled(env, s, step) && IsCommit(s, step)
    requires s.tree.Modules? && s.procs[step.id].lockTemp in s.tree.temps
    ensures Apply(env, s, step) == Commit(env, s, step.id)
  {
    hide RequestOk, Commit;
  }

  lemma NextInv(env: Env, s: State, after: State)
    requires Inv(env, s) && Next(env, s, after)
    ensures Inv(env, after)
  {
    hide Inv;
    var step :| Enabled(env, s, step) && after == Apply(env, s, step);
    StepInv(env, s, step);
  }

  lemma {:induction false} RunInv(env: Env, run: seq<State>, i: nat)
    requires IsRun(env, run) && i < |run|
    ensures Inv(env, run[i])
  {
    hide Inv;
    if i == 0 {
      InitialInv(env, run[0]);
    } else {
      RunInv(env, run, i - 1);
      assert FollowsAt(env, run, i);
      NextInv(env, run[i - 1], run[i]);
    }
  }

  // ---- safety ----

  /**
   * Fail-closed: with the vendor lock file present verification refuses, it is
   * present while anyone holds it, and the tree under it (so also the tree after
   * a crash at any call, should that file be deleted) verifies only if it is
   * the last committed version, file by file.
   */
  lemma FailClosed(env: Env, run: seq<State>, i: nat, catalog: Option<seq<Manifest>>)
    requires IsRun(env, run) && i < |run|
    ensures run[i].tree.Locked() ==> !Accepts(env, run[i].tree, catalog, false)
    ensures Held(run[i]) ==> run[i].tree.Locked()
    ensures run[i].history != [] && (Consistent(env, run[i].tree) ==> ViewOf(run[i].tree) == Last(run[i]))
  {
    RunInv(env, run, i);
    hide Recorded, Credited, ProcOk, Consistent;
  }

  /** Two processes never hold the vendor lock at once. */
  lemma OneVendorAtATime(env: Env, run: seq<State>, i: nat, a: nat, b: nat)
    requires IsRun(env, run) && i < |run| && a in run[i].procs && b in run[i].procs
    requires run[i].procs[a].Holds() && run[i].procs[b].Holds()
    ensures a == b
  {
    RunInv(env, run, i);
    hide Recorded, Credited, ProcOk, Safe;
    OneHolder(run[i], a, b);
  }

  ghost predicate Grown(s: State, after: State) { s.history <= after.history && s.commits <= after.commits }

  lemma {:induction false} HistoryGrows(env: Env, run: seq<State>, i: nat, j: nat)
    requires IsRun(env, run) && i <= j < |run|
    ensures Grown(run[i], run[j])
  {
    hide Inv, Next, Initial;
    if i < j {
      hide Grown;
      HistoryGrows(env, run, i, j - 1);
      RunInv(env, run, j - 1);
      assert FollowsAt(env, run, j);
      GrowsByOne(env, run[j - 1], run[j]);
      GrownTransitive(run[i], run[j - 1], run[j]);
    }
  }

  lemma GrownTransitive(a: State, b: State, c: State)
    requires Grown(a, b) && Grown(b, c)
    ensures Grown(a, c)
  {
  }

  lemma GrowsByOne(env: Env, s: State, after: State)
    requires Inv(env, s) && Next(env, s, after)
    ensures Grown(s, after)
  {
    hide Recorded, Credited, TreeInv, Apply;
    var step :| Enabled(env, s, step) && after == Apply(env, s, step);
    if IsCommit(s, step) {
      RenameReady(env, s, step.id);
      CommitApplies(env, s, step);
    } else {
      OtherSteps(env, s, step);
    }
  }

  lemma RenameReady(env: Env, s: State, id: nat)
    requires TreeInv(env, s) && id in s.procs && s.procs[id].Holds() && s.procs[id].pc.RenameLock?
    ensures s.tree.Modules? && s.procs[id].lockTemp in s.tree.temps
  {
    AtRename(env, s, id);
  }

  /**
   * A crash of process `p`, wherever it happens: if nobody else has committed
   * since state `i`, a tree that verifies is exactly the version of state `i` or
   * exactly that version with `p`'s entry and artifact.
   */
  lemma OldOrNew(env: Env, run: seq<State>, i: nat, j: nat, p: nat)
    requires IsRun(env, run) && i <= j < |run|
    requires forall k | |run[i].commits| <= k < |run[j].commits| :: run[j].commits[k].0 == p
    requires Consistent(env, run[j].tree)
    ensures run[i].history != []
    ensures
      || ViewOf(run[j].tree) == Last(run[i])
      || (|run[j].commits| > |run[i].commits| && p in run[j].procs && RequestOk(env, run[j].procs[p].request)
          && Commits(env, Last(run[i]), ViewOf(run[j].tree), EntryFor(env, run[j].procs[p].request)))
  {
    RunInv(env, run, i);
    RunInv(env, run, j);
    HistoryGrows(env, run, i, j);
    hide IsRun, Commits, Exclusive, Consistent, RequestOk, Credited, ProcOk;
    OldOrNewAt(env, run[i], run[j], p);
  }

  lemma OldOrNewAt(env: Env, earlier: State, s: State, p: nat)
    requires Recorded(env, s) && Credited(env, s) && |earlier.history| == |earlier.commits| + 1
    requires earlier.history <= s.history && earlier.commits <= s.commits
    requires forall k | |earlier.commits| <= k < |s.commits| :: s.commits[k].0 == p
    ensures
      || Last(s) == Last(earlier)
      || (|s.commits| > |earlier.commits| && p in s.procs && RequestOk(env, s.procs[p].request)
          && Commits(env, Last(earlier), Last(s), EntryFor(env, s.procs[p].request)))
  {
    hide Commits, RequestOk;
    var n := |earlier.commits|;
    if |s.commits| > n {
      AtMostOne(env, s, n, p);
      assert CreditedAt(env, s, n);
    }
  }

  lemma AtMostOne(env: Env, s: State, n: nat, p: nat)
    requires Credited(env, s) && forall k | n <= k < |s.commits| :: s.commits[k].0 == p
    ensures |s.commits| <= n + 1
  {
    hide CreditedAt;
    if n + 1 < |s.commits| { DifferentProcs(env, s, n, n + 1); }
  }

  lemma DifferentProcs(env: Env, s: State, j: nat, k: nat)
    requires Credited(env, s) && j < k < |s.commits|
    ensures s.commits[j].0 != s.commits[k].0
  {
  }

  /**
   * Serialized, with no lost update: the k-th commit replaces one entry of the
   * version just before it, which verified, and nothing else; a process that
   * returns successfully made exactly one of the commits, for its own entry.
   */
  lemma CommitsSerialized(env: Env, run: seq<State>, i: nat, k: nat)
    requires IsRun(env, run) && i < |run| && k < |run[i].commits|
    ensures |run[i].history| == |run[i].commits| + 1
    ensures Commits(env, run[i].history[k], run[i].history[k + 1], run[i].commits[k].1)
    ensures forall j | 0 <= j < |run[i].commits| && run[i].commits[j].0 == run[i].commits[k].0 :: j == k
  {
    RunInv(env, run, i);
    hide TreeInv, Commits, CreditedAt;
  }

  lemma SuccessCommits(env: Env, run: seq<State>, i: nat, p: nat)
    requires IsRun(env, run) && i < |run| && p in run[i].procs && run[i].procs[p].pc.Done?
    ensures RequestOk(env, run[i].procs[p].request)
    ensures exists k :: 0 <= k < |run[i].commits| && run[i].commits[k] == (p, EntryFor(env, run[i].procs[p].request))
  {
    RunInv(env, run, i);
    hide Recorded, RequestOk, IsRun, Consistent, Exclusive;
    SuccessCommitsAt(env, run[i], p);
  }

  lemma SuccessCommitsAt(env: Env, s: State, p: nat)
    requires TreeInv(env, s) && Credited(env, s) && p in s.procs && s.procs[p].pc.Done?
    ensures RequestOk(env, s.procs[p].request)
    ensures exists k :: 0 <= k < |s.commits| && s.commits[k] == (p, EntryFor(env, s.procs[p].request))
  {
    hide RequestOk, WriterOk, Exclusive, Safe, ReadLock;
    assert ProcOk(env, s.tree, Last(s), s.procs[p]);
    assert HasCommit(s, p);
    var k :| 0 <= k < |s.commits| && s.commits[k].0 == p;
    assert CreditedAt(env, s, k);
  }

  // ---- module histories ----

  /** Git ancestry is transitive; equal commits are ancestors of themselves but that is not needed. */
  ghost predicate AncestryTransitive(env: Env) {
    forall a, b, c | env.ancestor(a, b) && env.ancestor(b, c) :: env.ancestor(a, c)
  }

  /** From one pinned entry of a module to a later one. */
  ghost predicate Descends(env: Env, a: LockEntry, b: LockEntry) {
    a == b || (VersionOk(a.version) && VersionOk(b.version) && Extends(env, a, b))
  }

  lemma DescendsTransitive(env: Env, a: LockEntry, b: LockEntry, c: LockEntry)
    requires AncestryTransitive(env) && Descends(env, a, b) && Descends(env, b, c)
    ensures Descends(env, a, c)
  {
    hide VersionOk;
    if a != b && b != c { VersionsTransitive(a.version, b.version, c.version); }
  }

  lemma VersionsTransitive(a: string, b: string, c: string)
    requires VersionOk(a) && VersionOk(b) && VersionOk(c) && S.Order(a, b) < 0 && S.Order(b, c) < 0
    ensures S.Order(a, c) < 0
  {
    S.OrderTransitive(a, b, c);
  }

  lemma CommitDescends(env: Env, v: View, w: View, e: LockEntry, id: string)
    requires Commits(env, v, w, e) && Pinned(Entries(v), id).Some?
    ensures Pinned(Entries(w), id).Some? && Descends(env, Pinned(Entries(v), id).value, Pinned(Entries(w), id).value)
  {
    hide VersionOk, AddsManifest, Extends;
    ReadIsEntries(env, v);
    UpsertPins(Entries(v), e, id);
    if id == e.id { assert Permitted(env, Entries(v), e); }
  }

  /**
   * A module once pinned stays pinned, and between any two versions of the
   * tree, however far apart, its entry is the same or has a strictly greater
   * version, the same slug, repository and license, and a descendant commit.
   */
  lemma ModuleHistory(env: Env, run: seq<State>, i: nat, j: nat, k: nat, id: string)
    requires IsRun(env, run) && i < |run| && j <= k < |run[i].history| && AncestryTransitive(env)
    requires Pinned(Entries(run[i].history[j]), id).Some?
    ensures Pinned(Entries(run[i].history[k]), id).Some?
    ensures
      var a := Pinned(Entries(run[i].history[j]), id).value;
      var b := Pinned(Entries(run[i].history[k]), id).value;
      || a == b
      || (a.slug == b.slug && a.repository == b.repository && a.license == b.license
          && env.ancestor(a.commit, b.commit) && S.VersionBelow(a.version, b.version))
  {
    HistoryDescends(env, run, i, j, k, id);
    hide IsRun, AncestryTransitive;
    var a, b := Pinned(Entries(run[i].history[j]), id).value, Pinned(Entries(run[i].history[k]), id).value;
    if a != b { DescentMeans(env, a, b); }
  }

  lemma DescentMeans(env: Env, a: LockEntry, b: LockEntry)
    requires Descends(env, a, b) && a != b
    ensures a.slug == b.slug && a.repository == b.repository && a.license == b.license
    ensures env.ancestor(a.commit, b.commit) && S.VersionBelow(a.version, b.version)
  {
    S.OrderIsVersionBelow(a.version, b.version);
    hide S.Order, S.VersionBelow;
  }

  lemma {:induction false} HistoryDescends(env: Env, run: seq<State>, i: nat, j: nat, k: nat, id: string)
    requires IsRun(env, run) && i < |run| && j <= k < |run[i].history| && AncestryTransitive(env)
    requires Pinned(Entries(run[i].history[j]), id).Some?
    ensures Pinned(Entries(run[i].history[k]), id).Some?
    ensures Descends(env, Pinned(Entries(run[i].history[j]), id).value, Pinned(Entries(run[i].history[k]), id).value)
    decreases k
  {
    hide IsRun, Commits, Descends;
    if j < k {
      HistoryDescends(env, run, i, j, k - 1, id);
      HistoryLength(env, run, i);
      CommitsSerialized(env, run, i, k - 1);
      var h := run[i].history;
      CommitDescends(env, h[k - 1], h[k], run[i].commits[k - 1].1, id);
      DescendsTransitive(env, Pinned(Entries(h[j]), id).value, Pinned(Entries(h[k - 1]), id).value,
                         Pinned(Entries(h[k]), id).value);
    } else {
      SameDescends(env, Pinned(Entries(run[i].history[k]), id).value);
    }
  }

  lemma SameDescends(env: Env, a: LockEntry)
    ensures Descends(env, a, a)
  {
  }

  lemma HistoryLength(env: Env, run: seq<State>, i: nat)
    requires IsRun(env, run) && i < |run|
    ensures |run[i].history| == |run[i].commits| + 1
  {
    hide TreeInv, Credited, Commits;
    RunInv(env, run, i);
  }

  // ---- a reader that does not look all at once ----

  predicate LockCommitted(s: State) {
    s.history != [] && s.tree.Lock() == Last(s).lock
  }

  lemma StagingKeepsLock(env: Env, s: State, id: nat, name: string)
    requires id in s.procs && RequestOk(env, s.procs[id].request) && s.tree.Modules? && !s.procs[id].pc.RenameLock?
    ensures Write(env, s, id, name).tree.Lock() == s.tree.Lock()
  {
    hide RequestOk, Upsert, WithFile, WithoutFile, MkBundled, MkFolder, FileAt, ManifestFileFor, LockFileFor,
      TempName;
  }

  lemma OthersKeepLock(env: Env, s: State, step: Step)
    requires TreeInv(env, s) && Enabled(env, s, step) && !IsCommit(s, step) && LockCommitted(s)
    ensures LockCommitted(Apply(env, s, step))
  {
    hide RequestOk, TreeInv, Held, Proceed;
    OtherSteps(env, s, step);
    if step.Runs? { ProceedKeepsLock(env, s, step.id, step.name); }
  }

  lemma ProceedKeepsLock(env: Env, s: State, id: nat, name: string)
    requires id in s.procs && s.procs[id].Live() && RequestOk(env, s.procs[id].request) && !s.procs[id].pc.RenameLock?
    ensures Proceed(env, s, id, name).tree.Lock() == s.tree.Lock()
  {
    hide RequestOk, ReadLock, Passes, Write;
    if s.tree.Modules? { StagingKeepsLock(env, s, id, name); }
  }

  /**
   * Whenever the lock file is read, what is read is the lock of a committed
   * version, and that version stays in the history at its place, whatever the
   * vendors running meanwhile do before the reader comes to the artifacts.
   */
  lemma LockIsCommitted(env: Env, run: seq<State>, i: nat, n: nat)
    requires IsRun(env, run) && i <= n < |run|
    ensures LockCommitted(run[i])
    ensures |run[i].history| <= |run[n].history| && run[n].history[|run[i].history| - 1].lock == run[i].tree.Lock()
  {
    LockCommittedAt(env, run, i);
    HistoryGrows(env, run, i, n);
    hide IsRun;
  }

  lemma {:induction false} LockCommittedAt(env: Env, run: seq<State>, i: nat)
    requires IsRun(env, run) && i < |run|
    ensures LockCommitted(run[i])
  {
    if i > 0 {
      LockCommittedAt(env, run, i - 1);
      RunInv(env, run, i - 1);
      assert FollowsAt(env, run, i);
      hide Inv, LockCommitted, Apply, Enabled;
      NextKeepsLock(env, run[i - 1], run[i]);
    }
  }

  lemma NextKeepsLock(env: Env, s: State, after: State)
    requires Inv(env, s) && Next(env, s, after) && LockCommitted(s)
    ensures LockCommitted(after)
  {
    hide Recorded, Credited, TreeInv, Apply;
    var step :| Enabled(env, s, step) && after == Apply(env, s, step);
    if IsCommit(s, step) {
      RenameReady(env, s, step.id);
      CommitApplies(env, s, step);
    } else {
      OthersKeepLock(env, s, step);
    }
  }
}
