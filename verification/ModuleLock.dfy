/**
 * Module manifests and the entries of modules.lock.json, as scripts/modules-cli.ts
 * and packages/shared/src/modules.ts validate, sort and update them.
 */
module ModuleLock {
  import opened Common
  import opened Text
  import O = Ordering
  import S = Semver

  const MANIFEST_BYTES := 128 * 1024
  const LOCK_BYTES := 1024 * 1024
  const MANIFEST_NAME := "deft.module.json"

  /** A parsed manifest, up to the canonical form its digest is taken over; `body` stands for the rest of it. */
  datatype Manifest = Manifest(id: string, slug: string, version: string, body: nat)

  datatype LockEntry = LockEntry(
    id: string, slug: string, version: string, digest: string, path: string,
    repository: string, commit: string, license: string)

  /**
   * What the program calls but does not define: SHA-256 of the canonical form,
   * the sizes of pretty-printed JSON, URL canonicalization and Git ancestry.
   */
  datatype Env = Env(
    digest: Manifest -> string, manifestSize: Manifest -> nat, lockSize: seq<LockEntry> -> nat,
    repository: string -> Option<string>, ancestor: (string, string) -> bool)

  ghost predicate Digests(env: Env) {
    forall m: Manifest :: DigestOk(env.digest(m))
  }

  // ---- field formats ----

  predicate LowerAlnum(c: char) { 'a' <= c <= 'z' || IsDigit(c) }

  predicate Kebab(s: string) {
    && s != "" && 'a' <= s[0] <= 'z' && s[|s| - 1] != '-'
    && (forall i | 0 <= i < |s| :: LowerAlnum(s[i]) || s[i] == '-')
    && (forall i | 0 <= i < |s| - 1 :: !(s[i] == '-' && s[i + 1] == '-'))
  }

  predicate SlugOk(s: string) { Kebab(s) && |s| <= 48 }

  predicate IdOk(s: string) {
    3 <= |s| <= 128 && |Split(s, '.')| >= 2 && forall p | p in Split(s, '.') :: Kebab(p)
  }

  predicate VersionOk(s: string) { S.Valid(s) && |s| <= 64 }

  predicate Hex(s: string) { forall i | 0 <= i < |s| :: IsDigit(s[i]) || 'a' <= s[i] <= 'f' }

  predicate DigestOk(s: string) { |s| == 71 && s[..7] == "sha256:" && Hex(s[7..]) }

  predicate CommitOk(s: string) { (|s| == 40 || |s| == 64) && Hex(s) }

  predicate LicenseOk(s: string) {
    && 2 <= |s| <= 64
    && (forall i | 0 <= i < |s| :: LowerAlnum(s[i]) || 'A' <= s[i] <= 'Z' || (i > 0 && s[i] in ".+-"))
  }

  /** `ModuleIdSchema`, `ModuleSlugSchema` and `ModuleSemverSchema` on a manifest's identity. */
  predicate ManifestOk(m: Manifest) { IdOk(m.id) && SlugOk(m.slug) && VersionOk(m.version) }

  /** `parseLockEntry` accepts and returns the entry. */
  predicate EntryOk(env: Env, e: LockEntry) {
    && IdOk(e.id) && SlugOk(e.slug) && VersionOk(e.version) && DigestOk(e.digest)
    && env.repository(e.repository) == Some(e.repository) && CommitOk(e.commit) && LicenseOk(e.license)
  }

  function ManifestPath(slug: string): string { "modules/bundled/" + slug + "/" + MANIFEST_NAME }

  // ---- sorting by module id ----

  predicate AtMost(a: LockEntry, b: LockEntry) { !Less(b.id, a.id) }

  ghost predicate Sorted(entries: seq<LockEntry>) {
    forall i, j | 0 <= i < j < |entries| :: AtMost(entries[i], entries[j])
  }

  function Sort(entries: seq<LockEntry>): seq<LockEntry> { O.SortBy(AtMost, entries) }

  function Ids(entries: seq<LockEntry>): (r: seq<string>)
    ensures |r| == |entries| && forall i | 0 <= i < |r| :: r[i] == entries[i].id
  {
    seq(|entries|, i requires 0 <= i < |entries| => entries[i].id)
  }

  lemma AtMostTransitive(a: LockEntry, b: LockEntry, c: LockEntry)
    requires AtMost(a, b) && AtMost(b, c)
    ensures AtMost(a, c)
  {
    LessTotal(a.id, b.id);
    LessTotal(b.id, c.id);
    if Less(c.id, a.id) && Less(a.id, b.id) { LessTransitive(c.id, a.id, b.id); }
  }

  lemma SortSorts(entries: seq<LockEntry>)
    ensures multiset(Sort(entries)) == multiset(entries) && Sorted(Sort(entries))
  {
    forall a: LockEntry, b: LockEntry ensures AtMost(a, b) || AtMost(b, a) { LessTotal(a.id, b.id); }
    forall a: LockEntry, b: LockEntry, c: LockEntry | AtMost(a, b) && AtMost(b, c) ensures AtMost(a, c) {
      AtMostTransitive(a, b, c);
    }
    hide AtMost;
    O.SortSorts(AtMost, entries);
  }

  /** Comparing the ids with their sorted copy, place by place, is a test for being sorted. */
  lemma SortedTest(entries: seq<LockEntry>)
    ensures Ids(Sort(entries)) == Ids(entries) <==> Sorted(entries)
  {
    SortSorts(entries);
    if Sorted(entries) { O.SortOfSorted(AtMost, entries); }
    if Ids(Sort(entries)) == Ids(entries) {
      var sorted := Sort(entries);
      forall i, j | 0 <= i < j < |entries| ensures AtMost(entries[i], entries[j]) {
        assert entries[i].id == Ids(entries)[i] == Ids(sorted)[i] == sorted[i].id;
        assert entries[j].id == Ids(entries)[j] == Ids(sorted)[j] == sorted[j].id;
        assert AtMost(sorted[i], sorted[j]);
      }
    }
  }

  // ---- looking up and replacing entries ----

  ghost predicate UniqueIds(entries: seq<LockEntry>) {
    forall i, j | 0 <= i < j < |entries| :: entries[i].id != entries[j].id
  }

  ghost predicate UniqueSlugs(entries: seq<LockEntry>) {
    forall i, j | 0 <= i < j < |entries| :: entries[i].slug != entries[j].slug
  }

  /** `lock.modules.find((entry) => entry.module_id === id)`. */
  function Pinned(entries: seq<LockEntry>, id: string): Option<LockEntry> {
    Find(entries, (e: LockEntry) => e.id == id)
  }

  /** `lock.modules.filter((item) => item.module_id !== id)`. */
  function Others(entries: seq<LockEntry>, id: string): (r: seq<LockEntry>)
    ensures forall x :: x in r <==> x in entries && x.id != id
  {
    Select(entries, (x: LockEntry) => x.id != id)
  }

  /** `modules.filter(other id).concat(e).sort(by id)`. */
  function Upsert(entries: seq<LockEntry>, e: LockEntry): seq<LockEntry> {
    Sort(Others(entries, e.id) + [e])
  }

  /** The first entry under this id, if there is one. */
  lemma PinnedMeans(entries: seq<LockEntry>, id: string)
    ensures match Pinned(entries, id)
      case None => forall e | e in entries :: e.id != id
      case Some(e) => e in entries && e.id == id
    ensures Pinned(entries, id).Some? ==> IsFirst(entries, id, Pinned(entries, id).value)
  {
    FindIsFirst(entries, (e: LockEntry) => e.id == id);
  }

  ghost predicate IsFirst(entries: seq<LockEntry>, id: string, e: LockEntry) {
    exists k :: 0 <= k < |entries| && entries[k] == e && e.id == id && forall i | 0 <= i < k :: entries[i].id != id
  }

  lemma FirstIsOne(entries: seq<LockEntry>, id: string, a: LockEntry, b: LockEntry)
    requires IsFirst(entries, id, a) && IsFirst(entries, id, b)
    ensures a == b
  {
  }

  lemma PinnedIs(entries: seq<LockEntry>, e: LockEntry)
    requires UniqueIds(entries) && e in entries
    ensures Pinned(entries, e.id) == Some(e)
  {
  }

  lemma {:induction false} SelectUniqueIds(entries: seq<LockEntry>, keep: LockEntry -> bool)
    requires UniqueIds(entries)
    ensures UniqueIds(Select(entries, keep))
  {
    if entries != [] {
      SelectUniqueIds(entries[1..], keep);
      var rest := Select(entries[1..], keep);
      forall x | x in rest ensures x.id != entries[0].id {
        assert x in entries[1..];
      }
    }
  }

  /** Being without a repeated id is a property of the multiset, so sorting keeps it. */
  lemma UniqueIdsOfMultiset(a: seq<LockEntry>, b: seq<LockEntry>)
    requires multiset(a) == multiset(b) && UniqueIds(a)
    ensures UniqueIds(b)
  {
    O.NoDupOfMultiset(a, b);
    O.SameElements(a, b);
    forall i, j | 0 <= i < j < |b| ensures b[i].id != b[j].id {
      assert b[i] in a && b[j] in a;
    }
  }

  /** Replacing one entry: sorted, that entry in, the others with other ids kept, nothing else. */
  lemma UpsertIs(entries: seq<LockEntry>, e: LockEntry)
    requires UniqueIds(entries)
    ensures Sorted(Upsert(entries, e)) && UniqueIds(Upsert(entries, e))
    ensures forall x :: x in Upsert(entries, e) <==> x == e || (x in entries && x.id != e.id)
  {
    var before := Others(entries, e.id) + [e];
    SortSorts(before);
    SelectUniqueIds(entries, (x: LockEntry) => x.id != e.id);
    assert UniqueIds(Others(entries, e.id));
    assert UniqueIds(before);
    UniqueIdsOfMultiset(before, Upsert(entries, e));
    O.SameElements(before, Upsert(entries, e));
  }

  /** After replacing `e`, its id is pinned to `e`, and every other id to what it was pinned to. */
  lemma UpsertPins(entries: seq<LockEntry>, e: LockEntry, id: string)
    requires UniqueIds(entries)
    ensures Pinned(Upsert(entries, e), id) == if id == e.id then Some(e) else Pinned(entries, id)
  {
    UpsertIs(entries, e);
    var after := Upsert(entries, e);
    if id == e.id {
      PinnedIs(after, e);
    } else if Pinned(entries, id).Some? {
      PinnedIs(after, Pinned(entries, id).value);
    }
  }
}
