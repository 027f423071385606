/**
 * The field formats of modules.lock.json, spelled out as their patterns in
 * scripts/modules-cli.ts and packages/shared/src/modules.ts spell them.
 */
module ModuleFormats {
  import opened Common
  import opened Text
  import opened ModuleLock
  import opened VendoredModules
  import S = Semver

  predicate LowerOrDigit(c: char) { 'a' <= c <= 'z' || '0' <= c <= '9' }

  ghost predicate AllLowerOrDigits(s: string) { forall i | 0 <= i < |s| :: LowerOrDigit(s[i]) }

  ghost predicate LowerHex(s: string) { forall i | 0 <= i < |s| :: '0' <= s[i] <= '9' || 'a' <= s[i] <= 'f' }

  /** The words between the hyphens of `[a-z][a-z0-9]*(?:-[a-z0-9]+)*`. */
  ghost predicate Words(words: seq<string>) {
    && words != [] && (forall i | 0 <= i < |words| :: words[i] != "" && AllLowerOrDigits(words[i]))
    && 'a' <= words[0][0] <= 'z'
  }

  ghost predicate KebabCase(s: string) { exists words :: Words(words) && s == Join(words, '-') }

  /** Two or more of these between dots. */
  ghost predicate Labels(labels: seq<string>) {
    |labels| >= 2 && forall i | 0 <= i < |labels| :: KebabCase(labels[i])
  }

  ghost predicate ReverseDns(s: string) { exists labels :: Labels(labels) && s == Join(labels, '.') }

  /** An id, a slug and a version as `ModuleIdSchema`, `ModuleSlugSchema` and `ModuleSemverSchema` spell them. */
  ghost predicate IdentityOk(id: string, slug: string, version: string) {
    && 3 <= |id| <= 128 && ReverseDns(id)
    && 1 <= |slug| <= 48 && KebabCase(slug)
    && |version| <= 64 && exists s :: S.Spells(s, version)
  }

  /** `sha256:` and 64 hexadecimal digits; a whole Git object name; `[A-Za-z0-9][A-Za-z0-9.+-]{1,63}`. */
  ghost predicate OriginOk(digest: string, commit: string, license: string) {
    && |digest| == 71 && digest[..7] == "sha256:" && LowerHex(digest[7..])
    && (|commit| == 40 || |commit| == 64) && LowerHex(commit)
    && 2 <= |license| <= 64
    && (forall i | 0 <= i < |license| ::
          LowerOrDigit(license[i]) || 'A' <= license[i] <= 'Z' || (i > 0 && license[i] in {'.', '+', '-'}))
  }

  // ---- kebab-case ----

  /** What follows the first letter's demand. */
  ghost predicate Hyphenated(s: string) {
    && s != "" && s[0] != '-' && s[|s| - 1] != '-'
    && (forall i | 0 <= i < |s| :: LowerAlnum(s[i]) || s[i] == '-')
    && (forall i | 0 <= i < |s| - 1 :: !(s[i] == '-' && s[i + 1] == '-'))
  }

  lemma {:induction false} HyphenatedSplits(s: string)
    requires Hyphenated(s)
    ensures forall i | 0 <= i < |Split(s, '-')| :: Split(s, '-')[i] != "" && AllLowerOrDigits(Split(s, '-')[i])
    ensures Split(s, '-')[0][0] == s[0]
    decreases |s|
  {
    var first := Before(s, '-');
    assert forall i | 0 <= i < |first| :: first[i] == s[i];
    if |first| < |s| {
      var rest := s[|first| + 1..];
      assert rest[0] == s[|first| + 1] && rest[|rest| - 1] == s[|s| - 1];
      HyphenatedSplits(rest);
    }
  }

  lemma {:induction false} WordsHyphenate(words: seq<string>)
    requires words != [] && forall i | 0 <= i < |words| :: words[i] != "" && AllLowerOrDigits(words[i])
    ensures Hyphenated(Join(words, '-')) && Join(words, '-')[0] == words[0][0]
  {
    if |words| > 1 {
      WordsHyphenate(words[1..]);
      var rest := Join(words[1..], '-');
      assert Join(words, '-') == words[0] + ['-'] + rest;
      hide Join;
    }
  }

  lemma KebabIs(s: string)
    ensures Kebab(s) <==> KebabCase(s)
  {
    if Kebab(s) {
      HyphenatedSplits(s);
      JoinSplit(s, '-');
      assert Words(Split(s, '-'));
    }
    if words :| Words(words) && s == Join(words, '-') { WordsHyphenate(words); }
  }

  // ---- ids ----

  lemma IdIs(s: string)
    ensures |Split(s, '.')| >= 2 && (forall p | p in Split(s, '.') :: Kebab(p)) <==> ReverseDns(s)
  {
    hide Kebab, KebabCase;
    if |Split(s, '.')| >= 2 && forall p | p in Split(s, '.') :: Kebab(p) {
      JoinSplit(s, '.');
      forall i | 0 <= i < |Split(s, '.')| ensures KebabCase(Split(s, '.')[i]) { KebabIs(Split(s, '.')[i]); }
      assert Labels(Split(s, '.'));
    }
    if labels :| Labels(labels) && s == Join(labels, '.') {
      forall i | 0 <= i < |labels| ensures Kebab(labels[i]) && '.' !in labels[i] {
        KebabIs(labels[i]);
        NoDot(labels[i]);
      }
      SplitJoin(labels, '.');
    }
  }

  lemma NoDot(s: string)
    requires Kebab(s)
    ensures '.' !in s
  {
  }

  lemma IdentityIs(id: string, slug: string, version: string)
    ensures IdOk(id) && SlugOk(slug) && VersionOk(version) <==> IdentityOk(id, slug, version)
  {
    IdIs(id);
    KebabIs(slug);
    SlugNotEmpty(slug);
    S.ValidIsSpelled(version);
    hide Kebab, KebabCase, ReverseDns, S.Valid, S.Spells;
  }

  lemma SlugNotEmpty(s: string)
    ensures Kebab(s) ==> s != ""
  {
  }

  lemma OriginIs(digest: string, commit: string, license: string)
    ensures DigestOk(digest) && CommitOk(commit) && LicenseOk(license) <==> OriginOk(digest, commit, license)
  {
    assert DigestOk(digest) <==> |digest| == 71 && digest[..7] == "sha256:" && LowerHex(digest[7..]);
  }

  // ---- accepted locks ----

  /** An entry is accepted exactly when its fields are spelled so and its repository is canonical already. */
  lemma EntryIs(env: Env, e: LockEntry)
    ensures EntryOk(env, e) <==>
            && IdentityOk(e.id, e.slug, e.version) && OriginOk(e.digest, e.commit, e.license)
            && env.repository(e.repository) == Some(e.repository)
  {
    IdentityIs(e.id, e.slug, e.version);
    OriginIs(e.digest, e.commit, e.license);
    hide IdOk, SlugOk, VersionOk, DigestOk, CommitOk, LicenseOk, IdentityOk, OriginOk;
  }

  /** So is every entry of a tree that verifies. */
  lemma AcceptedFormats(env: Env, tree: Tree, catalog: Option<seq<Manifest>>, allowVendorLock: bool, e: LockEntry)
    requires Accepts(env, tree, catalog, allowVendorLock) && e in ReadLock(env, tree.Lock()).value
    ensures IdentityOk(e.id, e.slug, e.version) && OriginOk(e.digest, e.commit, e.license)
    ensures env.repository(e.repository) == Some(e.repository)
  {
    EntryIs(env, e);
    hide IdentityOk, OriginOk, EntryOk, LockAgrees, Mirrors;
  }

  /**
   * Its folder holds a manifest of at most 128 KiB and nothing else; the lock, of
   * at most 1 MiB, names that manifest.
   */
  lemma AcceptedFiles(env: Env, tree: Tree, catalog: Option<seq<Manifest>>, allowVendorLock: bool, e: LockEntry)
    requires Accepts(env, tree, catalog, allowVendorLock) && e in ReadLock(env, tree.Lock()).value
    ensures e.path == "modules/bundled/" + e.slug + "/deft.module.json"
    ensures LockWithin(tree, 1_048_576) && OnlyManifestWithin(tree, e.slug, 131_072)
  {
    hide EntryOk, Mirrors, Agrees, LockWithin, OnlyManifestWithin, ManifestOk, SlugOk;
    LockIsWithin(env, tree, e);
    hide ReadLock;
    assert Backed(env, tree, e);
    TidyIsWithin(env, tree, e);
    hide LockAgrees;
  }

  ghost predicate LockWithin(tree: Tree, bytes: nat) {
    tree.Modules? && tree.lock.Some? && tree.lock.value.RealFile? && tree.lock.value.file.bytes <= bytes
  }

  ghost predicate OnlyManifestWithin(tree: Tree, slug: string, bytes: nat) {
    && slug in tree.Children() && tree.Children()[slug].Folder?
    && var files := tree.Children()[slug].files;
    && files.Keys == {"deft.module.json"} && files["deft.module.json"].RealFile?
    && files["deft.module.json"].file.ManifestFile? && files["deft.module.json"].file.bytes <= bytes
  }

  lemma LockIsWithin(env: Env, tree: Tree, e: LockEntry)
    requires ReadLock(env, tree.Lock()).Some? && e in ReadLock(env, tree.Lock()).value
    ensures LockWithin(tree, 1_048_576)
  {
    hide EntryOk;
  }

  lemma TidyIsWithin(env: Env, tree: Tree, e: LockEntry)
    requires Backed(env, tree, e) && TidyFolder(e.slug, tree.Children()[e.slug])
    ensures OnlyManifestWithin(tree, e.slug, 131_072)
  {
    hide Agrees, ManifestOk, SlugOk;
  }
}
