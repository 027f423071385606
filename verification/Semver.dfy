/**
 * parseSemver and compareSemver of scripts/modules-cli.ts, and precedence as
 * sections 10 and 11 of Semantic Versioning 2.0.0 define it.
 */
module Semver {
  import opened Common
  import opened Text

  datatype Version = Version(major: nat, minor: nat, patch: nat, prerelease: Option<seq<string>>)

  // ---- the strings accepted by the version schema ----

  predicate IdentifierChar(c: char) {
    IsDigit(c) || 'a' <= c <= 'z' || 'A' <= c <= 'Z' || c == '-'
  }

  predicate Identifier(s: string) {
    s != "" && forall i | 0 <= i < |s| :: IdentifierChar(s[i])
  }

  predicate PrereleaseIdentifier(s: string) {
    Identifier(s) && (AllDigits(s) ==> NoLeadingZero(s))
  }

  predicate NumericPart(s: string) {
    AllDigits(s) && NoLeadingZero(s)
  }

  function WithoutBuild(v: string): string { Before(v, '+') }

  function Core(v: string): string { Before(WithoutBuild(v), '-') }

  /** What follows the first hyphen, build metadata aside. */
  function PrereleaseSource(v: string): Option<string> {
    var w, core := WithoutBuild(v), Core(v);
    if |core| < |w| then Some(w[|core| + 1..]) else None
  }

  predicate Valid(v: string) {
    var core := Split(Core(v), '.');
    && |core| == 3 && (forall i | 0 <= i < 3 :: NumericPart(core[i]))
    && (PrereleaseSource(v).Some? ==>
          forall p | p in Split(PrereleaseSource(v).value, '.') :: PrereleaseIdentifier(p))
    && (|WithoutBuild(v)| < |v| ==> forall p | p in Split(v[|WithoutBuild(v)| + 1..], '.') :: Identifier(p))
  }

  function Parse(v: string): Version
    requires Valid(v)
  {
    var core := Split(Core(v), '.');
    var source := PrereleaseSource(v);
    Version(NatOf(core[0]), NatOf(core[1]), NatOf(core[2]),
            if source.Some? && source.value != "" then Some(Split(source.value, '.')) else None)
  }

  // ---- compareSemver ----

  function CompareNat(a: nat, b: nat): int {
    if a < b then -1 else if a > b then 1 else 0
  }

  /** Two identifiers that differ. */
  function CompareIdentifiers(a: string, b: string): int
    requires a != b
  {
    if AllDigits(a) && AllDigits(b) then if NatOf(a) < NatOf(b) then -1 else 1
    else if AllDigits(a) != AllDigits(b) then if AllDigits(a) then -1 else 1
    else if Less(a, b) then -1 else 1
  }

  /** The identifier lists from position `k` on. */
  function CompareLists(a: seq<string>, b: seq<string>, k: nat): int
    requires k <= |a| && k <= |b|
    decreases |a| - k
  {
    if k == |a| && k == |b| then 0
    else if k == |a| then -1
    else if k == |b| then 1
    else if a[k] == b[k] then CompareLists(a, b, k + 1)
    else CompareIdentifiers(a[k], b[k])
  }

  function ComparePrerelease(a: Option<seq<string>>, b: Option<seq<string>>): int {
    if a.None? && b.None? then 0
    else if a.None? then 1
    else if b.None? then -1
    else CompareLists(a.value, b.value, 0)
  }

  function Compare(a: Version, b: Version): int {
    if a.major != b.major then CompareNat(a.major, b.major)
    else if a.minor != b.minor then CompareNat(a.minor, b.minor)
    else if a.patch != b.patch then CompareNat(a.patch, b.patch)
    else ComparePrerelease(a.prerelease, b.prerelease)
  }

  method CompareSemver(left: string, right: string) returns (r: int)
    requires Valid(left) && Valid(right)
    ensures r == Compare(Parse(left), Parse(right))
    ensures forall a, b | Spells(a, left) && Spells(b, right) ::
      (r == -1 <==> Below(a, b)) && (r == 1 <==> Below(b, a)) && (r == 0 <==> a.(build := []) == b.(build := []))
    ensures r in {-1, 0, 1}
  {
    OrderIsBelow(left, right);
    r := CompareParsed(left, right);
  }

  method CompareParsed(left: string, right: string) returns (r: int)
    requires Valid(left) && Valid(right)
    ensures r == Compare(Parse(left), Parse(right))
  {
    hide Valid, Parse, NatOf, Less;
    var a, b := Parse(left), Parse(right);
    if a.major < b.major { return -1; }
    if a.major > b.major { return 1; }
    if a.minor < b.minor { return -1; }
    if a.minor > b.minor { return 1; }
    if a.patch < b.patch { return -1; }
    if a.patch > b.patch { return 1; }
    if a.prerelease.None? && b.prerelease.None? { return 0; }
    if a.prerelease.None? { return 1; }
    if b.prerelease.None? { return -1; }
    var p, q := a.prerelease.value, b.prerelease.value;
    for index := 0 to if |p| < |q| then |q| else |p|
      invariant index <= |p| && index <= |q|
      invariant Compare(a, b) == CompareLists(p, q, index)
    {
      if index >= |p| { return -1; }
      if index >= |q| { return 1; }
      var leftPart, rightPart := p[index], q[index];
      if leftPart == rightPart { continue; }
      var leftNumeric, rightNumeric := AllDigits(leftPart), AllDigits(rightPart);
      if leftNumeric && rightNumeric { return if NatOf(leftPart) < NatOf(rightPart) then -1 else 1; }
      if leftNumeric != rightNumeric { return if leftNumeric then -1 else 1; }
      return if Less(leftPart, rightPart) then -1 else 1;
    }
    return 0;
  }

  // ---- precedence, section 11 ----

  /** Character by character in ASCII order; a proper prefix comes first. */
  ghost predicate LexicallyBelow(a: string, b: string) {
    exists k :: 0 <= k <= |a| && k <= |b| && a[..k] == b[..k]
      && ((k == |a| && k < |b|) || (k < |a| && k < |b| && a[k] < b[k]))
  }

  /** Numbers in decimal without leading zeros: the longer is greater, and of two as long the digits decide. */
  ghost predicate NumberBelow(a: string, b: string) {
    |a| < |b| || (|a| == |b| && LexicallyBelow(a, b))
  }

  /** 11.4.1 to 11.4.3. */
  ghost predicate IdentifierBelow(a: string, b: string) {
    if AllDigits(a) && AllDigits(b) then NumberBelow(a, b)
    else if AllDigits(a) != AllDigits(b) then AllDigits(a)
    else LexicallyBelow(a, b)
  }

  /** 11.4: the first difference decides; with none, the shorter list is below (11.4.4). */
  ghost predicate ListBelow(a: seq<string>, b: seq<string>) {
    exists k :: 0 <= k <= |a| && k <= |b| && a[..k] == b[..k]
      && ((k == |a| && k < |b|) || (k < |a| && k < |b| && a[k] != b[k] && IdentifierBelow(a[k], b[k])))
  }

  /** 11.2, 11.3 (a pre-release is below its release) and 11.4. */
  ghost predicate Precedes(a: Version, b: Version) {
    || a.major < b.major
    || (a.major == b.major && a.minor < b.minor)
    || (a.major == b.major && a.minor == b.minor && a.patch < b.patch)
    || (a.major == b.major && a.minor == b.minor && a.patch == b.patch
        && a.prerelease.Some? && (b.prerelease.None? || ListBelow(a.prerelease.value, b.prerelease.value)))
  }

  lemma {:induction false} LessIsLexical(a: string, b: string)
    ensures Less(a, b) <==> LexicallyBelow(a, b)
  {
    if a == "" || b == "" {
      if b != "" { assert a[..0] == b[..0]; }
    } else {
      LessIsLexical(a[1..], b[1..]);
      if Less(a, b) {
        if a[0] < b[0] {
          assert a[..0] == b[..0];
        } else {
          var k :| 0 <= k <= |a[1..]| && k <= |b[1..]| && a[1..][..k] == b[1..][..k]
            && ((k == |a[1..]| && k < |b[1..]|) || (k < |a[1..]| && k < |b[1..]| && a[1..][k] < b[1..][k]));
          assert a[..k + 1] == [a[0]] + a[1..][..k] && b[..k + 1] == [b[0]] + b[1..][..k];
          assert a[..k + 1] == b[..k + 1];
        }
      }
      if LexicallyBelow(a, b) {
        var k :| 0 <= k <= |a| && k <= |b| && a[..k] == b[..k]
          && ((k == |a| && k < |b|) || (k < |a| && k < |b| && a[k] < b[k]));
        if k > 0 {
          assert a[0] == a[..k][0] == b[..k][0] == b[0];
          assert a[1..][..k - 1] == a[..k][1..] && b[1..][..k - 1] == b[..k][1..];
          assert LexicallyBelow(a[1..], b[1..]);
        }
      }
    }
  }

  lemma DigitsAre(c: char)
    ensures IsDigit(c) <==> c in "0123456789"
  {
  }

  lemma {:induction false} BelowPower(s: string)
    requires forall i | 0 <= i < |s| :: IsDigit(s[i])
    ensures NatOf(s) < Power(|s|)
  {
    if s != "" { BelowPower(s[..|s| - 1]); }
  }

  lemma {:induction false} AtLeastPower(s: string)
    requires AllDigits(s) && s[0] != '0'
    ensures NatOf(s) >= Power(|s| - 1)
  {
    var init := s[..|s| - 1];
    if init == "" {
      assert NatOf(init) == 0 && DigitValue(s[0]) >= 1;
    } else {
      assert init[0] == s[0];
      AtLeastPower(init);
    }
  }

  function Power(n: nat): nat { if n == 0 then 1 else 10 * Power(n - 1) }

  lemma {:induction false} PowerGrows(m: nat, n: nat)
    requires m <= n
    ensures 1 <= Power(m) <= Power(n)
    decreases n
  {
    if m < n { PowerGrows(m, n - 1); } else if m > 0 { PowerGrows(m - 1, n - 1); }
  }

  /** The value of the first difference outweighs all that follows. */
  lemma {:induction false} DigitsDecide(a: string, b: string)
    requires |a| == |b| && AllDigits(a) && AllDigits(b) && LexicallyBelow(a, b)
    ensures NatOf(a) < NatOf(b)
  {
    var k :| 0 <= k <= |a| && k <= |b| && a[..k] == b[..k]
      && ((k == |a| && k < |b|) || (k < |a| && k < |b| && a[k] < b[k]));
    var x, y := a[..|a| - 1], b[..|b| - 1];
    if k == |a| - 1 {
      assert x == a[..k] == b[..k] == y;
    } else {
      assert x[..k] == a[..k] == b[..k] == y[..k] && x[k] < y[k];
      DigitsDecide(x, y);
    }
  }

  lemma LongerIsGreater(a: string, b: string)
    requires NumericPart(a) && NumericPart(b) && |a| < |b|
    ensures NatOf(a) < NatOf(b)
  {
    BelowPower(a);
    AtLeastPower(b);
    PowerGrows(|a|, |b| - 1);
  }

  /** Comparing values is comparing the digits as they are written. */
  lemma NumbersAgree(a: string, b: string)
    requires NumericPart(a) && NumericPart(b)
    ensures NatOf(a) < NatOf(b) <==> NumberBelow(a, b)
  {
    if |a| < |b| {
      LongerIsGreater(a, b);
    } else if |b| < |a| {
      LongerIsGreater(b, a);
    } else {
      LessTotal(a, b);
      LessIsLexical(a, b);
      LessIsLexical(b, a);
      if LexicallyBelow(a, b) { DigitsDecide(a, b); }
      if LexicallyBelow(b, a) { DigitsDecide(b, a); }
    }
  }

  lemma IdentifiersAgree(a: string, b: string)
    requires a != b && PrereleaseIdentifier(a) && PrereleaseIdentifier(b)
    ensures CompareIdentifiers(a, b) == -1 <==> IdentifierBelow(a, b)
    ensures CompareIdentifiers(a, b) == 1 <==> IdentifierBelow(b, a)
  {
    if AllDigits(a) && AllDigits(b) {
      NatInjective(a, b);
      NumbersAgree(a, b);
      NumbersAgree(b, a);
    }
    LessIsLexical(a, b);
    LessIsLexical(b, a);
    LessTotal(a, b);
  }

  ghost predicate WellFormedList(a: seq<string>) {
    forall i | 0 <= i < |a| :: PrereleaseIdentifier(a[i])
  }

  lemma {:induction false} ListsAgree(a: seq<string>, b: seq<string>, k: nat)
    requires WellFormedList(a) && WellFormedList(b) && k <= |a| && k <= |b| && a[..k] == b[..k]
    ensures CompareLists(a, b, k) == 0 <==> a == b
    ensures CompareLists(a, b, k) == -1 <==> ListBelow(a, b)
    ensures CompareLists(a, b, k) == 1 <==> ListBelow(b, a)
    decreases |a| - k
  {
    if k < |a| && k < |b| && a[k] == b[k] {
      assert a[..k + 1] == a[..k] + [a[k]] && b[..k + 1] == b[..k] + [b[k]];
      ListsAgree(a, b, k + 1);
    } else {
      if k < |a| && k < |b| { IdentifiersAgree(a[k], b[k]); }
      DecidedAt(a, b, k);
      DecidedAt(b, a, k);
    }
  }

  lemma AgreeBefore(a: seq<string>, b: seq<string>, k: nat)
    requires k <= |a| && k <= |b| && a[..k] == b[..k]
    ensures forall i | 0 <= i < k :: a[i] == b[i]
  {
    forall i | 0 <= i < k ensures a[i] == b[i] { assert a[i] == a[..k][i] && b[i] == b[..k][i]; }
  }

  /** Where the lists first part, the declarative order looks at that place and no other. */
  lemma DecidedAt(a: seq<string>, b: seq<string>, k: nat)
    requires k <= |a| && k <= |b| && a[..k] == b[..k] && (k == |a| || k == |b| || a[k] != b[k])
    ensures ListBelow(a, b) <==>
      (k == |a| && k < |b|) || (k < |a| && k < |b| && IdentifierBelow(a[k], b[k]))
  {
    forall j | 0 <= j <= |a| && j <= |b| && a[..j] == b[..j]
      && ((j == |a| && j < |b|) || (j < |a| && j < |b| && a[j] != b[j]))
      ensures j == k
    {
      AgreeBefore(a, b, k);
      AgreeBefore(a, b, j);
    }
  }

  ghost predicate WellFormed(v: Version) {
    v.prerelease.Some? ==> WellFormedList(v.prerelease.value)
  }

  /** `compareSemver` is the precedence of section 11. */
  lemma CompareIsPrecedence(a: Version, b: Version)
    requires WellFormed(a) && WellFormed(b)
    ensures Compare(a, b) == -1 <==> Precedes(a, b)
    ensures Compare(a, b) == 1 <==> Precedes(b, a)
    ensures Compare(a, b) == 0 <==> a == b
    ensures Compare(a, b) in {-1, 0, 1}
  {
    if a.prerelease.Some? && b.prerelease.Some? {
      ListsAgree(a.prerelease.value, b.prerelease.value, 0);
      CompareInRange(a.prerelease.value, b.prerelease.value, 0);
    }
  }

  lemma {:induction false} CompareInRange(a: seq<string>, b: seq<string>, k: nat)
    requires k <= |a| && k <= |b|
    ensures CompareLists(a, b, k) in {-1, 0, 1}
    decreases |a| - k
  {
    if k < |a| && k < |b| && a[k] == b[k] { CompareInRange(a, b, k + 1); }
  }

  // ---- an order on version strings ----

  lemma ParseWellFormed(v: string)
    requires Valid(v)
    ensures WellFormed(Parse(v))
  {
  }

  function Order(left: string, right: string): int
    requires Valid(left) && Valid(right)
  {
    Compare(Parse(left), Parse(right))
  }

  lemma OrderAntisymmetric(a: string, b: string)
    requires Valid(a) && Valid(b)
    ensures Order(a, b) == -Order(b, a)
  {
    ParseWellFormed(a);
    ParseWellFormed(b);
    CompareIsPrecedence(Parse(a), Parse(b));
    CompareIsPrecedence(Parse(b), Parse(a));
  }

  lemma OrderTransitive(a: string, b: string, c: string)
    requires Valid(a) && Valid(b) && Valid(c) && Order(a, b) <= 0 && Order(b, c) <= 0
    ensures Order(a, c) <= 0
    ensures Order(a, b) < 0 || Order(b, c) < 0 ==> Order(a, c) < 0
  {
    ParseWellFormed(a);
    ParseWellFormed(b);
    ParseWellFormed(c);
    var x, y, z := Parse(a), Parse(b), Parse(c);
    CompareIsPrecedence(x, y);
    CompareIsPrecedence(y, z);
    CompareIsPrecedence(x, z);
    if Precedes(x, y) && Precedes(y, z) { PrecedesTransitive(x, y, z); }
  }

  lemma PrecedesTransitive(a: Version, b: Version, c: Version)
    requires WellFormed(a) && WellFormed(b) && WellFormed(c) && Precedes(a, b) && Precedes(b, c)
    ensures Precedes(a, c)
  {
    if a.prerelease.Some? && b.prerelease.Some? && c.prerelease.Some?
      && ListBelow(a.prerelease.value, b.prerelease.value) && ListBelow(b.prerelease.value, c.prerelease.value) {
      ListBelowTransitive(a.prerelease.value, b.prerelease.value, c.prerelease.value);
    }
  }

  lemma ListBelowTransitive(a: seq<string>, b: seq<string>, c: seq<string>)
    requires WellFormedList(a) && WellFormedList(b) && WellFormedList(c) && ListBelow(a, b) && ListBelow(b, c)
    ensures ListBelow(a, c)
  {
    var i :| 0 <= i <= |a| && i <= |b| && a[..i] == b[..i]
      && ((i == |a| && i < |b|) || (i < |a| && i < |b| && a[i] != b[i] && IdentifierBelow(a[i], b[i])));
    var j :| 0 <= j <= |b| && j <= |c| && b[..j] == c[..j]
      && ((j == |b| && j < |c|) || (j < |b| && j < |c| && b[j] != c[j] && IdentifierBelow(b[j], c[j])));
    var k := if i < j then i else j;
    assert a[..k] == a[..i][..k] == b[..i][..k] == b[..k] == b[..j][..k] == c[..j][..k] == c[..k];
    if i < j {
      assert b[i] == b[..j][i] == c[..j][i] == c[i];
    } else if j < i {
      assert a[j] == a[..i][j] == b[..i][j] == b[j];
    } else if i < |a| && i < |b| && i < |c| {
      IdentifierBelowTransitive(a[i], b[i], c[i]);
    }
  }

  lemma IdentifierBelowTransitive(a: string, b: string, c: string)
    requires PrereleaseIdentifier(a) && PrereleaseIdentifier(b) && PrereleaseIdentifier(c)
    requires IdentifierBelow(a, b) && IdentifierBelow(b, c)
    ensures a != c && IdentifierBelow(a, c)
  {
    LessIsLexical(a, b);
    LessIsLexical(b, c);
    LessIsLexical(a, c);
    LessTotal(a, c);
    LessTotal(a, b);
    if Less(a, b) && Less(b, c) { LessTransitive(a, b, c); }
  }

  /** Two valid versions compare equal exactly when they are the same up to build metadata. */
  lemma OrderZeroIsSameUpToBuild(a: string, b: string)
    requires Valid(a) && Valid(b)
    ensures Order(a, b) == 0 <==> WithoutBuild(a) == WithoutBuild(b)
  {
    ParseWellFormed(a);
    ParseWellFormed(b);
    CompareIsPrecedence(Parse(a), Parse(b));
    if Parse(a) == Parse(b) {
      SameCore(a, b);
      SamePrerelease(a, b);
      Reassembled(a);
      Reassembled(b);
    }
  }

  lemma SameCore(a: string, b: string)
    requires Valid(a) && Valid(b) && Parse(a) == Parse(b)
    ensures Core(a) == Core(b)
  {
    var x, y := Split(Core(a), '.'), Split(Core(b), '.');
    NatInjective(x[0], y[0]);
    NatInjective(x[1], y[1]);
    NatInjective(x[2], y[2]);
    assert x == [x[0], x[1], x[2]] && y == [y[0], y[1], y[2]];
    JoinSplit(Core(a), '.');
    JoinSplit(Core(b), '.');
  }

  lemma SamePrerelease(a: string, b: string)
    requires Valid(a) && Valid(b) && Parse(a) == Parse(b)
    ensures PrereleaseSource(a) == PrereleaseSource(b)
  {
    SourceNotEmpty(a);
    SourceNotEmpty(b);
    if PrereleaseSource(a).Some? { JoinSplit(PrereleaseSource(a).value, '.'); }
    if PrereleaseSource(b).Some? { JoinSplit(PrereleaseSource(b).value, '.'); }
  }

  lemma SourceNotEmpty(a: string)
    requires Valid(a)
    ensures PrereleaseSource(a).Some? ==> PrereleaseSource(a).value != ""
  {
    assert Split("", '.')[0] == "";
    assert "" in Split("", '.') && !PrereleaseIdentifier("");
  }

  lemma Reassembled(a: string)
    ensures WithoutBuild(a) == Core(a) + (match PrereleaseSource(a) case None => "" case Some(p) => "-" + p)
  {
    var w, core := WithoutBuild(a), Core(a);
    if |core| < |w| {
      assert w == w[..|core|] + [w[|core|]] + w[|core| + 1..];
    }
  }

  // ---- the text of a version ----

  /** Three numbers as written, the dot-separated pre-release, and the build metadata; an empty list is none. */
  datatype Spelling = Spelling(major: string, minor: string, patch: string, prerelease: seq<string>, build: seq<string>)

  function Tail(mark: char, parts: seq<string>): string {
    if parts == [] then "" else [mark] + Join(parts, '.')
  }

  function Written(s: Spelling): string {
    Numbers(s) + Tail('-', s.prerelease) + Tail('+', s.build)
  }

  function Numbers(s: Spelling): string { Join([s.major, s.minor, s.patch], '.') }

  lemma NumbersAre(s: Spelling)
    ensures Numbers(s) == s.major + "." + s.minor + "." + s.patch
  {
    var parts := [s.major, s.minor, s.patch];
    assert parts[1..] == [s.minor, s.patch] && parts[1..][1..] == [s.patch];
    assert Join(parts[1..], '.') == s.minor + ['.'] + s.patch;
    var rest := Join(parts[1..], '.');
    assert Numbers(s) == s.major + ['.'] + rest;
  }

  ghost predicate SpellingOk(s: Spelling) {
    && NumericPart(s.major) && NumericPart(s.minor) && NumericPart(s.patch)
    && WellFormedList(s.prerelease) && forall i | 0 <= i < |s.build| :: Identifier(s.build[i])
  }

  ghost predicate Spells(s: Spelling, v: string) { SpellingOk(s) && v == Written(s) }

  /** Section 11, on the text: number by number, then by the pre-release; build metadata does not matter. */
  ghost predicate Below(a: Spelling, b: Spelling) {
    || NumberBelow(a.major, b.major)
    || (a.major == b.major && NumberBelow(a.minor, b.minor))
    || (a.major == b.major && a.minor == b.minor && NumberBelow(a.patch, b.patch))
    || (a.major == b.major && a.minor == b.minor && a.patch == b.patch
        && a.prerelease != [] && (b.prerelease == [] || ListBelow(a.prerelease, b.prerelease)))
  }

  lemma {:induction false} JoinLacks(parts: seq<string>, c: char)
    requires c != '.' && forall i | 0 <= i < |parts| :: c !in parts[i]
    ensures c !in Join(parts, '.')
  {
    if |parts| > 1 { JoinLacks(parts[1..], c); }
  }

  lemma CoreIsThree(s: Spelling)
    requires SpellingOk(s)
    ensures Split(Numbers(s), '.') == [s.major, s.minor, s.patch] && '-' !in Numbers(s) && '+' !in Numbers(s)
  {
    var parts := [s.major, s.minor, s.patch];
    SplitJoin(parts, '.');
    JoinLacks(parts, '-');
    JoinLacks(parts, '+');
  }

  lemma BeforeMark(head: string, tail: string, mark: char)
    requires mark !in head
    ensures Before(head + [mark] + tail, mark) == head && (head + [mark] + tail)[|head| + 1..] == tail
    ensures Before(head, mark) == head
  {
    BeforeAppend(head, tail, mark);
  }

  lemma TailMark(head: string, mark: char, parts: seq<string>)
    requires mark !in head
    ensures
      var s := head + Tail(mark, parts);
      && Before(s, mark) == head && (|head| < |s| <==> parts != [])
      && (parts != [] ==> s[|head| + 1..] == Join(parts, '.'))
  {
    BeforeMark(head, Join(parts, '.'), mark);
    hide Join, Before;
    if parts == [] {
      assert head + Tail(mark, parts) == head;
    } else {
      assert head + Tail(mark, parts) == head + [mark] + Join(parts, '.');
    }
  }

  /** What the program reads off a text that is spelled so. */
  lemma ReadsSpelling(s: Spelling)
    requires SpellingOk(s)
    ensures Reads(s, Written(s))
  {
    CoreIsThree(s);
    JoinLacks(s.prerelease, '+');
    TailMark(Numbers(s), '-', s.prerelease);
    assert '+' !in Tail('-', s.prerelease);
    var w := Numbers(s) + Tail('-', s.prerelease);
    hide Numbers, SpellingOk, Tail, Join;
    TailMark(w, '+', s.build);
    ReadsMarked(s, w, Written(s));
  }

  lemma ReadsMarked(s: Spelling, w: string, v: string)
    requires w == Numbers(s) + Tail('-', s.prerelease) && v == w + Tail('+', s.build)
    requires Before(w, '-') == Numbers(s) && (|Numbers(s)| < |w| <==> s.prerelease != [])
    requires s.prerelease != [] ==> w[|Numbers(s)| + 1..] == Join(s.prerelease, '.')
    requires Before(v, '+') == w && (|w| < |v| <==> s.build != [])
    requires s.build != [] ==> v[|w| + 1..] == Join(s.build, '.')
    ensures Reads(s, v)
  {
    hide Numbers, Tail, Join, Before;
  }

  ghost predicate Reads(s: Spelling, v: string) {
    && Core(v) == Numbers(s)
    && PrereleaseSource(v) == (if s.prerelease == [] then None else Some(Join(s.prerelease, '.')))
    && WithoutBuild(v) == Numbers(s) + Tail('-', s.prerelease)
    && (|WithoutBuild(v)| < |v| <==> s.build != [])
    && (s.build != [] ==> v[|WithoutBuild(v)| + 1..] == Join(s.build, '.'))
  }

  lemma SplitsBack(parts: seq<string>)
    requires parts != [] && forall i | 0 <= i < |parts| :: Identifier(parts[i])
    ensures Split(Join(parts, '.'), '.') == parts && Join(parts, '.') != ""
  {
    SplitJoin(parts, '.');
  }

  lemma SpellingParses(s: Spelling)
    requires SpellingOk(s)
    ensures Valid(Written(s))
    ensures Parse(Written(s)) == Version(NatOf(s.major), NatOf(s.minor), NatOf(s.patch),
                                         if s.prerelease == [] then None else Some(s.prerelease))
  {
    ReadsSpelling(s);
    CoreIsThree(s);
    if s.prerelease != [] { SplitsBack(s.prerelease); }
    if s.build != [] { SplitsBack(s.build); }
    hide Written;
    ParsesAsRead(s, Written(s));
  }

  lemma ParsesAsRead(s: Spelling, v: string)
    requires SpellingOk(s) && Reads(s, v) && Split(Numbers(s), '.') == [s.major, s.minor, s.patch]
    requires s.prerelease != [] ==> Split(Join(s.prerelease, '.'), '.') == s.prerelease && Join(s.prerelease, '.') != ""
    requires s.build != [] ==> Split(Join(s.build, '.'), '.') == s.build
    ensures Valid(v)
    ensures Parse(v) == Version(NatOf(s.major), NatOf(s.minor), NatOf(s.patch),
                                if s.prerelease == [] then None else Some(s.prerelease))
  {
    hide Numbers, Core, PrereleaseSource, WithoutBuild, Split, Join, Tail, NatOf, NumericPart, Identifier;
  }

  /** The schema accepts exactly what is spelled so. */
  lemma ValidIsSpelled(v: string)
    ensures Valid(v) <==> exists s :: Spells(s, v)
  {
    if Valid(v) {
      var core := Split(Core(v), '.');
      var s := Spelling(core[0], core[1], core[2],
        match PrereleaseSource(v) case None => [] case Some(p) => Split(p, '.'),
        if |WithoutBuild(v)| < |v| then Split(v[|WithoutBuild(v)| + 1..], '.') else []);
      ValidSpells(v, s);
      assert Spells(s, v);
    }
    if s :| Spells(s, v) { SpellingParses(s); }
  }

  lemma ValidSpells(v: string, s: Spelling)
    requires Valid(v)
    requires [s.major, s.minor, s.patch] == Split(Core(v), '.')
    requires s.prerelease == match PrereleaseSource(v) case None => [] case Some(p) => Split(p, '.')
    requires s.build == if |WithoutBuild(v)| < |v| then Split(v[|WithoutBuild(v)| + 1..], '.') else []
    ensures Spells(s, v)
  {
    JoinSplit(Core(v), '.');
    assert Numbers(s) == Core(v);
    assert NumericPart(s.major) && NumericPart(s.minor) && NumericPart(s.patch) by {
      assert s.major == Split(Core(v), '.')[0] && s.minor == Split(Core(v), '.')[1]
        && s.patch == Split(Core(v), '.')[2];
    }
    PrereleaseTail(v, s.prerelease);
    BuildTail(v, s.build);
    hide Valid, Core, WithoutBuild, Split, Join, Tail;
  }

  lemma PrereleaseTail(v: string, parts: seq<string>)
    requires parts == match PrereleaseSource(v) case None => [] case Some(p) => Split(p, '.')
    ensures WithoutBuild(v) == Core(v) + Tail('-', parts)
  {
    Reassembled(v);
    if PrereleaseSource(v).Some? {
      JoinSplit(PrereleaseSource(v).value, '.');
      assert "-" == ['-'];
    }
    hide Core, WithoutBuild, PrereleaseSource, Split, Join;
  }

  lemma BuildTail(v: string, parts: seq<string>)
    requires parts == if |WithoutBuild(v)| < |v| then Split(v[|WithoutBuild(v)| + 1..], '.') else []
    ensures v == WithoutBuild(v) + Tail('+', parts)
  {
    var w := WithoutBuild(v);
    if |w| < |v| {
      JoinSplit(v[|w| + 1..], '.');
      MarkedAt(v, |w|);
    }
    hide Split, Join;
  }

  lemma MarkedAt(v: string, i: nat)
    requires i < |v|
    ensures v == v[..i] + ([v[i]] + v[i + 1..])
  {
  }

  /** `compareSemver` decides by the text, as section 11 says. */
  lemma SpelledOrder(a: Spelling, b: Spelling)
    requires SpellingOk(a) && SpellingOk(b)
    ensures Valid(Written(a)) && Valid(Written(b))
    ensures
      var r := Order(Written(a), Written(b));
      && r in {-1, 0, 1} && (r == -1 <==> Below(a, b)) && (r == 1 <==> Below(b, a))
      && (r == 0 <==> a.(build := []) == b.(build := []))
  {
    SpellingParses(a);
    SpellingParses(b);
    var x, y := Parse(Written(a)), Parse(Written(b));
    CompareIsPrecedence(x, y);
    PartsAgree(a.major, b.major);
    PartsAgree(a.minor, b.minor);
    PartsAgree(a.patch, b.patch);
    hide Valid, Parse, Written, NatOf, NumberBelow, ListBelow, NumericPart, Compare;
  }

  lemma PartsAgree(a: string, b: string)
    requires NumericPart(a) && NumericPart(b)
    ensures NatOf(a) < NatOf(b) <==> NumberBelow(a, b)
    ensures NatOf(b) < NatOf(a) <==> NumberBelow(b, a)
    ensures NatOf(a) == NatOf(b) <==> a == b
  {
    NumbersAgree(a, b);
    NumbersAgree(b, a);
    NatInjective(a, b);
  }

  lemma OrderIsBelow(left: string, right: string)
    requires Valid(left) && Valid(right)
    ensures forall a, b | Spells(a, left) && Spells(b, right) ::
      var r := Order(left, right);
      (r == -1 <==> Below(a, b)) && (r == 1 <==> Below(b, a)) && (r == 0 <==> a.(build := []) == b.(build := []))
    ensures Order(left, right) in {-1, 0, 1}
  {
    forall a, b | Spells(a, left) && Spells(b, right) ensures
      var r := Order(left, right);
      (r == -1 <==> Below(a, b)) && (r == 1 <==> Below(b, a)) && (r == 0 <==> a.(build := []) == b.(build := []))
    {
      SpelledOrder(a, b);
    }
    ParseWellFormed(left);
    ParseWellFormed(right);
    CompareIsPrecedence(Parse(left), Parse(right));
  }

  /** Of two version strings, the first has lower precedence. */
  ghost predicate VersionBelow(left: string, right: string) {
    exists a, b :: Spells(a, left) && Spells(b, right) && Below(a, b)
  }

  lemma OrderIsVersionBelow(left: string, right: string)
    requires Valid(left) && Valid(right)
    ensures Order(left, right) < 0 <==> VersionBelow(left, right)
    ensures Order(left, right) > 0 <==> VersionBelow(right, left)
  {
    ValidIsSpelled(left);
    ValidIsSpelled(right);
    OrderIsBelow(left, right);
    hide *;
    BelowFor(left, right, Order(left, right));
  }

  lemma BelowFor(left: string, right: string, r: int)
    requires (exists s :: Spells(s, left)) && exists s :: Spells(s, right)
    requires r in {-1, 0, 1}
    requires forall a, b | Spells(a, left) && Spells(b, right) ::
      (r == -1 <==> Below(a, b)) && (r == 1 <==> Below(b, a))
    ensures r < 0 <==> VersionBelow(left, right)
    ensures r > 0 <==> VersionBelow(right, left)
  {
    hide Spells, Below;
    var a :| Spells(a, left);
    var b :| Spells(b, right);
    assert (r == -1 <==> Below(a, b)) && (r == 1 <==> Below(b, a));
  }
}
