/**
 * The path part of `validateSourceRepository` in scripts/modules-cli.ts: the
 * WHATWG URL parser resolves dot segments, then the program drops trailing
 * slashes and one `.git`.  Lock entries must hold a repository that the function
 * maps to itself, but the function is not idempotent.
 */
module SourceRepository {
  import opened Common
  import opened Text

  // ---- `new URL(value).pathname` ----

  function Lower(c: char): char { if 'A' <= c <= 'Z' then c + ('a' - 'A') else c }

  function LowerAll(s: string): string {
    seq(|s|, i requires 0 <= i < |s| => Lower(s[i]))
  }

  predicate SingleDot(segment: string) { LowerAll(segment) in {".", "%2e"} }

  predicate DoubleDot(segment: string) { LowerAll(segment) in {"..", ".%2e", "%2e.", "%2e%2e"} }

  predicate Dots(segment: string) { SingleDot(segment) || DoubleDot(segment) }

  function Shorten(path: seq<string>): seq<string> {
    if path == [] then [] else path[..|path| - 1]
  }

  /** The path state of the URL parser: `done` are the segments kept so far. */
  function Resolve(segments: seq<string>, done: seq<string>): seq<string>
    requires segments != []
  {
    var s := segments[0];
    if |segments| == 1 then
      if DoubleDot(s) then Shorten(done) + [""] else if SingleDot(s) then done + [""] else done + [s]
    else Resolve(segments[1..], if DoubleDot(s) then Shorten(done) else if SingleDot(s) then done else done + [s])
  }

  function PathOf(segments: seq<string>): string { "/" + Join(segments, '/') }

  /** The path as the parser leaves it; `raw` is what follows the host, empty or starting with a slash. */
  function Pathname(raw: string): string {
    PathOf(Resolve(Split(if raw == "" then "" else raw[1..], '/'), []))
  }

  // ---- what the program makes of it ----

  /** `replace(/\/+$/, '')`. */
  function StripSlashes(p: string): (r: string)
    ensures r <= p && (r != "" ==> r[|r| - 1] != '/')
    ensures (p != "" ==> p[|p| - 1] != '/') ==> r == p
  {
    if p != "" && p[|p| - 1] == '/' then StripSlashes(p[..|p| - 1]) else p
  }

  predicate EndsInSlash(p: string) { p != "" && p[|p| - 1] == '/' }

  /** `/\.git$/i`. */
  predicate EndsInGit(p: string) {
    |p| >= 4 && p[|p| - 4] == '.' && p[|p| - 3] in "gG" && p[|p| - 2] in "iI" && p[|p| - 1] in "tT"
  }

  /** `.git` in any case. */
  lemma EndsInGitIs(p: string)
    ensures EndsInGit(p) <==> |p| >= 4 && LowerAll(p[|p| - 4..]) == ".git"
  {
    if |p| >= 4 {
      var end := p[|p| - 4..];
      assert LowerAll(end) == [Lower(end[0]), Lower(end[1]), Lower(end[2]), Lower(end[3])];
      assert ".git" == ['.', 'g', 'i', 't'];
    }
  }

  /** The last segment is one the URL parser resolves away. */
  predicate EndsInDots(p: string) {
    var segments := Split(p, '/');
    Dots(segments[|segments| - 1])
  }

  function StripGit(p: string): string { if EndsInGit(p) then p[..|p| - 4] else p }

  /** The canonical path, or None where the function throws. */
  function Canonical(raw: string): Option<string> {
    var q := StripGit(StripSlashes(Pathname(raw)));
    if q == "" || q == "/" then None else Some(q)
  }

  /** What is left without trailing slashes ends in `.git`, and that in a slash, in `.git`, or in a dot segment. */
  predicate Unstable(raw: string) {
    var kept := StripSlashes(Pathname(raw));
    EndsInGit(kept) && var cut := kept[..|kept| - 4]; EndsInSlash(cut) || EndsInGit(cut) || EndsInDots(cut)
  }

  // ---- whole URLs ----

  /** A character the URL parser leaves as it is in a path; the others it encodes, or ends the path at. */
  predicate PathChar(c: char) { '!' <= c <= '~' && c !in "\"#<>?\\^`{}" }

  predicate PathText(path: string) {
    (path == "" || path[0] == '/') && forall i | 0 <= i < |path| :: PathChar(path[i])
  }

  function Url(host: string, path: string): string { "https://" + host + path }

  /** `repository` is `validateSourceRepository` on the URLs of one host in lower case. */
  ghost predicate ReadsPaths(repository: string -> Option<string>, host: string) {
    forall path | PathText(path) :: repository(Url(host, path)) == Read(host, path)
  }

  function Read(host: string, path: string): Option<string> {
    match Canonical(path)
    case None => None
    case Some(q) => Some(Url(host, q))
  }

  // ---- the URL parser leaves what it has resolved alone ----

  predicate Plain(segments: seq<string>) {
    segments != [] && forall i | 0 <= i < |segments| :: '/' !in segments[i]
  }

  predicate Resolved(segments: seq<string>) {
    forall i | 0 <= i < |segments| :: '/' !in segments[i] && !Dots(segments[i])
  }

  lemma {:induction false} ResolveResolves(segments: seq<string>, done: seq<string>)
    requires Plain(segments) && Resolved(done)
    ensures Resolve(segments, done) != [] && Resolved(Resolve(segments, done))
  {
    if |segments| > 1 {
      var s := segments[0];
      ResolveResolves(segments[1..], if DoubleDot(s) then Shorten(done) else if SingleDot(s) then done else done + [s]);
    }
  }

  /** A single dot stands for nothing, and leaves a trailing slash where it is last. */
  lemma {:induction false} DotGoes(before: seq<string>, dot: string, rest: seq<string>, done: seq<string>)
    requires SingleDot(dot)
    ensures Resolve(before + [dot] + rest, done) == Resolve(before + if rest == [] then [""] else rest, done)
  {
    var kept := if rest == [] then [""] else rest;
    if before == [] {
      assert [] + [dot] + rest == [dot] + rest && ([dot] + rest)[1..] == rest && [] + kept == kept;
    } else {
      var b := before[0];
      var next := if DoubleDot(b) then Shorten(done) else if SingleDot(b) then done else done + [b];
      assert (before + [dot] + rest)[1..] == before[1..] + [dot] + rest && (before + kept)[1..] == before[1..] + kept;
      DotGoes(before[1..], dot, rest, next);
    }
  }

  /** A double dot takes the segment before it away, and leaves a trailing slash where it is last. */
  lemma {:induction false} DotsCancel(before: seq<string>, s: string, dots: string, rest: seq<string>,
                                      done: seq<string>)
    requires !Dots(s) && DoubleDot(dots)
    ensures Resolve(before + [s, dots] + rest, done) == Resolve(before + if rest == [] then [""] else rest, done)
  {
    var kept := if rest == [] then [""] else rest;
    if before == [] {
      assert [] + [s, dots] + rest == [s, dots] + rest && ([s, dots] + rest)[1..] == [dots] + rest;
      assert ([dots] + rest)[1..] == rest && [] + kept == kept && Shorten(done + [s]) == done;
    } else {
      var b := before[0];
      var next := if DoubleDot(b) then Shorten(done) else if SingleDot(b) then done else done + [b];
      assert (before + [s, dots] + rest)[1..] == before[1..] + [s, dots] + rest
        && (before + kept)[1..] == before[1..] + kept;
      DotsCancel(before[1..], s, dots, rest, next);
    }
  }

  /** At the root a double dot takes nothing away. */
  lemma DotsAtRoot(dots: string, rest: seq<string>)
    requires DoubleDot(dots)
    ensures Resolve([dots] + rest, []) == Resolve(if rest == [] then [""] else rest, [])
  {
    assert ([dots] + rest)[1..] == rest;
  }

  /** The spellings of the two. */
  lemma DotSpellings()
    ensures SingleDot(".") && SingleDot("%2e") && SingleDot("%2E")
    ensures DoubleDot("..") && DoubleDot(".%2e") && DoubleDot("%2e.") && DoubleDot("%2E%2e")
    ensures !Dots("") && !Dots("...") && !Dots("%2f")
  {
    assert LowerAll(".") == "." && LowerAll("%2e") == "%2e" && LowerAll("%2E") == "%2e";
    assert LowerAll("..") == ".." && LowerAll(".%2e") == ".%2e" && LowerAll("%2e.") == "%2e.";
    assert LowerAll("%2E%2e") == "%2e%2e" && LowerAll("...") == "..." && LowerAll("%2f") == "%2f";
  }

  /** Of segments without dots before the last, only the last can change. */
  lemma {:induction false} ResolveSame(init: seq<string>, last: string, done: seq<string>)
    requires Resolved(init)
    ensures Resolve(init + [last], done) ==
      if DoubleDot(last) then Shorten(done + init) + [""] else done + init + if SingleDot(last) then [""] else [last]
  {
    var segments := init + [last];
    if init == [] {
      assert done + init == done;
    } else {
      assert segments[1..] == init[1..] + [last] && segments[0] == init[0];
      ResolveSame(init[1..], last, done + [init[0]]);
      assert done + [init[0]] + init[1..] == done + init;
    }
  }

  /** A path whose segments need no resolving, but perhaps the last, read again. */
  lemma PathAgain(init: seq<string>, last: string)
    requires Resolved(init) && '/' !in last
    ensures EndsInDots(PathOf(init + [last])) <==> Dots(last)
    ensures Pathname(PathOf(init + [last])) ==
      PathOf(if DoubleDot(last) then Shorten(init) + [""] else init + if SingleDot(last) then [""] else [last])
  {
    var segments := init + [last];
    var path := PathOf(segments);
    SplitJoin(segments, '/');
    assert path[1..] == Join(segments, '/');
    assert Split(path, '/') == [""] + segments;
    ResolveSame(init, last, []);
    assert [] + init == init;
  }

  lemma DotsShorten(init: seq<string>, last: string)
    requires Resolved(init) && '/' !in last && Dots(last)
    ensures |Pathname(PathOf(init + [last]))| < |PathOf(init + [last])|
  {
    PathAgain(init, last);
    JoinShorter(init, last);
    assert |last| > 0 by { assert |LowerAll(last)| == |last|; }
  }

  lemma JoinShorter(init: seq<string>, last: string)
    ensures |Join(init + [""], '/')| + |last| == |Join(init + [last], '/')|
    ensures |Join(Shorten(init) + [""], '/')| <= |Join(init + [""], '/')|
  {
    if init != [] {
      JoinSnoc(init, "", '/');
      JoinSnoc(init, last, '/');
      assert init == Shorten(init) + [init[|init| - 1]];
      if |init| > 1 {
        JoinSnoc(Shorten(init), "", '/');
        JoinSnoc(Shorten(init), init[|init| - 1], '/');
      }
    }
  }

  /** Without its trailing slashes a path loses its trailing empty segments. */
  lemma {:induction false} StripIsPath(segments: seq<string>) returns (init: seq<string>, last: string)
    requires segments != [] && Resolved(segments)
    ensures Resolved(init) && '/' !in last && !Dots(last)
    ensures StripSlashes(PathOf(segments)) == if last == "" then "" else PathOf(init + [last])
  {
    init, last := segments[..|segments| - 1], segments[|segments| - 1];
    assert segments == init + [last];
    PathSnoc(init, last);
    var path := PathOf(segments);
    if last == "" {
      hide PathOf, Dots;
      if init != [] { init, last := StripIsPath(init); }
    } else {
      assert path[|path| - |last|..][|last| - 1] == last[|last| - 1];
      hide PathOf, Dots;
    }
  }

  lemma PathSnoc(init: seq<string>, last: string)
    ensures |PathOf(init + [last])| > |last| && PathOf(init + [last])[|PathOf(init + [last])| - |last|..] == last
    ensures last == "" ==> EndsInSlash(PathOf(init + [last]))
    ensures last == "" ==>
      PathOf(init + [last])[..|PathOf(init + [last])| - 1] == if init == [] then "" else PathOf(init)
  {
    if init == [] {
      assert init + [last] == [last];
    } else {
      JoinSnoc(init, last, '/');
    }
  }

  /** A path in `.git` is one whose last segment is. */
  lemma GitIsLast(init: seq<string>, last: string)
    requires '/' !in last
    ensures EndsInGit(PathOf(init + [last])) <==> EndsInGit(last)
    ensures EndsInGit(last) ==>
      var path := PathOf(init + [last]);
      path[..|path| - 4] == PathOf(init + [last[..|last| - 4]])
  {
    var path := PathOf(init + [last]);
    if init != [] { JoinSnoc(init, last, '/'); }
    var before := path[..|path| - |last|];
    assert path == before + last && before != "" && before[|before| - 1] == '/';
    if EndsInGit(path) && |last| < 4 { assert path[|before| - 1] == '/'; }
    if EndsInGit(last) {
      if init != [] { JoinSnoc(init, last[..|last| - 4], '/'); }
      assert path[..|path| - 4] == before + last[..|last| - 4];
    }
  }

  /**
   * A canonical path is canonical again exactly when what was left after
   * dropping trailing slashes did not end in `.git` after a slash, after another
   * `.git`, or after a dot segment.
   */
  lemma CanonicalAgain(raw: string)
    requires Canonical(raw).Some?
    ensures Canonical(Canonical(raw).value) == Canonical(raw) <==> !Unstable(raw)
  {
    var init, last := KeptIsPath(raw);
    GitIsLast(init, last);
    hide Pathname, PathOf, StripSlashes, EndsInSlash, EndsInGit, EndsInDots, SingleDot, DoubleDot, Resolved, Split,
      Join;
    CutAgain(init, if EndsInGit(last) then last[..|last| - 4] else last);
    if !EndsInGit(last) { LastIsPlain(init, last); }
  }

  lemma KeptIsPath(raw: string) returns (init: seq<string>, last: string)
    ensures Resolved(init) && '/' !in last && !Dots(last)
    ensures StripSlashes(Pathname(raw)) == if last == "" then "" else PathOf(init + [last])
  {
    var given := Split(if raw == "" then "" else raw[1..], '/');
    hide PathOf, StripSlashes, Resolve, SingleDot, DoubleDot, Split, Join;
    ResolveResolves(given, []);
    init, last := StripIsPath(Resolve(given, []));
  }

  /** A path once stripped, read and stripped again. */
  lemma CutAgain(init: seq<string>, last: string)
    requires Resolved(init) && '/' !in last && PathOf(init + [last]) != "/"
    ensures
      var q := PathOf(init + [last]);
      Canonical(q) == Some(q) <==> !(EndsInSlash(q) || EndsInGit(q) || EndsInDots(q))
  {
    PathAgain(init, last);
    if Dots(last) { DotsShorten(init, last); }
    hide Canonical, Pathname, PathOf, StripSlashes, EndsInSlash, EndsInGit, Resolved, SingleDot, DoubleDot, Split,
      Join;
    if Dots(last) { ShorterChanges(PathOf(init + [last])); } else { SameChangesByCuts(PathOf(init + [last])); }
  }

  lemma ShorterChanges(q: string)
    requires |Pathname(q)| < |q|
    ensures Canonical(q) != Some(q)
  {
    hide Pathname;
    assert |StripSlashes(Pathname(q))| < |q|;
  }

  lemma SameChangesByCuts(q: string)
    requires Pathname(q) == q && q != "" && q != "/"
    ensures Canonical(q) == Some(q) <==> !(EndsInSlash(q) || EndsInGit(q))
  {
    hide Pathname;
    if EndsInSlash(q) { assert |StripSlashes(q)| < |q|; }
  }

  lemma LastIsPlain(init: seq<string>, last: string)
    requires Resolved(init) && '/' !in last && last != "" && !Dots(last) && !EndsInGit(last)
    ensures !EndsInSlash(PathOf(init + [last])) && !EndsInGit(PathOf(init + [last]))
    ensures !EndsInDots(PathOf(init + [last]))
  {
    PathAgain(init, last);
    GitIsLast(init, last);
    if init != [] { JoinSnoc(init, last, '/'); }
  }

  // ---- a canonical path is a path ----

  predicate Texts(segments: seq<string>) {
    forall i, j | 0 <= i < |segments| && 0 <= j < |segments[i]| :: PathChar(segments[i][j])
  }

  lemma {:induction false} SplitTexts(s: string)
    requires forall i | 0 <= i < |s| :: PathChar(s[i])
    ensures Texts(Split(s, '/'))
    decreases |s|
  {
    var first := Before(s, '/');
    if |first| < |s| { SplitTexts(s[|first| + 1..]); }
  }

  lemma {:induction false} ResolveTexts(segments: seq<string>, done: seq<string>)
    requires segments != [] && Texts(segments) && Texts(done)
    ensures Texts(Resolve(segments, done))
  {
    if |segments| > 1 {
      var s := segments[0];
      ResolveTexts(segments[1..], if DoubleDot(s) then Shorten(done) else if SingleDot(s) then done else done + [s]);
    }
  }

  lemma {:induction false} JoinTexts(segments: seq<string>)
    requires Texts(segments)
    ensures forall i | 0 <= i < |Join(segments, '/')| :: PathChar(Join(segments, '/')[i])
  {
    if |segments| > 1 { JoinTexts(segments[1..]); }
  }

  lemma CanonicalIsPath(path: string)
    requires PathText(path) && Canonical(path).Some?
    ensures PathText(Canonical(path).value)
  {
    var given := Split(if path == "" then "" else path[1..], '/');
    SplitTexts(if path == "" then "" else path[1..]);
    ResolveTexts(given, []);
    JoinTexts(Resolve(given, []));
    assert Pathname(path) == "/" + Join(Resolve(given, []), '/');
    assert Canonical(path).value <= Pathname(path);
  }

  /** Whoever reads a canonical repository URL again gets the same exactly if the path was not unstable. */
  lemma ReadAgain(repository: string -> Option<string>, host: string, path: string)
    requires ReadsPaths(repository, host) && PathText(path) && repository(Url(host, path)).Some?
    ensures
      var first := repository(Url(host, path)).value;
      repository(first) == Some(first) <==> !Unstable(path)
  {
    CanonicalAgain(path);
    CanonicalIsPath(path);
    hide Canonical, PathText, Unstable, Url;
    var q := Canonical(path).value;
    if Canonical(q).Some? { SameUrl(host, q, Canonical(q).value); }
  }

  lemma SameUrl(host: string, a: string, b: string)
    ensures Url(host, a) == Url(host, b) <==> a == b
  {
    assert Url(host, a)[|"https://" + host|..] == a && Url(host, b)[|"https://" + host|..] == b;
  }

  // ---- paths accepted from the command line and refused once they are in the lock ----

  lemma SecondIs(last: string)
    ensures PathOf(["a"] + [last]) == "/a/" + last
  {
    JoinSnoc(["a"], last, '/');
    assert "/" + ("a" + ['/'] + last) == "/a/" + last;
  }

  lemma SecondSegment(last: string)
    requires '/' !in last
    ensures Pathname("/a/" + last) == if DoubleDot(last) then "/" else if SingleDot(last) then "/a/" else "/a/" + last
  {
    assert LowerAll("a") == "a";
    PathAgain(["a"], last);
    SecondIs(last);
    SecondIs("");
    hide Pathname, Resolved, SingleDot, DoubleDot, EndsInDots;
    assert Shorten(["a"]) + [""] == [""];
    assert PathOf([""]) == "/" + "";
  }

  lemma OneSlash(p: string)
    requires !EndsInSlash(p)
    ensures StripSlashes(p + "/") == p
  {
    assert (p + "/")[..|p|] == p;
  }

  /** With `.git` at its end no segment is a dot segment, whatever is left when that is cut. */
  lemma GitIsPlain(x: string)
    ensures !Dots(x + ".git")
  {
    var lower := LowerAll(x + ".git");
    assert lower[|lower| - 1] == 't';
  }

  lemma RootThrows(raw: string)
    requires Pathname(raw) == "/"
    ensures Canonical(raw) == None
  {
    OneSlash("");
    assert "" + "/" == "/";
  }

  lemma SlashGoes(raw: string)
    requires Pathname(raw) == "/a/"
    ensures Canonical(raw) == Some("/a")
  {
    hide Pathname;
    OneSlash("/a");
    assert "/a" + "/" == "/a/";
  }

  lemma CutGit(raw: string, q: string)
    requires Pathname(raw) == q + ".git" && q != "" && q != "/"
    ensures Canonical(raw) == Some(q)
  {
    hide Pathname;
    assert (q + ".git")[..|q|] == q;
  }

  lemma GitCut(x: string)
    requires '/' !in x
    ensures Canonical("/a/" + (x + ".git")) == Some("/a/" + x)
  {
    GitIsPlain(x);
    SecondSegment(x + ".git");
    hide Pathname, Canonical, LowerAll, SingleDot, DoubleDot, EndsInGit, StripSlashes, StripGit;
    assert "/a/" + (x + ".git") == "/a/" + x + ".git";
    CutGit("/a/" + (x + ".git"), "/a/" + x);
  }

  /** `.git` after a dot segment, however that is spelt: changed by a second reading, or not even accepted. */
  lemma GitAfterDots(x: string)
    requires Dots(x) && '/' !in x
    ensures Canonical("/a/" + (x + ".git")) == Some("/a/" + x)
    ensures Canonical("/a/" + x) == if DoubleDot(x) then None else Some("/a")
  {
    GitCut(x);
    SecondSegment(x);
    hide Pathname, Canonical, LowerAll, SingleDot, DoubleDot, EndsInGit, StripSlashes, StripGit;
    if DoubleDot(x) { RootThrows("/a/" + x); } else { SlashGoes("/a/" + x); }
  }

  /** `.git` after a slash: the second reading drops the slash. */
  lemma GitAfterSlash()
    ensures Canonical("/a/.git") == Some("/a/") && Canonical("/a/") == Some("/a")
  {
    GitCut("");
    SecondSegment("");
    assert "/a/" + ("" + ".git") == "/a/.git" && "/a/" + "" == "/a/";
    assert LowerAll("") == "";
    hide Pathname, Canonical;
    SlashGoes("/a/");
  }

  /** `.git` after `.git`: the second reading drops the second. */
  lemma GitAfterGit(x: string)
    requires '/' !in x
    ensures Canonical("/a/" + (x + ".git" + ".git")) == Some("/a/" + (x + ".git"))
    ensures Canonical("/a/" + (x + ".git")) == Some("/a/" + x)
  {
    GitCut(x + ".git");
    GitCut(x);
  }

  /** The shortest of them. */
  lemma GitAfterDot()
    ensures Canonical("/a/" + "..git") == Some("/a/" + ".") && Canonical("/a/" + ".") == Some("/a")
  {
    assert LowerAll(".") == "." && "." + ".git" == "..git";
    hide Canonical;
    GitAfterDots(".");
  }
}
