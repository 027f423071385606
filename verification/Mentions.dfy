/**
 * `splitCodeRegions`, `rewritePlainRegion` and `backfillMentions` of
 * docs/deprecated/openclaw/openclaw-chat-envelope.ts: `@Firstname` becomes a
 * mention outside code, and nothing else changes.
 */
module Mentions {
  import opened Common

  const TICK := '`'

  datatype Region = Region(text: string, code: bool)

  function Concat(regions: seq<Region>): string {
    if regions == [] then "" else regions[0].text + Concat(regions[1..])
  }

  // ---- searching ----

  /** `content.startsWith('```', i)`. */
  predicate FenceAt(s: string, i: nat) { i + 3 <= |s| && s[i] == TICK && s[i + 1] == TICK && s[i + 2] == TICK }

  lemma FenceIs(s: string, i: nat)
    ensures FenceAt(s, i) <==> i + 3 <= |s| && s[i..i + 3] == "```"
  {
  }

  /** `content.indexOf('```', from)`. */
  function FindFence(s: string, from: nat): (r: Option<nat>)
    ensures r.Some? ==> from <= r.value && FenceAt(s, r.value) && forall j | from <= j < r.value :: !FenceAt(s, j)
    ensures r.None? ==> forall j | from <= j :: !FenceAt(s, j)
    decreases |s| - from
  {
    if from + 3 > |s| then None else if FenceAt(s, from) then Some(from) else FindFence(s, from + 1)
  }

  /** The first backtick at `from` or later. */
  function FindTick(s: string, from: nat): (r: Option<nat>)
    ensures r.Some? ==> from <= r.value < |s| && s[r.value] == TICK && forall j | from <= j < r.value :: s[j] != TICK
    ensures r.None? ==> forall j | from <= j < |s| :: s[j] != TICK
    decreases |s| - from
  {
    if from >= |s| then None else if s[from] == TICK then Some(from) else FindTick(s, from + 1)
  }

  // ---- what the regions of a text are ----

  /** Opened by a fence and closed by the next one. */
  ghost predicate ClosedFence(t: string) {
    |t| >= 6 && FenceAt(t, 0) && FenceAt(t, |t| - 3) && forall j | 3 <= j < |t| - 3 :: !FenceAt(t, j)
  }

  ghost predicate OpenFence(t: string) { FenceAt(t, 0) && forall j | 3 <= j :: !FenceAt(t, j) }

  /** One backtick to the next. */
  ghost predicate Inline(t: string) {
    |t| >= 2 && t[0] == '`' && t[|t| - 1] == '`' && forall j | 0 < j < |t| - 1 :: t[j] != '`'
  }

  ghost predicate NoTick(t: string) { '`' !in t }

  ghost predicate OpenTick(t: string) { t != "" && t[0] == '`' && NoTick(t[1..]) }

  /** `first` is the region a text starts with when `rest` is what follows it. */
  ghost predicate StartsWith(first: Region, rest: string) {
    var t := first.text;
    if FenceAt(t + rest, 0) then first.code && (ClosedFence(t) || (OpenFence(t) && rest == ""))
    else if first.code then Inline(t)
    else t != "" && ((NoTick(t) && (rest == "" || rest[0] == '`')) || (OpenTick(t) && rest == ""))
  }

  /** `regions` divides the first `n` characters of `content` into code and plain text. */
  ghost predicate DividesUpTo(regions: seq<Region>, content: string, n: nat) {
    if regions == [] then n == 0
    else
      var m := |regions[0].text|;
      && regions[0].text <= content && m <= n
      && StartsWith(regions[0], content[m..]) && DividesUpTo(regions[1..], content[m..], n - m)
  }

  ghost predicate Divides(regions: seq<Region>, content: string) { DividesUpTo(regions, content, |content|) }

  lemma {:induction false} DividesIsLossless(regions: seq<Region>, content: string)
    requires Divides(regions, content)
    ensures Concat(regions) == content
  {
    if regions != [] {
      DividesIsLossless(regions[1..], content[|regions[0].text|..]);
      assert content == regions[0].text + content[|regions[0].text|..];
    }
  }

  /** A text starts with one region only. */
  lemma FirstUnique(a: Region, b: Region, content: string)
    requires a.text <= content && StartsWith(a, content[|a.text|..])
    requires b.text <= content && StartsWith(b, content[|b.text|..])
    ensures a == b
  {
    assert content == a.text + content[|a.text|..] && content == b.text + content[|b.text|..];
    hide StartsWith;
    NotShorter(a, b, content);
    NotShorter(b, a, content);
    assert a.text == content[..|a.text|] == b.text;
    SameKind(a, b, content[|a.text|..]);
  }

  lemma SameKind(a: Region, b: Region, rest: string)
    requires a.text == b.text && StartsWith(a, rest) && StartsWith(b, rest)
    ensures a == b
  {
    assert Inline(a.text) ==> a.text[1..][|a.text| - 2] == a.text[|a.text| - 1];
  }

  lemma NotShorter(a: Region, b: Region, content: string)
    requires a.text <= content && content == a.text + content[|a.text|..] && StartsWith(a, content[|a.text|..])
    requires b.text <= content && content == b.text + content[|b.text|..] && StartsWith(b, content[|b.text|..])
    ensures |a.text| >= |b.text|
  {
    var n, m := |a.text|, |b.text|;
    assert forall i | 0 <= i < n :: a.text[i] == content[i];
    assert forall i | 0 <= i < m :: b.text[i] == content[i];
    assert n < m && ClosedFence(a.text) ==> FenceAt(b.text, n - 3);
  }

  /** Every text has a first region. */
  lemma FirstRegion(content: string) returns (r: Region)
    requires content != ""
    ensures r.text <= content && r.text != "" && StartsWith(r, content[|r.text|..])
  {
    hide StartsWith, FindFence, FindTick;
    if content[0] != TICK {
      var end := FindTick(content, 0);
      var to := if end.Some? then end.value else |content|;
      PlainStarts(content, 0, to);
      r := Region(content[0..to], false);
    } else if FenceAt(content, 0) {
      var end := FindFence(content, 3);
      FenceStarts(content, 0, end);
      r := Region(content[0..if end.Some? then end.value + 3 else |content|], true);
    } else {
      var end := FindTick(content, 1);
      TickStarts(content, 0, end);
      r := Region(content[0..if end.Some? then end.value + 1 else |content|], end.Some?);
    }
  }

  /** Every text divides. */
  lemma {:induction false} DivisionExists(content: string) returns (regions: seq<Region>)
    ensures Divides(regions, content)
    decreases |content|
  {
    hide StartsWith;
    if content == "" {
      regions := [];
    } else {
      var first := FirstRegion(content);
      var rest := DivisionExists(content[|first.text|..]);
      regions := [first] + rest;
      assert regions[1..] == rest;
    }
  }

  /** There is one way to divide a text. */
  lemma {:induction false} DivisionUnique(a: seq<Region>, b: seq<Region>, content: string)
    requires Divides(a, content) && Divides(b, content)
    ensures a == b
  {
    hide StartsWith;
    if a == [] || b == [] {
      NotEmpty(a, content);
      NotEmpty(b, content);
    } else {
      FirstUnique(a[0], b[0], content);
      DivisionUnique(a[1..], b[1..], content[|a[0].text|..]);
      assert a == [a[0]] + a[1..] && b == [b[0]] + b[1..];
    }
  }

  lemma NotEmpty(regions: seq<Region>, content: string)
    requires Divides(regions, content)
    ensures regions == [] <==> content == ""
  {
  }

  lemma {:induction false} DividesSnoc(regions: seq<Region>, content: string, n: nat, r: Region)
    requires DividesUpTo(regions, content, n) && n + |r.text| <= |content|
    requires r.text == content[n..n + |r.text|] && StartsWith(r, content[n + |r.text|..])
    ensures DividesUpTo(regions + [r], content, n + |r.text|)
  {
    hide StartsWith;
    if regions == [] {
      assert (regions + [r])[1..] == [];
      assert DividesUpTo([], content[|r.text|..], 0);
    } else {
      var m := |regions[0].text|;
      assert content[m..][n - m..n - m + |r.text|] == r.text;
      assert content[m..][n - m + |r.text|..] == content[n + |r.text|..];
      DividesSnoc(regions[1..], content[m..], n - m, r);
      assert (regions + [r])[1..] == regions[1..] + [r];
    }
  }

  // ---- splitCodeRegions ----

  lemma PlainStarts(content: string, from: nat, to: nat)
    requires from < to <= |content| && (to < |content| ==> content[to] == TICK)
    requires forall j | from <= j < to :: content[j] != TICK
    ensures StartsWith(Region(content[from..to], false), content[to..])
  {
    var t := content[from..to];
    assert (t + content[to..])[0] == content[from];
    assert NoTick(t);
  }

  lemma FenceStarts(content: string, i: nat, end: Option<nat>)
    requires FenceAt(content, i) && end == FindFence(content, i + 3)
    ensures
      var to := if end.Some? then end.value + 3 else |content|;
      i <= to <= |content| && StartsWith(Region(content[i..to], true), content[to..])
  {
    var to := if end.Some? then end.value + 3 else |content|;
    var t := content[i..to];
    assert t + content[to..] == content[i..];
    forall j | 0 <= j && j + 3 <= |t| ensures FenceAt(t, j) <==> FenceAt(content, i + j) {}
  }

  lemma ClosedTickStarts(content: string, i: nat, end: nat)
    requires i < end < |content| && content[i] == TICK && content[end] == TICK && !FenceAt(content, i)
    requires forall j | i < j < end :: content[j] != TICK
    ensures StartsWith(Region(content[i..end + 1], true), content[end + 1..])
  {
    var t, rest := content[i..end + 1], content[end + 1..];
    NoFenceThere(content, i, t, rest);
    assert Inline(t);
    hide *;
    StartsInline(t, rest);
  }

  lemma OpenTickStarts(content: string, i: nat)
    requires i < |content| && content[i] == TICK && !FenceAt(content, i)
    requires forall j | i < j < |content| :: content[j] != TICK
    ensures StartsWith(Region(content[i..], false), "")
  {
    var t := content[i..];
    NoFenceThere(content, i, t, "");
    assert OpenTick(t);
    hide *;
    StartsOpen(t);
  }

  lemma NoFenceThere(content: string, i: nat, t: string, rest: string)
    requires i <= |content| && t + rest == content[i..] && !FenceAt(content, i)
    ensures !FenceAt(t + rest, 0)
  {
    assert forall k | 0 <= k < |t + rest| :: (t + rest)[k] == content[i + k];
  }

  lemma StartsInline(t: string, rest: string)
    requires !FenceAt(t + rest, 0) && Inline(t)
    ensures StartsWith(Region(t, true), rest)
  {
  }

  lemma StartsOpen(t: string)
    requires !FenceAt(t + "", 0) && OpenTick(t)
    ensures StartsWith(Region(t, false), "")
  {
  }

  lemma TickStarts(content: string, i: nat, end: Option<nat>)
    requires i < |content| && content[i] == TICK && !FenceAt(content, i) && end == FindTick(content, i + 1)
    ensures
      var to := if end.Some? then end.value + 1 else |content|;
      i < to <= |content| && StartsWith(Region(content[i..to], end.Some?), content[to..])
  {
    hide StartsWith, FenceAt;
    if end.Some? {
      ClosedTickStarts(content, i, end.value);
    } else {
      OpenTickStarts(content, i);
      assert content[i..|content|] == content[i..] && content[|content|..] == "";
    }
  }

  method SplitCodeRegions(content: string) returns (out: seq<Region>)
    ensures Divides(out, content)
  {
    hide StartsWith;
    out := [];
    var i, plainStart := 0, 0;
    while i < |content|
      invariant plainStart <= i <= |content|
      invariant DividesUpTo(out, content, plainStart)
      invariant forall j | plainStart <= j < i :: content[j] != TICK
    {
      if content[i] != TICK {
        i := i + 1;
        continue;
      }
      out := PushPlain(out, content, plainStart, i);
      var fence := FenceAt(content, i);
      var end := if fence then FindFence(content, i + 3) else FindTick(content, i + 1);
      var to := if end.None? then |content| else if fence then end.value + 3 else end.value + 1;
      var region := Region(content[i..to], fence || end.Some?);
      if fence { FenceStarts(content, i, end); } else { TickStarts(content, i, end); }
      DividesSnoc(out, content, i, region);
      out := out + [region];
      if end.None? { return; }
      i, plainStart := to, to;
    }
    out := PushPlain(out, content, plainStart, |content|);
  }

  /** `if (plainStart < i) out.push(...)`. */
  method PushPlain(before: seq<Region>, content: string, plainStart: nat, i: nat) returns (out: seq<Region>)
    requires plainStart <= i <= |content| && DividesUpTo(before, content, plainStart)
    requires (i < |content| ==> content[i] == TICK) && forall j | plainStart <= j < i :: content[j] != TICK
    ensures DividesUpTo(out, content, i)
  {
    out := before;
    if plainStart < i {
      PlainStarts(content, plainStart, i);
      DividesSnoc(before, content, plainStart, Region(content[plainStart..i], false));
      out := out + [Region(content[plainStart..i], false)];
    }
  }

  // ---- mentions ----

  datatype Member = Member(id: string, name: string)

  /** Unicode character classes and case folding, which the program takes from the runtime. */
  datatype Unicode = Unicode(
    letter: char -> bool, number: char -> bool, space: char -> bool, lower: string -> string)

  /** `name.split(/\s+/)[0]`. */
  function FirstName(u: Unicode, name: string): string {
    if name == "" || u.space(name[0]) then "" else [name[0]] + FirstName(u, name[1..])
  }

  predicate Named(u: Unicode, m: Member, key: string) {
    FirstName(u, m.name) != "" && u.lower(FirstName(u, m.name)) == key
  }

  function Count(u: Unicode, members: seq<Member>, key: string): nat {
    if members == [] then 0
    else Count(u, members[..|members| - 1], key) + (if Named(u, members[|members| - 1], key) then 1 else 0)
  }

  ghost predicate OnlyAt(u: Unicode, members: seq<Member>, key: string, i: nat) {
    i < |members| && Named(u, members[i], key) && forall j | 0 <= j < |members| && j != i :: !Named(u, members[j], key)
  }

  /** Exactly one member has this first name, and it is `m`. */
  ghost predicate OnlyMember(u: Unicode, members: seq<Member>, key: string, m: Member) {
    exists i: nat :: OnlyAt(u, members, key, i) && members[i] == m
  }

  datatype Hit = Hit(id: string, displayName: string)

  predicate NameChar(u: Unicode, c: char) { u.letter(c) || u.number(c) || c == '_' || c == '-' }

  function NameSpan(u: Unicode, s: string): (n: nat)
    ensures n <= |s| && (forall i | 0 <= i < n :: NameChar(u, s[i])) && (n < |s| ==> !NameChar(u, s[n]))
  {
    if s == "" || !NameChar(u, s[0]) then 0 else 1 + NameSpan(u, s[1..])
  }

  /** A plain text as the pattern `@([\p{L}][\p{L}\p{N}_-]*)` cuts it: mentions, and single characters between. */
  datatype Piece = Mention(name: string) | Other(c: char)

  function Source(p: Piece): string {
    match p
    case Mention(name) => "@" + name
    case Other(c) => [c]
  }

  function Sources(pieces: seq<Piece>): string {
    if pieces == [] then "" else Source(pieces[0]) + Sources(pieces[1..])
  }

  predicate MentionAt(u: Unicode, s: string) { |s| > 1 && s[0] == '@' && u.letter(s[1]) }

  function Pieces(u: Unicode, s: string): (r: seq<Piece>)
    ensures Sources(r) == s
    decreases |s|
  {
    if s == "" then []
    else if MentionAt(u, s) then
      var n := 1 + NameSpan(u, s[2..]);
      assert s == "@" + s[1..1 + n] + s[1 + n..];
      [Mention(s[1..1 + n])] + Pieces(u, s[1 + n..])
    else
      assert s == [s[0]] + s[1..];
      [Other(s[0])] + Pieces(u, s[1..])
  }

  /**
   * What the pattern demands of a piece with `rest` behind it: a mention is as
   * long as it can be, and none is missed.
   */
  ghost predicate CutBefore(u: Unicode, p: Piece, rest: string) {
    match p
    case Mention(name) =>
      && name != "" && u.letter(name[0])
      && (forall i | 0 < i < |name| :: u.letter(name[i]) || u.number(name[i]) || name[i] == '_' || name[i] == '-')
      && (rest != "" ==> !u.letter(rest[0]) && !u.number(rest[0]) && rest[0] != '_' && rest[0] != '-')
    case Other(c) => !(c == '@' && rest != "" && u.letter(rest[0]))
  }

  ghost predicate WellCut(u: Unicode, pieces: seq<Piece>) {
    pieces != [] ==> CutBefore(u, pieces[0], Sources(pieces[1..])) && WellCut(u, pieces[1..])
  }

  lemma {:induction false} PiecesCutWell(u: Unicode, s: string)
    ensures WellCut(u, Pieces(u, s))
    decreases |s|
  {
    if s == "" {
    } else if MentionAt(u, s) {
      var n := 1 + NameSpan(u, s[2..]);
      PiecesCutWell(u, s[1 + n..]);
      assert Pieces(u, s)[1..] == Pieces(u, s[1 + n..]);
    } else {
      PiecesCutWell(u, s[1..]);
      assert Pieces(u, s)[1..] == Pieces(u, s[1..]);
    }
  }

  lemma {:induction false} SpanIs(u: Unicode, name: string, rest: string)
    requires (forall i | 0 <= i < |name| :: NameChar(u, name[i])) && (rest != "" ==> !NameChar(u, rest[0]))
    ensures NameSpan(u, name + rest) == |name|
  {
    if name == "" {
      assert name + rest == rest;
    } else {
      SpanIs(u, name[1..], rest);
      assert (name + rest)[1..] == name[1..] + rest;
    }
  }

  lemma FirstPiece(u: Unicode, p: Piece, rest: string)
    requires CutBefore(u, p, rest)
    ensures Pieces(u, Source(p) + rest) == [p] + Pieces(u, rest)
  {
    var s := Source(p) + rest;
    if p.Mention? {
      assert s[1] == p.name[0];
      assert s[2..] == p.name[1..] + rest;
      SpanIs(u, p.name[1..], rest);
      var n := NameSpan(u, s[2..]);
      assert s[1..2 + n] == p.name && s[2 + n..] == rest;
    } else {
      assert s[1..] == rest;
    }
  }

  /** The pieces of a text are the one way to cut it by the pattern. */
  lemma {:induction false} PiecesUnique(u: Unicode, pieces: seq<Piece>)
    requires WellCut(u, pieces)
    ensures pieces == Pieces(u, Sources(pieces))
  {
    hide CutBefore, Pieces;
    if pieces == [] {
      NoPieces(u);
    } else {
      PiecesUnique(u, pieces[1..]);
      FirstPiece(u, pieces[0], Sources(pieces[1..]));
    }
  }

  lemma NoPieces(u: Unicode)
    ensures Pieces(u, "") == []
  {
  }

  function MentionText(h: Hit): string { "<@" + h.id + "|" + h.displayName + ">" }

  /** The replacer of `rewritePlainRegion`. */
  function Replaced(u: Unicode, counts: map<string, nat>, idByName: map<string, Hit>, name: string): string {
    var key := u.lower(name);
    if (if key in counts then counts[key] else 0) != 1 || key !in idByName then "@" + name
    else MentionText(idByName[key])
  }

  function RewritePlainRegion(u: Unicode, s: string, counts: map<string, nat>, idByName: map<string, Hit>): string
    decreases |s|
  {
    if s == "" then ""
    else if MentionAt(u, s) then
      var n := 1 + NameSpan(u, s[2..]);
      Replaced(u, counts, idByName, s[1..1 + n]) + RewritePlainRegion(u, s[1 + n..], counts, idByName)
    else [s[0]] + RewritePlainRegion(u, s[1..], counts, idByName)
  }

  // ---- what the rewriting should be ----

  /** A mention of the first name of exactly one member names that member; anything else stays as it is. */
  ghost function Resolved(u: Unicode, members: seq<Member>, p: Piece): string {
    if p.Mention? && exists m :: OnlyMember(u, members, u.lower(p.name), m) then
      var m :| OnlyMember(u, members, u.lower(p.name), m);
      MentionText(Hit(m.id, FirstName(u, m.name)))
    else Source(p)
  }

  ghost function ResolvedAll(u: Unicode, members: seq<Member>, pieces: seq<Piece>): string {
    if pieces == [] then "" else Resolved(u, members, pieces[0]) + ResolvedAll(u, members, pieces[1..])
  }

  /** Code stays as it is; in plain text the mentions are resolved. */
  ghost function Backfilled(u: Unicode, members: seq<Member>, regions: seq<Region>): string {
    if regions == [] then ""
    else (if regions[0].code then regions[0].text else ResolvedAll(u, members, Pieces(u, regions[0].text)))
         + Backfilled(u, members, regions[1..])
  }

  /** `first` is the name up to its first white space. */
  ghost predicate IsFirstName(u: Unicode, name: string, first: string) {
    && first <= name && (forall i | 0 <= i < |first| :: !u.space(first[i]))
    && (|first| < |name| ==> u.space(name[|first|]))
  }

  lemma {:induction false} FirstNameIs(u: Unicode, name: string, first: string)
    ensures IsFirstName(u, name, first) <==> first == FirstName(u, name)
  {
    if name != "" && !u.space(name[0]) && first != "" {
      FirstNameIs(u, name[1..], first[1..]);
      assert first <= name <==> first[0] == name[0] && first[1..] <= name[1..];
      assert first == [first[0]] + first[1..];
    }
  }

  /** `first` is the first name of member `i`, and nobody else's, up to case. */
  ghost predicate SoleHolder(u: Unicode, members: seq<Member>, name: string, i: nat, first: string) {
    && i < |members| && first != "" && IsFirstName(u, members[i].name, first) && u.lower(first) == u.lower(name)
    && forall j, other | 0 <= j < |members| && j != i && other != "" && IsFirstName(u, members[j].name, other) ::
         u.lower(other) != u.lower(name)
  }

  lemma SoleHolderIs(u: Unicode, members: seq<Member>, name: string, i: nat, first: string)
    ensures SoleHolder(u, members, name, i, first) <==>
            OnlyAt(u, members, u.lower(name), i) && first == FirstName(u, members[i].name)
  {
    forall n, f ensures IsFirstName(u, n, f) <==> f == FirstName(u, n) { FirstNameIs(u, n, f); }
    hide IsFirstName;
    if SoleHolder(u, members, name, i, first) {
      forall j | 0 <= j < |members| && j != i ensures !Named(u, members[j], u.lower(name)) {
        assert IsFirstName(u, members[j].name, FirstName(u, members[j].name));
      }
    }
  }

  /** A mention of a first name that one member alone has is written `<@id|first>`, any other stays. */
  lemma MentionIs(u: Unicode, members: seq<Member>, name: string)
    ensures forall i: nat, first | SoleHolder(u, members, name, i, first) ::
      Resolved(u, members, Mention(name)) == "<@" + members[i].id + "|" + first + ">"
    ensures (forall i: nat, first :: !SoleHolder(u, members, name, i, first)) ==>
      Resolved(u, members, Mention(name)) == "@" + name
  {
    hide SoleHolder;
    forall i: nat, first
      ensures SoleHolder(u, members, name, i, first) <==>
              OnlyAt(u, members, u.lower(name), i) && first == FirstName(u, members[i].name)
    {
      SoleHolderIs(u, members, name, i, first);
    }
    var key := u.lower(name);
    forall i: nat, first | SoleHolder(u, members, name, i, first)
      ensures Resolved(u, members, Mention(name)) == "<@" + members[i].id + "|" + first + ">"
    {
      assert OnlyMember(u, members, key, members[i]);
      ResolvedOnly(u, members, name, members[i]);
      hide Resolved;
      assert first == FirstName(u, members[i].name);
    }
    if i: nat :| OnlyAt(u, members, key, i) {
      assert SoleHolder(u, members, name, i, FirstName(u, members[i].name));
    } else {
      assert forall m :: !OnlyMember(u, members, key, m);
    }
  }

  lemma ResolvedOnly(u: Unicode, members: seq<Member>, name: string, m: Member)
    requires OnlyMember(u, members, u.lower(name), m)
    ensures Resolved(u, members, Mention(name)) == MentionText(Hit(m.id, FirstName(u, m.name)))
  {
    forall other | OnlyMember(u, members, u.lower(name), other) ensures other == m {
      OnlyMemberUnique(u, members, u.lower(name), m, other);
    }
    hide OnlyMember, MentionText;
  }

  lemma OnlyMemberUnique(u: Unicode, members: seq<Member>, key: string, a: Member, b: Member)
    requires OnlyMember(u, members, key, a) && OnlyMember(u, members, key, b)
    ensures a == b
  {
  }

  // ---- the tables ----

  /** The first member with this first name. */
  function FirstNamed(u: Unicode, members: seq<Member>, key: string): Option<Member> {
    if members == [] then None
    else
      var before := FirstNamed(u, members[..|members| - 1], key);
      if before.Some? then before
      else if Named(u, members[|members| - 1], key) then Some(members[|members| - 1]) else None
  }

  ghost predicate TablesFor(u: Unicode, members: seq<Member>, counts: map<string, nat>, idByName: map<string, Hit>) {
    && (forall key :: (if key in counts then counts[key] else 0) == Count(u, members, key))
    && (forall key :: key in idByName <==> FirstNamed(u, members, key).Some?)
    && (forall key | key in idByName :: idByName[key] == HitFor(u, FirstNamed(u, members, key).value))
  }

  function HitFor(u: Unicode, m: Member): Hit { Hit(m.id, FirstName(u, m.name)) }

  method BuildTables(u: Unicode, members: seq<Member>) returns (counts: map<string, nat>, idByName: map<string, Hit>)
    ensures TablesFor(u, members, counts, idByName)
  {
    counts, idByName := map[], map[];
    for i := 0 to |members|
      invariant TablesFor(u, members[..i], counts, idByName)
    {
      var m := members[i];
      var first := FirstName(u, m.name);
      assert members[..i + 1][..i] == members[..i];
      if m.name == "" || first == "" { continue; }
      var key := u.lower(first);
      counts := counts[key := (if key in counts then counts[key] else 0) + 1];
      if key !in idByName { idByName := idByName[key := Hit(m.id, first)]; }
    }
    assert members[..|members|] == members;
  }

  lemma {:induction false} CountNone(u: Unicode, members: seq<Member>, key: string)
    ensures Count(u, members, key) == 0 <==> forall i | 0 <= i < |members| :: !Named(u, members[i], key)
    ensures FirstNamed(u, members, key).None? <==> Count(u, members, key) == 0
  {
    hide Named;
    if members != [] {
      var init := members[..|members| - 1];
      CountNone(u, init, key);
      assert members == init + [members[|members| - 1]];
    }
  }

  /** The count is one exactly when one member has the name, and then the table holds that member. */
  lemma {:induction false} CountOne(u: Unicode, members: seq<Member>, key: string)
    ensures Count(u, members, key) == 1 <==> exists m :: OnlyMember(u, members, key, m)
    ensures Count(u, members, key) == 1 ==>
      FirstNamed(u, members, key).Some? && OnlyMember(u, members, key, FirstNamed(u, members, key).value)
  {
    if members == [] {
      forall m ensures !OnlyMember(u, members, key, m) {}
    } else {
      var init, last := members[..|members| - 1], members[|members| - 1];
      CountOne(u, init, key);
      CountNone(u, init, key);
      if Named(u, last, key) { LastNamed(u, members, key); } else { LastNotNamed(u, members, init, key); }
      hide Named, OnlyMember;
    }
  }

  lemma LastNamed(u: Unicode, members: seq<Member>, key: string)
    requires members != [] && Named(u, members[|members| - 1], key)
    ensures Count(u, members[..|members| - 1], key) == 0 <==> exists m :: OnlyMember(u, members, key, m)
    ensures Count(u, members[..|members| - 1], key) == 0 ==> OnlyMember(u, members, key, members[|members| - 1])
  {
    hide Named;
    var init, n := members[..|members| - 1], |members| - 1;
    CountNone(u, init, key);
    hide Count;
    if Count(u, init, key) == 0 {
      forall j | 0 <= j < n ensures !Named(u, members[j], key) { assert init[j] == members[j]; }
      assert OnlyAt(u, members, key, n);
      assert OnlyMember(u, members, key, members[n]);
    } else {
      var j :| 0 <= j < |init| && Named(u, init[j], key);
      assert Named(u, members[j], key);
    }
  }

  lemma LastNotNamed(u: Unicode, members: seq<Member>, init: seq<Member>, key: string)
    requires members != [] && init == members[..|members| - 1] && !Named(u, members[|members| - 1], key)
    ensures forall m :: OnlyMember(u, members, key, m) <==> OnlyMember(u, init, key, m)
    ensures (exists m :: OnlyMember(u, members, key, m)) <==> (exists m :: OnlyMember(u, init, key, m))
  {
    hide Named;
    forall i: nat ensures OnlyAt(u, members, key, i) <==> OnlyAt(u, init, key, i) {
      assert members == init + [members[|members| - 1]];
    }
    hide OnlyAt;
    forall m ensures OnlyMember(u, members, key, m) <==> OnlyMember(u, init, key, m) {
      if i: nat :| OnlyAt(u, members, key, i) && members[i] == m { assert OnlyAt(u, init, key, i) && init[i] == m; }
      if i: nat :| OnlyAt(u, init, key, i) && init[i] == m { assert OnlyAt(u, members, key, i) && members[i] == m; }
    }
  }

  // ---- backfillMentions ----

  lemma ReplacedIs(u: Unicode, members: seq<Member>, counts: map<string, nat>, idByName: map<string, Hit>, name: string)
    requires TablesFor(u, members, counts, idByName)
    ensures Replaced(u, counts, idByName, name) == Resolved(u, members, Mention(name))
  {
    var key := u.lower(name);
    CountOne(u, members, key);
    hide Count, FirstNamed, OnlyMember, MentionText;
    if m :| OnlyMember(u, members, key, m) {
      var chosen :| OnlyMember(u, members, key, chosen)
        && Resolved(u, members, Mention(name)) == MentionText(HitFor(u, chosen));
      OnlyMemberUnique(u, members, key, chosen, FirstNamed(u, members, key).value);
    }
  }

  lemma {:induction false} RewriteIs(u: Unicode, members: seq<Member>, counts: map<string, nat>,
                                     idByName: map<string, Hit>, s: string)
    requires TablesFor(u, members, counts, idByName)
    ensures RewritePlainRegion(u, s, counts, idByName) == ResolvedAll(u, members, Pieces(u, s))
    decreases |s|
  {
    hide TablesFor, Replaced, Resolved, NameSpan;
    if s == "" {
    } else if MentionAt(u, s) {
      var n := 1 + NameSpan(u, s[2..]);
      ReplacedIs(u, members, counts, idByName, s[1..1 + n]);
      RewriteIs(u, members, counts, idByName, s[1 + n..]);
      assert Pieces(u, s)[1..] == Pieces(u, s[1 + n..]);
    } else {
      RewriteIs(u, members, counts, idByName, s[1..]);
      assert Pieces(u, s)[1..] == Pieces(u, s[1..]);
      OtherStands(u, members, s[0]);
    }
  }

  lemma OtherStands(u: Unicode, members: seq<Member>, c: char)
    ensures Resolved(u, members, Other(c)) == [c]
  {
  }

  lemma {:induction false} BackfilledSnoc(u: Unicode, members: seq<Member>, regions: seq<Region>, r: Region)
    ensures Backfilled(u, members, regions + [r]) == Backfilled(u, members, regions) + Backfilled(u, members, [r])
  {
    hide ResolvedAll, Pieces;
    if regions == [] {
      assert regions + [r] == [r];
    } else {
      assert (regions + [r])[1..] == regions[1..] + [r];
      BackfilledSnoc(u, members, regions[1..], r);
      var first := if regions[0].code then regions[0].text else ResolvedAll(u, members, Pieces(u, regions[0].text));
      assert first + (Backfilled(u, members, regions[1..]) + Backfilled(u, members, [r]))
          == (first + Backfilled(u, members, regions[1..])) + Backfilled(u, members, [r]);
    }
  }

  /** The whole of `backfillMentions`, without its shortcut for an empty text or no members. */
  method Rewrite(u: Unicode, content: string, members: seq<Member>) returns (out: string, ghost regions: seq<Region>)
    ensures Divides(regions, content) && out == Backfilled(u, members, regions)
  {
    var counts, idByName := BuildTables(u, members);
    var split := SplitCodeRegions(content);
    regions := split;
    hide *;
    out := "";
    BackfilledNothing(u, members);
    for i := 0 to |split|
      invariant out == Backfilled(u, members, split[..i])
    {
      var r := split[i];
      var text := if r.code then r.text else RewritePlainRegion(u, r.text, counts, idByName);
      RewriteIs(u, members, counts, idByName, r.text);
      BackfilledOne(u, members, r);
      BackfilledSnoc(u, members, split[..i], r);
      assert split[..i + 1] == split[..i] + [r];
      out := out + text;
    }
    assert split[..|split|] == split;
  }

  lemma BackfilledNothing(u: Unicode, members: seq<Member>)
    ensures Backfilled(u, members, []) == ""
  {
  }

  lemma BackfilledOne(u: Unicode, members: seq<Member>, r: Region)
    ensures Backfilled(u, members, [r]) == if r.code then r.text else ResolvedAll(u, members, Pieces(u, r.text))
  {
    assert [r][1..] == [];
  }

  lemma {:induction false} NobodyMentioned(u: Unicode, regions: seq<Region>)
    ensures Backfilled(u, [], regions) == Concat(regions)
  {
    if regions != [] {
      NobodyMentioned(u, regions[1..]);
      NobodyIn(u, Pieces(u, regions[0].text));
    }
  }

  lemma {:induction false} NobodyIn(u: Unicode, pieces: seq<Piece>)
    ensures ResolvedAll(u, [], pieces) == Sources(pieces)
  {
    if pieces != [] { NobodyIn(u, pieces[1..]); }
  }

  /**
   * The text divides into code and plain regions, in the one way it can; code
   * regions are copied, and a plain region keeps everything but its resolvable
   * mentions.
   */
  method BackfillMentions(u: Unicode, content: string, members: seq<Member>) returns (out: string)
    ensures exists regions ::
      Divides(regions, content) && Concat(regions) == content && out == Backfilled(u, members, regions)
  {
    ghost var regions;
    if content == "" || members == [] {
      regions := DivisionExists(content);
      DividesIsLossless(regions, content);
      NotEmpty(regions, content);
      NobodyMentioned(u, regions);
      return content;
    }
    out, regions := Rewrite(u, content, members);
    DividesIsLossless(regions, content);
  }
}
