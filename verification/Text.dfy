/** Strings as the source handles them: splitting, searching, decimal numbers, code-unit order. */
module Text {
  import opened Ordering

  predicate IsDigit(c: char) { '0' <= c <= '9' }

  predicate AllDigits(s: string) {
    s != "" && forall i | 0 <= i < |s| :: IsDigit(s[i])
  }

  /** Everything before the first `sep`; all of it if there is none. */
  function Before(s: string, sep: char): (r: string)
    ensures sep !in r && r <= s
    ensures |r| < |s| ==> s[|r|] == sep
  {
    if s == "" || s[0] == sep then "" else [s[0]] + Before(s[1..], sep)
  }

  /** `s.split(sep)`: the pieces between separators, at least one. */
  function Split(s: string, sep: char): (r: seq<string>)
    ensures |r| >= 1
    ensures forall i | 0 <= i < |r| :: sep !in r[i]
    decreases |s|
  {
    var first := Before(s, sep);
    if |first| == |s| then [first] else [first] + Split(s[|first| + 1..], sep)
  }

  function Join(parts: seq<string>, sep: char): string {
    if |parts| == 0 then ""
    else if |parts| == 1 then parts[0]
    else parts[0] + [sep] + Join(parts[1..], sep)
  }

  lemma {:induction false} JoinSplit(s: string, sep: char)
    ensures Join(Split(s, sep), sep) == s
    decreases |s|
  {
    var first := Before(s, sep);
    if |first| == |s| {
      assert first == s;
    } else {
      var rest := s[|first| + 1..];
      JoinSplit(rest, sep);
      assert Split(s, sep) == [first] + Split(rest, sep);
      assert Split(s, sep)[1..] == Split(rest, sep);
      assert s == first + [sep] + rest;
    }
  }

  lemma {:induction false} BeforeAppend(s: string, rest: string, sep: char)
    requires sep !in s
    ensures Before(s, sep) == s && Before(s + [sep] + rest, sep) == s
  {
    if s != "" {
      BeforeAppend(s[1..], rest, sep);
      assert (s + [sep] + rest)[1..] == s[1..] + [sep] + rest;
      assert s == [s[0]] + s[1..];
    }
  }

  lemma {:induction false} SplitJoin(parts: seq<string>, sep: char)
    requires parts != [] && forall i | 0 <= i < |parts| :: sep !in parts[i]
    ensures Split(Join(parts, sep), sep) == parts
  {
    if |parts| == 1 {
      BeforeAppend(parts[0], "", sep);
    } else {
      var rest := Join(parts[1..], sep);
      var s := parts[0] + [sep] + rest;
      SplitJoin(parts[1..], sep);
      BeforeAppend(parts[0], rest, sep);
      assert s[|parts[0]| + 1..] == rest;
    }
  }

  lemma {:induction false} JoinSnoc(parts: seq<string>, last: string, sep: char)
    requires parts != []
    ensures Join(parts + [last], sep) == Join(parts, sep) + [sep] + last
  {
    assert (parts + [last])[1..] == parts[1..] + [last];
    if |parts| > 1 { JoinSnoc(parts[1..], last, sep); }
  }

  // ---- decimal numbers ----

  function DigitValue(c: char): nat
    requires IsDigit(c)
  {
    c as int - '0' as int
  }

  /** `BigInt(s)` for a string of digits. */
  function NatOf(s: string): nat
    requires forall i | 0 <= i < |s| :: IsDigit(s[i])
  {
    if s == "" then 0 else NatOf(s[..|s| - 1]) * 10 + DigitValue(s[|s| - 1])
  }

  predicate NoLeadingZero(s: string) {
    |s| > 1 ==> s[0] != '0'
  }

  lemma {:induction false} NatPositive(s: string)
    requires AllDigits(s) && s[0] != '0'
    ensures NatOf(s) > 0
  {
    var init := s[..|s| - 1];
    if init != "" {
      assert init[0] == s[0];
      NatPositive(init);
    }
  }

  /** Without leading zeros, a number has one spelling. */
  lemma {:induction false} NatInjective(a: string, b: string)
    requires AllDigits(a) && AllDigits(b) && NoLeadingZero(a) && NoLeadingZero(b)
    ensures NatOf(a) == NatOf(b) <==> a == b
    decreases |a|
  {
    if NatOf(a) == NatOf(b) {
      var a', b' := a[..|a| - 1], b[..|b| - 1];
      var x, y := DigitValue(a[|a| - 1]), DigitValue(b[|b| - 1]);
      assert NatOf(a') * 10 + x == NatOf(b') * 10 + y;
      assert NatOf(a') == NatOf(b') && x == y;
      if a' == "" {
        if b' != "" { assert b'[0] == b[0]; NatPositive(b'); }
      } else if b' == "" {
        assert a'[0] == a[0]; NatPositive(a');
      } else {
        assert NoLeadingZero(a') && NoLeadingZero(b');
        NatInjective(a', b');
      }
      assert a == a' + [a[|a| - 1]] && b == b' + [b[|b| - 1]];
    }
  }

  // ---- code-unit order ----

  function Rank(c: char): int { c as int }

  /** `a < b` on strings. */
  predicate Less(a: string, b: string) { LessBy(Rank, a, b) }

  lemma LessTotal(a: string, b: string)
    ensures !(Less(a, b) && Less(b, a))
    ensures Less(a, b) || Less(b, a) || a == b
  {
    assert Injective(Rank);
    LessByTotal(Rank, a, b);
  }

  lemma LessTransitive(a: string, b: string, c: string)
    requires Less(a, b) && Less(b, c)
    ensures Less(a, c)
  {
    LessByTransitive(Rank, a, b, c);
  }
}
