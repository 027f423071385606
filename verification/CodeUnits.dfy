/** JavaScript strings: sequences of UTF-16 code units, compared unit by unit. */
module CodeUnits {
  import opened Ordering

  type Unit = x: nat | x < 0x10000

  type JsString = seq<Unit>

  /** An ASCII literal. */
  function Ascii(s: string): (r: JsString)
    ensures |r| == |s|
  {
    seq(|s|, i requires 0 <= i < |s| => s[i] as int % 0x80)
  }

  function Rank(u: Unit): int { u }

  /** `a < b`. */
  predicate Less(a: JsString, b: JsString) { LessBy(Rank, a, b) }

  lemma LessTotal(a: JsString, b: JsString)
    ensures !(Less(a, b) && Less(b, a))
    ensures Less(a, b) || Less(b, a) || a == b
  {
    assert Injective(Rank);
    LessByTotal(Rank, a, b);
  }

  lemma LessTransitive(a: JsString, b: JsString, c: JsString)
    requires Less(a, b) && Less(b, c)
    ensures Less(a, c)
  {
    LessByTransitive(Rank, a, b, c);
  }

  /** An array index: a decimal without leading zeros, at most 2^32 - 2. */
  predicate IsIndex(name: JsString) {
    && name != [] && (forall i | 0 <= i < |name| :: 48 <= name[i] <= 57) && (|name| > 1 ==> name[0] != 48)
    && (|name| < 10 || (|name| == 10 && !Less(MAX_INDEX, name)))
  }

  /** 4294967294. */
  const MAX_INDEX: JsString := [52, 50, 57, 52, 57, 54, 55, 50, 57, 52]

  /** The order in which an object lists keys that were added in code-unit order: array indices first, by value. */
  predicate KeyBefore(a: JsString, b: JsString) {
    if IsIndex(a) && IsIndex(b) then |a| < |b| || (|a| == |b| && Less(a, b))
    else if IsIndex(a) != IsIndex(b) then IsIndex(a)
    else Less(a, b)
  }

  lemma KeyBeforeTotal(a: JsString, b: JsString)
    ensures !(KeyBefore(a, b) && KeyBefore(b, a))
    ensures KeyBefore(a, b) || KeyBefore(b, a) || a == b
  {
    LessTotal(a, b);
  }

  lemma KeyBeforeTransitive(a: JsString, b: JsString, c: JsString)
    requires KeyBefore(a, b) && KeyBefore(b, c)
    ensures KeyBefore(a, c)
  {
    hide IsIndex;
    if Less(a, b) && Less(b, c) { LessTransitive(a, b, c); }
  }
}
