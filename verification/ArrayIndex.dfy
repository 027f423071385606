/** Array indices by their numbers: which keys they are, and that they are listed in the order of their numbers. */
module ArrayIndex {
  import opened Ordering
  import opened CodeUnits

  predicate Digits(s: JsString) { forall i | 0 <= i < |s| :: '0' as int <= s[i] <= '9' as int }

  /** The number the digits write. */
  function Number(s: JsString): nat
    requires Digits(s)
  {
    if s == [] then 0 else 10 * Number(s[..|s| - 1]) + (s[|s| - 1] - '0' as int)
  }

  /** A decimal without leading zeros. */
  predicate Decimal(s: JsString) { s != [] && Digits(s) && (|s| > 1 ==> s[0] != '0' as int) }

  lemma {:induction false} LessSnoc(a: JsString, b: JsString)
    requires |a| == |b| > 0
    ensures
      var (x, y, last) := (a[..|a| - 1], b[..|b| - 1], |a| - 1);
      Less(a, b) <==> Less(x, y) || (x == y && a[last] < b[last])
  {
    var x, y := a[..|a| - 1], b[..|b| - 1];
    assert Less(a, b) <==> a[0] < b[0] || (a[0] == b[0] && Less(a[1..], b[1..]));
    if |a| > 1 {
      LessSnoc(a[1..], b[1..]);
      assert a[1..][..|a| - 2] == x[1..] && b[1..][..|b| - 2] == y[1..];
      assert Less(x, y) <==> x[0] < y[0] || (x[0] == y[0] && Less(x[1..], y[1..]));
      assert x == [x[0]] + x[1..] && y == [y[0]] + y[1..];
    }
  }

  lemma {:induction false} SameLengthByNumber(a: JsString, b: JsString)
    requires Digits(a) && Digits(b) && |a| == |b|
    ensures Less(a, b) <==> Number(a) < Number(b)
    ensures a == b <==> Number(a) == Number(b)
  {
    if a != [] {
      LessSnoc(a, b);
      SameLengthByNumber(a[..|a| - 1], b[..|b| - 1]);
      assert a == a[..|a| - 1] + [a[|a| - 1]] && b == b[..|b| - 1] + [b[|b| - 1]];
      hide Less;
    }
  }

  lemma {:induction false} ShorterIsLess(a: JsString, b: JsString)
    requires Digits(a) && Decimal(b) && |a| < |b| && |b| > 1
    ensures Number(a) < Number(b)
  {
    if |b| > 2 && a != [] {
      ShorterIsLess(a[..|a| - 1], b[..|b| - 1]);
    } else {
      Positive(b[..|b| - 1]);
    }
  }

  lemma {:induction false} Positive(s: JsString)
    requires Digits(s) && s != [] && s[0] != '0' as int
    ensures Number(s) > 0
  {
    if |s| > 1 { Positive(s[..|s| - 1]); }
  }

  lemma MaxNumber()
    ensures Decimal(MAX_INDEX) && Number(MAX_INDEX) == 4_294_967_294
  {
    var m := MAX_INDEX;
    assert forall i | 0 <= i < 10 :: 48 <= m[i] <= 57;
    assert Number(m[..0]) == 0;
    for i := 0 to 10
      invariant Number(m[..i]) == [0, 4, 42, 429, 4294, 42949, 429496, 4294967, 42949672, 429496729, 4294967294][i]
    {
      assert m[..i + 1][..i] == m[..i];
    }
    assert m[..10] == m;
  }

  /** An array index is the decimal of a number below 2^32 - 1. */
  lemma IndexIs(name: JsString)
    ensures IsIndex(name) <==> Decimal(name) && Number(name) < 4_294_967_295
  {
    MaxNumber();
    hide Number;
    if Decimal(name) {
      if |name| < 10 {
        ShorterIsLess(name, MAX_INDEX);
      } else if |name| == 10 {
        SameLengthByNumber(MAX_INDEX, name);
      } else {
        ShorterIsLess(MAX_INDEX, name);
      }
    }
  }

  /** Indices are listed by number, before all other keys, and those by code unit. */
  lemma KeyOrderIs(a: JsString, b: JsString)
    ensures KeyBefore(a, b) <==>
            if IsIndex(a) && IsIndex(b) then Number(a) < Number(b)
            else if !IsIndex(a) && !IsIndex(b) then Less(a, b) else IsIndex(a)
  {
    hide Number;
    if IsIndex(a) && IsIndex(b) {
      if |a| < |b| {
        ShorterIsLess(a, b);
      } else if |b| < |a| {
        ShorterIsLess(b, a);
      } else {
        SameLengthByNumber(a, b);
      }
    }
  }
}
