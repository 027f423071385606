/**
 * `JSON.stringify` on the trees that `canonicalAppDataJson` builds, and a reader
 * that recovers the tree from the text: different trees have different texts.
 */
module JsonText {
  import opened Common
  import opened CodeUnits
  import opened AppDataJson

  const QUOTE: Unit := 34
  const COMMA: Unit := 44
  const COLON: Unit := 58
  const BACKSLASH: Unit := 92
  const OPEN_ARRAY: Unit := 91
  const CLOSE_ARRAY: Unit := 93
  const OPEN_OBJECT: Unit := 123
  const CLOSE_OBJECT: Unit := 125
  const NULL_TEXT: JsString := [110, 117, 108, 108]
  const TRUE_TEXT: JsString := [116, 114, 117, 101]
  const FALSE_TEXT: JsString := [102, 97, 108, 115, 101]

  // ---- strings ----

  predicate High(c: Unit) { 0xD800 <= c < 0xDC00 }

  predicate Low(c: Unit) { 0xDC00 <= c < 0xE000 }

  function HexDigit(d: nat): Unit
    requires d < 16
  {
    if d < 10 then 48 + d else 87 + d
  }

  function Hex4(c: Unit): JsString {
    [HexDigit(c / 4096), HexDigit(c / 256 % 16), HexDigit(c / 16 % 16), HexDigit(c % 16)]
  }

  /** The short escapes. */
  function Short(c: Unit): Option<Unit> {
    if c == 8 then Some(98) else if c == 9 then Some(116) else if c == 10 then Some(110) else if c == 12 then Some(102)
    else if c == 13 then Some(114) else if c == QUOTE then Some(QUOTE) else if c == BACKSLASH then Some(BACKSLASH)
    else None
  }

  function EscapedUnit(c: Unit): JsString {
    if Short(c).Some? then [BACKSLASH, Short(c).value]
    else if c < 32 || High(c) || Low(c) then [BACKSLASH, 117] + Hex4(c)
    else [c]
  }

  /** Surrogate pairs stand as they are; a lone surrogate is escaped. */
  function Escaped(s: JsString): JsString {
    if s == [] then []
    else if |s| > 1 && High(s[0]) && Low(s[1]) then [s[0], s[1]] + Escaped(s[2..])
    else EscapedUnit(s[0]) + Escaped(s[1..])
  }

  function Quoted(s: JsString): JsString { [QUOTE] + Escaped(s) + [QUOTE] }

  function HexValue(c: Unit): Option<nat> {
    if 48 <= c <= 57 then Some(c - 48) else if 97 <= c <= 102 then Some(c - 87) else None
  }

  function Unit4(t: JsString): Option<Unit>
    requires |t| == 4
  {
    var a, b, c, d := HexValue(t[0]), HexValue(t[1]), HexValue(t[2]), HexValue(t[3]);
    if a.Some? && b.Some? && c.Some? && d.Some? && a.value < 16 && b.value < 16 && c.value < 16 && d.value < 16
    then Some(a.value * 4096 + b.value * 256 + c.value * 16 + d.value) else None
  }

  function Long(c: Unit): Option<Unit> {
    if c == 98 then Some(8) else if c == 116 then Some(9) else if c == 110 then Some(10) else if c == 102 then Some(12)
    else if c == 114 then Some(13) else if c == QUOTE then Some(QUOTE) else if c == BACKSLASH then Some(BACKSLASH)
    else None
  }

  /** One unit of a string, and how much text it takes. */
  function ReadUnit(t: JsString): (r: Option<(Unit, nat)>)
    requires t != []
    ensures r.Some? ==> 0 < r.value.1 <= |t|
  {
    if t[0] != BACKSLASH then Some((t[0], 1))
    else if |t| < 2 then None
    else if t[1] == 117 then
      if |t| < 6 || Unit4(t[2..6]).None? then None else Some((Unit4(t[2..6]).value, 6))
    else if Long(t[1]).Some? then Some((Long(t[1]).value, 2))
    else None
  }

  /** The rest of a string whose opening quote has been read. */
  function ReadString(t: JsString): (r: Option<(JsString, JsString)>)
    ensures r.Some? ==> |r.value.1| < |t|
    decreases |t|
  {
    if t == [] then None
    else if t[0] == QUOTE then Some(([], t[1..]))
    else match ReadUnit(t)
      case None => None
      case Some((c, n)) =>
        match ReadString(t[n..])
        case None => None
        case Some((s, rest)) => Some(([c] + s, rest))
  }

  lemma HexDigitValue(d: nat)
    requires d < 16
    ensures HexValue(HexDigit(d)) == Some(d)
  {
  }

  lemma FourDigits(c: Unit)
    ensures c / 4096 < 16
    ensures c / 4096 * 4096 + c / 256 % 16 * 256 + c / 16 % 16 * 16 + c % 16 == c
  {
    var x := c / 16;
    var y := x / 16;
    assert c == x * 16 + c % 16 && x == y * 16 + x % 16 && y == y / 16 * 16 + y % 16;
    assert y == c / 256 && y / 16 == c / 4096;
  }

  lemma HexRoundTrip(c: Unit)
    ensures Unit4(Hex4(c)) == Some(c)
  {
    FourDigits(c);
    HexDigitValue(c / 4096);
    HexDigitValue(c / 256 % 16);
    HexDigitValue(c / 16 % 16);
    HexDigitValue(c % 16);
    hide HexDigit, HexValue;
    var a, b, d, e := c / 4096, c / 256 % 16, c / 16 % 16, c % 16;
    assert Hex4(c) == [HexDigit(a), HexDigit(b), HexDigit(d), HexDigit(e)];
  }

  lemma UnitRoundTrip(c: Unit, tail: JsString)
    ensures
      var t := EscapedUnit(c) + tail;
      && t[0] != QUOTE && ReadUnit(t) == Some((c, |EscapedUnit(c)|)) && t[|EscapedUnit(c)|..] == tail
  {
    var t := EscapedUnit(c) + tail;
    HexRoundTrip(c);
    if Short(c).None? && (c < 32 || High(c) || Low(c)) {
      assert t[2..6] == Hex4(c);
    }
  }

  lemma ReadStep(c: Unit, text: JsString, tail: JsString)
    requires text != [] && text[0] != QUOTE && ReadUnit(text + tail) == Some((c, |text|))
    ensures ReadString(text + tail) == match ReadString(tail)
                                       case None => None
                                       case Some((s, rest)) => Some(([c] + s, rest))
  {
    assert (text + tail)[|text|..] == tail;
  }

  lemma PairBack(s: JsString, tail: JsString, rest: JsString)
    requires |s| > 1 && High(s[0]) && Low(s[1]) && ReadString(tail) == Some((s[2..], rest))
    ensures ReadString([s[0], s[1]] + tail) == Some((s, rest))
  {
    hide ReadString;
    ReadStep(s[1], [s[1]], tail);
    ReadStep(s[0], [s[0]], [s[1]] + tail);
    assert [s[0], s[1]] + tail == [s[0]] + ([s[1]] + tail);
    assert [s[0]] + ([s[1]] + s[2..]) == s;
  }

  lemma UnitBack(s: JsString, tail: JsString, rest: JsString)
    requires s != [] && ReadString(tail) == Some((s[1..], rest))
    ensures ReadString(EscapedUnit(s[0]) + tail) == Some((s, rest))
  {
    hide ReadString, EscapedUnit, ReadUnit;
    UnitRoundTrip(s[0], tail);
    UnitNotEmpty(s[0]);
    assert (EscapedUnit(s[0]) + tail)[0] == EscapedUnit(s[0])[0];
    ReadStep(s[0], EscapedUnit(s[0]), tail);
    assert [s[0]] + s[1..] == s;
  }

  lemma UnitNotEmpty(c: Unit)
    ensures EscapedUnit(c) != []
  {
  }

  lemma ReadEmpty(rest: JsString)
    ensures ReadString(Escaped([]) + [QUOTE] + rest) == Some(([], rest))
  {
    assert Escaped([]) + [QUOTE] + rest == [QUOTE] + rest;
    assert ([QUOTE] + rest)[1..] == rest;
  }

  lemma EscapedStep(s: JsString)
    requires s != []
    ensures Escaped(s) == if |s| > 1 && High(s[0]) && Low(s[1]) then [s[0], s[1]] + Escaped(s[2..])
                          else EscapedUnit(s[0]) + Escaped(s[1..])
  {
  }

  lemma {:induction false} StringRoundTrip(s: JsString, rest: JsString)
    ensures ReadString(Escaped(s) + [QUOTE] + rest) == Some((s, rest))
  {
    hide *;
    if s == [] {
      ReadEmpty(rest);
    } else if |s| > 1 && High(s[0]) && Low(s[1]) {
      EscapedStep(s);
      StringRoundTrip(s[2..], rest);
      PairBack(s, Escaped(s[2..]) + [QUOTE] + rest, rest);
      assert Escaped(s) + [QUOTE] + rest == [s[0], s[1]] + (Escaped(s[2..]) + [QUOTE] + rest);
    } else {
      EscapedStep(s);
      StringRoundTrip(s[1..], rest);
      UnitBack(s, Escaped(s[1..]) + [QUOTE] + rest, rest);
      assert Escaped(s) + [QUOTE] + rest == EscapedUnit(s[0]) + (Escaped(s[1..]) + [QUOTE] + rest);
    }
  }

  // ---- values ----

  predicate NumberUnit(c: Unit) { 48 <= c <= 57 || c == 43 || c == 45 || c == 46 || c == 69 || c == 101 }

  /** The text of a number: digits, sign, point, exponent. */
  predicate NumberText(d: JsString) {
    d != [] && forall i | 0 <= i < |d| :: NumberUnit(d[i])
  }

  /** A tree `visit` can return. */
  ghost predicate Data(v: Value) {
    match v
    case NotJson => false
    case Number(digits) => NumberText(digits)
    case Array(items) => forall i | 0 <= i < |items| :: Data(items[i])
    case Object(fields) => forall i | 0 <= i < |fields| :: Data(fields[i].value)
    case _ => true
  }

  /** `JSON.stringify(v)`; it is never given what is not JSON. */
  function Stringify(v: Value): JsString {
    match v
    case Null => NULL_TEXT
    case Bool(b) => if b then TRUE_TEXT else FALSE_TEXT
    case Text(s) => Quoted(s)
    case Number(digits) => digits
    case Array(items) => [OPEN_ARRAY] + ItemsText(items) + [CLOSE_ARRAY]
    case Object(fields) => [OPEN_OBJECT] + FieldsText(fields) + [CLOSE_OBJECT]
    case NotJson => []
  }

  function ItemsText(items: seq<Value>): JsString {
    if items == [] then []
    else Stringify(items[0]) + (if |items| == 1 then [] else [COMMA] + ItemsText(items[1..]))
  }

  function FieldsText(fields: seq<Field>): JsString {
    if fields == [] then []
    else Quoted(fields[0].name) + [COLON] + Stringify(fields[0].value)
         + (if |fields| == 1 then [] else [COMMA] + FieldsText(fields[1..]))
  }

  function NumberSpan(t: JsString): (n: nat)
    ensures n <= |t|
  {
    if t == [] || !NumberUnit(t[0]) then 0 else 1 + NumberSpan(t[1..])
  }

  /** Reads one value from the front of a text. */
  function Read(t: JsString): (r: Option<(Value, JsString)>)
    ensures r.Some? ==> |r.value.1| < |t|
    decreases |t|, 0
  {
    if t == [] then None
    else if t[0] == 110 then (if NULL_TEXT <= t then Some((Null, t[4..])) else None)
    else if t[0] == 116 then (if TRUE_TEXT <= t then Some((Bool(true), t[4..])) else None)
    else if t[0] == 102 then (if FALSE_TEXT <= t then Some((Bool(false), t[5..])) else None)
    else if t[0] == QUOTE then
      match ReadString(t[1..]) { case None => None case Some((s, rest)) => Some((Text(s), rest)) }
    else if t[0] == OPEN_ARRAY then
      if |t| > 1 && t[1] == CLOSE_ARRAY then Some((Array([]), t[2..]))
      else match ReadItems(t[1..]) { case None => None case Some((items, rest)) => Some((Array(items), rest)) }
    else if t[0] == OPEN_OBJECT then
      if |t| > 1 && t[1] == CLOSE_OBJECT then Some((Object([]), t[2..]))
      else match ReadFields(t[1..]) { case None => None case Some((fields, rest)) => Some((Object(fields), rest)) }
    else var n := NumberSpan(t); if n == 0 then None else Some((Number(t[..n]), t[n..]))
  }

  function ReadItems(t: JsString): (r: Option<(seq<Value>, JsString)>)
    ensures r.Some? ==> |r.value.1| < |t|
    decreases |t|, 1
  {
    match Read(t)
    case None => None
    case Some((v, rest)) =>
      if rest != [] && rest[0] == CLOSE_ARRAY then Some(([v], rest[1..]))
      else if rest != [] && rest[0] == COMMA then
        match ReadItems(rest[1..]) { case None => None case Some((items, left)) => Some(([v] + items, left)) }
      else None
  }

  function ReadFields(t: JsString): (r: Option<(seq<Field>, JsString)>)
    ensures r.Some? ==> |r.value.1| < |t|
    decreases |t|, 1
  {
    if t == [] || t[0] != QUOTE then None else
      match ReadString(t[1..])
      case None => None
      case Some((name, rest)) =>
        if rest == [] || rest[0] != COLON then None else
          match Read(rest[1..])
          case None => None
          case Some((v, after)) =>
            if after != [] && after[0] == CLOSE_OBJECT then Some(([Field(name, v)], after[1..]))
            else if after != [] && after[0] == COMMA then
              match ReadFields(after[1..]) {
                case None => None
                case Some((fields, left)) => Some(([Field(name, v)] + fields, left))
              }
            else None
  }

  /** What may follow a value. */
  predicate Ends(rest: JsString) { rest == [] || rest[0] == COMMA || rest[0] == CLOSE_ARRAY || rest[0] == CLOSE_OBJECT }

  lemma {:induction false} SpanIs(d: JsString, rest: JsString)
    requires (forall i | 0 <= i < |d| :: NumberUnit(d[i])) && Ends(rest)
    ensures NumberSpan(d + rest) == |d|
  {
    if d == [] { assert d + rest == rest; } else {
      SpanIs(d[1..], rest);
      assert (d + rest)[1..] == d[1..] + rest;
    }
  }

  lemma FirstUnit(v: Value)
    requires Data(v)
    ensures Stringify(v) != [] && Stringify(v)[0] != CLOSE_ARRAY
  {
    if v.Number? { assert NumberUnit(v.digits[0]); }
  }

  lemma NumberBack(d: JsString, rest: JsString)
    requires NumberText(d) && Ends(rest)
    ensures Read(d + rest) == Some((Number(d), rest))
  {
    SpanIs(d, rest);
    assert NumberUnit(d[0]) && (d + rest)[0] == d[0];
    assert (d + rest)[..|d|] == d && (d + rest)[|d|..] == rest;
  }

  lemma TextBack(s: JsString, rest: JsString)
    ensures Quoted(s) + rest != [] && (Quoted(s) + rest)[0] == QUOTE
    ensures ReadString((Quoted(s) + rest)[1..]) == Some((s, rest))
  {
    StringRoundTrip(s, rest);
    assert (Quoted(s) + rest)[1..] == Escaped(s) + [QUOTE] + rest;
  }

  lemma WordBack(v: Value, rest: JsString)
    requires v.Null? || v.Bool?
    ensures Read(Stringify(v) + rest) == Some((v, rest))
  {
    var t := Stringify(v) + rest;
    assert Stringify(v) <= t && t[|Stringify(v)|..] == rest;
  }

  /** Reading back what was written gives the value and leaves what followed. */
  lemma {:induction false} ValueBack(v: Value, rest: JsString)
    requires Data(v) && Ends(rest)
    ensures Read(Stringify(v) + rest) == Some((v, rest))
    decreases v, 1
  {
    match v {
      case Text(s) => TextBack(s, rest);
      case Number(digits) => NumberBack(digits, rest);
      case Array(items) => ArrayBack(items, rest);
      case Object(fields) => ObjectBack(fields, rest);
      case _ => WordBack(v, rest);
    }
  }

  lemma ArrayBack(items: seq<Value>, rest: JsString)
    requires forall i | 0 <= i < |items| :: Data(items[i])
    ensures Read(Stringify(Array(items)) + rest) == Some((Array(items), rest))
    decreases items, 1
  {
    var t := Stringify(Array(items)) + rest;
    if items == [] {
      assert t == [OPEN_ARRAY, CLOSE_ARRAY] + rest;
    } else {
      ItemsBack(items, rest);
      FirstUnit(items[0]);
      assert t[1..] == ItemsText(items) + [CLOSE_ARRAY] + rest;
    }
  }

  lemma ItemBack(v: Value, after: JsString)
    requires Data(v) && Ends(after) && after != [] && after[0] != CLOSE_OBJECT
    ensures ReadItems(Stringify(v) + after)
         == if after[0] == CLOSE_ARRAY then Some(([v], after[1..]))
            else match ReadItems(after[1..])
                 case None => None
                 case Some((items, left)) => Some(([v] + items, left))
    decreases v, 2
  {
    hide Read, Stringify;
    ValueBack(v, after);
  }

  lemma {:induction false} ItemsBack(items: seq<Value>, rest: JsString)
    requires items != [] && forall i | 0 <= i < |items| :: Data(items[i])
    ensures ReadItems(ItemsText(items) + [CLOSE_ARRAY] + rest) == Some((items, rest))
    decreases items, 0
  {
    hide ReadItems, Stringify;
    var t := ItemsText(items) + [CLOSE_ARRAY] + rest;
    if |items| == 1 {
      ItemBack(items[0], [CLOSE_ARRAY] + rest);
      assert t == Stringify(items[0]) + ([CLOSE_ARRAY] + rest);
      assert ([CLOSE_ARRAY] + rest)[1..] == rest && items == [items[0]];
    } else {
      var tail := ItemsText(items[1..]) + [CLOSE_ARRAY] + rest;
      ItemBack(items[0], [COMMA] + tail);
      ItemsBack(items[1..], rest);
      assert t == Stringify(items[0]) + ([COMMA] + tail);
      assert ([COMMA] + tail)[1..] == tail && [items[0]] + items[1..] == items;
    }
  }

  lemma EmptyObjectBack(rest: JsString)
    ensures Read(Stringify(Object([])) + rest) == Some((Object([]), rest))
  {
    assert Stringify(Object([])) + rest == [OPEN_OBJECT, CLOSE_OBJECT] + rest;
  }

  lemma ObjectBack(fields: seq<Field>, rest: JsString)
    requires forall i | 0 <= i < |fields| :: Data(fields[i].value)
    ensures Read(Stringify(Object(fields)) + rest) == Some((Object(fields), rest))
    decreases fields, 1
  {
    hide *;
    if fields == [] {
      EmptyObjectBack(rest);
    } else {
      FieldsBack(fields, rest);
      FieldsStart(fields);
      ObjectText(fields);
      var t := Stringify(Object(fields)) + rest;
      var inner := FieldsText(fields) + [CLOSE_OBJECT] + rest;
      assert t == [OPEN_OBJECT] + inner;
      assert t[1..] == inner && t[1] == QUOTE;
      ReadObject(t);
    }
  }

  lemma ObjectText(fields: seq<Field>)
    ensures Stringify(Object(fields)) == [OPEN_OBJECT] + FieldsText(fields) + [CLOSE_OBJECT]
  {
  }

  lemma ReadObject(t: JsString)
    requires |t| > 1 && t[0] == OPEN_OBJECT && t[1] == QUOTE
    ensures Read(t) ==
      match ReadFields(t[1..]) case None => None case Some((fields, rest)) => Some((Object(fields), rest))
  {
  }

  lemma FieldsStart(fields: seq<Field>)
    requires fields != []
    ensures FieldsText(fields) != [] && FieldsText(fields)[0] == QUOTE
  {
  }

  lemma FieldBack(f: Field, after: JsString)
    requires Data(f.value) && Ends(after) && after != [] && after[0] != CLOSE_ARRAY
    ensures
      var t := Quoted(f.name) + [COLON] + Stringify(f.value) + after;
      ReadFields(t) == if after[0] == CLOSE_OBJECT then Some(([f], after[1..]))
                       else match ReadFields(after[1..])
                            case None => None
                            case Some((fields, left)) => Some(([f] + fields, left))
    decreases f, 2
  {
    hide Read, Stringify, Quoted, ReadString;
    ValueBack(f.value, after);
    var t := Quoted(f.name) + [COLON] + Stringify(f.value) + after;
    var tail := [COLON] + (Stringify(f.value) + after);
    assert t == Quoted(f.name) + tail;
    TextBack(f.name, tail);
    assert tail[1..] == Stringify(f.value) + after;
  }

  lemma {:induction false} FieldsBack(fields: seq<Field>, rest: JsString)
    requires fields != [] && forall i | 0 <= i < |fields| :: Data(fields[i].value)
    ensures ReadFields(FieldsText(fields) + [CLOSE_OBJECT] + rest) == Some((fields, rest))
    decreases fields, 0
  {
    hide ReadFields, Quoted, Stringify;
    var f := fields[0];
    var t := FieldsText(fields) + [CLOSE_OBJECT] + rest;
    if |fields| == 1 {
      var after := [CLOSE_OBJECT] + rest;
      FieldBack(f, after);
      assert t == Quoted(f.name) + [COLON] + Stringify(f.value) + after;
      assert after[1..] == rest && fields == [f];
    } else {
      var tail := FieldsText(fields[1..]) + [CLOSE_OBJECT] + rest;
      var after := [COMMA] + tail;
      FieldBack(f, after);
      FieldsBack(fields[1..], rest);
      assert t == Quoted(f.name) + [COLON] + Stringify(f.value) + after;
      assert after[1..] == tail && [f] + fields[1..] == fields;
    }
  }

  // ---- the canonical text ----

  function CanonicalText(v: Value): JsString { Stringify(Normal(v)) }

  lemma {:induction false} NormalData(v: Value)
    requires WellFormed(v) && Data(v)
    ensures Data(Normal(v))
  {
    match v {
      case Array(items) =>
        forall i | 0 <= i < |items| ensures Data(Normal(items[i])) { NormalData(items[i]); }
      case Object(fields) =>
        forall i | 0 <= i < |fields| ensures Data(Normal(fields[i].value)) { NormalData(fields[i].value); }
        NormalObject(fields);
        forall f | f in Normal(v).fields ensures Data(f.value) { FieldNormal(fields, f); }
      case _ =>
    }
  }

  /**
   * The canonical text is the same for two trees exactly when they hold the same
   * data: key order at any depth does not show, every other difference does.
   */
  lemma CanonicalDecides(a: Value, b: Value)
    requires WellFormed(a) && WellFormed(b) && Data(a) && Data(b)
    ensures CanonicalText(a) == CanonicalText(b) <==> Same(a, b)
  {
    NormalDecides(a, b);
    NormalData(a);
    NormalData(b);
    ValueBack(Normal(a), []);
    ValueBack(Normal(b), []);
    hide *;
    assert Stringify(Normal(a)) + [] == Stringify(Normal(a)) && Stringify(Normal(b)) + [] == Stringify(Normal(b));
  }

  /** Canonicalizing the tree read back from a canonical text gives the same text. */
  lemma CanonicalIdempotent(v: Value)
    requires WellFormed(v) && Data(v)
    ensures Read(CanonicalText(v)) == Some((Normal(v), [])) && CanonicalText(Normal(v)) == CanonicalText(v)
  {
    NormalIdempotent(v);
    NormalData(v);
    ValueBack(Normal(v), []);
    hide Stringify, Read, Normal;
    assert Stringify(Normal(v)) + [] == Stringify(Normal(v));
  }

  // ---- the whole function ----

  /**
   * `canonicalAppDataJson`: it accepts a tree of at most 65536 nodes, none
   * deeper than 32, with JSON leaves and no reserved name, and returns its
   * canonical text.
   */
  method CanonicalAppDataJson(value: Value) returns (r: Result<JsString, Failure>)
    ensures r.Ok? <==> Size(value) <= 65536 && NoDeeperThan(value, 32) && NoReservedName(value) && OnlyJson(value)
    ensures r.Ok? ==> r.value == CanonicalText(value)
  {
    var normal, nodes := CanonicalAppData(value);
    return match normal case Ok(v) => Ok(Stringify(v)) case Err(e) => Err(e);
  }
}
