/**
 * `canonicalAppDataJson` of packages/app-kit/src/app-data-json.ts: the recursive
 * `visit` with its shared node counter, and the normal form it builds.
 */
module AppDataJson {
  import opened Common
  import opened CodeUnits
  import O = Ordering

  const MAX_NODES := 65536
  const MAX_DEPTH := 32

  /**
   * A finite tree of JavaScript values.  `Number` holds the text of a finite
   * number; an object's `fields` stand in the order it lists them; everything
   * that is not JSON data (undefined, functions, class instances, NaN) is `NotJson`.
   */
  datatype Value =
    | Null
    | Bool(b: bool)
    | Text(text: JsString)
    | Number(digits: JsString)
    | Array(items: seq<Value>)
    | Object(fields: seq<Field>)
    | NotJson

  datatype Field = Field(name: JsString, value: Value)

  predicate Reserved(name: JsString) {
    name == Ascii("constructor") || name == Ascii("prototype") || name == Ascii("__proto__")
  }

  ghost predicate DistinctNames(fields: seq<Field>) {
    forall i, j | 0 <= i < j < |fields| :: fields[i].name != fields[j].name
  }

  /** An object has one field of a name. */
  ghost predicate WellFormed(v: Value) {
    match v
    case Array(items) => forall i | 0 <= i < |items| :: WellFormed(items[i])
    case Object(fields) => DistinctNames(fields) && forall i | 0 <= i < |fields| :: WellFormed(fields[i].value)
    case _ => true
  }

  // ---- what is accepted ----

  function Size(v: Value): (n: nat)
    ensures n > 0
  {
    match v
    case Array(items) => 1 + SizeAll(items)
    case Object(fields) => 1 + SizeFields(fields)
    case _ => 1
  }

  function SizeAll(items: seq<Value>): nat {
    if items == [] then 0 else SizeAll(items[..|items| - 1]) + Size(items[|items| - 1])
  }

  function SizeFields(fields: seq<Field>): nat {
    if fields == [] then 0 else SizeFields(fields[..|fields| - 1]) + Size(fields[|fields| - 1].value)
  }

  /** Accepted at this depth, the node budget aside. */
  ghost predicate Acceptable(v: Value, depth: nat) {
    && depth <= MAX_DEPTH
    && match v
       case NotJson => false
       case Array(items) => forall i | 0 <= i < |items| :: Acceptable(items[i], depth + 1)
       case Object(fields) =>
         forall i | 0 <= i < |fields| :: !Reserved(fields[i].name) && Acceptable(fields[i].value, depth + 1)
       case _ => true
  }

  /** No node of the tree lies more than `d` levels below its root. */
  ghost predicate NoDeeperThan(v: Value, d: int) {
    && d >= 0
    && match v
       case Array(items) => forall i | 0 <= i < |items| :: NoDeeperThan(items[i], d - 1)
       case Object(fields) => forall i | 0 <= i < |fields| :: NoDeeperThan(fields[i].value, d - 1)
       case _ => true
  }

  ghost predicate OnlyJson(v: Value) {
    match v
    case NotJson => false
    case Array(items) => forall i | 0 <= i < |items| :: OnlyJson(items[i])
    case Object(fields) => forall i | 0 <= i < |fields| :: OnlyJson(fields[i].value)
    case _ => true
  }

  ghost predicate NoReservedName(v: Value) {
    match v
    case Array(items) => forall i | 0 <= i < |items| :: NoReservedName(items[i])
    case Object(fields) => forall i | 0 <= i < |fields| :: !Reserved(fields[i].name) && NoReservedName(fields[i].value)
    case _ => true
  }

  /** The checks made node by node add up to three properties of the whole tree. */
  lemma {:induction false} AcceptableMeans(v: Value, depth: nat)
    ensures Acceptable(v, depth) <==> NoDeeperThan(v, MAX_DEPTH - depth) && OnlyJson(v) && NoReservedName(v)
  {
    hide Reserved;
    match v {
      case Array(items) =>
        forall i | 0 <= i < |items|
          ensures Acceptable(items[i], depth + 1) <==>
            NoDeeperThan(items[i], MAX_DEPTH - depth - 1) && OnlyJson(items[i]) && NoReservedName(items[i])
        {
          AcceptableMeans(items[i], depth + 1);
        }
      case Object(fields) =>
        forall i | 0 <= i < |fields|
          ensures Acceptable(fields[i].value, depth + 1) <==>
            NoDeeperThan(fields[i].value, MAX_DEPTH - depth - 1) && OnlyJson(fields[i].value)
              && NoReservedName(fields[i].value)
        {
          AcceptableMeans(fields[i].value, depth + 1);
        }
      case _ =>
    }
  }

  // ---- sorting keys, and how an object lists them ----

  predicate AtMost(f: Field, g: Field) { !Less(g.name, f.name) }

  function InsertField(f: Field, fields: seq<Field>): seq<Field> { O.InsertBy(AtMost, f, fields) }

  /** `Object.keys(item).sort()`, with the values. */
  function SortFields(fields: seq<Field>): seq<Field> { O.SortBy(AtMost, fields) }

  /** An array index goes to its place by value; any other key goes last. */
  function Put(fields: seq<Field>, f: Field): seq<Field> {
    if IsIndex(f.name) then PutIndex(fields, f) else fields + [f]
  }

  function PutIndex(fields: seq<Field>, f: Field): seq<Field> {
    if fields == [] || KeyBefore(f.name, fields[0].name) then [f] + fields
    else [fields[0]] + PutIndex(fields[1..], f)
  }

  /** How an object lists its keys after they were set in this order. */
  function PutAll(fields: seq<Field>): seq<Field> {
    if fields == [] then [] else Put(PutAll(fields[..|fields| - 1]), fields[|fields| - 1])
  }

  /** What `visit` returns. */
  function Normal(v: Value): Value {
    match v
    case Array(items) => Array(NormalAll(items))
    case Object(fields) => Object(PutAll(SortFields(NormalFields(fields))))
    case _ => v
  }

  function NormalAll(items: seq<Value>): (r: seq<Value>)
    ensures |r| == |items| && forall i | 0 <= i < |r| :: r[i] == Normal(items[i])
  {
    if items == [] then [] else NormalAll(items[..|items| - 1]) + [Normal(items[|items| - 1])]
  }

  function NormalFields(fields: seq<Field>): (r: seq<Field>)
    ensures |r| == |fields|
    ensures forall i | 0 <= i < |r| :: r[i] == Field(fields[i].name, Normal(fields[i].value))
  {
    if fields == [] then []
    else NormalFields(fields[..|fields| - 1]) + [Field(fields[|fields| - 1].name, Normal(fields[|fields| - 1].value))]
  }

  ghost predicate Sorted(fields: seq<Field>) {
    forall i, j | 0 <= i < j < |fields| :: !Less(fields[j].name, fields[i].name)
  }

  /** The listing order of a JavaScript object. */
  ghost predicate Enumerated(fields: seq<Field>) {
    forall i, j | 0 <= i < j < |fields| :: KeyBefore(fields[i].name, fields[j].name)
  }

  lemma AtMostTransitive(a: Field, b: Field, c: Field)
    requires AtMost(a, b) && AtMost(b, c)
    ensures AtMost(a, c)
  {
    LessTotal(a.name, b.name);
    LessTotal(b.name, c.name);
    if Less(c.name, a.name) && Less(a.name, b.name) { LessTransitive(c.name, a.name, b.name); }
  }

  lemma SortSorts(fields: seq<Field>)
    ensures Sorted(SortFields(fields)) && multiset(SortFields(fields)) == multiset(fields)
  {
    forall a: Field, b: Field ensures AtMost(a, b) || AtMost(b, a) { LessTotal(a.name, b.name); }
    forall a: Field, b: Field, c: Field | AtMost(a, b) && AtMost(b, c)
      ensures AtMost(a, c)
    {
      AtMostTransitive(a, b, c);
    }
    O.SortSorts(AtMost, fields);
  }

  /** Sorting fields of distinct names leaves each strictly below the next. */
  lemma SortStrict(fields: seq<Field>)
    requires DistinctNames(fields)
    ensures forall i, j | 0 <= i < j < |SortFields(fields)| ::
      Less(SortFields(fields)[i].name, SortFields(fields)[j].name)
    ensures |SortFields(fields)| == |fields| && forall x :: x in SortFields(fields) <==> x in fields
  {
    SortSorts(fields);
    var s := SortFields(fields);
    O.SameElements(s, fields);
    O.NoDupOfMultiset(fields, s);
    forall i, j | 0 <= i < j < |s| ensures Less(s[i].name, s[j].name) {
      LessTotal(s[i].name, s[j].name);
      assert s[i] in fields && s[j] in fields && s[i] != s[j];
    }
  }

  lemma {:induction false} PutIndexKeeps(fields: seq<Field>, f: Field)
    requires Enumerated(fields) && forall g | g in fields :: g.name != f.name
    ensures Enumerated(PutIndex(fields, f))
    ensures forall x :: x in PutIndex(fields, f) <==> x == f || x in fields
  {
    hide IsIndex, KeyBefore, Less;
    if fields != [] {
      var rest := fields[1..];
      if KeyBefore(f.name, fields[0].name) {
        forall i | 0 <= i < |fields| ensures KeyBefore(f.name, fields[i].name) {
          if i > 0 { KeyBeforeTransitive(f.name, fields[0].name, fields[i].name); }
        }
      } else {
        PutIndexKeeps(rest, f);
        KeyBeforeTotal(f.name, fields[0].name);
        forall x | x in PutIndex(rest, f) ensures KeyBefore(fields[0].name, x.name) {
        }
      }
    }
  }

  /** Setting a key above all those set before keeps the listing order. */
  lemma PutKeeps(fields: seq<Field>, f: Field)
    requires Enumerated(fields) && forall g | g in fields :: Less(g.name, f.name)
    ensures Enumerated(Put(fields, f))
    ensures forall x :: x in Put(fields, f) <==> x == f || x in fields
  {
    forall g | g in fields ensures g.name != f.name { LessTotal(g.name, f.name); }
    if IsIndex(f.name) { PutIndexKeeps(fields, f); }
  }

  lemma {:induction false} PutAllEnumerates(fields: seq<Field>)
    requires forall i, j | 0 <= i < j < |fields| :: Less(fields[i].name, fields[j].name)
    ensures Enumerated(PutAll(fields))
    ensures forall x :: x in PutAll(fields) <==> x in fields
  {
    if fields != [] {
      var init, last := fields[..|fields| - 1], fields[|fields| - 1];
      assert fields == init + [last];
      PutAllEnumerates(init);
      PutKeeps(PutAll(init), last);
    }
  }

  /** A normal object lists the normalized fields, each once, in the order JavaScript lists them. */
  lemma NormalObject(fields: seq<Field>)
    requires DistinctNames(fields)
    ensures Enumerated(Normal(Object(fields)).fields)
    ensures forall x :: x in Normal(Object(fields)).fields <==> x in NormalFields(fields)
  {
    SortStrict(NormalFields(fields));
    PutAllEnumerates(SortFields(NormalFields(fields)));
  }

  // ---- key order does not matter, anything else does ----

  /** The same data: equal leaves, arrays item by item, objects with the same keys and the same data under each. */
  ghost predicate Same(a: Value, b: Value) {
    match a
    case Array(items) =>
      b.Array? && |items| == |b.items| && forall i | 0 <= i < |items| :: Same(items[i], b.items[i])
    case Object(fields) =>
      && b.Object?
      && (forall i | 0 <= i < |fields| :: SomeSame(fields[i], b.fields))
      && (forall j | 0 <= j < |b.fields| :: SameAsSome(fields, b.fields[j]))
    case _ => a == b
  }

  ghost predicate SomeSame(f: Field, others: seq<Field>) {
    exists j :: 0 <= j < |others| && others[j].name == f.name && Same(f.value, others[j].value)
  }

  ghost predicate SameAsSome(fields: seq<Field>, g: Field) {
    exists i :: 0 <= i < |fields| && fields[i].name == g.name && Same(fields[i].value, g.value)
  }

  lemma {:induction false} EnumeratedUnique(a: seq<Field>, b: seq<Field>)
    requires Enumerated(a) && Enumerated(b) && forall x :: x in a <==> x in b
    ensures a == b
  {
    hide KeyBefore;
    if a == [] {
      if b != [] { NotEmpty(b); }
    } else {
      assert a[0] in a && b != [];
      assert b[0] in b;
      var i :| 0 <= i < |a| && a[i] == b[0];
      var j :| 0 <= j < |b| && b[j] == a[0];
      KeyBeforeTotal(a[0].name, b[0].name);
      assert i == 0 || j == 0;
      assert a[0] == b[0];
      TailElements(a, b);
      EnumeratedUnique(a[1..], b[1..]);
      assert a == [a[0]] + a[1..] && b == [b[0]] + b[1..];
    }
  }

  lemma NotEmpty(b: seq<Field>)
    requires b != []
    ensures exists x :: x in b
  {
    assert b[0] in b;
  }

  lemma TailElements(a: seq<Field>, b: seq<Field>)
    requires Enumerated(a) && Enumerated(b) && a != [] && b != [] && a[0] == b[0]
    requires forall x :: x in a <==> x in b
    ensures forall x :: x in a[1..] <==> x in b[1..]
  {
    hide KeyBefore;
    FirstOnce(a);
    FirstOnce(b);
    forall x ensures x in a[1..] <==> x in b[1..] {
      assert x in a <==> x == a[0] || x in a[1..];
      assert x in b <==> x == b[0] || x in b[1..];
    }
  }

  lemma FirstOnce(a: seq<Field>)
    requires Enumerated(a) && a != []
    ensures a[0] !in a[1..]
  {
    hide KeyBefore;
    forall i | 0 < i < |a| ensures a[i] != a[0] {
      KeyBeforeTotal(a[0].name, a[i].name);
    }
  }

  /** Some field of that name has the same normal value. */
  ghost predicate NormalHas(f: Field, others: seq<Field>) {
    exists j :: 0 <= j < |others| && others[j].name == f.name && Normal(others[j].value) == Normal(f.value)
  }

  lemma NormalHasMeans(f: Field, others: seq<Field>)
    ensures NormalHas(f, others) <==> Field(f.name, Normal(f.value)) in NormalFields(others)
  {
    if j :| 0 <= j < |others| && others[j].name == f.name && Normal(others[j].value) == Normal(f.value) {
      assert NormalFields(others)[j] == Field(f.name, Normal(f.value));
    }
  }

  lemma FieldNormal(fields: seq<Field>, x: Field)
    ensures x in NormalFields(fields) <==>
      exists i :: 0 <= i < |fields| && x == Field(fields[i].name, Normal(fields[i].value))
  {
    if x in NormalFields(fields) {
      var i :| 0 <= i < |fields| && x == NormalFields(fields)[i];
    }
    if i :| 0 <= i < |fields| && x == Field(fields[i].name, Normal(fields[i].value)) {
      assert x == NormalFields(fields)[i];
    }
  }

  lemma Contained(a: seq<Field>, b: seq<Field>)
    ensures (forall i | 0 <= i < |a| :: NormalHas(a[i], b)) <==>
      (forall x | x in NormalFields(a) :: x in NormalFields(b))
  {
    hide NormalHas, Normal;
    var n := NormalFields(a);
    forall i | 0 <= i < |a| ensures NormalHas(a[i], b) <==> n[i] in NormalFields(b) {
      NormalHasMeans(a[i], b);
    }
    assert (forall i | 0 <= i < |a| :: n[i] in NormalFields(b)) <==> (forall x | x in n :: x in NormalFields(b)) by {
      InMeansAt(n, NormalFields(b));
    }
  }

  lemma InMeansAt(n: seq<Field>, other: seq<Field>)
    ensures (forall i | 0 <= i < |n| :: n[i] in other) <==> (forall x | x in n :: x in other)
  {
    if forall x | x in n :: x in other {
      forall i | 0 <= i < |n| ensures n[i] in other { assert n[i] in n; }
    }
  }

  /** Two objects normalize alike exactly when each holds the other's fields. */
  lemma ObjectsAgree(a: seq<Field>, b: seq<Field>)
    requires DistinctNames(a) && DistinctNames(b)
    ensures Normal(Object(a)) == Normal(Object(b)) <==>
      (forall i | 0 <= i < |a| :: NormalHas(a[i], b)) && (forall j | 0 <= j < |b| :: NormalHas(b[j], a))
  {
    NormalObject(a);
    NormalObject(b);
    Contained(a, b);
    Contained(b, a);
    hide Normal, NormalHas, Enumerated;
    if forall x :: x in NormalFields(a) <==> x in NormalFields(b) {
      EnumeratedUnique(Normal(Object(a)).fields, Normal(Object(b)).fields);
    }
  }

  /** The normal form is the same exactly for the same data, whatever the order of keys at any depth. */
  lemma {:induction false} NormalDecides(a: Value, b: Value)
    requires WellFormed(a) && WellFormed(b)
    ensures Normal(a) == Normal(b) <==> Same(a, b)
    decreases a, 3
  {
    if a.Array? && b.Array? {
      ArraysDecide(a, b);
    } else if a.Object? && b.Object? {
      ObjectsDecide(a, b);
    }
  }

  lemma ArraysDecide(a: Value, b: Value)
    requires WellFormed(a) && WellFormed(b) && a.Array? && b.Array?
    ensures Normal(a) == Normal(b) <==> Same(a, b)
    decreases a, 1
  {
    if |a.items| == |b.items| {
      forall i | 0 <= i < |a.items| ensures Normal(a.items[i]) == Normal(b.items[i]) <==> Same(a.items[i], b.items[i]) {
        NormalDecides(a.items[i], b.items[i]);
      }
      assert NormalAll(a.items) == NormalAll(b.items) <==>
        forall i | 0 <= i < |a.items| :: NormalAll(a.items)[i] == NormalAll(b.items)[i];
    } else {
      assert |NormalAll(a.items)| != |NormalAll(b.items)|;
    }
  }

  lemma ObjectsDecide(a: Value, b: Value)
    requires WellFormed(a) && WellFormed(b) && a.Object? && b.Object?
    ensures Normal(a) == Normal(b) <==> Same(a, b)
    decreases a, 2
  {
    assert a == Object(a.fields) && b == Object(b.fields);
    ObjectsAgree(a.fields, b.fields);
    SameObjects(a, b);
    FieldsDecide(a, b);
    hide *;
  }

  lemma FieldsDecide(a: Value, b: Value)
    requires WellFormed(a) && WellFormed(b) && a.Object? && b.Object?
    ensures (forall i | 0 <= i < |a.fields| :: NormalHas(a.fields[i], b.fields)) <==>
            (forall i | 0 <= i < |a.fields| :: SomeSame(a.fields[i], b.fields))
    ensures (forall j | 0 <= j < |b.fields| :: NormalHas(b.fields[j], a.fields)) <==>
            (forall j | 0 <= j < |b.fields| :: SameAsSome(a.fields, b.fields[j]))
    decreases a, 1
  {
    hide *;
    forall i | 0 <= i < |a.fields| ensures NormalHas(a.fields[i], b.fields) <==> SomeSame(a.fields[i], b.fields) {
      FieldDecides(a, b, i);
    }
    forall j | 0 <= j < |b.fields| ensures NormalHas(b.fields[j], a.fields) <==> SameAsSome(a.fields, b.fields[j]) {
      OtherFieldDecides(a, b, j);
    }
  }

  lemma SameObjects(a: Value, b: Value)
    requires a.Object? && b.Object?
    ensures Same(a, b) <==>
      && (forall i | 0 <= i < |a.fields| :: SomeSame(a.fields[i], b.fields))
      && (forall j | 0 <= j < |b.fields| :: SameAsSome(a.fields, b.fields[j]))
  {
  }

  lemma FieldDecides(a: Value, b: Value, i: nat)
    requires WellFormed(a) && WellFormed(b) && a.Object? && b.Object? && i < |a.fields|
    ensures NormalHas(a.fields[i], b.fields) <==> SomeSame(a.fields[i], b.fields)
    decreases a, 0
  {
    forall j | 0 <= j < |b.fields|
      ensures Normal(a.fields[i].value) == Normal(b.fields[j].value) <==> Same(a.fields[i].value, b.fields[j].value)
    {
      NormalDecides(a.fields[i].value, b.fields[j].value);
    }
    hide Normal, Same;
  }

  lemma OtherFieldDecides(a: Value, b: Value, j: nat)
    requires WellFormed(a) && WellFormed(b) && a.Object? && b.Object? && j < |b.fields|
    ensures NormalHas(b.fields[j], a.fields) <==> SameAsSome(a.fields, b.fields[j])
    decreases a, 0
  {
    forall i | 0 <= i < |a.fields|
      ensures Normal(a.fields[i].value) == Normal(b.fields[j].value) <==> Same(a.fields[i].value, b.fields[j].value)
    {
      NormalDecides(a.fields[i].value, b.fields[j].value);
    }
    hide Normal, Same;
  }

  lemma EnumeratedDistinct(fields: seq<Field>)
    requires Enumerated(fields)
    ensures DistinctNames(fields)
  {
    hide KeyBefore;
    forall i, j | 0 <= i < j < |fields| ensures fields[i].name != fields[j].name {
      KeyBeforeTotal(fields[i].name, fields[j].name);
    }
  }

  /** Normalizing a normal tree changes nothing. */
  lemma {:induction false} NormalIdempotent(v: Value)
    requires WellFormed(v)
    ensures WellFormed(Normal(v)) && Normal(Normal(v)) == Normal(v)
  {
    match v {
      case Array(items) =>
        forall i | 0 <= i < |items|
          ensures WellFormed(Normal(items[i])) && Normal(Normal(items[i])) == Normal(items[i])
        {
          NormalIdempotent(items[i]);
        }
        assert NormalAll(NormalAll(items)) == NormalAll(items);
      case Object(fields) =>
        forall i | 0 <= i < |fields|
          ensures WellFormed(Normal(fields[i].value)) && Normal(Normal(fields[i].value)) == Normal(fields[i].value)
        {
          NormalIdempotent(fields[i].value);
        }
        NormalObjectAgain(fields);
      case _ =>
    }
  }

  lemma NormalObjectAgain(fields: seq<Field>)
    requires DistinctNames(fields)
    requires forall i | 0 <= i < |fields| ::
      WellFormed(Normal(fields[i].value)) && Normal(Normal(fields[i].value)) == Normal(fields[i].value)
    ensures WellFormed(Normal(Object(fields))) && Normal(Normal(Object(fields))) == Normal(Object(fields))
  {
    NormalObject(fields);
    var n := Normal(Object(fields)).fields;
    EnumeratedDistinct(n);
    forall f | f in n ensures WellFormed(f.value) && Normal(f.value) == f.value {
      FieldNormal(fields, f);
    }
    assert NormalFields(n) == n;
    NormalObject(n);
    EnumeratedUnique(Normal(Object(n)).fields, n);
  }

  // ---- visit ----

  datatype Failure = TooComplex | ReservedProperty | NotFiniteJson

  lemma SizeOfPart(items: seq<Value>, i: nat)
    requires i < |items|
    ensures SizeAll(items[..i + 1]) == SizeAll(items[..i]) + Size(items[i])
  {
    assert items[..i + 1][..i] == items[..i];
  }

  lemma {:induction false} SizeGrows(items: seq<Value>, i: nat)
    requires i <= |items|
    ensures SizeAll(items[..i]) <= SizeAll(items)
    decreases |items| - i
  {
    if i == |items| {
      assert items[..i] == items;
    } else {
      SizeOfPart(items, i);
      SizeGrows(items, i + 1);
    }
  }

  lemma SizeOfFields(fields: seq<Field>, i: nat)
    requires i < |fields|
    ensures SizeFields(fields[..i + 1]) == SizeFields(fields[..i]) + Size(fields[i].value)
  {
    assert fields[..i + 1][..i] == fields[..i];
  }

  lemma {:induction false} SizeFieldsGrows(fields: seq<Field>, i: nat)
    requires i <= |fields|
    ensures SizeFields(fields[..i]) <= SizeFields(fields)
    decreases |fields| - i
  {
    if i == |fields| {
      assert fields[..i] == fields;
    } else {
      SizeOfFields(fields, i);
      SizeFieldsGrows(fields, i + 1);
    }
  }

  lemma {:induction false} SizeCons(f: Field, fields: seq<Field>)
    ensures SizeFields([f] + fields) == Size(f.value) + SizeFields(fields)
  {
    if fields == [] {
      assert [f] + fields == [f];
      assert SizeFields([f][..0]) == 0;
    } else {
      var init, last := fields[..|fields| - 1], fields[|fields| - 1];
      SizeCons(f, init);
      assert ([f] + fields)[..|fields|] == [f] + init;
    }
  }

  lemma {:induction false} SizeInsert(f: Field, fields: seq<Field>)
    ensures SizeFields(InsertField(f, fields)) == Size(f.value) + SizeFields(fields)
  {
    hide Size;
    SizeCons(f, fields);
    if fields != [] {
      SizeInsert(f, fields[1..]);
      SizeCons(fields[0], fields[1..]);
      SizeCons(fields[0], InsertField(f, fields[1..]));
      assert fields == [fields[0]] + fields[1..];
    }
  }

  /** Sorting the keys does not change the number of nodes below them. */
  lemma {:induction false} SizeSorted(fields: seq<Field>)
    ensures SizeFields(SortFields(fields)) == SizeFields(fields)
  {
    hide Size;
    if fields != [] {
      SizeSorted(fields[1..]);
      SizeInsert(fields[0], SortFields(fields[1..]));
      SizeCons(fields[0], fields[1..]);
      assert fields == [fields[0]] + fields[1..];
    }
  }

  lemma NormalCons(f: Field, fields: seq<Field>)
    ensures NormalFields([f] + fields) == [Field(f.name, Normal(f.value))] + NormalFields(fields)
  {
    hide Normal;
  }

  lemma {:induction false} InsertCommutes(f: Field, fields: seq<Field>)
    ensures NormalFields(InsertField(f, fields)) == InsertField(Field(f.name, Normal(f.value)), NormalFields(fields))
  {
    hide Normal;
    NormalCons(f, fields);
    if fields != [] {
      InsertCommutes(f, fields[1..]);
      NormalCons(fields[0], fields[1..]);
      NormalCons(fields[0], InsertField(f, fields[1..]));
      assert fields == [fields[0]] + fields[1..];
      assert NormalFields(fields)[1..] == NormalFields(fields[1..]);
    }
  }

  /** Sorting looks at the keys alone, so it can come before or after normalizing the values. */
  lemma {:induction false} SortCommutes(fields: seq<Field>)
    ensures NormalFields(SortFields(fields)) == SortFields(NormalFields(fields))
  {
    hide Normal;
    if fields != [] {
      SortCommutes(fields[1..]);
      InsertCommutes(fields[0], SortFields(fields[1..]));
      NormalCons(fields[0], fields[1..]);
      assert fields == [fields[0]] + fields[1..];
      assert NormalFields(fields)[1..] == NormalFields(fields[1..]);
    }
  }

  ghost predicate FieldOk(f: Field, depth: nat) {
    !Reserved(f.name) && Acceptable(f.value, depth)
  }

  lemma SortedOk(fields: seq<Field>, depth: nat)
    ensures (forall i | 0 <= i < |SortFields(fields)| :: FieldOk(SortFields(fields)[i], depth)) <==>
            (forall i | 0 <= i < |fields| :: FieldOk(fields[i], depth))
  {
    hide FieldOk;
    SortSorts(fields);
    O.SameElements(SortFields(fields), fields);
    AllAt(SortFields(fields), depth);
    AllAt(fields, depth);
  }

  lemma AllAt(fields: seq<Field>, depth: nat)
    ensures (forall i | 0 <= i < |fields| :: FieldOk(fields[i], depth)) <==>
      (forall f | f in fields :: FieldOk(f, depth))
  {
    hide FieldOk;
    if forall f | f in fields :: FieldOk(f, depth) {
      forall i | 0 <= i < |fields| ensures FieldOk(fields[i], depth) { assert fields[i] in fields; }
    }
  }

  class Visitor {
    var nodes: nat

    constructor ()
      ensures nodes == 0
    {
      nodes := 0;
    }

    /** One node and everything below it. */
    method Visit(item: Value, depth: nat) returns (r: Result<Value, Failure>)
      modifies this
      ensures r.Ok? <==> Acceptable(item, depth) && old(nodes) + Size(item) <= MAX_NODES
      ensures r.Ok? ==> nodes == old(nodes) + Size(item) && r.value == Normal(item)
      decreases item, 1
    {
      nodes := nodes + 1;
      if nodes > MAX_NODES || depth > MAX_DEPTH { return Err(TooComplex); }
      match item {
        case NotJson => return Err(NotFiniteJson);
        case Array(items) =>
          var visited := VisitItems(item, depth);
          match visited { case Err(e) => return Err(e); case Ok(values) => return Ok(Array(values)); }
        case Object(fields) =>
          var visited := VisitFields(item, depth);
          match visited { case Err(e) => return Err(e); case Ok(values) => return Ok(Object(values)); }
        case _ => return Ok(item);
      }
    }

    method VisitItems(item: Value, depth: nat) returns (r: Result<seq<Value>, Failure>)
      requires item.Array? && nodes <= MAX_NODES
      modifies this
      ensures r.Ok? <==> (forall i | 0 <= i < |item.items| :: Acceptable(item.items[i], depth + 1))
                         && old(nodes) + SizeAll(item.items) <= MAX_NODES
      ensures r.Ok? ==> nodes == old(nodes) + SizeAll(item.items) && r.value == NormalAll(item.items)
      decreases item, 0
    {
      hide Size, Normal, Acceptable;
      var items := item.items;
      var result := [];
      for i := 0 to |items|
        invariant nodes == old(nodes) + SizeAll(items[..i])
        invariant nodes <= MAX_NODES
        invariant forall k | 0 <= k < i :: Acceptable(items[k], depth + 1)
        invariant result == NormalAll(items[..i])
      {
        SizeOfPart(items, i);
        SizeGrows(items, i + 1);
        var child := Visit(items[i], depth + 1);
        if child.Err? { return Err(child.error); }
        result := result + [child.value];
        assert items[..i + 1][..i] == items[..i];
      }
      assert items[..|items|] == items;
      return Ok(result);
    }

    method VisitFields(item: Value, depth: nat) returns (r: Result<seq<Field>, Failure>)
      requires item.Object? && nodes <= MAX_NODES
      modifies this
      ensures r.Ok? <==> (forall i | 0 <= i < |item.fields| :: FieldOk(item.fields[i], depth + 1))
                         && old(nodes) + SizeFields(item.fields) <= MAX_NODES
      ensures r.Ok? ==>
        nodes == old(nodes) + SizeFields(item.fields) && r.value == PutAll(SortFields(NormalFields(item.fields)))
      decreases item, 0, 1
    {
      var fields := SortFields(item.fields);
      SortSorts(item.fields);
      O.SameElements(fields, item.fields);
      SizeSorted(item.fields);
      SortedOk(item.fields, depth + 1);
      SortCommutes(item.fields);
      hide Size, Normal, FieldOk, PutAll, SortFields;
      r := VisitSorted(item, fields, depth);
    }

    /** The loop over the sorted keys. */
    method VisitSorted(item: Value, fields: seq<Field>, depth: nat) returns (r: Result<seq<Field>, Failure>)
      requires item.Object? && nodes <= MAX_NODES && forall f | f in fields :: f in item.fields
      modifies this
      ensures r.Ok? <==> (forall i | 0 <= i < |fields| :: FieldOk(fields[i], depth + 1))
                         && old(nodes) + SizeFields(fields) <= MAX_NODES
      ensures r.Ok? ==> nodes == old(nodes) + SizeFields(fields) && r.value == PutAll(NormalFields(fields))
      decreases item, 0, 0
    {
      hide Size, Normal, Acceptable, Put, Reserved, NormalFields;
      var result := [];
      NormalNothing(fields);
      for i := 0 to |fields|
        invariant nodes == old(nodes) + SizeFields(fields[..i])
        invariant nodes <= MAX_NODES
        invariant forall k | 0 <= k < i :: FieldOk(fields[k], depth + 1)
        invariant result == PutAll(NormalFields(fields[..i]))
      {
        SizeOfFields(fields, i);
        SizeFieldsGrows(fields, i + 1);
        if Reserved(fields[i].name) { return Err(ReservedProperty); }
        Below(item, fields[i]);
        var child := Visit(fields[i].value, depth + 1);
        if child.Err? { return Err(child.error); }
        result := Put(result, Field(fields[i].name, child.value));
        NormalSnoc(fields, i);
      }
      assert fields[..|fields|] == fields;
      return Ok(result);
    }
  }

  lemma NormalNothing(fields: seq<Field>)
    ensures PutAll(NormalFields(fields[..0])) == []
  {
  }

  lemma Below(item: Value, f: Field)
    requires item.Object? && f in item.fields
    ensures f.value < item
  {
  }

  lemma NormalSnoc(fields: seq<Field>, i: nat)
    requires i < |fields|
    ensures PutAll(NormalFields(fields[..i + 1]))
         == Put(PutAll(NormalFields(fields[..i])), Field(fields[i].name, Normal(fields[i].value)))
  {
    hide Normal, Put;
    var longer := NormalFields(fields[..i + 1]);
    assert fields[..i + 1][..i] == fields[..i];
    assert longer[..i] == NormalFields(fields[..i]);
  }

  /**
   * The counter starts at 0, so a tree is accepted exactly when it has at most
   * 65536 nodes, none deeper than 32, no reserved name and only JSON leaves; the
   * counter then equals its size.
   */
  method CanonicalAppData(value: Value) returns (r: Result<Value, Failure>, nodes: nat)
    ensures r.Ok? <==> Size(value) <= 65536 && NoDeeperThan(value, 32) && NoReservedName(value) && OnlyJson(value)
    ensures r.Ok? ==> r.value == Normal(value) && nodes == Size(value)
  {
    AcceptableMeans(value, 0);
    var visitor := new Visitor();
    r := visitor.Visit(value, 0);
    nodes := visitor.nodes;
  }
}
