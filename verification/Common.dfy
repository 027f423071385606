/** Small shared datatypes and facts about sequences. */
module Common {

  datatype Option<+T> = None | Some(value: T)

  datatype Result<+T, +E> = Ok(value: T) | Err(error: E)

  ghost predicate NoDup<T>(s: seq<T>) {
    forall i, j :: 0 <= i < j < |s| ==> s[i] != s[j]
  }

  /** The elements of `ids` that pass `keep`, in order: a `for` loop that pushes to a list. */
  function Select<T(!new)>(ids: seq<T>, keep: T -> bool): (r: seq<T>)
    ensures forall x :: x in r <==> x in ids && keep(x)
  {
    if ids == [] then []
    else (if keep(ids[0]) then [ids[0]] else []) + Select(ids[1..], keep)
  }

  /** The first element of `ids` that passes `keep`: a `for` loop with an early return. */
  function Find<T(!new)>(ids: seq<T>, keep: T -> bool): (r: Option<T>)
    ensures r.None? ==> forall x :: x in ids ==> !keep(x)
    ensures r.Some? ==> r.value in ids && keep(r.value)
  {
    if ids == [] then None
    else if keep(ids[0]) then Some(ids[0])
    else Find(ids[1..], keep)
  }

  /** `ids` without `x`, in order. */
  function Without<T(==,!new)>(ids: seq<T>, x: T): (r: seq<T>)
    ensures forall y :: y in r <==> y in ids && y != x
    ensures |r| <= |ids|
  {
    if ids == [] then []
    else (if ids[0] == x then [] else [ids[0]]) + Without(ids[1..], x)
  }

  lemma {:induction false} SelectSnoc<T(!new)>(ids: seq<T>, x: T, keep: T -> bool)
    ensures Select(ids + [x], keep) == Select(ids, keep) + (if keep(x) then [x] else [])
  {
    if ids == [] {
      assert ids + [x] == [x];
    } else {
      SelectSnoc(ids[1..], x, keep);
      assert (ids + [x])[0] == ids[0] && (ids + [x])[1..] == ids[1..] + [x];
      var first := if keep(ids[0]) then [ids[0]] else [];
      var last := if keep(x) then [x] else [];
      assert Select(ids + [x], keep) == first + Select(ids[1..] + [x], keep);
      assert first + (Select(ids[1..], keep) + last) == (first + Select(ids[1..], keep)) + last;
    }
  }

  /** One turn of a loop over `ids` that pushes the elements passing `keep`. */
  lemma SelectStep<T(!new)>(ids: seq<T>, i: nat, keep: T -> bool)
    requires i < |ids|
    ensures Select(ids[..i + 1], keep) == Select(ids[..i], keep) + (if keep(ids[i]) then [ids[i]] else [])
  {
    SelectSnoc(ids[..i], ids[i], keep);
    assert ids[..i + 1] == ids[..i] + [ids[i]];
  }

  ghost predicate ComesBefore<T>(all: seq<T>, x: T, y: T) {
    exists a, b :: 0 <= a < b < |all| && all[a] == x && all[b] == y
  }

  /** `part` lists elements of `all` in the order they have there. */
  ghost predicate InOrderOf<T>(part: seq<T>, all: seq<T>) {
    forall i, j | 0 <= i < j < |part| :: ComesBefore(all, part[i], part[j])
  }

  lemma ComesBeforeCons<T>(all: seq<T>, x: T, y: T)
    requires all != [] && (ComesBefore(all[1..], x, y) || (x == all[0] && y in all[1..]))
    ensures ComesBefore(all, x, y)
  {
    if ComesBefore(all[1..], x, y) {
      var a, b :| 0 <= a < b < |all[1..]| && all[1..][a] == x && all[1..][b] == y;
      assert all[a + 1] == x && all[b + 1] == y;
    } else {
      var b :| 0 <= b < |all[1..]| && all[1..][b] == y;
      assert all[0] == x && all[b + 1] == y;
    }
  }

  lemma {:induction false} SelectInOrder<T(!new)>(ids: seq<T>, keep: T -> bool)
    ensures InOrderOf(Select(ids, keep), ids)
  {
    if ids != [] {
      var all, rest := Select(ids, keep), Select(ids[1..], keep);
      SelectInOrder(ids[1..], keep);
      var k := if keep(ids[0]) then 1 else 0;
      forall i, j | 0 <= i < j < |all| ensures ComesBefore(ids, all[i], all[j]) {
        assert all[j] == rest[j - k] && rest[j - k] in ids[1..];
        if i >= k { assert all[i] == rest[i - k] && ComesBefore(ids[1..], rest[i - k], rest[j - k]); }
        ComesBeforeCons(ids, all[i], all[j]);
      }
    }
  }

  /** What is found is the first: nothing before it passes. */
  lemma {:induction false} FindIsFirst<T(!new)>(ids: seq<T>, keep: T -> bool)
    ensures Find(ids, keep).Some? ==>
      exists k :: 0 <= k < |ids| && ids[k] == Find(ids, keep).value && forall i | 0 <= i < k :: !keep(ids[i])
  {
    if ids != [] {
      if keep(ids[0]) {
        assert ids[0] == Find(ids, keep).value;
      } else {
        FindIsFirst(ids[1..], keep);
        if Find(ids, keep).Some? {
          var k :| 0 <= k < |ids[1..]| && ids[1..][k] == Find(ids, keep).value
            && forall i | 0 <= i < k :: !keep(ids[1..][i]);
          assert ids[k + 1] == Find(ids, keep).value;
          assert forall i | 0 < i < k + 1 :: ids[i] == ids[1..][i - 1];
        }
      }
    }
  }

  lemma {:induction false} FindAt<T(!new)>(ids: seq<T>, k: nat, keep: T -> bool)
    requires k < |ids| && keep(ids[k])
    requires forall i :: 0 <= i < k ==> !keep(ids[i])
    ensures Find(ids, keep) == Some(ids[k])
  {
    if k > 0 {
      assert !keep(ids[0]);
      FindAt(ids[1..], k - 1, keep);
    }
  }

  lemma {:induction false} WithoutNoDup<T(!new)>(ids: seq<T>, x: T)
    requires NoDup(ids)
    ensures NoDup(Without(ids, x))
  {
    if ids != [] {
      WithoutNoDup(ids[1..], x);
      assert ids[0] !in ids[1..];
    }
  }

  lemma NoDupSnoc<T>(ids: seq<T>, x: T)
    requires NoDup(ids) && x !in ids
    ensures NoDup(ids + [x])
  {
  }
}
