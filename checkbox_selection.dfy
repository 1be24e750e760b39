/** The checkbox groups of the registration forms keep their selection in an
    array. Each click rebuilds a JavaScript `Set` from that array (an unset
    group counting as empty), adds or deletes the clicked option, and stores
    the set back as an array. */
module CheckboxSelection {
  import opened Wrappers

  predicate NoDuplicates<T(==,!new)>(xs: seq<T>) {
    forall i, j :: 0 <= i < j < |xs| ==> xs[i] != xs[j]
  }

  /** The first occurrences of the values of `xs`, in order: what a `Set` built
      from `xs` holds. */
  function Distinct<T(==,!new)>(xs: seq<T>): (d: seq<T>)
    ensures NoDuplicates(d)
    ensures forall x :: x in d <==> x in xs
    ensures |d| <= |xs|
  {
    if xs == [] then []
    else
      var d := Distinct(xs[..|xs| - 1]);
      var x := xs[|xs| - 1];
      assert forall y :: y in xs <==> y in xs[..|xs| - 1] || y == x;
      if x in d then d else d + [x]
  }

  /** Where `y` first occurs in `xs`. */
  function FirstIndex<T(==)>(xs: seq<T>, y: T): (k: nat)
    requires y in xs
    ensures k < |xs| && xs[k] == y
    ensures forall m :: 0 <= m < k ==> xs[m] != y
  {
    if xs[0] == y then 0 else FirstIndex(xs[1..], y) + 1
  }

  /** The first occurrence is the only position holding `y` with no `y` before it. */
  lemma FirstIndexUnique<T(!new)>(xs: seq<T>, y: T, k: nat)
    requires k < |xs| && xs[k] == y
    requires forall m :: 0 <= m < k ==> xs[m] != y
    ensures FirstIndex(xs, y) == k
  {
  }

  /** Appending to a list does not move the first occurrence of a value already in it. */
  lemma FirstIndexInPrefix<T(!new)>(xs: seq<T>, x: T)
    ensures forall y :: y in xs ==> FirstIndex(xs + [x], y) == FirstIndex(xs, y)
  {
    forall y | y in xs ensures FirstIndex(xs + [x], y) == FirstIndex(xs, y) {
      var k := FirstIndex(xs, y);
      var ys := xs + [x];
      assert forall m :: 0 <= m < k ==> ys[m] == xs[m];
      FirstIndexUnique(ys, y, k);
    }
  }

  /** A `Set` lists its values in the order of their first occurrence in the
      array it was built from. With `Distinct`'s own contract, this pins the
      result down completely. */
  lemma {:induction false} DistinctKeepsFirstOrder<T(!new)>(xs: seq<T>)
    ensures forall i, j :: 0 <= i < j < |Distinct(xs)| ==>
      FirstIndex(xs, Distinct(xs)[i]) < FirstIndex(xs, Distinct(xs)[j])
  {
    if xs != [] {
      var init := xs[..|xs| - 1];
      var x := xs[|xs| - 1];
      assert xs == init + [x];
      DistinctKeepsFirstOrder(init);
      FirstIndexInPrefix(init, x);
      var d0 := Distinct(init);
      var d := Distinct(xs);
      assert forall i :: 0 <= i < |d0| ==> d0[i] in init;
      if x in d0 {
        assert d == d0;
        forall i, j | 0 <= i < j < |d| ensures FirstIndex(xs, d[i]) < FirstIndex(xs, d[j]) {
          assert FirstIndex(init, d0[i]) < FirstIndex(init, d0[j]);
        }
      } else {
        assert d == d0 + [x];
        assert FirstIndex(xs, x) == |xs| - 1 by {
          assert x !in init;
        }
        forall i, j | 0 <= i < j < |d| ensures FirstIndex(xs, d[i]) < FirstIndex(xs, d[j]) {
          assert d[i] == d0[i];
          if j < |d0| {
            assert d[j] == d0[j];
            assert FirstIndex(init, d0[i]) < FirstIndex(init, d0[j]);
          }
        }
      }
    }
  }

  /** `xs` with every occurrence of `x` taken out, the rest in order. */
  function Without<T(==,!new)>(xs: seq<T>, x: T): (r: seq<T>)
    ensures forall y :: y in r <==> y in xs && y != x
    ensures |r| <= |xs|
    ensures x !in xs ==> r == xs
  {
    if xs == [] then []
    else if xs[0] == x then Without(xs[1..], x)
    else [xs[0]] + Without(xs[1..], x)
  }

  lemma {:induction false} WithoutKeepsDistinct<T(!new)>(xs: seq<T>, x: T)
    requires NoDuplicates(xs)
    ensures NoDuplicates(Without(xs, x))
  {
    if xs != [] {
      assert NoDuplicates(xs[1..]) by {
        forall i, j | 0 <= i < j < |xs[1..]| ensures xs[1..][i] != xs[1..][j] {
          assert xs[1..][i] == xs[i + 1] && xs[1..][j] == xs[j + 1];
        }
      }
      WithoutKeepsDistinct(xs[1..], x);
      if xs[0] != x {
        assert xs[0] !in xs[1..];
        assert xs[0] !in Without(xs[1..], x);
      }
    }
  }

  /** Removing the element at index `k` of a list without duplicates is removing that value. */
  lemma {:induction false} SpliceIsWithout<T(!new)>(xs: seq<T>, k: nat)
    requires NoDuplicates(xs) && k < |xs|
    ensures xs[..k] + xs[k + 1..] == Without(xs, xs[k])
  {
    if k == 0 {
      assert xs[0] !in xs[1..];
      assert xs[..0] + xs[1..] == xs[1..];
    } else {
      assert NoDuplicates(xs[1..]) by {
        forall i, j | 0 <= i < j < |xs[1..]| ensures xs[1..][i] != xs[1..][j] {
          assert xs[1..][i] == xs[i + 1] && xs[1..][j] == xs[j + 1];
        }
      }
      SpliceIsWithout(xs[1..], k - 1);
      assert xs[1..][k - 1] == xs[k];
      assert xs[..k] + xs[k + 1..] == [xs[0]] + (xs[1..][..k - 1] + xs[1..][k..]);
    }
  }

  /** A JavaScript `Set`: distinct values in insertion order. */
  class JsSet<T(==,!new)> {
    var items: seq<T>

    ghost predicate Valid()
      reads this
    {
      NoDuplicates(items)
    }

    constructor ()
      ensures Valid() && items == []
    {
      items := [];
    }

    /** `set.add(x)`: appends `x` unless it is already there. */
    method Add(x: T)
      requires Valid()
      modifies this
      ensures Valid()
      ensures items == if x in old(items) then old(items) else old(items) + [x]
    {
      if x !in items {
        items := items + [x];
      }
    }

    /** `set.delete(x)`: removes `x` if it is there, keeping the order of the rest. */
    method Delete(x: T)
      requires Valid()
      modifies this
      ensures Valid()
      ensures items == Without(old(items), x)
    {
      var k := 0;
      while k < |items| && items[k] != x
        invariant 0 <= k <= |items|
        invariant x !in items[..k]
      {
        k := k + 1;
      }
      if k < |items| {
        SpliceIsWithout(items, k);
        WithoutKeepsDistinct(items, x);
        items := items[..k] + items[k + 1..];
      } else {
        assert items[..k] == items;
      }
    }

    /** `Array.from(set)`. */
    function ToArray(): seq<T>
      reads this
    {
      items
    }
  }

  /** `field.value || []`: an unset checkbox group counts as no selection. */
  function Selected<T>(current: Option<seq<T>>): seq<T> {
    if current.Some? then current.value else []
  }

  /** The selection after clicking the checkbox for `x` to state `checked`. */
  function Toggled<T(==,!new)>(current: Option<seq<T>>, x: T, checked: bool): seq<T> {
    var d := Distinct(Selected(current));
    if checked then (if x in d then d else d + [x]) else Without(d, x)
  }

  /** The click handler: rebuild the set from the current array, add or delete
      the clicked value, and turn the set back into an array. */
  method Toggle<T(==,!new)>(current: Option<seq<T>>, x: T, checked: bool) returns (r: seq<T>)
    ensures r == Toggled(current, x, checked)
    ensures NoDuplicates(r)
    ensures forall y :: y in r <==> if y == x then checked else y in Selected(current)
  {
    var base := if current.Some? then current.value else [];
    var s := new JsSet<T>();
    var i := 0;
    while i < |base|
      invariant 0 <= i <= |base|
      invariant s.Valid() && s.items == Distinct(base[..i])
    {
      assert base[..i + 1][..i] == base[..i];
      s.Add(base[i]);
      i := i + 1;
    }
    assert base[..|base|] == base;
    if checked {
      s.Add(x);
    } else {
      s.Delete(x);
      WithoutKeepsDistinct(Distinct(base), x);
    }
    r := s.ToArray();
  }

  /** An array without duplicates, as every array these handlers produce is,
      passes through a `Set` unchanged. */
  lemma {:induction false} DistinctOfDistinct<T(!new)>(xs: seq<T>)
    requires NoDuplicates(xs)
    ensures Distinct(xs) == xs
  {
    if xs != [] {
      var init := xs[..|xs| - 1];
      assert NoDuplicates(init);
      DistinctOfDistinct(init);
      assert xs[|xs| - 1] !in init;
      assert init + [xs[|xs| - 1]] == xs;
    }
  }

  /** On a selection the handlers produced, checking appends the value at the
      end if it was not selected, and unchecking removes exactly that value. */
  lemma ToggleOnSelection<T(!new)>(xs: seq<T>, x: T)
    requires NoDuplicates(xs)
    ensures Toggled(Some(xs), x, true) == if x in xs then xs else xs + [x]
    ensures Toggled(Some(xs), x, false) == Without(xs, x)
  {
    DistinctOfDistinct(xs);
  }

  /** Checking a box and unchecking it again restores the selection. */
  lemma CheckThenUncheck<T(!new)>(xs: seq<T>, x: T)
    requires NoDuplicates(xs) && x !in xs
    ensures Toggled(Some(Toggled(Some(xs), x, true)), x, false) == xs
  {
    ToggleOnSelection(xs, x);
    var ys := xs + [x];
    assert NoDuplicates(ys);
    ToggleOnSelection(ys, x);
    SpliceIsWithout(ys, |xs|);
    assert ys[..|xs|] + ys[|xs| + 1..] == xs;
  }

  /** Checking a box that is already checked changes nothing. */
  lemma CheckIsIdempotent<T(!new)>(current: Option<seq<T>>, x: T)
    ensures Toggled(Some(Toggled(current, x, true)), x, true) == Toggled(current, x, true)
  {
    var d := Distinct(Selected(current));
    var once := Toggled(current, x, true);
    assert NoDuplicates(once) by {
      if x !in d {
        assert forall i :: 0 <= i < |d| ==> (d + [x])[i] == d[i];
      }
    }
    ToggleOnSelection(once, x);
  }
}
