/**
 * An insertion-ordered set of distinct elements (`java.util.LinkedHashSet`):
 * `add` appends an element that is not already present; `addAll` adds the
 * elements of another sequence one by one, in its order.
 */
module LinkedSet {

  /** No element occurs twice. */
  ghost predicate Unique<T>(xs: seq<T>)
  {
    forall i, j :: 0 <= i < j < |xs| ==> xs[i] != xs[j]
  }

  function Add<T(==)>(xs: seq<T>, x: T): (r: seq<T>)
    ensures x in r && xs <= r
    ensures x in xs ==> r == xs
    ensures x !in xs ==> r == xs + [x]
  {
    if x in xs then xs else xs + [x]
  }

  function AddAll<T(==)>(xs: seq<T>, ys: seq<T>): seq<T>
    decreases |ys|
  {
    if ys == [] then xs else AddAll(Add(xs, ys[0]), ys[1..])
  }

  /** The existing elements keep their positions. */
  lemma {:induction false} AddAllExtends<T>(xs: seq<T>, ys: seq<T>)
    ensures xs <= AddAll(xs, ys)
    decreases |ys|
  {
    if ys != [] {
      AddAllExtends(Add(xs, ys[0]), ys[1..]);
    }
  }

  /** The result holds the elements of both sequences and nothing else. */
  lemma {:induction false} AddAllMembers<T>(xs: seq<T>, ys: seq<T>)
    ensures forall x :: x in AddAll(xs, ys) <==> x in xs || x in ys
    decreases |ys|
  {
    if ys != [] {
      AddAllMembers(Add(xs, ys[0]), ys[1..]);
      assert ys == [ys[0]] + ys[1..];
    }
  }

  /** Adding one element keeps the elements distinct. */
  lemma AddUnique<T>(xs: seq<T>, x: T)
    requires Unique(xs)
    ensures Unique(Add(xs, x))
  {
    var a := Add(xs, x);
    if x !in xs {
      forall i, j | 0 <= i < j < |a|
        ensures a[i] != a[j]
      {
        if j == |xs| {
          assert a[i] == xs[i];
        }
      }
    }
  }

  /** Adding keeps the elements distinct. */
  lemma {:induction false} AddAllUnique<T>(xs: seq<T>, ys: seq<T>)
    requires Unique(xs)
    ensures Unique(AddAll(xs, ys))
    decreases |ys|
  {
    if ys != [] {
      AddUnique(xs, ys[0]);
      AddAllUnique(Add(xs, ys[0]), ys[1..]);
    }
  }

  /** A concatenation of distinct elements splits into two distinct, disjoint parts. */
  lemma UniqueSplit<T>(xs: seq<T>, ys: seq<T>)
    requires Unique(xs + ys)
    ensures Unique(xs) && Unique(ys) && forall y :: y in ys ==> y !in xs
  {
    var zs := xs + ys;
    forall i, j | 0 <= i < j < |xs| ensures xs[i] != xs[j] {
      assert xs[i] == zs[i] && xs[j] == zs[j];
    }
    forall i, j | 0 <= i < j < |ys| ensures ys[i] != ys[j] {
      assert ys[i] == zs[|xs| + i] && ys[j] == zs[|xs| + j];
    }
    forall y | y in ys ensures y !in xs {
      var j :| 0 <= j < |ys| && ys[j] == y;
      forall i | 0 <= i < |xs| ensures xs[i] != y {
        assert zs[i] == xs[i] && zs[|xs| + j] == y;
      }
    }
  }

  /** Elements that are all new and distinct are appended as they are, in order. */
  lemma {:induction false} AddAllFresh<T>(xs: seq<T>, ys: seq<T>)
    requires Unique(ys) && forall y :: y in ys ==> y !in xs
    ensures AddAll(xs, ys) == xs + ys
    decreases |ys|
  {
    if ys != [] {
      assert ys[0] !in xs;
      var rest := ys[1..];
      assert forall y :: y in rest ==> y !in xs + [ys[0]] by {
        forall y | y in rest
          ensures y !in xs + [ys[0]]
        {
          var k :| 0 <= k < |rest| && rest[k] == y;
          assert ys[k + 1] == y;
        }
      }
      assert Unique(rest) by {
        forall i, j | 0 <= i < j < |rest|
          ensures rest[i] != rest[j]
        {
          assert rest[i] == ys[i + 1] && rest[j] == ys[j + 1];
        }
      }
      AddAllFresh(xs + [ys[0]], rest);
      assert xs + [ys[0]] + rest == xs + ys;
    }
  }

  /** Adding the same elements again changes nothing. */
  lemma {:induction false} AddAllIdempotent<T>(xs: seq<T>, ys: seq<T>)
    ensures AddAll(AddAll(xs, ys), ys) == AddAll(xs, ys)
  {
    AddAllMembers(xs, ys);
    AddAllPresent(AddAll(xs, ys), ys);
  }

  lemma {:induction false} AddAllPresent<T>(xs: seq<T>, ys: seq<T>)
    requires forall y :: y in ys ==> y in xs
    ensures AddAll(xs, ys) == xs
    decreases |ys|
  {
    if ys != [] {
      AddAllPresent(xs, ys[1..]);
    }
  }
}
