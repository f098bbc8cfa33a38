/** Small helpers shared by the models. */
module Common {

  datatype Option<+T> = None | Some(value: T)

  function Min(a: int, b: int): int {
    if a < b then a else b
  }

  function Max(a: int, b: int): int {
    if a < b then b else a
  }

  // ---------- sequences ----------

  ghost predicate Distinct<T>(xs: seq<T>) {
    forall i, j :: 0 <= i < j < |xs| ==> xs[i] != xs[j]
  }

  /** Without the first `x`, if there is one. */
  function Without<T(==)>(xs: seq<T>, x: T): seq<T> {
    if xs == [] then [] else if xs[0] == x then xs[1..] else [xs[0]] + Without(xs[1..], x)
  }

  function RemoveAt<T>(xs: seq<T>, k: nat): seq<T>
    requires k < |xs|
  {
    xs[..k] + xs[k + 1..]
  }

  lemma DistinctRest<T>(xs: seq<T>)
    requires xs != []
    ensures Distinct(xs) <==> Distinct(xs[1..]) && xs[0] !in xs[1..]
    ensures forall x :: x in xs <==> x == xs[0] || x in xs[1..]
  {
    var rest := xs[1..];
    assert xs == [xs[0]] + rest;
    if Distinct(xs) {
      forall j | 0 <= j < |rest| ensures rest[j] != xs[0] {
        assert rest[j] == xs[j + 1];
      }
      forall i, j | 0 <= i < j < |rest| ensures rest[i] != rest[j] {
        assert xs[i + 1] != xs[j + 1];
      }
    }
    if Distinct(rest) && xs[0] !in rest {
      forall i, j | 0 <= i < j < |xs| ensures xs[i] != xs[j] {
        assert xs[j] == rest[j - 1] && (i > 0 ==> xs[i] == rest[i - 1]);
      }
    }
  }

  lemma {:induction false} WithoutMembers<T>(xs: seq<T>, x: T)
    requires Distinct(xs)
    ensures forall y :: y in Without(xs, x) <==> y in xs && y != x
    ensures Distinct(Without(xs, x))
  {
    if xs != [] {
      DistinctRest(xs);
      WithoutMembers(xs[1..], x);
      if xs[0] != x {
        var kept := Without(xs, x);
        assert kept[1..] == Without(xs[1..], x);
        DistinctRest(kept);
      }
      hide Distinct;
    }
  }

  lemma {:induction false} WithoutIs<T>(xs: seq<T>, k: nat)
    requires Distinct(xs) && k < |xs|
    ensures Without(xs, xs[k]) == RemoveAt(xs, k)
  {
    if k > 0 {
      var rest := xs[1..];
      DistinctRest(xs);
      hide Distinct;
      assert rest[k - 1] == xs[k] && xs[k] in rest;
      WithoutIs(rest, k - 1);
      assert xs[..k] == [xs[0]] + rest[..k - 1] && xs[k + 1..] == rest[k..];
    } else {
      assert RemoveAt(xs, 0) == xs[1..];
    }
  }
}
