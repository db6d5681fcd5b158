/** Comparisons as Python writes them: three-way, combined with `or`, and used by max and min. */
module Orders {
  import opened Texts

  type Comparison<!T> = (T, T) -> int

  /** Three results that a total preorder allows for x with y, y with z, and x with z. */
  ghost predicate Ordered(xy: int, yz: int, xz: int) {
    xy <= 0 && yz <= 0 ==> xz <= 0 && (xz == 0 <==> xy == 0 && yz == 0)
  }

  /** A comparison that orders all values of a type, up to ties. */
  ghost predicate TotalPreorder<T(!new)>(cmp: Comparison<T>) {
    && (forall a, b :: cmp(a, b) == -cmp(b, a))
    && (forall a, b, c :: Ordered(cmp(a, b), cmp(b, c), cmp(a, c)))
  }

  /** `f or g`: the second comparison decides the ties of the first. */
  function Or<T>(f: Comparison<T>, g: Comparison<T>): Comparison<T> {
    (a, b) => if f(a, b) != 0 then f(a, b) else g(a, b)
  }

  /** Total preorders combine into one. */
  lemma OrIsPreorder<T(!new)>(f: Comparison<T>, g: Comparison<T>)
    requires TotalPreorder(f) && TotalPreorder(g)
    ensures TotalPreorder(Or(f, g))
  {
    var cmp := Or(f, g);
    forall a, b ensures cmp(a, b) == -cmp(b, a) {
      assert f(a, b) == -f(b, a) && g(a, b) == -g(b, a);
    }
    forall a, b, c ensures Ordered(cmp(a, b), cmp(b, c), cmp(a, c)) {
      assert Ordered(f(a, b), f(b, c), f(a, c)) && Ordered(g(a, b), g(b, c), g(a, c));
    }
  }

  function ByNumber<T>(key: T -> int): Comparison<T> {
    (a, b) => Sign(key(a), key(b))
  }

  function ByText<T>(key: T -> string): Comparison<T> {
    (a, b) => StrCmp(key(a), key(b))
  }

  function Reversed<T>(cmp: Comparison<T>): Comparison<T> {
    (a, b) => cmp(b, a)
  }

  lemma NumberIsPreorder<T(!new)>(key: T -> int)
    ensures TotalPreorder(ByNumber(key))
  {
  }

  lemma TextIsPreorder<T(!new)>(key: T -> string)
    ensures TotalPreorder(ByText(key))
  {
    forall a, b, c
      ensures ByText(key)(a, b) == -ByText(key)(b, a)
      ensures Ordered(ByText(key)(a, b), ByText(key)(b, c), ByText(key)(a, c))
    {
      TextOrder(key(a), key(b), key(c));
    }
  }

  lemma ReversedIsPreorder<T(!new)>(cmp: Comparison<T>)
    requires TotalPreorder(cmp)
    ensures TotalPreorder(Reversed(cmp))
  {
    forall a, b, c ensures Ordered(cmp(b, a), cmp(c, b), cmp(c, a)) {
      assert Ordered(cmp(c, b), cmp(b, a), cmp(c, a));
    }
  }

  /** max with a comparison as its key: the first of the greatest. */
  function Best<T>(cmp: Comparison<T>, xs: seq<T>): (r: T)
    requires xs != []
    ensures exists i :: 0 <= i < |xs| && r == xs[i]
  {
    var n := |xs| - 1;
    if n == 0 then xs[0] else
      var r := Best(cmp, xs[..n]);
      if cmp(xs[n], r) > 0 then xs[n] else r
  }

  /** Over a total preorder, it really is a maximum. */
  lemma {:induction false} BestIsGreatest<T(!new)>(cmp: Comparison<T>, xs: seq<T>, i: nat)
    requires i < |xs| && TotalPreorder(cmp)
    ensures cmp(xs[i], Best(cmp, xs)) <= 0
  {
    var n, best := |xs| - 1, Best(cmp, xs);
    assert cmp(best, best) == -cmp(best, best);
    if n > 0 {
      var r := Best(cmp, xs[..n]);
      var j := if i < n then i else 0;
      BestIsGreatest(cmp, xs[..n], j);
      assert Ordered(cmp(xs[j], r), cmp(r, xs[n]), cmp(xs[j], xs[n]));
      assert cmp(xs[n], r) == -cmp(r, xs[n]);
    }
  }

  lemma BestIsAboveAll<T(!new)>(cmp: Comparison<T>, xs: seq<T>)
    requires xs != [] && TotalPreorder(cmp)
    ensures Best(cmp, xs) in xs && forall x :: x in xs ==> cmp(x, Best(cmp, xs)) <= 0
  {
    forall x | x in xs ensures cmp(x, Best(cmp, xs)) <= 0 {
      var i :| 0 <= i < |xs| && xs[i] == x;
      BestIsGreatest(cmp, xs, i);
    }
  }
}
