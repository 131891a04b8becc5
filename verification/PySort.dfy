/** Python's order on strings, and `sorted()` on a set of them. */
module PySort {

  /** `a <= b` by code points. */
  predicate Leq(a: string, b: string) {
    a == "" || (b != "" && (a[0] < b[0] || (a[0] == b[0] && Leq(a[1..], b[1..]))))
  }

  lemma {:induction false} LeqTotal(a: string, b: string)
    ensures Leq(a, b) || Leq(b, a)
    ensures Leq(a, b) && Leq(b, a) ==> a == b
  {
    if a != "" && b != "" && a[0] == b[0] {
      LeqTotal(a[1..], b[1..]);
      assert a == [a[0]] + a[1..] && b == [b[0]] + b[1..];
    }
  }

  lemma {:induction false} LeqTransitive(a: string, b: string, c: string)
    requires Leq(a, b) && Leq(b, c)
    ensures Leq(a, c)
  {
    if a != "" && a[0] == b[0] == c[0] {
      LeqTransitive(a[1..], b[1..], c[1..]);
    }
  }

  /** In strictly increasing order. */
  predicate IsSorted(xs: seq<string>) {
    forall i, j | 0 <= i < j < |xs| :: Leq(xs[i], xs[j]) && xs[i] != xs[j]
  }

  function Elements(xs: seq<string>): set<string> {
    set x <- xs
  }

  /** `sorted()` of a set. */
  method Sort(s: set<string>) returns (xs: seq<string>)
    ensures IsSorted(xs) && Elements(xs) == s
  {
    xs := [];
    var rest := s;
    while rest != {}
      invariant rest <= s && IsSorted(xs) && Elements(xs) == s - rest
      decreases rest
    {
      var x :| x in rest;
      xs := InsertSorted(xs, x);
      rest := rest - {x};
    }
  }

  method InsertSorted(xs: seq<string>, x: string) returns (ys: seq<string>)
    requires IsSorted(xs) && x !in xs
    ensures IsSorted(ys) && Elements(ys) == Elements(xs) + {x}
  {
    var i := 0;
    while i < |xs| && Leq(xs[i], x)
      invariant 0 <= i <= |xs| && forall j | 0 <= j < i :: Leq(xs[j], x)
    {
      i := i + 1;
    }
    ys := xs[..i] + [x] + xs[i..];
    InsertedIsSorted(xs, i, x);
    assert xs == xs[..i] + xs[i..];
  }

  lemma InsertedIsSorted(xs: seq<string>, i: nat, x: string)
    requires IsSorted(xs) && x !in xs && i <= |xs|
    requires forall j | 0 <= j < i :: Leq(xs[j], x)
    requires i < |xs| ==> !Leq(xs[i], x)
    ensures IsSorted(xs[..i] + [x] + xs[i..])
  {
    var ys := xs[..i] + [x] + xs[i..];
    forall j | i <= j < |xs| ensures Leq(x, xs[j]) {
      LeqTotal(x, xs[i]);
      if j > i {
        LeqTransitive(x, xs[i], xs[j]);
      }
    }
    hide Leq;
    assert forall j | 0 <= j < |xs| :: xs[j] in xs;
    forall j, k | 0 <= j < k < |ys| ensures Leq(ys[j], ys[k]) && ys[j] != ys[k] {
      assert ys[j] == if j < i then xs[j] else if j == i then x else xs[j - 1];
      assert ys[k] == if k < i then xs[k] else if k == i then x else xs[k - 1];
    }
  }

  /** There is only one way to sort a set. */
  lemma {:induction false} SortIsUnique(xs: seq<string>, ys: seq<string>)
    requires IsSorted(xs) && IsSorted(ys) && Elements(xs) == Elements(ys)
    ensures xs == ys
  {
    NoElements(xs);
    NoElements(ys);
    if xs != [] {
      assert xs[0] in Elements(xs);
      assert ys != [] && ys[0] in Elements(ys);
      var i :| 0 <= i < |ys| && ys[i] == xs[0];
      var j :| 0 <= j < |xs| && xs[j] == ys[0];
      LeqTotal(xs[0], ys[0]);
      TailElements(xs);
      TailElements(ys);
      SortIsUnique(xs[1..], ys[1..]);
      assert xs == [xs[0]] + xs[1..] && ys == [ys[0]] + ys[1..];
    }
  }

  lemma NoElements(xs: seq<string>)
    ensures xs == [] <==> Elements(xs) == {}
  {
    assert xs != [] ==> xs[0] in Elements(xs);
  }

  lemma TailElements(xs: seq<string>)
    requires IsSorted(xs) && xs != []
    ensures Elements(xs[1..]) == Elements(xs) - {xs[0]} && IsSorted(xs[1..])
  {
    assert xs == [xs[0]] + xs[1..];
    assert forall i | 0 <= i < |xs| - 1 :: xs[1..][i] == xs[i + 1];
  }
}
