/** How many elements of a sequence satisfy a predicate. */
module Counting {

  function Count<T>(xs: seq<T>, p: T -> bool): (n: nat)
    ensures n <= |xs|
  {
    if xs == [] then 0 else Count(xs[..|xs| - 1], p) + if p(xs[|xs| - 1]) then 1 else 0
  }

  lemma {:induction false} CountUpdate<T>(xs: seq<T>, i: nat, x: T, p: T -> bool)
    requires i < |xs|
    ensures Count(xs[i := x], p) == Count(xs, p) - (if p(xs[i]) then 1 else 0) + (if p(x) then 1 else 0)
  {
    var last := |xs| - 1;
    if i < last {
      assert xs[i := x][..last] == xs[..last][i := x];
      CountUpdate(xs[..last], i, x, p);
    } else {
      assert xs[i := x][..last] == xs[..last];
    }
  }

  /** A count below the length leaves some element out; a count above zero takes one in. */
  lemma {:induction false} CountWitness<T>(xs: seq<T>, p: T -> bool)
    ensures Count(xs, p) < |xs| <==> exists i :: 0 <= i < |xs| && !p(xs[i])
    ensures Count(xs, p) > 0 <==> exists i :: 0 <= i < |xs| && p(xs[i])
  {
    if xs != [] {
      var front := xs[..|xs| - 1];
      CountWitness(front, p);
      assert forall i | 0 <= i < |front| :: front[i] == xs[i];
      assert xs[|xs| - 1] == xs[|front|];
    }
  }

  lemma {:induction false} CountNone<T>(xs: seq<T>, p: T -> bool)
    requires forall i | 0 <= i < |xs| :: !p(xs[i])
    ensures Count(xs, p) == 0
  {
    if xs != [] { CountNone(xs[..|xs| - 1], p); }
  }

  lemma {:induction false} CountImplies<T>(xs: seq<T>, p: T -> bool, q: T -> bool)
    requires forall x :: p(x) ==> q(x)
    ensures Count(xs, p) <= Count(xs, q)
  {
    if xs != [] { CountImplies(xs[..|xs| - 1], p, q); }
  }
}
