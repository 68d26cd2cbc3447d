/** Python's list operations that the script relies on. */
module Lists {

  /** `xs.index(x) if x in xs else -1`: the position of the first occurrence of x, or -1. */
  function IndexOf<T(==)>(xs: seq<T>, x: T): (r: int)
    ensures -1 <= r < |xs|
    ensures r == -1 <==> x !in xs
    ensures 0 <= r ==> xs[r] == x
    ensures 0 <= r ==> forall j :: 0 <= j < r ==> xs[j] != x
  {
    if |xs| == 0 then -1
    else if xs[0] == x then 0
    else
      var k := IndexOf(xs[1..], x);
      if k == -1 then -1 else k + 1
  }

  /** No value occurs twice. */
  predicate Distinct<T(==)>(xs: seq<T>) {
    forall i, j :: 0 <= i < j < |xs| ==> xs[i] != xs[j]
  }

  /** In a list without repetitions, the index of the element at position i is i. */
  lemma IndexOfDistinct<T>(xs: seq<T>, i: nat)
    requires Distinct(xs)
    requires i < |xs|
    ensures IndexOf(xs, xs[i]) == i
  {
  }

  /** The number of occurrences of x in xs. */
  function Count<T(==)>(xs: seq<T>, x: T): (n: nat)
    ensures n == 0 <==> x !in xs
  {
    if |xs| == 0 then 0 else (if xs[0] == x then 1 else 0) + Count(xs[1..], x)
  }

  /** A value that occurs exactly once occurs only at its index. */
  lemma {:induction false} CountOnce<T>(xs: seq<T>, x: T, j: nat)
    requires Count(xs, x) == 1
    requires j < |xs| && xs[j] == x
    ensures j == IndexOf(xs, x)
  {
    if xs[0] != x {
      CountOnce(xs[1..], x, j - 1);
    }
  }

  /** Every element increased by one. */
  function Succ(ps: seq<nat>): (r: seq<nat>)
    ensures |r| == |ps| && forall i :: 0 <= i < |ps| ==> r[i] == ps[i] + 1
  {
    seq(|ps|, i requires 0 <= i < |ps| => ps[i] + 1)
  }

  /** The positions at which a boolean mask is true, in increasing order. */
  function Positions(mask: seq<bool>): (ps: seq<nat>)
    ensures forall i :: 0 <= i < |ps| ==> ps[i] < |mask| && mask[ps[i]]
    ensures forall i, j :: 0 <= i < j < |ps| ==> ps[i] < ps[j]
  {
    if |mask| == 0 then []
    else (if mask[0] then [0] else []) + Succ(Positions(mask[1..]))
  }

  /** Every true position of the mask is listed. */
  lemma {:induction false} PositionsComplete(mask: seq<bool>, k: nat) returns (i: nat)
    requires k < |mask| && mask[k]
    ensures i < |Positions(mask)| && Positions(mask)[i] == k
  {
    var rest := Positions(mask[1..]);
    var head: seq<nat> := if mask[0] then [0] else [];
    assert Positions(mask) == head + Succ(rest);
    if k == 0 {
      i := 0;
    } else {
      assert mask[1..][k - 1];
      var j := PositionsComplete(mask[1..], k - 1);
      assert Succ(rest)[j] == k;
      i := |head| + j;
    }
  }

  /** `xs[mask]`: the elements at which the mask is true, in their original order. */
  function Select<T>(xs: seq<T>, mask: seq<bool>): (r: seq<T>)
    requires |mask| == |xs|
    ensures |r| == |Positions(mask)|
    ensures forall i :: 0 <= i < |r| ==> r[i] == xs[Positions(mask)[i]]
  {
    var ps := Positions(mask);
    seq(|ps|, i requires 0 <= i < |ps| => xs[ps[i]])
  }

  /** A mask that is everywhere false selects nothing. */
  lemma {:induction false} PositionsNone(mask: seq<bool>)
    requires forall k :: 0 <= k < |mask| ==> !mask[k]
    ensures Positions(mask) == []
  {
    if |mask| > 0 {
      PositionsNone(mask[1..]);
    }
  }

  /** A mask that is true exactly on a prefix of length n selects the positions 0 .. n-1. */
  lemma {:induction false} PositionsOfPrefix(mask: seq<bool>, n: nat)
    requires n <= |mask|
    requires forall k :: 0 <= k < |mask| ==> mask[k] == (k < n)
    ensures Positions(mask) == seq(n, i => i)
  {
    if |mask| == 0 {
    } else if n == 0 {
      PositionsNone(mask);
    } else {
      PositionsOfPrefix(mask[1..], n - 1);
      assert Positions(mask) == [0] + Succ(seq(n - 1, i => i));
    }
  }

  /** A mask that is true exactly on a prefix of length n selects that prefix. */
  lemma SelectPrefix<T>(xs: seq<T>, mask: seq<bool>, n: nat)
    requires |mask| == |xs| && n <= |mask|
    requires forall k :: 0 <= k < |mask| ==> mask[k] == (k < n)
    ensures Select(xs, mask) == xs[..n]
  {
    PositionsOfPrefix(mask, n);
  }

  predicate Increasing(ps: seq<nat>) {
    forall i, j :: 0 <= i < j < |ps| ==> ps[i] < ps[j]
  }

  lemma IncreasingAt(ps: seq<nat>, i: nat, j: nat)
    requires Increasing(ps) && i < |ps| && j < |ps|
    ensures i < j <==> ps[i] < ps[j]
  {
    if j < i {
      assert ps[j] < ps[i];
    }
  }

  /** In an increasing sequence, a listed value beyond the k-th is at or beyond the (k+1)-th. */
  lemma IncreasingGap(ps: seq<nat>, k: nat, j: nat)
    requires Increasing(ps) && k < |ps| && j < |ps| && ps[k] < ps[j]
    ensures k + 1 < |ps| && ps[k + 1] <= ps[j]
  {
    IncreasingAt(ps, k, j);
    if k + 1 < j {
      IncreasingAt(ps, k + 1, j);
    }
  }

  /** A true position after the k-th listed one is at or beyond the (k+1)-th. */
  lemma PositionsGap(mask: seq<bool>, k: nat, q: nat)
    requires k < |Positions(mask)|
    requires Positions(mask)[k] < q < |mask| && mask[q]
    ensures k + 1 < |Positions(mask)| && Positions(mask)[k + 1] <= q
  {
    var ps := Positions(mask);
    var j := PositionsComplete(mask, q);
    assert Increasing(ps);
    IncreasingGap(ps, k, j);
  }
}
