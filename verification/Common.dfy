/** Small notions that several modules share. */
module Common {
  datatype Option<T> = None | Some(value: T)

  ghost predicate Distinct<T>(xs: seq<T>) {
    forall i, j :: 0 <= i < j < |xs| ==> xs[i] != xs[j]
  }

  /** The other members, in the same order. */
  function Without<T(==)>(xs: seq<T>, x: T): seq<T> {
    if xs == [] then [] else if xs[0] == x then Without(xs[1..], x) else [xs[0]] + Without(xs[1..], x)
  }

  lemma {:induction false} WithoutMembers<T(!new)>(xs: seq<T>, x: T)
    ensures forall y :: y in Without(xs, x) <==> y in xs && y != x
    ensures Distinct(xs) ==> Distinct(Without(xs, x))
  {
    if xs != [] {
      WithoutMembers(xs[1..], x);
      assert xs == [xs[0]] + xs[1..];
      if Distinct(xs) { assert xs[0] !in xs[1..]; }
    }
  }

  /** Subtraction that stops at zero. */
  function Less(m: nat, n: nat): nat {
    if m >= n then m - n else 0
  }

  /** At most the first n members. */
  function Cut<T>(xs: seq<T>, n: nat): (r: seq<T>)
    ensures |r| <= n && r <= xs
  {
    if |xs| <= n then xs else xs[..n]
  }
}
