/** Sequence helpers shared by the managers. */
module Lists {
  import opened Wrappers

  /** No element occurs twice. */
  predicate Distinct<T(==)>(s: seq<T>) {
    forall i, j :: 0 <= i < j < |s| ==> s[i] != s[j]
  }

  /** `x` occurs as a present entry of `xs`, looking from the end. This is `Some(x) in xs` (see
      `ListedIsMember`), written recursively so that proofs over growing prefixes unfold it one entry at a
      time instead of reasoning about membership in a slice. */
  predicate Listed<T(==)>(xs: seq<Option<T>>, x: T) {
    |xs| > 0 && (xs[|xs| - 1] == Some(x) || Listed(xs[..|xs| - 1], x))
  }

  /** `Listed` is membership of the present entry. */
  lemma {:induction false} ListedIsMember<T>(xs: seq<Option<T>>, x: T)
    ensures Listed(xs, x) <==> Some(x) in xs
  {
    if xs != [] {
      ListedIsMember(xs[..|xs| - 1], x);
      assert xs == xs[..|xs| - 1] + [xs[|xs| - 1]];
    }
  }

  lemma ListedSnoc<T>(xs: seq<Option<T>>, i: nat, x: T)
    requires i < |xs|
    ensures Listed(xs[..i + 1], x) <==> Listed(xs[..i], x) || xs[i] == Some(x)
  {
    assert xs[..i + 1][..i] == xs[..i];
  }

  /** `xs.filter(i => i)`: the present entries of `xs`, in order and with their repetitions. */
  function Somes<T(!new)>(xs: seq<Option<T>>): (r: seq<T>)
    ensures |r| <= |xs|
    ensures forall x :: x in r <==> Listed(xs, x)
    ensures forall x :: multiset(r)[x] == multiset(xs)[Some(x)]
  {
    if xs == [] then []
    else
      var init := xs[..|xs| - 1];
      assert xs == init + [xs[|xs| - 1]];
      match xs[|xs| - 1]
      case None => Somes(init)
      case Some(x) => Somes(init) + [x]
  }

  /** Taking the present entries of a longer prefix adds at most its last entry. */
  lemma SomesSnoc<T(!new)>(xs: seq<Option<T>>, i: nat)
    requires i < |xs|
    ensures Somes(xs[..i + 1]) == Somes(xs[..i]) + (if xs[i].Some? then [xs[i].value] else [])
  {
    assert xs[..i + 1][..i] == xs[..i];
  }
}
