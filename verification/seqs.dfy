/** Keeping the elements of a sequence that a sequence of flags selects. */
module Seqs {

  /** The positions whose flag is set, in order. */
  function Positions(flags: seq<bool>): (r: seq<nat>)
    ensures forall k :: 0 <= k < |r| ==> r[k] < |flags| && flags[r[k]]
    ensures forall k, l :: 0 <= k < l < |r| ==> r[k] < r[l]
    ensures forall i :: 0 <= i < |flags| && flags[i] ==> i in r
  {
    if |flags| == 0 then []
    else
      var front := flags[..|flags| - 1];
      assert forall i :: 0 <= i < |front| ==> front[i] == flags[i];
      Positions(front) + (if flags[|flags| - 1] then [|flags| - 1] else [])
  }

  /** One more flag adds its position exactly when it is set. */
  lemma PositionsSnoc(flags: seq<bool>, b: bool)
    ensures Positions(flags + [b]) == Positions(flags) + (if b then [|flags|] else [])
  {
    assert (flags + [b])[..|flags|] == flags;
  }

  /** The elements whose flag is set, in order. */
  function Kept<T>(xs: seq<T>, flags: seq<bool>): (r: seq<T>)
    requires |flags| == |xs|
    ensures |r| <= |xs|
  {
    if |xs| == 0 then []
    else
      var n := |xs| - 1;
      Kept(xs[..n], flags[..n]) + (if flags[n] then [xs[n]] else [])
  }

  /** The kept elements are those at the flagged positions, in order. */
  lemma {:induction false} KeptAt<T>(xs: seq<T>, flags: seq<bool>)
    requires |flags| == |xs|
    ensures |Kept(xs, flags)| == |Positions(flags)|
    ensures forall k :: 0 <= k < |Kept(xs, flags)| ==> Kept(xs, flags)[k] == xs[Positions(flags)[k]]
  {
    if |xs| > 0 {
      var n := |xs| - 1;
      KeptAt(xs[..n], flags[..n]);
      var front := flags[..n];
      assert forall i :: 0 <= i < |front| ==> front[i] == flags[i];
      assert Positions(flags) == Positions(front) + (if flags[n] then [n] else []);
    }
  }

  /** When the copies of `x` are all kept or all dropped, the kept elements
      hold all of them or none. */
  lemma {:induction false} KeptCount<T>(xs: seq<T>, flags: seq<bool>, x: T, keep: bool)
    requires |flags| == |xs|
    requires forall i :: 0 <= i < |xs| && xs[i] == x ==> flags[i] == keep
    ensures multiset(Kept(xs, flags))[x] == if keep then multiset(xs)[x] else 0
  {
    if |xs| > 0 {
      var n := |xs| - 1;
      var front, ff := xs[..n], flags[..n];
      assert forall i :: 0 <= i < n ==> front[i] == xs[i] && ff[i] == flags[i];
      KeptCount(front, ff, x, keep);
      assert xs == front + [xs[n]];
      CountSnoc(front, xs[n], x);
      if flags[n] {
        assert Kept(xs, flags) == Kept(front, ff) + [xs[n]];
        CountSnoc(Kept(front, ff), xs[n], x);
      } else {
        assert Kept(xs, flags) == Kept(front, ff);
      }
    }
  }

  /** One more element adds one copy of itself. */
  lemma CountSnoc<T>(xs: seq<T>, y: T, x: T)
    ensures multiset(xs + [y])[x] == multiset(xs)[x] + (if y == x then 1 else 0)
  {
    assert multiset(xs + [y]) == multiset(xs) + multiset{y};
  }
}
