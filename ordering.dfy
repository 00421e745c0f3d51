/** The ordering engine on plain order values: the sibling rotation of
    `move_column` and what it does to a dense order assignment. A sequence of orders
    lists the siblings' `order` values, one per sibling. */
module Ordering {
  import opened Records

  /** Every value is in `0..n-1` and no value repeats: the orders of `n` siblings
      form a permutation of `0..n-1`. */
  ghost predicate IsPermutation(os: seq<int>) {
    && (forall i :: 0 <= i < |os| ==> 0 <= os[i] < |os|)
    && (forall i, j :: 0 <= i < j < |os| ==> os[i] != os[j])
  }

  /** The new order of a sibling (not the moved column) whose order is `o`, when
      the moved column goes from `current` to `target`; `None` when the sibling is
      not rewritten. */
  function Shifted(o: int, current: int, target: int): (r: Option<int>)
    ensures r.Some? <==> (current < target && current < o <= target) || (target <= current && target <= o < current)
    ensures r.Some? ==> (if current < target then r.value == o - 1 else r.value == o + 1)
  {
    if current < target then
      if current < o <= target then Some(o - 1) else None
    else
      if target <= o < current then Some(o + 1) else None
  }

  /** All siblings' orders after moving the sibling at position `p` to `target`. */
  function Rotate(os: seq<int>, p: nat, target: int): (r: seq<int>)
    requires p < |os|
    ensures |r| == |os| && r[p] == target
    ensures forall i :: 0 <= i < |os| && i != p ==> r[i] == Shifted(os[i], os[p], target).GetOr(os[i])
  {
    seq(|os|, i requires 0 <= i < |os| => if i == p then target else Shifted(os[i], os[p], target).GetOr(os[i]))
  }

  /** Moving a column to a position `0 <= target < n` keeps the orders a
      permutation of `0..n-1` (the move is a rotation of the range between the old
      and the new position). */
  lemma RotationKeepsPermutation(os: seq<int>, p: nat, target: int)
    requires p < |os| && IsPermutation(os)
    requires 0 <= target < |os|
    ensures IsPermutation(Rotate(os, p, target))
  {
    var r := Rotate(os, p, target);
    var c := os[p];
    forall i, j | 0 <= i < j < |os| ensures r[i] != r[j] {
      if i != p && j != p {
        assert os[i] != os[j];
      } else if i == p {
        assert os[j] != c;
      } else {
        assert os[i] != c;
      }
    }
  }

  /** Moving to the current position rewrites no order. */
  lemma RotationToSamePlace(os: seq<int>, p: nat)
    requires p < |os|
    ensures Rotate(os, p, os[p]) == os
  {
  }

  /** Moving a column from `a` to `b` and back from `b` to `a` restores every
      sibling's order, provided no sibling shares the moved column's order. */
  lemma RotationRoundTrip(os: seq<int>, p: nat, b: int)
    requires p < |os|
    requires forall i :: 0 <= i < |os| && i != p ==> os[i] != os[p]
    ensures Rotate(Rotate(os, p, b), p, os[p]) == os
  {
    var r := Rotate(os, p, b);
    var back := Rotate(r, p, os[p]);
    forall i | 0 <= i < |os| ensures back[i] == os[i] {
      if i != p {
        assert r[i] != b;
      }
    }
  }

  /** A permutation of `0..n-1` contains every value below `n` (pigeonhole). */
  lemma PermutationCovers(os: seq<int>, v: int)
    requires IsPermutation(os) && 0 <= v < |os|
    ensures v in os
  {
    var n := |os|;
    var ids := seq(n, w => w);
    var values := set i | 0 <= i < n :: os[i];
    var range := set i | 0 <= i < n :: ids[i];
    forall x | x in values ensures x in range {
      var i :| 0 <= i < n && os[i] == x;
      assert ids[x] == x;
    }
    IndexImageCard(os);
    IndexImageCard(ids);
    assert |range - values| == 0;
    assert ids[v] in range;
    assert v in values;
  }

  lemma {:induction false} IndexImageCard(os: seq<int>)
    requires forall i, j :: 0 <= i < j < |os| ==> os[i] != os[j]
    ensures |set i | 0 <= i < |os| :: os[i]| == |os|
  {
    var n := |os|;
    if n > 0 {
      var front := os[..n - 1];
      IndexImageCard(front);
      assert (set i | 0 <= i < n :: os[i]) == (set i | 0 <= i < n - 1 :: front[i]) + {os[n - 1]};
      assert os[n - 1] !in (set i | 0 <= i < n - 1 :: front[i]);
    }
  }

  /** Deleting a card whose order is not the largest leaves its siblings no
      longer dense: the largest order `n-1` survives among only `n-1` cards. */
  lemma DeletionLeavesGap(os: seq<int>, p: nat)
    requires p < |os| && IsPermutation(os)
    requires os[p] < |os| - 1
    ensures !IsPermutation(os[..p] + os[p + 1..])
  {
    var n := |os|;
    PermutationCovers(os, n - 1);
    var q :| 0 <= q < n && os[q] == n - 1;
    var rest := os[..p] + os[p + 1..];
    if q < p {
      assert rest[q] == n - 1;
    } else {
      assert rest[q - 1] == n - 1;
    }
  }

  /** Strictly increasing values in `0..n-1`, `n` of them, are exactly `0..n-1`. */
  lemma IncreasingPermutationIsIdentity(os: seq<int>)
    requires forall i :: 0 <= i < |os| ==> 0 <= os[i] < |os|
    requires forall i, j :: 0 <= i < j < |os| ==> os[i] < os[j]
    ensures forall i :: 0 <= i < |os| ==> os[i] == i
  {
    forall i | 0 <= i < |os| ensures os[i] == i {
      AtLeastIndex(os, i);
      AtMostIndex(os, i);
    }
  }

  lemma {:induction false} AtLeastIndex(os: seq<int>, i: nat)
    requires i < |os|
    requires forall k :: 0 <= k < |os| ==> 0 <= os[k]
    requires forall k, j :: 0 <= k < j < |os| ==> os[k] < os[j]
    ensures os[i] >= i
  {
    if i > 0 {
      AtLeastIndex(os, i - 1);
    }
  }

  lemma {:induction false} AtMostIndex(os: seq<int>, i: nat)
    requires i < |os|
    requires forall k :: 0 <= k < |os| ==> os[k] < |os|
    requires forall k, j :: 0 <= k < j < |os| ==> os[k] < os[j]
    ensures os[i] <= i
    decreases |os| - i
  {
    if i < |os| - 1 {
      AtMostIndex(os, i + 1);
    }
  }
}
