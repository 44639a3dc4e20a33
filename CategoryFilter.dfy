/**
 * `Array.prototype.filter` and what it guarantees: the result keeps exactly
 * the elements the predicate accepts, in their original order.
 */
module CategoryFilter {

  /** The elements of `xs` that `keep` accepts, in order. */
  function Filter<T>(xs: seq<T>, keep: T -> bool): (r: seq<T>)
    ensures |r| <= |xs|
    ensures forall x | x in r :: x in xs && keep(x)
    ensures forall i | 0 <= i < |xs| && keep(xs[i]) :: xs[i] in r
  {
    if xs == [] then []
    else if keep(xs[0]) then [xs[0]] + Filter(xs[1..], keep)
    else Filter(xs[1..], keep)
  }

  /** `idx` lists, in increasing order, exactly the positions of `xs` that
      `keep` accepts, and `r` holds the elements at those positions. */
  ghost predicate SelectsPositions<T>(xs: seq<T>, keep: T -> bool, r: seq<T>, idx: seq<int>) {
    && |idx| == |r|
    && (forall k | 0 <= k < |idx| :: 0 <= idx[k] < |xs| && r[k] == xs[idx[k]])
    && (forall k, l | 0 <= k < l < |idx| :: idx[k] < idx[l])
    && (forall j | 0 <= j < |xs| :: keep(xs[j]) <==> j in idx)
  }

  /** The filter's result is the order-preserving selection of the accepted
      positions: sound, complete and in the original order. */
  lemma {:induction false} FilterSelectsPositions<T>(xs: seq<T>, keep: T -> bool) returns (idx: seq<int>)
    ensures SelectsPositions(xs, keep, Filter(xs, keep), idx)
  {
    if xs == [] {
      idx := [];
    } else {
      var rest := FilterSelectsPositions(xs[1..], keep);
      if keep(xs[0]) {
        SelectionAfterKeptHead(xs, keep, Filter(xs[1..], keep), rest);
        idx := [0] + ShiftUp(rest);
      } else {
        SelectionAfterDroppedHead(xs, keep, Filter(xs[1..], keep), rest);
        idx := ShiftUp(rest);
      }
    }
  }

  /** Every position moved one to the right. */
  function ShiftUp(idx: seq<int>): (s: seq<int>)
    ensures |s| == |idx| && forall k | 0 <= k < |idx| :: s[k] == idx[k] + 1
  {
    seq(|idx|, k requires 0 <= k < |idx| => idx[k] + 1)
  }

  /** A selection over the tail, shifted up, is a selection over the whole
      sequence when the head is rejected. */
  lemma SelectionAfterDroppedHead<T>(xs: seq<T>, keep: T -> bool, r: seq<T>, idx: seq<int>)
    requires xs != [] && !keep(xs[0])
    requires SelectsPositions(xs[1..], keep, r, idx)
    ensures SelectsPositions(xs, keep, r, ShiftUp(idx))
  {
    var up := ShiftUp(idx);
    assert forall k | 0 <= k < |up| :: 1 <= up[k] < |xs| && r[k] == xs[up[k]] by {
      forall k | 0 <= k < |up| ensures 1 <= up[k] < |xs| && r[k] == xs[up[k]] {
        assert xs[1..][idx[k]] == xs[idx[k] + 1];
      }
    }
    forall j | 0 <= j < |xs| ensures keep(xs[j]) <==> j in up {
      if j > 0 {
        assert xs[1..][j - 1] == xs[j];
        if j - 1 in idx {
          var k :| 0 <= k < |idx| && idx[k] == j - 1;
          assert up[k] == j;
        }
      }
    }
  }

  /** A selection over the tail, shifted up and led by position 0, is a
      selection over the whole sequence when the head is accepted. */
  lemma SelectionAfterKeptHead<T>(xs: seq<T>, keep: T -> bool, r: seq<T>, idx: seq<int>)
    requires xs != [] && keep(xs[0])
    requires SelectsPositions(xs[1..], keep, r, idx)
    ensures SelectsPositions(xs, keep, [xs[0]] + r, [0] + ShiftUp(idx))
  {
    KeptHeadPlacesElements(xs, r, idx);
    KeptHeadIncreasing(idx);
    KeptHeadCovers(xs, keep, r, idx);
  }

  /** Position 0 followed by the shifted tail positions holds the head
      followed by the tail's selected elements. */
  lemma KeptHeadPlacesElements<T>(xs: seq<T>, r: seq<T>, idx: seq<int>)
    requires xs != [] && |idx| == |r|
    requires forall k | 0 <= k < |idx| :: 0 <= idx[k] < |xs| - 1 && r[k] == xs[1..][idx[k]]
    ensures forall k | 0 <= k <= |idx| ::
      0 <= ([0] + ShiftUp(idx))[k] < |xs| && ([xs[0]] + r)[k] == xs[([0] + ShiftUp(idx))[k]]
  {
    var all := [0] + ShiftUp(idx);
    var r' := [xs[0]] + r;
    forall k | 0 <= k <= |idx| ensures 0 <= all[k] < |xs| && r'[k] == xs[all[k]] {
      if k > 0 {
        assert all[k] == idx[k - 1] + 1 && r'[k] == r[k - 1];
        assert xs[1..][idx[k - 1]] == xs[idx[k - 1] + 1];
      }
    }
  }

  /** Position 0 followed by increasing non-negative positions, shifted up,
      is still increasing. */
  lemma KeptHeadIncreasing(idx: seq<int>)
    requires forall k | 0 <= k < |idx| :: 0 <= idx[k]
    requires forall k, l | 0 <= k < l < |idx| :: idx[k] < idx[l]
    ensures forall k, l | 0 <= k < l <= |idx| :: ([0] + ShiftUp(idx))[k] < ([0] + ShiftUp(idx))[l]
  {
    var all := [0] + ShiftUp(idx);
    forall k, l | 0 <= k < l <= |idx| ensures all[k] < all[l] {
      assert all[l] == idx[l - 1] + 1;
      if k > 0 { assert all[k] == idx[k - 1] + 1; }
    }
  }

  /** After an accepted head, the shifted positions are exactly the accepted
      positions of the whole sequence. */
  lemma KeptHeadCovers<T>(xs: seq<T>, keep: T -> bool, r: seq<T>, idx: seq<int>)
    requires xs != [] && keep(xs[0])
    requires SelectsPositions(xs[1..], keep, r, idx)
    ensures forall j | 0 <= j < |xs| :: keep(xs[j]) <==> j in [0] + ShiftUp(idx)
  {
    var all := [0] + ShiftUp(idx);
    forall j | 0 <= j < |xs| ensures keep(xs[j]) <==> j in all {
      if j > 0 {
        assert xs[1..][j - 1] == xs[j];
        if j - 1 in idx {
          var k :| 0 <= k < |idx| && idx[k] == j - 1;
          assert all[k + 1] == j;
        }
        if j in all {
          var k :| 0 <= k < |all| && all[k] == j;
          assert k > 0 && idx[k - 1] == j - 1;
        }
      }
    }
  }

  /** Every position moved one to the left. */
  function ShiftDown(idx: seq<int>): (s: seq<int>)
    ensures |s| == |idx| && forall k | 0 <= k < |idx| :: s[k] == idx[k] - 1
  {
    seq(|idx|, k requires 0 <= k < |idx| => idx[k] - 1)
  }

  /** In a selection of the accepted positions, the first element is
      accepted exactly when position 0 comes first. */
  lemma SelectionHead<T>(xs: seq<T>, keep: T -> bool, r: seq<T>, idx: seq<int>)
    requires SelectsPositions(xs, keep, r, idx) && xs != []
    ensures keep(xs[0]) <==> |idx| > 0 && idx[0] == 0
  {
    if keep(xs[0]) {
      assert 0 in idx;
      var k :| 0 <= k < |idx| && idx[k] == 0;
    }
  }

  /** A selection that does not use position 0, shifted down, is a
      selection over the tail. */
  lemma SelectionTail<T>(xs: seq<T>, keep: T -> bool, r: seq<T>, idx: seq<int>)
    requires xs != [] && !keep(xs[0])
    requires SelectsPositions(xs, keep, r, idx)
    ensures SelectsPositions(xs[1..], keep, r, ShiftDown(idx))
  {
    var shifted := ShiftDown(idx);
    assert forall k | 0 <= k < |idx| :: idx[k] != 0;
    forall j | 0 <= j < |xs| - 1 ensures keep(xs[1..][j]) <==> j in shifted {
      assert xs[1..][j] == xs[j + 1];
      if j + 1 in idx {
        var k :| 0 <= k < |idx| && idx[k] == j + 1;
        assert shifted[k] == j;
      }
    }
  }

  /** A selection that starts at position 0 continues, shifted down, as a
      selection over the tail. */
  lemma SelectionTailAfterHead<T>(xs: seq<T>, keep: T -> bool, r: seq<T>, idx: seq<int>)
    requires xs != [] && |idx| > 0 && idx[0] == 0
    requires SelectsPositions(xs, keep, r, idx)
    ensures SelectsPositions(xs[1..], keep, r[1..], ShiftDown(idx[1..]))
  {
    var rest := idx[1..];
    var shifted := ShiftDown(rest);
    var r' := r[1..];
    assert forall k | 0 <= k < |rest| :: rest[k] == idx[k + 1];
    assert forall k | 0 <= k < |rest| :: 0 < rest[k] by {
      forall k | 0 <= k < |rest| ensures 0 < rest[k] { assert idx[0] < idx[k + 1]; }
    }
    assert forall k | 0 <= k < |shifted| :: 0 <= shifted[k] < |xs| - 1 && r'[k] == xs[1..][shifted[k]] by {
      forall k | 0 <= k < |shifted| ensures 0 <= shifted[k] < |xs| - 1 && r'[k] == xs[1..][shifted[k]] {
        assert r'[k] == r[k + 1] == xs[idx[k + 1]];
      }
    }
    assert forall k, l | 0 <= k < l < |shifted| :: shifted[k] < shifted[l] by {
      forall k, l | 0 <= k < l < |shifted| ensures shifted[k] < shifted[l] {
        assert idx[k + 1] < idx[l + 1];
      }
    }
    SelectionTailAfterHeadCovers(xs, keep, r, idx);
  }

  /** The shifted positions after the head are exactly the accepted
      positions of the tail. */
  lemma SelectionTailAfterHeadCovers<T>(xs: seq<T>, keep: T -> bool, r: seq<T>, idx: seq<int>)
    requires xs != [] && |idx| > 0 && idx[0] == 0
    requires SelectsPositions(xs, keep, r, idx)
    ensures forall j | 0 <= j < |xs| - 1 :: keep(xs[1..][j]) <==> j in ShiftDown(idx[1..])
  {
    var shifted := ShiftDown(idx[1..]);
    forall j | 0 <= j < |xs| - 1 ensures keep(xs[1..][j]) <==> j in shifted {
      assert xs[1..][j] == xs[j + 1];
      if j + 1 in idx {
        var k :| 0 <= k < |idx| && idx[k] == j + 1;
        assert k > 0 && shifted[k - 1] == j;
      }
      if j in shifted {
        var k :| 0 <= k < |shifted| && shifted[k] == j;
        assert idx[k + 1] == j + 1;
      }
    }
  }

  /** Conversely, an order-preserving selection of exactly the accepted
      positions is the filter's result: the two descriptions agree. */
  lemma {:induction false} SelectionIsFilter<T>(xs: seq<T>, keep: T -> bool, r: seq<T>, idx: seq<int>)
    requires SelectsPositions(xs, keep, r, idx)
    ensures r == Filter(xs, keep)
  {
    if xs == [] {
      assert |idx| == 0;
    } else {
      SelectionHead(xs, keep, r, idx);
      if keep(xs[0]) {
        SelectionTailAfterHead(xs, keep, r, idx);
        SelectionIsFilter(xs[1..], keep, r[1..], ShiftDown(idx[1..]));
        assert r == [xs[0]] + r[1..];
      } else {
        SelectionTail(xs, keep, r, idx);
        SelectionIsFilter(xs[1..], keep, r, ShiftDown(idx));
      }
    }
  }

  /** When every element is accepted, filtering returns the sequence itself. */
  lemma {:induction false} FilterKeepsAll<T>(xs: seq<T>, keep: T -> bool)
    requires forall x | x in xs :: keep(x)
    ensures Filter(xs, keep) == xs
  {
    if xs != [] {
      FilterKeepsAll(xs[1..], keep);
    }
  }

  /** When no element is accepted, filtering returns the empty sequence. */
  lemma {:induction false} FilterKeepsNone<T>(xs: seq<T>, keep: T -> bool)
    requires forall x | x in xs :: !keep(x)
    ensures Filter(xs, keep) == []
  {
    if xs != [] {
      FilterKeepsNone(xs[1..], keep);
    }
  }

  /** Filtering a second time with the same predicate changes nothing. */
  lemma FilterIdempotent<T>(xs: seq<T>, keep: T -> bool)
    ensures Filter(Filter(xs, keep), keep) == Filter(xs, keep)
  {
    FilterKeepsAll(Filter(xs, keep), keep);
  }

  /** One step of the filter: the head is kept or dropped by itself. */
  lemma FilterCons<T>(x: T, xs: seq<T>, keep: T -> bool)
    ensures Filter([x] + xs, keep) == (if keep(x) then [x] else []) + Filter(xs, keep)
  {
    assert ([x] + xs)[1..] == xs;
  }

  /** Filtering distributes over concatenation. */
  lemma {:induction false} FilterAppend<T>(xs: seq<T>, ys: seq<T>, keep: T -> bool)
    ensures Filter(xs + ys, keep) == Filter(xs, keep) + Filter(ys, keep)
  {
    if xs == [] {
      assert xs + ys == ys;
    } else {
      assert (xs + ys)[1..] == xs[1..] + ys;
      FilterAppend(xs[1..], ys, keep);
    }
  }
}
