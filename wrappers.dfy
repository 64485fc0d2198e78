/** Optional values and results with an error side, as Swift's `Optional` and `Result`. */
module Wrappers {

  datatype Option<+T> = None | Some(value: T)

  datatype Result<+T, +E> = Success(value: T) | Failure(error: E)

  /** Swift's `compactMap` after the map: the present values, in order. */
  function Somes<T>(s: seq<Option<T>>): (r: seq<T>)
    ensures |r| <= |s|
    ensures (forall i :: 0 <= i < |s| ==> s[i].Some?) ==> |r| == |s|
  {
    if s == [] then []
    else if s[0].Some? then [s[0].value] + Somes(s[1..])
    else Somes(s[1..])
  }

  ghost predicate Increasing(idx: seq<nat>)
  {
    forall k, l :: 0 <= k < l < |idx| ==> idx[k] < idx[l]
  }

  /** Every position in `idx` is a position of `s` holding the corresponding value of `r`. */
  ghost predicate Picks<T>(s: seq<Option<T>>, idx: seq<nat>, r: seq<T>)
  {
    && |idx| == |r|
    && forall k :: 0 <= k < |idx| ==> idx[k] < |s| && s[idx[k]] == Some(r[k])
  }

  /**
   * `Somes` keeps exactly the present values, in order: `idx` lists the
   * positions that hold a value, increasing, and the k-th result is the value
   * at position `idx[k]`.
   */
  lemma {:induction false} SomesKeepsPresentInOrder<T>(s: seq<Option<T>>) returns (idx: seq<nat>)
    ensures Picks(s, idx, Somes(s))
    ensures Increasing(idx)
    ensures forall i :: 0 <= i < |s| && s[i].Some? ==> i in idx
  {
    if s == [] {
      idx := [];
    } else {
      var tail := SomesKeepsPresentInOrder(s[1..]);
      var shifted := ShiftedPicks(s, tail, Somes(s[1..]));
      if s[0].Some? {
        idx := [0] + shifted;
        ConsPicks(s, shifted, Somes(s[1..]));
      } else {
        idx := shifted;
      }
    }
  }

  /** Every position one up. */
  function Shift(xs: seq<nat>): (r: seq<nat>)
    ensures |r| == |xs|
    ensures forall k :: 0 <= k < |xs| ==> r[k] == xs[k] + 1
  {
    if xs == [] then [] else [xs[0] + 1] + Shift(xs[1..])
  }

  /** Positions in the tail of `s`, moved one up, are positions in `s`. */
  lemma ShiftedPicks<T>(s: seq<Option<T>>, tail: seq<nat>, r: seq<T>) returns (shifted: seq<nat>)
    requires s != []
    requires Picks(s[1..], tail, r) && Increasing(tail)
    requires forall i :: 0 <= i < |s| - 1 && s[1..][i].Some? ==> i in tail
    ensures Picks(s, shifted, r) && Increasing(shifted)
    ensures forall k :: 0 <= k < |shifted| ==> shifted[k] >= 1
    ensures forall i :: 1 <= i < |s| && s[i].Some? ==> i in shifted
  {
    shifted := Shift(tail);
    forall k | 0 <= k < |shifted| ensures shifted[k] < |s| && s[shifted[k]] == Some(r[k]) {
      assert s[1..][tail[k]] == Some(r[k]);
    }
    forall k, l | 0 <= k < l < |shifted| ensures shifted[k] < shifted[l] {
      assert tail[k] < tail[l];
    }
    forall i | 1 <= i < |s| && s[i].Some? ensures i in shifted {
      ShiftedContains(s, tail, i);
    }
  }

  lemma ShiftedContains<T>(s: seq<Option<T>>, tail: seq<nat>, i: nat)
    requires s != [] && 1 <= i < |s| && s[i].Some?
    requires forall i :: 0 <= i < |s| - 1 && s[1..][i].Some? ==> i in tail
    ensures i in Shift(tail)
  {
    assert s[1..][i - 1] == s[i];
    var k :| 0 <= k < |tail| && tail[k] == i - 1;
    assert Shift(tail)[k] == i;
  }

  /** A present head in front of the shifted positions. */
  lemma ConsPicks<T>(s: seq<Option<T>>, shifted: seq<nat>, r: seq<T>)
    requires s != [] && s[0].Some?
    requires Picks(s, shifted, r) && Increasing(shifted)
    requires forall k :: 0 <= k < |shifted| ==> shifted[k] >= 1
    ensures Picks(s, [0] + shifted, [s[0].value] + r) && Increasing([0] + shifted)
  {
    var idx := [0] + shifted;
    forall k, l | 0 <= k < l < |idx| ensures idx[k] < idx[l] {
      assert idx[l] == shifted[l - 1];
      if k > 0 { assert idx[k] == shifted[k - 1]; }
    }
    forall k | 0 <= k < |idx| ensures idx[k] < |s| && s[idx[k]] == Some(([s[0].value] + r)[k]) {
      if k > 0 { assert idx[k] == shifted[k - 1]; }
    }
  }
}
