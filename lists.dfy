/**
 * The `keep = []; for x in xs: ...; if flag: keep.append(x)` pattern the
 * bullet and reward managers use to drop finished objects: the elements of
 * a list whose flag is set, in their original order.
 */
module Lists {

  /** The number of set flags. */
  function CountTrue(flags: seq<bool>): (n: nat)
    ensures n <= |flags|
  {
    if |flags| == 0 then 0
    else CountTrue(flags[..|flags| - 1]) + (if flags[|flags| - 1] then 1 else 0)
  }

  /** The elements of `xs` whose flag is set, in order. */
  function Kept<T>(xs: seq<T>, flags: seq<bool>): (r: seq<T>)
    requires |flags| == |xs|
    ensures |r| == CountTrue(flags)
  {
    if |xs| == 0 then []
    else
      var earlier := Kept(xs[..|xs| - 1], flags[..|flags| - 1]);
      if flags[|flags| - 1] then earlier + [xs[|xs| - 1]] else earlier
  }

  /** Whether `flags` is at most `wider` everywhere. */
  predicate Implies(flags: seq<bool>, wider: seq<bool>)
  {
    |flags| == |wider| && forall k :: 0 <= k < |flags| ==> flags[k] ==> wider[k]
  }

  /** Clearing flags never adds to the count. */
  lemma {:induction false} CountTrueMonotone(flags: seq<bool>, wider: seq<bool>)
    requires Implies(flags, wider)
    ensures CountTrue(flags) <= CountTrue(wider)
  {
    if |flags| > 0 {
      CountTrueMonotone(flags[..|flags| - 1], wider[..|wider| - 1]);
    }
  }

  lemma CountTrueAppend(flags: seq<bool>, b: bool)
    ensures CountTrue(flags + [b]) == CountTrue(flags) + (if b then 1 else 0)
  {
    assert (flags + [b])[..|flags|] == flags;
  }

  /** Extending the list by one element extends the kept part by it exactly when its flag is set. */
  lemma KeptAppend<T>(xs: seq<T>, flags: seq<bool>, x: T, b: bool)
    requires |flags| == |xs|
    ensures Kept(xs + [x], flags + [b]) == Kept(xs, flags) + (if b then [x] else [])
  {
    assert (xs + [x])[..|xs|] == xs;
    assert (flags + [b])[..|flags|] == flags;
  }

  /** The kept part of a prefix grows by the next element exactly when its flag is set. */
  lemma KeptPrefixStep<T>(xs: seq<T>, flags: seq<bool>, i: nat)
    requires |flags| == |xs| && i < |xs|
    ensures Kept(xs[..i + 1], flags[..i + 1]) == Kept(xs[..i], flags[..i]) + (if flags[i] then [xs[i]] else [])
  {
    assert xs[..i + 1][..i] == xs[..i];
    assert flags[..i + 1][..i] == flags[..i];
  }

  /** `kept[j]` is `xs[positions[j]]`, taken from flagged positions in increasing order. */
  predicate TakenFrom<T(==)>(kept: seq<T>, xs: seq<T>, flags: seq<bool>, positions: seq<nat>)
    requires |flags| == |xs|
  {
    && |positions| == |kept|
    && (forall j :: 0 <= j < |positions| ==> (positions[j] < |xs| && flags[positions[j]] && kept[j] == xs[positions[j]]))
    && (forall i, j :: 0 <= i < j < |positions| ==> positions[i] < positions[j])
  }

  /**
   * Every kept element comes from a position whose flag is set, and the
   * positions increase: the kept part is an ordered sub-list.
   */
  lemma {:induction false} KeptIsFlaggedSublist<T>(xs: seq<T>, flags: seq<bool>)
    requires |flags| == |xs|
    ensures exists positions: seq<nat> :: TakenFrom(Kept(xs, flags), xs, flags, positions)
  {
    if |xs| > 0 {
      var n := |xs| - 1;
      KeptIsFlaggedSublist(xs[..n], flags[..n]);
      var positions: seq<nat> :| TakenFrom(Kept(xs[..n], flags[..n]), xs[..n], flags[..n], positions);
      if flags[n] {
        assert TakenFrom(Kept(xs, flags), xs, flags, positions + [n]);
      } else {
        assert TakenFrom(Kept(xs, flags), xs, flags, positions);
      }
    } else {
      assert TakenFrom(Kept(xs, flags), xs, flags, []);
    }
  }

  /** An element is kept exactly when it sits at a flagged position. */
  lemma {:induction false} KeptMembers<T>(xs: seq<T>, flags: seq<bool>, x: T)
    requires |flags| == |xs|
    ensures x in Kept(xs, flags) <==> exists k :: 0 <= k < |xs| && xs[k] == x && flags[k]
  {
    if |xs| > 0 {
      var n := |xs| - 1;
      KeptMembers(xs[..n], flags[..n], x);
      if x in Kept(xs[..n], flags[..n]) {
        var k :| 0 <= k < n && xs[..n][k] == x && flags[..n][k];
        assert xs[k] == x && flags[k];
      }
      if exists k :: 0 <= k < |xs| && xs[k] == x && flags[k] {
        var k :| 0 <= k < |xs| && xs[k] == x && flags[k];
        if k < n {
          assert xs[..n][k] == x && flags[..n][k];
        }
      }
    }
  }

  /** No element appears twice. */
  predicate Distinct<T(==)>(xs: seq<T>)
  {
    forall j, k :: 0 <= j < k < |xs| ==> xs[j] != xs[k]
  }

  lemma DistinctAppend<T>(xs: seq<T>, x: T)
    requires Distinct(xs) && x !in xs
    ensures Distinct(xs + [x])
  {
  }

  /** Dropping elements of a list without repeats leaves a list without repeats. */
  lemma {:induction false} KeptDistinct<T>(xs: seq<T>, flags: seq<bool>)
    requires |flags| == |xs| && Distinct(xs)
    ensures Distinct(Kept(xs, flags))
  {
    if |xs| > 0 {
      var n := |xs| - 1;
      assert Distinct(xs[..n]);
      KeptDistinct(xs[..n], flags[..n]);
      if flags[n] {
        KeptMembers(xs[..n], flags[..n], xs[n]);
        DistinctAppend(Kept(xs[..n], flags[..n]), xs[n]);
      }
    }
  }

  /** With every flag set nothing is dropped. */
  lemma {:induction false} KeptAll<T>(xs: seq<T>, flags: seq<bool>)
    requires |flags| == |xs| && forall k :: 0 <= k < |flags| ==> flags[k]
    ensures Kept(xs, flags) == xs
  {
    if |xs| > 0 {
      KeptAll(xs[..|xs| - 1], flags[..|flags| - 1]);
    }
  }
}
