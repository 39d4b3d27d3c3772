/**
 * The weighted pick shared by rollRarity and getRandomAffixByIlvl in runtime/Items.js:
 * draw a roll in [0, total), subtract the weights one by one and stop at the first
 * entry where the remainder is <= 0.
 */
module Weighted {
  import opened Wrappers

  /** Sum of a list of weights, peeled from the right so that the cumulative
      weight of i+1 entries is that of i entries plus entry i. */
  function Sum(ws: seq<real>): real
  {
    if ws == [] then 0.0 else Sum(ws[..|ws| - 1]) + ws[|ws| - 1]
  }

  /** The roll for a draw u in [0, 1): Math.random() * total. */
  function Roll(u: real, total: real): real
  {
    u * total
  }

  /** Cumulative weight of the first n entries. */
  function Cum(ws: seq<real>, n: nat): real
    requires n <= |ws|
  {
    Sum(ws[..n])
  }

  /** The subtraction walk from index i with remainder `rest`; None when no entry
      brings the remainder to <= 0 (the callers then fall back). */
  function Walk(ws: seq<real>, rest: real, i: nat): (r: Option<nat>)
    requires i <= |ws|
    ensures r.Some? ==> i <= r.value < |ws|
    decreases |ws| - i
  {
    if i == |ws| then None
    else if rest - ws[i] <= 0.0 then Some(i)
    else Walk(ws, rest - ws[i], i + 1)
  }

  /** Index chosen by the walk for a given roll. */
  function PickIndex(ws: seq<real>, roll: real): (r: Option<nat>)
    ensures r.Some? ==> r.value < |ws|
  {
    Walk(ws, roll, 0)
  }

  lemma SumStep(ws: seq<real>, k: nat)
    requires k < |ws|
    ensures Cum(ws, k + 1) == Cum(ws, k) + ws[k]
  {
    assert ws[..k + 1][..k] == ws[..k];
  }

  lemma {:induction false} WalkFirstCrossing(ws: seq<real>, roll: real, rest: real, i: nat, k: nat)
    requires i <= |ws| && rest == roll - Cum(ws, i)
    ensures Walk(ws, rest, i) == Some(k) <==>
              i <= k < |ws| && roll <= Cum(ws, k + 1) &&
              forall m :: i < m <= k ==> Cum(ws, m) < roll
    decreases |ws| - i
  {
    if i < |ws| {
      SumStep(ws, i);
      if rest - ws[i] > 0.0 {
        WalkFirstCrossing(ws, roll, rest - ws[i], i + 1, k);
      }
    }
  }

  lemma {:induction false} WalkNone(ws: seq<real>, roll: real, rest: real, i: nat)
    requires i <= |ws| && rest == roll - Cum(ws, i)
    ensures Walk(ws, rest, i).None? <==> forall m :: i < m <= |ws| ==> Cum(ws, m) < roll
    decreases |ws| - i
  {
    if i < |ws| {
      SumStep(ws, i);
      if rest - ws[i] > 0.0 {
        WalkNone(ws, roll, rest - ws[i], i + 1);
      }
    }
  }

  /** The pick is the first entry whose cumulative weight reaches the roll. */
  lemma PickIsFirstCrossing(ws: seq<real>, roll: real, k: nat)
    ensures PickIndex(ws, roll) == Some(k) <==>
              k < |ws| && roll <= Cum(ws, k + 1) &&
              forall m :: 0 < m <= k ==> Cum(ws, m) < roll
  {
    assert ws[..0] == [];
    WalkFirstCrossing(ws, roll, roll, 0, k);
  }

  /** The walk finds nothing exactly when every cumulative weight stays below the roll. */
  lemma PickNoneIffBelowAll(ws: seq<real>, roll: real)
    ensures PickIndex(ws, roll).None? <==> forall m :: 0 < m <= |ws| ==> Cum(ws, m) < roll
  {
    assert ws[..0] == [];
    WalkNone(ws, roll, roll, 0);
  }

  /** A roll no larger than the total of a non-empty list always selects an entry,
      so the callers' fallbacks are never used for such a roll. */
  lemma PickWithinTotal(ws: seq<real>, roll: real)
    requires |ws| > 0 && roll <= Sum(ws)
    ensures PickIndex(ws, roll).Some?
  {
    PickNoneIffBelowAll(ws, roll);
    assert ws[..|ws|] == ws;
    assert Cum(ws, |ws|) == Sum(ws);
  }

  /** A draw u in [0, 1) scaled by a non-negative total never exceeds the total. */
  lemma RollWithinTotal(u: real, total: real)
    requires 0.0 <= u < 1.0 && total >= 0.0
    ensures 0.0 <= Roll(u, total) <= total
  {
    assert u * total <= 1.0 * total;
  }

  ghost predicate NonNegative(ws: seq<real>)
  {
    forall i :: 0 <= i < |ws| ==> ws[i] >= 0.0
  }

  lemma {:induction false} PrefixSumMonotone(ws: seq<real>, a: nat, b: nat)
    requires NonNegative(ws) && a <= b <= |ws|
    ensures Cum(ws, a) <= Cum(ws, b)
    decreases b
  {
    if a < b {
      SumStep(ws, b - 1);
      PrefixSumMonotone(ws, a, b - 1);
    }
  }

  /** With non-negative weights and a positive roll, entry k is chosen exactly when the
      roll falls in its interval (Cum(ws, k), Cum(ws, k+1)], whose length is ws[k]. */
  lemma PickIsInterval(ws: seq<real>, roll: real, k: nat)
    requires NonNegative(ws) && roll > 0.0
    ensures PickIndex(ws, roll) == Some(k) <==>
              k < |ws| && Cum(ws, k) < roll <= Cum(ws, k + 1)
  {
    PickIsFirstCrossing(ws, roll, k);
    if k < |ws| && Cum(ws, k) < roll <= Cum(ws, k + 1) {
      forall m | 0 < m <= k
        ensures Cum(ws, m) < roll
      {
        PrefixSumMonotone(ws, m, k);
      }
    }
    if k == 0 {
      assert ws[..0] == [];
    }
  }

  /** The subtraction loop itself: `roll -= weight; if (roll <= 0) return` over the list.
      It returns the first entry whose cumulative weight reaches the roll, or None. */
  method PickWeighted(ws: seq<real>, roll: real) returns (k: Option<nat>)
    ensures k == PickIndex(ws, roll)
    ensures k.Some? ==> k.value < |ws| && roll <= Cum(ws, k.value + 1) &&
                        forall m :: 0 < m <= k.value ==> Cum(ws, m) < roll
    ensures k.None? ==> forall m :: 0 < m <= |ws| ==> Cum(ws, m) < roll
  {
    var rest := roll;
    var i := 0;
    while i < |ws|
      invariant 0 <= i <= |ws|
      invariant Walk(ws, rest, i) == PickIndex(ws, roll)
    {
      rest := rest - ws[i];
      if rest <= 0.0 {
        k := Some(i);
        PickIsFirstCrossing(ws, roll, i);
        return;
      }
      i := i + 1;
    }
    k := None;
    PickNoneIffBelowAll(ws, roll);
  }

  /** Two candidates weighted 10 and 90 and a roll of 95: 95 - 10 = 85 > 0, 85 - 90 <= 0,
      so the second one is chosen. */
  lemma PickExample()
    ensures PickIndex([10.0, 90.0], 95.0) == Some(1)
  {
  }
}
