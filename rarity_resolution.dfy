/**
 * How generate in runtime/Items.js settles an item's rarity: forced rarity, then the
 * pity override, then the luck-weighted roll (rollRarity), then the higher of the
 * caller's floor and the depth floor (getDepthRarityFloor, higherRarity).
 */
module RarityResolution {
  import opened Wrappers
  import opened Rarities
  import opened Weighted
  import opened Pity

  // ---------------------------------------------------------------- depth floor

  /** config.loot.rarityFloorByDepth. The thresholds object is given as its entries in
      JavaScript's enumeration order (integer keys ascending); an absent section behaves
      like enabled == false. */
  datatype FloorConfig = FloorConfig(enabled: bool, thresholds: seq<(int, Rarity)>)

  /** The rarity of the last entry, in enumeration order, whose depth key is <= depth. */
  function LastReached(ts: seq<(int, Rarity)>, depth: int): Option<Rarity>
  {
    if ts == [] then None
    else if ts[|ts| - 1].0 <= depth then Some(ts[|ts| - 1].1)
    else LastReached(ts[..|ts| - 1], depth)
  }

  /** The floor is absent exactly when no key is reached, and otherwise it is the rarity of
      a reached key after which no key is reached. */
  lemma {:induction false} LastReachedIsLastKey(ts: seq<(int, Rarity)>, depth: int)
    ensures LastReached(ts, depth).None? <==> forall i :: 0 <= i < |ts| ==> ts[i].0 > depth
    ensures LastReached(ts, depth).Some? ==>
              exists i :: 0 <= i < |ts| && ts[i].0 <= depth && ts[i].1 == LastReached(ts, depth).value &&
                          forall j :: i < j < |ts| ==> ts[j].0 > depth
  {
    if ts != [] && ts[|ts| - 1].0 > depth {
      var init := ts[..|ts| - 1];
      LastReachedIsLastKey(init, depth);
      assert forall i :: 0 <= i < |init| ==> init[i] == ts[i];
      if LastReached(init, depth).Some? {
        var i :| 0 <= i < |init| && init[i].0 <= depth && init[i].1 == LastReached(init, depth).value &&
                 forall j :: i < j < |init| ==> init[j].0 > depth;
        assert forall j :: i < j < |ts| ==> ts[j].0 > depth;
      }
    }
  }

  /** Depth used by the floor and the item level: State.run.depth || 1. */
  function RunDepth(depth: int): int
  {
    if depth != 0 then depth else 1
  }

  /** The depth floor: none when disabled, otherwise the last threshold reached. */
  function DepthRarityFloor(cfg: FloorConfig, runDepth: int): Option<Rarity>
  {
    if cfg.enabled then LastReached(cfg.thresholds, RunDepth(runDepth)) else None
  }

  /** getDepthRarityFloor: scan the thresholds and keep the last one reached. */
  method GetDepthRarityFloor(cfg: FloorConfig, runDepth: int) returns (floor: Option<Rarity>)
    ensures floor == DepthRarityFloor(cfg, runDepth)
    ensures floor.Some? <==> cfg.enabled && exists i :: 0 <= i < |cfg.thresholds| && cfg.thresholds[i].0 <= RunDepth(runDepth)
  {
    if !cfg.enabled {
      return None;
    }
    var depth := RunDepth(runDepth);
    var ts := cfg.thresholds;
    floor := None;
    var i := 0;
    while i < |ts|
      invariant 0 <= i <= |ts|
      invariant floor == LastReached(ts[..i], depth)
    {
      assert ts[..i + 1][..i] == ts[..i];
      if depth >= ts[i].0 {
        floor := Some(ts[i].1);
      }
      i := i + 1;
    }
    assert ts[..i] == ts;
    LastReachedIsLastKey(ts, depth);
  }

  predicate Ascending(ts: seq<(int, Rarity)>)
  {
    forall i, j :: 0 <= i < j < |ts| ==> ts[i].0 < ts[j].0
  }

  /** With keys in ascending order the floor is the rarity of the greatest key <= depth. */
  lemma DepthFloorIsGreatestReachedKey(ts: seq<(int, Rarity)>, depth: int, i: nat)
    requires Ascending(ts) && i < |ts| && ts[i].0 <= depth
    requires forall j :: 0 <= j < |ts| && ts[j].0 <= depth ==> ts[j].0 <= ts[i].0
    ensures LastReached(ts, depth) == Some(ts[i].1)
  {
    LastReachedIsLastKey(ts, depth);
    var r := LastReached(ts, depth);
    var k :| 0 <= k < |ts| && ts[k].0 <= depth && ts[k].1 == r.value &&
             forall j :: k < j < |ts| ==> ts[j].0 > depth;
    assert k == i;
  }

  /** Thresholds whose rarities do not fall as the table goes on. */
  predicate RanksAscending(ts: seq<(int, Rarity)>)
  {
    forall i, j :: 0 <= i < j < |ts| ==> Rank(ts[i].1) <= Rank(ts[j].1)
  }

  /** With rarities that do not fall along the table, going deeper never lowers the floor. */
  lemma {:induction false} DepthFloorMonotone(ts: seq<(int, Rarity)>, d1: int, d2: int)
    requires RanksAscending(ts) && d1 <= d2
    ensures RankOf(LastReached(ts, d1)) <= RankOf(LastReached(ts, d2))
  {
    if ts != [] {
      var n := |ts| - 1;
      var init := ts[..n];
      assert forall i :: 0 <= i < n ==> init[i] == ts[i];
      if ts[n].0 > d2 {
        DepthFloorMonotone(init, d1, d2);
      } else if ts[n].0 > d1 {
        LastReachedIsLastKey(init, d1);
        if LastReached(init, d1).Some? {
          var i :| 0 <= i < n && init[i].0 <= d1 && init[i].1 == LastReached(init, d1).value &&
                   forall j :: i < j < n ==> init[j].0 > d1;
          assert Rank(ts[i].1) <= Rank(ts[n].1);
        }
      }
    }
  }

  // ---------------------------------------------------------------- luck-weighted roll

  /** Weight of one allowed rarity: the table weight, times (1 + luck * 0.02) unless common. */
  function LuckWeight(d: RarityData, r: Rarity, luck: real): real
  {
    if r == Common then d.weight else d.weight * (1.0 + luck * 0.02)
  }

  /** Keys of the `weights` object: the allowed rarities present in the table, each once,
      in order of first appearance. */
  function Entries(table: RarityTable, allowed: seq<Rarity>): (es: seq<Rarity>)
    ensures forall r :: r in es ==> r in allowed && r in table
  {
    if allowed == [] then []
    else
      var es := Entries(table, allowed[..|allowed| - 1]);
      var r := allowed[|allowed| - 1];
      assert allowed == allowed[..|allowed| - 1] + [r];
      if r in table && r !in es then es + [r] else es
  }

  /** Every allowed rarity found in the table is a key, and no key appears twice. */
  lemma {:induction false} EntriesCompleteAndDistinct(table: RarityTable, allowed: seq<Rarity>)
    ensures forall r :: r in allowed && r in table ==> r in Entries(table, allowed)
    ensures forall i, j :: 0 <= i < j < |Entries(table, allowed)| ==> Entries(table, allowed)[i] != Entries(table, allowed)[j]
  {
    if allowed != [] {
      var init := allowed[..|allowed| - 1];
      EntriesCompleteAndDistinct(table, init);
      assert allowed == init + [allowed[|allowed| - 1]];
    }
  }

  /** Values of the `weights` object, in key order. */
  function EntryWeights(table: RarityTable, es: seq<Rarity>, luck: real): (ws: seq<real>)
    requires forall r :: r in es ==> r in table
    ensures |ws| == |es|
    ensures forall i :: 0 <= i < |es| ==> ws[i] == LuckWeight(table[es[i]], es[i], luck)
  {
    if es == [] then []
    else EntryWeights(table, es[..|es| - 1], luck) + [LuckWeight(table[es[|es| - 1]], es[|es| - 1], luck)]
  }

  /** `total`: summed over every allowed rarity in the table, a repeated one as often as
      it is repeated. */
  function Total(table: RarityTable, allowed: seq<Rarity>, luck: real): real
  {
    if allowed == [] then 0.0
    else
      var r := allowed[|allowed| - 1];
      Total(table, allowed[..|allowed| - 1], luck) + (if r in table then LuckWeight(table[r], r, luck) else 0.0)
  }

  /** rollRarity with the draw u: walk the weights with roll u * total; fall back to the
      first allowed rarity (absent when the list is empty). */
  function RolledRarity(table: Option<RarityTable>, allowed: seq<Rarity>, luck: real, u: real): (r: Option<Rarity>)
    ensures r.Some? <==> |allowed| > 0
    ensures r.Some? ==> r.value in allowed
  {
    if table.None? then FirstAllowed(allowed)
    else
      var es := Entries(table.value, allowed);
      WalkOrFirst(es, EntryWeights(table.value, es, luck), Roll(u, Total(table.value, allowed, luck)), allowed)
  }

  /** allowedRarities[0], absent for an empty list. */
  function FirstAllowed(allowed: seq<Rarity>): (r: Option<Rarity>)
    ensures r.Some? <==> |allowed| > 0
    ensures r.Some? ==> r.value in allowed
  {
    if |allowed| > 0 then Some(allowed[0]) else None
  }

  /** The rarity the walk selects, or the first allowed one when the walk selects none. */
  function WalkOrFirst(es: seq<Rarity>, ws: seq<real>, roll: real, allowed: seq<Rarity>): (r: Option<Rarity>)
    requires |ws| == |es| && forall e :: e in es ==> e in allowed
    ensures r.Some? <==> |allowed| > 0 || PickIndex(ws, roll).Some?
    ensures r.Some? ==> r.value in allowed
  {
    match PickIndex(ws, roll)
    case Some(k) => Some(es[k])
    case None => FirstAllowed(allowed)
  }

  lemma RollStep(t: RarityTable, allowed: seq<Rarity>, i: nat, keys: seq<Rarity>, luck: real)
    requires i < |allowed| && keys == Entries(t, allowed[..i])
    ensures var a := allowed[i];
            Entries(t, allowed[..i + 1]) == (if a in t && a !in keys then keys + [a] else keys) &&
            Total(t, allowed[..i + 1], luck) == Total(t, allowed[..i], luck) + (if a in t then LuckWeight(t[a], a, luck) else 0.0)
  {
    assert allowed[..i + 1][..i] == allowed[..i];
  }

  lemma EntryWeightsAppend(t: RarityTable, keys: seq<Rarity>, a: Rarity, luck: real)
    requires forall r :: r in keys ==> r in t
    requires a in t
    ensures EntryWeights(t, keys + [a], luck) == EntryWeights(t, keys, luck) + [LuckWeight(t[a], a, luck)]
  {
    assert (keys + [a])[..|keys|] == keys;
  }

  /** The first loop of rollRarity: the `weights` object (keys and values) and `total`. */
  method BuildWeights(t: RarityTable, allowed: seq<Rarity>, luck: real)
    returns (keys: seq<Rarity>, weights: seq<real>, total: real)
    ensures keys == Entries(t, allowed)
    ensures weights == EntryWeights(t, keys, luck)
    ensures total == Total(t, allowed, luck)
  {
    keys, weights, total := [], [], 0.0;
    var i := 0;
    while i < |allowed|
      invariant 0 <= i <= |allowed|
      invariant keys == Entries(t, allowed[..i])
      invariant weights == EntryWeights(t, keys, luck)
      invariant total == Total(t, allowed[..i], luck)
    {
      var rarity := allowed[i];
      RollStep(t, allowed, i, keys, luck);
      if rarity in t {
        var w := LuckWeight(t[rarity], rarity, luck);
        if rarity !in keys {
          EntryWeightsAppend(t, keys, rarity, luck);
          keys := keys + [rarity];
          weights := weights + [w];
        }
        total := total + w;
      }
      i := i + 1;
    }
    assert allowed[..i] == allowed;
  }

  /** rollRarity: build the weights and their total, then walk them with the draw. */
  method RollRarity(table: Option<RarityTable>, allowed: seq<Rarity>, luck: real, u: real) returns (r: Option<Rarity>)
    ensures r == RolledRarity(table, allowed, luck, u)
    ensures r.Some? <==> |allowed| > 0
    ensures r.Some? ==> r.value in allowed
  {
    if table.None? {
      return FirstAllowed(allowed);
    }
    var keys, weights, total := BuildWeights(table.value, allowed, luck);
    var k := PickWeighted(weights, Roll(u, total));
    r := if k.Some? then Some(keys[k.value]) else FirstAllowed(allowed);
  }

  // ---------------------------------------------------------------- resolution

  /** The caller's floor raised by the depth floor when there is one. */
  function CombinedFloor(callerFloor: Option<Rarity>, depthFloor: Option<Rarity>): (f: Option<Rarity>)
    ensures RankOf(f) >= RankOf(callerFloor) && RankOf(f) >= RankOf(depthFloor)
    ensures f == callerFloor || f == depthFloor
  {
    if depthFloor.Some? then HigherRarity(callerFloor, depthFloor) else callerFloor
  }

  /** The rarity generate settles on. `rolled` is the result of rollRarity, which is only
      consulted when neither a forced nor a pity rarity is present. */
  function FinalRarity(forced: Option<Rarity>, pity: Option<Rarity>, rolled: Option<Rarity>,
                       callerFloor: Option<Rarity>, depthFloor: Option<Rarity>): (r: Option<Rarity>)
    ensures forced.Some? ==> r == forced
    ensures forced.None? ==> RankOf(r) >= RankOf(callerFloor) && RankOf(r) >= RankOf(depthFloor)
    ensures forced.None? && pity.Some? ==> RankOf(r) >= Rank(pity.value)
    ensures forced.None? && pity.Some? ==> r == pity || r == CombinedFloor(callerFloor, depthFloor)
    ensures forced.None? && pity.None? ==> r == rolled || r == CombinedFloor(callerFloor, depthFloor)
    ensures forced.None? && r != CombinedFloor(callerFloor, depthFloor) ==> RankOf(r) >= RankOf(CombinedFloor(callerFloor, depthFloor))
    ensures var p := if pity.Some? then pity else rolled;
            forced.None? && RankOf(p) >= RankOf(CombinedFloor(callerFloor, depthFloor)) ==> r == p
    ensures var p := if pity.Some? then pity else rolled;
            forced.None? && RankOf(p) < RankOf(CombinedFloor(callerFloor, depthFloor)) ==> r == CombinedFloor(callerFloor, depthFloor)
  {
    var picked := if forced.Some? then forced else if pity.Some? then pity else rolled;
    var floor := CombinedFloor(callerFloor, depthFloor);
    if forced.None? && floor.Some? && RankOf(picked) < Rank(floor.value) then floor else picked
  }

  /** Pity guarantee: when pity grants tier p to an unforced drop, the drop is p unless
      the floor outranks p, and p's counter is zero afterwards. */
  lemma PityOverrideDelivers(cfg: PityConfig, c: PityCounters, rolled: Option<Rarity>,
                             callerFloor: Option<Rarity>, depthFloor: Option<Rarity>)
    requires CheckPity(cfg, c).Some?
    ensures var p := CheckPity(cfg, c).value;
            var r := FinalRarity(None, Some(p), rolled, callerFloor, depthFloor);
            var after := AfterDrop(c, r);
            (r == Some(p) || Rank(r.value) > Rank(p)) &&
            (p == Rare ==> after.sinceRare == 0) &&
            (p == Epic ==> after.sinceEpic == 0 && after.sinceRare == 0) &&
            (p == Legendary ==> after == PityCounters(0, 0, 0))
  {
    var p := CheckPity(cfg, c).value;
    assert Met(cfg, c, p);
    assert p == Rare || p == Epic || p == Legendary;
  }

  /** Across unforced generations with pity enabled, counters stay within their thresholds. */
  lemma UnforcedDropsKeepPityBounded(cfg: PityConfig, c: PityCounters, rolled: Option<Rarity>,
                                     callerFloor: Option<Rarity>, depthFloor: Option<Rarity>)
    requires cfg.enabled && WithinThresholds(cfg, c)
    ensures WithinThresholds(cfg, AfterDrop(c, FinalRarity(None, CheckPity(cfg, c), rolled, callerFloor, depthFloor)))
  {
    PityKeepsCountersWithinThresholds(cfg, c, FinalRarity(None, CheckPity(cfg, c), rolled, callerFloor, depthFloor));
  }

  /** Forcing common under an epic floor still yields common. */
  lemma ForcedCommonUnderEpicFloor(pity: Option<Rarity>, rolled: Option<Rarity>)
    ensures FinalRarity(Some(Common), pity, rolled, Some(Epic), None) == Some(Common)
  {
  }
}
