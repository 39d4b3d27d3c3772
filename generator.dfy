/**
 * Items.generate of runtime/Items.js: item level, rarity, pity update, base stats,
 * affixes, display name and sell value of a freshly generated item.
 */
module Generator {
  import opened Wrappers
  import opened Rarities
  import opened Weighted
  import opened ItemLevel
  import opened Pity
  import opened RarityResolution
  import opened Affixes
  import opened AppliedAffixes

  /** Math.random() as a fixed stream of draws in [0, 1) and the number already used. */
  class RandomSource {
    const stream: nat -> real
    var used: nat

    ghost predicate Valid()
    {
      forall n :: 0.0 <= stream(n) < 1.0
    }

    constructor (stream: nat -> real)
      requires forall n :: 0.0 <= stream(n) < 1.0
      ensures Valid() && this.stream == stream && used == 0
    {
      this.stream := stream;
      used := 0;
    }

    /** The draw the next call would return. */
    function Peek(): real
      reads this
    {
      stream(used)
    }

    /** One call of Math.random(). */
    method Next() returns (u: real)
      requires Valid()
      modifies this
      ensures u == stream(old(used)) && used == old(used) + 1
      ensures 0.0 <= u < 1.0
    {
      u := stream(used);
      used := used + 1;
    }
  }

  /** One entry of a catalog item's stats object: the stat and its [min, max] range. */
  datatype StatRange = StatRange(stat: string, low: real, high: real)

  /** A catalog entry as getItemData returns it. */
  datatype BaseItem = BaseItem(name: string, slot: string, icon: string, description: string,
                               stats: seq<StatRange>, rarities: seq<Rarity>, tags: Option<seq<string>>)

  /** A generated item. */
  datatype Item = Item(id: string, baseId: string, name: string, slot: string, icon: string,
                       description: string, rarity: Rarity, level: int, ilvl: int,
                       stats: map<string, real>, affixes: seq<AppliedAffix>, value: int, tags: seq<string>)

  /** The game data and configuration generate reads. */
  datatype GameData = GameData(catalog: map<string, BaseItem>, rarities: Option<RarityTable>,
                               affixes: Option<AffixPools>, itemLevel: ItemLevelConfig,
                               pity: PityConfig, floor: FloorConfig)

  /** The run and player values generate reads; 0 and "" stand for absent values. */
  datatype RunContext = RunContext(depth: int, zoneIndex: int, act: string, luck: real, metaLevel: int)

  /** null (unknown item or no rarity table), a TypeError thrown because the settled
      rarity has no row in the rarity table, or the item. */
  datatype Outcome = NoItem | Crash | Generated(item: Item)

  /** Math.round(x * 10) / 10: round half up to one decimal. */
  function RoundTenth(x: real): (r: real)
    ensures (r * 10.0).Floor as real == r * 10.0
    ensures x - 0.05 < r <= x + 0.05
  {
    ((x * 10.0 + 0.5).Floor as real) / 10.0
  }

  /** 1 + (ilvl - 1) * 0.01 */
  function IlvlMult(ilvl: int): real
  {
    1.0 + (ilvl - 1) as real * 0.01
  }

  /** Math.floor(50 * sellMult * (1 + ilvl * 0.05)) */
  function SellValue(sellMult: real, ilvl: int): int
  {
    (50.0 * sellMult * (1.0 + ilvl as real * 0.05)).Floor
  }

  /** A non-negative sell multiplier at item level >= -20 never sells for a negative amount. */
  lemma SellValueNonNegative(sellMult: real, ilvl: int)
    requires sellMult >= 0.0 && ilvl >= -20
    ensures SellValue(sellMult, ilvl) >= 0
  {
    var f := 1.0 + ilvl as real * 0.05;
    assert f >= 0.0;
    assert sellMult * f >= 0.0;
    assert 50.0 * sellMult * f == 50.0 * (sellMult * f);
  }

  /** A higher item level never sells for less (for a non-negative sell multiplier). */
  lemma SellValueMonotoneInIlvl(sellMult: real, i1: int, i2: int)
    requires sellMult >= 0.0 && i1 <= i2
    ensures SellValue(sellMult, i1) <= SellValue(sellMult, i2)
  {
    var d := (i2 - i1) as real;
    assert sellMult * d >= 0.0;
    assert 50.0 * sellMult * (1.0 + i2 as real * 0.05) == 50.0 * sellMult * (1.0 + i1 as real * 0.05) + 2.5 * (sellMult * d);
    FloorMonotone(50.0 * sellMult * (1.0 + i1 as real * 0.05), 50.0 * sellMult * (1.0 + i2 as real * 0.05));
  }

  /** A rarer tier (higher sell multiplier) never sells for less at item level >= -20. */
  lemma SellValueMonotoneInMult(m1: real, m2: real, ilvl: int)
    requires m1 <= m2 && ilvl >= -20
    ensures SellValue(m1, ilvl) <= SellValue(m2, ilvl)
  {
    var f := 1.0 + ilvl as real * 0.05;
    assert f >= 0.0;
    assert (m2 - m1) * f >= 0.0;
    assert 50.0 * m2 * f == 50.0 * m1 * f + 50.0 * ((m2 - m1) * f);
    FloorMonotone(50.0 * m1 * f, 50.0 * m2 * f);
  }

  /** Math.floor(Math.random() * (maxAffixes + 1)) */
  function NumAffixes(maxAffixes: int, u: real): int
  {
    Roll(u, (maxAffixes + 1) as real).Floor
  }

  /** The rolled affix count lies in [0, maxAffixes]. */
  lemma NumAffixesBounds(maxAffixes: int, u: real)
    requires maxAffixes >= 0 && 0.0 <= u < 1.0
    ensures 0 <= NumAffixes(maxAffixes, u) <= maxAffixes
  {
    var m := (maxAffixes + 1) as real;
    assert (1.0 - u) * m > 0.0;
    assert Roll(u, m) < m;
    RollWithinTotal(u, m);
  }

  /** At most the rolled count of affixes is applied, so at most maxAffixes. */
  lemma AffixCountWithinMax(maxAffixes: int, u: real, n: int, count: nat)
    requires 0.0 <= u < 1.0
    requires n == NumAffixes(maxAffixes, u) && count <= (if n > 0 then n else 0)
    ensures maxAffixes >= 0 ==> count <= maxAffixes
  {
    if maxAffixes >= 0 {
      NumAffixesBounds(maxAffixes, u);
    }
  }

  /** The item's ilvl: the explicit item level unless it is absent (0), else calculateItemLevel
      on the run's depth (|| 1), zone (|| 0) and act (|| "act1"). */
  function ItemLevelFor(data: GameData, ctx: RunContext, itemLevel: int): int
  {
    if itemLevel != 0 then itemLevel
    else CalculateItemLevel(data.itemLevel, ctx.metaLevel, RunDepth(ctx.depth), ctx.zoneIndex,
                            if ctx.act != "" then ctx.act else "act1")
  }

  /** An explicit item level is kept; otherwise the level is calculateItemLevel's, which is at
      least 1 when item levels are enabled and the meta level (|| 1) when they are not. */
  lemma ItemLevelForDefaults(data: GameData, ctx: RunContext, itemLevel: int)
    ensures itemLevel != 0 ==> ItemLevelFor(data, ctx, itemLevel) == itemLevel
    ensures itemLevel == 0 && data.itemLevel.enabled ==> ItemLevelFor(data, ctx, itemLevel) >= 1
    ensures itemLevel == 0 && !data.itemLevel.enabled ==>
              ItemLevelFor(data, ctx, itemLevel) == (if ctx.metaLevel != 0 then ctx.metaLevel else 1)
  {
  }

  /** rollRarity is consulted only when neither a forced nor a pity rarity is present. */
  function Rolls(data: GameData, c: PityCounters, forced: Option<Rarity>): bool
  {
    forced.None? && CheckPity(data.pity, c).None?
  }

  /** The rarity generate settles on, given the pity counters before the call and the
      draw u that rollRarity would use. */
  function SettledRarity(data: GameData, ctx: RunContext, c: PityCounters, base: BaseItem,
                         forced: Option<Rarity>, callerFloor: Option<Rarity>, u: real): Option<Rarity>
  {
    var rolled := if Rolls(data, c, forced) then RolledRarity(data.rarities, base.rarities, ctx.luck, u) else None;
    FinalRarity(forced, CheckPity(data.pity, c), rolled, callerFloor, DepthRarityFloor(data.floor, ctx.depth))
  }

  /** The settled rarity keeps a forced rarity; an unforced one ranks at least the caller's
      floor, the depth floor and the pity tier, and is present whenever the roll is. */
  lemma SettledRarityBounds(data: GameData, ctx: RunContext, c: PityCounters, base: BaseItem,
                            forced: Option<Rarity>, callerFloor: Option<Rarity>, u: real)
    ensures var r := SettledRarity(data, ctx, c, base, forced, callerFloor, u);
            forced.Some? ==> r == forced
    ensures var r := SettledRarity(data, ctx, c, base, forced, callerFloor, u);
            forced.None? ==> RankOf(r) >= RankOf(callerFloor) && RankOf(r) >= RankOf(DepthRarityFloor(data.floor, ctx.depth))
    ensures var r := SettledRarity(data, ctx, c, base, forced, callerFloor, u);
            forced.None? && CheckPity(data.pity, c).Some? ==> r.Some? && RankOf(r) >= Rank(CheckPity(data.pity, c).value)
    ensures var r := SettledRarity(data, ctx, c, base, forced, callerFloor, u);
            Rolls(data, c, forced) && RolledRarity(data.rarities, base.rarities, ctx.luck, u).Some? ==> r.Some?
  {
  }

  /** One base stat: min + u * (max - min), scaled by the rarity's power multiplier and
      the item-level multiplier, rounded to one decimal. */
  function StatValue(r: StatRange, u: real, powerMult: real, ilvl: int): real
  {
    RoundTenth((r.low + u * (r.high - r.low)) * powerMult * IlvlMult(ilvl))
  }

  /** For a draw in [0, 1) and a non-negative scale, a stat lies within 0.05 of its range
      scaled by the power and item-level multipliers. */
  lemma StatValueInRange(r: StatRange, u: real, powerMult: real, ilvl: int)
    requires r.low <= r.high && 0.0 <= u < 1.0 && powerMult * IlvlMult(ilvl) >= 0.0
    ensures var m := powerMult * IlvlMult(ilvl);
            r.low * m - 0.05 < StatValue(r, u, powerMult, ilvl) <= r.high * m + 0.05
  {
    var x := r.low + u * (r.high - r.low);
    ScaleWithin(r.low, r.high, u);
    assert r.low <= r.low + u * (r.high - r.low) <= r.high;
    RoundScaled(x, r.low, r.high, powerMult, IlvlMult(ilvl));
  }

  /** Rounding x * p * q to one decimal, for x in [low, high] and p * q >= 0, stays within
      0.05 of [low * p * q, high * p * q]. */
  lemma RoundScaled(x: real, low: real, high: real, p: real, q: real)
    requires low <= x <= high && p * q >= 0.0
    ensures low * (p * q) - 0.05 < RoundTenth(x * p * q) <= high * (p * q) + 0.05
  {
    var m := p * q;
    assert x * p * q == x * m;
    var below, above := x - low, high - x;
    assert below * m >= 0.0 && above * m >= 0.0;
    assert x * m == low * m + below * m && high * m == x * m + above * m;
  }

  /** The base stats rolled from the draws starting at `start`: one draw per range, in
      order, a later entry for the same stat overwriting an earlier one. */
  function StatsFrom(ranges: seq<StatRange>, powerMult: real, ilvl: int, stream: nat -> real, start: nat): map<string, real>
  {
    if ranges == [] then map[]
    else
      var n := |ranges| - 1;
      StatsFrom(ranges[..n], powerMult, ilvl, stream, start)[ranges[n].stat := StatValue(ranges[n], stream(start + n), powerMult, ilvl)]
  }

  /** Every rolled stat is one the catalog entry lists and every listed stat is rolled,
      each value rounded to one decimal. */
  lemma {:induction false} StatsFromShape(ranges: seq<StatRange>, powerMult: real, ilvl: int, stream: nat -> real, start: nat)
    ensures forall k :: k in StatsFrom(ranges, powerMult, ilvl, stream, start) <==> exists i :: 0 <= i < |ranges| && ranges[i].stat == k
    ensures forall k :: k in StatsFrom(ranges, powerMult, ilvl, stream, start) ==>
              (StatsFrom(ranges, powerMult, ilvl, stream, start)[k] * 10.0).Floor as real == StatsFrom(ranges, powerMult, ilvl, stream, start)[k] * 10.0
  {
    if ranges != [] {
      var n := |ranges| - 1;
      StatsFromShape(ranges[..n], powerMult, ilvl, stream, start);
      forall k | exists i :: 0 <= i < |ranges| && ranges[i].stat == k
        ensures k in StatsFrom(ranges, powerMult, ilvl, stream, start)
      {
        var i :| 0 <= i < |ranges| && ranges[i].stat == k;
        if i < n {
          assert ranges[..n][i] == ranges[i];
        }
      }
      forall k | k in StatsFrom(ranges[..n], powerMult, ilvl, stream, start)
        ensures exists i :: 0 <= i < |ranges| && ranges[i].stat == k
      {
        var i :| 0 <= i < n && ranges[..n][i].stat == k;
        assert ranges[i] == ranges[..n][i];
      }
    }
  }

  /** The base-stat loop of generate. */
  method RollStats(ranges: seq<StatRange>, powerMult: real, ilvl: int, rng: RandomSource) returns (stats: map<string, real>)
    requires rng.Valid()
    modifies rng
    ensures rng.Valid() && rng.used == old(rng.used) + |ranges|
    ensures stats == StatsFrom(ranges, powerMult, ilvl, rng.stream, old(rng.used))
  {
    stats := map[];
    var i := 0;
    while i < |ranges|
      invariant 0 <= i <= |ranges|
      invariant rng.Valid() && rng.used == old(rng.used) + i
      invariant stats == StatsFrom(ranges[..i], powerMult, ilvl, rng.stream, old(rng.used))
    {
      assert ranges[..i + 1][..i] == ranges[..i];
      var u := rng.Next();
      stats := stats[ranges[i].stat := StatValue(ranges[i], u, powerMult, ilvl)];
      i := i + 1;
    }
    assert ranges[..i] == ranges;
  }

  /** One applied affix: min + v * (max - min) rounded to one decimal, the slot's kind and
      the affix's tier or T5. */
  function Applied(a: Affix, kind: AffixKind, v: real): (x: AppliedAffix)
    ensures x.id == a.id && x.name == a.name && x.stat == a.stat && x.kind == kind
    ensures x.tier == (if a.tier != "" then a.tier else "T5")
  {
    AppliedAffix(a.id, a.name, a.stat, RoundTenth(a.low + v * (a.high - a.low)), kind, TierOr(a.tier))
  }

  /** An affix value stays within a twentieth of the affix's [min, max] range. */
  lemma AppliedValueInRange(a: Affix, kind: AffixKind, v: real)
    requires a.low <= a.high && 0.0 <= v < 1.0
    ensures a.low - 0.05 < Applied(a, kind, v).value <= a.high + 0.05
  {
    ScaleWithin(a.low, a.high, v);
  }

  /** min + v * (max - min) stays within [min, max] for a draw v in [0, 1). */
  lemma ScaleWithin(low: real, high: real, v: real)
    ensures low <= high && 0.0 <= v < 1.0 ==> low <= low + v * (high - low) <= high
  {
    if low <= high && 0.0 <= v < 1.0 {
      var d := high - low;
      var w := 1.0 - v;
      assert d >= 0.0 && w > 0.0 && v >= 0.0;
      assert v * d >= 0.0;
      assert w * d >= 0.0;
      assert v * d == d - w * d;
    }
  }

  /** The affix one slot of the loop adds, reading draws from `start`: getRandomAffixByIlvl's
      pick (one draw only when it has candidates), kept when its stat is not yet used, its
      value from the next draw. */
  function SlotAffix(pools: Option<AffixPools>, fallback: Option<Affix>, kind: AffixKind, ilvl: int,
                     usedStats: set<string>, stream: nat -> real, start: nat): Option<AppliedAffix>
  {
    var pick := AffixByIlvl(pools, fallback, kind, ilvl, stream(start));
    var next := start + (if DrawsRandom(pools, kind, ilvl) then 1 else 0);
    if pick.Some? && pick.value.stat !in usedStats then Some(Applied(pick.value, kind, stream(next))) else None
  }

  /** The draws one slot consumes. */
  function SlotDraws(pools: Option<AffixPools>, fallback: Option<Affix>, kind: AffixKind, ilvl: int,
                     usedStats: set<string>, stream: nat -> real, start: nat): nat
  {
    (if DrawsRandom(pools, kind, ilvl) then 1 else 0) +
    (if SlotAffix(pools, fallback, kind, ilvl, usedStats, stream, start).Some? then 1 else 0)
  }

  /** What the slot function promises: a kept affix has the slot's kind and a new stat, and
      with an affix table it comes from an eligible affix of the pool of that kind. */
  lemma SlotAffixFacts(pools: Option<AffixPools>, fallback: Option<Affix>, kind: AffixKind, ilvl: int,
                       usedStats: set<string>, stream: nat -> real, start: nat)
    ensures var x := SlotAffix(pools, fallback, kind, ilvl, usedStats, stream, start);
            x.Some? ==> x.value.kind == kind && x.value.stat !in usedStats &&
                        (pools.Some? ==> FromPool(pools.value, x.value, ilvl))
  {
    var pick := AffixByIlvl(pools, fallback, kind, ilvl, stream(start));
    var x := SlotAffix(pools, fallback, kind, ilvl, usedStats, stream, start);
    if x.Some? && pools.Some? {
      var cats := Pool(pools.value, kind).value;
      CandidatesExact(cats, ilvl, pick.value);
      assert AppliedFrom(pick.value, x.value);
    }
  }

  /** One iteration of the affix loop. */
  method RollAffixSlot(pools: Option<AffixPools>, fallback: Option<Affix>, kind: AffixKind, ilvl: int,
                       usedStats: set<string>, rng: RandomSource) returns (x: Option<AppliedAffix>)
    requires rng.Valid()
    modifies rng
    ensures rng.Valid()
    ensures x == SlotAffix(pools, fallback, kind, ilvl, usedStats, rng.stream, old(rng.used))
    ensures rng.used == old(rng.used) + SlotDraws(pools, fallback, kind, ilvl, usedStats, rng.stream, old(rng.used))
  {
    var affix, drew := GetRandomAffixByIlvl(pools, fallback, kind, ilvl, rng.Peek());
    if drew {
      var _ := rng.Next();
    }
    x := None;
    if affix.Some? && affix.value.stat !in usedStats {
      var v := rng.Next();
      x := Some(Applied(affix.value, kind, v));
    }
  }

  /** The state of the affix loop: the applied affixes, the used stats and the next unread draw. */
  datatype AffixLoopState = AffixLoopState(applied: seq<AppliedAffix>, usedStats: set<string>, next: nat)

  /** The number of slots the loop runs for a rolled count n. */
  function SlotCount(n: int): nat
  {
    if n > 0 then n else 0
  }

  /** Slot i of n of the affix loop applied to state s. */
  function LoopStep(pools: Option<AffixPools>, external: (AffixKind, nat) -> Option<Affix>, n: int, ilvl: int,
                    stream: nat -> real, s: AffixLoopState, i: nat): AffixLoopState
  {
    var kind := SlotKind(i, n);
    var x := SlotAffix(pools, external(kind, i), kind, ilvl, s.usedStats, stream, s.next);
    AffixLoopState(if x.Some? then s.applied + [x.value] else s.applied,
                   if x.Some? then s.usedStats + {x.value.stat} else s.usedStats,
                   s.next + SlotDraws(pools, external(kind, i), kind, ilvl, s.usedStats, stream, s.next))
  }

  /** The affix loop's state after its first i slots of n, reading draws from `start`;
      `external(kind, i)` is the data loader's answer for slot i. */
  function AffixLoop(pools: Option<AffixPools>, external: (AffixKind, nat) -> Option<Affix>, n: int, ilvl: int,
                     stream: nat -> real, start: nat, i: nat): AffixLoopState
  {
    if i == 0 then AffixLoopState([], {}, start)
    else LoopStep(pools, external, n, ilvl, stream, AffixLoop(pools, external, n, ilvl, stream, start, i - 1), i - 1)
  }

  /** One slot keeps the loop invariant. */
  lemma LoopStepKeepsInvariant(pools: Option<AffixPools>, external: (AffixKind, nat) -> Option<Affix>, n: int,
                               ilvl: int, stream: nat -> real, s: AffixLoopState, i: nat)
    requires LoopInvariant(pools, ilvl, s.applied, s.usedStats, i, n)
    ensures var t := LoopStep(pools, external, n, ilvl, stream, s, i);
            LoopInvariant(pools, ilvl, t.applied, t.usedStats, i + 1, n)
  {
    var kind := SlotKind(i, n);
    SlotAffixFacts(pools, external(kind, i), kind, ilvl, s.usedStats, stream, s.next);
    var x := SlotAffix(pools, external(kind, i), kind, ilvl, s.usedStats, stream, s.next);
    AffixLoopStep(s.applied, s.usedStats, i, n, x);
    if x.Some? {
      assert forall y :: y in s.applied + [x.value] ==> y in s.applied || y == x.value;
    }
  }

  /** Slot i of the loop keeps the loop invariant of its first i slots. */
  lemma AffixLoopNextSlot(pools: Option<AffixPools>, external: (AffixKind, nat) -> Option<Affix>,
                          n: int, ilvl: int, stream: nat -> real, start: nat, i: nat)
    requires var s := AffixLoop(pools, external, n, ilvl, stream, start, i);
             LoopInvariant(pools, ilvl, s.applied, s.usedStats, i, n)
    ensures var t := AffixLoop(pools, external, n, ilvl, stream, start, i + 1);
            LoopInvariant(pools, ilvl, t.applied, t.usedStats, i + 1, n)
  {
    LoopStepKeepsInvariant(pools, external, n, ilvl, stream, AffixLoop(pools, external, n, ilvl, stream, start, i), i);
  }

  /** After i slots the loop has applied at most i affixes, no two with the same stat, every
      prefix ahead of every suffix, each from an eligible affix of its pool. */
  lemma {:induction false} AffixLoopKeepsShape(pools: Option<AffixPools>, external: (AffixKind, nat) -> Option<Affix>,
                                               n: int, ilvl: int, stream: nat -> real, start: nat, i: nat)
    ensures var s := AffixLoop(pools, external, n, ilvl, stream, start, i);
            LoopInvariant(pools, ilvl, s.applied, s.usedStats, i, n)
  {
    if i > 0 {
      AffixLoopKeepsShape(pools, external, n, ilvl, stream, start, i - 1);
      AffixLoopNextSlot(pools, external, n, ilvl, stream, start, i - 1);
    }
  }

  /** The affixes of an item whose count roll is the draw at `pos`, the slots reading from
      the next draw on. */
  function ItemAffixes(pools: Option<AffixPools>, external: (AffixKind, nat) -> Option<Affix>, maxAffixes: int,
                       ilvl: int, stream: nat -> real, pos: nat): AffixLoopState
  {
    var n := NumAffixes(maxAffixes, stream(pos));
    AffixLoop(pools, external, n, ilvl, stream, pos + 1, SlotCount(n))
  }

  /** One pass of the affix loop's body: slot i of n, adding the kept affix and its stat. */
  method RollAffixIteration(pools: Option<AffixPools>, external: (AffixKind, nat) -> Option<Affix>, n: int, ilvl: int,
                            i: nat, applied0: seq<AppliedAffix>, usedStats0: set<string>, rng: RandomSource)
    returns (applied: seq<AppliedAffix>, usedStats: set<string>)
    requires rng.Valid()
    modifies rng
    ensures rng.Valid() && rng.used >= old(rng.used)
    ensures AffixLoopState(applied, usedStats, rng.used) ==
            LoopStep(pools, external, n, ilvl, rng.stream, AffixLoopState(applied0, usedStats0, old(rng.used)), i)
  {
    var kind := SlotKind(i, n);
    var x := RollAffixSlot(pools, external(kind, i), kind, ilvl, usedStats0, rng);
    applied, usedStats := applied0, usedStats0;
    if x.Some? {
      usedStats := usedStats + {x.value.stat};
      applied := applied + [x.value];
    }
  }

  /** The affix loop of generate: the count roll takes the first draw, then each of the
      rolled number of slots runs one iteration. */
  method RollAffixes(pools: Option<AffixPools>, external: (AffixKind, nat) -> Option<Affix>,
                     maxAffixes: int, ilvl: int, rng: RandomSource)
    returns (applied: seq<AppliedAffix>)
    requires rng.Valid()
    modifies rng
    ensures rng.Valid() && rng.used > old(rng.used)
    ensures applied == ItemAffixes(pools, external, maxAffixes, ilvl, rng.stream, old(rng.used)).applied
    ensures rng.used == ItemAffixes(pools, external, maxAffixes, ilvl, rng.stream, old(rng.used)).next
  {
    var u0 := rng.Next();
    var n := Roll(u0, (maxAffixes + 1) as real).Floor;
    applied := RunAffixSlots(pools, external, n, ilvl, rng);
  }

  /** The `for` loop over the rolled count n of slots. */
  method RunAffixSlots(pools: Option<AffixPools>, external: (AffixKind, nat) -> Option<Affix>,
                       n: int, ilvl: int, rng: RandomSource)
    returns (applied: seq<AppliedAffix>)
    requires rng.Valid()
    modifies rng
    ensures rng.Valid() && rng.used >= old(rng.used)
    ensures applied == AffixLoop(pools, external, n, ilvl, rng.stream, old(rng.used), SlotCount(n)).applied
    ensures rng.used == AffixLoop(pools, external, n, ilvl, rng.stream, old(rng.used), SlotCount(n)).next
  {
    ghost var start := rng.used;
    applied := [];
    var usedStats: set<string> := {};
    var i := 0;
    while i < n
      invariant 0 <= i <= SlotCount(n)
      invariant rng.Valid() && rng.used >= start
      invariant AffixLoopState(applied, usedStats, rng.used) == AffixLoop(pools, external, n, ilvl, rng.stream, start, i)
    {
      applied, usedStats := RollAffixIteration(pools, external, n, ilvl, i, applied, usedStats, rng);
      i := i + 1;
    }
  }

  /** What a generated item is, given the game data, the settled rarity, the item level and
      the draws: the stats read from `start`, the affix count from `pos` (right after the
      stat draws), and `end` is the first draw left unread. */
  ghost predicate WellFormedItem(item: Item, pools: Option<AffixPools>, external: (AffixKind, nat) -> Option<Affix>,
                                 base: BaseItem, baseId: string, id: string, r: Rarity, row: RarityData, ilvl: int,
                                 metaLevel: int, stream: nat -> real, start: nat, pos: nat, end: nat)
  {
    pos == start + |base.stats| &&
    item.id == id && item.baseId == baseId && item.slot == base.slot && item.icon == base.icon &&
    item.description == base.description && item.rarity == r && item.level == metaLevel &&
    item.ilvl == ilvl &&
    item.stats == StatsFrom(base.stats, row.powerMult, ilvl, stream, start) &&
    item.affixes == ItemAffixes(pools, external, row.maxAffixes, ilvl, stream, pos).applied &&
    end == ItemAffixes(pools, external, row.maxAffixes, ilvl, stream, pos).next &&
    item.name == BuildName(base.name, item.affixes) &&
    item.value == SellValue(row.sellMult, ilvl) &&
    item.tags == (if base.tags.Some? then base.tags.value else [])
  }

  /** A generated item has at most maxAffixes affixes, no two with the same stat, its
      prefixes ahead of its suffixes and, with an affix table, each from an eligible affix of
      the pool of its kind. */
  lemma WellFormedItemAffixes(item: Item, pools: Option<AffixPools>, external: (AffixKind, nat) -> Option<Affix>,
                              base: BaseItem, baseId: string, id: string, r: Rarity, row: RarityData, ilvl: int,
                              metaLevel: int, stream: nat -> real, start: nat, pos: nat, end: nat)
    requires forall k :: 0.0 <= stream(k) < 1.0
    requires WellFormedItem(item, pools, external, base, baseId, id, r, row, ilvl, metaLevel, stream, start, pos, end)
    ensures row.maxAffixes >= 0 ==> |item.affixes| <= row.maxAffixes
    ensures DistinctStats(item.affixes) && PrefixesFirst(item.affixes)
    ensures pools.Some? ==> forall x :: x in item.affixes ==> FromPool(pools.value, x, ilvl)
  {
    var n := NumAffixes(row.maxAffixes, stream(pos));
    AffixLoopKeepsShape(pools, external, n, ilvl, stream, pos + 1, SlotCount(n));
    var s := AffixLoop(pools, external, n, ilvl, stream, pos + 1, SlotCount(n));
    assert item.affixes == s.applied;
    AffixCountWithinMax(row.maxAffixes, stream(pos), n, |s.applied|);
  }

  /** The rarity steps of generate: the forced rarity, else the pity rarity, else a roll
      (one draw); then the depth floor and the caller's floor lift an unforced rarity. */
  method ResolveRarity(data: GameData, ctx: RunContext, c: PityCounters, base: BaseItem,
                       forced: Option<Rarity>, callerFloor: Option<Rarity>, rng: RandomSource)
    returns (rarity: Option<Rarity>)
    requires rng.Valid()
    modifies rng
    ensures rng.Valid() && rng.used == old(rng.used) + (if Rolls(data, c, forced) then 1 else 0)
    ensures rarity == SettledRarity(data, ctx, c, base, forced, callerFloor, rng.stream(old(rng.used)))
  {
    var pity := CheckPity(data.pity, c);
    if forced.Some? {
      rarity := forced;
    } else if pity.Some? {
      rarity := pity;
    } else {
      var u := rng.Next();
      rarity := RollRarity(data.rarities, base.rarities, ctx.luck, u);
    }
    var depthFloor := GetDepthRarityFloor(data.floor, ctx.depth);
    var rarityFloor := callerFloor;
    if depthFloor.Some? {
      rarityFloor := HigherRarity(rarityFloor, depthFloor);
    }
    if forced.None? && rarityFloor.Some? {
      if RankOf(rarity) < Rank(rarityFloor.value) {
        rarity := rarityFloor;
      }
    }
  }

  /** The rarity steps of generate followed by the pity update on the settled rarity. */
  method SettleRarity(data: GameData, ctx: RunContext, tracker: PityTracker, base: BaseItem,
                      forced: Option<Rarity>, callerFloor: Option<Rarity>, rng: RandomSource)
    returns (rarity: Option<Rarity>)
    requires rng.Valid()
    modifies tracker, rng
    ensures rng.Valid() && rng.used == old(rng.used) + (if Rolls(data, old(tracker.Counters()), forced) then 1 else 0)
    ensures rarity == SettledRarity(data, ctx, old(tracker.Counters()), base, forced, callerFloor, rng.stream(old(rng.used)))
    ensures tracker.Counters() == AfterDrop(old(tracker.Counters()), rarity)
  {
    var c0 := tracker.Counters();
    rarity := ResolveRarity(data, ctx, c0, base, forced, callerFloor, rng);
    tracker.UpdatePity(rarity);
  }

  /** The item generate builds once its rarity has a row in the rarity table: generateId's
      draw, the base stats, the affixes, the display name and the sell value. */
  method RollItem(data: GameData, base: BaseItem, baseId: string, id: string, r: Rarity, ilvl: int,
                  metaLevel: int, external: (AffixKind, nat) -> Option<Affix>, rng: RandomSource)
    returns (item: Item, ghost pos: nat)
    requires data.rarities.Some? && r in data.rarities.value
    requires rng.Valid()
    modifies rng
    ensures rng.Valid() && rng.used > old(rng.used)
    ensures WellFormedItem(item, data.affixes, external, base, baseId, id, r, data.rarities.value[r], ilvl, metaLevel,
                           rng.stream, old(rng.used) + 1, pos, rng.used)
  {
    var row := data.rarities.value[r];
    // the draw generateId makes
    var _ := rng.Next();
    var stats := RollStats(base.stats, row.powerMult, ilvl, rng);
    pos := rng.used;
    var affixes := RollAffixes(data.affixes, external, row.maxAffixes, ilvl, rng);
    var tags := if base.tags.Some? then base.tags.value else [];
    item := Item(id, baseId, BuildName(base.name, affixes), base.slot, base.icon, base.description,
                 r, metaLevel, ilvl, stats, affixes, SellValue(row.sellMult, ilvl), tags);
  }
}
