/**
 * Pity protection of runtime/Items.js: the module-level `pityCounters`, `checkPity`
 * (reads them) and `updatePity` (increments and resets them).
 */
module Pity {
  import opened Wrappers
  import opened Rarities

  /** config.loot.pity; a threshold of 0 stands for "not configured" (`|| default`). */
  datatype PityConfig = PityConfig(enabled: bool, rare: int, epic: int, legendary: int)

  /** The three counters as a value. */
  datatype PityCounters = PityCounters(sinceRare: nat, sinceEpic: nat, sinceLegendary: nat)

  function RareThreshold(cfg: PityConfig): int { if cfg.rare != 0 then cfg.rare else 15 }
  function EpicThreshold(cfg: PityConfig): int { if cfg.epic != 0 then cfg.epic else 100 }
  function LegendaryThreshold(cfg: PityConfig): int { if cfg.legendary != 0 then cfg.legendary else 500 }

  /** The tier t is one pity can grant and its counter has reached its threshold. */
  predicate Met(cfg: PityConfig, c: PityCounters, t: Rarity)
  {
    match t
    case Rare => c.sinceRare >= RareThreshold(cfg)
    case Epic => c.sinceEpic >= EpicThreshold(cfg)
    case Legendary => c.sinceLegendary >= LegendaryThreshold(cfg)
    case _ => false
  }

  /** checkPity: nothing when disabled, otherwise the highest-ranked tier whose counter
      has reached its threshold, or nothing when none has. */
  function CheckPity(cfg: PityConfig, c: PityCounters): (r: Option<Rarity>)
    ensures !cfg.enabled ==> r.None?
    ensures r.Some? <==> cfg.enabled && (Met(cfg, c, Rare) || Met(cfg, c, Epic) || Met(cfg, c, Legendary))
    ensures r.Some? ==> Met(cfg, c, r.value)
    ensures r.Some? ==> forall t :: Met(cfg, c, t) ==> Rank(t) <= Rank(r.value)
  {
    if !cfg.enabled then None
    else if c.sinceLegendary >= LegendaryThreshold(cfg) then Some(Legendary)
    else if c.sinceEpic >= EpicThreshold(cfg) then Some(Epic)
    else if c.sinceRare >= RareThreshold(cfg) then Some(Rare)
    else None
  }

  /** The counters after a drop of rarity r (absent or unknown names rank 0). */
  function AfterDrop(c: PityCounters, r: Option<Rarity>): (n: PityCounters)
    ensures n.sinceRare == 0 <==> RankOf(r) >= 2
    ensures n.sinceEpic == 0 <==> RankOf(r) >= 3
    ensures n.sinceLegendary == 0 <==> RankOf(r) >= 4
    ensures n.sinceRare != 0 ==> n.sinceRare == c.sinceRare + 1
    ensures n.sinceEpic != 0 ==> n.sinceEpic == c.sinceEpic + 1
    ensures n.sinceLegendary != 0 ==> n.sinceLegendary == c.sinceLegendary + 1
  {
    var k := RankOf(r);
    PityCounters(
      if k >= 2 then 0 else c.sinceRare + 1,
      if k >= 3 then 0 else c.sinceEpic + 1,
      if k >= 4 then 0 else c.sinceLegendary + 1)
  }

  /** Every counter is at most its threshold. */
  predicate WithinThresholds(cfg: PityConfig, c: PityCounters)
  {
    c.sinceRare <= RareThreshold(cfg) && c.sinceEpic <= EpicThreshold(cfg) &&
    c.sinceLegendary <= LegendaryThreshold(cfg)
  }

  /** When pity is enabled and the drop is at least as rare as the tier pity granted,
      no counter ever climbs past its threshold: a counter that reached it forced a
      drop that reset it. */
  lemma PityKeepsCountersWithinThresholds(cfg: PityConfig, c: PityCounters, r: Option<Rarity>)
    requires cfg.enabled && WithinThresholds(cfg, c)
    requires CheckPity(cfg, c).Some? ==> RankOf(r) >= Rank(CheckPity(cfg, c).value)
    ensures WithinThresholds(cfg, AfterDrop(c, r))
  {
    var p := CheckPity(cfg, c);
    if p.None? {
      assert !Met(cfg, c, Rare) && !Met(cfg, c, Epic) && !Met(cfg, c, Legendary);
    } else {
      assert !Met(cfg, c, Legendary) ==> Rank(p.value) <= 3;
      assert !Met(cfg, c, Legendary) && !Met(cfg, c, Epic) ==> Rank(p.value) <= 2;
    }
  }

  /** After a legendary-or-better drop all three counters are zero. */
  lemma LegendaryResetsAll(c: PityCounters, r: Rarity)
    requires Rank(r) >= 4
    ensures AfterDrop(c, Some(r)) == PityCounters(0, 0, 0)
  {
  }

  /** The module-level pityCounters object. */
  class PityTracker {
    var sinceRare: nat
    var sinceEpic: nat
    var sinceLegendary: nat

    /** All counters start at zero. */
    constructor ()
      ensures Counters() == PityCounters(0, 0, 0)
    {
      sinceRare, sinceEpic, sinceLegendary := 0, 0, 0;
    }

    function Counters(): PityCounters
      reads this
    {
      PityCounters(sinceRare, sinceEpic, sinceLegendary)
    }

    /** updatePity: increment all three counters, then reset by the drop's rank. */
    method UpdatePity(r: Option<Rarity>)
      modifies this
      ensures Counters() == AfterDrop(old(Counters()), r)
    {
      var rank := RankOf(r);
      sinceRare := sinceRare + 1;
      sinceEpic := sinceEpic + 1;
      sinceLegendary := sinceLegendary + 1;
      if rank >= 2 { sinceRare := 0; }
      if rank >= 3 { sinceEpic := 0; }
      if rank >= 4 { sinceLegendary := 0; }
    }
  }
}
