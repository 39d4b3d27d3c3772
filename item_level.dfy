/**
 * calculateItemLevel of runtime/Items.js. Configuration values follow JavaScript's
 * `x || default`: an absent value and a zero value both give the default, so absence
 * is written as 0 here.
 */
module ItemLevel {

  /** config.itemLevel; an absent section behaves like enabled == false. */
  datatype ItemLevelConfig = ItemLevelConfig(
    enabled: bool,
    baseByAct: map<string, int>,
    perDepthBonus: real,
    perZoneBonus: real)

  /** baseByAct[actId] || 11 */
  function BaseForAct(cfg: ItemLevelConfig, actId: string): int
  {
    if actId in cfg.baseByAct && cfg.baseByAct[actId] != 0 then cfg.baseByAct[actId] else 11
  }

  /** perDepthBonus || 0.4 */
  function PerDepth(cfg: ItemLevelConfig): real
  {
    if cfg.perDepthBonus != 0.0 then cfg.perDepthBonus else 0.4
  }

  /** perZoneBonus || 0.5 */
  function PerZone(cfg: ItemLevelConfig): real
  {
    if cfg.perZoneBonus != 0.0 then cfg.perZoneBonus else 0.5
  }

  /** The sum before the floor of 1 is applied. */
  function RawLevel(cfg: ItemLevelConfig, depth: int, zoneIndex: int, actId: string): int
  {
    BaseForAct(cfg, actId) + (depth as real * PerDepth(cfg)).Floor + (zoneIndex as real * PerZone(cfg)).Floor
  }

  /** Item level: with scaling enabled, the raw level clamped below at 1; otherwise the
      player's meta level, or 1 when that is absent. */
  function CalculateItemLevel(cfg: ItemLevelConfig, metaLevel: int, depth: int, zoneIndex: int, actId: string): (ilvl: int)
    ensures cfg.enabled ==> ilvl >= 1 && ilvl >= RawLevel(cfg, depth, zoneIndex, actId)
    ensures cfg.enabled && RawLevel(cfg, depth, zoneIndex, actId) >= 1 ==> ilvl == RawLevel(cfg, depth, zoneIndex, actId)
    ensures cfg.enabled && RawLevel(cfg, depth, zoneIndex, actId) < 1 ==> ilvl == 1
    ensures !cfg.enabled ==> ilvl == (if metaLevel != 0 then metaLevel else 1)
  {
    if !cfg.enabled then
      (if metaLevel != 0 then metaLevel else 1)
    else
      var raw := RawLevel(cfg, depth, zoneIndex, actId);
      if 1 >= raw then 1 else raw
  }

  lemma FloorMonotone(x: real, y: real)
    requires x <= y
    ensures x.Floor <= y.Floor
  {
  }

  lemma ScaledFloorMonotone(a: int, b: int, p: real)
    requires a <= b && p >= 0.0
    ensures (a as real * p).Floor <= (b as real * p).Floor
  {
    assert (b as real - a as real) * p >= 0.0;
    FloorMonotone(a as real * p, b as real * p);
  }

  /** With a non-negative per-depth bonus, going deeper never lowers the item level. */
  lemma ItemLevelMonotoneInDepth(cfg: ItemLevelConfig, metaLevel: int, d1: int, d2: int, zoneIndex: int, actId: string)
    requires d1 <= d2 && PerDepth(cfg) >= 0.0
    ensures CalculateItemLevel(cfg, metaLevel, d1, zoneIndex, actId) <= CalculateItemLevel(cfg, metaLevel, d2, zoneIndex, actId)
  {
    ScaledFloorMonotone(d1, d2, PerDepth(cfg));
  }

  /** With a non-negative per-zone bonus, a later zone never lowers the item level. */
  lemma ItemLevelMonotoneInZone(cfg: ItemLevelConfig, metaLevel: int, depth: int, z1: int, z2: int, actId: string)
    requires z1 <= z2 && PerZone(cfg) >= 0.0
    ensures CalculateItemLevel(cfg, metaLevel, depth, z1, actId) <= CalculateItemLevel(cfg, metaLevel, depth, z2, actId)
  {
    ScaledFloorMonotone(z1, z2, PerZone(cfg));
  }

  /** Default bonuses and an unconfigured act: depth 5, zone 2 give 11 + 2 + 1 = 14. */
  lemma ItemLevelExample()
    ensures CalculateItemLevel(ItemLevelConfig(true, map[], 0.0, 0.0), 1, 5, 2, "act1") == 14
  {
    assert (5 as real * 0.4).Floor == 2;
    assert (2 as real * 0.5).Floor == 1;
  }
}
