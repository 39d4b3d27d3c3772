/**
 * The entry point of runtime/Items.js, `generate`: look up the base item, settle the
 * rarity (updating pity), then roll the item.
 */
module Drop {
  import opened Wrappers
  import opened Rarities
  import opened Pity
  import opened Affixes
  import opened Generator

  /** generate once the catalog entry and the rarity table are known. The ghost results name
      the settled rarity and the stream position where the stat draws start. */
  method GenerateFound(data: GameData, ctx: RunContext, tracker: PityTracker, rng: RandomSource,
                       external: (AffixKind, nat) -> Option<Affix>, base: BaseItem,
                       baseId: string, forced: Option<Rarity>, callerFloor: Option<Rarity>, itemLevel: int, id: string)
    returns (out: Outcome, ghost settled: Option<Rarity>, ghost start: nat, ghost pos: nat)
    requires rng.Valid() && data.rarities.Some?
    modifies tracker, rng
    ensures rng.Valid() && rng.used >= old(rng.used)
    ensures settled == SettledRarity(data, ctx, old(tracker.Counters()), base, forced, callerFloor, rng.stream(old(rng.used)))
    ensures tracker.Counters() == AfterDrop(old(tracker.Counters()), settled)
    ensures start == old(rng.used) + (if Rolls(data, old(tracker.Counters()), forced) then 1 else 0) + 1
    ensures out != NoItem
    ensures out.Crash? <==> settled.None? || settled.value !in data.rarities.value
    ensures out.Crash? ==> rng.used == start + 1
    ensures out.Generated? ==>
              WellFormedItem(out.item, data.affixes, external, base, baseId, id, settled.value,
                             data.rarities.value[settled.value], ItemLevelFor(data, ctx, itemLevel), ctx.metaLevel,
                             rng.stream, start, pos, rng.used)
  {
    var rarity := SettleRarity(data, ctx, tracker, base, forced, callerFloor, rng);
    settled, start, pos := rarity, rng.used + 1, rng.used + 1;
    if rarity.None? || rarity.value !in data.rarities.value {
      // generateId's draw, then the first stat draw (or the affix-count draw when the entry
      // has no stats) before the missing row is read
      var _ := rng.Next();
      var _ := rng.Next();
      out := Crash;
      return;
    }
    var ilvl := ItemLevelFor(data, ctx, itemLevel);
    var item;
    item, pos := RollItem(data, base, baseId, id, rarity.value, ilvl, ctx.metaLevel, external, rng);
    out := Generated(item);
  }

  /** Items.generate. `id` is the identifier generateId builds from the clock and one draw;
      `itemLevel` 0 means none was given. */
  method Generate(data: GameData, ctx: RunContext, tracker: PityTracker, rng: RandomSource,
                  external: (AffixKind, nat) -> Option<Affix>,
                  baseId: string, forced: Option<Rarity>, callerFloor: Option<Rarity>, itemLevel: int, id: string)
    returns (out: Outcome, ghost settled: Option<Rarity>, ghost start: nat, ghost pos: nat)
    requires rng.Valid()
    modifies tracker, rng
    ensures rng.Valid() && rng.used >= old(rng.used)
    ensures baseId !in data.catalog || data.rarities.None? ==>
              out == NoItem && tracker.Counters() == old(tracker.Counters()) && rng.used == old(rng.used)
    ensures baseId in data.catalog && data.rarities.Some? ==>
              settled == SettledRarity(data, ctx, old(tracker.Counters()), data.catalog[baseId], forced, callerFloor,
                                       rng.stream(old(rng.used))) &&
              tracker.Counters() == AfterDrop(old(tracker.Counters()), settled) &&
              start == old(rng.used) + (if Rolls(data, old(tracker.Counters()), forced) then 1 else 0) + 1 &&
              out != NoItem &&
              (out.Crash? <==> settled.None? || settled.value !in data.rarities.value) &&
              (out.Crash? ==> rng.used == start + 1) &&
              (out.Generated? ==>
                 WellFormedItem(out.item, data.affixes, external, data.catalog[baseId], baseId, id, settled.value,
                                data.rarities.value[settled.value], ItemLevelFor(data, ctx, itemLevel), ctx.metaLevel,
                                rng.stream, start, pos, rng.used))
  {
    if baseId !in data.catalog || data.rarities.None? {
      return NoItem, None, rng.used, rng.used;
    }
    out, settled, start, pos := GenerateFound(data, ctx, tracker, rng, external, data.catalog[baseId], baseId, forced,
                                         callerFloor, itemLevel, id);
  }
}
