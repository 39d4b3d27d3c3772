# Loot engine of runtime/Items.js, in Dafny

This project models the item and loot engine of a browser roguelite shooter: the `Items`
object of `runtime/Items.js` and its module-level `pityCounters`. It covers:

- the item-level formula (`calculateItemLevel`);
- how a drop's rarity is settled: forced rarity, then the pity override (`checkPity`), then a
  luck-weighted roll (`rollRarity`), then the higher of the caller's floor and the depth floor
  (`getDepthRarityFloor`, `higherRarity`);
- the pity counters and their update after every generated item (`updatePity`);
- affix selection gated by item level (`getRandomAffixByIlvl`), the affix loop with no
  repeated stat and prefixes before suffixes, the display name (`buildName`) and the sell value;
- `generate` as a whole, with `Math.random()` read from a fixed stream of draws;
- the inventory operations on the stash, the equipment map and the scrap balance
  (`addToStash`, `removeFromStash`, `equip`, `unequip`, `sell`), and the stat comparison
  (`compare`).

Files and modules:

| file | module | what |
|---|---|---|
| `wrappers.dfy` | `Wrappers` | `Option` (JavaScript `null`/absent vs a value) |
| `rarities.dfy` | `Rarities` | rarity names, the rank table, rarity table rows, `higherRarity` |
| `weighted.dfy` | `Weighted` | the weighted walk shared by `rollRarity` and `getRandomAffixByIlvl` |
| `item_level.dfy` | `ItemLevel` | `calculateItemLevel` |
| `pity.dfy` | `Pity` | `checkPity`, `updatePity`, the `PityTracker` class holding `pityCounters` |
| `rarity_resolution.dfy` | `RarityResolution` | depth floor, `rollRarity`, the rarity steps of `generate` |
| `affixes.dfy` | `Affixes` | affix pools, candidate collection, the affix pick, `buildName` |
| `applied_affixes.dfy` | `AppliedAffixes` | the origin of an applied affix and the shape the affix loop keeps |
| `generator.dfy` | `Generator` | the random source, stats, affix loop, sell value, the steps of `generate` |
| `drop.dfy` | `Drop` | `generate` itself |
| `inventory.dfy` | `Inventory` | the `Inventory` class and the `compare` specification |

Modelling choices:

- JavaScript numbers that carry fractions are Dafny `real`, computed exactly. Item levels,
  counters, scrap and sell values are `int`.
- `x || d` is modelled with its JavaScript meaning: `0`, `""`, `false` and an absent value all
  give the default `d`. A configured threshold of 0 therefore means the default threshold.
- Rarities are a datatype with the six ranked names and `Named(s)` for any other string.
  `Named` ranks 0, like an unknown key of the rank table. `null` and the empty string are `None`.
- `Math.random()` is a `RandomSource` object. It holds a constant stream of draws in [0, 1)
  and the count of draws used. The pick functions take their draw `u` as a parameter.
- `State` becomes explicit values. The catalog (`getItemData`) is a map. The game
  configuration is the `GameData` datatype, and the run values are `RunContext`. The pity
  counters live in a `PityTracker` object. The stash, equipment, scrap and `itemsFound` live
  in an `Inventory` object.
- A JavaScript object iterated with `Object.entries` becomes a sequence of its entries in
  enumeration order. The depth thresholds are `(key, rarity)` pairs with integer keys in
  ascending order.
- `generate` either returns `null` (`NoItem`), or throws when the settled rarity has no row
  in the rarity table (`Crash`), or yields the item. The throw comes from reading
  `rarityData.powerMult` of `undefined` in the first stat roll, or `rarityData.maxAffixes`
  when the entry has no stats. By then `generateId` and that roll have each used one draw.

Behaviour of the code that the model keeps:

- The floors apply after the pity override, so a mythic floor lifts a pity legendary to
  mythic. `PityOverrideDelivers` states the drop is the pity tier or something rarer.
- A floor bounds only unforced drops. A forced rarity is kept below any floor.
- A module item whose three module slots are all taken is written under its own `slot` key.

## Model

| member | source | states |
|---|---|---|
| Rarities.Rank | runtime/Items.js:70-72 | rank is at most 5 (mythic) and is 0 exactly for common and for names outside the rank table |
| Rarities.HigherRarity | runtime/Items.js:235-240 | a missing first argument yields the second and a missing second yields the first; the result is one of the two and ranks at least as high as both; a tie returns the first |
| Weighted.WalkFirstCrossing | runtime/Items.js:168-173 | the subtract-until-at-most-zero walk stops at k exactly when k is the first position whose running weight sum reaches the roll |
| Weighted.WalkNone | runtime/Items.js:168-173 | the walk runs off the end exactly when every running sum stays below the roll |
| Weighted.PickIsFirstCrossing | runtime/Items.js:168-173 | the weighted pick is index k exactly when the sum up to k reaches the roll and no earlier sum does |
| Weighted.PickNoneIffBelowAll | runtime/Items.js:168-175 | the walk picks nothing (and the caller falls back) exactly when the roll exceeds every prefix sum |
| Weighted.PickWithinTotal | runtime/Items.js:166-173 | a roll no larger than the total of a nonempty weight list always picks an entry |
| Weighted.RollWithinTotal | runtime/Items.js:169 | `Math.random() * total` lies in [0, total] for a non-negative total (the same roll as line 267) |
| Weighted.PrefixSumMonotone | runtime/Items.js:166-167 | with non-negative weights the running sums never decrease |
| Weighted.PickIsInterval | runtime/Items.js:168-173 | with non-negative weights and a positive roll, entry k is picked exactly when the roll lies in (sum before k, sum through k] |
| Weighted.PickWeighted | runtime/Items.js:168-173 | the loop returns the first position whose running sum reaches the roll, or nothing when every sum stays below it |
| Weighted.PickExample | runtime/Items.js:168-173 | weights 10 and 90 with roll 95 pick the second entry |
| ItemLevel.CalculateItemLevel | runtime/Items.js:23-37 | when enabled, the level is base + floor(depth * perDepth) + floor(zone * perZone) when that is at least 1, and 1 otherwise; when disabled, the meta level, or 1 when it is absent |
| ItemLevel.ItemLevelMonotoneInDepth | runtime/Items.js:23-37 | with a non-negative per-depth bonus, going deeper never lowers the item level |
| ItemLevel.ItemLevelMonotoneInZone | runtime/Items.js:23-37 | with a non-negative per-zone bonus, a later zone never lowers the item level |
| ItemLevel.ItemLevelExample | runtime/Items.js:23-37 | defaults (base 11, 0.4, 0.5) at depth 5 and zone 2 give 14 |
| Pity.CheckPity | runtime/Items.js:179-197 | no override when disabled; an override exactly when some tier's counter reached its threshold (defaults 15, 100, 500); the override's threshold is met, and it is the highest tier whose threshold is met |
| Pity.AfterDrop | runtime/Items.js:200-213 | each counter is zero exactly when the drop ranks at least 2, 3, 4 respectively, and otherwise is its old value plus one; unknown rarities rank 0 |
| Pity.PityKeepsCountersWithinThresholds | runtime/Items.js:179-213 | with pity enabled, a drop at least as rare as the granted override keeps every counter at most its threshold |
| Pity.LegendaryResetsAll | runtime/Items.js:210-212 | after a legendary or mythic drop all three counters are 0 |
| Pity.PityTracker.constructor | runtime/Items.js:14-18 | the counters start at zero |
| Pity.PityTracker.UpdatePity | runtime/Items.js:200-213 | the counters become the after-drop counters of the old counters and the final rarity |
| RarityResolution.LastReachedIsLastKey | runtime/Items.js:223-231 | the depth floor is absent exactly when no key is at most the depth; otherwise it is the rarity of a reached key after which no key is reached |
| RarityResolution.GetDepthRarityFloor | runtime/Items.js:216-232 | the scan returns the last reached threshold's rarity; it returns one exactly when the floor is enabled and some key is at most the run depth (0 meaning 1) |
| RarityResolution.DepthFloorIsGreatestReachedKey | runtime/Items.js:223-229 | with ascending keys, the floor is the rarity of the greatest key not exceeding the depth |
| RarityResolution.DepthFloorMonotone | runtime/Items.js:223-229 | when the table's rarities do not fall along the keys, a deeper run never gets a lower floor |
| RarityResolution.EntriesCompleteAndDistinct | runtime/Items.js:253-264 | the weight object's keys are every allowed rarity found in the table, each once |
| RarityResolution.EntryWeights | runtime/Items.js:253-263 | the weight of each key is its table weight, times (1 + luck * 0.02) for every rarity but common |
| RarityResolution.FirstAllowed | runtime/Items.js:245 | `allowedRarities[0]`: present exactly for a nonempty list, and a member of it |
| RarityResolution.WalkOrFirst | runtime/Items.js:266-273 | the walk's rarity or the first allowed one; present when the list is nonempty, always an allowed rarity |
| RarityResolution.RolledRarity | runtime/Items.js:243-274 | a rolled rarity exists exactly when the allowed list is nonempty, and it is one of the allowed rarities |
| RarityResolution.BuildWeights | runtime/Items.js:249-264 | the loop builds the keys, their luck-scaled weights and the total (a repeated allowed rarity counted again in the total) |
| RarityResolution.RollRarity | runtime/Items.js:243-274 | rollRarity with draw u: the walk over the weights with roll u * total, falling back to the first allowed rarity; present exactly for a nonempty list and always allowed |
| RarityResolution.CombinedFloor | runtime/Items.js:63-67 | the caller's floor raised by the depth floor: one of the two, ranking at least as high as both |
| RarityResolution.FinalRarity | runtime/Items.js:60-75 | a forced rarity is kept; otherwise the pity rarity (else the rolled one) is kept exactly when it ranks at least the combined floor, and the combined floor replaces it when it ranks lower; so an unforced result ranks at least both floors and the pity tier |
| RarityResolution.PityOverrideDelivers | runtime/Items.js:57-78 | an unforced drop under a pity override is that tier or rarer, and the tier's counters are zero afterwards (all three for legendary) |
| RarityResolution.UnforcedDropsKeepPityBounded | runtime/Items.js:57-78 | unforced generations with pity enabled keep every counter at most its threshold |
| RarityResolution.ForcedCommonUnderEpicFloor | runtime/Items.js:69-75 | forcing common under an epic floor still yields common |
| Affixes.EligibleIn | runtime/Items.js:153-159 | the kept affixes come from the category and meet the item-level requirement |
| Affixes.EligibleInExact | runtime/Items.js:153-159 | an affix is kept from a category exactly when it is in it and its requirement (default 1) is at most the item level |
| Affixes.Candidates | runtime/Items.js:150-161 | every candidate meets the item-level requirement |
| Affixes.CandidatesExact | runtime/Items.js:150-161 | the candidates are exactly the affixes of the pool's array categories whose requirement the item level meets; other categories are skipped |
| Affixes.AffixWeights | runtime/Items.js:157-158 | one weight per candidate, its weight or 50 when unset |
| Affixes.PickAffix | runtime/Items.js:163-175 | null exactly for no candidates; otherwise a candidate (the walk's, else the last) |
| Affixes.CollectFromList | runtime/Items.js:153-160 | the inner loop appends a category's eligible affixes and their weights |
| Affixes.CollectCandidates | runtime/Items.js:150-161 | the nested loop yields exactly the candidates and their weights |
| Affixes.SumWeights | runtime/Items.js:166-167 | the loop's total is the sum of the weights |
| Affixes.GetRandomAffixByIlvl | runtime/Items.js:140-176 | the data loader's affix when no affix table is loaded; null for a missing pool; otherwise the weighted pick among the candidates, which meets the item level and comes from the pool; a draw is used exactly when there are candidates |
| Affixes.PickAffixNeedsNoFallback | runtime/Items.js:166-175 | with non-negative weights and a draw in [0, 1) the walk always stops on a candidate |
| Affixes.SumNonNegative | runtime/Items.js:166-167 | non-negative weights have a non-negative total |
| Affixes.FirstOfKind | runtime/Items.js:278-279 | the position of the first affix of a kind, or the length when there is none |
| Affixes.PrefixPart | runtime/Items.js:278-282 | empty exactly when no affix is a prefix; otherwise ends with the separating space |
| Affixes.SuffixPart | runtime/Items.js:279-283 | empty exactly when no affix is a suffix; otherwise starts with the separating space |
| Affixes.BuildName | runtime/Items.js:277-286 | the name is the prefix part, then the base name, then the suffix part; without affixes the name is the base name |
| Affixes.PrefixPartOfFirst | runtime/Items.js:278-282 | with the first prefix at position i, the text before the base name is that affix's name and a space |
| Affixes.SuffixPartOfFirst | runtime/Items.js:279-283 | with the first suffix at position j, the text after the base name is a space and that affix's name |
| Affixes.NameOfFirstAffixes | runtime/Items.js:277-286 | with a prefix and a suffix, the name is the first prefix's name, a space, the base name, a space and the first suffix's name |
| Generator.RandomSource.Next | runtime/Items.js:102 | one `Math.random()`: the next draw of the stream, in [0, 1), and one more draw used |
| Generator.RoundTenth | runtime/Items.js:103 | `Math.round(x * 10) / 10` is a multiple of 0.1 within 0.05 of x |
| Generator.SellValueMonotoneInIlvl | runtime/Items.js:134 | a higher item level never sells for less |
| Generator.SellValueMonotoneInMult | runtime/Items.js:134 | a higher sell multiplier never sells for less |
| Generator.SellValueNonNegative | runtime/Items.js:134 | a non-negative sell multiplier at item level -20 or above gives a sell value of at least 0 |
| Generator.NumAffixesBounds | runtime/Items.js:107 | the rolled affix count lies between 0 and maxAffixes |
| Generator.AffixCountWithinMax | runtime/Items.js:107-113 | an item never gets more than maxAffixes affixes |
| Generator.ItemLevelForDefaults | runtime/Items.js:51-55 | an explicit item level is kept; an absent one is calculateItemLevel's, at least 1 when item levels are enabled and the meta level (or 1) when they are not |
| Generator.SettledRarityBounds | runtime/Items.js:57-75 | the settled rarity is a forced one unchanged; an unforced one ranks at least the caller's floor, the depth floor and the pity tier, and is present when a pity tier or a rolled rarity is |
| Generator.StatValueInRange | runtime/Items.js:100-103 | for a draw in [0, 1) and a non-negative scale, a stat lies within 0.05 of its catalog range scaled by the power and item-level multipliers |
| Generator.StatsFromShape | runtime/Items.js:99-104 | the rolled stats are exactly the catalog entry's stats, each a multiple of 0.1 |
| Generator.RollStats | runtime/Items.js:99-104 | the stat loop uses one draw per stat and yields the stats of those draws |
| Generator.Applied | runtime/Items.js:118-125 | an applied affix keeps the affix's id, name and stat, takes the slot's kind, and has the affix's tier, or T5 when the tier is empty |
| Generator.AppliedValueInRange | runtime/Items.js:116-122 | an affix's rolled value lies within 0.05 of its range |
| Generator.RollAffixSlot | runtime/Items.js:111-126 | one slot: getRandomAffixByIlvl's pick (one draw when there are candidates), kept exactly when its stat is new and then valued by the next draw; the draws used are exactly those |
| Generator.SlotAffixFacts | runtime/Items.js:111-126 | a kept affix has the slot's kind and a stat not yet used, and with an affix table it comes from an eligible affix of the pool of that kind |
| AppliedAffixes.PrefixSlotsFirstHalf | runtime/Items.js:111 | `i < numAffixes / 2` makes the first half of the slots, rounded up, prefixes and the rest suffixes |
| AppliedAffixes.AffixLoopStep | runtime/Items.js:110-127 | one slot keeps the used stats equal to the applied stats, distinct, and prefixes ahead of suffixes |
| Generator.LoopStepKeepsInvariant | runtime/Items.js:110-127 | one slot of the loop keeps that shape, the pool origin of every affix and at most one affix per slot |
| Generator.AffixLoopNextSlot | runtime/Items.js:110-127 | the same for the loop's state after i slots and after i + 1 |
| Generator.AffixLoopKeepsShape | runtime/Items.js:110-128 | after i slots the loop has applied at most i affixes, no two with the same stat, every prefix ahead of every suffix, each from an eligible affix of its pool |
| Generator.RollAffixIteration | runtime/Items.js:111-127 | one pass of the loop body adds the slot's affix and its stat exactly as one step of the loop function does, with the same draws |
| Generator.RunAffixSlots | runtime/Items.js:110-128 | the `for` loop over n slots yields the applied list and the draw position of the loop function after n slots |
| Generator.RollAffixes | runtime/Items.js:107-128 | the count roll takes the first draw; the applied list and the draws used are exactly those of the loop function for the rolled count |
| Generator.WellFormedItemAffixes | runtime/Items.js:107-128 | a generated item has at most maxAffixes affixes, no two with the same stat, every prefix ahead of every suffix, each from an eligible affix of the pool of its kind |
| Generator.ResolveRarity | runtime/Items.js:57-75 | the settled rarity, using a draw exactly when neither a forced nor a pity rarity is present |
| Generator.RollItem | runtime/Items.js:84-134 | the item carries its base's fields, the rarity, the levels, stats from the draws after generateId's, exactly the affixes the loop yields from the draws after the stats, the name from buildName, the sell value and the default tags |
| Generator.SettleRarity | runtime/Items.js:57-78 | the settled rarity, a draw used exactly when it is rolled, and the pity counters updated once on it |
| Drop.GenerateFound | runtime/Items.js:57-137 | with an entry and a rarity table: pity updates once on the settled rarity; a throw exactly when that rarity has no table row, after generateId's draw and one more; otherwise the well-formed item whose stat draws follow the rarity draw (if any) and generateId's draw, with every draw accounted for |
| Drop.Generate | runtime/Items.js:40-137 | null without a catalog entry or rarity table, with no pity change and no draw; otherwise what GenerateFound states |
| Inventory.FindIndex | runtime/Items.js:328 | `findIndex`: the first position holding the id, or none exactly when no item has it |
| Inventory.RemoveFirstKeepsOrder | runtime/Items.js:327-334 | removing an unknown id changes nothing; otherwise one item goes, and the items before and after it keep their order |
| Inventory.RemoveFirstDropsOne | runtime/Items.js:327-334 | removing takes exactly one copy of the found item out of the stash contents |
| Inventory.FindAppended | runtime/Items.js:321 | an item pushed onto a stash without its id is found at the end |
| Inventory.RemoveUndoesAdd | runtime/Items.js:313-334 | adding a new item and removing its id restores the stash |
| Inventory.FirstFree | runtime/Items.js:346-352 | the first empty slot of module1..3, or none exactly when all are taken |
| Inventory.EquipSlot | runtime/Items.js:342-353 | a non-module item goes to its own slot; a module item goes to an empty module slot when there is one, else to its own slot |
| Inventory.EquipPicksLowestFreeModule | runtime/Items.js:346-352 | the chosen module slot is the lowest-numbered empty one |
| Inventory.Unlinked | runtime/Items.js:374-378 | after unlinking no slot holds the id; all other slots keep their values |
| Inventory.DiffExact | runtime/Items.js:388-408 | compare reports exactly the stats whose values differ, a missing stat counting as 0, with old + change == new |
| Inventory.DiffSelfEmpty | runtime/Items.js:388-408 | comparing an item's stats with themselves reports nothing |
| Inventory.DiffSwap | runtime/Items.js:388-408 | swapping the items reports the same stats with old and new swapped and the change negated |
| Inventory.Compare | runtime/Items.js:388-408 | null exactly when an item is missing; otherwise the loop's map is the difference map |
| Inventory.Inventory.AddToStash | runtime/Items.js:313-324 | refuses and changes nothing when the stash has reached its capacity (baseSlots, or 56); otherwise appends the item and counts it found |
| Inventory.Inventory.RemoveFromStash | runtime/Items.js:327-334 | succeeds exactly when the id is stashed, and removes its first occurrence only |
| Inventory.Inventory.Equip | runtime/Items.js:337-357 | fails for an id not in the stash; otherwise records the id under the equip slot; never changes the stash |
| Inventory.Inventory.Unequip | runtime/Items.js:360-366 | succeeds exactly when the slot holds something, and then empties it |
| Inventory.Inventory.Sell | runtime/Items.js:369-385 | an unknown id returns 0 and changes nothing; otherwise every slot holding the id is emptied, the item leaves the stash and its value is added to scrap and returned |
| Inventory.SellAfterEquip | runtime/Items.js:355-378 | selling an item right after equipping it leaves the equipment as selling it unequipped would, with the slot the equip wrote emptied as well |

## Left out

- `generateId`: the identifier comes in as a parameter. Its `Math.random()` draw is consumed from the stream, but the string built from the clock and the draw is not modelled.
- `generateRandom`: not modelled. It is a uniform choice over the catalog's ids followed by `generate`, and it is not one of the modelled operations.
- `console.warn` and other logging are left out.
- Floating point: every fractional quantity is an exact real. Binary rounding, `NaN` and infinities are not modelled.
- `getItemData` and `getRandomAffix` belong to `DataLoader.js`, which is not part of this model. The catalog is a map. The data loader's affix answer is a function of the slot's kind and index. Any draws it makes are not part of the stream.
- A catalog entry without a `rarities` list makes `rollRarity` throw. It is not modelled: every entry has a list, which may be empty.
- Object keys with integer-like names are enumerated first in JavaScript. A rarity named by such a string would change the order of the `weights` walk. This is not modelled: entries keep their first-appearance order.
- Drop.GenerateFound: a settled rarity that is `null` or `undefined` counts as a missing row. JavaScript would look up the key `"null"` or `"undefined"`; a rarity table with such a key is not modelled.
- The state read through `State.run`, `State.player` and `State.meta` is assumed present. The code throws when `State.run` is missing while an item is stashed; that case is not modelled.
- `runtime/Audio.js`, `tools/generate_sounds.js`, `runtime/world/Background.js` and `runtime/AssetLoader.js` are outside the loot engine. They handle audio, offline asset tooling, canvas drawing and image loading, and none of them is modelled.
