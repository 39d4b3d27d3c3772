/**
 * Rarity tiers, their rank order and the rarity table of runtime/Items.js.
 */
module Rarities {
  import opened Wrappers

  /** A non-empty rarity name that is none of the six ranked tiers (the empty string is
      falsy, so it stands for no rarity). */
  type OtherName = s: string | s != "" && s != "common" && s != "uncommon" && s != "rare" &&
                               s != "epic" && s != "legendary" && s != "mythic"
    witness "other"

  /** A rarity name from the game data: one of the six ranked tiers, or any other name. */
  datatype Rarity = Common | Uncommon | Rare | Epic | Legendary | Mythic | Named(name: OtherName)

  /** One row of the rarity table. */
  datatype RarityData = RarityData(weight: real, powerMult: real, sellMult: real, maxAffixes: int)

  type RarityTable = map<Rarity, RarityData>

  /** The RANK table used by generate, updatePity and higherRarity; a name not in it ranks 0. */
  function Rank(r: Rarity): (k: nat)
    ensures k <= 5
    ensures k == 0 <==> r == Common || r.Named?
  {
    match r
    case Common => 0
    case Uncommon => 1
    case Rare => 2
    case Epic => 3
    case Legendary => 4
    case Mythic => 5
    case Named(_) => 0
  }

  /** Rank of a possibly absent rarity (RANK[undefined] is treated as 0). */
  function RankOf(r: Option<Rarity>): nat
  {
    if r.Some? then Rank(r.value) else 0
  }

  /** higherRarity(a, b): the other argument when one is absent, otherwise the
      higher-ranked one, keeping `a` on a tie. */
  function HigherRarity(a: Option<Rarity>, b: Option<Rarity>): (r: Option<Rarity>)
    ensures a.None? ==> r == b
    ensures a.Some? && b.None? ==> r == a
    ensures r == a || r == b
    ensures RankOf(r) >= RankOf(a) && RankOf(r) >= RankOf(b)
    ensures a.Some? && b.Some? && Rank(a.value) == Rank(b.value) ==> r == a
  {
    if a.None? then b
    else if b.None? then a
    else if Rank(a.value) >= Rank(b.value) then a
    else b
  }
}
