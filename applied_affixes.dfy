/**
 * The applied-affix list of an item as the affix loop of generate in runtime/Items.js builds
 * it: where each applied affix comes from, and the shape the loop keeps slot by slot.
 */
module AppliedAffixes {
  import opened Wrappers
  import opened Affixes

  /** affix.tier || 'T5' */
  function TierOr(tier: string): string
  {
    if tier != "" then tier else "T5"
  }

  /** x was made from the pool affix a. */
  predicate AppliedFrom(a: Affix, x: AppliedAffix)
  {
    a.id == x.id && a.name == x.name && a.stat == x.stat && x.tier == TierOr(a.tier) &&
    (x.value * 10.0).Floor as real == x.value * 10.0
  }

  /** x comes from an affix of the pool of its own kind that the item level allows. */
  ghost predicate FromPool(p: AffixPools, x: AppliedAffix, ilvl: int)
  {
    Pool(p, x.kind).Some? &&
    exists a :: Eligible(a, ilvl) && InPool(Pool(p, x.kind).value, a) && AppliedFrom(a, x)
  }

  /** No two applied affixes share a stat. */
  predicate DistinctStats(applied: seq<AppliedAffix>)
  {
    forall i, j :: 0 <= i < j < |applied| ==> applied[i].stat != applied[j].stat
  }

  /** Every prefix comes before every suffix. */
  predicate PrefixesFirst(applied: seq<AppliedAffix>)
  {
    forall i, j :: 0 <= i < j < |applied| && applied[i].kind == Suffix ==> applied[j].kind == Suffix
  }

  /** Slot i of n is a prefix when i < n / 2. */
  function SlotKind(i: int, n: int): AffixKind
  {
    if 2 * i < n then Prefix else Suffix
  }

  /** `i < numAffixes / 2` divides exactly: the prefix slots are the first ceil(n / 2). */
  lemma PrefixSlotsFirstHalf(i: int, n: int)
    requires 0 <= i && 0 <= n
    ensures SlotKind(i, n) == Prefix <==> i < (n + 1) / 2
  {
  }

  /** What the affix loop keeps after i slots: the used stats are exactly the applied
      affixes' stats, those are distinct, prefixes come first, and a suffix is applied only
      once the slots have reached the suffix half. */
  ghost predicate AffixLoopShape(applied: seq<AppliedAffix>, usedStats: set<string>, i: int, n: int)
  {
    usedStats == (set x | x in applied :: x.stat) &&
    DistinctStats(applied) && PrefixesFirst(applied) &&
    forall x :: x in applied && x.kind == Suffix ==> 2 * i > n
  }

  /** One slot keeps the shape of the affix list. */
  lemma AffixLoopStep(applied: seq<AppliedAffix>, usedStats: set<string>, i: int, n: int, x: Option<AppliedAffix>)
    requires AffixLoopShape(applied, usedStats, i, n)
    requires x.Some? ==> x.value.kind == SlotKind(i, n) && x.value.stat !in usedStats
    ensures x.None? ==> AffixLoopShape(applied, usedStats, i + 1, n)
    ensures x.Some? ==> AffixLoopShape(applied + [x.value], usedStats + {x.value.stat}, i + 1, n)
  {
    if x.Some? {
      var a := applied + [x.value];
      assert forall y :: y in a <==> y in applied || y == x.value;
      assert forall j :: 0 <= j < |applied| ==> a[j] == applied[j];
    }
  }

  /** The shape the loop keeps, with the pool origin of every applied affix and at most one
      affix per slot. */
  ghost predicate LoopInvariant(pools: Option<AffixPools>, ilvl: int, applied: seq<AppliedAffix>,
                                usedStats: set<string>, i: nat, n: int)
  {
    |applied| <= i && AffixLoopShape(applied, usedStats, i, n) &&
    (pools.Some? ==> forall x :: x in applied ==> FromPool(pools.value, x, ilvl))
  }
}
