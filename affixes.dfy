/**
 * Affix selection and display names of runtime/Items.js: getRandomAffixByIlvl and buildName.
 */
module Affixes {
  import opened Wrappers
  import opened Weighted

  datatype AffixKind = Prefix | Suffix

  /** One affix definition. ilvlReq == 0 and weight == 0.0 stand for "not given" (`|| default`). */
  datatype Affix = Affix(id: string, name: string, stat: string, low: real, high: real,
                         ilvlReq: int, weight: real, tier: string)

  /** A value of a pool object: an array of affixes, or anything else (skipped). */
  datatype AffixCategory = AffixList(entries: seq<Affix>) | NotAList

  /** State.data.affixes: the prefix and suffix pools, each possibly absent. */
  datatype AffixPools = AffixPools(prefixes: Option<seq<AffixCategory>>, suffixes: Option<seq<AffixCategory>>)

  /** An affix as applied to an item. */
  datatype AppliedAffix = AppliedAffix(id: string, name: string, stat: string, value: real,
                                       kind: AffixKind, tier: string)

  function Pool(p: AffixPools, kind: AffixKind): Option<seq<AffixCategory>>
  {
    if kind == Prefix then p.prefixes else p.suffixes
  }

  /** affix.ilvlReq || 1 */
  function Requirement(a: Affix): int
  {
    if a.ilvlReq != 0 then a.ilvlReq else 1
  }

  /** affix.weight || 50 */
  function Weight(a: Affix): real
  {
    if a.weight != 0.0 then a.weight else 50.0
  }

  predicate Eligible(a: Affix, ilvl: int)
  {
    ilvl >= Requirement(a)
  }

  /** The affixes of one category that the item level admits, in order. */
  function EligibleIn(list: seq<Affix>, ilvl: int): (r: seq<Affix>)
    ensures forall a :: a in r ==> a in list && Eligible(a, ilvl)
  {
    if list == [] then []
    else
      var init := EligibleIn(list[..|list| - 1], ilvl);
      var a := list[|list| - 1];
      assert list == list[..|list| - 1] + [a];
      if Eligible(a, ilvl) then init + [a] else init
  }

  /** The candidate list: eligible affixes of every array category, category by category. */
  function Candidates(cats: seq<AffixCategory>, ilvl: int): (r: seq<Affix>)
    ensures forall a :: a in r ==> Eligible(a, ilvl)
  {
    if cats == [] then []
    else
      var c := cats[|cats| - 1];
      Candidates(cats[..|cats| - 1], ilvl) + (if c.AffixList? then EligibleIn(c.entries, ilvl) else [])
  }

  /** a is listed in some array category of the pool. */
  ghost predicate InPool(cats: seq<AffixCategory>, a: Affix)
  {
    exists i :: 0 <= i < |cats| && cats[i].AffixList? && a in cats[i].entries
  }

  lemma {:induction false} EligibleInExact(list: seq<Affix>, ilvl: int, a: Affix)
    ensures a in EligibleIn(list, ilvl) <==> a in list && Eligible(a, ilvl)
  {
    if list != [] {
      EligibleInExact(list[..|list| - 1], ilvl, a);
      assert list == list[..|list| - 1] + [list[|list| - 1]];
    }
  }

  /** The candidates are exactly the pool's affixes whose requirement the item level meets. */
  lemma {:induction false} CandidatesExact(cats: seq<AffixCategory>, ilvl: int, a: Affix)
    ensures a in Candidates(cats, ilvl) <==> InPool(cats, a) && Eligible(a, ilvl)
  {
    if cats != [] {
      var init := cats[..|cats| - 1];
      var c := cats[|cats| - 1];
      CandidatesExact(init, ilvl, a);
      if c.AffixList? {
        EligibleInExact(c.entries, ilvl, a);
      }
      if InPool(cats, a) {
        var i :| 0 <= i < |cats| && cats[i].AffixList? && a in cats[i].entries;
        if i < |cats| - 1 {
          assert init[i] == cats[i];
        }
      }
      if InPool(init, a) {
        var i :| 0 <= i < |init| && init[i].AffixList? && a in init[i].entries;
        assert cats[i] == init[i];
      }
    }
  }

  /** The `_weight` of each candidate. */
  function AffixWeights(cands: seq<Affix>): (ws: seq<real>)
    ensures |ws| == |cands|
    ensures forall i :: 0 <= i < |cands| ==> ws[i] == Weight(cands[i])
  {
    if cands == [] then [] else AffixWeights(cands[..|cands| - 1]) + [Weight(cands[|cands| - 1])]
  }

  /** The weighted pick with draw u: the walk's choice, or the last candidate when the walk
      chooses none; nothing for an empty list. */
  function PickAffix(cands: seq<Affix>, u: real): (r: Option<Affix>)
    ensures r.Some? <==> |cands| > 0
    ensures r.Some? ==> r.value in cands
  {
    if cands == [] then None
    else
      var ws := AffixWeights(cands);
      match PickIndex(ws, Roll(u, Sum(ws)))
      case Some(k) => Some(cands[k])
      case None => Some(cands[|cands| - 1])
  }

  /** What getRandomAffixByIlvl returns. `fallback` is the answer of the data loader's
      getRandomAffix, used when no affix table is loaded. */
  function AffixByIlvl(pools: Option<AffixPools>, fallback: Option<Affix>, kind: AffixKind, ilvl: int, u: real): Option<Affix>
  {
    if pools.None? then fallback
    else if Pool(pools.value, kind).None? then None
    else PickAffix(Candidates(Pool(pools.value, kind).value, ilvl), u)
  }

  /** Whether getRandomAffixByIlvl consumes a random draw: only when it has candidates. */
  function DrawsRandom(pools: Option<AffixPools>, kind: AffixKind, ilvl: int): bool
  {
    pools.Some? && Pool(pools.value, kind).Some? && |Candidates(Pool(pools.value, kind).value, ilvl)| > 0
  }

  lemma CandidatesStep(cats: seq<AffixCategory>, c: nat, ilvl: int)
    requires c < |cats|
    ensures Candidates(cats[..c + 1], ilvl) ==
              Candidates(cats[..c], ilvl) + (if cats[c].AffixList? then EligibleIn(cats[c].entries, ilvl) else [])
  {
    assert cats[..c + 1][..c] == cats[..c];
  }

  lemma EligibleInStep(list: seq<Affix>, j: nat, ilvl: int)
    requires j < |list|
    ensures EligibleIn(list[..j + 1], ilvl) ==
              EligibleIn(list[..j], ilvl) + (if Eligible(list[j], ilvl) then [list[j]] else [])
  {
    assert list[..j + 1][..j] == list[..j];
  }

  /** The inner loop of getRandomAffixByIlvl: one category's eligible affixes and their
      weights appended to those collected so far. */
  method CollectFromList(list: seq<Affix>, ilvl: int, cands0: seq<Affix>, ws0: seq<real>)
    returns (cands: seq<Affix>, ws: seq<real>)
    requires ws0 == AffixWeights(cands0)
    ensures cands == cands0 + EligibleIn(list, ilvl)
    ensures ws == AffixWeights(cands)
  {
    cands, ws := cands0, ws0;
    var j := 0;
    while j < |list|
      invariant 0 <= j <= |list|
      invariant cands == cands0 + EligibleIn(list[..j], ilvl)
      invariant ws == AffixWeights(cands)
    {
      EligibleInStep(list, j, ilvl);
      var affix := list[j];
      if ilvl >= Requirement(affix) {
        assert (cands + [affix])[..|cands|] == cands;
        cands := cands + [affix];
        ws := ws + [Weight(affix)];
      }
      j := j + 1;
    }
    assert list[..j] == list;
  }

  /** The nested loop of getRandomAffixByIlvl that collects the candidates and their weights. */
  method CollectCandidates(cats: seq<AffixCategory>, ilvl: int) returns (cands: seq<Affix>, ws: seq<real>)
    ensures cands == Candidates(cats, ilvl)
    ensures ws == AffixWeights(cands)
  {
    cands, ws := [], [];
    var c := 0;
    while c < |cats|
      invariant 0 <= c <= |cats|
      invariant cands == Candidates(cats[..c], ilvl)
      invariant ws == AffixWeights(cands)
    {
      CandidatesStep(cats, c, ilvl);
      if cats[c].AffixList? {
        cands, ws := CollectFromList(cats[c].entries, ilvl, cands, ws);
      }
      c := c + 1;
    }
    assert cats[..c] == cats;
  }

  /** The loop that adds up the weights. */
  method SumWeights(ws: seq<real>) returns (total: real)
    ensures total == Sum(ws)
  {
    total := 0.0;
    var i := 0;
    while i < |ws|
      invariant 0 <= i <= |ws|
      invariant total == Cum(ws, i)
    {
      SumStep(ws, i);
      total := total + ws[i];
      i := i + 1;
    }
    assert ws[..i] == ws;
  }

  /** getRandomAffixByIlvl with the draw u. */
  method GetRandomAffixByIlvl(pools: Option<AffixPools>, fallback: Option<Affix>, kind: AffixKind, ilvl: int, u: real)
    returns (pick: Option<Affix>, drew: bool)
    ensures pick == AffixByIlvl(pools, fallback, kind, ilvl, u)
    ensures drew == DrawsRandom(pools, kind, ilvl)
    ensures pools.Some? ==> (pick.Some? <==> drew)
    ensures pools.Some? && pick.Some? ==> Eligible(pick.value, ilvl) && InPool(Pool(pools.value, kind).value, pick.value)
  {
    if pools.None? {
      return fallback, false;
    }
    var pool := Pool(pools.value, kind);
    if pool.None? {
      return None, false;
    }
    var cands, ws := CollectCandidates(pool.value, ilvl);
    if |cands| == 0 {
      return None, false;
    }
    var total := SumWeights(ws);
    var k := PickWeighted(ws, Roll(u, total));
    pick := if k.Some? then Some(cands[k.value]) else Some(cands[|cands| - 1]);
    drew := true;
    CandidatesExact(pool.value, ilvl, pick.value);
  }

  /** No fallback for non-negative weights: a draw in [0, 1) always lands on a candidate. */
  lemma PickAffixNeedsNoFallback(cands: seq<Affix>, u: real)
    requires |cands| > 0 && 0.0 <= u < 1.0
    requires forall a :: a in cands ==> Weight(a) >= 0.0
    ensures PickIndex(AffixWeights(cands), Roll(u, Sum(AffixWeights(cands)))).Some?
  {
    var ws := AffixWeights(cands);
    SumNonNegative(ws);
    RollWithinTotal(u, Sum(ws));
    PickWithinTotal(ws, Roll(u, Sum(ws)));
  }

  lemma {:induction false} SumNonNegative(ws: seq<real>)
    requires NonNegative(ws)
    ensures Sum(ws) >= 0.0
  {
    if ws != [] {
      SumNonNegative(ws[..|ws| - 1]);
    }
  }

  // ---------------------------------------------------------------- names

  /** Index of the first applied affix of the given kind, |applied| when there is none. */
  function FirstOfKind(applied: seq<AppliedAffix>, kind: AffixKind): (i: nat)
    ensures i <= |applied|
    ensures i < |applied| ==> applied[i].kind == kind
    ensures forall j :: 0 <= j < i ==> applied[j].kind != kind
  {
    if applied == [] then 0
    else if applied[0].kind == kind then 0
    else 1 + FirstOfKind(applied[1..], kind)
  }

  /** Text before the base name: the first prefix's name and a space, if any. */
  function PrefixPart(applied: seq<AppliedAffix>): (part: string)
    ensures part == "" <==> forall i :: 0 <= i < |applied| ==> applied[i].kind == Suffix
    ensures part != "" ==> part[|part| - 1] == ' '
  {
    var p := FirstOfKind(applied, Prefix);
    if p < |applied| then applied[p].name + " " else ""
  }

  /** Text after the base name: a space and the first suffix's name, if any. */
  function SuffixPart(applied: seq<AppliedAffix>): (part: string)
    ensures part == "" <==> forall i :: 0 <= i < |applied| ==> applied[i].kind == Prefix
    ensures part != "" ==> part[0] == ' '
  {
    var s := FirstOfKind(applied, Suffix);
    if s < |applied| then " " + applied[s].name else ""
  }

  /** The text before the base name is the first prefix's name followed by a space. */
  lemma PrefixPartOfFirst(applied: seq<AppliedAffix>, i: nat)
    requires i < |applied| && applied[i].kind == Prefix && forall k :: 0 <= k < i ==> applied[k].kind != Prefix
    ensures PrefixPart(applied) == applied[i].name + " "
  {
    assert FirstOfKind(applied, Prefix) == i;
  }

  /** The text after the base name is a space followed by the first suffix's name. */
  lemma SuffixPartOfFirst(applied: seq<AppliedAffix>, j: nat)
    requires j < |applied| && applied[j].kind == Suffix && forall k :: 0 <= k < j ==> applied[k].kind != Suffix
    ensures SuffixPart(applied) == " " + applied[j].name
  {
    assert FirstOfKind(applied, Suffix) == j;
  }

  /** With a prefix first at i and a suffix first at j, the name is the prefix's name, a
      space, the base name, a space and the suffix's name. */
  lemma NameOfFirstAffixes(baseName: string, applied: seq<AppliedAffix>, i: nat, j: nat)
    requires i < |applied| && applied[i].kind == Prefix && forall k :: 0 <= k < i ==> applied[k].kind != Prefix
    requires j < |applied| && applied[j].kind == Suffix && forall k :: 0 <= k < j ==> applied[k].kind != Suffix
    ensures BuildName(baseName, applied) == applied[i].name + " " + baseName + " " + applied[j].name
  {
    PrefixPartOfFirst(applied, i);
    SuffixPartOfFirst(applied, j);
  }

  /** buildName: the base name, preceded by the first prefix's name and followed by the
      first suffix's name. */
  function BuildName(baseName: string, applied: seq<AppliedAffix>): (name: string)
    ensures |name| == |PrefixPart(applied)| + |baseName| + |SuffixPart(applied)|
    ensures name[..|PrefixPart(applied)|] == PrefixPart(applied)
    ensures name[|PrefixPart(applied)|..|PrefixPart(applied)| + |baseName|] == baseName
    ensures name[|PrefixPart(applied)| + |baseName|..] == SuffixPart(applied)
    ensures (forall i :: 0 <= i < |applied| ==> applied[i].kind == Suffix) ==> name[..|baseName|] == baseName
    ensures applied == [] ==> name == baseName
  {
    var pre := PrefixPart(applied);
    var n := pre + baseName + SuffixPart(applied);
    assert n[..|pre|] == pre;
    assert n[|pre|..|pre| + |baseName|] == baseName;
    assert n[|pre| + |baseName|..] == SuffixPart(applied);
    n
  }
}
