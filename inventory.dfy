/**
 * The inventory operations of runtime/Items.js: the stash list, the equipment map, the
 * scrap balance and the run's found-items counter, and the stat comparison of two items.
 */
module Inventory {
  import opened Wrappers
  import opened Generator

  /** stash.findIndex(i => i.id === id): the first position holding the id. */
  function FindIndex(stash: seq<Item>, id: string): (r: Option<nat>)
    ensures r.Some? ==> r.value < |stash| && stash[r.value].id == id &&
                        forall j :: 0 <= j < r.value ==> stash[j].id != id
    ensures r.None? <==> forall j :: 0 <= j < |stash| ==> stash[j].id != id
  {
    if stash == [] then None
    else if stash[0].id == id then Some(0)
    else
      var rest := FindIndex(stash[1..], id);
      if rest.Some? then Some(rest.value + 1) else None
  }

  /** The stash with the first item carrying the id spliced out; unchanged when there is none. */
  function RemoveFirst(stash: seq<Item>, id: string): seq<Item>
  {
    var k := FindIndex(stash, id);
    if k.Some? then stash[..k.value] + stash[k.value + 1..] else stash
  }

  /** Splicing position i out of a sequence keeps the rest in order and removes exactly one
      copy of s[i]. */
  lemma Splice<T>(s: seq<T>, i: nat)
    requires i < |s|
    ensures |s[..i] + s[i + 1..]| == |s| - 1
    ensures forall j :: 0 <= j < i ==> (s[..i] + s[i + 1..])[j] == s[j]
    ensures forall j :: i < j < |s| ==> (s[..i] + s[i + 1..])[j - 1] == s[j]
    ensures multiset(s[..i] + s[i + 1..]) + multiset{s[i]} == multiset(s)
  {
    assert s == s[..i] + [s[i]] + s[i + 1..];
  }

  /** Removing drops the first item carrying the id and keeps every other item in its
      order; an absent id leaves the stash as it is. */
  lemma {:induction false} RemoveFirstKeepsOrder(stash: seq<Item>, id: string)
    ensures FindIndex(stash, id).None? ==> RemoveFirst(stash, id) == stash
    ensures FindIndex(stash, id).Some? ==>
              var k := FindIndex(stash, id).value;
              |RemoveFirst(stash, id)| == |stash| - 1 &&
              (forall j :: 0 <= j < k ==> RemoveFirst(stash, id)[j] == stash[j]) &&
              (forall j :: k < j < |stash| ==> RemoveFirst(stash, id)[j - 1] == stash[j])
  {
    if FindIndex(stash, id).Some? {
      Splice(stash, FindIndex(stash, id).value);
    }
  }

  /** Removing takes exactly one copy of the found item out of the stash's contents. */
  lemma {:induction false} RemoveFirstDropsOne(stash: seq<Item>, id: string)
    requires FindIndex(stash, id).Some?
    ensures multiset(RemoveFirst(stash, id)) + multiset{stash[FindIndex(stash, id).value]} == multiset(stash)
  {
    Splice(stash, FindIndex(stash, id).value);
  }

  /** Adding an item whose id is not yet stashed and then removing that id gives back the
      stash as it was. */
  lemma RemoveUndoesAdd(stash: seq<Item>, item: Item)
    requires FindIndex(stash, item.id).None?
    ensures RemoveFirst(stash + [item], item.id) == stash
  {
    FindAppended(stash, item);
    assert (stash + [item])[..|stash|] == stash;
  }

  /** An item appended behind a stash without its id is found at the end. */
  lemma {:induction false} FindAppended(stash: seq<Item>, item: Item)
    requires FindIndex(stash, item.id).None?
    ensures FindIndex(stash + [item], item.id) == Some(|stash|)
  {
    if stash != [] {
      assert (stash + [item])[1..] == stash[1..] + [item];
      FindAppended(stash[1..], item);
    }
  }

  /** config.stash.baseSlots || 56 */
  function Capacity(baseSlots: int): int
  {
    if baseSlots != 0 then baseSlots else 56
  }

  /** Whether an equipment slot holds something: a missing key, null and "" all read as empty. */
  predicate Occupied(equipment: map<string, Option<string>>, slot: string)
  {
    slot in equipment && equipment[slot].Some? && equipment[slot].value != ""
  }

  /** slot.startsWith('module') */
  predicate IsModuleSlot(slot: string)
  {
    |slot| >= 6 && slot[..6] == "module"
  }

  const ModuleSlots: seq<string> := ["module1", "module2", "module3"]

  /** The first of `slots` that is empty, if any. */
  function FirstFree(equipment: map<string, Option<string>>, slots: seq<string>): (r: Option<nat>)
    ensures r.Some? ==> r.value < |slots| && !Occupied(equipment, slots[r.value]) &&
                        forall j :: 0 <= j < r.value ==> Occupied(equipment, slots[j])
    ensures r.None? <==> forall j :: 0 <= j < |slots| ==> Occupied(equipment, slots[j])
  {
    if slots == [] then None
    else if !Occupied(equipment, slots[0]) then Some(0)
    else
      var rest := FirstFree(equipment, slots[1..]);
      if rest.Some? then Some(rest.value + 1) else None
  }

  /** The key equip writes: the first empty module slot for a module item, the item's own
      slot otherwise, and also when all three module slots are taken. */
  function EquipSlot(equipment: map<string, Option<string>>, itemSlot: string): (slot: string)
    ensures !IsModuleSlot(itemSlot) ==> slot == itemSlot
    ensures IsModuleSlot(itemSlot) && (exists j :: 0 <= j < 3 && !Occupied(equipment, ModuleSlots[j])) ==>
              slot in ModuleSlots && !Occupied(equipment, slot)
    ensures (forall j :: 0 <= j < 3 ==> Occupied(equipment, ModuleSlots[j])) ==> slot == itemSlot
  {
    if IsModuleSlot(itemSlot) then
      var f := FirstFree(equipment, ModuleSlots);
      if f.Some? then ModuleSlots[f.value] else itemSlot
    else itemSlot
  }

  /** Equipping fills the lowest-numbered free module slot. */
  lemma EquipPicksLowestFreeModule(equipment: map<string, Option<string>>, itemSlot: string, j: nat)
    requires IsModuleSlot(itemSlot) && j < 3 && !Occupied(equipment, ModuleSlots[j])
    ensures EquipSlot(equipment, itemSlot) in ModuleSlots[..j + 1]
  {
  }

  /** The equipment with every slot holding the id emptied. */
  function Unlinked(equipment: map<string, Option<string>>, id: string): (r: map<string, Option<string>>)
    ensures r.Keys == equipment.Keys
    ensures forall s :: s in r ==> r[s] != Some(id)
    ensures forall s :: s in r && equipment[s] != Some(id) ==> r[s] == equipment[s]
  {
    map s | s in equipment :: if equipment[s] == Some(id) then None else equipment[s]
  }

  /** A stat's value for the comparison: a missing key (and 0) read as 0. */
  function StatOr0(stats: map<string, real>, stat: string): real
  {
    if stat in stats then stats[stat] else 0.0
  }

  /** One reported stat difference: the old value, the new value and new - old. */
  datatype StatDiff = StatDiff(before: real, after: real, change: real)

  /** The differences compare reports, over the union of both items' stats. */
  function Diff(s1: map<string, real>, s2: map<string, real>): map<string, StatDiff>
  {
    map k | k in s1.Keys + s2.Keys && StatOr0(s1, k) != StatOr0(s2, k) ::
      StatDiff(StatOr0(s1, k), StatOr0(s2, k), StatOr0(s2, k) - StatOr0(s1, k))
  }

  /** compare reports exactly the stats whose values differ, each with old + change == new. */
  lemma DiffExact(s1: map<string, real>, s2: map<string, real>)
    ensures forall k :: k in Diff(s1, s2) <==> StatOr0(s1, k) != StatOr0(s2, k)
    ensures forall k :: k in Diff(s1, s2) ==>
              Diff(s1, s2)[k].before == StatOr0(s1, k) && Diff(s1, s2)[k].after == StatOr0(s2, k) &&
              Diff(s1, s2)[k].before + Diff(s1, s2)[k].change == Diff(s1, s2)[k].after
  {
    forall k | StatOr0(s1, k) != StatOr0(s2, k)
      ensures k in s1.Keys + s2.Keys
    {
    }
  }

  /** Comparing an item with itself reports nothing. */
  lemma DiffSelfEmpty(s: map<string, real>)
    ensures Diff(s, s) == map[]
  {
  }

  /** Swapping the items reports the same stats with old and new swapped and the change negated. */
  lemma DiffSwap(s1: map<string, real>, s2: map<string, real>)
    ensures Diff(s2, s1).Keys == Diff(s1, s2).Keys
    ensures forall k :: k in Diff(s1, s2) ==>
              Diff(s2, s1)[k] == StatDiff(Diff(s1, s2)[k].after, Diff(s1, s2)[k].before, -Diff(s1, s2)[k].change)
  {
  }

  /** Items.compare: null when either item is missing, the stat differences otherwise. */
  method Compare(item1: Option<Item>, item2: Option<Item>) returns (diff: Option<map<string, StatDiff>>)
    ensures item1.None? || item2.None? <==> diff.None?
    ensures diff.Some? ==> diff.value == Diff(item1.value.stats, item2.value.stats)
  {
    if item1.None? || item2.None? {
      return None;
    }
    var s1 := item1.value.stats;
    var s2 := item2.value.stats;
    var d: map<string, StatDiff> := map[];
    var todo := s1.Keys + s2.Keys;
    ghost var all := todo;
    while todo != {}
      invariant todo <= all
      invariant forall k :: k in d <==> k in all - todo && StatOr0(s1, k) != StatOr0(s2, k)
      invariant forall k :: k in d ==> d[k] == Diff(s1, s2)[k]
      decreases |todo|
    {
      var stat :| stat in todo;
      var v1 := StatOr0(s1, stat);
      var v2 := StatOr0(s2, stat);
      if v1 != v2 {
        d := d[stat := StatDiff(v1, v2, v2 - v1)];
      }
      todo := todo - {stat};
    }
    return Some(d);
  }

  /** State.meta's stash, equipment and scrap, and State.run.stats.itemsFound. */
  class Inventory {
    var stash: seq<Item>
    var equipment: map<string, Option<string>>
    var scrap: int
    var itemsFound: int

    constructor ()
      ensures stash == [] && equipment == map[] && scrap == 0 && itemsFound == 0
    {
      stash := [];
      equipment := map[];
      scrap := 0;
      itemsFound := 0;
    }

    /** Items.addToStash under a configured baseSlots (0 when unset). */
    method AddToStash(item: Item, baseSlots: int) returns (ok: bool)
      modifies this
      ensures ok <==> |old(stash)| < Capacity(baseSlots)
      ensures ok ==> stash == old(stash) + [item] && itemsFound == old(itemsFound) + 1
      ensures !ok ==> stash == old(stash) && itemsFound == old(itemsFound)
      ensures equipment == old(equipment) && scrap == old(scrap)
    {
      if |stash| >= Capacity(baseSlots) {
        return false;
      }
      stash := stash + [item];
      itemsFound := itemsFound + 1;
      return true;
    }

    /** Items.removeFromStash. */
    method RemoveFromStash(itemId: string) returns (ok: bool)
      modifies this
      ensures ok <==> FindIndex(old(stash), itemId).Some?
      ensures stash == RemoveFirst(old(stash), itemId)
      ensures ok ==> |stash| == |old(stash)| - 1
      ensures equipment == old(equipment) && scrap == old(scrap) && itemsFound == old(itemsFound)
    {
      var index := FindIndex(stash, itemId);
      if index.Some? {
        stash := stash[..index.value] + stash[index.value + 1..];
        return true;
      }
      return false;
    }

    /** Items.equip. */
    method Equip(itemId: string) returns (ok: bool)
      modifies this
      ensures ok <==> FindIndex(old(stash), itemId).Some?
      ensures ok ==> equipment == old(equipment)[EquipSlot(old(equipment), old(stash)[FindIndex(old(stash), itemId).value].slot) := Some(itemId)]
      ensures !ok ==> equipment == old(equipment)
      ensures stash == old(stash) && scrap == old(scrap) && itemsFound == old(itemsFound)
    {
      var index := FindIndex(stash, itemId);
      if index.None? {
        return false;
      }
      var item := stash[index.value];
      var slot := item.slot;
      if IsModuleSlot(item.slot) {
        var i := 0;
        while i < |ModuleSlots|
          invariant 0 <= i <= |ModuleSlots|
          invariant forall j :: 0 <= j < i ==> Occupied(equipment, ModuleSlots[j])
          invariant slot == item.slot
        {
          if !Occupied(equipment, ModuleSlots[i]) {
            slot := ModuleSlots[i];
            assert FirstFree(equipment, ModuleSlots) == Some(i);
            break;
          }
          i := i + 1;
        }
      }
      equipment := equipment[slot := Some(itemId)];
      return true;
    }

    /** Items.unequip. */
    method Unequip(slot: string) returns (ok: bool)
      modifies this
      ensures ok <==> Occupied(old(equipment), slot)
      ensures ok ==> equipment == old(equipment)[slot := None]
      ensures !ok ==> equipment == old(equipment)
      ensures stash == old(stash) && scrap == old(scrap) && itemsFound == old(itemsFound)
    {
      if Occupied(equipment, slot) {
        equipment := equipment[slot := None];
        return true;
      }
      return false;
    }

    /** Items.sell: the scrap the item fetched, 0 for an unknown id. */
    method Sell(itemId: string) returns (value: int)
      modifies this
      ensures FindIndex(old(stash), itemId).None? ==>
                value == 0 && stash == old(stash) && equipment == old(equipment) && scrap == old(scrap)
      ensures FindIndex(old(stash), itemId).Some? ==>
                value == old(stash)[FindIndex(old(stash), itemId).value].value &&
                equipment == Unlinked(old(equipment), itemId) &&
                stash == RemoveFirst(old(stash), itemId) &&
                scrap == old(scrap) + value
      ensures itemsFound == old(itemsFound)
    {
      var index := FindIndex(stash, itemId);
      if index.None? {
        return 0;
      }
      var item := stash[index.value];
      var todo := equipment.Keys;
      ghost var eq0 := equipment;
      while todo != {}
        invariant todo <= eq0.Keys && equipment.Keys == eq0.Keys
        invariant forall s :: s in equipment ==>
                    equipment[s] == if s !in todo && eq0[s] == Some(itemId) then None else eq0[s]
        invariant stash == old(stash) && scrap == old(scrap) && itemsFound == old(itemsFound)
        decreases |todo|
      {
        var s :| s in todo;
        if equipment[s] == Some(itemId) {
          equipment := equipment[s := None];
        }
        todo := todo - {s};
      }
      var _ := RemoveFromStash(itemId);
      scrap := scrap + item.value;
      return item.value;
    }
  }

  /** Selling an item right after equipping it leaves the equipment as selling it unequipped
      would, with the slot the equip wrote emptied as well. */
  lemma SellAfterEquip(equipment: map<string, Option<string>>, itemSlot: string, id: string)
    ensures var slot := EquipSlot(equipment, itemSlot);
            Unlinked(equipment[slot := Some(id)], id) == Unlinked(equipment, id)[slot := None]
  {
  }
}
