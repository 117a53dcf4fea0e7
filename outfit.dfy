/**
 * Outfit selection in App.tsx: the toggle update of `handleSelectClothing`, the list of selected
 * garments sent to the generation service, and the `clothingByType` grouping of the catalogue.
 */
module Outfit {
  import opened Basics
  import opened Types

  /** Every occupied slot holds a garment of that slot's own category. */
  predicate WellSlotted(o: SelectedOutfit) {
    forall t :: o.Get(t).Some? ==> o.Get(t).value.category == t
  }

  /** At least one slot is occupied: `Object.values(outfit).some(item => item !== null)`. */
  predicate HasSelection(o: SelectedOutfit) {
    exists t :: o.Get(t).Some?
  }

  /** The selection screen's "selected" mark: the slot of the item's category holds its id. */
  predicate IsSelected(o: SelectedOutfit, item: ClothingItem) {
    o.Get(item.category).Some? && o.Get(item.category).value.id == item.id
  }

  /**
   * `handleSelectClothing(item)`: the slot of the item's category is cleared when it already
   * holds a garment with the same id, and gets the item otherwise; the other three slots keep
   * their garments.
   */
  function Toggle(o: SelectedOutfit, item: ClothingItem): (r: SelectedOutfit)
    ensures r.Get(item.category) == if IsSelected(o, item) then None else Some(item)
    ensures forall t :: t != item.category ==> r.Get(t) == o.Get(t)
    ensures WellSlotted(o) ==> WellSlotted(r)
  {
    o.With(item.category, if IsSelected(o, item) then None else Some(item))
  }

  /** Toggling flips whether the item shows as selected. */
  lemma ToggleFlipsSelection(o: SelectedOutfit, item: ClothingItem)
    ensures IsSelected(Toggle(o, item), item) <==> !IsSelected(o, item)
  {
  }

  /**
   * Toggling the same garment twice restores the outfit when its slot was empty or held that
   * very garment (a different garment with the same id would be replaced by this one).
   */
  lemma ToggleTwice(o: SelectedOutfit, item: ClothingItem)
    requires o.Get(item.category) == None || o.Get(item.category) == Some(item)
    ensures Toggle(Toggle(o, item), item) == o
  {
    var r := Toggle(Toggle(o, item), item);
    forall t ensures r.Get(t) == o.Get(t) {
    }
    OutfitExtensional(r, o);
  }

  /** `Object.values(outfit)`: the slots in key order Top, Pants, Shoes, Accessory (the key order of `INITIAL_OUTFIT`, which the spread update keeps). */
  function SlotValues(o: SelectedOutfit): (slots: seq<Option<ClothingItem>>)
    ensures |slots| == |AllCategories| && forall k :: 0 <= k < |slots| ==> slots[k] == o.Get(AllCategories[k])
  {
    [o.top, o.pants, o.shoes, o.accessory]
  }

  /** `.filter(item => item !== null)` */
  function Occupied(slots: seq<Option<ClothingItem>>): (items: seq<ClothingItem>)
    ensures |items| <= |slots|
    ensures forall x :: x in items <==> Some(x) in slots
    ensures items == [] <==> forall k :: 0 <= k < |slots| ==> slots[k].None?
  {
    if slots == [] then []
    else (if slots[0].Some? then [slots[0].value] else []) + Occupied(slots[1..])
  }

  /** Slot `k` of `slots`, when occupied, holds a garment of rank `start + k`. */
  ghost predicate RankedFrom(slots: seq<Option<ClothingItem>>, start: nat) {
    forall k :: 0 <= k < |slots| && slots[k].Some? ==> Rank(slots[k].value.category) == start + k
  }

  /** Filtering keeps the slots' order, so ranks ascend strictly and start at `start` or later. */
  lemma {:induction false} OccupiedAscending(slots: seq<Option<ClothingItem>>, start: nat)
    requires RankedFrom(slots, start)
    ensures forall i :: 0 <= i < |Occupied(slots)| ==> Rank(Occupied(slots)[i].category) >= start
    ensures forall i, j :: 0 <= i < j < |Occupied(slots)| ==>
      Rank(Occupied(slots)[i].category) < Rank(Occupied(slots)[j].category)
    decreases |slots|
  {
    if slots != [] {
      assert RankedFrom(slots[1..], start + 1) by {
        forall k | 0 <= k < |slots[1..]| && slots[1..][k].Some?
          ensures Rank(slots[1..][k].value.category) == start + 1 + k
        {
          assert slots[1..][k] == slots[k + 1];
        }
      }
      OccupiedAscending(slots[1..], start + 1);
    }
  }

  /**
   * `Object.values(outfit).filter(item => item !== null)`: the garments of the occupied slots,
   * each exactly once, in category order Top, Pants, Shoes, Accessory.
   */
  function SelectedItems(o: SelectedOutfit): (items: seq<ClothingItem>)
    ensures |items| <= 4
    ensures items == [] <==> !HasSelection(o)
    ensures forall x :: x in items <==> exists t :: o.Get(t) == Some(x)
    ensures WellSlotted(o) ==>
      forall i, j :: 0 <= i < j < |items| ==> Rank(items[i].category) < Rank(items[j].category)
  {
    SlotsOfOutfit(o);
    SlotsRanked(o);
    Occupied(SlotValues(o))
  }

  /** Occupancy and membership read through `Object.values`. */
  lemma SlotsOfOutfit(o: SelectedOutfit)
    ensures (forall k :: 0 <= k < |SlotValues(o)| ==> SlotValues(o)[k].None?) <==> !HasSelection(o)
    ensures forall x :: Some(x) in SlotValues(o) <==> exists t :: o.Get(t) == Some(x)
  {
    var slots := SlotValues(o);
    forall x ensures Some(x) in slots <==> exists t :: o.Get(t) == Some(x) {
      if Some(x) in slots {
        var k :| 0 <= k < |slots| && slots[k] == Some(x);
        assert o.Get(AllCategories[k]) == Some(x);
      }
      if exists t :: o.Get(t) == Some(x) {
        var t :| o.Get(t) == Some(x);
        assert slots[Rank(t)] == Some(x);
      }
    }
    if HasSelection(o) {
      var t :| o.Get(t).Some?;
      assert slots[Rank(t)].Some?;
    }
  }

  /** In a well-slotted outfit, `Object.values` lists garments of ascending rank. */
  lemma SlotsRanked(o: SelectedOutfit)
    ensures WellSlotted(o) ==>
      forall i, j :: 0 <= i < j < |Occupied(SlotValues(o))| ==>
        Rank(Occupied(SlotValues(o))[i].category) < Rank(Occupied(SlotValues(o))[j].category)
  {
    if WellSlotted(o) {
      var slots := SlotValues(o);
      forall k | 0 <= k < |slots| && slots[k].Some?
        ensures Rank(slots[k].value.category) == 0 + k
      {
        assert slots[k] == o.Get(AllCategories[k]);
      }
      OccupiedAscending(slots, 0);
    }
  }

  /** The catalogue entries of one category, in catalogue order. */
  function OfCategory(items: seq<ClothingItem>, t: ClothingType): seq<ClothingItem> {
    if items == [] then []
    else OfCategory(items[..|items| - 1], t) + (if items[|items| - 1].category == t then [items[|items| - 1]] else [])
  }

  /**
   * `clothingByType`: the catalogue folded from the front into a record of per-category lists;
   * a category gets a key only once some item of it is met.
   */
  function ClothingByType(items: seq<ClothingItem>): (groups: map<ClothingType, seq<ClothingItem>>)
    ensures forall t :: t in groups <==> OfCategory(items, t) != []
    ensures forall t :: t in groups ==> groups[t] == OfCategory(items, t)
  {
    if items == [] then map[]
    else
      var acc := ClothingByType(items[..|items| - 1]);
      var item := items[|items| - 1];
      acc[item.category := (if item.category in acc then acc[item.category] else []) + [item]]
  }

  /** A category's list holds exactly the catalogue's garments of that category. */
  lemma {:induction false} OfCategoryMembers(items: seq<ClothingItem>, t: ClothingType)
    ensures |OfCategory(items, t)| <= |items|
    ensures forall x :: x in OfCategory(items, t) <==> x in items && x.category == t
    decreases |items|
  {
    if items != [] {
      var init, last := items[..|items| - 1], items[|items| - 1];
      OfCategoryMembers(init, t);
      assert items == init + [last];
    }
  }

  /** The entries of a category in a catalogue with one more item in front. */
  lemma {:induction false} OfCategoryPrepend(item: ClothingItem, items: seq<ClothingItem>, t: ClothingType)
    ensures OfCategory([item] + items, t) == (if item.category == t then [item] else []) + OfCategory(items, t)
    decreases |items|
  {
    var head := if item.category == t then [item] else [];
    if items == [] {
      assert [item] + items == [item] && [item][..0] == [];
      assert OfCategory([item], t) == OfCategory([], t) + head;
    } else {
      var all := [item] + items;
      var init, last := items[..|items| - 1], items[|items| - 1];
      var tail := if last.category == t then [last] else [];
      assert all[..|all| - 1] == [item] + init && all[|all| - 1] == last;
      assert OfCategory(all, t) == OfCategory([item] + init, t) + tail;
      OfCategoryPrepend(item, init, t);
      assert OfCategory(items, t) == OfCategory(init, t) + tail;
      assert OfCategory(all, t) == head + OfCategory(init, t) + tail;
    }
  }

  /**
   * A garment created at run time and prepended to the catalogue heads the list of its
   * category on the selection screen; every other category's list is unchanged.
   */
  lemma CreatedItemLeadsCategory(item: ClothingItem, items: seq<ClothingItem>)
    ensures item.category in ClothingByType([item] + items)
    ensures ClothingByType([item] + items)[item.category] == [item] + OfCategory(items, item.category)
    ensures forall t :: t != item.category ==>
      (t in ClothingByType([item] + items) <==> t in ClothingByType(items))
    ensures forall t :: t != item.category && t in ClothingByType(items) ==>
      ClothingByType([item] + items)[t] == ClothingByType(items)[t]
  {
    forall t ensures OfCategory([item] + items, t) == (if item.category == t then [item] else []) + OfCategory(items, t) {
      OfCategoryPrepend(item, items, t);
    }
  }
}
