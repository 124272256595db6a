/** The shop of a star system (Shop.java): fitted units in a plain list and
    equipment entries with counts, kept sorted by `equipmentCompare`. */
module Shops {
  import opened JavaLang
  import opened Equipments
  import opened EquipmentOrder
  import opened Units

  /** A `ShopEquipment` record: an item and how many copies are in stock. */
  datatype ShopEquipment = ShopEquipment(item: Equipment, count: Int32)

  /** Strictly ascending under the comparator: no two entries share a key. */
  ghost predicate Sorted(s: seq<ShopEquipment>) {
    forall i, j | 0 <= i < j < |s| :: Compare(s[i].item, s[j].item) < 0
  }

  /** `p` splits `s` into the entries ordered before `e` and those after it. */
  ghost predicate InsertionPoint(s: seq<ShopEquipment>, e: Equipment, p: int) {
    0 <= p <= |s|
    && (forall i | 0 <= i < p :: Compare(s[i].item, e) < 0)
    && (forall i | p <= i < |s| :: Compare(s[i].item, e) > 0)
  }

  /** `Collections.binarySearch(list, key, equipmentCompare)`: the index of an
      entry comparing equal to the key, or `-1 - p` for the insertion point
      `p`. The comparator is called with the list element first. */
  method BinarySearch(list: seq<ShopEquipment>, key: Equipment) returns (index: int)
    requires Sorted(list)
    ensures 0 <= index ==> index < |list| && Compare(list[index].item, key) == 0
    ensures index < 0 ==> InsertionPoint(list, key, -1 - index)
  {
    var low, high := 0, |list| - 1;
    while low <= high
      invariant 0 <= low <= high + 1 <= |list|
      invariant forall i | 0 <= i < low :: Compare(list[i].item, key) < 0
      invariant forall i | high < i < |list| :: Compare(list[i].item, key) > 0
    {
      var mid := (low + high) / 2;
      var cmp := EquipmentCompare(list[mid].item, key);
      if cmp < 0 {
        forall i | 0 <= i < mid
          ensures Compare(list[i].item, key) < 0
        {
          CompareTransitive(list[i].item, list[mid].item, key);
        }
        low := mid + 1;
      } else if cmp > 0 {
        forall i | mid < i < |list|
          ensures Compare(list[i].item, key) > 0
        {
          CompareFacts(list[mid].item, key);
          CompareFacts(list[i].item, key);
          CompareTransitive(key, list[mid].item, list[i].item);
        }
        high := mid - 1;
      } else {
        return mid;
      }
    }
    index := -(low + 1);
  }

  // ---------------------------------------------------------------------------
  // The stock as a function of the list

  /** The number of entries ordered before `e`. */
  ghost function Position(s: seq<ShopEquipment>, e: Equipment): (p: nat)
    ensures p <= |s|
  {
    if |s| == 0 then 0
    else Position(s[..|s| - 1], e) + (if Compare(s[|s| - 1].item, e) < 0 then 1 else 0)
  }

  /** In a sorted list the entries before `e` are a prefix. */
  lemma {:induction false} PositionSplits(s: seq<ShopEquipment>, e: Equipment)
    requires Sorted(s)
    ensures forall i | 0 <= i < Position(s, e) :: Compare(s[i].item, e) < 0
    ensures forall i | Position(s, e) <= i < |s| :: Compare(s[i].item, e) >= 0
  {
    if |s| > 0 {
      var n := |s| - 1;
      var prev := s[..n];
      assert Sorted(prev);
      PositionSplits(prev, e);
      if Compare(s[n].item, e) < 0 {
        forall i | 0 <= i < n
          ensures Compare(s[i].item, e) < 0
        {
          CompareTransitive(s[i].item, s[n].item, e);
        }
      }
    }
  }

  /** In a sorted list everything after the position of `e` is ordered after
      `e`. */
  lemma AfterPositionGreater(s: seq<ShopEquipment>, e: Equipment)
    requires Sorted(s)
    ensures forall j | Position(s, e) < j < |s| :: Compare(s[j].item, e) > 0
  {
    PositionSplits(s, e);
    var p := Position(s, e);
    forall j | p < j < |s|
      ensures Compare(s[j].item, e) > 0
    {
      CompareFacts(s[j].item, e);
      CompareFacts(s[p].item, e);
      if Compare(s[p].item, e) == 0 {
        CompareByKey(s[p].item, e, s[j].item);
      } else {
        CompareTransitive(e, s[p].item, s[j].item);
      }
    }
  }

  /** Whether the list holds an entry of the key of `e`. */
  ghost predicate Stocked(s: seq<ShopEquipment>, e: Equipment) {
    Position(s, e) < |s| && Compare(s[Position(s, e)].item, e) == 0
  }

  /** In a sorted list an entry of the key of `e` can only be at `Position`. */
  lemma EntryAtPosition(s: seq<ShopEquipment>, e: Equipment, q: nat)
    requires Sorted(s) && q < |s| && Compare(s[q].item, e) == 0
    ensures Stocked(s, e) && q == Position(s, e)
  {
    PositionSplits(s, e);
    AfterPositionGreater(s, e);
  }

  /** The binary search finds the entry of the key exactly when there is one,
      at `Position`, and otherwise answers `Position` as insertion point. */
  lemma SearchAgreesWithPosition(s: seq<ShopEquipment>, e: Equipment, index: int)
    requires Sorted(s)
    requires 0 <= index ==> index < |s| && Compare(s[index].item, e) == 0
    requires index < 0 ==> InsertionPoint(s, e, -1 - index)
    ensures 0 <= index <==> Stocked(s, e)
    ensures 0 <= index ==> index == Position(s, e)
    ensures index < 0 ==> -1 - index == Position(s, e)
  {
    PositionSplits(s, e);
    if 0 <= index {
      EntryAtPosition(s, e, index);
    }
  }

  /** How many copies of the key of `e` the list holds. */
  ghost function Stock(s: seq<ShopEquipment>, e: Equipment): int {
    if |s| == 0 then 0
    else Stock(s[..|s| - 1], e) + (if Compare(s[|s| - 1].item, e) == 0 then s[|s| - 1].count else 0)
  }

  lemma {:induction false} StockAppend(a: seq<ShopEquipment>, b: seq<ShopEquipment>, e: Equipment)
    ensures Stock(a + b, e) == Stock(a, e) + Stock(b, e)
    decreases |b|
  {
    if |b| == 0 {
      assert a + b == a;
    } else {
      assert (a + b)[..|a + b| - 1] == a + b[..|b| - 1];
      StockAppend(a, b[..|b| - 1], e);
    }
  }

  lemma {:induction false} StockOfOthers(s: seq<ShopEquipment>, e: Equipment)
    requires forall i | 0 <= i < |s| :: Compare(s[i].item, e) != 0
    ensures Stock(s, e) == 0
  {
    if |s| > 0 {
      StockOfOthers(s[..|s| - 1], e);
    }
  }

  /** The stock around one entry. */
  lemma StockAround(a: seq<ShopEquipment>, x: ShopEquipment, b: seq<ShopEquipment>, e: Equipment)
    ensures Stock(a + [x] + b, e) == Stock(a, e) + (if Compare(x.item, e) == 0 then x.count else 0) + Stock(b, e)
  {
    StockAppend(a + [x], b, e);
    StockAppend(a, [x], e);
    assert [x][..0] == [];
  }

  /** Items of one key have the same stock. */
  lemma {:induction false} StockRespectsKey(s: seq<ShopEquipment>, e: Equipment, k: Equipment)
    requires Compare(e, k) == 0
    ensures Stock(s, e) == Stock(s, k)
  {
    if |s| > 0 {
      StockRespectsKey(s[..|s| - 1], e, k);
      CompareFacts(s[|s| - 1].item, e);
      CompareFacts(s[|s| - 1].item, k);
      CompareByKey(e, k, s[|s| - 1].item);
      CompareFacts(e, s[|s| - 1].item);
    }
  }

  /** The stock of a list whose only entry of the key of `e` is at `p`. */
  lemma StockOfSingleEntry(s: seq<ShopEquipment>, e: Equipment, p: nat)
    requires p < |s| && Compare(s[p].item, e) == 0
    requires forall i | 0 <= i < |s| && i != p :: Compare(s[i].item, e) != 0
    ensures Stock(s, e) == s[p].count
  {
    assert s == s[..p] + [s[p]] + s[p + 1..];
    StockAround(s[..p], s[p], s[p + 1..], e);
    StockOfOthers(s[..p], e);
    StockOfOthers(s[p + 1..], e);
  }

  /** The stock of a sorted list is the count of the entry of the key, or 0. */
  lemma StockOfSorted(s: seq<ShopEquipment>, e: Equipment)
    requires Sorted(s)
    ensures Stock(s, e) == if Stocked(s, e) then s[Position(s, e)].count else 0
  {
    PositionSplits(s, e);
    AfterPositionGreater(s, e);
    var p := Position(s, e);
    if Stocked(s, e) {
      StockOfSingleEntry(s, e, p);
    } else {
      StockOfOthers(s, e);
    }
  }

  // ---------------------------------------------------------------------------
  // addEquipment and removeEquipment on values

  /** The list after adding `count` copies of `e`: the entry of its key, if
      any, keeps its item and gains `count` (in `int` arithmetic); otherwise a
      new entry is inserted where the order puts it. */
  ghost function Merged(s: seq<ShopEquipment>, e: Equipment, count: Int32): seq<ShopEquipment> {
    var p := Position(s, e);
    if Stocked(s, e) then s[p := ShopEquipment(s[p].item, Wrap32(s[p].count + count))]
    else s[..p] + [ShopEquipment(e, count)] + s[p..]
  }

  /** The list after taking `count` copies of the stocked `e`: the entry stays,
      even at zero. */
  ghost function Taken(s: seq<ShopEquipment>, e: Equipment, count: Int32): seq<ShopEquipment>
    requires Stocked(s, e) && s[Position(s, e)].count >= count >= 0
  {
    var p := Position(s, e);
    s[p := ShopEquipment(s[p].item, s[p].count - count)]
  }

  /** Changing the count of one entry keeps the list sorted. */
  lemma RecountKeepsOrder(s: seq<ShopEquipment>, p: nat, count: Int32)
    requires Sorted(s) && p < |s|
    ensures Sorted(s[p := ShopEquipment(s[p].item, count)])
  {
  }

  /** Changing the count of one entry changes the stock of its key only. */
  lemma RecountStock(s: seq<ShopEquipment>, p: nat, count: Int32, k: Equipment)
    requires p < |s|
    ensures Stock(s[p := ShopEquipment(s[p].item, count)], k)
              == Stock(s, k) + (if Compare(s[p].item, k) == 0 then count - s[p].count else 0)
  {
    var x := ShopEquipment(s[p].item, count);
    assert s == s[..p] + [s[p]] + s[p + 1..];
    assert s[p := x] == s[..p] + [x] + s[p + 1..];
    StockAround(s[..p], s[p], s[p + 1..], k);
    StockAround(s[..p], x, s[p + 1..], k);
  }

  /** Inserting at the position of a key that is not stocked keeps the list
      sorted. */
  lemma InsertKeepsOrder(s: seq<ShopEquipment>, e: Equipment, count: Int32)
    requires Sorted(s) && !Stocked(s, e)
    ensures Sorted(Merged(s, e, count))
  {
    PositionSplits(s, e);
    var p := Position(s, e);
    forall i | p <= i < |s|
      ensures Compare(e, s[i].item) < 0
    {
      CompareFacts(s[i].item, e);
    }
  }

  /** Inserting adds the new entry's count to the stock of its key only. */
  lemma InsertedStock(s: seq<ShopEquipment>, e: Equipment, count: Int32, k: Equipment)
    requires !Stocked(s, e)
    ensures Stock(Merged(s, e, count), k) == Stock(s, k) + (if Compare(e, k) == 0 then count else 0)
  {
    var p := Position(s, e);
    assert s == s[..p] + s[p..];
    StockAround(s[..p], ShopEquipment(e, count), s[p..], k);
    StockAppend(s[..p], s[p..], k);
  }

  /** `addEquipment` keeps the list sorted. */
  lemma MergedSorted(s: seq<ShopEquipment>, e: Equipment, count: Int32)
    requires Sorted(s)
    ensures Sorted(Merged(s, e, count))
  {
    if Stocked(s, e) {
      var p := Position(s, e);
      RecountKeepsOrder(s, p, Wrap32(s[p].count + count));
    } else {
      InsertKeepsOrder(s, e, count);
    }
  }

  /** `addEquipment` adds `count` copies to the stock of the key of `e` (in
      `int` arithmetic) and leaves every other key's stock alone. */
  lemma MergedMeaning(s: seq<ShopEquipment>, e: Equipment, count: Int32, k: Equipment)
    requires Sorted(s)
    ensures Sorted(Merged(s, e, count))
    ensures Compare(e, k) == 0 ==> Stock(Merged(s, e, count), k) == Wrap32(Stock(s, k) + count)
    ensures Compare(e, k) != 0 ==> Stock(Merged(s, e, count), k) == Stock(s, k)
  {
    MergedSorted(s, e, count);
    var before := Stock(s, e);
    assert before == if Stocked(s, e) then s[Position(s, e)].count else 0 by {
      StockOfSorted(s, e);
    }
    if Compare(e, k) == 0 {
      StockRespectsKey(s, e, k);
    }
    if Stocked(s, e) {
      RecountedStock(s, e, count, k);
    } else {
      InsertedStock(s, e, count, k);
    }
  }

  /** The stock after adding to the entry of a stocked key. */
  lemma RecountedStock(s: seq<ShopEquipment>, e: Equipment, count: Int32, k: Equipment)
    requires Stocked(s, e)
    ensures var p := Position(s, e);
            Stock(Merged(s, e, count), k)
              == Stock(s, k) + (if Compare(e, k) == 0 then Wrap32(s[p].count + count) - s[p].count else 0)
  {
    var p := Position(s, e);
    assert Merged(s, e, count) == s[p := ShopEquipment(s[p].item, Wrap32(s[p].count + count))];
    RecountStock(s, p, Wrap32(s[p].count + count), k);
    CompareByKey(s[p].item, e, k);
  }

  /** `removeEquipment` takes `count` copies from the stock of the key of `e`,
      leaves every other key's stock alone and keeps the list sorted. */
  lemma TakenMeaning(s: seq<ShopEquipment>, e: Equipment, count: Int32, k: Equipment)
    requires Sorted(s) && Stocked(s, e) && s[Position(s, e)].count >= count >= 0
    ensures Sorted(Taken(s, e, count)) && |Taken(s, e, count)| == |s|
    ensures Compare(e, k) == 0 ==> Stock(Taken(s, e, count), k) == Stock(s, k) - count
    ensures Compare(e, k) != 0 ==> Stock(Taken(s, e, count), k) == Stock(s, k)
  {
    var p := Position(s, e);
    RecountKeepsOrder(s, p, s[p].count - count);
    TakenStock(s, e, count, k);
  }

  lemma TakenStock(s: seq<ShopEquipment>, e: Equipment, count: Int32, k: Equipment)
    requires Stocked(s, e) && s[Position(s, e)].count >= count >= 0
    ensures Stock(Taken(s, e, count), k) == Stock(s, k) - (if Compare(e, k) == 0 then count else 0)
  {
    var p := Position(s, e);
    RecountStock(s, p, s[p].count - count, k);
    CompareByKey(s[p].item, e, k);
  }

  /** After `addEquipment` the key of `e` is stocked. */
  lemma MergedStocks(s: seq<ShopEquipment>, e: Equipment, count: Int32)
    requires Sorted(s)
    ensures Stocked(Merged(s, e, count), e)
    ensures Position(Merged(s, e, count), e) == Position(s, e)
  {
    var p := Position(s, e);
    var m := Merged(s, e, count);
    MergedSorted(s, e, count);
    CompareFacts(e, e);
    assert Compare(m[p].item, e) == 0;
    EntryAtPosition(m, e, p);
  }

  /** Adding copies and then removing as many restores every key's stock
      (short of `int` overflow). */
  lemma AddThenRemoveRestoresStock(s: seq<ShopEquipment>, e: Equipment, count: Int32, k: Equipment)
    requires Sorted(s) && count >= 0 && 0 <= Stock(s, e) && Stock(s, e) + count <= INT_MAX
    ensures Stocked(Merged(s, e, count), e)
    ensures var m := Merged(s, e, count);
            m[Position(m, e)].count >= count
            && Stock(Taken(m, e, count), k) == Stock(s, k)
  {
    var m := Merged(s, e, count);
    MergedStocks(s, e, count);
    MergedMeaning(s, e, count, e);
    MergedMeaning(s, e, count, k);
    CompareFacts(e, e);
    StockOfSorted(m, e);
    TakenMeaning(m, e, count, k);
    if Compare(e, k) == 0 {
      StockRespectsKey(s, e, k);
    }
  }

  // ---------------------------------------------------------------------------
  // The unit list

  /** `List.remove(Object)`: the first occurrence goes. Units do not override
      `equals`, so an occurrence is the same object. */
  function RemoveFirst(s: seq<Unit>, u: Unit): (r: seq<Unit>) {
    if |s| == 0 then []
    else if s[0] == u then s[1..]
    else [s[0]] + RemoveFirst(s[1..], u)
  }

  /** One occurrence fewer and nothing else changes. */
  lemma {:induction false} RemoveFirstMeaning(s: seq<Unit>, u: Unit)
    ensures u in s ==> multiset(RemoveFirst(s, u)) == multiset(s) - multiset{u}
    ensures u !in s ==> RemoveFirst(s, u) == s
  {
    if |s| > 0 {
      RemoveFirstMeaning(s[1..], u);
      assert s == [s[0]] + s[1..];
      assert multiset(s) == multiset{s[0]} + multiset(s[1..]);
      if s[0] != u {
        assert RemoveFirst(s, u) == [s[0]] + RemoveFirst(s[1..], u);
        assert u in s ==> u in s[1..];
      }
    }
  }

  /** Adding a unit the shop does not hold and removing it again restores the
      list. */
  lemma {:induction false} AddThenRemoveUnit(s: seq<Unit>, u: Unit)
    requires u !in s
    ensures RemoveFirst(s + [u], u) == s
  {
    if |s| > 0 {
      assert (s + [u])[1..] == s[1..] + [u];
      AddThenRemoveUnit(s[1..], u);
      assert s == [s[0]] + s[1..];
    }
  }

  // ---------------------------------------------------------------------------
  // The shop

  class Shop {
    var units: seq<Unit>
    var equipment: seq<ShopEquipment>

    ghost predicate Valid()
      reads this
    {
      Sorted(equipment)
    }

    /** `Shop(tags...)`: the tags are ignored; the shop starts empty. */
    constructor (tags: seq<string>)
      ensures Valid() && units == [] && equipment == []
    {
      units, equipment := [], [];
    }

    /** `addUnit(unit)`: a null unit is a null pointer; any other is appended. */
    method AddUnit(unit: Option<Unit>) returns (r: Result<bool>)
      modifies this
      ensures unit.None? ==> r == Fail(NullPointer) && unchanged(this)
      ensures unit.Some? ==> r == Ok(true) && units == old(units) + [unit.value] && equipment == old(equipment)
    {
      if unit.Some? {
        units := units + [unit.value];
        return Ok(true);
      } else {
        return Fail(NullPointer);
      }
    }

    /** `removeUnit(unit)`: removes the first occurrence and says whether there
        was one; null is never held. */
    method RemoveUnit(unit: Option<Unit>) returns (removed: bool)
      modifies this
      ensures unit.None? ==> !removed && unchanged(this)
      ensures unit.Some? ==> removed == (unit.value in old(units))
                             && units == RemoveFirst(old(units), unit.value) && equipment == old(equipment)
    {
      if unit.None? {
        return false;
      }
      removed := unit.value in units;
      units := RemoveFirst(units, unit.value);
    }

    /** `addEquipment(equipment, count)`: a negative count is an invalid
        argument; a null item or a zero count changes nothing; otherwise the
        copies are merged into the sorted list. */
    method AddEquipment(item: Option<Equipment>, count: Int32) returns (r: Result<bool>)
      requires Valid()
      modifies this
      ensures Valid() && units == old(units)
      ensures count < 0 ==> r == Fail(IllegalArgument) && equipment == old(equipment)
      ensures count >= 0 && (item.None? || count == 0) ==> r == Ok(false) && equipment == old(equipment)
      ensures count > 0 && item.Some? ==> r == Ok(true) && equipment == Merged(old(equipment), item.value, count)
    {
      if count < 0 {
        return Fail(IllegalArgument);
      }
      if item.Some? && count > 0 {
        var index := BinarySearch(equipment, item.value);
        SearchAgreesWithPosition(equipment, item.value, index);
        MergedSorted(equipment, item.value, count);
        if index >= 0 {
          var replaced := equipment[index];
          equipment := equipment[index := ShopEquipment(replaced.item, Wrap32(replaced.count + count))];
          return Ok(true);
        } else {
          var p := -1 - index;
          equipment := equipment[..p] + [ShopEquipment(item.value, count)] + equipment[p..];
          return Ok(true);
        }
      }
      return Ok(false);
    }

    /** `addEquipment(equipment)`: one copy. */
    method AddOneEquipment(item: Option<Equipment>) returns (r: Result<bool>)
      requires Valid()
      modifies this
      ensures Valid() && units == old(units)
      ensures item.None? ==> r == Ok(false) && equipment == old(equipment)
      ensures item.Some? ==> r == Ok(true) && equipment == Merged(old(equipment), item.value, 1)
    {
      r := AddEquipment(item, 1);
    }

    /** `removeEquipment(item, count)`: a negative count is an invalid
        argument and a zero count answers true; a null item finds nothing in an
        empty list and is dereferenced by the comparator otherwise; an entry
        with fewer copies than `count` is an invalid argument; otherwise the
        copies are taken and the entry stays. */
    method RemoveEquipment(item: Option<Equipment>, count: Int32) returns (r: Result<bool>)
      requires Valid()
      modifies this
      ensures Valid() && units == old(units)
      ensures count < 0 ==> r == Fail(IllegalArgument) && equipment == old(equipment)
      ensures count == 0 ==> r == Ok(true) && equipment == old(equipment)
      ensures count > 0 && item.None? ==>
                r == (if old(equipment) == [] then Ok(false) else Fail(NullPointer)) && equipment == old(equipment)
      ensures count > 0 && item.Some? && !Stocked(old(equipment), item.value) ==>
                r == Ok(false) && equipment == old(equipment)
      ensures count > 0 && item.Some? && Stocked(old(equipment), item.value)
              && old(equipment)[Position(old(equipment), item.value)].count < count ==>
                r == Fail(IllegalArgument) && equipment == old(equipment)
      ensures count > 0 && item.Some? && Stocked(old(equipment), item.value)
              && old(equipment)[Position(old(equipment), item.value)].count >= count ==>
                r == Ok(true) && equipment == Taken(old(equipment), item.value, count)
    {
      if count < 0 {
        return Fail(IllegalArgument);
      }
      if count == 0 {
        return Ok(true);
      }
      if item.None? {
        if equipment == [] {
          return Ok(false);
        }
        return Fail(NullPointer);
      }
      var index := BinarySearch(equipment, item.value);
      SearchAgreesWithPosition(equipment, item.value, index);
      if index >= 0 {
        var altered := equipment[index];
        if altered.count < count {
          return Fail(IllegalArgument);
        }
        TakenMeaning(equipment, item.value, count, item.value);
        equipment := equipment[index := ShopEquipment(altered.item, altered.count - count)];
        return Ok(true);
      }
      return Ok(false);
    }

    /** `removeEquipment(item)`: one copy. */
    method RemoveOneEquipment(item: Option<Equipment>) returns (r: Result<bool>)
      requires Valid()
      modifies this
      ensures Valid() && units == old(units)
      ensures item.None? ==> r == (if old(equipment) == [] then Ok(false) else Fail(NullPointer))
                             && equipment == old(equipment)
      ensures item.Some? && !Stocked(old(equipment), item.value) ==> r == Ok(false) && equipment == old(equipment)
      ensures item.Some? && Stocked(old(equipment), item.value)
              && old(equipment)[Position(old(equipment), item.value)].count < 1 ==>
                r == Fail(IllegalArgument) && equipment == old(equipment)
      ensures item.Some? && Stocked(old(equipment), item.value)
              && old(equipment)[Position(old(equipment), item.value)].count >= 1 ==>
                r == Ok(true) && equipment == Taken(old(equipment), item.value, 1)
    {
      r := RemoveEquipment(item, 1);
    }
  }
}
