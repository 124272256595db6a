/** The loadout controller (LoadoutController.java): equipment placed at hit
    locations, the per-location entry conversions, the controller's
    constructors and the tonnage-budgeted `Loadout`. */
module LoadoutControllers {
  import opened JavaLang
  import opened HitLocations
  import opened Equipments

  /** An `EquipmentLoadout`: one item (possibly null) at one location. */
  datatype EquipmentLoadout = EquipmentLoadout(location: Option<HitLocation>, equipment: Option<Equipment>)

  // ---------------------------------------------------------------------------
  // LoadoutEntry

  /** The equipment of the non-null entries at `location`, in order. */
  function KeptAt(items: seq<Option<EquipmentLoadout>>, location: Option<HitLocation>): seq<Option<Equipment>> {
    if |items| == 0 then []
    else
      var item := items[|items| - 1];
      KeptAt(items[..|items| - 1], location)
        + (if item.Some? && item.value.location == location then [item.value.equipment] else [])
  }

  lemma KeptAtAppend(a: seq<Option<EquipmentLoadout>>, b: seq<Option<EquipmentLoadout>>, location: Option<HitLocation>)
    ensures KeptAt(a + b, location) == KeptAt(a, location) + KeptAt(b, location)
    decreases |b|
  {
    if |b| == 0 {
      assert a + b == a;
    } else {
      assert (a + b)[..|a + b| - 1] == a + b[..|b| - 1];
      KeptAtAppend(a, b[..|b| - 1], location);
    }
  }

  /** A `LoadoutEntry`: a location and its equipment array. The constructor
      taking a collection is this constructor itself: it copies the collection
      in order, nulls included. */
  datatype LoadoutEntry = LoadoutEntry(key: Option<HitLocation>, value: seq<Option<Equipment>>)
  {
    /** `toEquipmentArray()`: the key paired with each item, in order. */
    method ToEquipmentArray() returns (result: seq<EquipmentLoadout>)
      ensures |result| == |value|
      ensures forall i | 0 <= i < |result| :: result[i] == EquipmentLoadout(key, value[i])
    {
      result := [];
      var i := 0;
      while i < |value|
        invariant 0 <= i <= |value|
        invariant |result| == i
        invariant forall j | 0 <= j < i :: result[j] == EquipmentLoadout(key, value[j])
      {
        result := result + [EquipmentLoadout(key, value[i])];
        i := i + 1;
      }
    }
  }

  /** The `(HitLocation, EquipmentLoadout[])` constructor: keeps, in order,
      the equipment of the non-null entries whose location is `location`. */
  method NewLoadoutEntry(location: Option<HitLocation>, equipment: seq<Option<EquipmentLoadout>>)
    returns (entry: LoadoutEntry)
    ensures entry == LoadoutEntry(location, KeptAt(equipment, location))
  {
    var content: seq<Option<Equipment>> := [];
    for i := 0 to |equipment|
      invariant content == KeptAt(equipment[..i], location)
    {
      assert equipment[..i + 1][..i] == equipment[..i];
      var item := equipment[i];
      if item.Some? && item.value.location == location {
        content := content + [item.value.equipment];
      }
    }
    assert equipment[..|equipment|] == equipment;
    entry := LoadoutEntry(location, content);
  }

  /** What `toEquipmentArray` returns, as non-null references. */
  function Pairs(entry: LoadoutEntry): (r: seq<Option<EquipmentLoadout>>)
    ensures |r| == |entry.value|
    ensures forall i | 0 <= i < |r| :: r[i].Some? && r[i].value.location == entry.key
  {
    seq(|entry.value|, i requires 0 <= i < |entry.value| => Some(EquipmentLoadout(entry.key, entry.value[i])))
  }

  /** Converting an entry to loadouts and back gives the entry again, and the
      loadouts of an entry are invisible at every other location. */
  lemma {:induction false} EntryRoundTrip(entry: LoadoutEntry, location: Option<HitLocation>)
    ensures KeptAt(Pairs(entry), location) == if location == entry.key then entry.value else []
    decreases |entry.value|
  {
    if |entry.value| > 0 {
      var shorter := LoadoutEntry(entry.key, entry.value[..|entry.value| - 1]);
      assert Pairs(entry)[..|entry.value| - 1] == Pairs(shorter);
      EntryRoundTrip(shorter, location);
      assert entry.value[..|entry.value| - 1] + [entry.value[|entry.value| - 1]] == entry.value;
    }
  }

  // ---------------------------------------------------------------------------
  // The controller

  /** A controller's fields. No constructor ever puts anything in the base
      loadout. */
  datatype Controller = Controller(
    maxTonnage: real,
    availableTonnage: real,
    baseLoadout: map<Option<HitLocation>, seq<Equipment>>)

  /** A base loadout map as its entries in iteration order; a value may be a
      null collection. */
  type BaseLoadout = seq<(Option<HitLocation>, Option<seq<Option<Equipment>>>)>

  /** `LoadoutController(max, available, base)`: both tonnages are stored as
      given. The loop appends each of the caller's collections to itself and
      leaves the controller's own base loadout empty; a null collection is
      dereferenced. */
  function NewController(maxTonnage: real, availableTonnage: real, base: Option<BaseLoadout>): (r: Result<Controller>)
    ensures r.Ok? <==> base.None? || forall i | 0 <= i < |base.value| :: base.value[i].1.Some?
    ensures r.Ok? ==> r.value.maxTonnage == maxTonnage && r.value.availableTonnage == availableTonnage
    ensures r.Ok? ==> r.value.baseLoadout == map[]
    ensures r.Fail? ==> r.error == NullPointer
  {
    if base.Some? && exists i | 0 <= i < |base.value| :: base.value[i].1.None? then Fail(NullPointer)
    else Ok(Controller(maxTonnage, availableTonnage, map[]))
  }

  /** `LoadoutController(max, available)`: an empty base loadout. */
  function NewPlainController(maxTonnage: real, availableTonnage: real): (r: Controller)
    ensures NewController(maxTonnage, availableTonnage, Some([])) == Ok(r)
    ensures r.maxTonnage == maxTonnage && r.availableTonnage == availableTonnage && r.baseLoadout == map[]
  {
    Controller(maxTonnage, availableTonnage, map[])
  }

  /** `LoadoutController(max, base)`: the available tonnage starts at the
      maximum. The loop subtracts an item's mass and then adds the item to the
      controller's own base list, which was never created, so the first item
      (or a null item, or a null collection) ends in a null dereference. */
  method NewControllerFromBase(maxTonnage: real, base: Option<BaseLoadout>) returns (r: Result<Controller>)
    ensures r.Ok? <==> base.None? || forall i | 0 <= i < |base.value| :: base.value[i].1 == Some([])
    ensures r.Ok? ==> r.value == Controller(maxTonnage, maxTonnage, map[])
    ensures r.Fail? ==> r.error == NullPointer
  {
    var available := maxTonnage;
    var baseLoadout: map<Option<HitLocation>, seq<Equipment>> := map[];
    if base.Some? {
      for i := 0 to |base.value|
        invariant forall j | 0 <= j < i :: base.value[j].1 == Some([])
        invariant available == maxTonnage
      {
        var collection := base.value[i].1;
        if collection.None? {
          return Fail(NullPointer);
        }
        if |collection.value| > 0 {
          var item := collection.value[0];
          if item.None? {
            return Fail(NullPointer);
          }
          available := available - item.value.mass;
          // The list `baseLoadout.get(key)` of the still empty base loadout is
          // null, so adding the item to it throws.
          return Fail(NullPointer);
        }
      }
    }
    return Ok(Controller(maxTonnage, available, baseLoadout));
  }

  // ---------------------------------------------------------------------------
  // Loadout: the state, its invariant and its operations on values

  type Content = map<Option<HitLocation>, seq<Equipment>>

  /** The observable state of a `Loadout`: the lists per location and the
      running total `getTonnage()` reports. */
  datatype LoadoutState = LoadoutState(content: Content, total: real)

  /** The list at a location; an absent key reads as an empty list. */
  function ItemsAt(content: Content, location: Option<HitLocation>): seq<Equipment> {
    if location in content then content[location] else []
  }

  function SeqMass(items: seq<Equipment>): real {
    if |items| == 0 then 0.0 else SeqMass(items[..|items| - 1]) + items[|items| - 1].mass
  }

  /** Some key of a non-empty set. */
  ghost function Pick(keys: set<Option<HitLocation>>): (k: Option<HitLocation>)
    requires keys != {}
    ensures k in keys
  {
    var k :| k in keys; k
  }

  /** The mass of the lists at `keys`. */
  ghost function MassOver(content: Content, keys: set<Option<HitLocation>>): real
    requires keys <= content.Keys
    decreases keys
  {
    if keys == {} then 0.0
    else
      var k := Pick(keys);
      SeqMass(content[k]) + MassOver(content, keys - {k})
  }

  /** The mass of every item in every list. */
  ghost function TotalMass(content: Content): real {
    MassOver(content, content.Keys)
  }

  /** The running total matches the content. */
  ghost predicate Consistent(s: LoadoutState) {
    s.total == TotalMass(s.content)
  }

  /** `MassOver` may take any key first. */
  lemma {:induction false} MassOverRemove(content: Content, keys: set<Option<HitLocation>>, k: Option<HitLocation>)
    requires keys <= content.Keys && k in keys
    ensures MassOver(content, keys) == SeqMass(content[k]) + MassOver(content, keys - {k})
    decreases keys
  {
    var j := Pick(keys);
    if j != k {
      MassOverRemove(content, keys - {j}, k);
      MassOverRemove(content, keys - {k}, j);
      assert keys - {j} - {k} == keys - {k} - {j};
    }
  }

  /** `MassOver` reads only the lists at `keys`. */
  lemma {:induction false} MassOverFrame(c1: Content, c2: Content, keys: set<Option<HitLocation>>)
    requires keys <= c1.Keys && keys <= c2.Keys
    requires forall k | k in keys :: c1[k] == c2[k]
    ensures MassOver(c1, keys) == MassOver(c2, keys)
    decreases keys
  {
    if keys != {} {
      MassOverFrame(c1, c2, keys - {Pick(keys)});
    }
  }

  /** Replacing one list changes the total by the difference of the masses. */
  lemma TotalMassUpdate(content: Content, k: Option<HitLocation>, items: seq<Equipment>)
    ensures TotalMass(content[k := items]) == TotalMass(content) - SeqMass(ItemsAt(content, k)) + SeqMass(items)
  {
    var updated := content[k := items];
    MassOverRemove(updated, updated.Keys, k);
    assert updated.Keys - {k} == content.Keys - {k};
    MassOverFrame(updated, content, content.Keys - {k});
    if k in content {
      MassOverRemove(content, content.Keys, k);
    } else {
      assert content.Keys - {k} == content.Keys;
    }
  }

  lemma {:induction false} SeqMassRemoveAt(items: seq<Equipment>, i: nat)
    requires i < |items|
    ensures SeqMass(items[..i] + items[i + 1..]) == SeqMass(items) - items[i].mass
    decreases |items|
  {
    var n := |items| - 1;
    var rest := items[..i] + items[i + 1..];
    if i == n {
      assert rest == items[..n];
    } else {
      SeqMassRemoveAt(items[..n], i);
      assert rest[..n - 1] == items[..n][..i] + items[..n][i + 1..];
      assert rest[n - 1] == items[n];
      assert SeqMass(rest) == SeqMass(rest[..n - 1]) + rest[n - 1].mass;
    }
  }

  /** `List.indexOf`: the first position of the item (by identity), or -1. */
  function IndexOf(items: seq<Equipment>, e: Equipment): (r: int)
    ensures r == -1 <==> e !in items
    ensures r >= 0 ==> r < |items| && items[r] == e && e !in items[..r]
  {
    if |items| == 0 then -1
    else if items[0] == e then 0
    else
      var r := IndexOf(items[1..], e);
      assert items == [items[0]] + items[1..];
      if r < 0 then -1
      else
        assert items[..r + 1] == [items[0]] + items[1..][..r];
        r + 1
  }

  /** A successful `addEquipment`: the item goes last in its location's list
      (created when missing), and its mass is added to the total. */
  function Added(s: LoadoutState, location: Option<HitLocation>, e: Equipment): LoadoutState {
    LoadoutState(s.content[location := ItemsAt(s.content, location) + [e]], s.total + e.mass)
  }

  /** `addEquipment(location, equipment)` on the state: a null item is an
      invalid argument; a strict loadout refuses to go over the available
      tonnage; a lenient one does not check. */
  function AddSpec(s: LoadoutState, strict: bool, available: real, location: Option<HitLocation>,
                   equipment: Option<Equipment>): Result<LoadoutState>
  {
    if equipment.None? then Fail(IllegalArgument)
    else if strict && s.total + equipment.value.mass > available then Fail(IllegalArgument)
    else Ok(Added(s, location, equipment.value))
  }

  /** `removeEquipment(location, equipment)` on the state: the first identical
      item at the location is removed and its mass subtracted; otherwise
      nothing changes. An emptied list stays in the map. */
  function RemoveSpec(s: LoadoutState, location: Option<HitLocation>, equipment: Option<Equipment>): LoadoutState {
    if equipment.Some? && location in s.content && IndexOf(s.content[location], equipment.value) >= 0 then
      var items := s.content[location];
      var i := IndexOf(items, equipment.value);
      LoadoutState(s.content[location := items[..i] + items[i + 1..]], s.total - items[i].mass)
    else s
  }

  /** `addEquipment` fails exactly on a null item or, in strict mode, on an item
      that would take the total over the available tonnage, and then always
      with an invalid argument. */
  lemma AddSpecFailures(s: LoadoutState, strict: bool, available: real, location: Option<HitLocation>,
                        equipment: Option<Equipment>)
    ensures AddSpec(s, strict, available, location, equipment).Fail? <==>
              equipment.None? || (strict && s.total + equipment.value.mass > available)
    ensures AddSpec(s, strict, available, location, equipment).Fail? ==>
              AddSpec(s, strict, available, location, equipment).error == IllegalArgument
  {
  }

  /** A successful add appends the item to its location's list, creating the
      list when missing, leaves every other location alone and keeps the
      total consistent. */
  lemma AddedMeaning(s: LoadoutState, location: Option<HitLocation>, e: Equipment)
    ensures Added(s, location, e).content.Keys == s.content.Keys + {location}
    ensures ItemsAt(Added(s, location, e).content, location) == ItemsAt(s.content, location) + [e]
    ensures forall k | k != location :: ItemsAt(Added(s, location, e).content, k) == ItemsAt(s.content, k)
    ensures Consistent(s) ==> Consistent(Added(s, location, e))
  {
    AddedConsistent(s, location, e);
  }

  lemma AddedConsistent(s: LoadoutState, location: Option<HitLocation>, e: Equipment)
    ensures Consistent(s) ==> Consistent(Added(s, location, e))
  {
    var items := ItemsAt(s.content, location);
    TotalMassUpdate(s.content, location, items + [e]);
    assert (items + [e])[..|items|] == items;
    assert SeqMass(items + [e]) == SeqMass(items) + e.mass;
  }

  /** A strict loadout never goes over its available tonnage. */
  lemma StrictAddStaysWithinBudget(s: LoadoutState, available: real, location: Option<HitLocation>,
                                   equipment: Option<Equipment>)
    requires s.total <= available && AddSpec(s, true, available, location, equipment).Ok?
    ensures AddSpec(s, true, available, location, equipment).value.total <= available
  {
  }

  /** A lenient loadout accepts an item that takes it over budget. */
  lemma LenientMayExceedBudget(location: Option<HitLocation>, e: Equipment)
    requires e.mass > 1.0
    ensures AddSpec(LoadoutState(map[], 0.0), false, 1.0, location, Some(e)).Ok?
    ensures AddSpec(LoadoutState(map[], 0.0), false, 1.0, location, Some(e)).value.total > 1.0
    ensures AddSpec(LoadoutState(map[], 0.0), true, 1.0, location, Some(e)) == Fail(IllegalArgument)
  {
  }

  /** `removeEquipment` removes exactly the first identical item, keeps every
      other location and the total consistent. */
  lemma RemoveSpecMeaning(s: LoadoutState, location: Option<HitLocation>, e: Equipment)
    requires e in ItemsAt(s.content, location)
    ensures var t := RemoveSpec(s, location, Some(e));
            var items := ItemsAt(s.content, location);
            var i := IndexOf(items, e);
            t.content.Keys == s.content.Keys
            && ItemsAt(t.content, location) == items[..i] + items[i + 1..]
            && (forall k | k != location :: ItemsAt(t.content, k) == ItemsAt(s.content, k))
            && t.total == s.total - e.mass
            && (Consistent(s) ==> Consistent(t))
  {
    RemovedConsistent(s, location, e);
  }

  lemma RemovedConsistent(s: LoadoutState, location: Option<HitLocation>, e: Equipment)
    requires e in ItemsAt(s.content, location)
    ensures Consistent(s) ==> Consistent(RemoveSpec(s, location, Some(e)))
  {
    var items := ItemsAt(s.content, location);
    var i := IndexOf(items, e);
    TotalMassUpdate(s.content, location, items[..i] + items[i + 1..]);
    SeqMassRemoveAt(items, i);
  }

  /** Removing an item that is not at the location changes nothing. */
  lemma RemoveAbsentIsNoOp(s: LoadoutState, location: Option<HitLocation>, equipment: Option<Equipment>)
    requires equipment.None? || equipment.value !in ItemsAt(s.content, location)
    ensures RemoveSpec(s, location, equipment) == s
  {
  }

  /** Adding a new item and removing it again restores the lists (with the
      location's list kept, possibly empty) and the total. */
  lemma AddThenRemove(s: LoadoutState, strict: bool, available: real, location: Option<HitLocation>, e: Equipment)
    requires e !in ItemsAt(s.content, location)
    requires AddSpec(s, strict, available, location, Some(e)).Ok?
    ensures RemoveSpec(AddSpec(s, strict, available, location, Some(e)).value, location, Some(e))
              == LoadoutState(s.content[location := ItemsAt(s.content, location)], s.total)
  {
    var items := ItemsAt(s.content, location);
    var added := AddSpec(s, strict, available, location, Some(e)).value;
    assert added.content[location] == items + [e];
    var i := IndexOf(items + [e], e);
    assert (items + [e])[|items|] == e;
    assert (items + [e])[..|items|] == items;
    assert i == |items|;
    assert (items + [e])[..i] + (items + [e])[i + 1..] == items;
  }

  /** The fold of `addEquipment` over (location, item) pairs, as the
      constructors perform it; the first exception ends it. */
  function AddAll(s: LoadoutState, strict: bool, available: real,
                  pairs: seq<(Option<HitLocation>, Option<Equipment>)>): Result<LoadoutState>
  {
    if |pairs| == 0 then Ok(s)
    else
      match AddAll(s, strict, available, pairs[..|pairs| - 1])
      case Fail(err) => Fail(err)
      case Ok(t) => AddSpec(t, strict, available, pairs[|pairs| - 1].0, pairs[|pairs| - 1].1)
  }

  /** Adding the pairs of `a + b` is adding those of `a` and then, unless that
      threw, those of `b`. */
  lemma {:induction false} AddAllAppend(s: LoadoutState, strict: bool, available: real,
                                        a: seq<(Option<HitLocation>, Option<Equipment>)>,
                                        b: seq<(Option<HitLocation>, Option<Equipment>)>)
    ensures AddAll(s, strict, available, a + b)
              == match AddAll(s, strict, available, a)
                 case Fail(err) => Fail(err)
                 case Ok(t) => AddAll(t, strict, available, b)
    decreases |b|
  {
    if |b| == 0 {
      assert a + b == a;
    } else {
      assert (a + b)[..|a + b| - 1] == a + b[..|b| - 1];
      AddAllAppend(s, strict, available, a, b[..|b| - 1]);
    }
  }

  /** A `Map<HitLocation, Equipment[]>` given as its entries in iteration
      order; a value may be a null array. */
  type MapEntries = seq<(Option<HitLocation>, Option<seq<Option<Equipment>>>)>

  /** The (location, item) pairs of one array of the map. */
  function Located(location: Option<HitLocation>, items: seq<Option<Equipment>>)
    : (r: seq<(Option<HitLocation>, Option<Equipment>)>)
    ensures |r| == |items| && forall i | 0 <= i < |r| :: r[i] == (location, items[i])
  {
    seq(|items|, i requires 0 <= i < |items| => (location, items[i]))
  }

  /** The loop of the map constructor, entry after entry: a null array is
      dereferenced when its entry is reached, after the items of the earlier
      entries were added; the first exception ends it. */
  function AddMap(s: LoadoutState, strict: bool, available: real, loadout: MapEntries): Result<LoadoutState> {
    if |loadout| == 0 then Ok(s)
    else
      match AddMap(s, strict, available, loadout[..|loadout| - 1])
      case Fail(err) => Fail(err)
      case Ok(t) =>
        var (location, items) := loadout[|loadout| - 1];
        if items.None? then Fail(NullPointer)
        else AddAll(t, strict, available, Located(location, items.value))
  }

  /** The pairs of a map without null arrays, entry after entry. */
  function MapPairs(loadout: MapEntries): (r: seq<(Option<HitLocation>, Option<Equipment>)>)
    requires forall i | 0 <= i < |loadout| :: loadout[i].1.Some?
  {
    if |loadout| == 0 then []
    else
      var (location, items) := loadout[|loadout| - 1];
      MapPairs(loadout[..|loadout| - 1]) + Located(location, items.value)
  }

  /** Without null arrays the map constructor is the fold of `addEquipment`
      over all its (location, item) pairs. */
  lemma {:induction false} AddMapWithoutNulls(s: LoadoutState, strict: bool, available: real, loadout: MapEntries)
    requires forall i | 0 <= i < |loadout| :: loadout[i].1.Some?
    ensures AddMap(s, strict, available, loadout) == AddAll(s, strict, available, MapPairs(loadout))
  {
    if |loadout| > 0 {
      var prefix := loadout[..|loadout| - 1];
      var (location, items) := loadout[|loadout| - 1];
      AddMapWithoutNulls(s, strict, available, prefix);
      AddAllAppend(s, strict, available, MapPairs(prefix), Located(location, items.value));
    }
  }

  /** Once an entry of the map has thrown, later entries do not matter. */
  lemma {:induction false} AddMapFailurePersists(s: LoadoutState, strict: bool, available: real,
                                                 loadout: MapEntries, i: nat)
    requires i <= |loadout| && AddMap(s, strict, available, loadout[..i]).Fail?
    ensures AddMap(s, strict, available, loadout) == AddMap(s, strict, available, loadout[..i])
    decreases |loadout| - i
  {
    if i < |loadout| {
      assert loadout[..i + 1][..i] == loadout[..i];
      AddMapFailurePersists(s, strict, available, loadout, i + 1);
    } else {
      assert loadout[..i] == loadout;
    }
  }

  /** The pairs of an `Entry[]` without null entries; `NullPointer` when one is
      null. */
  function EntryPairs(entries: seq<Option<EquipmentLoadout>>): Result<seq<(Option<HitLocation>, Option<Equipment>)>> {
    if exists i | 0 <= i < |entries| :: entries[i].None? then Fail(NullPointer)
    else Ok(seq(|entries|, i requires 0 <= i < |entries| => (entries[i].value.location, entries[i].value.equipment)))
  }

  /** The loop of the entries constructor: a null entry is dereferenced when
      it is reached, after the earlier entries were added; the first
      exception ends it. */
  function AddEntries(s: LoadoutState, strict: bool, available: real,
                      entries: seq<Option<EquipmentLoadout>>): Result<LoadoutState>
  {
    if |entries| == 0 then Ok(s)
    else
      match AddEntries(s, strict, available, entries[..|entries| - 1])
      case Fail(err) => Fail(err)
      case Ok(t) =>
        var entry := entries[|entries| - 1];
        if entry.None? then Fail(NullPointer)
        else AddSpec(t, strict, available, entry.value.location, entry.value.equipment)
  }

  /** Without null entries the entries constructor is the fold of
      `addEquipment` over the entries' pairs. */
  lemma {:induction false} AddEntriesWithoutNulls(s: LoadoutState, strict: bool, available: real,
                                                  entries: seq<Option<EquipmentLoadout>>)
    requires EntryPairs(entries).Ok?
    ensures AddEntries(s, strict, available, entries) == AddAll(s, strict, available, EntryPairs(entries).value)
  {
    if |entries| > 0 {
      var prefix := entries[..|entries| - 1];
      assert forall i | 0 <= i < |prefix| :: prefix[i] == entries[i];
      assert EntryPairs(prefix).Ok?;
      assert EntryPairs(entries).value[..|entries| - 1] == EntryPairs(prefix).value;
      AddEntriesWithoutNulls(s, strict, available, prefix);
    }
  }

  /** Once an entry has thrown, later entries do not matter. */
  lemma {:induction false} AddEntriesFailurePersists(s: LoadoutState, strict: bool, available: real,
                                                     entries: seq<Option<EquipmentLoadout>>, i: nat)
    requires i <= |entries| && AddEntries(s, strict, available, entries[..i]).Fail?
    ensures AddEntries(s, strict, available, entries) == AddEntries(s, strict, available, entries[..i])
    decreases |entries| - i
  {
    if i < |entries| {
      assert entries[..i + 1][..i] == entries[..i];
      AddEntriesFailurePersists(s, strict, available, entries, i + 1);
    } else {
      assert entries[..i] == entries;
    }
  }

  /** With a null entry at `i`, the first one, the constructor throws the
      exception of an earlier `addEquipment` if one threw, and otherwise a
      `NullPointerException`. */
  lemma AddEntriesFirstNull(s: LoadoutState, strict: bool, available: real,
                            entries: seq<Option<EquipmentLoadout>>, i: nat)
    requires i < |entries| && entries[i].None? && forall j | 0 <= j < i :: entries[j].Some?
    ensures EntryPairs(entries[..i]).Ok?
    ensures AddEntries(s, strict, available, entries)
              == match AddAll(s, strict, available, EntryPairs(entries[..i]).value)
                 case Fail(err) => Fail(err)
                 case Ok(_) => Fail(NullPointer)
  {
    assert EntryPairs(entries[..i]).Ok?;
    AddEntriesWithoutNulls(s, strict, available, entries[..i]);
    assert entries[..i + 1][..i] == entries[..i];
    AddEntriesFailurePersists(s, strict, available, entries, i + 1);
  }

  /** Every strict fold from a state within budget stays within budget, and
      every fold keeps the total consistent. */
  lemma {:induction false} AddAllInvariants(s: LoadoutState, strict: bool, available: real,
                                            pairs: seq<(Option<HitLocation>, Option<Equipment>)>)
    requires AddAll(s, strict, available, pairs).Ok?
    ensures Consistent(s) ==> Consistent(AddAll(s, strict, available, pairs).value)
    ensures strict && s.total <= available ==> AddAll(s, strict, available, pairs).value.total <= available
  {
    if |pairs| > 0 {
      var prefix := pairs[..|pairs| - 1];
      AddAllInvariants(s, strict, available, prefix);
      var t := AddAll(s, strict, available, prefix).value;
      AddedMeaning(t, pairs[|pairs| - 1].0, pairs[|pairs| - 1].1.value);
    }
  }

  // ---------------------------------------------------------------------------
  // Loadout: the object

  /** A `Loadout` of a controller. `availableTonnage` is the enclosing
      controller's. */
  class Loadout {
    var content: Content
    var totalTonnage: real
    const strict: bool
    const availableTonnage: real

    function State(): LoadoutState
      reads this
    {
      LoadoutState(content, totalTonnage)
    }

    /** The class invariant: `getTonnage()` is the mass of the content. */
    ghost predicate Valid()
      reads this
    {
      Consistent(State())
    }

    /** An empty loadout, before the constructors' loops add anything. */
    constructor Empty(controller: Controller, strict: bool)
      ensures State() == LoadoutState(map[], 0.0) && Valid()
      ensures this.strict == strict && availableTonnage == controller.availableTonnage
    {
      content := map[];
      totalTonnage := 0.0;
      this.strict := strict;
      availableTonnage := controller.availableTonnage;
    }

    /** `getTonnage()`. */
    function Tonnage(): (t: real)
      reads this
      requires Valid()
      ensures t == TotalMass(content)
    {
      totalTonnage
    }

    /** `addEquipment(location, equipment)`; `thrown` is the exception, if any. */
    method AddEquipment(location: Option<HitLocation>, equipment: Option<Equipment>) returns (thrown: Option<Error>)
      requires Valid()
      modifies this
      ensures var r := AddSpec(old(State()), strict, availableTonnage, location, equipment);
              (r.Fail? ==> thrown == Some(r.error) && State() == old(State()))
              && (r.Ok? ==> thrown.None? && State() == r.value)
      ensures Valid()
    {
      if equipment.None? {
        return Some(IllegalArgument);
      }
      if strict && totalTonnage + equipment.value.mass > availableTonnage {
        return Some(IllegalArgument);
      }
      AddedConsistent(State(), location, equipment.value);
      ghost var added := Added(State(), location, equipment.value);
      if location !in content {
        content := content[location := []];
      }
      content := content[location := content[location] + [equipment.value]];
      totalTonnage := totalTonnage + equipment.value.mass;
      assert State() == added;
      thrown := None;
    }

    /** `removeEquipment(location, equipment)`: always answers false. */
    method RemoveEquipment(location: Option<HitLocation>, equipment: Option<Equipment>) returns (modified: bool)
      requires Valid()
      modifies this
      ensures !modified
      ensures State() == RemoveSpec(old(State()), location, equipment)
      ensures Valid()
    {
      if equipment.Some? && location in content {
        var index := IndexOf(content[location], equipment.value);
        if index >= 0 {
          RemovedConsistent(State(), location, equipment.value);
          var removed := content[location][index];
          content := content[location := content[location][..index] + content[location][index + 1..]];
          totalTonnage := totalTonnage - removed.mass;
        }
      }
      return false;
    }

    /** `toArray()` with the map's iteration order given as `order`: each
        location's list becomes a `LoadoutEntry` and then its loadouts. */
    function ToArray(order: seq<Option<HitLocation>>): (r: seq<Option<EquipmentLoadout>>)
      reads this
      requires forall k | k in order :: k in content
      requires forall k | k in content :: k in order
      requires forall i, j | 0 <= i < j < |order| :: order[i] != order[j]
      ensures forall i | 0 <= i < |r| :: r[i].Some?
      ensures forall k :: KeptAt(r, k) == if k in content then Wrap(content[k]) else []
    {
      forall k ensures KeptAt(Flatten(content, order), k) == if k in content then Wrap(content[k]) else [] {
        FlattenRegroups(content, order, k);
      }
      Flatten(content, order)
    }
  }

  /** The items of a list as non-null references. */
  function Wrap(items: seq<Equipment>): (r: seq<Option<Equipment>>)
    ensures |r| == |items| && forall i | 0 <= i < |r| :: r[i] == Some(items[i])
  {
    seq(|items|, i requires 0 <= i < |items| => Some(items[i]))
  }

  /** The loadouts of the lists at `order`, location after location. */
  function Flatten(content: Content, order: seq<Option<HitLocation>>): (r: seq<Option<EquipmentLoadout>>)
    requires forall k | k in order :: k in content
    ensures forall i | 0 <= i < |r| :: r[i].Some? && r[i].value.location in order
  {
    if |order| == 0 then []
    else
      var k := order[|order| - 1];
      Flatten(content, order[..|order| - 1]) + Pairs(LoadoutEntry(k, Wrap(content[k])))
  }

  /** Regrouping the array by location gives back each location's list, in
      order, whatever the iteration order of the map. */
  lemma {:induction false} FlattenRegroups(content: Content, order: seq<Option<HitLocation>>, k: Option<HitLocation>)
    requires forall j | j in order :: j in content
    requires forall i, j | 0 <= i < j < |order| :: order[i] != order[j]
    ensures KeptAt(Flatten(content, order), k) == if k in order then Wrap(content[k]) else []
    decreases |order|
  {
    if |order| > 0 {
      var last := order[|order| - 1];
      var prefix := order[..|order| - 1];
      var entry := LoadoutEntry(last, Wrap(content[last]));
      var a := Flatten(content, prefix);
      var b := Pairs(entry);
      assert Flatten(content, order) == a + b;
      DistinctPrefix(content, order, prefix);
      FlattenRegroups(content, prefix, k);
      KeptAtAppend(a, b, k);
      EntryRoundTrip(entry, k);
      assert order == prefix + [last];
    }
  }

  /** Dropping the last location keeps the prefix's locations present and
      distinct, and the last location does not occur in the prefix. */
  lemma DistinctPrefix(content: Content, order: seq<Option<HitLocation>>, prefix: seq<Option<HitLocation>>)
    requires |order| > 0 && prefix == order[..|order| - 1]
    requires forall j | j in order :: j in content
    requires forall i, j | 0 <= i < j < |order| :: order[i] != order[j]
    ensures forall j | j in prefix :: j in content
    ensures forall i, j | 0 <= i < j < |prefix| :: prefix[i] != prefix[j]
    ensures order[|order| - 1] !in prefix
  {
    forall j | j in prefix ensures j in content {
      var i :| 0 <= i < |prefix| && prefix[i] == j;
      assert order[i] == j;
    }
    forall i | 0 <= i < |prefix| ensures prefix[i] != order[|order| - 1] {
      assert prefix[i] == order[i];
    }
  }

  /** `new Loadout(loadout, strict)` from a map given as its entries in
      iteration order: a null map is dereferenced, and every item of every
      entry is added in turn. */
  method NewLoadoutFromMap(controller: Controller, loadout: Option<MapEntries>, strict: bool)
    returns (l: Loadout, thrown: Option<Error>)
    ensures fresh(l) && l.Valid() && l.strict == strict && l.availableTonnage == controller.availableTonnage
    ensures loadout.None? ==> thrown == Some(NullPointer)
    ensures loadout.Some? ==>
              var r := AddMap(LoadoutState(map[], 0.0), strict, controller.availableTonnage, loadout.value);
              (r.Fail? ==> thrown == Some(r.error)) && (r.Ok? ==> thrown.None? && l.State() == r.value)
  {
    l := new Loadout.Empty(controller, strict);
    if loadout.None? {
      return l, Some(NullPointer);
    }
    var entries := loadout.value;
    ghost var s0 := LoadoutState(map[], 0.0);
    for i := 0 to |entries|
      invariant l.Valid() && l.strict == strict && l.availableTonnage == controller.availableTonnage
      invariant AddMap(s0, strict, controller.availableTonnage, entries[..i]) == Ok(l.State())
    {
      assert entries[..i + 1][..i] == entries[..i];
      var (location, items) := entries[i];
      if items.None? {
        AddMapFailurePersists(s0, strict, controller.availableTonnage, entries, i + 1);
        return l, Some(NullPointer);
      }
      ghost var t := l.State();
      ghost var pairs := Located(location, items.value);
      for j := 0 to |items.value|
        invariant l.Valid() && l.strict == strict && l.availableTonnage == controller.availableTonnage
        invariant AddAll(t, strict, controller.availableTonnage, pairs[..j]) == Ok(l.State())
      {
        assert pairs[..j + 1][..j] == pairs[..j];
        thrown := l.AddEquipment(location, items.value[j]);
        if thrown.Some? {
          AddAllFailurePersists(t, strict, controller.availableTonnage, pairs, j + 1);
          AddMapFailurePersists(s0, strict, controller.availableTonnage, entries, i + 1);
          return;
        }
      }
      assert pairs[..|items.value|] == pairs;
    }
    assert entries[..|entries|] == entries;
    thrown := None;
  }

  /** `new Loadout(entries, strict)`: every entry is added in turn, and the
      first null entry is dereferenced (see `AddEntriesFirstNull`). */
  method NewLoadoutFromEntries(controller: Controller, entries: seq<Option<EquipmentLoadout>>, strict: bool)
    returns (l: Loadout, thrown: Option<Error>)
    ensures fresh(l) && l.Valid() && l.strict == strict && l.availableTonnage == controller.availableTonnage
    ensures var r := AddEntries(LoadoutState(map[], 0.0), strict, controller.availableTonnage, entries);
            (r.Fail? ==> thrown == Some(r.error)) && (r.Ok? ==> thrown.None? && l.State() == r.value)
  {
    l := new Loadout.Empty(controller, strict);
    ghost var s0 := LoadoutState(map[], 0.0);
    for i := 0 to |entries|
      invariant l.Valid() && l.strict == strict && l.availableTonnage == controller.availableTonnage
      invariant AddEntries(s0, strict, controller.availableTonnage, entries[..i]) == Ok(l.State())
    {
      assert entries[..i + 1][..i] == entries[..i];
      if entries[i].None? {
        AddEntriesFailurePersists(s0, strict, controller.availableTonnage, entries, i + 1);
        return l, Some(NullPointer);
      }
      thrown := l.AddEquipment(entries[i].value.location, entries[i].value.equipment);
      if thrown.Some? {
        AddEntriesFailurePersists(s0, strict, controller.availableTonnage, entries, i + 1);
        return;
      }
    }
    assert entries[..|entries|] == entries;
    thrown := None;
  }

  /** `new Loadout(entries)`: a lenient loadout. */
  method NewLenientLoadout(controller: Controller, entries: seq<Option<EquipmentLoadout>>)
    returns (l: Loadout, thrown: Option<Error>)
    ensures fresh(l) && l.Valid() && !l.strict && l.availableTonnage == controller.availableTonnage
    ensures var r := AddEntries(LoadoutState(map[], 0.0), false, controller.availableTonnage, entries);
            (r.Fail? ==> thrown == Some(r.error)) && (r.Ok? ==> thrown.None? && l.State() == r.value)
  {
    l, thrown := NewLoadoutFromEntries(controller, entries, false);
  }

  /** Once an `addEquipment` has thrown, the constructor has thrown. */
  lemma {:induction false} AddAllFailurePersists(s: LoadoutState, strict: bool, available: real,
                                                 pairs: seq<(Option<HitLocation>, Option<Equipment>)>, i: nat)
    requires i <= |pairs| && AddAll(s, strict, available, pairs[..i]).Fail?
    ensures AddAll(s, strict, available, pairs) == AddAll(s, strict, available, pairs[..i])
    decreases |pairs| - i
  {
    if i < |pairs| {
      assert pairs[..i + 1][..i] == pairs[..i];
      AddAllFailurePersists(s, strict, available, pairs, i + 1);
    } else {
      assert pairs[..i] == pairs;
    }
  }
}
