/** Hit locations of a unit (HitLocation.java): a plain location has a name and
    an abbreviation; a slotted one also has a critical-slot capacity. */
module HitLocations {
  import opened JavaLang

  /** A `HitLocation` object. The class does not override `equals`, so two
      locations are the same key only when they are the same object; `id` stands
      for that identity. `critSlotCapacity` is present exactly for a
      `SlottedHitLocation`, whose field is widened from a `short`. */
  datatype HitLocation = HitLocation(
    id: nat,
    name: Option<string>,
    abbrev: Option<string>,
    critSlotCapacity: Option<int>)

  /** `new HitLocation(name, abbrev)`: no validation, null names included. */
  function NewHitLocation(id: nat, name: Option<string>, abbrev: Option<string>): (r: HitLocation)
    ensures r.id == id && r.name == name && r.abbrev == abbrev
    ensures r.critSlotCapacity.None?
  {
    HitLocation(id, name, abbrev, None)
  }

  /** `new SlottedHitLocation(name, abbrev, critSlotCapacity)`: the capacity is a
      `short`, so it lies in the 16-bit range; a negative one is accepted. */
  function NewSlottedHitLocation(id: nat, name: Option<string>, abbrev: Option<string>, critSlotCapacity: Int16)
    : (r: HitLocation)
    ensures r.id == id && r.name == name && r.abbrev == abbrev
    ensures r.critSlotCapacity == Some(critSlotCapacity as int)
    ensures IsShort(r.critSlotCapacity.value)
  {
    HitLocation(id, name, abbrev, Some(critSlotCapacity as int))
  }

  /** Two locations allocated separately are different keys even when their
      names and abbreviations agree. */
  lemma SeparateAllocationsDiffer(id1: nat, id2: nat, name: Option<string>, abbrev: Option<string>)
    requires id1 != id2
    ensures NewHitLocation(id1, name, abbrev) != NewHitLocation(id2, name, abbrev)
  {
  }
}
