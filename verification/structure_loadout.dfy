/** Structure tracks (StructureLoadout.java): the internal structure of one
    hit location, or a structural damage or repair event when the maximum is
    absent. */
module StructureLoadouts {
  import opened JavaLang
  import opened HitLocations
  import opened Tracks

  /** The `(HitLocation, Short, short)` constructor of the subclass. */
  function NewStructureFromShorts(location: Option<HitLocation>, maximum: Option<int>, current: Int16)
    : (r: Result<StructureTrack>)
    requires maximum.Some? ==> IsShort(maximum.value)
    ensures r.Ok? <==> (maximum.Some? ==> current <= maximum.value)
    ensures r.Ok? ==> r.value == HitLocationTrack(Structure, location, maximum, current)
    ensures r.Fail? ==> r.error == IllegalArgument
  {
    match NewTrackFromShorts(Structure, location, maximum, current)
    case Ok(t) => Ok(t)
    case Fail(e) => Fail(e)
  }

  /** The `(HitLocation, Integer, int)` constructor of the subclass. */
  function NewStructure(location: Option<HitLocation>, maximum: Option<int>, current: int): (r: Result<StructureTrack>)
    requires IsInt(current) && (maximum.Some? ==> IsInt(maximum.value))
    ensures r.Ok? <==> HitLocationTrack(Structure, location, maximum, current).Valid()
    ensures r.Ok? ==> r.value == HitLocationTrack(Structure, location, maximum, current)
    ensures r.Fail? ==> r.error == IllegalArgument
  {
    match NewTrack(Structure, location, maximum, current)
    case Ok(t) => Ok(t)
    case Fail(e) => Fail(e)
  }

  /** The overriding `addMaximum`: it stays a structure track; an absent
      maximum becomes `amount`. */
  function AddMaximum(t: StructureTrack, amount: Int32): (r: Result<StructureTrack>)
    ensures r.Ok? <==> IsShort(AddedMaximum(t.max, amount)) && t.current <= AddedMaximum(t.max, amount)
    ensures r.Ok? ==> r.value == HitLocationTrack(Structure, t.location, Some(AddedMaximum(t.max, amount)), t.current)
    ensures r.Fail? ==> r.error == IllegalArgument
  {
    WrappedSumRange(t.max.GetOr(0), amount);
    NewStructure(t.location, Some(if t.max.None? then amount else Wrap32(t.max.value + amount)), t.current)
  }

  /** The overriding `addCurrent`: the maximum is kept and the new current value
      only has to be a `short` not above a defined maximum. */
  function AddCurrent(t: StructureTrack, amount: Int32): (r: Result<StructureTrack>)
    ensures r.Ok? <==> IsShort(t.current + amount) && (t.max.Some? ==> t.current + amount <= t.max.value)
    ensures r.Ok? ==> r.value == HitLocationTrack(Structure, t.location, t.max, t.current + amount)
    ensures r.Fail? ==> r.error == IllegalArgument
  {
    WrappedSumRange(t.current, amount);
    NewStructure(t.location, t.max, Wrap32(t.current + amount))
  }

  /** A structural damage event: every non-negative `short` is accepted, and the
      event is the delta `-amount` with no maximum. */
  function OfDamage(location: Option<HitLocation>, amount: Int16): (r: Result<StructureTrack>)
    ensures r.Ok? <==> amount >= 0
    ensures r.Ok? ==> r.value == HitLocationTrack(Structure, location, None, -amount)
    ensures r.Fail? ==> r.error == IllegalArgument
  {
    if amount < 0 then Fail(IllegalArgument)
    else NewStructureFromShorts(location, None, Wrap16(-amount))
  }

  /** A structural repair event: the delta `+amount` with no maximum. */
  function OfRepair(location: Option<HitLocation>, amount: Int16): (r: Result<StructureTrack>)
    ensures r.Ok? <==> amount >= 0
    ensures r.Ok? ==> r.value == HitLocationTrack(Structure, location, None, amount)
    ensures r.Fail? ==> r.error == IllegalArgument
  {
    if amount < 0 then Fail(IllegalArgument)
    else NewStructureFromShorts(location, None, amount)
  }
}
