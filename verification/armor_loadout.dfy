/** Armor tracks (ArmorLoadout.java): the armor of one hit location, or an
    armor damage or repair event when the maximum is absent. */
module ArmorLoadouts {
  import opened JavaLang
  import opened HitLocations
  import opened Tracks

  /** The `(HitLocation, Integer, int)` constructor of the subclass. */
  function NewArmor(location: Option<HitLocation>, maximum: Option<int>, current: int): (r: Result<ArmorTrack>)
    requires IsInt(current) && (maximum.Some? ==> IsInt(maximum.value))
    ensures r.Ok? <==> HitLocationTrack(Armor, location, maximum, current).Valid()
    ensures r.Ok? ==> r.value == HitLocationTrack(Armor, location, maximum, current)
    ensures r.Fail? ==> r.error == IllegalArgument
  {
    match NewTrack(Armor, location, maximum, current)
    case Ok(t) => Ok(t)
    case Fail(e) => Fail(e)
  }

  /** The initial armor of a location: nothing mounted yet. */
  function NewInitialArmor(location: Option<HitLocation>, maximum: Int32): (r: Result<ArmorTrack>)
    ensures r.Ok? <==> 0 <= maximum <= SHORT_MAX
    ensures r.Ok? ==> r.value == HitLocationTrack(Armor, location, Some(maximum), 0)
    ensures r.Fail? ==> r.error == IllegalArgument
  {
    NewArmor(location, Some(maximum), 0)
  }

  /** The overriding `addMaximum`: unlike the base version it stays an armor
      track; an absent maximum becomes `amount`. */
  function AddMaximum(t: ArmorTrack, amount: Int32): (r: Result<ArmorTrack>)
    ensures r.Ok? <==> IsShort(AddedMaximum(t.max, amount)) && t.current <= AddedMaximum(t.max, amount)
    ensures r.Ok? ==> r.value == HitLocationTrack(Armor, t.location, Some(AddedMaximum(t.max, amount)), t.current)
    ensures r.Fail? ==> r.error == IllegalArgument
  {
    WrappedSumRange(t.max.GetOr(0), amount);
    NewArmor(t.location, Some(if t.max.None? then amount else Wrap32(t.max.value + amount)), t.current)
  }

  /** The overriding `addCurrent`: the maximum (defined or not) is kept, and
      the only limits are the `short` range and a defined maximum; in particular
      armor may go below zero. */
  function AddCurrent(t: ArmorTrack, amount: Int32): (r: Result<ArmorTrack>)
    ensures r.Ok? <==> IsShort(t.current + amount) && (t.max.Some? ==> t.current + amount <= t.max.value)
    ensures r.Ok? ==> r.value == HitLocationTrack(Armor, t.location, t.max, t.current + amount)
    ensures r.Fail? ==> r.error == IllegalArgument
  {
    WrappedSumRange(t.current, amount);
    NewArmor(t.location, t.max, Wrap32(t.current + amount))
  }

  /** An armor damage event: a delta of `-amount` with no maximum. */
  function OfDamage(location: Option<HitLocation>, amount: Int32): (r: Result<ArmorTrack>)
    ensures r.Ok? <==> 0 <= amount <= -SHORT_MIN
    ensures r.Ok? ==> r.value == HitLocationTrack(Armor, location, None, -amount)
    ensures r.Fail? ==> r.error == IllegalArgument
  {
    if amount < 0 then Fail(IllegalArgument)
    else NewArmor(location, None, -amount)
  }

  /** An armor repair event: a delta of `+amount` with no maximum. */
  function OfRepair(location: Option<HitLocation>, amount: Int32): (r: Result<ArmorTrack>)
    ensures r.Ok? <==> 0 <= amount <= SHORT_MAX
    ensures r.Ok? ==> r.value == HitLocationTrack(Armor, location, None, amount)
    ensures r.Fail? ==> r.error == IllegalArgument
  {
    if amount < 0 then Fail(IllegalArgument)
    else NewArmor(location, None, amount)
  }
}
