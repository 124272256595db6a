/** Bounded hit-location tracks (HitLocationTrack.java): a location, an
    optional maximum and a current value, both 16-bit. A track with no maximum
    is a pure delta that does not alter the maximum. */
module Tracks {
  import opened JavaLang
  import opened HitLocations

  /** The runtime class of a track object. `Base` is an anonymous subclass of the
      abstract `HitLocationTrack`, the class of what the base class's own
      `addMaximum` and `addCurrent` return. */
  datatype Kind = Base | Armor | Structure

  datatype HitLocationTrack = HitLocationTrack(
    kind: Kind,
    location: Option<HitLocation>,
    max: Option<int>,
    current: int)
  {
    /** What every constructor guarantees: both values are `short`s and the
        current value does not exceed a defined maximum. */
    predicate Valid() {
      IsShort(current) && (max.Some? ==> IsShort(max.value) && current <= max.value)
    }
  }

  /** A constructed track object of any class. */
  type Track = t: HitLocationTrack | t.Valid() witness HitLocationTrack(Base, None, None, 0)

  /** An `ArmorLoadout` object. */
  type ArmorTrack = t: Track | t.kind == Armor witness HitLocationTrack(Armor, None, None, 0)

  /** A `StructureLoadout` object. */
  type StructureTrack = t: Track | t.kind == Structure witness HitLocationTrack(Structure, None, None, 0)

  /** The `(HitLocation, Integer, int)` constructor: it range-checks both values
      and compares them; every failure is an IllegalArgumentException. */
  function NewTrack(kind: Kind, location: Option<HitLocation>, maximum: Option<int>, current: int): (r: Result<Track>)
    requires IsInt(current) && (maximum.Some? ==> IsInt(maximum.value))
    ensures r.Ok? <==> HitLocationTrack(kind, location, maximum, current).Valid()
    ensures r.Ok? ==> r.value == HitLocationTrack(kind, location, maximum, current)
    ensures r.Fail? ==> r.error == IllegalArgument
  {
    if current < SHORT_MIN then Fail(IllegalArgument)
    else if current > SHORT_MAX then Fail(IllegalArgument)
    else if maximum.Some? && maximum.value < SHORT_MIN then Fail(IllegalArgument)
    else if maximum.Some? && maximum.value > SHORT_MAX then Fail(IllegalArgument)
    else if maximum.Some? && current > maximum.value then Fail(IllegalArgument)
    else Ok(HitLocationTrack(kind, location, maximum, current))
  }

  /** The `(HitLocation, Short, short)` constructor: its arguments are already
      `short`s, so it only rejects a current value above a defined maximum. */
  function NewTrackFromShorts(kind: Kind, location: Option<HitLocation>, maximum: Option<int>, current: Int16)
    : (r: Result<Track>)
    requires maximum.Some? ==> IsShort(maximum.value)
    ensures r.Ok? <==> (maximum.Some? ==> current <= maximum.value)
    ensures r.Ok? ==> r.value == HitLocationTrack(kind, location, maximum, current)
    ensures r.Fail? ==> r.error == IllegalArgument
  {
    if maximum.Some? && current > maximum.value then Fail(IllegalArgument)
    else Ok(HitLocationTrack(kind, location, maximum, current))
  }

  /** On `short` arguments the two constructors agree, and neither rejects a
      negative current value or a negative maximum. */
  lemma ConstructorsAgreeOnShorts(kind: Kind, location: Option<HitLocation>, maximum: Option<int>, current: Int16)
    requires maximum.Some? ==> IsShort(maximum.value)
    ensures NewTrackFromShorts(kind, location, maximum, current) == NewTrack(kind, location, maximum, current)
    ensures current < 0 && (maximum.Some? ==> current <= maximum.value) ==>
              NewTrack(kind, location, maximum, current).Ok?
  {
  }

  /** The maximum after adding `amount`: an absent maximum becomes `amount`. */
  function AddedMaximum(max: Option<int>, amount: int): int {
    if max.None? then amount else max.value + amount
  }

  /** The base `addMaximum`: a new track of the anonymous base class with
      `max' = AddedMaximum(max, amount)`, location and current unchanged. The
      `int` sum may overflow in Java; the range check then rejects it exactly as
      it rejects the true sum. */
  function BaseAddMaximum(t: Track, amount: Int32): (r: Result<Track>)
    ensures r.Ok? <==> IsShort(AddedMaximum(t.max, amount)) && t.current <= AddedMaximum(t.max, amount)
    ensures r.Ok? ==> r.value == HitLocationTrack(Base, t.location, Some(AddedMaximum(t.max, amount)), t.current)
    ensures r.Fail? ==> r.error == IllegalArgument
  {
    WrappedSumRange(t.max.GetOr(0), amount);
    NewTrack(Base, t.location, Some(if t.max.None? then amount else Wrap32(t.max.value + amount)), t.current)
  }

  /** When the base `addCurrent` accepts a non-zero `amount`, stated in exact
      arithmetic. A decrease needs a defined maximum (an absent one turns into
      the negative `amount`, below the new current) and must not go below zero.
      An increase against a defined maximum must land exactly on it: the test
      `current < max - amount` rejects every sum below the maximum and the
      constructor every sum above it. An increase with no maximum sets the
      maximum to `amount`, which is a `short` at or above the new current only
      when the old current is not positive. */
  predicate BaseCurrentAccepted(t: Track, amount: int) {
    if amount < 0 then t.max.Some? && t.current + amount >= 0
    else if t.max.Some? then t.current + amount == t.max.value
    else amount <= SHORT_MAX && t.current <= 0
  }

  /** The base `addCurrent`, as written: a zero amount returns the receiver
      itself; otherwise the result keeps a defined maximum (or takes `amount` as
      its maximum) and adds `amount` to the current value. */
  function BaseAddCurrent(t: Track, amount: Int32): (r: Result<Track>)
    ensures amount == 0 ==> r == Ok(t)
    ensures amount != 0 ==> (r.Ok? <==> BaseCurrentAccepted(t, amount))
    ensures amount != 0 && r.Ok? ==>
              r.value == HitLocationTrack(Base, t.location, Some(t.max.GetOr(amount)), t.current + amount)
    ensures r.Fail? ==> r.error == IllegalArgument
  {
    WrappedSumRange(t.current, amount);
    if amount < 0 then
      if Wrap32(t.current + amount) < 0 then Fail(IllegalArgument)
      else NewTrack(Base, t.location, Some(if t.max.None? then amount else t.max.value), Wrap32(t.current + amount))
    else if amount == 0 then Ok(t)
    else if t.max.Some? && t.current < Wrap32(t.max.value - amount) then Fail(IllegalArgument)
    else NewTrack(Base, t.location, Some(if t.max.None? then amount else t.max.value), Wrap32(t.current + amount))
  }

  /** The inverted bound of the base `addCurrent`: an increase that would stay
      strictly below a defined maximum is rejected, although the message of that
      branch says the test guards against exceeding the maximum. */
  lemma BaseIncreaseBelowMaximumRejected(t: Track, amount: Int32)
    requires t.max.Some? && amount > 0 && t.current + amount < t.max.value
    ensures BaseAddCurrent(t, amount) == Fail(IllegalArgument)
  {
  }
}
