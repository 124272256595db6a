/** Virtual dispatch of `addMaximum` and `addCurrent` on the runtime class of a
    track, and the algebra of the two deltas. */
module TrackDispatch {
  import opened JavaLang
  import opened Tracks
  import ArmorLoadouts
  import StructureLoadouts

  /** `track.addMaximum(amount)` on a track of any class. Every class returns a
      track of its own class. */
  function AddMaximum(t: Track, amount: Int32): (r: Result<Track>)
    ensures r.Ok? ==> r.value.kind == t.kind && r.value.location == t.location && r.value.current == t.current
    ensures r.Ok? ==> r.value.max == Some(AddedMaximum(t.max, amount))
    ensures r.Ok? <==> IsShort(AddedMaximum(t.max, amount)) && t.current <= AddedMaximum(t.max, amount)
    ensures r.Fail? ==> r.error == IllegalArgument
  {
    match t.kind
    case Base => BaseAddMaximum(t, amount)
    case Armor => match ArmorLoadouts.AddMaximum(t, amount) { case Ok(a) => Ok(a) case Fail(e) => Fail(e) }
    case Structure => match StructureLoadouts.AddMaximum(t, amount) { case Ok(s) => Ok(s) case Fail(e) => Fail(e) }
  }

  /** `track.addCurrent(amount)` on a track of any class. The overrides keep the
      maximum as it is and check only the range and a defined maximum; the base
      class follows its own rules. */
  function AddCurrent(t: Track, amount: Int32): (r: Result<Track>)
    ensures r.Ok? ==> r.value.kind == t.kind && r.value.location == t.location
    ensures r.Ok? ==> r.value.current == t.current + amount
    ensures t.kind != Base ==>
              (r.Ok? <==> IsShort(t.current + amount) && (t.max.Some? ==> t.current + amount <= t.max.value))
    ensures t.kind != Base && r.Ok? ==> r.value.max == t.max
    ensures t.kind == Base ==> r == BaseAddCurrent(t, amount)
    ensures r.Fail? ==> r.error == IllegalArgument
  {
    match t.kind
    case Base => BaseAddCurrent(t, amount)
    case Armor => match ArmorLoadouts.AddCurrent(t, amount) { case Ok(a) => Ok(a) case Fail(e) => Fail(e) }
    case Structure => match StructureLoadouts.AddCurrent(t, amount) { case Ok(s) => Ok(s) case Fail(e) => Fail(e) }
  }

  /** A zero current delta yields a track equal to the receiver in every class:
      the base class returns the receiver itself, the overrides an equal copy. */
  lemma ZeroCurrentDeltaIsIdentity(t: Track)
    ensures AddCurrent(t, 0) == Ok(t)
  {
  }

  /** For armor and structure, a current delta is undone by its opposite: a
      damage event followed by an equal repair restores the track. */
  lemma CurrentDeltaUndone(t: Track, amount: Int32)
    requires t.kind != Base && AddCurrent(t, amount).Ok?
    ensures -amount >= INT_MIN && AddCurrent(AddCurrent(t, amount).value, -amount) == Ok(t)
  {
  }

  /** For armor and structure tracks with a defined maximum, a maximum delta is
      undone by its opposite. */
  lemma MaximumDeltaUndone(t: Track, amount: Int32)
    requires t.kind != Base && t.max.Some? && AddMaximum(t, amount).Ok?
    ensures -amount >= INT_MIN && AddMaximum(AddMaximum(t, amount).value, -amount) == Ok(t)
  {
  }

  /** The base class refuses to take a current value below zero while the
      overrides accept it: the zero floor belongs to the base class only. */
  lemma ZeroFloorOnlyInBase(t: Track, amount: Int32)
    requires t.max.Some? && amount < 0 && t.current + amount < 0 && IsShort(t.current + amount)
    ensures t.kind == Base ==> AddCurrent(t, amount) == Fail(IllegalArgument)
    ensures t.kind != Base ==> AddCurrent(t, amount).Ok?
  {
  }
}
