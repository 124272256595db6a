/** The unit builder (`Unit.UnitBuilder` in Unit.java): a builder that either
    changes itself (mutable mode) or answers with a new builder (copy-on-write
    mode). */
module UnitBuilders {
  import opened JavaLang
  import opened HitLocations
  import opened Tracks
  import opened LoadoutControllers
  import opened TrackSummaries
  import opened GameRules
  import opened Units
  import opened ModelNames
  import StructureLoadouts

  /** Whether `addStructure` lets `amount` through against the maximum `max`:
      an increase up to the maximum, a decrease whose `int` sum with the
      maximum is not negative. */
  predicate StructureAmountAccepted(max: int, amount: Int32) {
    if amount >= 0 then amount <= max else Wrap32(amount + max) >= 0
  }

  /** Against a non-negative maximum the test is exact: the amount lies
      between `-max` and `max`. */
  lemma StructureAmountBounds(max: Int16, amount: Int32)
    requires max >= 0
    ensures StructureAmountAccepted(max, amount) <==> -max <= amount <= max
  {
  }

  /** The structure entry `addStructure` appends: a repair of the amount, or a
      damage of its negation, each cast to `short`. */
  function StructureDelta(location: Option<HitLocation>, amount: Int32): Result<StructureTrack> {
    if amount >= 0 then StructureLoadouts.OfRepair(location, Wrap16(amount))
    else StructureLoadouts.OfDamage(location, Wrap16(-(amount as int)))
  }

  /** An accepted amount against a non-negative maximum always yields its
      entry, which moves the current value by exactly that amount. */
  lemma AcceptedStructureDelta(location: Option<HitLocation>, max: Int16, amount: Int32)
    requires max >= 0 && StructureAmountAccepted(max, amount)
    ensures StructureDelta(location, amount) == Ok(HitLocationTrack(Structure, location, None, amount))
  {
  }

  class UnitBuilder {
    var unitType: Option<UnitType>
    var name: Option<string>
    var model: Option<string>
    var tonnage: real
    var availableTonnage: real
    var equipment: seq<Option<EquipmentLoadout>>
    var armor: seq<ArmorTrack>
    var structure: seq<StructureTrack>
    const isMutable: bool

    /** The fields other than the model and the structure. */
    ghost function Rest(): (Option<UnitType>, Option<string>, real, real, seq<Option<EquipmentLoadout>>,
                            seq<ArmorTrack>)
      reads this
    {
      (unitType, name, tonnage, availableTonnage, equipment, armor)
    }

    /** No operation assigns the type, the name, the tonnages or the
        equipment, and no operation can add armor or structure to an empty
        list: every builder stays in this state, and only its model varies. */
    ghost predicate Reachable()
      reads this
    {
      Rest() == (None, None, 0.0, 0.0, [], []) && structure == []
    }

    /** `UnitBuilder(isMutable)`. */
    constructor (isMutable: bool)
      ensures this.isMutable == isMutable && model.None? && Reachable()
    {
      this.isMutable := isMutable;
      unitType, name, model := None, None, None;
      tonnage, availableTonnage := 0.0, 0.0;
      equipment, armor, structure := [], [], [];
    }

    /** `UnitBuilder()`: copy-on-write mode. */
    constructor Default()
      ensures !isMutable && model.None? && Reachable()
    {
      isMutable := false;
      unitType, name, model := None, None, None;
      tonnage, availableTonnage := 0.0, 0.0;
      equipment, armor, structure := [], [], [];
    }

    /** The copy constructor as the builder calls it: the mode of `source`,
        the model when the property is "model" (`model` is then `Some`) and
        nothing else of `source`. */
    constructor Copy(source: UnitBuilder, model: Option<string>)
      ensures isMutable == source.isMutable && this.model == model && Reachable()
    {
      isMutable := source.isMutable;
      unitType, name, this.model := None, None, model;
      tonnage, availableTonnage := 0.0, 0.0;
      equipment, armor, structure := [], [], [];
    }

    /** `setModel(model)`: a null model is an invalid argument and an invalid
        model leaves the builder as it is; a valid one is stored in mutable mode
        and carried by a new builder in copy-on-write mode. */
    method SetModel(cat: Categories, model: Option<string>) returns (r: Result<UnitBuilder>)
      requires cat.DashIsNeither()
      modifies this
      ensures model.None? ==> r == Fail(IllegalArgument) && unchanged(this)
      ensures model.Some? && !MatchesPattern(cat, model.value) ==> r == Ok(this) && unchanged(this)
      ensures model.Some? && MatchesPattern(cat, model.value) && isMutable ==>
                r == Ok(this) && this.model == model && Rest() == old(Rest()) && structure == old(structure)
      ensures model.Some? && MatchesPattern(cat, model.value) && !isMutable ==>
                r.Ok? && fresh(r.value) && r.value.model == model && !r.value.isMutable && r.value.Reachable()
                && unchanged(this)
      ensures old(Reachable()) ==> Reachable()
    {
      if model.None? {
        return Fail(IllegalArgument);
      } else if IsValidModel(cat, model.value) {
        if isMutable {
          this.model := model;
          return Ok(this);
        } else {
          var copy := new UnitBuilder.Copy(this, model);
          return Ok(copy);
        }
      } else {
        return Ok(this);
      }
    }

    /** `addMaxArmor(location, amount)`. `getArmorLoadout` never yields a
        track, so the loadout read first is null unless it throws: a zero
        amount returns the builder, any other amount dereferences the null
        loadout, and the branches that would add armor cannot be reached. */
    method AddMaxArmor(location: Option<HitLocation>, amount: Int32) returns (r: Result<UnitBuilder>)
      modifies this
      ensures unchanged(this)
      ensures ArmorLoadoutOf(armor, location).Fail? ==> r == Fail(ArmorLoadoutOf(armor, location).error)
      ensures ArmorLoadoutOf(armor, location).Ok? ==> r == (if amount == 0 then Ok(this) else Fail(NullPointer))
      ensures Reachable() ==> r == (if amount == 0 then Ok(this) else Fail(NullPointer))
    {
      ArmorLoadoutNeverYieldsTrack(armor, location);
      var current := ArmorLoadoutOf(armor, location);
      match current
      case Fail(e) =>
        r := Fail(e);
      case Ok(None) =>
        if amount == 0 {
          r := Ok(this);
        } else {
          r := Fail(NullPointer);
        }
    }

    /** `addArmor(location, amount)`: an empty armor list is an invalid state;
        otherwise the armor loadout read is null unless it throws, and both
        comparisons with its maximum dereference it. */
    method AddArmor(location: Option<HitLocation>, amount: Int32) returns (r: Result<UnitBuilder>)
      modifies this
      ensures unchanged(this)
      ensures armor == [] ==> r == Fail(IllegalState)
      ensures armor != [] && ArmorLoadoutOf(armor, location).Fail? ==>
                r == Fail(ArmorLoadoutOf(armor, location).error)
      ensures armor != [] && ArmorLoadoutOf(armor, location).Ok? ==> r == Fail(NullPointer)
      ensures Reachable() ==> r == Fail(IllegalState)
    {
      if armor == [] {
        return Fail(IllegalState);
      }
      ArmorLoadoutNeverYieldsTrack(armor, location);
      var current := ArmorLoadoutOf(armor, location);
      match current
      case Fail(e) =>
        r := Fail(e);
      case Ok(None) =>
        r := Fail(NullPointer);
    }

    /** `addStructure(location, amount)`: the structure loadout of the location
        must exist and have a maximum; the amount is checked against it; then
        the repair or damage entry is appended in mutable mode, or an empty
        builder of the same mode is returned in copy-on-write mode. */
    method AddStructure(location: Option<HitLocation>, amount: Int32) returns (r: Result<UnitBuilder>)
      modifies this
      ensures var current := StructureLoadoutOf(old(structure), location);
              current.Fail? ==> r == Fail(current.error) && unchanged(this)
      ensures var current := StructureLoadoutOf(old(structure), location);
              current.Ok? && current.value.max.None? ==> r == Fail(NullPointer) && unchanged(this)
      ensures var current := StructureLoadoutOf(old(structure), location);
              current.Ok? && current.value.max.Some? && !StructureAmountAccepted(current.value.max.value, amount) ==>
                r == Fail(IllegalArgument) && unchanged(this)
      ensures var current := StructureLoadoutOf(old(structure), location);
              var delta := StructureDelta(location, amount);
              current.Ok? && current.value.max.Some? && StructureAmountAccepted(current.value.max.value, amount)
              && isMutable ==>
                (delta.Fail? ==> r == Fail(delta.error) && unchanged(this))
                && (delta.Ok? ==> r == Ok(this) && structure == old(structure) + [delta.value]
                                  && Rest() == old(Rest()) && model == old(model))
      ensures var current := StructureLoadoutOf(old(structure), location);
              current.Ok? && current.value.max.Some? && StructureAmountAccepted(current.value.max.value, amount)
              && !isMutable ==>
                r.Ok? && fresh(r.value) && r.value.isMutable == isMutable && r.value.model.None?
                && r.value.Reachable() && unchanged(this)
      ensures old(Reachable()) ==> r == Fail(IllegalState) && unchanged(this)
    {
      var current := StructureLoadoutOf(structure, location);
      if current.Fail? {
        return Fail(current.error);
      }
      var max := current.value.max;
      if max.None? {
        return Fail(NullPointer);
      }
      if amount >= 0 {
        if amount > max.value {
          return Fail(IllegalArgument);
        }
      } else if Wrap32(amount + max.value) < 0 {
        return Fail(IllegalArgument);
      }
      if isMutable {
        var delta := StructureDelta(location, amount);
        if delta.Fail? {
          return Fail(delta.error);
        }
        structure := structure + [delta.value];
        return Ok(this);
      } else {
        var copy := new UnitBuilder.Copy(this, None);
        return Ok(copy);
      }
    }

    /** `build()`: the unit of the builder's fields, a rejection by the unit's
        constructor reported as an invalid state. The type is never assigned,
        so a builder in its only reachable state always fails. `id` is the new
        unit's identity. */
    method Build(id: nat) returns (r: Result<Unit>)
      ensures var u := NewUnit(id, unitType, name, model, tonnage, availableTonnage, Some(equipment), Some(armor),
                               Some(structure));
              r == (if u.Fail? then Fail(IllegalState) else u)
      ensures unitType.None? ==> r == Fail(IllegalState)
      ensures Reachable() ==> r == Fail(IllegalState)
    {
      var u := NewUnit(id, unitType, name, model, tonnage, availableTonnage, Some(equipment), Some(armor),
                       Some(structure));
      if u.Fail? {
        return Fail(IllegalState);
      }
      return u;
    }
  }
}
