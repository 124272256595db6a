/** The unit aggregate (Unit.java): construction and the "what-if" loadout
    controller of a unit. The track reducers are in `TrackSummaries`, the
    model-name recogniser in `ModelNames`. */
module Units {
  import opened JavaLang
  import opened Equipments
  import opened Tracks
  import opened LoadoutControllers
  import opened GameRules

  /** A `Unit` object. Its arrays are copies of the caller's, so they are
      values here. `id` is the object's identity. */
  datatype Unit = Unit(
    id: nat,
    unitType: UnitType,
    name: Option<string>,
    model: Option<string>,
    tonnage: real,
    availableTonnage: real,
    loadout: seq<Option<EquipmentLoadout>>,
    armor: seq<ArmorTrack>,
    structure: seq<StructureTrack>)

  /** The `Unit` constructor: the type, the armor and the structure are
      required; a null equipment loadout becomes empty; the rest is stored as
      given. */
  function NewUnit(id: nat, unitType: Option<UnitType>, name: Option<string>, model: Option<string>,
                   tonnage: real, availableTonnage: real, loadout: Option<seq<Option<EquipmentLoadout>>>,
                   armor: Option<seq<ArmorTrack>>, structure: Option<seq<StructureTrack>>): (r: Result<Unit>)
    ensures r.Ok? <==> unitType.Some? && armor.Some? && structure.Some?
    ensures r.Fail? ==> r.error == IllegalArgument
    ensures r.Ok? ==>
              r.value.unitType == unitType.value && r.value.name == name && r.value.model == model
              && r.value.tonnage == tonnage && r.value.availableTonnage == availableTonnage
              && r.value.armor == armor.value && r.value.structure == structure.value
              && r.value.loadout == loadout.GetOr([]) && r.value.id == id
  {
    if unitType.None? then Fail(IllegalArgument)
    else if armor.None? then Fail(IllegalArgument)
    else if structure.None? then Fail(IllegalArgument)
    else Ok(Unit(id, unitType.value, name, model, tonnage, availableTonnage, loadout.GetOr([]),
                 armor.value, structure.value))
  }

  // ---------------------------------------------------------------------------
  // getLoadoutController

  /** The equipment mass `summingDouble` collects, null items counting 0; a
      non-null item without equipment is dereferenced. */
  function EquipmentMass(items: seq<Option<EquipmentLoadout>>): (r: Result<real>)
    ensures r.Ok? <==> forall i | 0 <= i < |items| :: items[i].Some? ==> items[i].value.equipment.Some?
    ensures r.Fail? ==> r.error == NullPointer
  {
    if |items| == 0 then Ok(0.0)
    else
      var item := items[|items| - 1];
      match EquipmentMass(items[..|items| - 1])
      case Fail(e) => Fail(e)
      case Ok(sum) =>
        if item.None? then Ok(sum)
        else if item.value.equipment.None? then Fail(NullPointer)
        else Ok(sum + item.value.equipment.value.mass)
  }

  /** Items of non-negative mass weigh a non-negative total. */
  lemma {:induction false} EquipmentMassNonNegative(items: seq<Option<EquipmentLoadout>>)
    requires forall i | 0 <= i < |items| :: items[i].Some? && items[i].value.equipment.Some? ==>
                                             items[i].value.equipment.value.mass >= 0.0
    ensures EquipmentMass(items).Ok? ==> EquipmentMass(items).value >= 0.0
  {
    if |items| > 0 {
      EquipmentMassNonNegative(items[..|items| - 1]);
    }
  }

  /** The exact sum of the defined armor maxima. */
  function ArmorMaxSum(armor: seq<ArmorTrack>): int {
    if |armor| == 0 then 0
    else ArmorMaxSum(armor[..|armor| - 1]) + armor[|armor| - 1].max.GetOr(0)
  }

  /** What `summingInt` collects over the armor entries with a maximum: the
      negated maxima, added with `int` wrap-around. */
  function NegatedMaxIntSum(armor: seq<ArmorTrack>): Int32 {
    if |armor| == 0 then 0
    else
      var e := armor[|armor| - 1];
      if e.max.None? then NegatedMaxIntSum(armor[..|armor| - 1])
      else Wrap32(NegatedMaxIntSum(armor[..|armor| - 1]) - e.max.value)
  }

  /** Wrapping after every addition is wrapping once at the end. */
  lemma Wrap32Add(x: int, y: int)
    ensures Wrap32(Wrap32(x) + y) == Wrap32(x + y)
  {
    var m := 0x1_0000_0000;
    var k := (x - INT_MIN) / m;
    assert Wrap32(x) == x - k * m;
    assert (x + y - INT_MIN - k * m) % m == (x + y - INT_MIN) % m;
  }

  /** The collected `int` sum is the negated exact sum of the maxima, wrapped
      to 32 bits. */
  lemma {:induction false} NegatedMaxIntSumWraps(armor: seq<ArmorTrack>)
    ensures NegatedMaxIntSum(armor) == Wrap32(-ArmorMaxSum(armor))
  {
    if |armor| > 0 {
      var prev := armor[..|armor| - 1];
      var e := armor[|armor| - 1];
      NegatedMaxIntSumWraps(prev);
      Wrap32Add(-ArmorMaxSum(prev), -e.max.GetOr(0));
    }
  }

  /** The tonnage term of stripping the armor: `floor(sum / 16.0)` on the
      collected `int` sum, exactly an integer floor division. */
  function ArmorAllowance(armor: seq<ArmorTrack>): int {
    NegatedMaxIntSum(armor) / 16
  }

  /** `getLoadoutController(stripArmor, stripEquipment)`: a controller with the
      unit's tonnage as maximum and its available tonnage adjusted by the
      stripped equipment and armor. The unit itself is a value and stays as it
      is. */
  function LoadoutControllerFor(u: Unit, stripArmor: bool, stripEquipment: bool): (r: Result<Controller>)
    ensures r.Fail? <==> stripEquipment && EquipmentMass(u.loadout).Fail?
    ensures r.Fail? ==> r.error == NullPointer
    ensures r.Ok? ==>
              r.value == NewPlainController(
                u.tonnage,
                u.availableTonnage
                - (if stripEquipment then EquipmentMass(u.loadout).value else 0.0)
                + (if stripArmor then Wrap32(-ArmorMaxSum(u.armor)) / 16 else 0) as real)
  {
    NegatedMaxIntSumWraps(u.armor);
    var equipmentTerm := if stripEquipment then EquipmentMass(u.loadout) else Ok(0.0);
    if equipmentTerm.Fail? then Fail(NullPointer)
    else
      var armorTerm := if stripArmor then ArmorAllowance(u.armor) else 0;
      Ok(NewPlainController(u.tonnage, u.availableTonnage - equipmentTerm.value + armorTerm as real))
  }

  /** `getLoadoutController()`: strips the equipment and keeps the armor. */
  function DefaultLoadoutController(u: Unit): (r: Result<Controller>)
    ensures r.Ok? <==> forall i | 0 <= i < |u.loadout| :: u.loadout[i].Some? ==> u.loadout[i].value.equipment.Some?
    ensures r.Fail? ==> r.error == NullPointer
    ensures r.Ok? ==> r.value.maxTonnage == u.tonnage && r.value.baseLoadout == map[]
                      && r.value.availableTonnage == u.availableTonnage - EquipmentMass(u.loadout).value
  {
    LoadoutControllerFor(u, false, true)
  }

  /** The `LoadoutController(Unit)` constructor. */
  function ControllerOf(u: Unit): (r: Controller)
    ensures r.maxTonnage == u.tonnage && r.availableTonnage == u.availableTonnage && r.baseLoadout == map[]
  {
    NewPlainController(u.tonnage, u.availableTonnage)
  }

  /** Stripping nothing gives the unit's own controller. */
  lemma StripNothingIsUnitController(u: Unit)
    ensures LoadoutControllerFor(u, false, false) == Ok(ControllerOf(u))
  {
  }

  /** The default controller, which keeps the unit's loadout, takes the mass
      of the fitted equipment off the available tonnage once more. */
  lemma DefaultControllerChargesEquipment(u: Unit)
    requires forall i | 0 <= i < |u.loadout| :: u.loadout[i].Some? ==> u.loadout[i].value.equipment.Some?
    ensures DefaultLoadoutController(u).Ok?
    ensures DefaultLoadoutController(u).value.availableTonnage
              == u.availableTonnage - EquipmentMass(u.loadout).value
  {
  }

  /** A unit without any armor maximum loses nothing by stripping the armor. */
  lemma {:induction false} StripArmorWithoutMaxima(u: Unit, stripEquipment: bool)
    requires forall i | 0 <= i < |u.armor| :: u.armor[i].max.None?
    ensures LoadoutControllerFor(u, true, stripEquipment) == LoadoutControllerFor(u, false, stripEquipment)
  {
    NoMaximaSumToZero(u.armor);
  }

  lemma {:induction false} NoMaximaSumToZero(armor: seq<ArmorTrack>)
    requires forall i | 0 <= i < |armor| :: armor[i].max.None?
    ensures ArmorMaxSum(armor) == 0
  {
    if |armor| > 0 {
      NoMaximaSumToZero(armor[..|armor| - 1]);
    }
  }

  /** Stripping the armor never frees tonnage when the maxima are not negative
      and their sum fits an `int`: the armor term is the sum divided by 16,
      rounded away from zero, and subtracted. */
  lemma StripArmorNeverFrees(u: Unit, stripEquipment: bool)
    requires 0 <= ArmorMaxSum(u.armor) <= INT_MAX
    requires LoadoutControllerFor(u, false, stripEquipment).Ok?
    ensures LoadoutControllerFor(u, true, stripEquipment).Ok?
    ensures LoadoutControllerFor(u, true, stripEquipment).value.availableTonnage
              == LoadoutControllerFor(u, false, stripEquipment).value.availableTonnage
                 + ((-ArmorMaxSum(u.armor)) / 16) as real
    ensures LoadoutControllerFor(u, true, stripEquipment).value.availableTonnage
              <= LoadoutControllerFor(u, false, stripEquipment).value.availableTonnage
  {
  }

  /** With equipment of non-negative mass, stripping the equipment never
      raises the available tonnage: its mass is subtracted, not given back. */
  lemma StripEquipmentNeverFrees(u: Unit, stripArmor: bool)
    requires forall i | 0 <= i < |u.loadout| :: u.loadout[i].Some? && u.loadout[i].value.equipment.Some? ==>
                                                 u.loadout[i].value.equipment.value.mass >= 0.0
    requires LoadoutControllerFor(u, stripArmor, true).Ok?
    ensures LoadoutControllerFor(u, stripArmor, true).value.availableTonnage
              <= LoadoutControllerFor(u, stripArmor, false).value.availableTonnage
  {
    EquipmentMassNonNegative(u.loadout);
  }
}
