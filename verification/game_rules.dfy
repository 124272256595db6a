/** Game rules (GameRules.java): unit types, unit-specific hit locations and
    their factories, and the default mech layout. */
module GameRules {
  import opened JavaLang
  import opened HitLocations

  /** `GameRules.UnitType`. */
  datatype UnitType = Mech | Vehicle | Fighter | AeroSpace | DropShip | JumpShip | Infantry | BattleArmor
  {
    /** The enum constant's name. */
    function Name(): string {
      match this
      case Mech => "Mech"
      case Vehicle => "Vehicle"
      case Fighter => "Fighter"
      case AeroSpace => "AeroSpace"
      case DropShip => "DropShip"
      case JumpShip => "JumpShip"
      case Infantry => "Infantry"
      case BattleArmor => "BattleArmor"
    }
  }

  /** `record UnitHitLocation(unitType, location, criticalSlots)`. */
  datatype UnitHitLocation = UnitHitLocation(unitType: string, location: Option<HitLocation>, criticalSlots: Int16)

  /** The instance `createSlottedHitLocation(unitType, name, abbrev, slots)`:
      null type, null name and negative slots are invalid arguments; otherwise
      a new slotted location tagged with the type's name. `id` is the new
      location's identity. */
  function CreateSlottedHitLocation(id: nat, unitType: Option<UnitType>, name: Option<string>, abbrev: Option<string>,
                                    criticalSlots: Int16): (r: Result<UnitHitLocation>)
    ensures r.Ok? <==> unitType.Some? && name.Some? && criticalSlots >= 0
    ensures r.Fail? ==> r.error == IllegalArgument
    ensures r.Ok? ==>
              r.value.unitType == unitType.value.Name() && r.value.criticalSlots == criticalSlots
              && r.value.location == Some(NewSlottedHitLocation(id, name, abbrev, criticalSlots))
  {
    if unitType.None? then Fail(IllegalArgument)
    else if name.None? then Fail(IllegalArgument)
    else if criticalSlots < 0 then Fail(IllegalArgument)
    else Ok(UnitHitLocation(unitType.value.Name(), Some(NewSlottedHitLocation(id, name, abbrev, criticalSlots)),
                            criticalSlots))
  }

  /** The static `createSlottedHitLocation(unitType, location)`: the slot count
      is `(short) Math.max(capacity, Short.MAX_VALUE)`, which is the largest
      `short` whatever the location's own capacity. */
  function CreateSlottedHitLocationOf(unitType: Option<UnitType>, location: Option<HitLocation>)
    : (r: Result<UnitHitLocation>)
    requires location.Some? ==> location.value.critSlotCapacity.Some? && IsShort(location.value.critSlotCapacity.value)
    ensures r.Ok? <==> unitType.Some? && location.Some?
    ensures r.Fail? ==> r.error == IllegalArgument
    ensures r.Ok? ==> r.value == UnitHitLocation(unitType.value.Name(), location, SHORT_MAX)
  {
    if unitType.None? then Fail(IllegalArgument)
    else if location.None? then Fail(IllegalArgument)
    else
      var capacity := location.value.critSlotCapacity.value;
      Ok(UnitHitLocation(unitType.value.Name(), location, Wrap16(if capacity >= SHORT_MAX then capacity else SHORT_MAX)))
  }

  /** The static `createUnslottedHitLocation(unitType, location)`: no slots; a
      null type is dereferenced. */
  function CreateUnslottedHitLocation(unitType: Option<UnitType>, location: Option<HitLocation>)
    : (r: Result<UnitHitLocation>)
    ensures r.Ok? <==> unitType.Some?
    ensures r.Fail? ==> r.error == NullPointer
    ensures r.Ok? ==> r.value.unitType == unitType.value.Name() && r.value.location == location
    ensures r.Ok? ==> r.value.criticalSlots == 0
  {
    if unitType.None? then Fail(NullPointer)
    else Ok(UnitHitLocation(unitType.value.Name(), location, 0))
  }

  /** The instance `craeteUnslottedHitLocation(unitType, name, abbrev)`: a new
      plain location with no slots; a null type is dereferenced. */
  function CreateUnslottedNamedHitLocation(id: nat, unitType: Option<UnitType>, name: Option<string>,
                                           abbrev: Option<string>): (r: Result<UnitHitLocation>)
    ensures r.Ok? <==> unitType.Some?
    ensures r.Fail? ==> r.error == NullPointer
    ensures r.Ok? ==> r.value.unitType == unitType.value.Name()
    ensures r.Ok? ==> r.value.location == Some(NewHitLocation(id, name, abbrev)) && r.value.criticalSlots == 0
  {
    if unitType.None? then Fail(NullPointer)
    else Ok(UnitHitLocation(unitType.value.Name(), Some(NewHitLocation(id, name, abbrev)), 0))
  }

  /** `createMechHitLocation(name, abbrev, slots)`: a slotted mech location. */
  function CreateMechHitLocation(id: nat, name: Option<string>, abbrev: Option<string>, criticalSlots: Int16)
    : (r: UnitHitLocation)
    ensures r.unitType == "Mech" && r.criticalSlots == criticalSlots
    ensures r.location == Some(NewSlottedHitLocation(id, name, abbrev, criticalSlots))
  {
    UnitHitLocation(Mech.Name(), Some(NewSlottedHitLocation(id, name, abbrev, criticalSlots)), criticalSlots)
  }

  /** `String.join(separator, parts)`. */
  function Join(separator: string, parts: seq<string>): (r: string)
    ensures |parts| == 0 ==> r == ""
    ensures |parts| > 0 ==> |parts[0]| <= |r| && r[..|parts[0]|] == parts[0]
    decreases |parts|
  {
    if |parts| == 0 then ""
    else if |parts| == 1 then parts[0]
    else parts[0] + separator + Join(separator, parts[1..])
  }

  /** The first characters of the segments, concatenated; an empty segment
      makes `substring(0, 1)` throw. */
  function Initials(segments: seq<string>): (r: Result<string>)
    ensures r.Ok? <==> forall i | 0 <= i < |segments| :: |segments[i]| > 0
    ensures r.Ok? ==> |r.value| == |segments| && forall i | 0 <= i < |segments| :: r.value[i] == segments[i][0]
    ensures r.Fail? ==> r.error == IndexOutOfBounds
  {
    if |segments| == 0 then Ok("")
    else if |segments[0]| == 0 then Fail(IndexOutOfBounds)
    else
      match Initials(segments[1..])
      case Fail(e) => Fail(e)
      case Ok(rest) => Ok([segments[0][0]] + rest)
  }

  /** The varargs `createMechHitLocation(slots, segments...)`: the name is the
      segments joined by single spaces, the abbreviation their initials. */
  function CreateMechHitLocationFromSegments(id: nat, criticalSlots: Int16, segments: seq<string>)
    : (r: Result<UnitHitLocation>)
    ensures r.Ok? <==> forall i | 0 <= i < |segments| :: |segments[i]| > 0
    ensures r.Fail? ==> r.error == IndexOutOfBounds
    ensures r.Ok? ==> r.value == CreateMechHitLocation(id, Some(Join(" ", segments)), Some(Initials(segments).value),
                                                       criticalSlots)
  {
    match Initials(segments)
    case Fail(e) => Fail(e)
    case Ok(abbrev) => Ok(CreateMechHitLocation(id, Some(Join(" ", segments)), Some(abbrev), criticalSlots))
  }

  /** The expected mech location: its name, abbreviation and slots. */
  predicate IsMechLocation(u: UnitHitLocation, id: nat, name: string, abbrev: string, slots: Int16) {
    u == CreateMechHitLocation(id, Some(name), Some(abbrev), slots)
  }

  /** A mech location built by the varargs factory from non-empty segments. */
  function MechLocation(id: nat, criticalSlots: Int16, segments: seq<string>): UnitHitLocation
    requires forall i | 0 <= i < |segments| :: |segments[i]| > 0
  {
    CreateMechHitLocationFromSegments(id, criticalSlots, segments).value
  }

  /** The torso, arm and leg of one side, as the loop over the two prefixes adds them. */
  function SideLocations(prefix: string, firstId: nat): seq<UnitHitLocation>
    requires |prefix| > 0
  {
    [MechLocation(firstId, 10, [prefix, "Torso"]),
     MechLocation(firstId + 1, 8, [prefix, "Arm"]),
     MechLocation(firstId + 2, 4, [prefix, "Leg"])]
  }

  /** `defaultHitLocations()`: the eight mech locations, head first, then the
      centre torso, then torso, arm and leg of the left and of the right side.
      The locations get the identities `firstId` to `firstId + 7`. */
  function DefaultHitLocations(firstId: nat): (r: seq<UnitHitLocation>)
    ensures |r| == 8
  {
    [MechLocation(firstId, 1, ["Head"]), MechLocation(firstId + 1, 4, ["Center", "Torso"])]
    + SideLocations("Left", firstId + 2) + SideLocations("Right", firstId + 5)
  }

  /** The name and abbreviation the varargs factory makes of one segment. */
  lemma OneSegment(segment: string)
    requires |segment| > 0
    ensures Join(" ", [segment]) == segment
    ensures Initials([segment]) == Ok([segment[0]])
  {
    assert [segment][1..] == [];
    assert Initials([]) == Ok("");
    assert [segment[0]] + "" == [segment[0]];
  }

  /** The name and abbreviation the varargs factory makes of two segments. */
  lemma TwoSegments(first: string, second: string)
    requires |first| > 0 && |second| > 0
    ensures Join(" ", [first, second]) == first + " " + second
    ensures Initials([first, second]) == Ok([first[0], second[0]])
  {
    assert [first, second][1..] == [second];
    OneSegment(second);
    assert [first[0]] + [second[0]] == [first[0], second[0]];
  }

  /** The default layout, location by location. */
  lemma DefaultLayout(firstId: nat)
    ensures var r := DefaultHitLocations(firstId);
            IsMechLocation(r[0], firstId, "Head", "H", 1)
            && IsMechLocation(r[1], firstId + 1, "Center Torso", "CT", 4)
            && IsMechLocation(r[2], firstId + 2, "Left Torso", "LT", 10)
            && IsMechLocation(r[3], firstId + 3, "Left Arm", "LA", 8)
            && IsMechLocation(r[4], firstId + 4, "Left Leg", "LL", 4)
            && IsMechLocation(r[5], firstId + 5, "Right Torso", "RT", 10)
            && IsMechLocation(r[6], firstId + 6, "Right Arm", "RA", 8)
            && IsMechLocation(r[7], firstId + 7, "Right Leg", "RL", 4)
  {
    OneSegment("Head");
    TwoSegments("Center", "Torso");
    assert "Center" + " " + "Torso" == "Center Torso";
    TwoSegments("Left", "Torso");
    assert "Left" + " " + "Torso" == "Left Torso";
    TwoSegments("Left", "Arm");
    assert "Left" + " " + "Arm" == "Left Arm";
    TwoSegments("Left", "Leg");
    assert "Left" + " " + "Leg" == "Left Leg";
    TwoSegments("Right", "Torso");
    assert "Right" + " " + "Torso" == "Right Torso";
    TwoSegments("Right", "Arm");
    assert "Right" + " " + "Arm" == "Right Arm";
    TwoSegments("Right", "Leg");
    assert "Right" + " " + "Leg" == "Right Leg";
  }

  /** A `GameRules` object. */
  datatype Rules = Rules(name: Option<string>, mode: Option<string>, unitTypes: seq<UnitType>,
                         hitLocations: seq<UnitHitLocation>)

  /** `GameRules(name, mode)`: mechs and vehicles on the default layout. */
  function NewRules(firstId: nat, name: Option<string>, mode: Option<string>): (r: Rules)
    ensures r.name == name && r.mode == mode
    ensures r.unitTypes == [Mech, Vehicle]
    ensures r.hitLocations == DefaultHitLocations(firstId)
  {
    Rules(name, mode, [Mech, Vehicle], DefaultHitLocations(firstId))
  }

  /** `BaseGameRules(mode)`. */
  function BaseGameRules(firstId: nat, mode: Option<string>): (r: Rules)
    ensures r == NewRules(firstId, Some("Harebrained Base Game"), mode)
    ensures r.name == Some("Harebrained Base Game")
  {
    NewRules(firstId, Some("Harebrained Base Game"), mode)
  }
}
