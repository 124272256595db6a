# Campaign aid game core in Dafny

This project models the game core of the BattleTech campaign aid. It covers:

- **Hit-location tracks.** These are `HitLocationTrack`, `ArmorLoadout` and `StructureLoadout`. Each holds a location, an optional maximum and a current value, both 16-bit. Each class has its own `addMaximum` and `addCurrent` rules, and `ofDamage`/`ofRepair` build delta entries.
- **The reducers of `Unit`.** Each sums a unit's ordered list of track deltas per location. The unit's constructor, its "what-if" loadout-controller formula and its model-name recogniser are modelled too.
- **The two-mode `UnitBuilder`.** In mutable mode it changes itself. In copy-on-write mode it answers with a new builder.
- **The `LoadoutController`.** Its `Loadout` keeps equipment per location against a tonnage budget, in strict or lenient mode. Also covered: the entry conversions and the controller's constructors.
- **The star-system records.** The `Shop` keeps its equipment stock sorted by `equipmentCompare` and updates it by binary search. `SystemInfo` adds and removes missions by copy. `Mission` validates reputation changes.
- **The configuration values.** These are the `GameRules` hit-location factories and default mech layout, plus `Equipment`, `HitLocation` and `RulesModifier`.

## How the model is organised

There is one module per Java class, or per tightly coupled group of classes.

**`JavaLang`** (java_lang.dfy) holds the Java facts shared by all modules:

- A reference that may be null is an `Option`.
- A call that may throw returns a `Result`. Its error is one of IllegalArgument, IllegalState, NullPointer or IndexOutOfBounds.
- `short` and `int` are subset types.
- `Wrap16` and `Wrap32` write out the casts and `int` overflow.

**Value classes.** Classes whose fields are final are datatypes:

- The track classes share one datatype. A `Kind` tag (`Base`, `Armor`, `Structure`) stands for the runtime class, and `TrackDispatch` does the virtual dispatch.
- `HitLocation`, `Equipment`, `Unit` and `Mission` do not override `equals`, so they carry an `id` that stands for object identity.
- `RulesModifier` and the records are compared by their components.

**State-changing classes** are Dafny classes:

- `Loadout` and `Shop` update their fields in place. Each method's `ensures` ties the new state to a specification function of the old state (`AddSpec`, `RemoveSpec`, `Merged`, `Taken`). Lemmas about those functions prove what the code promises. Two class invariants are kept: the running tonnage equals the mass of the content, and the shop list stays sorted.
- `UnitBuilder` works the same way, with a `Reachable` invariant. That invariant shows that, as written, no builder ever holds armor, structure or a unit type.

**Loops and folds.** Loops are methods with invariants: `getFullArmorLoadout`, `equipmentCompare`, the binary search, the loadout constructors and the entry conversions. The stream folds are recursive functions.

**Behaviour of the code as written that the model reproduces:**

- `getLoadoutController` adds the negated equipment masses to the available tonnage, so stripping equipment lowers it. Stripping armor adds `floor(-sum of maxima / 16)`, which is never positive for non-negative maxima (`Units.LoadoutControllerFor`).
- The track-summary fold seeds with the first entry's own current value. So maximum 9, damage 3 and repair 2 sum to current -1 (`TrackSummaries.SummaryExample`).
- `StructureLoadout` has no rule requiring a positive maximum.
- The base `addCurrent` rejects an increase that stays below the maximum, the reverse of its message (`Tracks.BaseIncreaseBelowMaximumRejected`).
- The model-name pattern is double-escaped in its last group. After a dash it accepts only the literal characters `\ p { L u } N` (`ModelNames.DashGroupExamples`).
- `getArmorLoadout` never yields a track. So `addMaxArmor` and `addArmor` can only return the builder or throw, and no builder can be built (`TrackSummaries.ArmorLoadoutNeverYieldsTrack`, `UnitBuilders.UnitBuilder.Build`).

## Model

| member | source | states |
|---|---|---|
| JavaLang.Wrap32 | campaign-aid/src/main/java/com/kautiainen/antti/btechgame/game/Unit.java:110-112 | A Java `int` result: unchanged in range, shifted by 2^32 just outside it (the wrapping of `summingInt` and of `int` sums) |
| JavaLang.Wrap16 | campaign-aid/src/main/java/com/kautiainen/antti/btechgame/systemlog/Mission.java:141 | The `(short)` cast: unchanged for a `short`, otherwise congruent modulo 2^16 |
| JavaLang.WrappedSumRange | campaign-aid/src/main/java/com/kautiainen/antti/btechgame/game/HitLocationTrack.java:65 | A `short` plus an `int` wraps to a `short` exactly when the true sum is one, so the range checks after an `int` sum see no overflow |
| HitLocations.NewHitLocation | campaign-aid/src/main/java/com/kautiainen/antti/btechgame/game/HitLocation.java:46-49 | Name and abbreviation stored as given, nulls included; no slot capacity |
| HitLocations.NewSlottedHitLocation | campaign-aid/src/main/java/com/kautiainen/antti/btechgame/game/HitLocation.java:25-28 | Name and abbreviation stored as given; the capacity is the `short` argument widened, negative values accepted |
| HitLocations.SeparateAllocationsDiffer | campaign-aid/src/main/java/com/kautiainen/antti/btechgame/game/HitLocation.java:7-49 | Two separately created locations with equal names are different keys (no `equals` override) |
| RulesModifiers.RoundDown | campaign-aid/src/main/java/com/kautiainen/antti/btechgame/game/RulesModifier.java:15-17 | Rounding DOWN, name, rule and amount as given |
| RulesModifiers.RoundUp | campaign-aid/src/main/java/com/kautiainen/antti/btechgame/game/RulesModifier.java:19-21 | Rounding UP, name, rule and amount as given |
| RulesModifiers.FactoriesComponentwise | campaign-aid/src/main/java/com/kautiainen/antti/btechgame/game/RulesModifier.java:13-21 | Record equality is componentwise: equal arguments iff equal records; a rounded-down modifier never equals a rounded-up one |
| Equipments.NewEquipment | campaign-aid/src/main/java/com/kautiainen/antti/btechgame/game/Equipment.java:38-44 | All four fields stored unvalidated; the modifier array is empty |
| Equipments.NewSingleSlotEquipment | campaign-aid/src/main/java/com/kautiainen/antti/btechgame/game/Equipment.java:52-54 | The four-argument constructor with size 1 |
| Equipments.ToString | campaign-aid/src/main/java/com/kautiainen/antti/btechgame/game/Equipment.java:62-64 | The name followed by exactly one `+` per modifier |
| Equipments.ConstructedPrintsName | campaign-aid/src/main/java/com/kautiainen/antti/btechgame/game/Equipment.java:38-64 | A constructed item prints as its bare name |
| Tracks.NewTrack | campaign-aid/src/main/java/com/kautiainen/antti/btechgame/game/HitLocationTrack.java:39-52 | Succeeds iff current and a defined maximum are `short`s and current <= maximum; every failure is an invalid argument |
| Tracks.NewTrackFromShorts | campaign-aid/src/main/java/com/kautiainen/antti/btechgame/game/HitLocationTrack.java:24-31 | On `short` arguments only current > maximum (when defined) fails |
| Tracks.ConstructorsAgreeOnShorts | campaign-aid/src/main/java/com/kautiainen/antti/btechgame/game/HitLocationTrack.java:24-52 | The two constructors agree on `short`s, and a negative current value or maximum is accepted |
| Tracks.BaseAddMaximum | campaign-aid/src/main/java/com/kautiainen/antti/btechgame/game/HitLocationTrack.java:63-67 | New maximum = amount when absent, else maximum + amount; location and current kept; fails iff the new maximum is no `short` or below current |
| Tracks.BaseAddCurrent | campaign-aid/src/main/java/com/kautiainen/antti/btechgame/game/HitLocationTrack.java:69-81 | Zero returns the receiver; otherwise succeeds iff `BaseCurrentAccepted` (zero floor, increase must land exactly on the maximum); the result has current + amount and keeps the maximum or takes amount as maximum |
| Tracks.BaseIncreaseBelowMaximumRejected | campaign-aid/src/main/java/com/kautiainen/antti/btechgame/game/HitLocationTrack.java:76-77 | An increase that stays strictly below the maximum is rejected (the test is the reverse of its message) |
| ArmorLoadouts.NewArmor | campaign-aid/src/main/java/com/kautiainen/antti/btechgame/game/ArmorLoadout.java:15-17 | Exactly the `int` constructor's checks, giving an armor track |
| ArmorLoadouts.NewInitialArmor | campaign-aid/src/main/java/com/kautiainen/antti/btechgame/game/ArmorLoadout.java:24-26 | Current 0 and the given maximum; succeeds iff 0 <= maximum <= 32767 |
| ArmorLoadouts.AddMaximum | campaign-aid/src/main/java/com/kautiainen/antti/btechgame/game/ArmorLoadout.java:29-31 | Same new maximum as the base rule, current kept, result still an armor track |
| ArmorLoadouts.AddCurrent | campaign-aid/src/main/java/com/kautiainen/antti/btechgame/game/ArmorLoadout.java:34-36 | Maximum kept (absent stays absent), current + amount; only range and current <= maximum checked, no zero floor |
| ArmorLoadouts.OfDamage | campaign-aid/src/main/java/com/kautiainen/antti/btechgame/game/ArmorLoadout.java:45-48 | Fails for a negative amount (and for one whose negation is no `short`); otherwise no maximum and current = -amount |
| ArmorLoadouts.OfRepair | campaign-aid/src/main/java/com/kautiainen/antti/btechgame/game/ArmorLoadout.java:57-60 | Fails for a negative amount (and above 32767); otherwise no maximum and current = amount |
| StructureLoadouts.NewStructureFromShorts | campaign-aid/src/main/java/com/kautiainen/antti/btechgame/game/StructureLoadout.java:15-17 | Only current > maximum (when defined) fails; no positivity check |
| StructureLoadouts.NewStructure | campaign-aid/src/main/java/com/kautiainen/antti/btechgame/game/StructureLoadout.java:26-28 | The `int` constructor's range and order checks; a zero or negative maximum is accepted |
| StructureLoadouts.AddMaximum | campaign-aid/src/main/java/com/kautiainen/antti/btechgame/game/StructureLoadout.java:30-33 | Same new maximum as the base rule, current kept, result still a structure track |
| StructureLoadouts.AddCurrent | campaign-aid/src/main/java/com/kautiainen/antti/btechgame/game/StructureLoadout.java:35-38 | Maximum kept, current + amount, only range and current <= maximum checked |
| StructureLoadouts.OfDamage | campaign-aid/src/main/java/com/kautiainen/antti/btechgame/game/StructureLoadout.java:41-44 | Fails iff the `short` amount is negative; otherwise no maximum and current = -amount |
| StructureLoadouts.OfRepair | campaign-aid/src/main/java/com/kautiainen/antti/btechgame/game/StructureLoadout.java:46-49 | Fails iff the `short` amount is negative; otherwise no maximum and current = amount |
| TrackDispatch.AddMaximum | campaign-aid/src/main/java/com/kautiainen/antti/btechgame/game/HitLocationTrack.java:63-67 | Dynamic dispatch: every class keeps its class, location and current and gets the same new maximum under the same success condition |
| TrackDispatch.AddCurrent | campaign-aid/src/main/java/com/kautiainen/antti/btechgame/game/ArmorLoadout.java:34-36 | Dynamic dispatch: overrides keep the maximum and check only range and maximum; the base class follows its own rule |
| TrackDispatch.ZeroCurrentDeltaIsIdentity | campaign-aid/src/main/java/com/kautiainen/antti/btechgame/game/HitLocationTrack.java:74-75 | `addCurrent(0)` gives back an equal track in every class |
| TrackDispatch.CurrentDeltaUndone | campaign-aid/src/main/java/com/kautiainen/antti/btechgame/game/StructureLoadout.java:35-38 | For armor and structure, a current delta followed by its opposite restores the track |
| TrackDispatch.MaximumDeltaUndone | campaign-aid/src/main/java/com/kautiainen/antti/btechgame/game/ArmorLoadout.java:29-31 | For armor and structure with a maximum, a maximum delta followed by its opposite restores the track |
| TrackDispatch.ZeroFloorOnlyInBase | campaign-aid/src/main/java/com/kautiainen/antti/btechgame/game/HitLocationTrack.java:70-73 | Going below zero fails in the base class only; the overrides accept it |
| TrackSummaries.Filter | campaign-aid/src/main/java/com/kautiainen/antti/btechgame/game/Unit.java:178-179 | The filtered entries are no more than the entries |
| TrackSummaries.FilterMembers | campaign-aid/src/main/java/com/kautiainen/antti/btechgame/game/Unit.java:178-179 | The filter keeps exactly the entries at the location |
| TrackSummaries.FilterAbsent | campaign-aid/src/main/java/com/kautiainen/antti/btechgame/game/Unit.java:178-179 | No entry at the location leaves nothing |
| TrackSummaries.Collect | campaign-aid/src/main/java/com/kautiainen/antti/btechgame/game/Unit.java:180-190 | The sequential collector: no result iff no entry; failures are invalid arguments |
| TrackSummaries.Summary | campaign-aid/src/main/java/com/kautiainen/antti/btechgame/game/Unit.java:176-208 | `getHitLocationTrackSummary`: null iff no entry has the location |
| TrackSummaries.CollectIsSum | campaign-aid/src/main/java/com/kautiainen/antti/btechgame/game/Unit.java:181-189 | For armor and structure entries the fold succeeds iff every prefix stays in range, and then current = sum of currents and maximum = sum of defined maxima |
| TrackSummaries.SummaryIsSum | campaign-aid/src/main/java/com/kautiainen/antti/btechgame/game/Unit.java:176-208 | The summary of armor or structure entries is the per-location sum of currents and of defined maxima, seeded by the first entry even when it has no maximum |
| TrackSummaries.SummaryExample | campaign-aid/src/main/java/com/kautiainen/antti/btechgame/game/Unit.java:176-208 | Structure with maximum 9, damage 3 and repair 2 sums to maximum 9 and current -1: the seed entry's current 0 is part of the sum |
| TrackSummaries.StructureLoadoutOf | campaign-aid/src/main/java/com/kautiainen/antti/btechgame/game/Unit.java:269-279 | Invalid state iff no entry has the location; other failures come from the fold |
| TrackSummaries.StructureLoadoutIsSum | campaign-aid/src/main/java/com/kautiainen/antti/btechgame/game/Unit.java:269-279 | The structure summary is a structure track holding the sums |
| TrackSummaries.CollectArmor | campaign-aid/src/main/java/com/kautiainen/antti/btechgame/game/Unit.java:221-239 | The sequential armor collector: null iff no entry; failures are null dereferences, invalid states or invalid arguments |
| TrackSummaries.ArmorLoadoutOf | campaign-aid/src/main/java/com/kautiainen/antti/btechgame/game/Unit.java:219-257 | `getArmorLoadout`: null iff no entry has the location; failures are null dereferences, invalid states or invalid arguments |
| TrackSummaries.CollectArmorFirstDecides | campaign-aid/src/main/java/com/kautiainen/antti/btechgame/game/Unit.java:221-239 | The armor collector's outcome is fixed by the first matching entry |
| TrackSummaries.ArmorLoadoutNeverYieldsTrack | campaign-aid/src/main/java/com/kautiainen/antti/btechgame/game/Unit.java:219-257 | `getArmorLoadout` never yields a track: no match gives null, a first match without maximum an invalid state, one with a maximum a null dereference |
| TrackSummaries.FullArmorFailurePersists | campaign-aid/src/main/java/com/kautiainen/antti/btechgame/game/Unit.java:149-161 | Once the loop throws, the remaining entries do not change the outcome |
| TrackSummaries.GetFullArmorLoadout | campaign-aid/src/main/java/com/kautiainen/antti/btechgame/game/Unit.java:145-163 | The for-loop over the entries computes the fold `FullArmorFold` |
| TrackSummaries.ArmorPutAtLocation | campaign-aid/src/main/java/com/kautiainen/antti/btechgame/game/Unit.java:150-159 | After a successful step the entry's location holds the summed track |
| TrackSummaries.ArmorPutUpdatesOneKey | campaign-aid/src/main/java/com/kautiainen/antti/btechgame/game/Unit.java:150-159 | A step writes only the entry's own location |
| TrackSummaries.ArmorPutKeepsSums | campaign-aid/src/main/java/com/kautiainen/antti/btechgame/game/Unit.java:149-161 | One successful step keeps the per-location sums invariant |
| TrackSummaries.FullArmorIsSum | campaign-aid/src/main/java/com/kautiainen/antti/btechgame/game/Unit.java:145-163 | On success the keys are exactly the locations present, each holding the sum of maxima and of currents; failures are invalid states or arguments |
| TrackSummaries.FullArmorNeedsMaximumFirst | campaign-aid/src/main/java/com/kautiainen/antti/btechgame/game/Unit.java:154-156 | A location whose first entry has no maximum makes the whole call fail |
| TrackSummaries.ArmorPutSucceeds | campaign-aid/src/main/java/com/kautiainen/antti/btechgame/game/Unit.java:149-161 | One step succeeds iff its location started with a maximum and the location's new running sums form a valid track |
| TrackSummaries.FullArmorSucceeds | campaign-aid/src/main/java/com/kautiainen/antti/btechgame/game/Unit.java:145-163 | `getFullArmorLoadout` succeeds iff at every entry its location started with a maximum and the running sums there stay `short`s with current <= maximum |
| ModelNames.IsValidModel | campaign-aid/src/main/java/com/kautiainen/antti/btechgame/game/Unit.java:123-126 | Accepts exactly the strings of the pattern: an upper-case letter, upper-case letters or digits, then dash groups over the literal characters of the double-escaped class |
| ModelNames.RunMatchesPattern | campaign-aid/src/main/java/com/kautiainen/antti/btechgame/game/Unit.java:124 | The left-to-right recogniser agrees with the pattern on every string |
| ModelNames.RunInHead | campaign-aid/src/main/java/com/kautiainen/antti/btechgame/game/Unit.java:124 | From the head state the rest is head characters followed by dash groups |
| ModelNames.RunAfterDash | campaign-aid/src/main/java/com/kautiainen/antti/btechgame/game/Unit.java:124 | After a dash the rest is a non-empty group followed by dash groups |
| ModelNames.RunInGroup | campaign-aid/src/main/java/com/kautiainen/antti/btechgame/game/Unit.java:124 | Inside a group the rest is group characters followed by dash groups |
| ModelNames.DashGroupExamples | campaign-aid/src/main/java/com/kautiainen/antti/btechgame/game/Unit.java:124 | `A-B` is rejected and `A-Lu` accepted |
| Units.NewUnit | campaign-aid/src/main/java/com/kautiainen/antti/btechgame/game/Unit.java:68-85 | Succeeds iff type, armor and structure are non-null (invalid argument otherwise); a null loadout becomes empty and the arrays are kept in order |
| Units.EquipmentMass | campaign-aid/src/main/java/com/kautiainen/antti/btechgame/game/Unit.java:103-107 | Succeeds iff every non-null entry has an item (a null item is dereferenced); null entries count 0 |
| Units.EquipmentMassNonNegative | campaign-aid/src/main/java/com/kautiainen/antti/btechgame/game/Unit.java:103-107 | Items of non-negative mass weigh a non-negative total |
| Units.NegatedMaxIntSumWraps | campaign-aid/src/main/java/com/kautiainen/antti/btechgame/game/Unit.java:110-112 | `summingInt` over the negated defined maxima is the exact negated sum wrapped to 32 bits |
| Units.LoadoutControllerFor | campaign-aid/src/main/java/com/kautiainen/antti/btechgame/game/Unit.java:96-115 | Maximum = tonnage; available = availableTonnage - (stripEquipment ? equipment mass : 0) + (stripArmor ? floor(wrapped negated maxima / 16) : 0); fails iff the equipment mass is needed and fails |
| Units.DefaultLoadoutController | campaign-aid/src/main/java/com/kautiainen/antti/btechgame/game/Unit.java:92-94 | `getLoadoutController()`: fails with a null dereference iff a non-null loadout entry has no equipment; otherwise maximum = tonnage, empty base loadout, available = availableTonnage - equipment mass |
| Units.ControllerOf | campaign-aid/src/main/java/com/kautiainen/antti/btechgame/game/LoadoutController.java:290-292 | `LoadoutController(unit)` copies tonnage and available tonnage, empty base loadout |
| Units.StripNothingIsUnitController | campaign-aid/src/main/java/com/kautiainen/antti/btechgame/game/Unit.java:96-115 | Stripping nothing gives the unit's own controller |
| Units.DefaultControllerChargesEquipment | campaign-aid/src/main/java/com/kautiainen/antti/btechgame/game/Unit.java:92-94 | The no-argument version, `(false, true)`, succeeds when every entry has an item and subtracts the equipment mass from the available tonnage |
| Units.StripArmorWithoutMaxima | campaign-aid/src/main/java/com/kautiainen/antti/btechgame/game/Unit.java:109-113 | Without armor maxima, stripping the armor changes nothing |
| Units.NoMaximaSumToZero | campaign-aid/src/main/java/com/kautiainen/antti/btechgame/game/Unit.java:110-112 | No defined maximum sums to 0 |
| Units.StripArmorNeverFrees | campaign-aid/src/main/java/com/kautiainen/antti/btechgame/game/Unit.java:109-113 | With non-negative maxima summing to an `int`, stripping armor adds floor(-sum / 16), which is never positive |
| Units.StripEquipmentNeverFrees | campaign-aid/src/main/java/com/kautiainen/antti/btechgame/game/Unit.java:102-108 | Stripping equipment of non-negative mass never raises the available tonnage |
| UnitBuilders.StructureAmountBounds | campaign-aid/src/main/java/com/kautiainen/antti/btechgame/game/Unit.java:433-438 | Against a non-negative maximum, `addStructure` accepts exactly -max <= amount <= max |
| UnitBuilders.AcceptedStructureDelta | campaign-aid/src/main/java/com/kautiainen/antti/btechgame/game/Unit.java:440-441 | An accepted amount yields a repair or damage entry moving current by exactly the amount |
| UnitBuilders.UnitBuilder.constructor | campaign-aid/src/main/java/com/kautiainen/antti/btechgame/game/Unit.java:312-314 | The given mode, no model, every list empty |
| UnitBuilders.UnitBuilder.Default | campaign-aid/src/main/java/com/kautiainen/antti/btechgame/game/Unit.java:308-310 | Copy-on-write mode |
| UnitBuilders.UnitBuilder.Copy | campaign-aid/src/main/java/com/kautiainen/antti/btechgame/game/Unit.java:334-344 | Only the mode and the model are carried over |
| UnitBuilders.UnitBuilder.SetModel | campaign-aid/src/main/java/com/kautiainen/antti/btechgame/game/Unit.java:346-359 | Null is an invalid argument; an invalid model returns the receiver unchanged; a valid one is assigned in mutable mode or carried by a fresh builder in copy-on-write mode |
| UnitBuilders.UnitBuilder.AddMaxArmor | campaign-aid/src/main/java/com/kautiainen/antti/btechgame/game/Unit.java:369-392 | Never changes the builder: the armor read's exception, the receiver for 0, otherwise a null dereference |
| UnitBuilders.UnitBuilder.AddArmor | campaign-aid/src/main/java/com/kautiainen/antti/btechgame/game/Unit.java:402-420 | Empty armor is an invalid state; otherwise the armor read's exception or a null dereference; never changes the builder |
| UnitBuilders.UnitBuilder.AddStructure | campaign-aid/src/main/java/com/kautiainen/antti/btechgame/game/Unit.java:430-446 | Every branch: missing location, null maximum, amount out of bounds, append in mutable mode, empty copy in copy-on-write mode; on a reachable builder always an invalid state |
| UnitBuilders.UnitBuilder.Build | campaign-aid/src/main/java/com/kautiainen/antti/btechgame/game/Unit.java:454-464 | The constructor's rejection becomes an invalid state; the type is never set, so a reachable builder always fails |
| LoadoutControllers.LoadoutEntry.ToEquipmentArray | campaign-aid/src/main/java/com/kautiainen/antti/btechgame/game/LoadoutController.java:102-109 | Same length; element i pairs the key with item i |
| LoadoutControllers.NewLoadoutEntry | campaign-aid/src/main/java/com/kautiainen/antti/btechgame/game/LoadoutController.java:87-96 | Keeps, in order, the items of the non-null entries whose location is the key |
| LoadoutControllers.EntryRoundTrip | campaign-aid/src/main/java/com/kautiainen/antti/btechgame/game/LoadoutController.java:87-109 | Entry to loadouts and back gives the entry; its loadouts are invisible at every other location |
| LoadoutControllers.NewController | campaign-aid/src/main/java/com/kautiainen/antti/btechgame/game/LoadoutController.java:237-249 | Both tonnages stored; base loadout stays empty; a null collection is a null dereference |
| LoadoutControllers.NewPlainController | campaign-aid/src/main/java/com/kautiainen/antti/btechgame/game/LoadoutController.java:282-284 | The three-argument constructor with an empty map |
| LoadoutControllers.NewControllerFromBase | campaign-aid/src/main/java/com/kautiainen/antti/btechgame/game/LoadoutController.java:257-274 | Succeeds iff the map is null or every collection is empty, then available = max; otherwise a null dereference |
| LoadoutControllers.IndexOf | campaign-aid/src/main/java/com/kautiainen/antti/btechgame/game/LoadoutController.java:198 | `indexOf`: -1 iff absent, else the first identical position |
| LoadoutControllers.AddSpecFailures | campaign-aid/src/main/java/com/kautiainen/antti/btechgame/game/LoadoutController.java:178-181 | Fails exactly on a null item or a strict over-budget item, always as an invalid argument |
| LoadoutControllers.AddedMeaning | campaign-aid/src/main/java/com/kautiainen/antti/btechgame/game/LoadoutController.java:183-187 | The item goes last in its location's list (created if needed), other locations untouched, total consistent |
| LoadoutControllers.AddedConsistent | campaign-aid/src/main/java/com/kautiainen/antti/btechgame/game/LoadoutController.java:183-187 | A successful add keeps `getTonnage()` equal to the content's mass |
| LoadoutControllers.StrictAddStaysWithinBudget | campaign-aid/src/main/java/com/kautiainen/antti/btechgame/game/LoadoutController.java:179-181 | Strict mode never goes over the available tonnage |
| LoadoutControllers.LenientMayExceedBudget | campaign-aid/src/main/java/com/kautiainen/antti/btechgame/game/LoadoutController.java:179-181 | Lenient mode accepts an item over the budget that strict mode rejects |
| LoadoutControllers.RemoveSpecMeaning | campaign-aid/src/main/java/com/kautiainen/antti/btechgame/game/LoadoutController.java:196-204 | Only the first identical item goes, its mass is subtracted, keys (emptied lists included) and other locations kept |
| LoadoutControllers.RemovedConsistent | campaign-aid/src/main/java/com/kautiainen/antti/btechgame/game/LoadoutController.java:196-204 | A removal keeps `getTonnage()` equal to the content's mass |
| LoadoutControllers.RemoveAbsentIsNoOp | campaign-aid/src/main/java/com/kautiainen/antti/btechgame/game/LoadoutController.java:197-199 | A null item, unknown location or absent item changes nothing |
| LoadoutControllers.AddThenRemove | campaign-aid/src/main/java/com/kautiainen/antti/btechgame/game/LoadoutController.java:177-204 | Adding a new item and removing it restores the lists (the location's list kept) and the total |
| LoadoutControllers.AddAllInvariants | campaign-aid/src/main/java/com/kautiainen/antti/btechgame/game/LoadoutController.java:141-161 | The constructors' loops keep the total consistent and, when strict, within budget |
| LoadoutControllers.AddAllFailurePersists | campaign-aid/src/main/java/com/kautiainen/antti/btechgame/game/LoadoutController.java:145-160 | The first exception ends a constructor |
| LoadoutControllers.FlattenRegroups | campaign-aid/src/main/java/com/kautiainen/antti/btechgame/game/LoadoutController.java:211-216 | Regrouping `toArray` by location gives back each location's list in order, whatever the map order |
| LoadoutControllers.Loadout.Empty | campaign-aid/src/main/java/com/kautiainen/antti/btechgame/game/LoadoutController.java:117-127 | Empty content, total 0 |
| LoadoutControllers.Loadout.Tonnage | campaign-aid/src/main/java/com/kautiainen/antti/btechgame/game/LoadoutController.java:132-134 | `getTonnage()` is the mass of all items |
| LoadoutControllers.Loadout.AddEquipment | campaign-aid/src/main/java/com/kautiainen/antti/btechgame/game/LoadoutController.java:177-188 | The new state is `AddSpec` of the old; a failure throws and changes nothing; the consistency invariant is kept |
| LoadoutControllers.Loadout.RemoveEquipment | campaign-aid/src/main/java/com/kautiainen/antti/btechgame/game/LoadoutController.java:196-206 | Always returns false; the new state is `RemoveSpec` of the old; invariant kept |
| LoadoutControllers.Loadout.ToArray | campaign-aid/src/main/java/com/kautiainen/antti/btechgame/game/LoadoutController.java:211-217 | Given the map's iteration order over all its keys: no element is null, and the loadouts at each location are exactly that location's list, in order (none at a location not in the map) |
| LoadoutControllers.AddAllAppend | campaign-aid/src/main/java/com/kautiainen/antti/btechgame/game/LoadoutController.java:141-161 | Adding two runs of pairs is adding the first and then, unless it threw, the second |
| LoadoutControllers.AddMapWithoutNulls | campaign-aid/src/main/java/com/kautiainen/antti/btechgame/game/LoadoutController.java:141-149 | Without null arrays the map constructor's loop is the fold of `addEquipment` over all its (location, item) pairs |
| LoadoutControllers.AddMapFailurePersists | campaign-aid/src/main/java/com/kautiainen/antti/btechgame/game/LoadoutController.java:143-147 | Once an entry of the map throws, the later entries do not change the outcome |
| LoadoutControllers.NewLoadoutFromMap | campaign-aid/src/main/java/com/kautiainen/antti/btechgame/game/LoadoutController.java:141-149 | A null map is a null dereference; otherwise every item of every entry is added in turn, a null array throwing a null dereference when its entry is reached; the state or the first exception is that of the fold `AddMap` |
| LoadoutControllers.AddEntriesWithoutNulls | campaign-aid/src/main/java/com/kautiainen/antti/btechgame/game/LoadoutController.java:156-161 | Without null entries the entries constructor's loop is the fold of `addEquipment` over the entries' pairs |
| LoadoutControllers.AddEntriesFailurePersists | campaign-aid/src/main/java/com/kautiainen/antti/btechgame/game/LoadoutController.java:158-160 | Once an entry throws, the later entries do not change the outcome |
| LoadoutControllers.AddEntriesFirstNull | campaign-aid/src/main/java/com/kautiainen/antti/btechgame/game/LoadoutController.java:156-161 | With the first null entry at i: the exception of an earlier `addEquipment` if one threw, otherwise a null dereference |
| LoadoutControllers.NewLoadoutFromEntries | campaign-aid/src/main/java/com/kautiainen/antti/btechgame/game/LoadoutController.java:156-161 | Entries are added in turn; the state, or the first exception (an `addEquipment` error or the null dereference of the first null entry), is that of the fold `AddEntries` |
| LoadoutControllers.NewLenientLoadout | campaign-aid/src/main/java/com/kautiainen/antti/btechgame/game/LoadoutController.java:167-169 | The entries constructor in lenient mode: a non-strict loadout whose state or exception is that of `AddEntries` without the budget check |
| EquipmentOrder.KeyOf | campaign-aid/src/main/java/com/kautiainen/antti/btechgame/systemlog/Shop.java:90-108 | The comparator reads only name, modifier count and each modifier's rule and amount |
| EquipmentOrder.StringCompareAntisymmetric | campaign-aid/src/main/java/com/kautiainen/antti/btechgame/systemlog/Shop.java:91 | `String.compareTo` is antisymmetric |
| EquipmentOrder.StringCompareZero | campaign-aid/src/main/java/com/kautiainen/antti/btechgame/systemlog/Shop.java:91 | `String.compareTo` is 0 iff the strings are equal |
| EquipmentOrder.StringCompareTransitive | campaign-aid/src/main/java/com/kautiainen/antti/btechgame/systemlog/Shop.java:91 | `String.compareTo` is transitive |
| EquipmentOrder.ModifierKeyCompareFacts | campaign-aid/src/main/java/com/kautiainen/antti/btechgame/systemlog/Shop.java:100-103 | Per-modifier order is antisymmetric and 0 iff rule and amount agree |
| EquipmentOrder.ModifierKeyCompareTransitive | campaign-aid/src/main/java/com/kautiainen/antti/btechgame/systemlog/Shop.java:100-103 | Per-modifier order is transitive |
| EquipmentOrder.ModifierKeysCompareFacts | campaign-aid/src/main/java/com/kautiainen/antti/btechgame/systemlog/Shop.java:95-104 | Index-by-index order is antisymmetric and 0 iff all modifiers agree |
| EquipmentOrder.ModifierKeysCompareTransitive | campaign-aid/src/main/java/com/kautiainen/antti/btechgame/systemlog/Shop.java:95-104 | Index-by-index order is transitive |
| EquipmentOrder.ModifierKeysPrefixDecides | campaign-aid/src/main/java/com/kautiainen/antti/btechgame/systemlog/Shop.java:97 | The early exit: a non-zero result on a prefix is final |
| EquipmentOrder.CompareFacts | campaign-aid/src/main/java/com/kautiainen/antti/btechgame/systemlog/Shop.java:90-108 | `equipmentCompare` is antisymmetric and 0 iff the keys agree |
| EquipmentOrder.CompareTransitive | campaign-aid/src/main/java/com/kautiainen/antti/btechgame/systemlog/Shop.java:90-108 | `equipmentCompare` is transitive |
| EquipmentOrder.CompareByKey | campaign-aid/src/main/java/com/kautiainen/antti/btechgame/systemlog/Shop.java:90-108 | Items with equal keys compare alike against every item |
| EquipmentOrder.EquipmentCompare | campaign-aid/src/main/java/com/kautiainen/antti/btechgame/systemlog/Shop.java:90-108 | The early-exit loop computes the lexicographic order by name, modifier count, then rule and amount index by index |
| Shops.BinarySearch | campaign-aid/src/main/java/com/kautiainen/antti/btechgame/systemlog/Shop.java:131 | `Collections.binarySearch`: a found index holds an equal entry; a negative result encodes the insertion point |
| Shops.Position | campaign-aid/src/main/java/com/kautiainen/antti/btechgame/systemlog/Shop.java:138 | The insertion point is within the list |
| Shops.PositionSplits | campaign-aid/src/main/java/com/kautiainen/antti/btechgame/systemlog/Shop.java:131 | In a sorted list the entries before the insertion point are smaller, the rest not smaller |
| Shops.AfterPositionGreater | campaign-aid/src/main/java/com/kautiainen/antti/btechgame/systemlog/Shop.java:131 | Past the insertion point every entry is greater |
| Shops.EntryAtPosition | campaign-aid/src/main/java/com/kautiainen/antti/btechgame/systemlog/Shop.java:131-133 | An equal entry can only be at the insertion point |
| Shops.SearchAgreesWithPosition | campaign-aid/src/main/java/com/kautiainen/antti/btechgame/systemlog/Shop.java:131-138 | The search finds an entry iff the key is stocked, and both its results point at the insertion point |
| Shops.StockOfOthers | campaign-aid/src/main/java/com/kautiainen/antti/btechgame/systemlog/Shop.java:131 | No entry of the key means no stock |
| Shops.StockRespectsKey | campaign-aid/src/main/java/com/kautiainen/antti/btechgame/systemlog/Shop.java:90-108 | Items comparing equal have the same stock |
| Shops.StockOfSorted | campaign-aid/src/main/java/com/kautiainen/antti/btechgame/systemlog/Shop.java:131-133 | The stock of a key is its entry's count or 0 |
| Shops.RecountKeepsOrder | campaign-aid/src/main/java/com/kautiainen/antti/btechgame/systemlog/Shop.java:132-134 | Changing a count keeps the list sorted |
| Shops.RecountStock | campaign-aid/src/main/java/com/kautiainen/antti/btechgame/systemlog/Shop.java:169-174 | Changing a count changes only its key's stock |
| Shops.InsertKeepsOrder | campaign-aid/src/main/java/com/kautiainen/antti/btechgame/systemlog/Shop.java:138 | Inserting an unstocked key at its insertion point keeps the list sorted |
| Shops.InsertedStock | campaign-aid/src/main/java/com/kautiainen/antti/btechgame/systemlog/Shop.java:138 | Inserting adds the count to its key's stock only |
| Shops.MergedSorted | campaign-aid/src/main/java/com/kautiainen/antti/btechgame/systemlog/Shop.java:127-143 | `addEquipment` keeps the list sorted |
| Shops.MergedMeaning | campaign-aid/src/main/java/com/kautiainen/antti/btechgame/systemlog/Shop.java:127-143 | `addEquipment` adds the count (wrapping like `int`) to its key's stock and leaves every other key's stock |
| Shops.RecountedStock | campaign-aid/src/main/java/com/kautiainen/antti/btechgame/systemlog/Shop.java:132-135 | Merging into an existing entry adds to its key's stock only |
| Shops.TakenMeaning | campaign-aid/src/main/java/com/kautiainen/antti/btechgame/systemlog/Shop.java:168-175 | `removeEquipment` keeps the list sorted and its length, takes the count from its key and leaves other keys |
| Shops.TakenStock | campaign-aid/src/main/java/com/kautiainen/antti/btechgame/systemlog/Shop.java:173 | Taking subtracts the count from its key's stock only |
| Shops.MergedStocks | campaign-aid/src/main/java/com/kautiainen/antti/btechgame/systemlog/Shop.java:127-143 | After adding, the key is stocked at the same insertion point |
| Shops.AddThenRemoveRestoresStock | campaign-aid/src/main/java/com/kautiainen/antti/btechgame/systemlog/Shop.java:127-179 | Adding c copies then removing c restores every key's stock |
| Shops.RemoveFirstMeaning | campaign-aid/src/main/java/com/kautiainen/antti/btechgame/systemlog/Shop.java:86 | `List.remove` drops one occurrence and nothing else, or nothing when absent |
| Shops.AddThenRemoveUnit | campaign-aid/src/main/java/com/kautiainen/antti/btechgame/systemlog/Shop.java:68-88 | Adding a new unit and removing it restores the list |
| Shops.Shop.constructor | campaign-aid/src/main/java/com/kautiainen/antti/btechgame/systemlog/Shop.java:47-49 | Tags ignored; the shop starts empty and sorted |
| Shops.Shop.AddUnit | campaign-aid/src/main/java/com/kautiainen/antti/btechgame/systemlog/Shop.java:68-74 | Null is a null pointer; any other unit is appended and true returned |
| Shops.Shop.RemoveUnit | campaign-aid/src/main/java/com/kautiainen/antti/btechgame/systemlog/Shop.java:82-88 | Null returns false; otherwise the first identical unit goes and the result says whether one was there |
| Shops.Shop.AddEquipment | campaign-aid/src/main/java/com/kautiainen/antti/btechgame/systemlog/Shop.java:127-143 | Negative count: invalid argument; null item or 0: false, unchanged; otherwise true and the list becomes `Merged`; sortedness kept |
| Shops.Shop.AddOneEquipment | campaign-aid/src/main/java/com/kautiainen/antti/btechgame/systemlog/Shop.java:115-117 | The count version with 1 |
| Shops.Shop.RemoveEquipment | campaign-aid/src/main/java/com/kautiainen/antti/btechgame/systemlog/Shop.java:160-179 | Negative: invalid argument; 0: true, unchanged; not found: false; a lower stock: invalid argument, unchanged; otherwise the count drops, the entry stays even at 0 |
| Shops.Shop.RemoveOneEquipment | campaign-aid/src/main/java/com/kautiainen/antti/btechgame/systemlog/Shop.java:150-152 | The count version with 1 |
| Missions.RepChange | campaign-aid/src/main/java/com/kautiainen/antti/btechgame/systemlog/Mission.java:39-43 | Succeeds iff gain >= 0 and loss <= 0, returning both unchanged; invalid argument otherwise |
| Missions.EvenChange | campaign-aid/src/main/java/com/kautiainen/antti/btechgame/systemlog/Mission.java:51-54 | Succeeds iff amount >= 0, returning (amount, -amount) |
| Missions.EvenChangeIsRepChange | campaign-aid/src/main/java/com/kautiainen/antti/btechgame/systemlog/Mission.java:39-54 | An even change is the uneven one with opposite amounts and balances to 0 |
| Missions.NewMission | campaign-aid/src/main/java/com/kautiainen/antti/btechgame/systemlog/Mission.java:136-149 | Every field as given, the difficulty cast to `short` |
| Missions.DifficultyTruncated | campaign-aid/src/main/java/com/kautiainen/antti/btechgame/systemlog/Mission.java:141 | The cast keeps the low 16 bits: 65541 becomes 5, 32768 becomes -32768 |
| Missions.NewMissionWithoutRewards | campaign-aid/src/main/java/com/kautiainen/antti/btechgame/systemlog/Mission.java:120-122 | Empty salary and reputation arrays |
| Missions.NewLocalMission | campaign-aid/src/main/java/com/kautiainen/antti/btechgame/systemlog/Mission.java:151-153 | Null employer and opponent |
| Missions.NewPlainMission | campaign-aid/src/main/java/com/kautiainen/antti/btechgame/systemlog/Mission.java:155-157 | Also a null system and travel time 0 |
| SystemInfos.NewSystemInfo | campaign-aid/src/main/java/com/kautiainen/antti/btechgame/systemlog/SystemInfo.java:27-36 | Null arrays become empty; others are copied in order |
| SystemInfos.NewSystemInfoWithShop | campaign-aid/src/main/java/com/kautiainen/antti/btechgame/systemlog/SystemInfo.java:38-40 | The shop is ignored: no shops |
| SystemInfos.NewPlainSystemInfo | campaign-aid/src/main/java/com/kautiainen/antti/btechgame/systemlog/SystemInfo.java:42-44 | No shops and no missions |
| SystemInfos.Without | campaign-aid/src/main/java/com/kautiainen/antti/btechgame/systemlog/SystemInfo.java:48-50 | The filter drops the mission and keeps only missions of the list |
| SystemInfos.AddMission | campaign-aid/src/main/java/com/kautiainen/antti/btechgame/systemlog/SystemInfo.java:56-65 | Succeeds iff the mission is acceptable (non-null, and null or own system, or travel time > 0); the mission is appended, name, faction, shops kept |
| SystemInfos.RemoveMission | campaign-aid/src/main/java/com/kautiainen/antti/btechgame/systemlog/SystemInfo.java:46-54 | Same guard; the result lists the missions other than that object, in order |
| SystemInfos.WithoutKeepsOthers | campaign-aid/src/main/java/com/kautiainen/antti/btechgame/systemlog/SystemInfo.java:48-50 | Every other mission keeps its number of occurrences |
| SystemInfos.WithoutAbsent | campaign-aid/src/main/java/com/kautiainen/antti/btechgame/systemlog/SystemInfo.java:48-50 | Removing an absent mission leaves the list equal |
| SystemInfos.AddThenRemoveMission | campaign-aid/src/main/java/com/kautiainen/antti/btechgame/systemlog/SystemInfo.java:46-65 | Adding a new mission and removing it gives the system back |
| SystemInfos.RemoveMissionTwice | campaign-aid/src/main/java/com/kautiainen/antti/btechgame/systemlog/SystemInfo.java:46-54 | Removing is idempotent |
| GameRules.CreateSlottedHitLocation | campaign-aid/src/main/java/com/kautiainen/antti/btechgame/game/GameRules.java:36-41 | Succeeds iff type, name present and slots >= 0; the location is slotted with the given name, abbreviation and slots |
| GameRules.CreateSlottedHitLocationOf | campaign-aid/src/main/java/com/kautiainen/antti/btechgame/game/GameRules.java:50-54 | Null arguments are invalid; the slot count is always 32767 (`Math.max` with the maximum) |
| GameRules.CreateUnslottedHitLocation | campaign-aid/src/main/java/com/kautiainen/antti/btechgame/game/GameRules.java:63-65 | Zero slots; a null type is dereferenced |
| GameRules.CreateUnslottedNamedHitLocation | campaign-aid/src/main/java/com/kautiainen/antti/btechgame/game/GameRules.java:74-76 | A new plain location with the type's name as unit type, zero slots; a null type is dereferenced |
| GameRules.CreateMechHitLocation | campaign-aid/src/main/java/com/kautiainen/antti/btechgame/game/GameRules.java:85-87 | Tagged "Mech", slotted location, slots kept |
| GameRules.Join | campaign-aid/src/main/java/com/kautiainen/antti/btechgame/game/GameRules.java:96 | `String.join`: empty for no parts, begins with the first part |
| GameRules.Initials | campaign-aid/src/main/java/com/kautiainen/antti/btechgame/game/GameRules.java:96-98 | The first character of every segment, in order; an empty segment is an index error |
| GameRules.CreateMechHitLocationFromSegments | campaign-aid/src/main/java/com/kautiainen/antti/btechgame/game/GameRules.java:95-99 | Name = segments joined by spaces, abbreviation = their initials; an empty segment fails |
| GameRules.DefaultHitLocations | campaign-aid/src/main/java/com/kautiainen/antti/btechgame/game/GameRules.java:126-137 | Eight locations |
| GameRules.OneSegment | campaign-aid/src/main/java/com/kautiainen/antti/btechgame/game/GameRules.java:128 | One segment is its own name and its first letter the abbreviation |
| GameRules.TwoSegments | campaign-aid/src/main/java/com/kautiainen/antti/btechgame/game/GameRules.java:129-133 | Two segments give "first second" and both initials |
| GameRules.DefaultLayout | campaign-aid/src/main/java/com/kautiainen/antti/btechgame/game/GameRules.java:126-137 | Exactly Head/H/1, Center Torso/CT/4, Left Torso/LT/10, Left Arm/LA/8, Left Leg/LL/4, Right Torso/RT/10, Right Arm/RA/8, Right Leg/RL/4, all Mech |
| GameRules.NewRules | campaign-aid/src/main/java/com/kautiainen/antti/btechgame/game/GameRules.java:144-147 | Name and mode as given, unit types [Mech, Vehicle], default locations |
| GameRules.BaseGameRules | campaign-aid/src/main/java/com/kautiainen/antti/btechgame/game/GameRules.java:106-108 | Named "Harebrained Base Game" |

## Left out

- Floating point: masses and tonnages are Java `double`s, modelled as exact `real`s. This leaves out rounding in `summingDouble`, and NaN and -0.0 in `Double.compare` (`EquipmentOrder.RealCompare` is the ordering of reals). The `floor(x / 16.0)` of `getLoadoutController` is exact on the integer sum, so it is written as integer floor division.
- Concurrency: the `synchronized` methods of `Loadout` and `Shop` are modelled single-threaded.
- Stream combiners: the combiners of `getHitLocationTrackSummary` and `getArmorLoadout` run only for parallel streams. Only the sequential left folds are modelled.
- Unicode tables: `\p{Lu}` and `\p{N}` are predicates in a `Categories` parameter of the recogniser. Strings are sequences of `char`, with no surrogate-pair handling.
- HashMap iteration order: it is a parameter. `Loadout.toArray` takes it as a list holding each of the map's keys once, the map constructor of `Loadout` as the entry list in iteration order, and the three-argument controller constructor as its base-loadout entries.
- Aliasing of caller data:
  - The three-argument controller constructor appends each of the caller's collections to itself. Only its outcome is modelled: a null collection throws, and the controller's own base loadout stays empty. The `UnsupportedOperationException` that `addAll` throws on an unmodifiable caller collection (`LoadoutController.java:246`) is not modelled: the model's collections are values and always accept the append.
  - `Mission` keeps the caller's salary and reputation arrays by reference. The model stores their values.
  - `Unit`, `SystemInfo` and the builder copy their arrays, so values are exact there.
- Null array elements: the armor and structure arrays of `Unit` and the builder and the mission arrays of `SystemInfo` hold non-null elements in the model (equipment entries and shops may be null). Null strings are `Option`s only where the code tests them.
- Unreachable code:
  - `Unit.java:97-98` is unreachable, since the loadout is never null after the constructor.
  - `validPropertyValue` (`Unit.java:323-332`) is never called.
  - The branches of `addMaxArmor` and `addArmor` after a non-null armor read (`Unit.java:373-391`, `405-419`) are proved unreachable by `TrackSummaries.ArmorLoadoutNeverYieldsTrack`.
- Builder details:
  - The copy constructor is modelled as the builder calls it, with property "model" or any other property that carries nothing. The "mutable" property is never passed.
  - The enclosing `Unit` instance of a builder and the `isMutable()` getter are not modelled. `validModel` (`Unit.java:134-136`) only delegates to `isValidModel`.
  - `isValidModel(null)` throws in Java and is not modelled. The builder never passes null.
- Shop details: the `parts` list, the getters returning unmodifiable views of the lists, and the `UnitPart` record are not modelled. `Collections.binarySearch` is modelled by the JDK's indexed binary search.
- Terrain: the `Terrain` constructor keeps none of its arguments, so a terrain is only an identity.
- UnitType names: `Name()` gives the enum constant's name, as `toString()` does.
- ModelNames.IsValidModel: requires that `-` is neither an upper-case letter nor a number in the given categories, as in Unicode.
- GameRules.CreateSlottedHitLocationOf: requires the location to be a `SlottedHitLocation` whose capacity is a `short`. This is what the Java parameter type guarantees.
- GameRules.Join: states only that the result starts with the first part. `GameRules.OneSegment`, `GameRules.TwoSegments` and `GameRules.DefaultLayout` give the exact joins the factories use.
- TrackSummaries.Filter: states only the length bound. `TrackSummaries.FilterMembers` states which entries it keeps.
- GameRules.DefaultHitLocations: states only the count. `GameRules.DefaultLayout` lists every entry.
- LoadoutControllers.Loadout.AddEquipment: requires the class invariant `Valid()`. Every constructor establishes it, and every method keeps it.
- Shops.Shop.AddEquipment: requires the class invariant that the list is sorted. The constructor establishes it, and every method keeps it.
