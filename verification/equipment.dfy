/** Equipment items (Equipment.java). */
module Equipments {
  import opened JavaLang
  import opened RulesModifiers

  /** An `Equipment` object. `equals` is not overridden, so `id` stands for the
      object's identity. Masses are Java `double`s, modelled as exact reals. */
  datatype Equipment = Equipment(
    id: nat,
    name: string,
    abbrev: Option<string>,
    mass: real,
    size: Int32,
    modifiers: seq<RulesModifier>)

  /** `new Equipment(name, abbrev, mass, size)`: no validation, and the modifiers
      array is always empty. */
  function NewEquipment(id: nat, name: string, abbrev: Option<string>, mass: real, size: Int32): (r: Equipment)
    ensures r.id == id && r.name == name && r.abbrev == abbrev && r.mass == mass && r.size == size
    ensures r.modifiers == []
  {
    Equipment(id, name, abbrev, mass, size, [])
  }

  /** `new Equipment(name, abbreviation, mass)` occupies a single critical slot. */
  function NewSingleSlotEquipment(id: nat, name: string, abbrev: Option<string>, mass: real): (r: Equipment)
    ensures r == NewEquipment(id, name, abbrev, mass, 1)
    ensures r.size == 1 && r.modifiers == []
  {
    NewEquipment(id, name, abbrev, mass, 1)
  }

  /** `"+".repeat(n)`. */
  function Pluses(n: nat): (s: string)
    ensures |s| == n
    ensures forall i :: 0 <= i < n ==> s[i] == '+'
  {
    if n == 0 then "" else Pluses(n - 1) + "+"
  }

  /** `Equipment.toString`: the name followed by one `+` per modifier. */
  function ToString(e: Equipment): (s: string)
    ensures |s| == |e.name| + |e.modifiers|
    ensures s[..|e.name|] == e.name
    ensures forall i :: |e.name| <= i < |s| ==> s[i] == '+'
  {
    e.name + Pluses(|e.modifiers|)
  }

  /** Every constructed item prints as its bare name. */
  lemma ConstructedPrintsName(id: nat, name: string, abbrev: Option<string>, mass: real, size: Int32)
    ensures ToString(NewEquipment(id, name, abbrev, mass, size)) == name
  {
  }
}
