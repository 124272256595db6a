/** Rules modifiers (RulesModifier.java): a Java record, so equality is
    componentwise and no component is validated. */
module RulesModifiers {
  import opened JavaLang

  /** java.math.RoundingMode. */
  datatype RoundingMode = Up | Down | Ceiling | Floor | HalfUp | HalfDown | HalfEven | Unnecessary

  /** `record RulesModifier(name, rule, modifier, rounding)`. The rule name is
      never null in this model (the shop comparator dereferences it). */
  datatype RulesModifier = RulesModifier(
    name: Option<string>,
    rule: string,
    modifier: real,
    rounding: Option<RoundingMode>)

  /** `RulesModifier.roundDown`. */
  function RoundDown(name: Option<string>, rule: string, modifier: real): (r: RulesModifier)
    ensures r.rounding == Some(Down)
    ensures r.name == name && r.rule == rule && r.modifier == modifier
  {
    RulesModifier(name, rule, modifier, Some(Down))
  }

  /** `RulesModifier.roundUp`. */
  function RoundUp(name: Option<string>, rule: string, modifier: real): (r: RulesModifier)
    ensures r.rounding == Some(Up)
    ensures r.name == name && r.rule == rule && r.modifier == modifier
  {
    RulesModifier(name, rule, modifier, Some(Up))
  }

  /** The two factories differ only in rounding, and equality is componentwise:
      equal arguments give equal records and a rounded-down modifier never equals
      a rounded-up one. */
  lemma FactoriesComponentwise(n1: Option<string>, r1: string, m1: real, n2: Option<string>, r2: string, m2: real)
    ensures RoundDown(n1, r1, m1) == RoundDown(n2, r2, m2) <==> n1 == n2 && r1 == r2 && m1 == m2
    ensures RoundUp(n1, r1, m1) == RoundUp(n2, r2, m2) <==> n1 == n2 && r1 == r2 && m1 == m2
    ensures RoundDown(n1, r1, m1) != RoundUp(n2, r2, m2)
  {
  }
}
