/** The order of the shop's equipment list (`Shop.equipmentCompare` in
    Shop.java): by name, then by the number of modifiers, then modifier by
    modifier by rule name and then by modifier value. The comparator only reads
    these fields, so the order is stated on their values, a `SortKey`. */
module EquipmentOrder {
  import opened RulesModifiers
  import opened Equipments

  /** `String.compareTo`: the difference of the first differing characters,
      or else of the lengths. */
  function StringCompare(a: string, b: string): int {
    if |a| == 0 || |b| == 0 then |a| - |b|
    else if a[0] != b[0] then a[0] as int - b[0] as int
    else StringCompare(a[1..], b[1..])
  }

  /** `Integer.compare`. */
  function IntCompare(x: int, y: int): int {
    if x < y then -1 else if x == y then 0 else 1
  }

  /** `Double.compare` on the reals standing for doubles. */
  function RealCompare(x: real, y: real): int {
    if x < y then -1 else if x == y then 0 else 1
  }

  lemma {:induction false} StringCompareAntisymmetric(a: string, b: string)
    ensures StringCompare(a, b) == -StringCompare(b, a)
  {
    if |a| > 0 && |b| > 0 && a[0] == b[0] {
      StringCompareAntisymmetric(a[1..], b[1..]);
    }
  }

  lemma {:induction false} StringCompareZero(a: string, b: string)
    ensures StringCompare(a, b) == 0 <==> a == b
  {
    if |a| > 0 && |b| > 0 && a[0] == b[0] {
      StringCompareZero(a[1..], b[1..]);
      assert a == [a[0]] + a[1..] && b == [b[0]] + b[1..];
    }
  }

  lemma {:induction false} StringCompareTransitive(a: string, b: string, c: string)
    requires StringCompare(a, b) < 0 && StringCompare(b, c) < 0
    ensures StringCompare(a, c) < 0
  {
    if |a| > 0 && |b| > 0 && |c| > 0 && a[0] == b[0] && b[0] == c[0] {
      StringCompareTransitive(a[1..], b[1..], c[1..]);
    }
  }

  /** What the comparator reads of one modifier. */
  datatype ModifierKey = ModifierKey(rule: string, modifier: real)

  /** What the comparator reads of one equipment item. */
  datatype SortKey = SortKey(name: string, modifiers: seq<ModifierKey>)

  function KeyOf(e: Equipment): (k: SortKey)
    ensures k.name == e.name && |k.modifiers| == |e.modifiers|
    ensures forall i | 0 <= i < |e.modifiers| ::
              k.modifiers[i] == ModifierKey(e.modifiers[i].rule, e.modifiers[i].modifier)
  {
    SortKey(e.name, seq(|e.modifiers|, i requires 0 <= i < |e.modifiers| =>
                                         ModifierKey(e.modifiers[i].rule, e.modifiers[i].modifier)))
  }

  /** One step of the comparator's loop: the rule names, then the values. */
  function ModifierKeyCompare(a: ModifierKey, b: ModifierKey): int {
    var r := StringCompare(a.rule, b.rule);
    if r != 0 then r else RealCompare(a.modifier, b.modifier)
  }

  lemma ModifierKeyCompareFacts(a: ModifierKey, b: ModifierKey)
    ensures ModifierKeyCompare(a, b) == -ModifierKeyCompare(b, a)
    ensures ModifierKeyCompare(a, b) == 0 <==> a == b
  {
    StringCompareAntisymmetric(a.rule, b.rule);
    StringCompareZero(a.rule, b.rule);
  }

  lemma ModifierKeyCompareTransitive(a: ModifierKey, b: ModifierKey, c: ModifierKey)
    requires ModifierKeyCompare(a, b) < 0 && ModifierKeyCompare(b, c) < 0
    ensures ModifierKeyCompare(a, c) < 0
  {
    StringCompareZero(a.rule, b.rule);
    StringCompareZero(b.rule, c.rule);
    if StringCompare(a.rule, b.rule) < 0 && StringCompare(b.rule, c.rule) < 0 {
      StringCompareTransitive(a.rule, b.rule, c.rule);
    }
  }

  /** The comparator's loop over two modifier lists of one length: the first
      step that does not compare equal decides. */
  function ModifierKeysCompare(a: seq<ModifierKey>, b: seq<ModifierKey>): int
    requires |a| == |b|
  {
    if |a| == 0 then 0
    else
      var r := ModifierKeysCompare(a[..|a| - 1], b[..|b| - 1]);
      if r != 0 then r else ModifierKeyCompare(a[|a| - 1], b[|b| - 1])
  }

  lemma {:induction false} ModifierKeysCompareFacts(a: seq<ModifierKey>, b: seq<ModifierKey>)
    requires |a| == |b|
    ensures ModifierKeysCompare(a, b) == -ModifierKeysCompare(b, a)
    ensures ModifierKeysCompare(a, b) == 0 <==> a == b
  {
    if |a| > 0 {
      var n := |a| - 1;
      ModifierKeysCompareFacts(a[..n], b[..n]);
      ModifierKeyCompareFacts(a[n], b[n]);
      assert a == a[..n] + [a[n]] && b == b[..n] + [b[n]];
    }
  }

  lemma {:induction false} ModifierKeysCompareTransitive(a: seq<ModifierKey>, b: seq<ModifierKey>, c: seq<ModifierKey>)
    requires |a| == |b| == |c|
    requires ModifierKeysCompare(a, b) < 0 && ModifierKeysCompare(b, c) < 0
    ensures ModifierKeysCompare(a, c) < 0
  {
    var n := |a| - 1;
    var pa, pb, pc := a[..n], b[..n], c[..n];
    ModifierKeysCompareFacts(pa, pb);
    ModifierKeysCompareFacts(pb, pc);
    ModifierKeysCompareFacts(pa, pc);
    var ra, rb := ModifierKeysCompare(pa, pb), ModifierKeysCompare(pb, pc);
    if ra != 0 && rb != 0 {
      ModifierKeysCompareTransitive(pa, pb, pc);
    } else if ra == 0 && rb == 0 {
      ModifierKeyCompareTransitive(a[n], b[n], c[n]);
    }
  }

  /** A prefix that does not compare equal decides the whole comparison: the
      loop may stop there. */
  lemma {:induction false} ModifierKeysPrefixDecides(a: seq<ModifierKey>, b: seq<ModifierKey>, i: nat)
    requires |a| == |b| && i <= |a|
    requires ModifierKeysCompare(a[..i], b[..i]) != 0
    ensures ModifierKeysCompare(a, b) == ModifierKeysCompare(a[..i], b[..i])
    decreases |a| - i
  {
    if i == |a| {
      assert a[..i] == a && b[..i] == b;
    } else {
      var n := |a| - 1;
      assert a[..n][..i] == a[..i] && b[..n][..i] == b[..i];
      ModifierKeysPrefixDecides(a[..n], b[..n], i);
    }
  }

  /** `equipmentCompare` on the keys. */
  function KeyCompare(x: SortKey, y: SortKey): int {
    var r := StringCompare(x.name, y.name);
    if r != 0 then r
    else if |x.modifiers| != |y.modifiers| then IntCompare(|x.modifiers|, |y.modifiers|)
    else ModifierKeysCompare(x.modifiers, y.modifiers)
  }

  /** `equipmentCompare` on the items of two shop entries. */
  function Compare(x: Equipment, y: Equipment): int {
    KeyCompare(KeyOf(x), KeyOf(y))
  }

  /** The comparator is a total order on keys: antisymmetric, equal exactly on
      equal keys, and transitive. */
  lemma CompareFacts(x: Equipment, y: Equipment)
    ensures Compare(x, y) == -Compare(y, x)
    ensures Compare(x, y) == 0 <==> KeyOf(x) == KeyOf(y)
  {
    var kx, ky := KeyOf(x), KeyOf(y);
    StringCompareAntisymmetric(kx.name, ky.name);
    StringCompareZero(kx.name, ky.name);
    if |kx.modifiers| == |ky.modifiers| {
      ModifierKeysCompareFacts(kx.modifiers, ky.modifiers);
    }
  }

  lemma CompareTransitive(x: Equipment, y: Equipment, z: Equipment)
    requires Compare(x, y) < 0 && Compare(y, z) < 0
    ensures Compare(x, z) < 0
  {
    var kx, ky, kz := KeyOf(x), KeyOf(y), KeyOf(z);
    StringCompareZero(kx.name, ky.name);
    StringCompareZero(ky.name, kz.name);
    var rx, ry := StringCompare(kx.name, ky.name), StringCompare(ky.name, kz.name);
    if rx != 0 && ry != 0 {
      StringCompareTransitive(kx.name, ky.name, kz.name);
    } else if rx == 0 && ry == 0 {
      if |kx.modifiers| == |ky.modifiers| == |kz.modifiers| {
        ModifierKeysCompareTransitive(kx.modifiers, ky.modifiers, kz.modifiers);
      }
    }
  }

  /** Two items of one key compare alike with every third item. */
  lemma CompareByKey(x: Equipment, y: Equipment, z: Equipment)
    requires Compare(x, y) == 0
    ensures Compare(x, z) == Compare(y, z) && Compare(z, x) == Compare(z, y)
  {
    CompareFacts(x, y);
  }

  /** `equipmentCompare(compared, comparee)`, with its early-exit loop over
      the modifiers. */
  method EquipmentCompare(compared: Equipment, comparee: Equipment) returns (result: int)
    ensures result == Compare(compared, comparee)
  {
    result := StringCompare(compared.name, comparee.name);
    if result == 0 {
      result := IntCompare(|compared.modifiers|, |comparee.modifiers|);
      if result == 0 {
        ghost var ka, kb := KeyOf(compared).modifiers, KeyOf(comparee).modifiers;
        var end := |compared.modifiers|;
        var i := 0;
        while result == 0 && i < end
          invariant 0 <= i <= end
          invariant result == ModifierKeysCompare(ka[..i], kb[..i])
        {
          assert ka[..i + 1][..i] == ka[..i] && kb[..i + 1][..i] == kb[..i];
          var comparedMod, compareeMod := compared.modifiers[i], comparee.modifiers[i];
          result := StringCompare(comparedMod.rule, compareeMod.rule);
          if result == 0 {
            result := RealCompare(comparedMod.modifier, compareeMod.modifier);
          }
          i := i + 1;
        }
        if result != 0 {
          ModifierKeysPrefixDecides(ka, kb, i);
        } else {
          assert ka[..i] == ka && kb[..i] == kb;
        }
      }
    }
  }
}
