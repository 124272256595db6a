/** The per-location reducers of Unit.java. Each filters an ordered list of
    track deltas by location identity and folds what is left from the left. */
module TrackSummaries {
  import opened JavaLang
  import opened HitLocations
  import opened Tracks
  import ArmorLoadouts
  import StructureLoadouts
  import TrackDispatch

  /** The entries at `location`, in order (`stream().filter(...)`). */
  function Filter(entries: seq<Track>, location: Option<HitLocation>): (r: seq<Track>)
    ensures |r| <= |entries|
  {
    if |entries| == 0 then []
    else
      var last := entries[|entries| - 1];
      Filter(entries[..|entries| - 1], location) + (if last.location == location then [last] else [])
  }

  /** The filtered entries are exactly the entries at the location. */
  lemma {:induction false} FilterMembers(entries: seq<Track>, location: Option<HitLocation>)
    ensures forall x | x in Filter(entries, location) :: x in entries && x.location == location
    ensures forall x | x in entries && x.location == location :: x in Filter(entries, location)
  {
    if |entries| > 0 {
      var prev := entries[..|entries| - 1];
      FilterMembers(prev, location);
      assert entries == prev + [entries[|entries| - 1]];
    }
  }

  /** No entry at the location leaves nothing after filtering. */
  lemma {:induction false} FilterAbsent(entries: seq<Track>, location: Option<HitLocation>)
    requires location !in Locations(entries)
    ensures Filter(entries, location) == []
  {
    if |entries| > 0 {
      var prev := entries[..|entries| - 1];
      assert entries[|entries| - 1] in entries;
      assert Locations(prev) <= Locations(entries) by {
        forall x | x in prev ensures x in entries { }
      }
      FilterAbsent(prev, location);
    }
  }

  lemma FilterAppend(entries: seq<Track>, e: Track, location: Option<HitLocation>)
    ensures Filter(entries + [e], location) == Filter(entries, location) + (if e.location == location then [e] else [])
  {
    assert (entries + [e])[..|entries|] == entries;
  }

  /** Sum of the current values. */
  function SumCurrent(m: seq<Track>): int {
    if |m| == 0 then 0 else SumCurrent(m[..|m| - 1]) + m[|m| - 1].current
  }

  /** Sum of the defined maxima, or absent when no entry defines one. */
  function SumMax(m: seq<Track>): Option<int> {
    if |m| == 0 then None
    else
      var prev := SumMax(m[..|m| - 1]);
      var last := m[|m| - 1];
      if last.max.None? then prev else Some(AddedMaximum(prev, last.max.value))
  }

  // ---------------------------------------------------------------------------
  // getHitLocationTrackSummary

  /** One accumulator step: an entry without a maximum adds its current value, an
      entry with one first adds its maximum and then its current value. */
  function Step(acc: Track, e: Track): Result<Track> {
    if e.max.None? then TrackDispatch.AddCurrent(acc, e.current)
    else
      match TrackDispatch.AddMaximum(acc, e.max.value)
      case Fail(err) => Fail(err)
      case Ok(t) => TrackDispatch.AddCurrent(t, e.current)
  }

  /** The collector over the filtered entries: the first one seeds the
      accumulator, every later one is applied with `Step`. */
  function Collect(m: seq<Track>): (r: Result<Option<Track>>)
    ensures r == Ok(None) <==> |m| == 0
    ensures r.Fail? ==> r.error == IllegalArgument
  {
    if |m| == 0 then Ok(None)
    else
      match Collect(m[..|m| - 1])
      case Fail(err) => Fail(err)
      case Ok(None) => Ok(Some(m[|m| - 1]))
      case Ok(Some(acc)) =>
        match Step(acc, m[|m| - 1])
        case Fail(err) => Fail(err)
        case Ok(t) => Ok(Some(t))
  }

  /** `getHitLocationTrackSummary(entries, location)`: null when no entry has the
      location, otherwise the collected track or the exception of a step. */
  function Summary(entries: seq<Track>, location: Option<HitLocation>): (r: Result<Option<Track>>)
    ensures r == Ok(None) <==> forall x | x in entries :: x.location != location
    ensures r.Fail? ==> r.error == IllegalArgument
  {
    var m := Filter(entries, location);
    FilterMembers(entries, location);
    assert (exists x :: x in entries && x.location == location) ==> |m| > 0;
    Collect(m)
  }

  /** Every prefix of the filtered armor or structure entries stays within the
      bounds a track checks, including the intermediate track that `addMaximum`
      produces before `addCurrent` is applied. */
  ghost predicate Accumulates(m: seq<Track>)
    requires |m| > 0
  {
    var kind := m[0].kind;
    var location := m[0].location;
    if |m| == 1 then true
    else
      var last := m[|m| - 1];
      var prev := m[..|m| - 1];
      Accumulates(prev)
      && (last.max.Some? ==> HitLocationTrack(kind, location, SumMax(m), SumCurrent(prev)).Valid())
      && HitLocationTrack(kind, location, SumMax(m), SumCurrent(m)).Valid()
  }

  /** For armor and structure entries the collector is exactly a sum: it
      succeeds iff every prefix stays in bounds, and then keeps the class and
      location of the first entry, with the sum of the current values and the
      sum of the defined maxima. */
  lemma {:induction false} CollectIsSum(m: seq<Track>)
    requires |m| > 0 && m[0].kind != Base
    ensures Collect(m).Ok? <==> Accumulates(m)
    ensures Collect(m).Ok? ==>
              Collect(m).value == Some(HitLocationTrack(m[0].kind, m[0].location, SumMax(m), SumCurrent(m)))
  {
    if |m| == 1 {
      assert m[..0] == [];
      assert SumCurrent(m) == m[0].current;
      assert SumMax(m) == m[0].max;
    } else {
      var prev := m[..|m| - 1];
      assert prev[0] == m[0];
      CollectIsSum(prev);
    }
  }

  /** `getHitLocationTrackSummary` on armor or structure entries: when the
      first entry at the location is not of the base class, the result is the
      summed track of that class. */
  lemma SummaryIsSum(entries: seq<Track>, location: Option<HitLocation>)
    requires var m := Filter(entries, location); |m| > 0 && m[0].kind != Base
    ensures var m := Filter(entries, location);
            Summary(entries, location).Ok? <==> Accumulates(m)
    ensures var m := Filter(entries, location);
            Summary(entries, location).Ok? ==>
              Summary(entries, location).value
                == Some(HitLocationTrack(m[0].kind, location, SumMax(m), SumCurrent(m)))
  {
    var m := Filter(entries, location);
    FilterMembers(entries, location);
    assert m[0] in m;
    CollectIsSum(m);
  }

  /** A structure with maximum 9 followed by damage 3 and repair 2 sums to
      current -1: the first entry's current value 0 is part of the sum. */
  lemma SummaryExample(loc: HitLocation)
    ensures
      var l := Some(loc);
      var entries := [HitLocationTrack(Structure, l, Some(9), 0), HitLocationTrack(Structure, l, None, -3),
                      HitLocationTrack(Structure, l, None, 2)];
      Summary(entries, l) == Ok(Some(HitLocationTrack(Structure, l, Some(9), -1)))
  {
    var l := Some(loc);
    var entries: seq<Track> := [HitLocationTrack(Structure, l, Some(9), 0), HitLocationTrack(Structure, l, None, -3),
                                HitLocationTrack(Structure, l, None, 2)];
    assert entries[..2][..1] == entries[..1];
    assert Filter(entries[..1], l) == entries[..1];
    assert Filter(entries[..2], l) == entries[..2];
    assert Filter(entries, l) == entries;
    assert entries[..1][..0] == [];
    assert Collect(entries[..1]) == Ok(Some(entries[0]));
    assert Collect(entries[..2]) == Ok(Some(HitLocationTrack(Structure, l, Some(9), -3)));
  }

  // ---------------------------------------------------------------------------
  // getStructureLoadout

  /** `getStructureLoadout`: no entry at the location is an invalid state; a
      structure summary is returned as it is, any other summary is rebuilt as a
      structure track. */
  function StructureLoadoutOf(entries: seq<StructureTrack>, location: Option<HitLocation>)
    : (r: Result<StructureTrack>)
    ensures r == Fail(IllegalState) <==> forall x | x in entries :: x.location != location
    ensures r.Fail? ==> r.error in {IllegalState, IllegalArgument}
  {
    match Summary(entries, location)
    case Fail(err) => Fail(err)
    case Ok(None) => Fail(IllegalState)
    case Ok(Some(t)) =>
      if t.kind == Structure then Ok(t)
      else StructureLoadouts.NewStructureFromShorts(location, t.max, t.current)
  }

  /** The summary of structure entries is always a structure track, so the
      result is the summed structure track itself. */
  lemma StructureLoadoutIsSum(entries: seq<StructureTrack>, location: Option<HitLocation>)
    requires |Filter(entries, location)| > 0
    ensures var m := Filter(entries, location);
            StructureLoadoutOf(entries, location).Ok? <==> Accumulates(m)
    ensures var m := Filter(entries, location);
            StructureLoadoutOf(entries, location).Ok? ==>
              StructureLoadoutOf(entries, location).value
                == HitLocationTrack(Structure, location, SumMax(m), SumCurrent(m))
  {
    var m := Filter(entries, location);
    FilterMembers(entries, location);
    assert m[0] in m;
    SummaryIsSum(entries, location);
  }

  // ---------------------------------------------------------------------------
  // getArmorLoadout

  /** The armor collector as written: an entry with a maximum reads the fields
      of the accumulator, which is still null at the first entry; an entry
      without one needs an accumulator. */
  function CollectArmor(m: seq<ArmorTrack>): (r: Result<Option<ArmorTrack>>)
    ensures r == Ok(None) <==> |m| == 0
    ensures r.Fail? ==> r.error in {NullPointer, IllegalState, IllegalArgument}
  {
    if |m| == 0 then Ok(None)
    else
      var cursor := m[|m| - 1];
      match CollectArmor(m[..|m| - 1])
      case Fail(err) => Fail(err)
      case Ok(None) => if cursor.max.Some? then Fail(NullPointer) else Fail(IllegalState)
      case Ok(Some(source)) =>
        if cursor.max.Some? then
          match ArmorLoadouts.NewArmor(source.location, Some(source.max.GetOr(0) + cursor.max.value),
                                       source.current + cursor.current)
          case Fail(err) => Fail(err)
          case Ok(a) => Ok(Some(a))
        else
          match ArmorLoadouts.NewArmor(source.location, source.max, source.current + cursor.current)
          case Fail(err) => Fail(err)
          case Ok(a) => Ok(Some(a))
  }

  /** `getArmorLoadout(entries, location)`. */
  function ArmorLoadoutOf(entries: seq<ArmorTrack>, location: Option<HitLocation>): (r: Result<Option<ArmorTrack>>)
    ensures r == Ok(None) <==> forall x | x in entries :: x.location != location
    ensures r.Fail? ==> r.error in {NullPointer, IllegalState, IllegalArgument}
  {
    var m := Filter(entries, location);
    FilterMembers(entries, location);
    assert forall i | 0 <= i < |m| :: m[i] in entries;
    assert |m| > 0 ==> m[0] in m && m[0].location == location;
    assert (exists x :: x in entries && x.location == location) ==> |m| > 0;
    CollectArmor(m)
  }

  /** The collector never produces a track: the first entry decides the outcome. */
  lemma {:induction false} CollectArmorFirstDecides(m: seq<ArmorTrack>)
    ensures CollectArmor(m) == (if |m| == 0 then Ok(None)
                                else if m[0].max.Some? then Fail(NullPointer)
                                else Fail(IllegalState))
  {
    if |m| > 1 {
      var prev := m[..|m| - 1];
      assert prev[0] == m[0];
      CollectArmorFirstDecides(prev);
    }
  }

  /** `getArmorLoadout` never yields a track: no entry at the location gives
      null, a first entry with a maximum dereferences the null accumulator, and
      a first entry without one is an invalid state. */
  lemma ArmorLoadoutNeverYieldsTrack(entries: seq<ArmorTrack>, location: Option<HitLocation>)
    ensures var m := Filter(entries, location);
            ArmorLoadoutOf(entries, location) == (if |m| == 0 then Ok(None)
                                                  else if m[0].max.Some? then Fail(NullPointer)
                                                  else Fail(IllegalState))
    ensures ArmorLoadoutOf(entries, location) == Ok(None) <==> forall x | x in entries :: x.location != location
  {
    var m := Filter(entries, location);
    FilterMembers(entries, location);
    assert forall i | 0 <= i < |m| :: m[i] in entries;
    CollectArmorFirstDecides(m);
    assert (exists x :: x in entries && x.location == location) ==> |m| > 0;
  }

  // ---------------------------------------------------------------------------
  // getFullArmorLoadout

  type ArmorMap = map<Option<HitLocation>, ArmorTrack>

  /** One iteration of the loop of `getFullArmorLoadout`: a known location gets
      the entry's maximum (0 when absent) and current value added, a new
      location needs a maximum in its first entry. */
  function ArmorPut(result: ArmorMap, entry: ArmorTrack): Result<ArmorMap> {
    if entry.location in result then
      var source := result[entry.location];
      if source.max.None? then Fail(NullPointer)
      else
        match ArmorLoadouts.NewArmor(source.location, Some(source.max.value + entry.max.GetOr(0)),
                                     source.current + entry.current)
        case Fail(err) => Fail(err)
        case Ok(added) => Ok(result[added.location := added])
    else if entry.max.None? then Fail(IllegalState)
    else
      match ArmorLoadouts.NewArmor(entry.location, entry.max, entry.current)
      case Fail(err) => Fail(err)
      case Ok(added) => Ok(result[added.location := added])
  }

  /** The whole loop as a left fold; the first exception ends it. */
  function FullArmorFold(entries: seq<ArmorTrack>): Result<ArmorMap> {
    if |entries| == 0 then Ok(map[])
    else
      match FullArmorFold(entries[..|entries| - 1])
      case Fail(err) => Fail(err)
      case Ok(result) => ArmorPut(result, entries[|entries| - 1])
  }

  /** Once the loop has thrown, later entries do not matter. */
  lemma {:induction false} FullArmorFailurePersists(entries: seq<ArmorTrack>, i: nat)
    requires i <= |entries| && FullArmorFold(entries[..i]).Fail?
    ensures FullArmorFold(entries) == FullArmorFold(entries[..i])
    decreases |entries| - i
  {
    if i < |entries| {
      assert entries[..i + 1][..i] == entries[..i];
      FullArmorFailurePersists(entries, i + 1);
    } else {
      assert entries[..i] == entries;
    }
  }

  /** `getFullArmorLoadout(entries)`: the HashMap filled by the for-loop. */
  method GetFullArmorLoadout(entries: seq<ArmorTrack>) returns (r: Result<ArmorMap>)
    ensures r == FullArmorFold(entries)
  {
    var result: ArmorMap := map[];
    var i := 0;
    while i < |entries|
      invariant 0 <= i <= |entries|
      invariant FullArmorFold(entries[..i]) == Ok(result)
    {
      var entry := entries[i];
      assert entries[..i + 1][..i] == entries[..i];
      assert entries[..i + 1][i] == entry;
      if entry.location in result {
        var source := result[entry.location];
        if source.max.None? {
          r := Fail(NullPointer);
          FullArmorFailurePersists(entries, i + 1);
          return;
        }
        var added := ArmorLoadouts.NewArmor(source.location, Some(source.max.value + entry.max.GetOr(0)),
                                            source.current + entry.current);
        if added.Fail? {
          r := Fail(added.error);
          FullArmorFailurePersists(entries, i + 1);
          return;
        }
        result := result[added.value.location := added.value];
      } else if entry.max.None? {
        r := Fail(IllegalState);
        FullArmorFailurePersists(entries, i + 1);
        return;
      } else {
        var added := ArmorLoadouts.NewArmor(entry.location, entry.max, entry.current);
        result := result[added.value.location := added.value];
      }
      i := i + 1;
    }
    assert entries[..i] == entries;
    r := Ok(result);
  }

  /** The locations of the entries. */
  function Locations(entries: seq<Track>): set<Option<HitLocation>> {
    set x | x in entries :: x.location
  }

  /** The track `getFullArmorLoadout` stores for `location`: the armor track
      with the sums of the entries at that location. */
  function SummedArmor(entries: seq<Track>, location: Option<HitLocation>): HitLocationTrack {
    var m := Filter(entries, location);
    HitLocationTrack(Armor, location, SumMax(m), SumCurrent(m))
  }

  /** What a successful fold holds: exactly the locations of the entries as
      keys, and at each the summed track, whose maximum is defined. */
  ghost predicate HoldsSums(entries: seq<Track>, result: ArmorMap) {
    result.Keys == Locations(entries)
    && forall k | k in result :: result[k] == SummedArmor(entries, k) && SumMax(Filter(entries, k)).Some?
  }

  lemma LocationsAppend(prev: seq<Track>, e: Track)
    ensures Locations(prev + [e]) == Locations(prev) + {e.location}
  {
    assert forall x :: x in prev + [e] <==> x in prev || x == e;
  }

  lemma SumsAppend(m: seq<Track>, e: Track)
    ensures SumCurrent(m + [e]) == SumCurrent(m) + e.current
    ensures SumMax(m + [e]) == if e.max.None? then SumMax(m) else Some(AddedMaximum(SumMax(m), e.max.value))
  {
    assert (m + [e])[..|m|] == m;
  }

  /** The entry's own location holds the summed track after a successful step. */
  lemma ArmorPutAtLocation(prev: seq<Track>, e: ArmorTrack, m: ArmorMap)
    requires e.location in m ==>
               m[e.location] == SummedArmor(prev, e.location) && SumMax(Filter(prev, e.location)).Some?
    requires e.location !in m ==> Filter(prev, e.location) == []
    requires ArmorPut(m, e).Ok?
    ensures ArmorPut(m, e).value[e.location] == SummedArmor(prev + [e], e.location)
    ensures SumMax(Filter(prev + [e], e.location)).Some?
  {
    FilterAppend(prev, e, e.location);
    var F := Filter(prev, e.location);
    SumsAppend(F, e);
    if e.location !in m {
      assert [] + [e] == [e];
    }
  }

  /** A successful step only writes the entry's own location. */
  lemma ArmorPutUpdatesOneKey(m: ArmorMap, e: ArmorTrack)
    requires e.location in m ==> m[e.location].location == e.location
    requires ArmorPut(m, e).Ok?
    ensures ArmorPut(m, e).value == m[e.location := ArmorPut(m, e).value[e.location]]
  {
  }

  /** One successful step keeps `HoldsSums`. */
  lemma ArmorPutKeepsSums(prev: seq<Track>, e: ArmorTrack, m: ArmorMap)
    requires HoldsSums(prev, m) && ArmorPut(m, e).Ok?
    ensures HoldsSums(prev + [e], ArmorPut(m, e).value)
  {
    var t := ArmorPut(m, e).value[e.location];
    ArmorPutUpdatesOneKey(m, e);
    if e.location !in m {
      FilterAbsent(prev, e.location);
    }
    ArmorPutAtLocation(prev, e, m);
    KeysAfterPut(prev, e, m, t);
  }

  lemma KeysAfterPut(prev: seq<Track>, e: Track, m: ArmorMap, t: ArmorTrack)
    requires HoldsSums(prev, m)
    requires t == SummedArmor(prev + [e], e.location) && SumMax(Filter(prev + [e], e.location)).Some?
    ensures HoldsSums(prev + [e], m[e.location := t])
  {
    var m' := m[e.location := t];
    LocationsAppend(prev, e);
    forall k | k in m' && k != e.location
      ensures m'[k] == SummedArmor(prev + [e], k) && SumMax(Filter(prev + [e], k)).Some?
    {
      FilterAppend(prev, e, k);
      assert Filter(prev, k) + [] == Filter(prev, k);
      assert k in m;
    }
  }

  /** A successful fold holds the sums, and the null maximum the loop could
      dereference never occurs: every failure is an invalid state or an
      invalid argument. */
  lemma {:induction false} FullArmorIsSum(entries: seq<ArmorTrack>)
    ensures FullArmorFold(entries).Ok? ==> HoldsSums(entries, FullArmorFold(entries).value)
    ensures FullArmorFold(entries).Fail? ==> FullArmorFold(entries).error in {IllegalState, IllegalArgument}
  {
    if |entries| > 0 {
      var prev := entries[..|entries| - 1];
      var e := entries[|entries| - 1];
      assert entries == prev + [e];
      FullArmorIsSum(prev);
      if FullArmorFold(prev).Ok? && FullArmorFold(entries).Ok? {
        ArmorPutKeepsSums(prev, e, FullArmorFold(prev).value);
      }
    }
  }

  /** A location whose first entry has no maximum makes the fold fail. */
  lemma {:induction false} FullArmorNeedsMaximumFirst(entries: seq<ArmorTrack>, location: Option<HitLocation>)
    requires var m := Filter(entries, location); |m| > 0 && m[0].max.None?
    ensures FullArmorFold(entries).Fail?
  {
    var prev := entries[..|entries| - 1];
    var e := entries[|entries| - 1];
    assert entries == prev + [e];
    FilterAppend(prev, e, location);
    var F := Filter(prev, location);
    if |F| > 0 {
      assert (F + (if e.location == location then [e] else []))[0] == F[0];
      FullArmorNeedsMaximumFirst(prev, location);
    } else if FullArmorFold(prev).Ok? {
      FullArmorIsSum(prev);
      FilterMembers(prev, location);
      assert location !in Locations(prev);
    }
  }

  /** The condition under which the loop of `getFullArmorLoadout` gets
      through every entry: at each entry, the first entry of its location
      defines a maximum, and the running sums of that location form a valid
      track (both values shorts, the current value at most the maximum). */
  ghost predicate ArmorAccumulates(entries: seq<Track>) {
    if |entries| == 0 then true
    else
      var e := entries[|entries| - 1];
      var m := Filter(entries, e.location);
      ArmorAccumulates(entries[..|entries| - 1])
      && |m| > 0 && m[0].max.Some?
      && SummedArmor(entries, e.location).Valid()
  }

  /** One step of the loop succeeds exactly when the new running sums of the
      entry's location are valid and that location started with a maximum. */
  lemma ArmorPutSucceeds(prev: seq<Track>, e: ArmorTrack, m: ArmorMap)
    requires HoldsSums(prev, m)
    requires var F := Filter(prev, e.location); |F| > 0 ==> F[0].max.Some?
    ensures var F' := Filter(prev + [e], e.location);
            ArmorPut(m, e).Ok? <==> |F'| > 0 && F'[0].max.Some? && SummedArmor(prev + [e], e.location).Valid()
  {
    FilterAppend(prev, e, e.location);
    FilterMembers(prev, e.location);
    var F := Filter(prev, e.location);
    SumsAppend(F, e);
    if e.location in m {
      assert |F| > 0;
      assert (F + [e])[0] == F[0];
    } else {
      assert e.location !in Locations(prev);
      assert F == [];
      assert [] + [e] == [e];
    }
  }

  /** `getFullArmorLoadout` succeeds exactly when the running sums stay
      valid and every location starts with a maximum. */
  lemma {:induction false} FullArmorSucceeds(entries: seq<ArmorTrack>)
    ensures FullArmorFold(entries).Ok? <==> ArmorAccumulates(entries)
  {
    if |entries| > 0 {
      var prev := entries[..|entries| - 1];
      var e := entries[|entries| - 1];
      assert entries == prev + [e];
      FullArmorSucceeds(prev);
      if FullArmorFold(prev).Ok? {
        FullArmorIsSum(prev);
        var F := Filter(prev, e.location);
        if |F| > 0 && F[0].max.None? {
          FullArmorNeedsMaximumFirst(prev, e.location);
        }
        ArmorPutSucceeds(prev, e, FullArmorFold(prev).value);
      }
    }
  }
}
