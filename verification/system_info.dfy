/** Star systems (SystemInfo.java): a name, an owning faction, shops and
    missions, with copy-on-add and copy-on-remove of missions. */
module SystemInfos {
  import opened JavaLang
  import opened Shops
  import opened Missions

  /** A `SystemInfo` object. Its arrays are copies, so they are values here. */
  datatype SystemInfo = SystemInfo(
    name: Option<string>,
    faction: Option<string>,
    shops: seq<Shop?>,
    missions: seq<Mission>)

  /** The main constructor: null arrays become empty, others are copied in
      order. */
  function NewSystemInfo(name: Option<string>, faction: Option<string>, shops: Option<seq<Shop?>>,
                         missions: Option<seq<Mission>>): (r: SystemInfo)
    ensures r.name == name && r.faction == faction
    ensures r.shops == shops.GetOr([]) && r.missions == missions.GetOr([])
  {
    SystemInfo(name, faction, shops.GetOr([]), missions.GetOr([]))
  }

  /** The constructor taking one shop: the shop is ignored. */
  function NewSystemInfoWithShop(name: Option<string>, faction: Option<string>, shop: Option<Shop>,
                                 missions: Option<seq<Mission>>): (r: SystemInfo)
    ensures r == NewSystemInfo(name, faction, Some([]), missions)
    ensures r.shops == []
  {
    NewSystemInfo(name, faction, Some([]), missions)
  }

  /** The two-argument constructor: no shops and no missions. */
  function NewPlainSystemInfo(name: Option<string>, faction: Option<string>): (r: SystemInfo)
    ensures r == NewSystemInfo(name, faction, Some([]), Some([]))
    ensures r.shops == [] && r.missions == []
  {
    NewSystemInfo(name, faction, Some([]), Some([]))
  }

  /** The guard of `addMission` and `removeMission`: a mission in no system
      or in this one, or one that includes travel. */
  predicate Acceptable(s: SystemInfo, mission: Option<Mission>) {
    mission.Some? && (mission.value.system.None? || mission.value.system == s.name || mission.value.travelTime > 0)
  }

  /** The missions other than the given object, in order. */
  function Without(missions: seq<Mission>, mission: Mission): (r: seq<Mission>)
    ensures mission !in r
    ensures forall m | m in r :: m in missions
    ensures |r| <= |missions|
  {
    if |missions| == 0 then []
    else Without(missions[..|missions| - 1], mission)
         + (if missions[|missions| - 1] == mission then [] else [missions[|missions| - 1]])
  }

  /** `addMission(mission)`: a new system with the mission appended. */
  function AddMission(s: SystemInfo, mission: Option<Mission>): (r: Result<SystemInfo>)
    ensures r.Ok? <==> Acceptable(s, mission)
    ensures r.Fail? ==> r.error == IllegalArgument
    ensures r.Ok? ==> r.value.name == s.name && r.value.faction == s.faction && r.value.shops == s.shops
    ensures r.Ok? ==> r.value.missions == s.missions + [mission.value]
  {
    if Acceptable(s, mission) then Ok(NewSystemInfo(s.name, s.faction, Some(s.shops), Some(s.missions + [mission.value])))
    else Fail(IllegalArgument)
  }

  /** `removeMission(mission)`: a new system without every occurrence of the
      mission. */
  function RemoveMission(s: SystemInfo, mission: Option<Mission>): (r: Result<SystemInfo>)
    ensures r.Ok? <==> Acceptable(s, mission)
    ensures r.Fail? ==> r.error == IllegalArgument
    ensures r.Ok? ==> r.value.name == s.name && r.value.faction == s.faction && r.value.shops == s.shops
    ensures r.Ok? ==> r.value.missions == Without(s.missions, mission.value)
  {
    if Acceptable(s, mission) then Ok(NewSystemInfo(s.name, s.faction, Some(s.shops), Some(Without(s.missions, mission.value))))
    else Fail(IllegalArgument)
  }

  /** Removing keeps every other mission, in order. */
  lemma {:induction false} WithoutKeepsOthers(missions: seq<Mission>, mission: Mission, other: Mission)
    requires other != mission
    ensures multiset(Without(missions, mission))[other] == multiset(missions)[other]
  {
    if |missions| > 0 {
      var n := |missions| - 1;
      WithoutKeepsOthers(missions[..n], mission, other);
      assert missions == missions[..n] + [missions[n]];
    }
  }

  /** A mission the system does not list is removed to no effect. */
  lemma {:induction false} WithoutAbsent(missions: seq<Mission>, mission: Mission)
    requires mission !in missions
    ensures Without(missions, mission) == missions
  {
    if |missions| > 0 {
      var n := |missions| - 1;
      WithoutAbsent(missions[..n], mission);
      assert missions == missions[..n] + [missions[n]];
    }
  }

  /** Adding a mission the system does not list and removing it again gives
      back the system. */
  lemma AddThenRemoveMission(s: SystemInfo, mission: Mission)
    requires Acceptable(s, Some(mission)) && mission !in s.missions
    ensures AddMission(s, Some(mission)).Ok?
    ensures RemoveMission(AddMission(s, Some(mission)).value, Some(mission)) == Ok(s)
  {
    var added := s.missions + [mission];
    assert added[..|added| - 1] == s.missions;
    WithoutAbsent(s.missions, mission);
    assert Without(added, mission) == s.missions;
    assert AddMission(s, Some(mission)).value == SystemInfo(s.name, s.faction, s.shops, added);
  }

  /** Removing is idempotent. */
  lemma RemoveMissionTwice(s: SystemInfo, mission: Mission)
    requires Acceptable(s, Some(mission))
    ensures RemoveMission(s, Some(mission)).Ok?
    ensures RemoveMission(RemoveMission(s, Some(mission)).value, Some(mission)) == RemoveMission(s, Some(mission))
  {
    WithoutAbsent(Without(s.missions, mission), mission);
  }
}
