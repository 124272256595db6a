/** Missions (Mission.java): reputation changes and the mission record. */
module Missions {
  import opened JavaLang
  import opened RulesModifiers

  /** A `ReputationChange` record: the employer's gain and the opponent's
      change. */
  datatype ReputationChange = ReputationChange(positive: Int16, negative: Int16)

  /** `repChange(gain, loss)`: the employer may not lose and the opponent may
      not gain. */
  function RepChange(gain: Int16, loss: Int16): (r: Result<ReputationChange>)
    ensures r.Ok? <==> gain >= 0 && loss <= 0
    ensures r.Ok? ==> r.value == ReputationChange(gain, loss)
    ensures r.Fail? ==> r.error == IllegalArgument
  {
    if gain < 0 then Fail(IllegalArgument)
    else if loss > 0 then Fail(IllegalArgument)
    else Ok(ReputationChange(gain, loss))
  }

  /** `evenChange(amount)`: the opponent loses what the employer gains; the
      negation cast back to `short` is exact for a non-negative `short`. */
  function EvenChange(amount: Int16): (r: Result<ReputationChange>)
    ensures r.Ok? <==> amount >= 0
    ensures r.Ok? ==> r.value.positive == amount && r.value.negative == -amount
    ensures r.Fail? ==> r.error == IllegalArgument
  {
    if amount < 0 then Fail(IllegalArgument)
    else Ok(ReputationChange(amount, Wrap16(-amount)))
  }

  /** An even change is an uneven one with opposite amounts, and it balances. */
  lemma EvenChangeIsRepChange(amount: Int16)
    requires amount >= 0
    ensures EvenChange(amount) == RepChange(amount, -amount)
    ensures EvenChange(amount).value.positive + EvenChange(amount).value.negative == 0
  {
  }

  /** A `Terrain` object: its constructor keeps none of its arguments, so it
      has nothing but its identity. */
  datatype Terrain = Terrain(id: nat)

  /** A `Mission` object. `id` stands for its identity. */
  datatype Mission = Mission(
    id: nat,
    name: Option<string>,
    missionType: Option<string>,
    employer: Option<string>,
    opfor: Option<string>,
    difficulty: Int16,
    terrain: Option<Terrain>,
    salary: Option<seq<Int32>>,
    reputation: Option<seq<ReputationChange>>,
    system: Option<string>,
    travelTime: Int32)

  /** The ten-argument constructor: no validation; the difficulty is cast to
      `short`. */
  function NewMission(id: nat, name: Option<string>, missionType: Option<string>, employer: Option<string>,
                      opfor: Option<string>, difficulty: Int32, terrain: Option<Terrain>,
                      salary: Option<seq<Int32>>, reputation: Option<seq<ReputationChange>>,
                      system: Option<string>, travelTime: Int32): (m: Mission)
    ensures m.id == id && m.name == name && m.missionType == missionType
    ensures m.employer == employer && m.opfor == opfor && m.terrain == terrain
    ensures m.salary == salary && m.reputation == reputation && m.system == system && m.travelTime == travelTime
    ensures IsShort(difficulty) ==> m.difficulty == difficulty
    ensures (m.difficulty - difficulty) % 0x1_0000 == 0
  {
    Mission(id, name, missionType, employer, opfor, Wrap16(difficulty), terrain, salary, reputation, system,
            travelTime)
  }

  /** The difficulty keeps only its low 16 bits. */
  lemma DifficultyTruncated(id: nat, name: Option<string>)
    ensures NewMission(id, name, None, None, None, 0x1_0005, None, None, None, None, 0).difficulty == 5
    ensures NewMission(id, name, None, None, None, 0x8000, None, None, None, None, 0).difficulty == SHORT_MIN
  {
  }

  /** The eight-argument constructor: no salary options and no reputation
      changes. */
  function NewMissionWithoutRewards(id: nat, name: Option<string>, missionType: Option<string>,
                                    employer: Option<string>, opfor: Option<string>, difficulty: Int32,
                                    terrain: Option<Terrain>, system: Option<string>, travelTime: Int32)
    : (m: Mission)
    ensures m == NewMission(id, name, missionType, employer, opfor, difficulty, terrain, Some([]), Some([]),
                            system, travelTime)
    ensures m.salary == Some([]) && m.reputation == Some([])
  {
    NewMission(id, name, missionType, employer, opfor, difficulty, terrain, Some([]), Some([]), system, travelTime)
  }

  /** The six-argument constructor: against and for the local government. */
  function NewLocalMission(id: nat, name: Option<string>, missionType: Option<string>, difficulty: Int32,
                           terrain: Option<Terrain>, system: Option<string>, travelTime: Int32): (m: Mission)
    ensures m == NewMissionWithoutRewards(id, name, missionType, None, None, difficulty, terrain, system, travelTime)
    ensures m.employer.None? && m.opfor.None?
  {
    NewMissionWithoutRewards(id, name, missionType, None, None, difficulty, terrain, system, travelTime)
  }

  /** The four-argument constructor: in the local system, without travel. */
  function NewPlainMission(id: nat, name: Option<string>, missionType: Option<string>, difficulty: Int32,
                           terrain: Option<Terrain>): (m: Mission)
    ensures m == NewLocalMission(id, name, missionType, difficulty, terrain, None, 0)
    ensures m.system.None? && m.travelTime == 0 && m.employer.None? && m.opfor.None?
  {
    NewLocalMission(id, name, missionType, difficulty, terrain, None, 0)
  }
}
