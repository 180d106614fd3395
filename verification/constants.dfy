/** The constant data of constants.ts: the starting scores and the per-stage age ranges. */
module Constants {
  import opened Types
  import Stats

  /** `INITIAL_STATS`. */
  const InitialStats := PlayerStats(50, 30, 30)

  /** The age range `STAGE_CONFIG` records for one stage: `minAge` inclusive, `maxAge` exclusive. */
  datatype AgeRange = AgeRange(minAge: int, maxAge: int)

  /** `STAGE_CONFIG` (the display colour is left out). */
  function StageConfig(s: GameStage): (r: AgeRange)
    ensures 0 <= r.minAge < r.maxAge <= 99
  {
    match s
    case Infant => AgeRange(0, 1)
    case Toddler => AgeRange(1, 3)
    case Preschool => AgeRange(3, 6)
    case Elementary => AgeRange(6, 12)
    case Teen => AgeRange(12, 18)
    case Adult => AgeRange(18, 99)
  }

  predicate InConfigRange(age: int, s: GameStage) {
    StageConfig(s).minAge <= age < StageConfig(s).maxAge
  }

  /** The starting scores satisfy the [0, 100] bound, so the clamp invariant holds from the first state. */
  lemma InitialStatsInBounds()
    ensures InitialStats.bonding == 50 && InitialStats.resilience == 30 && InitialStats.confidence == 30
    ensures Stats.InBounds(InitialStats)
  {
  }

  /** The ranges start at 0 and follow the life order without gap or overlap. */
  lemma ConfigContiguous()
    ensures StageConfig(LifeOrder[0]).minAge == 0
    ensures forall i :: 0 <= i < |LifeOrder| - 1 ==>
              StageConfig(LifeOrder[i]).maxAge == StageConfig(LifeOrder[i + 1]).minAge
  {
  }

  /** The stage whose configured range holds `age`, if any. */
  function ConfigStageOf(age: int): (r: Option<GameStage>)
    ensures r.Some? <==> StageConfig(Infant).minAge <= age < StageConfig(Adult).maxAge
    ensures r.Some? ==> InConfigRange(age, r.value)
    ensures forall s :: InConfigRange(age, s) ==> r == Some(s)
  {
    if age < 0 then None
    else if age < 1 then Some(Infant)
    else if age < 3 then Some(Toddler)
    else if age < 6 then Some(Preschool)
    else if age < 12 then Some(Elementary)
    else if age < 18 then Some(Teen)
    else if age < 99 then Some(Adult)
    else None
  }
}
