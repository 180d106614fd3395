/**
 * Age and stage progression of a turn (App.tsx:84-98): below 18 the age goes
 * up by one and the stage is re-derived from the new age by an if-chain; from
 * 18 on neither changes.
 */
module Progression {
  import opened Types
  import Constants
  import Stats

  /** The age from which the child no longer ages. */
  const AdultAge := 18

  /** First age of each stage's band. */
  function LowerBound(s: GameStage): int {
    match s
    case Infant => 0
    case Toddler => 1
    case Preschool => 3
    case Elementary => 6
    case Teen => 13
    case Adult => AdultAge
  }

  /**
   * Reference table of stages by age: half-open bands, lower bound inclusive,
   * each band ending where the next stage in life order begins; Adult is unbounded.
   */
  predicate InBand(age: int, s: GameStage) {
    LowerBound(s) <= age &&
    match s
    case Infant => age < LowerBound(Toddler)
    case Toddler => age < LowerBound(Preschool)
    case Preschool => age < LowerBound(Elementary)
    case Elementary => age < LowerBound(Teen)
    case Teen => age < LowerBound(Adult)
    case Adult => true
  }

  /** Stage from the incremented age, as the if-chain does it; no branch matching keeps `current`. */
  function ChainStage(newAge: int, current: GameStage): (r: GameStage)
    ensures newAge >= 1 ==> InBand(newAge, r)
    ensures newAge >= 1 ==> forall s :: InBand(newAge, s) ==> s == r
    ensures newAge < 1 ==> r == current
    ensures r == Infant ==> current == Infant && newAge < 1
  {
    if newAge >= 1 && newAge < 3 then Toddler
    else if newAge >= 3 && newAge < 6 then Preschool
    else if newAge >= 6 && newAge < 13 then Elementary
    else if newAge >= 13 && newAge < 18 then Teen
    else if newAge >= 18 then Adult
    else current
  }

  /** Age and stage after one turn. */
  function Advance(age: int, stage: GameStage): (r: (int, GameStage))
    ensures age < AdultAge ==> r.0 == age + 1
    ensures 0 <= age < AdultAge ==> InBand(r.0, r.1) && r.1 != Infant
    ensures age >= AdultAge ==> r == (age, stage)
    ensures r.0 >= age
  {
    if age < AdultAge then
      var newAge := age + 1;
      (newAge, ChainStage(newAge, stage))
    else
      (age, stage)
  }

  /** A stage consistent with the age stays consistent after a turn. */
  lemma AdvanceKeepsBand(age: int, stage: GameStage)
    requires InBand(age, stage)
    ensures InBand(Advance(age, stage).0, Advance(age, stage).1)
  {
  }

  /** Once 18 is reached a turn changes nothing, so turns are idempotent there. */
  lemma AdvanceIdempotentWhenGrown(age: int, stage: GameStage)
    requires age >= AdultAge
    ensures Advance(age, stage) == (age, stage)
    ensures Advance(Advance(age, stage).0, Advance(age, stage).1) == Advance(age, stage)
  {
  }

  /** Age and stage after `n` turns. */
  function AdvanceN(age: int, stage: GameStage, n: nat): (int, GameStage)
    decreases n
  {
    if n == 0 then (age, stage)
    else
      var next := Advance(age, stage);
      AdvanceN(next.0, next.1, n - 1)
  }

  /** From a consistent state below 18, `n` turns reach age min(age + n, 18), with the stage of that age. */
  lemma {:induction false} AdvanceNFromBand(age: int, stage: GameStage, n: nat)
    requires 0 <= age <= AdultAge && InBand(age, stage)
    ensures AdvanceN(age, stage, n).0 == Stats.Min(age + n, AdultAge)
    ensures InBand(AdvanceN(age, stage, n).0, AdvanceN(age, stage, n).1)
    decreases n
  {
    if n > 0 {
      var next := Advance(age, stage);
      AdvanceKeepsBand(age, stage);
      AdvanceNFromBand(next.0, next.1, n - 1);
    }
  }

  /** From the starting age 0 (an Infant), `n` turns give age min(n, 18). */
  lemma TurnsFromBirth(n: nat)
    ensures AdvanceN(0, Infant, n).0 == Stats.Min(n, AdultAge)
    ensures InBand(AdvanceN(0, Infant, n).0, AdvanceN(0, Infant, n).1)
  {
    AdvanceNFromBand(0, Infant, n);
  }

  /** The unused `STAGE_CONFIG` table and the if-chain disagree at age 12: Teen there, Elementary here. */
  lemma ConfigDisagreesAtTwelve(current: GameStage)
    ensures Constants.ConfigStageOf(12) == Some(Teen)
    ensures ChainStage(12, current) == Elementary
  {
  }

  /** ... and age 12 is the only age in the configured span [1, 99) where they disagree. */
  lemma ConfigAgreesElsewhere(age: int, current: GameStage)
    requires 1 <= age < 99
    ensures Constants.ConfigStageOf(age) == Some(ChainStage(age, current)) <==> age != 12
  {
  }
}
