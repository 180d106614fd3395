/** The records of the parenting simulation (types.ts), as immutable datatypes. */
module Types {

  /** An optional value: TypeScript's `T | null` and optional fields `f?: T`. */
  datatype Option<+T> = None | Some(value: T) {

    /** The wrapped value, or `default` when there is none. */
    function GetOr(default: T): T {
      match this
      case Some(v) => v
      case None => default
    }
  }

  /** How an awaited call to the content provider settled: with a value, or by throwing. */
  datatype Reply<+T> = Arrived(value: T) | Rejected

  /** The six life stages (types.ts:1-8), listed in the order a child passes through them. */
  datatype GameStage = Infant | Toddler | Preschool | Elementary | Teen | Adult

  /** Every stage once, youngest first. */
  const LifeOrder: seq<GameStage> := [Infant, Toddler, Preschool, Elementary, Teen, Adult]

  /** The child's gender: the string union `'boy' | 'girl'`. */
  datatype Gender = Boy | Girl

  /** The three scores the player builds up; the game keeps each within [0, 100]. */
  datatype PlayerStats = PlayerStats(bonding: int, resilience: int, confidence: int)

  /** The score change an outcome proposes, one signed integer per score. */
  datatype StatChanges = StatChanges(bonding: int, resilience: int, confidence: int)

  /** The parenting style a choice is tagged with. */
  datatype ParentingStyle = Authoritative | Authoritarian | Permissive | Neglectful | Empathetic

  datatype Choice = Choice(id: string, text: string, style: ParentingStyle)

  /** A situation put to the parent; produced by the language model, never inspected beyond its fields. */
  datatype Scenario = Scenario(
    id: string,
    title: string,
    description: string,
    childDialogue: Option<string>,
    emotion: Option<string>,
    context: string,
    choices: seq<Choice>,
    imageUrl: Option<string>)

  /** The consequence of one choice, also produced by the language model. */
  datatype Outcome = Outcome(
    narrative: string,
    childDialogue: Option<string>,
    emotion: Option<string>,
    feedback: string,
    statChanges: StatChanges,
    childReaction: string)

  /** One play-through: who plays, the child's age and stage, the scores and the turn log. */
  datatype GameState = GameState(
    playerName: string,
    childName: string,
    childGender: Gender,
    age: int,
    stage: GameStage,
    stats: PlayerStats,
    history: seq<string>,
    isGameOver: bool)

  /** LifeOrder lists each stage exactly once. */
  lemma LifeOrderIsEnumeration(s: GameStage)
    ensures exists i :: 0 <= i < |LifeOrder| && LifeOrder[i] == s
    ensures forall i, j :: 0 <= i < j < |LifeOrder| ==> LifeOrder[i] != LifeOrder[j]
  {
    match s
    case Infant => assert LifeOrder[0] == s;
    case Toddler => assert LifeOrder[1] == s;
    case Preschool => assert LifeOrder[2] == s;
    case Elementary => assert LifeOrder[3] == s;
    case Teen => assert LifeOrder[4] == s;
    case Adult => assert LifeOrder[5] == s;
  }
}
