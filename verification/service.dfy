/**
 * The pure parts of the content service (services/geminiService.ts): which
 * choice an id selects, what the evaluation request carries, and the payloads
 * returned when the language model call fails. Prompts, schemas and the
 * model call itself are external.
 */
module Service {
  import opened Types
  import Search
  import Stats

  /** Text sent to the model when the id matches no choice. */
  const SilentObservation := "Silent observation"

  /** Position of the first choice whose id is `id` (`Array.prototype.find`). */
  function FindChoice(choices: seq<Choice>, id: string): (r: Option<nat>)
    ensures r.Some? ==> r.value < |choices| && choices[r.value].id == id
    ensures r.Some? ==> forall j :: 0 <= j < r.value ==> choices[j].id != id
    ensures r.None? <==> forall j :: 0 <= j < |choices| ==> choices[j].id != id
  {
    Search.FirstIndex(choices, (c: Choice) => c.id == id)
  }

  /** The chosen choice, if any. */
  function SelectedChoice(scenario: Scenario, choiceId: string): Option<Choice> {
    match FindChoice(scenario.choices, choiceId)
    case Some(i) => Some(scenario.choices[i])
    case None => None
  }

  /** True when choice `i` is the first of `choices` with id `id`. */
  predicate FirstWithId(choices: seq<Choice>, i: int, id: string) {
    0 <= i < |choices| && choices[i].id == id &&
    forall j :: 0 <= j < i ==> choices[j].id != id
  }

  /** The text the model is told the parent chose. */
  function ChosenText(scenario: Scenario, choiceId: string): (t: string)
    ensures forall i :: FirstWithId(scenario.choices, i, choiceId) ==> t == scenario.choices[i].text
    ensures (forall j :: 0 <= j < |scenario.choices| ==> scenario.choices[j].id != choiceId)
            ==> t == SilentObservation
  {
    match SelectedChoice(scenario, choiceId)
    case Some(c) => c.text
    case None => SilentObservation
  }

  /** The style the model is told the parent used; absent when the id matched nothing. */
  function ChosenStyle(scenario: Scenario, choiceId: string): (st: Option<ParentingStyle>)
    ensures forall i :: FirstWithId(scenario.choices, i, choiceId) ==> st == Some(scenario.choices[i].style)
    ensures st.None? <==> forall j :: 0 <= j < |scenario.choices| ==> scenario.choices[j].id != choiceId
  {
    match SelectedChoice(scenario, choiceId)
    case Some(c) => Some(c.style)
    case None => None
  }

  /** Everything the outcome prompt is built from. */
  datatype EvaluationRequest = EvaluationRequest(
    context: string,
    description: string,
    childName: string,
    age: int,
    chosenText: string,
    chosenStyle: Option<ParentingStyle>)

  /** The request `evaluateResponse` puts to the model for a choice id. */
  function RequestFor(game: GameState, scenario: Scenario, choiceId: string): (r: EvaluationRequest)
    ensures r.context == scenario.context && r.description == scenario.description
    ensures r.childName == game.childName && r.age == game.age
    ensures r.chosenText == ChosenText(scenario, choiceId)
    ensures r.chosenStyle == ChosenStyle(scenario, choiceId)
  {
    EvaluationRequest(scenario.context, scenario.description, game.childName, game.age,
      ChosenText(scenario, choiceId), ChosenStyle(scenario, choiceId))
  }

  /** The scenario returned when generating one fails. */
  function FallbackScenario(): (s: Scenario)
    ensures |s.choices| == 1 && s.choices[0] == Choice("retry", "Try again", Empathetic)
    ensures s.childDialogue.None? && s.emotion.None? && s.imageUrl.None?
  {
    Scenario(
      "error-fallback",
      "Connection Issue",
      "You try to connect with your child, but something feels off (Network Error).",
      None,
      None,
      "Network error",
      [Choice("retry", "Try again", Empathetic)],
      None)
  }

  /** The outcome returned when evaluating a choice fails. */
  function FallbackOutcome(): (o: Outcome)
    ensures o.statChanges == Stats.NoChange
    ensures o.childDialogue.None? && o.emotion.None?
  {
    Outcome(
      "Something unexpected happened.",
      None,
      None,
      "Network error prevented analysis.",
      StatChanges(0, 0, 0),
      "Confused.")
  }

  /** The model's scenario, or the fallback when the call or its parsing threw. */
  function ScenarioOrFallback(reply: Option<Scenario>): (s: Scenario)
    ensures reply.Some? ==> s == reply.value
    ensures reply.None? ==> s == FallbackScenario()
  {
    reply.GetOr(FallbackScenario())
  }

  /** The model's outcome, or the fallback when the call or its parsing threw. */
  function OutcomeOrFallback(reply: Option<Outcome>): (o: Outcome)
    ensures reply.Some? ==> o == reply.value
    ensures reply.None? ==> o == FallbackOutcome()
  {
    reply.GetOr(FallbackOutcome())
  }

  /** Picking the fallback scenario's one choice, "retry", sends "Try again". */
  lemma FallbackScenarioShape()
    ensures ChosenText(FallbackScenario(), "retry") == "Try again"
    ensures ChosenStyle(FallbackScenario(), "retry") == Some(Empathetic)
  {
    assert FirstWithId(FallbackScenario().choices, 0, "retry");
  }

  /** Any other id on the fallback scenario falls through to the silent observation. */
  lemma FallbackScenarioOtherIds(choiceId: string)
    requires choiceId != "retry"
    ensures ChosenText(FallbackScenario(), choiceId) == SilentObservation
    ensures ChosenStyle(FallbackScenario(), choiceId) == None
  {
  }
}
