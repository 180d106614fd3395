/**
 * The turn state machine of App.tsx as pure step functions over one state
 * record. The content provider is a parameter of the steps that await it;
 * its reply is taken as given and never inspected beyond its fields.
 */
module App {
  import opened Types
  import Text
  import Stats
  import Progression
  import Service
  import StartScreen
  import Search

  /** The component's state; `shouldFetch` stands for the `shouldFetchScenario` ref. */
  datatype AppState = AppState(
    game: Option<GameState>,
    scenario: Option<Scenario>,
    outcome: Option<Outcome>,
    loading: bool,
    error: Option<string>,
    shouldFetch: bool)

  /** State on mount: no game, nothing loaded, no request pending. */
  function Initial(): (r: AppState)
    ensures r.game.None? && r.scenario.None? && r.outcome.None?
    ensures !r.loading && r.error.None? && !r.shouldFetch
    ensures Valid(r)
  {
    AppState(None, None, None, false, None, false)
  }

  const ScenarioFailure := "Failed to generate scenario. Please try again."
  const EvaluationFailure := "Failed to evaluate response."

  /** The content provider's scenario entry point, as the app awaits it. */
  type ScenarioSource = GameState -> Reply<Scenario>

  /** The content provider's evaluation entry point, as the app awaits it. */
  type OutcomeSource = Service.EvaluationRequest -> Reply<Outcome>

  // ---------------------------------------------------------------- turn log

  /** The turn-log line for a scenario met at `age`: "Age {age}: {title}". */
  function HistoryEntry(age: int, title: string): (line: string)
    ensures |line| > 4 + |title| && line[..4] == "Age "
    ensures line[|line| - |title|..] == title
  {
    "Age " + Text.IntToString(age) + ": " + title
  }

  /** Reads a turn-log line back into its age and title. */
  function ParseEntry(s: string): Option<(int, string)> {
    if |s| < 4 || s[..4] != "Age " then None
    else
      var rest := s[4..];
      match Search.FirstIndex(rest, Text.IsColon)
      case None => None
      case Some(k) =>
        if k + 1 < |rest| && rest[k + 1] == ' ' then
          match Text.ParseInt(rest[..k])
          case Some(a) => Some((a, rest[k + 2..]))
          case None => None
        else None
  }

  /** A log line records its age and title without loss, whatever the title holds. */
  lemma EntryRoundTrip(age: int, title: string)
    ensures ParseEntry(HistoryEntry(age, title)) == Some((age, title))
  {
    var d := Text.IntToString(age);
    var s := HistoryEntry(age, title);
    assert s == "Age " + (d + (": " + title));
    assert s[..4] == "Age ";
    var rest := s[4..];
    assert rest == d + (": " + title);
    Text.IntToStringHasNoColon(age);
    Search.FirstIndexAfterPrefix(d, ": " + title, Text.IsColon);
    assert rest[|d| + 1] == ' ';
    assert rest[..|d|] == d;
    assert rest[|d| + 2..] == title;
    Text.IntRoundTrip(age);
  }

  /** Every line the reader accepts is the log line of the age and title it reads, so "Age 05: t" is refused. */
  lemma ParseEntryOnlyLogLines(s: string)
    requires ParseEntry(s).Some?
    ensures s == HistoryEntry(ParseEntry(s).value.0, ParseEntry(s).value.1)
  {
    var rest := s[4..];
    var k := Search.FirstIndex(rest, Text.IsColon).value;
    Text.ParseIntOnlyRendered(rest[..k]);
    assert rest == rest[..k] + ": " + rest[k + 2..];
    assert s == s[..4] + rest;
  }

  /** Different (age, title) pairs give different log lines. */
  lemma EntryInjective(a: int, t: string, b: int, u: string)
    requires HistoryEntry(a, t) == HistoryEntry(b, u)
    ensures a == b && t == u
  {
    EntryRoundTrip(a, t);
    EntryRoundTrip(b, u);
  }

  // ------------------------------------------------------------------ events

  /** `startGame`: install the submitted state and ask for a scenario. */
  function StartGame(app: AppState, initial: GameState): (r: AppState)
    ensures r.game == Some(initial) && r.shouldFetch
    ensures r.scenario == app.scenario && r.outcome == app.outcome
  {
    app.(game := Some(initial), shouldFetch := true)
  }

  /** `fetchNewScenario`: await a scenario for the current game and store it. */
  function FetchNewScenario(app: AppState, generate: ScenarioSource): (r: AppState)
    ensures app.game.None? ==> r == app
    ensures app.game.Some? ==> r.game == app.game && !r.loading && r.shouldFetch == app.shouldFetch
    ensures app.game.Some? && generate(app.game.value).Arrived? ==>
              r.scenario == Some(generate(app.game.value).value) && r.outcome.None? && r.error.None?
    ensures app.game.Some? && generate(app.game.value).Rejected? ==>
              r.scenario == app.scenario && r.outcome == app.outcome && r.error == Some(ScenarioFailure)
  {
    match app.game
    case None => app
    case Some(g) =>
      match generate(g)
      case Arrived(s) => app.(scenario := Some(s), outcome := None, loading := false, error := None)
      case Rejected => app.(loading := false, error := Some(ScenarioFailure))
  }

  /** The effect run after the game state changes: fetch once if a fetch was asked for. */
  function ScenarioEffect(app: AppState, generate: ScenarioSource): (r: AppState)
    ensures !(app.game.Some? && app.shouldFetch) ==> r == app
    ensures app.game.Some? && app.shouldFetch ==> !r.shouldFetch && r.game == app.game
    ensures app.game.Some? && app.shouldFetch && generate(app.game.value).Arrived? ==>
              r.scenario == Some(generate(app.game.value).value) && r.outcome.None?
  {
    if app.game.Some? && app.shouldFetch then
      FetchNewScenario(app.(shouldFetch := false), generate)
    else app
  }

  /** `handleChoice`: await the outcome of a choice, then move the scores and log the turn. */
  function HandleChoice(app: AppState, choiceId: string, evaluate: OutcomeSource): (r: AppState)
    ensures app.game.None? || app.scenario.None? ==> r == app
    ensures r.scenario == app.scenario && r.shouldFetch == app.shouldFetch
  {
    if app.game.None? || app.scenario.None? then app
    else
      var g := app.game.value;
      var sc := app.scenario.value;
      match evaluate(Service.RequestFor(g, sc, choiceId))
      case Arrived(o) =>
        var g' := g.(stats := Stats.ApplyDelta(g.stats, o.statChanges),
                     history := g.history + [HistoryEntry(g.age, sc.title)]);
        app.(game := Some(g'), outcome := Some(o), loading := false)
      case Rejected =>
        app.(loading := false, error := Some(EvaluationFailure))
  }

  /** `handleNextTurn`: advance age and stage, drop the scenario and outcome, ask for the next scenario. */
  function HandleNextTurn(app: AppState): (r: AppState)
    ensures app.game.None? ==> r == app
    ensures app.game.Some? ==> r.shouldFetch && r.scenario.None? && r.outcome.None?
    ensures r.loading == app.loading && r.error == app.error
  {
    match app.game
    case None => app
    case Some(g) =>
      var next := Progression.Advance(g.age, g.stage);
      app.(game := Some(g.(age := next.0, stage := next.1)),
           scenario := None, outcome := None, shouldFetch := true)
  }

  // -------------------------------------------------- properties of one event

  /** A choice on a game with a scenario changes only the scores, the log and the outcome. */
  lemma ChoiceEffect(app: AppState, choiceId: string, evaluate: OutcomeSource)
    requires app.game.Some? && app.scenario.Some?
    requires evaluate(Service.RequestFor(app.game.value, app.scenario.value, choiceId)).Arrived?
    ensures
      var g := app.game.value;
      var o := evaluate(Service.RequestFor(g, app.scenario.value, choiceId)).value;
      var r := HandleChoice(app, choiceId, evaluate);
      && r.game.Some?
      && r.outcome == Some(o)
      && r.error == app.error
      && r.game.value.stats == Stats.ApplyDelta(g.stats, o.statChanges)
      && |r.game.value.history| == |g.history| + 1
      && r.game.value.history[..|g.history|] == g.history
      && ParseEntry(r.game.value.history[|g.history|]) == Some((g.age, app.scenario.value.title))
      && r.game.value == g.(stats := r.game.value.stats, history := r.game.value.history)
  {
    var g := app.game.value;
    var sc := app.scenario.value;
    EntryRoundTrip(g.age, sc.title);
    var h := HandleChoice(app, choiceId, evaluate).game.value.history;
    assert h == g.history + [HistoryEntry(g.age, sc.title)];
    assert h[..|g.history|] == g.history;
  }

  /** A failed evaluation leaves the game untouched and reports the failure. */
  lemma ChoiceRejected(app: AppState, choiceId: string, evaluate: OutcomeSource)
    requires app.game.Some? && app.scenario.Some?
    requires evaluate(Service.RequestFor(app.game.value, app.scenario.value, choiceId)).Rejected?
    ensures HandleChoice(app, choiceId, evaluate).game == app.game
    ensures HandleChoice(app, choiceId, evaluate).outcome == app.outcome
    ensures HandleChoice(app, choiceId, evaluate).error == Some(EvaluationFailure)
  {
  }

  /** The fallback outcome keeps in-range scores as they are but still logs the turn. */
  lemma FallbackOutcomeKeepsStats(app: AppState, choiceId: string)
    requires app.game.Some? && app.scenario.Some? && Stats.InBounds(app.game.value.stats)
    ensures
      var r := HandleChoice(app, choiceId, _ => Arrived(Service.FallbackOutcome()));
      && r.game.Some?
      && r.game.value.stats == app.game.value.stats
      && |r.game.value.history| == |app.game.value.history| + 1
  {
  }

  /** A turn changes only age and stage; names, gender, scores and log stay. */
  lemma NextTurnChangesOnlyAgeAndStage(app: AppState)
    requires app.game.Some?
    ensures
      var g := app.game.value;
      var r := HandleNextTurn(app);
      && r.game.Some?
      && (r.game.value.age, r.game.value.stage) == Progression.Advance(g.age, g.stage)
      && r.game.value == g.(age := r.game.value.age, stage := r.game.value.stage)
  {
  }

  /** There is no end state: even a grown child gets another scenario after a turn. */
  lemma NoTerminalState(app: AppState, model: GameState -> Option<Scenario>)
    requires app.game.Some? && app.game.value.stage == Adult
    ensures app.game.value.age >= Progression.AdultAge ==> HandleNextTurn(app).game.value == app.game.value
    ensures
      var r := ScenarioEffect(HandleNextTurn(app), g => Arrived(Service.ScenarioOrFallback(model(g))));
      r.scenario.Some? && r.error.None? && r.game.value.isGameOver == app.game.value.isGameOver
  {
  }

  /** When the service's own fallbacks are in place, fetching never reports a failure. */
  lemma ServiceFallbackNeverFails(app: AppState, model: GameState -> Option<Scenario>)
    requires app.game.Some?
    ensures
      var r := FetchNewScenario(app, g => Arrived(Service.ScenarioOrFallback(model(g))));
      r.error.None? && r.scenario.Some?
  {
  }

  /** When the service's own fallback is in place, a choice always stores an outcome and logs the turn. */
  lemma OutcomeFallbackNeverFails(app: AppState, choiceId: string, model: Service.EvaluationRequest -> Option<Outcome>)
    requires app.game.Some? && app.scenario.Some?
    ensures
      var r := HandleChoice(app, choiceId, req => Arrived(Service.OutcomeOrFallback(model(req))));
      && r.error == app.error
      && r.outcome.Some?
      && r.game.Some?
      && |r.game.value.history| == |app.game.value.history| + 1
  {
  }

  // ------------------------------------------------------------------ traces

  /** One user or runtime event. */
  datatype Event =
    | Submit(form: StartScreen.Form)
    | ScenarioReady(generate: ScenarioSource)
    | Choose(choiceId: string, evaluate: OutcomeSource)
    | NextTurn

  /** Apply one event; the start form is only shown, and so only submits, while there is no game. */
  function Step(app: AppState, e: Event): (r: AppState)
    ensures app.game.Some? && e.Submit? ==> r == app
    ensures app.game.None? && e.Submit? ==>
              r.game == StartScreen.HandleSubmit(e.form) && (r.game.Some? ==> r.shouldFetch)
    ensures app.game.Some? ==> r.game.Some?
    ensures app.game.None? && !e.Submit? ==> r == app
  {
    match e
    case Submit(f) =>
      if app.game.None? then
        match StartScreen.HandleSubmit(f)
        case Some(initial) => StartGame(app, initial)
        case None => app
      else app
    case ScenarioReady(generate) => ScenarioEffect(app, generate)
    case Choose(id, evaluate) => HandleChoice(app, id, evaluate)
    case NextTurn => HandleNextTurn(app)
  }

  function Run(app: AppState, events: seq<Event>): AppState
    decreases |events|
  {
    if |events| == 0 then app else Run(Step(app, events[0]), events[1..])
  }

  /** What every game the app holds satisfies. */
  predicate WellFormed(g: GameState) {
    && Stats.InBounds(g.stats)
    && g.age >= 0
    && Progression.InBand(g.age, g.stage)
    && !g.isGameOver
  }

  predicate Valid(app: AppState) {
    app.game.Some? ==> WellFormed(app.game.value)
  }

  /** Each event keeps the state valid. */
  lemma StepKeepsValid(app: AppState, e: Event)
    requires Valid(app)
    ensures Valid(Step(app, e))
  {
    match e
    case Submit(f) =>
      if app.game.None? && StartScreen.HandleSubmit(f).Some? {
        StartScreen.SubmitStartsInBand(f);
      }
    case ScenarioReady(_) =>
    case Choose(_, _) =>
    case NextTurn =>
      if app.game.Some? {
        Progression.AdvanceKeepsBand(app.game.value.age, app.game.value.stage);
      }
  }

  lemma {:induction false} RunKeepsValid(app: AppState, events: seq<Event>)
    requires Valid(app)
    ensures Valid(Run(app, events))
    decreases |events|
  {
    if |events| > 0 {
      StepKeepsValid(app, events[0]);
      RunKeepsValid(Step(app, events[0]), events[1..]);
    }
  }

  /** Every reachable game has scores in [0, 100], the stage of its age, and is never over. */
  lemma ReachableIsValid(events: seq<Event>)
    ensures Valid(Run(Initial(), events))
  {
    RunKeepsValid(Initial(), events);
  }

  /** Once a game exists it stays, with the same players, a log that only grows, and an age that never falls. */
  lemma {:induction false} RunKeepsGame(app: AppState, events: seq<Event>)
    requires app.game.Some?
    ensures Run(app, events).game.Some?
    ensures Run(app, events).game.value.playerName == app.game.value.playerName
    ensures Run(app, events).game.value.childName == app.game.value.childName
    ensures Run(app, events).game.value.childGender == app.game.value.childGender
    ensures app.game.value.history <= Run(app, events).game.value.history
    ensures Run(app, events).game.value.age >= app.game.value.age
    decreases |events|
  {
    if |events| > 0 {
      var next := Step(app, events[0]);
      assert app.game.value.history <= next.game.value.history;
      RunKeepsGame(next, events[1..]);
    }
  }

  /** `n` copies of the event `e`. */
  function Repeat(e: Event, n: nat): (r: seq<Event>)
    ensures |r| == n && forall i :: 0 <= i < n ==> r[i] == e
  {
    if n == 0 then [] else [e] + Repeat(e, n - 1)
  }

  /** `n` turns in a row move age and stage exactly as `n` steps of the progression. */
  lemma {:induction false} RepeatedTurns(app: AppState, n: nat)
    requires app.game.Some?
    ensures Run(app, Repeat(NextTurn, n)).game.Some?
    ensures (Run(app, Repeat(NextTurn, n)).game.value.age, Run(app, Repeat(NextTurn, n)).game.value.stage)
            == Progression.AdvanceN(app.game.value.age, app.game.value.stage, n)
    decreases n
  {
    if n > 0 {
      var es := Repeat(NextTurn, n);
      assert es[0] == NextTurn && es[1..] == Repeat(NextTurn, n - 1);
      RepeatedTurns(HandleNextTurn(app), n - 1);
    }
  }

  /** A freshly started game reaches age min(n, 18) after `n` turns. */
  lemma TurnsFromStart(app: AppState, n: nat)
    requires app.game.Some? && app.game.value.age == 0 && app.game.value.stage == Infant
    ensures Run(app, Repeat(NextTurn, n)).game.Some?
    ensures Run(app, Repeat(NextTurn, n)).game.value.age == Stats.Min(n, Progression.AdultAge)
  {
    RepeatedTurns(app, n);
    Progression.TurnsFromBirth(n);
  }

  /** One full turn from the start: submit, scenario, choice (+5, -10, 0), next turn. */
  lemma FirstTurnExample(title: string)
    ensures
      var form := StartScreen.Form("Alex", "Charlie", Girl);
      var sc := Scenario("s1", title, "d", None, None, "c", [Choice("a", "hug", Empathetic)], None);
      var o := Outcome("n", None, None, "f", StatChanges(5, -10, 0), "smiles");
      var s1 := Run(Initial(), [Submit(form), ScenarioReady(_ => Arrived(sc))]);
      var s2 := Step(s1, Choose("a", _ => Arrived(o)));
      var s3 := Step(s2, NextTurn);
      && s1.scenario == Some(sc)
      && s2.game.value.stats == PlayerStats(55, 20, 30)
      && s2.game.value.history == ["Age 0: " + title]
      && s3.game.value.age == 1 && s3.game.value.stage == Toddler
      && s3.scenario.None? && s3.shouldFetch
  {
    var form := StartScreen.Form("Alex", "Charlie", Girl);
    var sc := Scenario("s1", title, "d", None, None, "c", [Choice("a", "hug", Empathetic)], None);
    var o := Outcome("n", None, None, "f", StatChanges(5, -10, 0), "smiles");
    var events := [Submit(form), ScenarioReady(_ => Arrived(sc))];
    var s0 := Step(Initial(), events[0]);
    var g0 := GameState("Alex", "Charlie", Girl, 0, Infant, PlayerStats(50, 30, 30), [], false);
    assert s0.game == Some(g0) && s0.shouldFetch;
    var s1 := Step(s0, events[1]);
    assert s1.scenario == Some(sc);
    assert events[1..][0] == events[1] && events[1..][1..] == [];
    assert Run(s0, events[1..]) == Run(s1, []);
    assert Run(Initial(), events) == s1;
    var s2 := Step(s1, Choose("a", _ => Arrived(o)));
    assert Stats.ApplyDelta(g0.stats, o.statChanges) == PlayerStats(55, 20, 30);
    assert Text.IntToString(0) == "0";
    assert HistoryEntry(0, title) == "Age 0: " + title;
    assert s2.game.value.history == [HistoryEntry(0, title)];
  }
}
