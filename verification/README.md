# Growing Together — a Dafny model of the turn state machine

"Growing Together" is a browser parenting simulation. The player raises a child from
birth to adulthood. Each turn a language model writes a scenario with a few choices.
The player picks one, and the model writes an outcome that moves three scores:
bonding, resilience and confidence. The app's own logic is small:

- **Score update.** `handleChoice` adds the outcome's changes to the scores and saturates each one into [0, 100].
- **Turn log.** `handleChoice` appends one "Age {age}: {title}" line per turn.
- **Progression.** `handleNextTurn` ages the child by one year below 18. It re-derives the stage from the new age with an if-chain, clears the scenario and outcome, and asks for the next scenario.
- **Game start.** The start form's submit handler builds the first game state from `INITIAL_STATS`.
- **Service logic.** The service looks up the chosen choice by id, with a "Silent observation" fallback. It also has two hard-coded payloads for when the model call fails.

The model is a set of pure step functions over one immutable state record, one per
event: submit the start form, a scenario arrives, choose, next turn. The content
provider is a function parameter of the steps that await it. Its reply
(`Reply.Arrived(value)` or `Reply.Rejected` when the awaited call throws) is taken as
given.

Modules, following the source files:

- `Types`: the records of types.ts.
- `Search`: the first-match search used by the choice lookup and the log-line reader.
- `Text`: decimal rendering of an integer age, with its inverse.
- `Stats`: the clamp.
- `Constants`: constants.ts.
- `Progression`: the age/stage if-chain.
- `Service`: the pure parts of services/geminiService.ts.
- `StartScreen`: components/StartScreen.tsx.
- `App`: App.tsx's state, events and traces.

Behaviour worth knowing before reading the model, as the code has it:

- **No end state.** `handleNextTurn` always sets the fetch flag, so a grown child keeps getting scenarios. At 18 the age and stage just stop changing. `isGameOver` is never set to true. The "Journey Complete" panel is only drawn while no scenario is loaded.
- **Log line format.** A log line carries the pre-turn age ("Age 3: …"), not the stage.
- **Which stage table.** `STAGE_CONFIG` is imported by App.tsx but never used, and it puts age 12 in Teen. The if-chain that is actually used puts 12 in Elementary. The model uses the if-chain. The difference is stated as a lemma (`Progression.ConfigDisagreesAtTwelve`, `Progression.ConfigAgreesElsewhere`).
- **Age type.** Ages are `int`, standing for a JavaScript number. So the if-chain's fall-through, where no branch matches and the stage is kept, is modelled as written. Reachable states always have age ≥ 0 (`App.ReachableIsValid`).

## Model

| member | source | states |
|---|---|---|
| Types.LifeOrderIsEnumeration | types.ts:1-8 | the life order lists each of the six stages exactly once |
| Text.IntToString | App.tsx:67 | an integer renders as a non-empty decimal string with no leading zero, with a leading minus sign exactly when negative and never "-0" |
| Text.NatToString | App.tsx:67 | a natural renders as digits only, with no leading zero; the first digit is 0 only for 0 itself |
| Text.IntRoundTrip | App.tsx:67 | reading back a rendered integer gives that integer |
| Text.ParseIntOnlyRendered | App.tsx:67 | every string the reader accepts is exactly the rendering of the integer it reads, so "05" or "-0" is never read as an age |
| Text.IntToStringInjective | App.tsx:67 | distinct ages render differently |
| Stats.Clamp | App.tsx:59-61 | the result is always in [0, 100]; equals the input when in range; 0 below, 100 above |
| Stats.ClampIsNearest | App.tsx:59-61 | the clamped value is at least as close to the raw sum as any point of [0, 100] |
| Stats.NearestIsClamp | App.tsx:59-61 | any closest point of [0, 100] is the clamped value, so the clamp means exactly "nearest in range" |
| Stats.ClampMonotone | App.tsx:59-61 | saturation never reverses order: a larger sum never yields a smaller score |
| Stats.ApplyDelta | App.tsx:58-62 | all three new scores lie in [0, 100] for any change; a sum already in range is kept exactly; the zero change leaves in-range scores unchanged |
| Stats.ApplyDeltaFieldsIndependent | App.tsx:59-61 | each new score depends only on its own old score and its own change |
| Stats.ApplyDeltaOneField | App.tsx:58-62 | a change to one score leaves the other two as they were |
| Constants.StageConfig | constants.ts:9-16 | every configured range lies within [0, 99] and is non-empty |
| Constants.InitialStatsInBounds | constants.ts:3-7 | the starting scores are 50, 30, 30 and lie in [0, 100] |
| Constants.ConfigContiguous | constants.ts:9-16 | the configured ranges start at 0, and each stage's maxAge is the next stage's minAge |
| Constants.ConfigStageOf | constants.ts:9-16 | an age in [0, 99) has exactly one configured stage containing it; other ages have none |
| Progression.ChainStage | App.tsx:93-97 | from age 1 on, the chain picks the unique stage whose band holds the age; below 1 it keeps the stage; it never produces Infant |
| Progression.Advance | App.tsx:84-98 | below 18 the age rises by one; for ages 0 to 17 the stage is the band of the new age, never Infant; from 18 on nothing changes; age never decreases |
| Progression.AdvanceKeepsBand | App.tsx:89-97 | a stage consistent with the age stays consistent after a turn |
| Progression.AdvanceIdempotentWhenGrown | App.tsx:89 | at age 18 or more a turn is the identity, so repeating it changes nothing |
| Progression.AdvanceNFromBand | App.tsx:84-98 | n turns from a consistent age a ≤ 18 reach age min(a + n, 18) with the matching stage |
| Progression.TurnsFromBirth | App.tsx:84-98 | n turns from age 0 give age min(n, 18) |
| Progression.ConfigDisagreesAtTwelve | constants.ts:13-14 | the stage table says Teen at 12, the if-chain says Elementary |
| Progression.ConfigAgreesElsewhere | constants.ts:10-15 | within [1, 99) the table and the chain disagree exactly at age 12 |
| Service.FindChoice | services/geminiService.ts:112 | finds the first choice with the id; none exactly when no choice has it |
| Service.ChosenText | services/geminiService.ts:112-113 | the text of the first choice with the id, or "Silent observation" when no choice has it |
| Service.ChosenStyle | services/geminiService.ts:112-119 | the style of the first choice with the id; absent exactly when no choice has it |
| Service.RequestFor | services/geminiService.ts:112-119 | the outcome request carries the scenario context and description, the child's name and age, and the chosen text and style |
| Service.FallbackScenario | services/geminiService.ts:97-103 | the fallback scenario has exactly one choice, ("retry", "Try again", Empathetic), and no dialogue, emotion or image |
| Service.FallbackOutcome | services/geminiService.ts:145-150 | the fallback outcome changes no score and carries no child dialogue or emotion |
| Service.ScenarioOrFallback | services/geminiService.ts:94-103 | the model's scenario when the call succeeds, the fixed fallback scenario otherwise |
| Service.OutcomeOrFallback | services/geminiService.ts:143-150 | the model's outcome when the call succeeds, the fixed fallback outcome otherwise |
| Service.FallbackScenarioShape | services/geminiService.ts:102-113 | choosing "retry" on the fallback scenario sends "Try again" with the Empathetic style |
| Service.FallbackScenarioOtherIds | services/geminiService.ts:102-113 | any other id on the fallback scenario falls back to "Silent observation" with no style |
| StartScreen.Edit | components/StartScreen.tsx:47-75 | typing a name or picking a gender replaces that one field and keeps the other two |
| StartScreen.EditAll | components/StartScreen.tsx:10-75 | a field no edit touches keeps its value through any sequence of edits |
| StartScreen.GenderIsLastPicked | components/StartScreen.tsx:12 | the form's gender is the last one picked, and boy if none was |
| StartScreen.HandleSubmit | components/StartScreen.tsx:14-28 | no game exactly when a name is empty; otherwise names and gender pass through, age 0, Infant, the initial scores, empty log, not over |
| StartScreen.SubmitStartsInBand | components/StartScreen.tsx:22-23 | the first state's stage is the stage of its age |
| App.Initial | App.tsx:12-19 | on mount there is no game, scenario, outcome or error, nothing is loading, no fetch is pending, and the invariant holds |
| App.HistoryEntry | App.tsx:67 | a log line starts with "Age " and ends with the scenario title |
| App.EntryRoundTrip | App.tsx:67 | a log line can be read back into exactly the age and title it was built from, whatever the title |
| App.ParseEntryOnlyLogLines | App.tsx:67 | every line the reader accepts is exactly the log line of the age and title it reads, so with `EntryRoundTrip` the reader and the template are inverse |
| App.EntryInjective | App.tsx:67 | different (age, title) pairs give different log lines |
| App.StartGame | App.tsx:21-24 | starting installs the submitted game and sets the fetch flag |
| App.FetchNewScenario | App.tsx:26-40 | without a game nothing changes; a delivered scenario is stored and the outcome and error cleared; a failure keeps scenario and outcome and reports the error; loading ends false |
| App.ScenarioEffect | App.tsx:42-48 | fetches only when a game exists and the flag is set, and then clears the flag |
| App.HandleChoice | App.tsx:50-77 | without a game or a scenario nothing changes; the scenario and fetch flag are never touched |
| App.ChoiceEffect | App.tsx:58-70 | a delivered outcome changes only scores and log: clamped scores, one new line after the unchanged earlier lines that reads back as the pre-turn age and the title (and, by `ParseEntryOnlyLogLines`, is exactly "Age {age}: {title}") |
| App.ChoiceRejected | App.tsx:71-76 | a failed evaluation leaves the game and outcome as they were and reports the error |
| App.FallbackOutcomeKeepsStats | App.tsx:58-68 | the fallback outcome leaves in-range scores unchanged while the log still grows by one |
| App.HandleNextTurn | App.tsx:79-109 | without a game nothing changes; otherwise the scenario and outcome are cleared and the fetch flag is set, at every stage |
| App.NextTurnChangesOnlyAgeAndStage | App.tsx:100-104 | a turn sets age and stage by the progression and leaves names, gender, scores, log and the game-over flag untouched |
| App.NoTerminalState | App.tsx:89-108 | at 18 or more a turn leaves the game unchanged, yet with the service's own generator an adult child always gets a new scenario after it, with no error, and the game is not marked over |
| App.ServiceFallbackNeverFails | App.tsx:30-36 | with the service's fallback in place, fetching always stores a scenario and never reports an error |
| App.OutcomeFallbackNeverFails | App.tsx:54-73 | with the service's outcome fallback in place, a choice always stores an outcome, logs one line and leaves the error as it was, so the failure branch needs a throw outside the service's own catch |
| App.Step | App.tsx:111-113 | the start form submits only while there is no game, installing the submitted state and requesting a scenario; other events do nothing without a game; a game once present is never dropped |
| App.StepKeepsValid | App.tsx:50-109 | every event keeps scores in [0, 100], age ≥ 0, the stage equal to the band of the age, and the game not over |
| App.RunKeepsValid | App.tsx:50-109 | any sequence of events keeps that invariant |
| App.ReachableIsValid | App.tsx:11-24 | every state reachable from mount satisfies the invariant |
| App.RunKeepsGame | App.tsx:50-109 | once a game exists it persists with the same names and gender; the log only grows at the end; the age never decreases |
| App.RepeatedTurns | App.tsx:79-109 | n turns in a row move age and stage exactly as n steps of the progression |
| App.TurnsFromStart | App.tsx:84-98 | a fresh game reaches age min(n, 18) after n turns |
| App.FirstTurnExample | App.tsx:21-109 | submit, scenario, choice (+5, -10, 0), next turn gives scores 55/20/30, log "Age 0: title", then age 1, Toddler, scenario cleared and a new fetch requested |

## Left out

- Rendering: all JSX, including the dashboard's display-only width clamp, the feedback badge formatting and the scenario view. None of it changes state.
- React scheduling: `useEffect`/`useRef` mechanics become the `shouldFetch` field and an explicit `ScenarioReady` event. Events may occur in any order, which covers more orders than the rendered UI allows. (The UI offers choosing only while a scenario is shown without an outcome, and "next" only while an outcome is shown.)
- Concurrency: the asynchronous ordering of state updates (the closed-over `gameState` against `prev` in App.tsx:58-68) is not modelled. Each handler is one sequential step, and its transient `loading = true` is not observable.
- Language-model calls: client construction, prompt strings, response schemas, `JSON.parse` and temperature are external. They are the `generate`/`evaluate` parameters, and their replies are uninterpreted inputs.
- `Service.ScenarioOrFallback`: does not model the `Date.now()` id stamped on a generated scenario, because it is a clock reading.
- `window.location.reload()` and the error banner are left out, because both are UI only.
- Untyped payloads: NaN from replies with missing `statChanges` fields is not modelled. Score changes are unbounded integers.
- `Text.IntToString`: renders every integer in plain decimal. JavaScript switches to exponent notation from 10^21, an age the game cannot reach.
- Static data: the `PLACEHOLDER_IMAGES` URLs, the stage display labels and the `STAGE_CONFIG` colours.
- Voice playback is not part of this model.
- `Types.ParentingStyle`: narrows a choice's style to the five values of types.ts:30. The reply is never validated (the schema asks for any string and the cast checks nothing), but no state depends on the style.
- Logging: the `console.error` calls on failure (App.tsx:36, 73; services/geminiService.ts:95, 144) are side effects on the console only, and are left out.
