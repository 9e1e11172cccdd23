# PathFinder AI: a Dafny model of its career-roadmap logic

PathFinder AI is a React application that plans a career. A user signs up with a local
account, answers five onboarding questions, and picks a suggested career. A generated
roadmap (phases of items) then tracks progress. Most of the application is rendering and calls
to the Gemini model. This project models the business logic inside its event handlers and
effects, and proves properties of it:

- **Dashboard** (`components/Dashboard.tsx`):
  - the roadmap progress engine: toggling an item, detecting that a phase was just completed,
    resets and the progress percentage;
  - adapting the roadmap to a new deadline, and the "finish quicker" deadline;
  - days remaining and the extension/shortening choice;
  - the daily challenge's XP and streak rules, and deleting or switching careers.
- **Gemini** (`services/gemini.ts`):
  - the duration estimate `calculateRemainingDays`, with an explicit model of JavaScript's
    `parseInt`;
  - the day budget and starting phase of `generateRoadmap`;
  - the de-duplication and fallbacks of `fetchTechNews`.
- **RoadmapView** (`components/Roadmap.tsx`): which task comes next, when the roadmap is
  finished, the accordion, the confirmation asked before an item is completed, reset
  confirmation and the per-phase counters.
- **App** (`App.tsx`): restoring a session (the streak and theme defaults), which career
  context loads, appending a career after onboarding, logout, and the precedence of screens.
- **Auth** (`components/Auth.tsx`): signup, login and password recovery against the user
  map.
- **Onboarding** (`components/Onboarding.tsx`): the question/analysis/selection/experience/
  details step machine.
- **Types** (`types.ts`) and **Js** (the JavaScript runtime behaviour the code relies on):
  the data model and its counters, plus `parseInt`, `trim`, `toLowerCase`, `includes` and
  `Math.round`.

The model follows these conventions:

- Dates are integer day numbers. `today` and `now` are parameters. A missing or empty date
  string is `None`.
- The store is a set of map fields.
  - The Dashboard works for the signed-in user, so its career and roadmap maps are keyed by
    career id.
  - App's maps are keyed by (user id, career id).
- Calls to the Gemini model are function parameters.
  - `generateRoadmap` swallows its errors and returns `[]` (services/gemini.ts:492-496). It is
    therefore a total function that may return `[]`.
  - A summary, analysis or search result is an `Option`, where `None` means the call threw.
- Components whose handlers update state are classes (`Dashboard.Controller`,
  `RoadmapView.Accordion`, `App.Shell`, `Auth.Form`, `Onboarding.Wizard`). Their methods
  state the whole new state. The `map`/`filter` code is written as functions, with lemmas
  about it.
- The loops of the source are methods with invariants, each proved equal to a specification
  function:
  - `Gemini.CalculateRemainingDays`;
  - `Dashboard.CountItems`;
  - `Dashboard.FindPhaseIndex`;
  - `RoadmapView.ScanRoadmap`;
  - the career walk of `handleResetAll`.

Where the code departs from the application's described behaviour, the model follows the
code:

- Adaptation keeps every fully completed phase, wherever it sits in the roadmap, not just a
  leading run of them (components/Dashboard.tsx:517).
- A failed generation yields `[]`, so a failed adaptation leaves only the completed phases
  (`Dashboard.FailedAdaptation`).
- The new target date is saved before generation runs (components/Dashboard.tsx:522-527).
- Units are matched "month" first, then "week", then "day". So "3-day sprint, 2 months prep"
  counts as 90 days (`Gemini.CompositeDurationReadsMonths`).
- The analysis and search services in services/gemini.ts catch their own errors and return
  `[]` (services/gemini.ts:55-58, 97-100). The onboarding fallback of three fixed careers
  (components/Onboarding.tsx:57-64) is therefore unreachable with the shipped service. It is
  modelled for a service that throws.
- `generatePhaseSummary` also catches its own errors and returns a string
  (services/gemini.ts:284-291). The phase dialog's fallback text
  (components/Dashboard.tsx:476-478) is therefore unreachable with the shipped service too.
  `Dashboard.Controller.AnnouncePhase` models it for a summary call that throws.
- The `else if (totalPending > 0 && !foundNext)` branch of the roadmap effect
  (components/Roadmap.tsx:72-74) can never run: the scan finds a pending item whenever it
  counts one. `RoadmapView.Accordion.Refresh` proves that.

Other consequences of the code as written, proved in the model:

- Toggling sends every status other than "completed" to "completed". Toggling an
  in-progress item twice therefore leaves it pending (`Dashboard.ToggleTwice`).
- Progress is `Math.round(100 * completed / total)`. It reads 100 as soon as
  `200 * completed >= 199 * total`, so a roadmap of 200 or more items shows 100% with one
  item still to do (`Dashboard.ProgressFull`).
- The roadmap view treats in-progress items as done: a roadmap with nothing pending is
  "finished" (`RoadmapView.FinishedIff`).

## Model

| member | source | states |
|---|---|---|
| `Js.TrimStart` | services/gemini.ts:302 | the result is a suffix of the input, every dropped character is JavaScript white space, and the result does not start with white space (the first step of `parseInt`) |
| `Js.TrimStartEmptyIffBlank` | components/Onboarding.tsx:38 | `!s.trim()` holds exactly when the string is all white space |
| `Js.ToLower` | services/gemini.ts:300 | same length, and each character is lower-cased on its own (ASCII) |
| `Js.ToLowerUnchanged` | services/gemini.ts:300 | a string without upper-case letters is its own lower-case form |
| `Js.DigitRun` | services/gemini.ts:302 | the run of digits read by `parseInt` is the longest digit prefix |
| `Js.ParseInt` | services/gemini.ts:302 | a negative result needs a leading `-` after the white space; a blank string gives NaN (`None`) |
| `Js.ParseIntDecimal` | services/gemini.ts:302 | `parseInt` reads back white space, an optional sign and a decimal numeral followed by any non-digit text as that signed number |
| `Js.ParseIntNat` | services/gemini.ts:305 | the decimal numeral of `n` followed by non-digit text parses to `n` |
| `Js.DecimalDigits` | services/gemini.ts:302 | the decimal numeral consists of digits, denotes `n`, and has no leading zero |
| `Js.RoundRatio` | components/Dashboard.tsx:346 | `Math.round(n / d)` for an exact ratio: the nearest integer, halves rounded up |
| `Js.RoundRatioIff` | components/Dashboard.tsx:346 | `m` is the rounded ratio exactly when `m - 1/2 <= n/d < m + 1/2` |
| `Js.RoundRatioBounds` | components/Dashboard.tsx:346 | a ratio between 0 and `m` rounds to a value between 0 and `m` |
| `Types.CountStatus` | components/Roadmap.tsx:370-371 | a `filter(...).length` count never exceeds the number of items |
| `Types.CountStatusAll` | components/Roadmap.tsx:372 | the count equals the item count exactly when every item has that status |
| `Types.CountStatusNone` | components/Roadmap.tsx:373 | the count is 0 exactly when no item has that status |
| `Types.CountStatusAppend` | components/Dashboard.tsx:340-345 | counts over a concatenation add up |
| `Types.TotalStatusAll` | components/Dashboard.tsx:645 | the roadmap-wide completed count equals the item count exactly when every phase is completed |
| `Types.TotalStatusNone` | components/Roadmap.tsx:56 | the roadmap-wide count of a status is 0 exactly when no item anywhere has it |
| `Gemini.DurationCount` | services/gemini.ts:302-308 | `parseInt(duration) \|\| 1`: the parsed count when it is a non-zero number, 1 for NaN or 0, never 0 |
| `Gemini.UnitDays` | services/gemini.ts:300-313 | what one lower-cased duration adds: never 0, 1 when it names no unit, positive for a positive count |
| `Gemini.RemainingDays` | services/gemini.ts:317 | `totalDays \|\| 1`: the pending total, with a total of 0 returned as 1, never 0; it is not at least 1 for every roadmap (see Findings) |
| `Gemini.NegativeDurationEstimate` | services/gemini.ts:299-317 | a roadmap whose one pending item lasts "-2 weeks" gets the estimate -14, below the one-day minimum |
| `Gemini.NegativeWeeks` | services/gemini.ts:300-306 | "-2 weeks" is already lower case, reads as the count -2 and the unit week, and costs -14 days |
| `Gemini.RemainingDaysAtLeastOne` | services/gemini.ts:296-317 | when no pending duration reads as a negative count, the total is not negative and the estimate is at least 1 |
| `Gemini.ItemsDaysNonNegative` | services/gemini.ts:298-314 | when no pending duration of a phase reads as a negative count, the phase adds no negative number of days |
| `Gemini.EstimatedDays` | services/gemini.ts:317 | the estimate with the one-day minimum kept for every roadmap: at least 1, equal to `RemainingDays` whenever that is positive, and 1 for a negative total |
| `Gemini.CalculateRemainingDays` | services/gemini.ts:295-318 | the loop over phases computes exactly the pending-days estimate `RemainingDays` |
| `Gemini.PhaseDays` | services/gemini.ts:298-315 | the loop over one phase's items adds exactly its pending items' days |
| `Gemini.ItemDays` | services/gemini.ts:299-314 | an item adds 0 exactly when it is not pending |
| `Gemini.ItemsDays` | services/gemini.ts:298-315 | the sum of `ItemDays` over a phase's items, left to right (its properties: `Gemini.ItemsDaysNoPending`, `Gemini.PhaseDays`) |
| `Gemini.PendingDays` | services/gemini.ts:296-316 | the running total before `\|\| 1`: the sum of `ItemsDays` over the phases (its properties: `Gemini.PendingDaysAppend`, `Gemini.RemainingDaysNoPending`) |
| `Gemini.ItemsDaysNoPending` | services/gemini.ts:299 | completed and in-progress items contribute nothing |
| `Gemini.RemainingDaysNoPending` | services/gemini.ts:299-317 | with no pending item the estimate is exactly 1 |
| `Gemini.PendingDaysAppend` | services/gemini.ts:297-316 | the estimate over two runs of phases is the sum of the estimates |
| `Gemini.IncludesAfterDigits` | services/gemini.ts:301-307 | a leading number never makes a unit word appear or disappear |
| `Gemini.DurationAfterCount` | services/gemini.ts:300-313 | "n unit…" costs 30n with "month", else 7n with "week", else n with "day", else 1, in that order |
| `Gemini.CompositeDurationReadsMonths` | services/gemini.ts:301-303 | any duration mentioning "month" is read as months, even when "day" comes first |
| `Gemini.InclusiveDays` | services/gemini.ts:345 | `raw + 1` when `raw >= 0`, else 0 |
| `Gemini.DiffDays` | services/gemini.ts:335-345 | the inclusive day count between today and the target day, 0 without a target |
| `Gemini.StartPhase` | services/gemini.ts:353 | `startingPhaseNumber \|\| 1`: the given number unless absent or 0, never 0 |
| `Gemini.BudgetFor` | services/gemini.ts:333-353 | the budget is at least one day; it is a crash course exactly when no day is left; the effective days are the inclusive days or 1 |
| `Gemini.EffectiveDaysMonotone` | services/gemini.ts:345-351 | a later target date never gives a smaller budget |
| `Gemini.EffectiveDaysStrict` | services/gemini.ts:345-351 | a later target date that is not in the past gives a strictly larger budget |
| `Gemini.WebItems` | services/gemini.ts:512-541 | at most one item per chunk, and some chunk with both an address and a title gives at least one item |
| `Gemini.IndexOfUrl` | services/gemini.ts:544-546 | `findIndex` by url: the first index with that url, or -1 when there is none |
| `Gemini.KeptAreFirst` | services/gemini.ts:543-546 | every kept item is the first item with its url |
| `Gemini.KeptInOrder` | services/gemini.ts:543-546 | kept items follow the order of their first occurrences |
| `Gemini.KeptComplete` | services/gemini.ts:543-546 | every first occurrence is kept |
| `Gemini.UrlsKept` | services/gemini.ts:543-546 | de-duplication keeps exactly the set of urls of its input |
| `Gemini.UniqueByUrl` | services/gemini.ts:543-546 | the `filter` keeping the items whose index is the `findIndex` of their url (characterised by `Gemini.UniqueByUrlSpec`) |
| `Gemini.UniqueByUrlSpec` | services/gemini.ts:543-546 | the de-duplicated list has distinct urls, the same url set, first occurrences in order, and is empty only for an empty input |
| `Gemini.Take` | services/gemini.ts:547 | `slice(0, n)`: a prefix of at most `n` items, the whole list when it is short |
| `Gemini.FetchTechNews` | services/gemini.ts:543-572 | one to five items: the de-duplicated first five, the single "Google News" item when none is usable, the single "Google Search" item when the call threw |
| `Dashboard.ToggleItems` | components/Dashboard.tsx:445-447 | each item of a phase is toggled on its own |
| `Dashboard.Toggle` | components/Dashboard.tsx:443-448 | the phases keep their order and everything but their items |
| `Dashboard.ToggleSpec` | components/Dashboard.tsx:443-448 | only items with the id change; a completed one becomes pending with no completion time, any other becomes completed at `now` |
| `Dashboard.ToggleKeepsConsistent` | components/Dashboard.tsx:446 | a completion time is present exactly on completed items, before and after a toggle |
| `Dashboard.ToggleTwice` | components/Dashboard.tsx:446 | toggling twice restores every status except in-progress, which becomes pending; pending items without a time come back unchanged |
| `Dashboard.LastPhaseWith` | components/Dashboard.tsx:436-438 | the last phase containing the id, or -1 |
| `Dashboard.FindPhaseIndex` | components/Dashboard.tsx:435-438 | the `forEach` loop leaves the index of the last phase containing the id |
| `Dashboard.PhaseEvent` | components/Dashboard.tsx:441-458 | a phase-completion event names the last phase containing the item |
| `Dashboard.PhaseEventMeaning` | components/Dashboard.tsx:441-458 | an event fires only for a phase that holds the item, is now completed, was not before, while the roadmap as a whole is not completed |
| `Dashboard.PhaseEventOnLastItem` | components/Dashboard.tsx:454-458 | completing the last open item of a phase, with another phase still open, fires the event for that phase |
| `Dashboard.NoPhaseEventWhenReverting` | components/Dashboard.tsx:441 | un-completing an item never fires the event |
| `Dashboard.NoPhaseEventWhenAllDone` | components/Dashboard.tsx:455-458 | the final completion of the whole roadmap fires no phase event |
| `Dashboard.WithSummary` | components/Dashboard.tsx:471-473 | the summary is stored on that phase only |
| `Dashboard.ResetPhase` | components/Dashboard.tsx:488 | every item of the phase becomes pending with no completion time, and the summary is dropped |
| `Dashboard.ResetPhaseAt` | components/Dashboard.tsx:488 | only phase `i` is reset; the others are unchanged |
| `Dashboard.ResetAll` | components/Dashboard.tsx:495 | every phase is reset |
| `Dashboard.ResetAllSpec` | components/Dashboard.tsx:495 | after a reset nothing is completed, no summary remains, times agree with statuses; resetting is idempotent |
| `Dashboard.ResetPhaseThenAll` | components/Dashboard.tsx:488-497 | resetting a phase and then everything is resetting everything |
| `Dashboard.ResetStored` | components/Dashboard.tsx:502-508 | the stored roadmap of every listed career is reset, every other stored roadmap is kept |
| `Dashboard.ResetStoredStep` | components/Dashboard.tsx:503-506 | walking one more career resets its stored roadmap, also when its id came up before |
| `Dashboard.ResetStoredSpec` | components/Dashboard.tsx:500-511 | after resetting all careers none of them has a completed item, and doing it again changes nothing |
| `Dashboard.Progress` | components/Dashboard.tsx:336-351 | the percentage lies in 0..100, and is 0 without a roadmap or without items |
| `Dashboard.ProgressFull` | components/Dashboard.tsx:346 | 100% exactly when `200 * completed >= 199 * total`; a fully completed roadmap shows 100% |
| `Dashboard.ProgressZero` | components/Dashboard.tsx:346 | 0% exactly when fewer than half a percent of the items are completed |
| `Dashboard.Celebrate` | components/Dashboard.tsx:347 | the celebration condition: the new percentage is 100 and the previous one was neither 100 nor 0 |
| `Dashboard.CountItems` | components/Dashboard.tsx:338-345 | the nested loops count all items and the completed ones |
| `Dashboard.CompletedPhases` | components/Dashboard.tsx:517 | the filter keeps only completed phases |
| `Dashboard.CompletedPhasesMembers` | components/Dashboard.tsx:517 | a phase is kept exactly when it is in the roadmap and completed |
| `Dashboard.CompletedPhasesAppend` | components/Dashboard.tsx:517 | the filter distributes over concatenation, so order is kept |
| `Dashboard.CompletedPhasesAllDone` | components/Dashboard.tsx:517 | a fully completed roadmap is kept whole |
| `Dashboard.CompletedPrefixKept` | components/Dashboard.tsx:517 | a completed leading run of phases is always kept, at the front |
| `Dashboard.Adapt` | components/Dashboard.tsx:530 | the adapted roadmap is the completed phases followed by the generated ones |
| `Dashboard.FailedAdaptation` | components/Dashboard.tsx:529-530 | an empty generation leaves just the completed phases, all of them completed |
| `Dashboard.AdaptationContextFor` | components/Dashboard.tsx:518-529 | the context carries the strategy and the number of completed phases, and the generator starts numbering at the phase after them |
| `Dashboard.FindCareer` | components/Dashboard.tsx:334 | `find`: the first career with the id, or none when no career has it |
| `Dashboard.SetTargetDate` | components/Dashboard.tsx:523 | only careers with the id get the new target date |
| `Dashboard.SetLastChallenge` | components/Dashboard.tsx:605-607 | only careers with the id get today's challenge date |
| `Dashboard.SetTargetDateFound` | components/Dashboard.tsx:523 | after the rewrite the career is found with the new date |
| `Dashboard.TargetToUse` | components/Dashboard.tsx:520 | `customTargetDate \|\| targetCompletionDate` |
| `Dashboard.AdaptationRequest` | components/Dashboard.tsx:519-529 | the generator gets the chosen target date, the chosen strategy and a start after the completed phases |
| `Dashboard.AdaptedCareersWithoutDate` | components/Dashboard.tsx:520-527 | without a custom date the careers are not rewritten |
| `Dashboard.AdaptedCareersWithDate` | components/Dashboard.tsx:520-527 | with a custom date the current career ends up with it |
| `Dashboard.AdaptedCareers` | components/Dashboard.tsx:520-527 | the careers keep their order and every field but the target date; other careers are untouched; the current career gets the date to use when it differs from the stored one, and nothing changes when it does not |
| `Dashboard.EditedDateDiscarded` | components/Dashboard.tsx:1030 | as wired, the date strategy dialog calls the handler without the edited date, so neither the career nor the generator gets the edited date |
| `Dashboard.EditedDateApplied` | components/Dashboard.tsx:513-527 | passing the edited date stores it on the career and hands it to the generator |
| `Dashboard.Classify` | components/Dashboard.tsx:553-556 | an extension exactly when the new date is later than the stored one |
| `Dashboard.OfferedStrategies` | components/Dashboard.tsx:91-112 | an extension offers redistribute or append content; a shortening offers compress or simplify |
| `Dashboard.DaysRemaining` | components/Dashboard.tsx:644-652 | 0 for a finished non-empty roadmap and for a career without a target date |
| `Dashboard.DaysRemainingIsBudget` | components/Dashboard.tsx:644-652 | otherwise the inclusive day count, 0 for a past date, and equal to the generator's budget when positive |
| `Dashboard.FinishOffset` | components/Dashboard.tsx:540-542 | `Math.max(0, daysNeeded - 1)` equals the clamped estimate minus one, so a negative estimate still gives a deadline of today |
| `Dashboard.FinishQuickerBudget` | components/Dashboard.tsx:540-544 | the new target date lies `max(0, estimate - 1)` days ahead, so its inclusive budget is the estimate with its one-day minimum kept (`Gemini.EstimatedDays`) |
| `Dashboard.Reward` | components/Dashboard.tsx:595-603 | +10 XP and +1 streak only for a correct first challenge of the day, otherwise unchanged |
| `Dashboard.MilestoneFor` | components/Dashboard.tsx:613-616 | a milestone only for a correct first challenge; a streak multiple of 100 wins over an XP multiple of 1000 |
| `Dashboard.FeedbackText` | components/Dashboard.tsx:618-621 | the explanation, with a note appended exactly when XP was already collected today |
| `Dashboard.RemoveCareer` | components/Dashboard.tsx:573 | no kept career has the id, every kept career is one of the input's, and every career without the id is kept |
| `Dashboard.RemoveCareerAppend` | components/Dashboard.tsx:573 | the filter distributes over concatenation, so the kept careers keep their order and multiplicity |
| `Dashboard.RemoveCareerFirst` | components/Dashboard.tsx:573-576 | the head of the filtered list is the first career without the id; the list is empty exactly when every career has the id |
| `Dashboard.NextCareerId` | components/Dashboard.tsx:574-580 | unchanged when another career is deleted; when the current one is deleted, the first career without the id, or none when every career has it |
| `Dashboard.DeleteKeepsCurrentValid` | components/Dashboard.tsx:572-582 | after a deletion the current career id names a remaining career (the first one when the current was deleted) or is unset, and never the deleted id |
| `Dashboard.Lookup` | components/Dashboard.tsx:578-579 | a stored value exactly for stored keys |
| `Dashboard.Controller.constructor` | components/Dashboard.tsx:295-334 | the dashboard starts with the given user, career and roadmap and every dialog closed |
| `Dashboard.Controller.SaveUser` | components/Dashboard.tsx:525-526 | `setUser` plus `saveUser` |
| `Dashboard.Controller.SaveRoadmap` | components/Dashboard.tsx:450-451 | `setRoadmap` plus `saveRoadmap` under the current career |
| `Dashboard.Controller.HandleProgress` | components/Dashboard.tsx:432-484 | the toggled roadmap is shown and saved; on a phase event the dialog opens with the summary (stored on that phase) or the fallback text |
| `Dashboard.Controller.AnnouncePhase` | components/Dashboard.tsx:459-481 | the phase dialog opens on phase `k`; a summary is shown and stored on that phase and saved, and without one the fallback text is shown and the roadmap is left |
| `Dashboard.Controller.HandleResetPhase` | components/Dashboard.tsx:486-491 | the roadmap with phase `i` reset is shown and saved; nothing without a roadmap |
| `Dashboard.Controller.HandleResetRoadmap` | components/Dashboard.tsx:493-498 | the fully reset roadmap is shown and saved; nothing without a roadmap |
| `Dashboard.Controller.HandleResetAll` | components/Dashboard.tsx:500-511 | once confirmed, every stored roadmap of the user's careers is reset, then the shown one |
| `Dashboard.Controller.UpdateProgress` | components/Dashboard.tsx:336-352 | the progress becomes `Progress(roadmap)`; the celebration opens when it reaches 100 from neither 0 nor 100 |
| `Dashboard.Controller.SaveTargetDate` | components/Dashboard.tsx:520-527 | the user is rewritten and saved only when the target date changes |
| `Dashboard.Controller.HandleAdaptation` | components/Dashboard.tsx:513-536 | nothing without career details or a roadmap; otherwise the date is saved first, then the completed phases plus the generated ones are shown and saved and the dialogs close |
| `Dashboard.Controller.AdaptWith` | components/Dashboard.tsx:516-534 | the user's careers become `AdaptedCareers` (saved only when the date changes), the roadmap becomes the completed phases plus the generated ones for `AdaptationRequest`, shown and saved, and every adaptation dialog closes |
| `Dashboard.Controller.FinishAdaptation` | components/Dashboard.tsx:532-534 | the final roadmap is shown and saved and every adaptation dialog closes |
| `Dashboard.Controller.HandleFinishQuicker` | components/Dashboard.tsx:538-549 | only the current career's target date changes, to today plus the estimate minus one; the roadmap is untouched |
| `Dashboard.Controller.MoveDeadline` | components/Dashboard.tsx:545-547 | only careers with the current id get the new target date, the user is saved, and the phase dialog closes |
| `Dashboard.Controller.EditTargetDate` | components/Dashboard.tsx:864 | the date editor opens on the stored target date |
| `Dashboard.Controller.EditPendingTargetDate` | components/Dashboard.tsx:1031 | the date picked in the editor becomes the pending target date, a cleared input none |
| `Dashboard.Controller.CancelDateEdit` | components/Dashboard.tsx:1031 | cancelling closes the date editor |
| `Dashboard.Controller.CancelDateStrategy` | components/Dashboard.tsx:1030 | cancelling closes the strategy dialog |
| `Dashboard.Controller.InitiateDateUpdate` | components/Dashboard.tsx:551-557 | with an edited date and career details, the editor closes and the strategy dialog opens classified as extension or shortening |
| `Dashboard.Controller.ChooseDateStrategyAsWritten` | components/Dashboard.tsx:1030 | as wired: the chosen strategy adapts the roadmap with the stored date, and the user is not changed |
| `Dashboard.Controller.ChooseDateStrategy` | components/Dashboard.tsx:513-536 | corrected: the edited date is stored on the career and drives the adaptation |
| `Dashboard.Controller.SubmitDailyChallenge` | components/Dashboard.tsx:590-624 | XP, streak and both challenge dates are updated and saved, the milestone and the feedback are set |
| `Dashboard.Controller.FinishSimulation` | components/Dashboard.tsx:635-642 | the score is added to XP and saved; a positive multiple of 1000 announces a milestone |
| `Dashboard.Controller.HandleSwitchCareer` | components/Dashboard.tsx:559-570 | a saved career is shown with its roadmap (or an empty one) and becomes current; an unsaved one leaves no roadmap |
| `Dashboard.Controller.HandleDeleteCareer` | components/Dashboard.tsx:572-588 | the career leaves the user and the store; the first remaining career is loaded when the current one goes; with none left a new career is requested |
| `RoadmapView.FirstPendingIndex` | components/Roadmap.tsx:55 | `find` by pending status: the first pending item, or none |
| `RoadmapView.NextTaskOf` | components/Roadmap.tsx:53-63 | the task the scan shows next, from phase 0 on (characterised by `RoadmapView.NextTaskFromSpec` and `RoadmapView.NextTaskIffPending`) |
| `RoadmapView.NextTaskFromSpec` | components/Roadmap.tsx:53-65 | the next task is the first pending item of the first phase that has one, and exists exactly when some item is pending |
| `RoadmapView.NextTaskIffPending` | components/Roadmap.tsx:53-65 | a next task exists exactly when the pending count is positive |
| `RoadmapView.ScanRoadmap` | components/Roadmap.tsx:49-65 | the loop finds the next task and its phase and counts all pending items |
| `RoadmapView.ActivePhase` | components/Roadmap.tsx:50-79 | the phase that opens: the next task's phase, the last phase when nothing is pending, 0 for an empty roadmap |
| `RoadmapView.Finished` | components/Roadmap.tsx:66-76 | `isCompleted`: nothing pending and the roadmap non-empty (characterised by `RoadmapView.FinishedIff`) |
| `RoadmapView.FinishedIff` | components/Roadmap.tsx:66-70 | finished exactly when the roadmap is non-empty and nothing is pending; a completed roadmap is finished |
| `RoadmapView.ToggleExpanded` | components/Roadmap.tsx:83-85 | the open phase closes, any other phase opens |
| `RoadmapView.ToggleExpandedTwice` | components/Roadmap.tsx:83-85 | clicking the same header twice restores the accordion when that phase, or no phase, was open (with another phase open, two clicks leave every phase closed) |
| `RoadmapView.PhaseCounters` | components/Roadmap.tsx:370-373 | done exactly when all items are completed (an empty phase is done); started exactly when some item is completed |
| `RoadmapView.Accordion.constructor` | components/Roadmap.tsx:39-43 | the first phase is open and nothing is pending confirmation |
| `RoadmapView.Accordion.Refresh` | components/Roadmap.tsx:47-81 | the open phase, the finished flag and the next task follow the scan; nothing changes while loading or without a roadmap |
| `RoadmapView.Accordion.TogglePhase` | components/Roadmap.tsx:83-85 | the accordion follows `ToggleExpanded` |
| `RoadmapView.Accordion.TaskClick` | components/Roadmap.tsx:106-113 | a pending item only waits for confirmation; any other is toggled at once |
| `RoadmapView.Accordion.ConfirmCompletion` | components/Roadmap.tsx:115-120 | exactly one update for the recorded item, then the record is cleared |
| `RoadmapView.Accordion.CancelCompletion` | components/Roadmap.tsx:181 | cancelling clears the recorded item |
| `RoadmapView.Accordion.CancelReset` | components/Roadmap.tsx:217 | cancelling clears the recorded reset |
| `RoadmapView.Accordion.ResetRequest` | components/Roadmap.tsx:96-98 | a whole-roadmap reset is recorded |
| `RoadmapView.Accordion.ResetPhaseRequest` | components/Roadmap.tsx:100-103 | a reset of that phase is recorded |
| `RoadmapView.Accordion.ConfirmReset` | components/Roadmap.tsx:122-130 | the recorded reset is dispatched once, then cleared |
| `App.StreakBroken` | App.tsx:62-73 | a streak is lost when it is positive, a challenge date exists and more than one day has passed since it (see `App.StreakKeptWithinADay`) |
| `App.CheckStreak` | App.tsx:62-78 | a broken streak is reset to 0 and nothing else changes |
| `App.CheckStreakIdempotent` | App.tsx:62-78 | a checked streak is not broken again on the same day |
| `App.StreakKeptWithinADay` | App.tsx:72 | a gap of at most one day keeps the streak; two or more days lose it |
| `App.WithDefaultTheme` | App.tsx:57-59 | a missing theme becomes dark/indigo; a present theme and every other field are kept |
| `App.WithDefaultThemeIdempotent` | App.tsx:57-59 | defaulting twice is defaulting once, and it commutes with the streak check |
| `App.Restore` | App.tsx:57-78 | the restored user has a theme (the stored one when present), a streak reset to 0 exactly when it was broken, and every other field as stored |
| `App.CareerToLoad` | App.tsx:82 | `currentCareerId \|\| activeCareers[0].careerId` |
| `App.Load` | App.tsx:91-96 | a saved value replaces the shown one; a missing one leaves it |
| `App.NewEntry` | App.tsx:112 | the appended entry copies the selection and the answers, with `addedAt = now` |
| `App.Onboard` | App.tsx:113-114 | the entry is appended, the career becomes current and onboarding is complete; nothing else changes |
| `App.OnboardAppendsOne` | App.tsx:113-114 | exactly one entry is added at the end, the earlier ones untouched, and the new career is the one loaded next |
| `App.InitialRequest` | App.tsx:120 | a first roadmap is requested without adaptation context, so numbering starts at phase 1 |
| `App.ScreenFor` | App.tsx:142-176 | the splash wins; the dashboard needs a user and a career; the onboarding flow is "new user" exactly when onboarding is incomplete |
| `App.ScreenPrecedence` | App.tsx:147-176 | past the splash, loader and streak notice: sign-in exactly when nobody is signed in, the dashboard exactly when an onboarded user with a career is not adding a career, and onboarding always for a new account |
| `App.Shell.constructor` | App.tsx:39-46 | the shell starts on the splash and the loader with nobody signed in |
| `App.Shell.LoadCareerContext` | App.tsx:91-96 | the saved career and roadmap of that (user, career) pair replace the shown ones when present |
| `App.Shell.Start` | App.tsx:48-89 | a stored current user is restored with the theme defaulted and the streak checked; only a broken streak is saved and announced; the career context then loads |
| `App.Shell.RestorableId` | App.tsx:51-55 | the stored user id when it is non-empty and names a stored user |
| `App.Shell.EndSplash` | App.tsx:49 | the splash timer ends the splash |
| `App.Shell.CloseStreakBroken` | App.tsx:145 | the streak notice closes |
| `App.Shell.HandleLogin` | App.tsx:98-108 | the signed-in user is shown with the theme defaulted, and its career context loads |
| `App.Shell.HandleOnboardingComplete` | App.tsx:110-124 | without a user nothing happens; otherwise the entry is appended and saved, the career saved and shown, and the generated roadmap saved under (user id, career id) |
| `App.Shell.HandleLogout` | App.tsx:126 | the current user id, the user, the career and the roadmap are cleared |
| `App.Shell.HandleAddCareerRequest` | App.tsx:128-132 | the add-career flow starts in the given mode and the shown career is dropped |
| `App.Shell.ChooseAddCareerMode` | App.tsx:156-160 | a chooser button picks the mode |
| `App.Shell.CancelAddCareer` | App.tsx:134-140 | the chooser closes and the previous career context reloads |
| `App.Shell.Render` | App.tsx:173 | the career loader loads the first career; when it was never saved the loader stays |
| `Auth.NewUser` | components/Auth.tsx:26-40 | a new account has no progress, the free plan, the default theme, and the id as display name when none is given |
| `Auth.SignupCheck` | components/Auth.tsx:15-24 | a taken id is refused before empty fields; signup succeeds exactly for a free id with id, password and security key |
| `Auth.LoginCheck` | components/Auth.tsx:47-56 | login succeeds exactly for a stored id with an equal password |
| `Auth.RecoverCheck` | components/Auth.tsx:59-67 | recovery succeeds exactly for a stored id with an equal security key, and yields the stored password |
| `Auth.SignupThenLogin` | components/Auth.tsx:15-67 | an account just signed up never overwrote another; it logs in with its password and recovers it with its key |
| `Auth.SecondSignupRefused` | components/Auth.tsx:17-20 | a second signup with the same id fails whatever it types, so only the first password logs in |
| `Auth.Form.constructor` | components/Auth.tsx:11-13 | the form opens on sign-in, empty, without an error |
| `Auth.Form.Edit` | components/Auth.tsx:96-134 | typing replaces the form data |
| `Auth.Form.HandleSignup` | components/Auth.tsx:15-45 | success stores the account, makes it current and hands it on; failure only sets the error |
| `Auth.Form.HandleLogin` | components/Auth.tsx:47-57 | success makes the stored account current and hands it on; failure sets "Invalid credentials" |
| `Auth.Form.HandleReset` | components/Auth.tsx:59-68 | success reveals the stored password and returns to sign-in; failure sets the error |
| `Auth.Form.SwitchView` | components/Auth.tsx:152-159 | every view switch clears the error |
| `Auth.Form.Submit` | components/Auth.tsx:140 | the submit button runs the handler of the current view |
| `Onboarding.InitialStep` | components/Onboarding.tsx:21 | search mode opens on the selection, the analysis mode on the questions |
| `Onboarding.AnalysisCareers` | components/Onboarding.tsx:54-64 | the analysis results, or the three fixed careers when the call throws |
| `Onboarding.SuggestMore` | components/Onboarding.tsx:89 | the first six of the shown careers followed by the new results |
| `Onboarding.SuggestMoreKeepsShown` | components/Onboarding.tsx:89 | at most six are kept, and shown options are never dropped (the first six when more were shown) |
| `Onboarding.SuggestMoreCompose` | components/Onboarding.tsx:89 | from six or fewer shown careers, suggesting with results `a` and then `b` is suggesting once with `a` followed by `b` |
| `Onboarding.Wizard.constructor` | components/Onboarding.tsx:20-35 | the flow opens on the mode's step with nothing answered, selected or filled in |
| `Onboarding.Wizard.TypeAnswer` | components/Onboarding.tsx:128 | typing replaces the answer input |
| `Onboarding.Wizard.HandleAnswer` | components/Onboarding.tsx:37-49 | a blank answer changes nothing; otherwise it is kept as typed, and after the fifth answer the analysis runs on all five and the selection opens |
| `Onboarding.Wizard.PerformAnalysis` | components/Onboarding.tsx:51-68 | the careers become the results or the fallback, and the selection opens |
| `Onboarding.Wizard.TypeQuery` | components/Onboarding.tsx:186 | typing replaces the search query |
| `Onboarding.Wizard.HandleSearch` | components/Onboarding.tsx:70-81 | a blank query does nothing; results replace the careers; a failed search keeps them |
| `Onboarding.Wizard.HandleSuggestMore` | components/Onboarding.tsx:83-95 | a new analysis of the same answers is appended and cut to six; a failed one keeps the list |
| `Onboarding.Wizard.HandleCareerSelect` | components/Onboarding.tsx:97-100 | the clicked career is selected and the experience step opens |
| `Onboarding.Wizard.ChooseLevel` | components/Onboarding.tsx:275 | the level buttons set the experience level |
| `Onboarding.Wizard.EditDetails` | components/Onboarding.tsx:293-347 | the inputs set the education year, the target date and the focus areas |
| `Onboarding.Wizard.GoTo` | components/Onboarding.tsx:258-315 | the step buttons move between selection, experience and details |
| `Onboarding.Wizard.HandleFinalSubmit` | components/Onboarding.tsx:102-106 | the choice is handed on exactly when a career is selected and both the education year and the target date are filled in |

## Left out

- The progress sentence of the adaptation context ("User has completed N phases…",
  components/Dashboard.tsx:528): prompt text like the rest. `Gemini.AdaptationContext` keeps
  the number N it is written from.
- Rendering, modals, styling and `components/Subscription.tsx`: no logic to model.
- The Gemini prompts, schemas and `JSON.parse` of responses: these are foreign calls. The
  model passes their results in, as a function that may return `[]` or an `Option` that is
  `None` when the call throws.
- The store module itself: it is not part of this model. It is represented by map fields.
  `localStorage.removeItem` is map key removal.
- Date and clock behaviour (`Date.now`, `setHours`, time zones, daylight saving,
  `toISOString` and the `YYYY-MM-DD` round trip): dates are integer day numbers, and the
  current day is a parameter.
- `Dashboard.DaysRemainingIsBudget`: the equality of the days shown and the generator's budget
  rests on dates being day numbers. `getDaysRemaining` parses `YYYY-MM-DD` as UTC midnight
  and then sets local noon (components/Dashboard.tsx:647), whereas `generateRoadmap` builds
  local noon from the date's parts (services/gemini.ts:337-339). West of UTC the dashboard
  therefore shows one day fewer than the budget; the model does not capture that.
- Pacing status (components/Dashboard.tsx:655-670): floating point over millisecond clocks.
- Floating point in the progress percentage: `Js.RoundRatio` rounds the exact ratio. The
  double computation `Math.round((c / t) * 100)` can differ on ties, e.g. 29/200 gives 14.
- JavaScript beyond plain strings and integers:
  - case mapping beyond ASCII;
  - `parseInt` results beyond 2^53;
  - `users[...]` hits on prototype keys such as `constructor`.
- Hostname extraction with `URL` in the news helper: it is the `source` parameter of
  `Gemini.WebItems`. `encodeURIComponent` is the `encode` parameter.
- Asynchronous ordering:
  - state written between an `await` and its continuation;
  - the 1.5 s delay of `handleSwitchCareer`, which is modelled as its completed step;
  - the loading flags `isSummaryLoading`/`isAnalyzing`/`isSearching`, which are modelled
    only at the end of each handler.
- Handlers with no logic of their own, left out because they only set fields or call the
  model:
  - `handleThemeChange`, `handleSubscribe`;
  - the daily-challenge, trivia and news loading effects;
  - `startSimulation`;
  - the chat bot.
- `Auth.Form.Submit`: states only which handler runs and what it leaves untouched; each
  handler's contract states the rest.
- `Dashboard.Controller.ChooseDateStrategyAsWritten`: states the user and the roadmap when the
  career details exist; the dialog flags are those of `HandleAdaptation`.
- `Gemini.WebItems`: its contract bounds the result; the item fields (title, fixed summary,
  url, source, "Recent") are given by its definition.
- The five-item worked example of the duration estimate is not written out:
  `Gemini.DurationAfterCount` states the same rule for every count and unit text.

## Findings

| source | as written | input that shows it | evidently intended | confidence | as-written member | corrected member |
|---|---|---|---|---|---|---|
| components/Dashboard.tsx:1030 | `DateStrategyModal` calls `onAdapt(type)` with one argument, and it is wired straight to `handleAdaptation(type, customTargetDate?)`, so `customTargetDate` is always undefined | edit the deadline of a career stored with day 100 to day 130 and pick "Relax the Pace": the career keeps day 100 and the roadmap is generated for day 100 | the edited `pendingTargetDate` is passed on, stored on the career and used for the new roadmap | not executed | `Dashboard.Controller.ChooseDateStrategyAsWritten`, `Dashboard.EditedDateDiscarded` | `Dashboard.Controller.ChooseDateStrategy`, `Dashboard.EditedDateApplied` |
| services/gemini.ts:317 | `return totalDays \|\| 1` replaces only a total of exactly 0, while a pending item whose duration starts with a negative number subtracts days (the `parseInt(duration) \|\| 1` of lines 302, 305 and 308 keeps -2) | one phase with one pending item of duration "-2 weeks": the estimate is -14 | the minimum of one day the line's comment names, for every roadmap | not executed; the one caller, `handleFinishQuicker`, clamps with `Math.max(0, daysNeeded - 1)` and so sets the same deadline as the corrected estimate | `Gemini.RemainingDays`, `Gemini.NegativeDurationEstimate` | `Gemini.EstimatedDays`, `Gemini.RemainingDaysAtLeastOne`, `Dashboard.FinishOffset` |
