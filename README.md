# Robot-soccer match engine, in Dafny

This project models the officiating engine of a live console for a timed,
two-half robot-soccer match. The engine sits in `MatchController`. It keeps:

- the match phase (PRE_MATCH, FIRST_HALF, HALF_TIME, SECOND_HALF, ENDED);
- the half clock (`halfRemaining`, `halfIndex`, `running`) and the half-time clock (`htRemaining`);
- two team records (name, score, timeouts used, bot-out flag, disqualified flag);
- a timeout sub-clock that escalates: a technical point for the opponent at 45 s, and disqualification of the calling team at 90 s;
- a stoppage sub-clock, which does not escalate;
- a newest-first event log.

From this state it derives the winner, the seconds played and remaining, and
whether the clock control is disabled. The model also covers the `m:ss`
duration formatter and the phase and timing constants.

Modules:

- `Constants` (constants.dfy): the `Phase` enumeration, its string names, its forward order, and the timing constants.
- `Helpers` (helpers.dfy): `fmt`, written with the JavaScript pieces it relies on (`Math.floor`, the truncating `%`, `String`, `padStart`). It also has a reader for `m:ss` text, which is used to state the round trip.
- `Engine` (engine.dfy): the engine state as one value. It has one function per command and per timer body, the derived values, and the invariant `Valid` that every reachable state keeps. Each function's contract states what the command does and that it preserves `Valid`.
- `Properties` (properties.dfy): `Command` covers every command and one second of each of the four timers. `Run` applies any sequence of them, in any interleaving. Lemmas cover the invariant, the disqualification latch and the phase order, and give the timeline of a timeout, of a half, and of a full match.
- `Controller` (controller.dfy): the component as a class. Its fields are the component's state slots. Its methods update them in place, and each method is proved to reach exactly the state the matching `Engine` function gives.

Each `setInterval` body is one tick method, meaning one second of that timer.
A log entry is the text the component writes, without the wall-clock prefix
it adds.

The model follows the code where it is more permissive than one might expect:

- `adjustScore` logs whenever the reason is non-empty, even when the delta is zero.
- The technical point fires only when the elapsed time is exactly 45.
- `beginSecondHalf` has no phase guard. Only the user interface limits it to HALF_TIME.
- `toggleClock` refuses only in ENDED.
- `htRemaining` goes back to 90 only on reset, not on entering HALF_TIME.
- A timeout and a stoppage can run at the same time.

## Model

| member | source | states |
|---|---|---|
| Constants.PhaseName | src/utils/constants.ts:1-7 | no contract of its own: the string value of each phase, as written; Constants.ParsePhase, PhaseNameRoundTrip and PhaseNamesDistinct state what it satisfies |
| Constants.ParsePhase | src/utils/constants.ts:1-9 | a string is a `PhaseType` exactly when it is one of the five phase names, and it reads back as the phase with that name |
| Constants.PhaseNameRoundTrip | src/utils/constants.ts:1-7 | every phase's name reads back as that phase |
| Constants.PhaseNamesDistinct | src/utils/constants.ts:1-7 | the five phase names are pairwise distinct |
| Constants.Rank | src/utils/constants.ts:1-7 | ranks lie below 5; PRE_MATCH alone has rank 0 and ENDED alone rank 4 (the order in between is Constants.PhaseOrder) |
| Constants.PhaseOrder | src/utils/constants.ts:1-7 | the ranks follow the match order: PRE_MATCH < FIRST_HALF < HALF_TIME < SECOND_HALF < ENDED |
| Constants.MatchLength | src/utils/constants.ts:11-12 | a match is HALVES × HALF_PLAY_SECONDS = 180 seconds (each half is 90 s, not the 3 minutes the comment says) |
| Constants.ThresholdOrder | src/utils/constants.ts:14-16 | allowed (30) < technical threshold (45) < disqualification threshold (90), so the technical point comes first |
| Helpers.NatToString | src/utils/helpers.ts:11 | `String(n)` of a natural is a non-empty digit string; it is one digit exactly when n < 10, and at most two when n < 100 |
| Helpers.NatToStringRoundTrip | src/utils/helpers.ts:11 | reading back the decimal text of n gives n |
| Helpers.IntToString | src/utils/helpers.ts:11 | no contract of its own: `String(i)` of a whole number, a minus sign before the digits of a negative one; its digits are Helpers.NatToString's |
| Helpers.JsRemainder | src/utils/helpers.ts:10 | JavaScript `%` is the dividend minus b times the quotient rounded toward zero; it takes the sign of the dividend, lies strictly between -b and b, and agrees with the mathematical remainder for non-negative operands |
| Helpers.PadStart | src/utils/helpers.ts:11 | `padStart` gives the larger of the input length and the width, and never truncates a string that is already long enough |
| Helpers.PadStartContents | src/utils/helpers.ts:11 | `padStart` pads on the left: the input is the tail of the result and every character before it is the fill |
| Helpers.Fmt | src/utils/helpers.ts:8-12 | no contract of its own: `fmt` as written, with Dafny's `/` for `Math.floor`, JsRemainder for `%`, IntToString for `String` and PadStart; Helpers.FmtOfNat, FmtShape, FmtRoundTrip, FmtInjective and FmtExamples state its behaviour |
| Helpers.FmtOfNat | src/utils/helpers.ts:8-12 | for n ≥ 0, `fmt(n)` is the quotient of n by 60, a colon, and the remainder padded to two characters |
| Helpers.FmtShape | src/utils/helpers.ts:8-12 | for n ≥ 0 the output is the unpadded minutes, ':' and exactly two digits whose value is n mod 60 < 60 |
| Helpers.FmtRoundTrip | src/utils/helpers.ts:9-11 | reading minutes m and seconds s back out of `fmt(n)` gives (n div 60, n mod 60), so m×60 + s = n |
| Helpers.FmtInjective | src/utils/helpers.ts:8-12 | distinct naturals format to distinct strings |
| Helpers.FmtExamples | src/utils/helpers.ts:8-12 | fmt(90) = "1:30", fmt(5) = "0:05", fmt(0) = "0:00", fmt(600) = "10:00" (minutes unpadded), fmt(-5) = "-1:-5" |
| Engine.Opponent | src/components/MatchController.tsx:222 | the opponent of a team is the other index |
| Engine.Initial | src/components/MatchController.tsx:31-42 | no contract of its own: the initial slot values, also the values resetMatch writes (lines 153-166); Engine.InitialValid states their properties |
| Engine.InitialValid | src/components/MatchController.tsx:31-42 | the initial state (also the reset state) satisfies the invariant: PRE_MATCH, clock stopped, empty log, half-time clock at HALF_TIME_BREAK_SECONDS |
| Engine.Push | src/components/MatchController.tsx:45-47 | a log entry is put in front of the earlier log, which is kept unchanged |
| Engine.ScoreEntry | src/components/MatchController.tsx:58 | no contract of its own: the score entry text, the delta written with a leading "+" when positive |
| Engine.BotOutEntry | src/components/MatchController.tsx:76 | no contract of its own: the bot-out entry text, "returned" or "declared BOT OUT" by the flag's previous value |
| Engine.TimeoutCalledEntry | src/components/MatchController.tsx:89 | no contract of its own: the timeout-called entry text |
| Engine.TimeoutEndedEntry | src/components/MatchController.tsx:94 | no contract of its own: the timeout-ended entry text with fmt of the elapsed seconds |
| Engine.StoppageLabel | src/components/MatchController.tsx:102-107 | no contract of its own: OUT_OF_BOUNDS and NO_PLAY have their own labels, and any other reason reads as bots stuck |
| Engine.StoppageStartedEntry | src/components/MatchController.tsx:108 | no contract of its own: the stoppage entry text with the label |
| Engine.StoppageEndedEntry | src/components/MatchController.tsx:113 | no contract of its own: the stoppage-ended entry text with fmt of the elapsed seconds |
| Engine.TechnicalPointEntry | src/components/MatchController.tsx:224 | no contract of its own: the technical-point entry text, naming the threshold 45 and the opponent |
| Engine.DisqualifiedEntry | src/components/MatchController.tsx:234 | no contract of its own: the disqualification entry text with fmt of the new elapsed seconds |
| Engine.AdjustScore | src/components/MatchController.tsx:50-60 | score becomes max(0, old + delta), so it is never negative; the team's other fields and the other team are unchanged; exactly one log entry is added when the reason is non-empty, and none otherwise; no other field changes; the invariant is kept |
| Engine.Goal | src/components/MatchController.tsx:62-64 | a non-negative score goes up by exactly one; the team's other fields and the opponent are unchanged; the log gains exactly the goal entry; no other field changes; the invariant is kept |
| Engine.EarlyStartFoul | src/components/MatchController.tsx:66-68 | the score drops by one but never below zero; the team's other fields and the opponent are unchanged; the log gains exactly the foul entry; no other field changes; the invariant is kept |
| Engine.ToggleBotOut | src/components/MatchController.tsx:70-77 | flips only the bot-out flag; logs "returned" or "declared BOT OUT" according to the previous flag; score, clock and phase are unchanged |
| Engine.Rename | src/components/MatchController.tsx:269 | only the team's name changes; nothing is logged |
| Engine.CallTimeout | src/components/MatchController.tsx:79-90 | no-op while a timeout runs or once the team has used its timeout; otherwise stops the clock, starts the timeout (running, for this team, elapsed 0), counts it, and logs it |
| Engine.EndTimeout | src/components/MatchController.tsx:92-96 | no-op unless a timeout runs; otherwise logs the elapsed time and clears the timeout to (false, null, 0); `running` is not touched |
| Engine.StartStoppage | src/components/MatchController.tsx:98-109 | no-op while a stoppage runs; otherwise stops the clock, sets the stoppage to (true, reason, 0), and logs its label |
| Engine.EndStoppage | src/components/MatchController.tsx:111-115 | no-op unless a stoppage runs; otherwise logs the elapsed time and clears the stoppage; `running` is not touched |
| Engine.StartMatch | src/components/MatchController.tsx:131-138 | acts only in PRE_MATCH: FIRST_HALF, half index 0, 90 s on the clock, clock running, one log entry |
| Engine.BeginSecondHalf | src/components/MatchController.tsx:140-146 | from any phase: SECOND_HALF, half index 1, 90 s on the clock, clock running, one log entry |
| Engine.ToggleClock | src/components/MatchController.tsx:148-151 | flips `running` in every phase except ENDED, where it is a no-op; nothing else changes |
| Engine.EndHalf | src/components/MatchController.tsx:117-129 | the clock stops; the phase becomes HALF_TIME after half index 0 and ENDED otherwise, with the matching entry pushed; nothing else changes |
| Engine.HalfTick | src/components/MatchController.tsx:197-210 | acts only while the clock runs in a half; counts down while more than 1 s is left; at ≤ 1 s it zeroes the clock, stops it, and moves to HALF_TIME (half index 0) or ENDED (half index 1), pushing the end-of-half or full-time entry |
| Engine.AwardTechnicalPoint | src/components/MatchController.tsx:219-227 | the opponent of the calling team gains exactly one point, logged; the calling team is unchanged |
| Engine.Disqualify | src/components/MatchController.tsx:229-237 | a latch: sets and logs the flag only if it was not already set; the team ends disqualified; the opponent is unchanged |
| Engine.TimeoutTick | src/components/MatchController.tsx:212-245 | with new elapsed e = elapsed + 1: at e = 45 the opponent gains exactly one point; below 90 the calling team is unchanged and the elapsed time advances; at e ≥ 90 the calling team is disqualified and the timeout is cleared; the log gains the technical-point entry at e = 45, the disqualification entry on the first disqualification, and nothing otherwise; only teams, timeout and log change; the invariant is kept |
| Engine.StoppageTick | src/components/MatchController.tsx:247-251 | a running stoppage's elapsed time goes up by one; nothing else changes and there is no escalation |
| Engine.HalfTimeTick | src/components/MatchController.tsx:253-258 | in HALF_TIME with time left, the break clock goes down by one; otherwise no-op, so it never goes below zero |
| Engine.TotalPlayed | src/components/MatchController.tsx:169-171 | between 0 and 180; 0 in PRE_MATCH, 90 at HALF_TIME, 180 at ENDED, and inside the current half while a half is played |
| Engine.TotalRemaining | src/components/MatchController.tsx:173 | played + remaining = 180; remaining lies in 0..180 and is 0 exactly when the match has ended |
| Engine.Winner | src/components/MatchController.tsx:175-182 | no winner before ENDED; if exactly one team is disqualified the other wins whatever the score; otherwise the higher score wins, and a tie has no winner (each case in both directions) |
| Engine.ClockDisabled | src/components/MatchController.tsx:194 | the clock control is enabled exactly when no timeout and no stoppage runs and the phase is PRE_MATCH, FIRST_HALF or SECOND_HALF; it is always disabled at HALF_TIME and ENDED |
| Engine.Publish | src/components/MatchController.tsx:184-192 | a result exactly when the phase is ENDED, holding the current teams, winner and log |
| Properties.Apply | src/components/MatchController.tsx:49-258 | every command and every timer second keeps the invariant |
| Properties.RunPreservesValid | src/components/MatchController.tsx:49-258 | every state reachable from a valid state is valid |
| Properties.ReachableBounds | src/components/MatchController.tsx:53 | from the initial state, under any sequence of commands and ticks, every score is ≥ 0 and every team's timeouts used is 0 or 1 |
| Properties.DisqualificationKept | src/components/MatchController.tsx:232-235 | no single step other than reset clears a disqualification |
| Properties.DisqualificationLatched | src/components/MatchController.tsx:229-237 | along any run without a reset, a disqualified team stays disqualified |
| Properties.DisqualificationOnlyByTimeout | src/components/MatchController.tsx:229-238 | a team becomes disqualified only through its own timeout's timer second that reaches 90 |
| Properties.PhaseStep | src/components/MatchController.tsx:131-146 | with the second half begun only from HALF_TIME, each step other than reset keeps the phase or moves it exactly one step forward |
| Properties.PhaseNeverRegresses | src/components/MatchController.tsx:131-146 | along such a run the phase never moves backward |
| Properties.BeginSecondHalfUnguarded | src/components/MatchController.tsx:140-146 | the engine itself lets beginSecondHalf take an ENDED match back to a running SECOND_HALF |
| Properties.TimeoutTimeline | src/components/MatchController.tsx:212-245 | k seconds into a running timeout (up to 90): the opponent has exactly one extra point once 45 has been passed; the calling team is untouched before 90; at 90 it is disqualified and the timeout is idle; nothing else but the log changes |
| Properties.IdleTimeoutTicks | src/components/MatchController.tsx:213-216 | with no timeout running, the timeout timer changes nothing |
| Properties.TimeoutEscalation | src/components/MatchController.tsx:212-245 | after 90 or more seconds of a fresh timeout, the opponent has gained exactly one point and the caller is disqualified exactly once, however many more ticks come |
| Properties.HalfTickPlaysOneSecond | src/components/MatchController.tsx:201-206 | one tick of a running half adds exactly one second to the time played, whether the half goes on or ends; a stopped clock adds none |
| Properties.HalfCountdown | src/components/MatchController.tsx:197-210 | a running half counts down one second per tick and ends after exactly `halfRemaining` ticks, in HALF_TIME or ENDED, with the clock stopped |
| Properties.FullMatch | src/components/MatchController.tsx:131-210 | an uninterrupted match goes PRE_MATCH → FIRST_HALF → HALF_TIME → SECOND_HALF → ENDED; 180 s are played, 0 remain, and the teams are unchanged |
| Properties.AdjustScoreUndo | src/components/MatchController.tsx:50-56 | on a non-negative score, an adjustment by d ≥ 0 is undone by one of -d |
| Properties.FoulOnZeroNotUndone | src/components/MatchController.tsx:53 | because of the clamp at zero, an early-start foul on a scoreless team followed by a goal leaves it at 1, not 0 |
| Properties.ToggleClockTwice | src/components/MatchController.tsx:148-151 | outside ENDED, toggling the clock twice gives back the same state |
| Properties.ToggleBotOutTwice | src/components/MatchController.tsx:70-77 | toggling bot-out twice restores both teams, and the log keeps both entries |
| Properties.OneTimeoutPerTeam | src/components/MatchController.tsx:79-96 | after a team calls and ends its timeout the clock is stopped, no timeout runs, its count is 1, and a second call changes nothing |
| Properties.PausesNeverResume | src/components/MatchController.tsx:79-115 | no timeout or stoppage command sets the clock running; an accepted call or start leaves the clock stopped and its control disabled |
| Properties.TimeoutAndStoppageTogether | src/components/MatchController.tsx:79-109 | neither sub-machine checks the other: a stoppage can start during a timeout, and both then run |
| Properties.WinnerNotSolelyDisqualified | src/components/MatchController.tsx:175-182 | a winner exists only at ENDED, and it is never a team that alone is disqualified |
| Properties.WinnerExamples | src/components/MatchController.tsx:175-182 | 3–2 without disqualification gives team 0; 2–2 gives none; team 0 alone disqualified gives team 1 |
| Controller.MatchController.constructor | src/components/MatchController.tsx:31-42 | the fields start in the initial state |
| Controller.MatchController.PushLog | src/components/MatchController.tsx:45-47 | prepends one entry to the log |
| Controller.MatchController.AdjustScore | src/components/MatchController.tsx:50-60 | updates the fields in place exactly as Engine.AdjustScore, keeping the invariant |
| Controller.MatchController.Goal | src/components/MatchController.tsx:62-64 | as Engine.Goal |
| Controller.MatchController.EarlyStartFoul | src/components/MatchController.tsx:66-68 | as Engine.EarlyStartFoul |
| Controller.MatchController.ToggleBotOut | src/components/MatchController.tsx:70-77 | as Engine.ToggleBotOut |
| Controller.MatchController.Rename | src/components/MatchController.tsx:282 | as Engine.Rename |
| Controller.MatchController.CallTimeout | src/components/MatchController.tsx:79-90 | as Engine.CallTimeout |
| Controller.MatchController.EndTimeout | src/components/MatchController.tsx:92-96 | as Engine.EndTimeout |
| Controller.MatchController.StartStoppage | src/components/MatchController.tsx:98-109 | as Engine.StartStoppage |
| Controller.MatchController.EndStoppage | src/components/MatchController.tsx:111-115 | as Engine.EndStoppage |
| Controller.MatchController.StartMatch | src/components/MatchController.tsx:131-138 | as Engine.StartMatch |
| Controller.MatchController.BeginSecondHalf | src/components/MatchController.tsx:140-146 | as Engine.BeginSecondHalf |
| Controller.MatchController.ToggleClock | src/components/MatchController.tsx:148-151 | as Engine.ToggleClock |
| Controller.MatchController.ResetMatch | src/components/MatchController.tsx:153-166 | every field returns to its initial value, including the disqualified flags, the log and the half-time clock (90) |
| Controller.MatchController.EndHalf | src/components/MatchController.tsx:117-129 | stops the clock and moves to HALF_TIME after the first half or to ENDED otherwise, with one log entry |
| Controller.MatchController.HalfTick | src/components/MatchController.tsx:197-210 | as Engine.HalfTick |
| Controller.MatchController.TimeoutTick | src/components/MatchController.tsx:212-245 | as Engine.TimeoutTick |
| Controller.MatchController.StoppageTick | src/components/MatchController.tsx:247-251 | as Engine.StoppageTick |
| Controller.MatchController.HalfTimeTick | src/components/MatchController.tsx:253-258 | as Engine.HalfTimeTick |
| Controller.MatchController.Publish | src/components/MatchController.tsx:184-192 | returns the teams, winner and log exactly when the phase is ENDED, and nothing otherwise; it changes no field |

## Left out

- Wall-clock timestamps: the locale-formatted time that `pushLog` puts before each entry is not modelled. Log entries hold only the entry text.
- Timer scheduling: each interval body is one tick method. The model does not cover real time, interval lifetimes, or a tick missed or doubled by the scheduler. `Run` covers any interleaving of the four timers.
- React plumbing is not modelled: batching of state updates, dependency arrays, stale closures, and updater functions run twice in development mode. Commands and ticks run one at a time on the current state.
- `alert("End the match first.")` and the `onPublishResult` callback are foreign side effects. `Publish` returns the result it would hand over, or nothing. A component mounted without a callback is not modelled. The `console.log` consumer in src/pages/Index.tsx is not part of this model.
- `cx` in src/utils/helpers.ts wraps `clsx` and `tailwind-merge`, which are not part of this model.
- The presentational components are not modelled: ClockPanel, TeamCard, StoppagePanel, MatchLog and Header. Their button-disabled conditions are user-interface gating. The one gate used here is `OfferedByInterface`, which says "Start 2nd Half" is offered only in HALF_TIME. It is the assumption under which the phase order holds.
- Scores, timeout counts and clocks are whole numbers (`int`). Non-integral or NaN values, and the `|| 0` fallback for a missing score, cannot arise from the commands and are not modelled.
- Team indices are 0 or 1, by type. The interface never passes another index. The score, bot-out and timeout commands would throw on one, reading a field of a missing team. Renaming with any other index does not throw: it writes a new entry into the team array, for example a third team. That case is not modelled.
- `fmt` is modelled on integers only. Every call site passes a whole number of seconds.
- TIMEOUT_ALLOWED_SECONDS (30) is declared but never read by the engine. Only its order with the other thresholds is stated.
