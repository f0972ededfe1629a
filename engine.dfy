/**
 * The match engine of src/components/MatchController.tsx as values: the
 * state held in the component's state slots, one function per command and
 * per timer body, and the derived values. The class in controller.dfy
 * holds the same state in fields and is proved against these functions.
 *
 * Log entries are the entry texts the component writes; the wall-clock
 * prefix it adds to each entry is abstracted away.
 */
module Engine {
  import opened Options
  import opened Constants
  import opened Helpers

  /** The two teams are addressed by index 0 and 1. */
  type TeamIdx = i: int | 0 <= i <= 1

  function Opponent(t: TeamIdx): (o: TeamIdx)
    ensures o != t
  {
    if t == 0 then 1 else 0
  }

  datatype Team = Team(name: string, score: int, timeoutsUsed: int, isBotOut: bool, disqualified: bool)

  /** The timeout sub-clock; `forTeam` is None when no timeout is running. */
  datatype TimeoutState = TimeoutState(running: bool, forTeam: Option<TeamIdx>, elapsed: int)

  /** The stoppage sub-clock; `reason` is None when no stoppage is running. */
  datatype StoppageState = StoppageState(running: bool, reason: Option<string>, elapsed: int)

  datatype MatchState = MatchState(
    phase: Phase,
    halfIndex: int,
    halfRemaining: int,
    teams: seq<Team>,
    timeout: TimeoutState,
    stoppage: StoppageState,
    running: bool,
    log: seq<string>,
    htRemaining: int)

  /** What a successful publication hands to the result callback. */
  datatype MatchResult = MatchResult(teams: seq<Team>, winner: Option<TeamIdx>, log: seq<string>)

  const IdleTimeout: TimeoutState := TimeoutState(false, None, 0)
  const IdleStoppage: StoppageState := StoppageState(false, None, 0)

  function FreshTeam(name: string): Team
  {
    Team(name, 0, 0, false, false)
  }

  /** The state the component starts in, and the one a reset returns to. */
  function Initial(): MatchState
  {
    MatchState(PreMatch, 0, HALF_PLAY_SECONDS, [FreshTeam("Team A"), FreshTeam("Team B")],
               IdleTimeout, IdleStoppage, false, [], HALF_TIME_BREAK_SECONDS)
  }

  // ---------------------------------------------------------------------
  // Invariant of every reachable state
  // ---------------------------------------------------------------------

  /** A score is never negative, a team uses at most one timeout, and only a team that used its timeout can be disqualified. */
  predicate TeamValid(team: Team)
  {
    && team.score >= 0
    && 0 <= team.timeoutsUsed <= 1
    && (team.disqualified ==> team.timeoutsUsed == 1)
  }

  predicate Valid(s: MatchState)
  {
    && |s.teams| == 2
    && TeamValid(s.teams[0]) && TeamValid(s.teams[1])
    && 0 <= s.halfIndex <= 1
    && 0 <= s.halfRemaining <= HALF_PLAY_SECONDS
    && 0 <= s.htRemaining <= HALF_TIME_BREAK_SECONDS
    // the half clock and the phase agree
    && (s.phase == PreMatch ==> s.halfIndex == 0 && s.halfRemaining == HALF_PLAY_SECONDS)
    && (s.phase == FirstHalf ==> s.halfIndex == 0 && s.halfRemaining >= 1)
    && (s.phase == HalfTime ==> s.halfIndex == 0 && s.halfRemaining == 0)
    && (s.phase == SecondHalf ==> s.halfIndex == 1 && s.halfRemaining >= 1)
    && (s.phase == Ended ==> s.halfIndex == 1 && s.halfRemaining == 0)
    // the half-time clock only runs in HALF_TIME
    && (s.phase in {PreMatch, FirstHalf} ==> s.htRemaining == HALF_TIME_BREAK_SECONDS)
    // a running timeout belongs to a team that has used its one timeout and is not disqualified
    && (s.timeout.running ==>
          && s.timeout.forTeam.Some?
          && 0 <= s.timeout.elapsed < TIMEOUT_DQ_THRESHOLD
          && s.teams[s.timeout.forTeam.value].timeoutsUsed == 1
          && !s.teams[s.timeout.forTeam.value].disqualified)
    && (!s.timeout.running ==> s.timeout == IdleTimeout)
    && (s.stoppage.running ==> s.stoppage.reason.Some? && s.stoppage.elapsed >= 0)
    && (!s.stoppage.running ==> s.stoppage == IdleStoppage)
  }

  lemma InitialValid()
    ensures Valid(Initial())
    ensures Initial().phase == PreMatch && !Initial().running && Initial().log == []
    ensures Initial().htRemaining == HALF_TIME_BREAK_SECONDS
  {
  }

  // ---------------------------------------------------------------------
  // Log entry texts
  // ---------------------------------------------------------------------

  /** pushLog: the newest entry goes to the front. */
  function Push(log: seq<string>, entry: string): (r: seq<string>)
    ensures |r| == |log| + 1 && r[0] == entry && r[1..] == log
  {
    [entry] + log
  }

  /** A positive delta is written with an explicit plus sign. */
  function SignedText(delta: int): string
  {
    if delta > 0 then "+" + IntToString(delta) else IntToString(delta)
  }

  function ScoreEntry(name: string, delta: int, reason: string): string
  {
    name + " " + SignedText(delta) + " (" + reason + ")"
  }

  function BotOutEntry(name: string, wasOut: bool): string
  {
    name + " bot " + (if wasOut then "returned" else "declared BOT OUT")
  }

  function TimeoutCalledEntry(name: string): string
  {
    name + " called TIMEOUT"
  }

  function TimeoutEndedEntry(elapsed: int): string
  {
    "Timeout ended at " + Fmt(elapsed)
  }

  /** The label for a stoppage reason; any unknown reason reads as bots stuck. */
  function StoppageLabel(reason: string): string
  {
    if reason == "OUT_OF_BOUNDS" then "Out of Bounds"
    else if reason == "NO_PLAY" then "No Play >10s"
    else "Bots Stuck >10s"
  }

  function StoppageStartedEntry(reason: string): string
  {
    "Stoppage: " + StoppageLabel(reason)
  }

  function StoppageEndedEntry(elapsed: int): string
  {
    "Stoppage ended at " + Fmt(elapsed) + " — Restart from designated spot"
  }

  function TechnicalPointEntry(name: string): string
  {
    "Timeout exceeded 0:" + IntToString(TIMEOUT_TECHNICAL_THRESHOLD) + ". " + name + " awarded +1 technical point."
  }

  function DisqualifiedEntry(elapsed: int, name: string): string
  {
    "Timeout reached " + Fmt(elapsed) + ". " + name + " DISQUALIFIED."
  }

  const MatchStartedEntry := "Match started — First Half"
  const SecondHalfEntry := "Second Half started"
  const FirstHalfEndedEntry := "End of First Half — Half-time interval begins (1:30)"
  const FullTimeEntry := "Full time reached — Match ended"

  // ---------------------------------------------------------------------
  // Scoring and team commands
  // ---------------------------------------------------------------------

  /**
   * adjustScore: the team's score becomes max(0, score + delta); one log
   * entry is written exactly when a reason is given.
   */
  function AdjustScore(s: MatchState, t: TeamIdx, delta: int, reason: string): (r: MatchState)
    requires |s.teams| == 2
    ensures |r.teams| == 2
    ensures r.teams[t].score >= 0
    ensures r.teams[t].score >= s.teams[t].score + delta
    ensures s.teams[t].score + delta >= 0 ==> r.teams[t].score == s.teams[t].score + delta
    ensures s.teams[t].score + delta < 0 ==> r.teams[t].score == 0
    ensures r.teams[t] == s.teams[t].(score := r.teams[t].score)
    ensures r.teams[Opponent(t)] == s.teams[Opponent(t)]
    ensures reason != "" ==> r.log == Push(s.log, ScoreEntry(s.teams[t].name, delta, reason))
    ensures reason == "" ==> r.log == s.log
    ensures r == s.(teams := r.teams, log := r.log)
    ensures Valid(s) ==> Valid(r)
  {
    var team := s.teams[t];
    var newScore := if team.score + delta > 0 then team.score + delta else 0;
    var teams := s.teams[t := team.(score := newScore)];
    assert teams[Opponent(t)] == s.teams[Opponent(t)];
    var log := if reason != "" then Push(s.log, ScoreEntry(team.name, delta, reason)) else s.log;
    s.(teams := teams, log := log)
  }

  const GoalReason := "Goal – ball crossed goal plane"
  const EarlyStartFoulReason := "Early Start Foul"

  /** goal: one point for the team, logged with the goal reason. */
  function Goal(s: MatchState, t: TeamIdx): (r: MatchState)
    requires |s.teams| == 2
    ensures |r.teams| == 2
    ensures s.teams[t].score >= 0 ==> r.teams[t].score == s.teams[t].score + 1
    ensures r.teams[t] == s.teams[t].(score := r.teams[t].score)
    ensures r.teams[Opponent(t)] == s.teams[Opponent(t)]
    ensures r.log == Push(s.log, ScoreEntry(s.teams[t].name, 1, GoalReason))
    ensures r == s.(teams := r.teams, log := r.log)
    ensures Valid(s) ==> Valid(r)
  {
    AdjustScore(s, t, 1, GoalReason)
  }

  /** earlyStartFoul: one point off the team, never below zero, logged. */
  function EarlyStartFoul(s: MatchState, t: TeamIdx): (r: MatchState)
    requires |s.teams| == 2
    ensures |r.teams| == 2
    ensures s.teams[t].score >= 1 ==> r.teams[t].score == s.teams[t].score - 1
    ensures s.teams[t].score <= 1 ==> r.teams[t].score == 0
    ensures r.teams[t] == s.teams[t].(score := r.teams[t].score)
    ensures r.teams[Opponent(t)] == s.teams[Opponent(t)]
    ensures r.log == Push(s.log, ScoreEntry(s.teams[t].name, -1, EarlyStartFoulReason))
    ensures r == s.(teams := r.teams, log := r.log)
    ensures Valid(s) ==> Valid(r)
  {
    AdjustScore(s, t, -1, EarlyStartFoulReason)
  }

  /** toggleBotOut: flips the advisory flag and logs which way it went; nothing else changes. */
  function ToggleBotOut(s: MatchState, t: TeamIdx): (r: MatchState)
    requires |s.teams| == 2
    ensures |r.teams| == 2
    ensures r.teams[t].isBotOut == !s.teams[t].isBotOut
    ensures r.teams[t] == s.teams[t].(isBotOut := r.teams[t].isBotOut)
    ensures r.teams[Opponent(t)] == s.teams[Opponent(t)]
    ensures r.log == Push(s.log, BotOutEntry(s.teams[t].name, s.teams[t].isBotOut))
    ensures r == s.(teams := r.teams, log := r.log)
    ensures Valid(s) ==> Valid(r)
  {
    var team := s.teams[t];
    s.(teams := s.teams[t := team.(isBotOut := !team.isBotOut)],
       log := Push(s.log, BotOutEntry(team.name, team.isBotOut)))
  }

  /** Renaming a team from its name field; no log entry. */
  function Rename(s: MatchState, t: TeamIdx, name: string): (r: MatchState)
    requires |s.teams| == 2
    ensures |r.teams| == 2
    ensures r.teams[t] == s.teams[t].(name := name)
    ensures r.teams[Opponent(t)] == s.teams[Opponent(t)]
    ensures r == s.(teams := r.teams)
    ensures Valid(s) ==> Valid(r)
  {
    s.(teams := s.teams[t := s.teams[t].(name := name)])
  }

  // ---------------------------------------------------------------------
  // Timeout and stoppage commands
  // ---------------------------------------------------------------------

  /**
   * callTimeout: refused while a timeout runs or once the team has used its
   * timeout; otherwise pauses play, starts the timeout for the team and
   * counts it.
   */
  function CallTimeout(s: MatchState, t: TeamIdx): (r: MatchState)
    requires |s.teams| == 2
    ensures |r.teams| == 2
    ensures s.timeout.running || s.teams[t].timeoutsUsed >= 1 ==> r == s
    ensures !s.timeout.running && s.teams[t].timeoutsUsed < 1 ==>
              && !r.running
              && r.timeout == TimeoutState(true, Some(t), 0)
              && r.teams[t] == s.teams[t].(timeoutsUsed := s.teams[t].timeoutsUsed + 1)
              && r.teams[Opponent(t)] == s.teams[Opponent(t)]
              && r.log == Push(s.log, TimeoutCalledEntry(s.teams[t].name))
              && r == s.(running := false, timeout := r.timeout, teams := r.teams, log := r.log)
    ensures Valid(s) ==> Valid(r)
  {
    if s.timeout.running then s
    else if s.teams[t].timeoutsUsed >= 1 then s
    else
      var team := s.teams[t];
      s.(running := false,
         timeout := TimeoutState(true, Some(t), 0),
         teams := s.teams[t := team.(timeoutsUsed := team.timeoutsUsed + 1)],
         log := Push(s.log, TimeoutCalledEntry(team.name)))
  }

  /** endTimeout: only while a timeout runs; logs its length and clears it, without resuming play. */
  function EndTimeout(s: MatchState): (r: MatchState)
    ensures !s.timeout.running ==> r == s
    ensures s.timeout.running ==>
              r == s.(timeout := IdleTimeout, log := Push(s.log, TimeoutEndedEntry(s.timeout.elapsed)))
    ensures Valid(s) ==> Valid(r)
  {
    if !s.timeout.running then s
    else s.(log := Push(s.log, TimeoutEndedEntry(s.timeout.elapsed)), timeout := IdleTimeout)
  }

  /** startStoppage: refused while a stoppage runs; otherwise pauses play and starts it. */
  function StartStoppage(s: MatchState, reason: string): (r: MatchState)
    ensures s.stoppage.running ==> r == s
    ensures !s.stoppage.running ==>
              r == s.(running := false, stoppage := StoppageState(true, Some(reason), 0),
                      log := Push(s.log, StoppageStartedEntry(reason)))
    ensures Valid(s) ==> Valid(r)
  {
    if s.stoppage.running then s
    else s.(running := false,
            stoppage := StoppageState(true, Some(reason), 0),
            log := Push(s.log, StoppageStartedEntry(reason)))
  }

  /** endStoppage: only while a stoppage runs; logs its length and clears it, without resuming play. */
  function EndStoppage(s: MatchState): (r: MatchState)
    ensures !s.stoppage.running ==> r == s
    ensures s.stoppage.running ==>
              r == s.(stoppage := IdleStoppage, log := Push(s.log, StoppageEndedEntry(s.stoppage.elapsed)))
    ensures Valid(s) ==> Valid(r)
  {
    if !s.stoppage.running then s
    else s.(log := Push(s.log, StoppageEndedEntry(s.stoppage.elapsed)), stoppage := IdleStoppage)
  }

  // ---------------------------------------------------------------------
  // Phase commands
  // ---------------------------------------------------------------------

  /** startMatch: only from PRE_MATCH; kicks off the first half with a full, running clock. */
  function StartMatch(s: MatchState): (r: MatchState)
    ensures s.phase != PreMatch ==> r == s
    ensures s.phase == PreMatch ==>
              r == s.(phase := FirstHalf, running := true, halfIndex := 0,
                      halfRemaining := HALF_PLAY_SECONDS, log := Push(s.log, MatchStartedEntry))
    ensures Valid(s) ==> Valid(r)
  {
    if s.phase != PreMatch then s
    else s.(phase := FirstHalf, running := true, halfIndex := 0,
            halfRemaining := HALF_PLAY_SECONDS, log := Push(s.log, MatchStartedEntry))
  }

  /**
   * beginSecondHalf: from any phase (only the user interface restricts it
   * to HALF_TIME), starts the second half with a full, running clock.
   */
  function BeginSecondHalf(s: MatchState): (r: MatchState)
    ensures r == s.(phase := SecondHalf, running := true, halfIndex := 1,
                    halfRemaining := HALF_PLAY_SECONDS, log := Push(s.log, SecondHalfEntry))
    ensures Valid(s) ==> Valid(r)
  {
    s.(phase := SecondHalf, running := true, halfIndex := 1,
       halfRemaining := HALF_PLAY_SECONDS, log := Push(s.log, SecondHalfEntry))
  }

  /** toggleClock: flips `running` in every phase but ENDED; writes no log entry. */
  function ToggleClock(s: MatchState): (r: MatchState)
    ensures s.phase == Ended ==> r == s
    ensures s.phase != Ended ==> r == s.(running := !s.running)
    ensures Valid(s) ==> Valid(r)
  {
    if s.phase == Ended then s else s.(running := !s.running)
  }

  // ---------------------------------------------------------------------
  // Timer bodies, one second each
  // ---------------------------------------------------------------------

  /** handleEndHalf: the first half ends in HALF_TIME, any other in ENDED; the clock stops. */
  function EndHalf(s: MatchState): (r: MatchState)
    ensures !r.running && r.phase == (if s.halfIndex == 0 then HalfTime else Ended)
    ensures r.log == Push(s.log, if s.halfIndex == 0 then FirstHalfEndedEntry else FullTimeEntry)
    ensures r == s.(running := r.running, phase := r.phase, log := r.log)
  {
    if s.halfIndex == 0 then s.(running := false, phase := HalfTime, log := Push(s.log, FirstHalfEndedEntry))
    else s.(running := false, phase := Ended, log := Push(s.log, FullTimeEntry))
  }

  /**
   * The half-clock interval, active only while the clock runs in a half:
   * counts down while more than one second is left; on the last second it
   * zeroes the clock and ends the half.
   */
  function HalfTick(s: MatchState): (r: MatchState)
    ensures !s.running || s.phase !in {FirstHalf, SecondHalf} ==> r == s
    ensures s.running && s.phase in {FirstHalf, SecondHalf} && s.halfRemaining > 1 ==>
              r == s.(halfRemaining := s.halfRemaining - 1)
    ensures s.running && s.phase in {FirstHalf, SecondHalf} && s.halfRemaining <= 1 ==>
              && r.halfRemaining == 0 && !r.running
              && r.phase == (if s.halfIndex == 0 then HalfTime else Ended)
              && r.teams == s.teams && r.timeout == s.timeout && r.stoppage == s.stoppage
              && r.halfIndex == s.halfIndex && r.htRemaining == s.htRemaining
              && r.log == Push(s.log, if s.halfIndex == 0 then FirstHalfEndedEntry else FullTimeEntry)
    ensures Valid(s) ==> Valid(r)
  {
    if !s.running || s.phase !in {FirstHalf, SecondHalf} then s
    else if s.halfRemaining <= 1 then EndHalf(s).(halfRemaining := 0)
    else s.(halfRemaining := s.halfRemaining - 1)
  }

  /** The technical point: the opponent of the calling team gains one point, logged. */
  function AwardTechnicalPoint(s: MatchState, t: TeamIdx): (r: MatchState)
    requires |s.teams| == 2
    ensures |r.teams| == 2
    ensures r.teams[Opponent(t)] == s.teams[Opponent(t)].(score := s.teams[Opponent(t)].score + 1)
    ensures r.teams[t] == s.teams[t]
    ensures r.log == Push(s.log, TechnicalPointEntry(s.teams[Opponent(t)].name))
    ensures r == s.(teams := r.teams, log := r.log)
  {
    var opp := Opponent(t);
    var team := s.teams[opp];
    s.(teams := s.teams[opp := team.(score := team.score + 1)],
       log := Push(s.log, TechnicalPointEntry(team.name)))
  }

  /** Disqualification is a latch: set and logged once, left alone if already set. */
  function Disqualify(s: MatchState, t: TeamIdx, elapsed: int): (r: MatchState)
    requires |s.teams| == 2
    ensures |r.teams| == 2
    ensures s.teams[t].disqualified ==> r == s
    ensures !s.teams[t].disqualified ==>
              && r.teams[t] == s.teams[t].(disqualified := true)
              && r.log == Push(s.log, DisqualifiedEntry(elapsed, s.teams[t].name))
    ensures r.teams[t].disqualified
    ensures r.teams[Opponent(t)] == s.teams[Opponent(t)]
    ensures r == s.(teams := r.teams, log := r.log)
  {
    var team := s.teams[t];
    if team.disqualified then s
    else s.(teams := s.teams[t := team.(disqualified := true)],
            log := Push(s.log, DisqualifiedEntry(elapsed, team.name)))
  }

  /**
   * The timeout interval: the elapsed count advances by one; on reaching
   * exactly the technical threshold the opponent gains a point; on reaching
   * the disqualification threshold the calling team is disqualified (once)
   * and the timeout is cleared.
   */
  function TimeoutTick(s: MatchState): (r: MatchState)
    requires |s.teams| == 2
    ensures |r.teams| == 2
    ensures !s.timeout.running ==> r == s
    ensures s.timeout.running && s.timeout.forTeam.None? ==>
              r == s.(timeout := s.timeout.(elapsed := s.timeout.elapsed + 1))
    ensures s.timeout.running && s.timeout.forTeam.Some? ==>
              var t, e := s.timeout.forTeam.value, s.timeout.elapsed + 1;
              && (e == TIMEOUT_TECHNICAL_THRESHOLD ==>
                    r.teams[Opponent(t)] == s.teams[Opponent(t)].(score := s.teams[Opponent(t)].score + 1))
              && (e != TIMEOUT_TECHNICAL_THRESHOLD ==> r.teams[Opponent(t)] == s.teams[Opponent(t)])
              && (e < TIMEOUT_DQ_THRESHOLD ==>
                    r.teams[t] == s.teams[t] && r.timeout == s.timeout.(elapsed := e))
              && (e >= TIMEOUT_DQ_THRESHOLD ==>
                    r.teams[t] == s.teams[t].(disqualified := true) && r.timeout == IdleTimeout)
              && (e != TIMEOUT_TECHNICAL_THRESHOLD && e < TIMEOUT_DQ_THRESHOLD ==> r.log == s.log)
              && (e == TIMEOUT_TECHNICAL_THRESHOLD ==>
                    r.log == Push(s.log, TechnicalPointEntry(s.teams[Opponent(t)].name)))
              && (e >= TIMEOUT_DQ_THRESHOLD && !s.teams[t].disqualified ==>
                    r.log == Push(s.log, DisqualifiedEntry(e, s.teams[t].name)))
              && (e >= TIMEOUT_DQ_THRESHOLD && s.teams[t].disqualified ==> r.log == s.log)
    ensures r == s.(teams := r.teams, timeout := r.timeout, log := r.log)
    ensures Valid(s) ==> Valid(r)
  {
    if !s.timeout.running then s
    else
      var newElapsed := s.timeout.elapsed + 1;
      match s.timeout.forTeam
      case None => s.(timeout := s.timeout.(elapsed := newElapsed))
      case Some(t) =>
        var s1 := if newElapsed == TIMEOUT_TECHNICAL_THRESHOLD then AwardTechnicalPoint(s, t) else s;
        if newElapsed >= TIMEOUT_DQ_THRESHOLD then Disqualify(s1, t, newElapsed).(timeout := IdleTimeout)
        else s1.(timeout := s.timeout.(elapsed := newElapsed))
  }

  /** The stoppage interval: only counts the elapsed time up. */
  function StoppageTick(s: MatchState): (r: MatchState)
    ensures !s.stoppage.running ==> r == s
    ensures s.stoppage.running ==> r == s.(stoppage := s.stoppage.(elapsed := s.stoppage.elapsed + 1))
    ensures Valid(s) ==> Valid(r)
  {
    if !s.stoppage.running then s
    else s.(stoppage := s.stoppage.(elapsed := s.stoppage.elapsed + 1))
  }

  /** The half-time interval: counts the break down in HALF_TIME, stopping at zero. */
  function HalfTimeTick(s: MatchState): (r: MatchState)
    ensures s.phase != HalfTime || s.htRemaining <= 0 ==> r == s
    ensures s.phase == HalfTime && s.htRemaining > 0 ==> r == s.(htRemaining := s.htRemaining - 1)
    ensures Valid(s) ==> Valid(r)
  {
    if s.phase != HalfTime || s.htRemaining <= 0 then s
    else s.(htRemaining := s.htRemaining - 1)
  }

  // ---------------------------------------------------------------------
  // Derived values
  // ---------------------------------------------------------------------

  /** Seconds of play so far: full halves behind plus the part of this half used up. */
  function TotalPlayed(s: MatchState): (played: int)
    ensures Valid(s) ==> 0 <= played <= HALVES * HALF_PLAY_SECONDS
    ensures Valid(s) && s.phase == PreMatch ==> played == 0
    ensures Valid(s) && s.phase == HalfTime ==> played == HALF_PLAY_SECONDS
    ensures Valid(s) && s.phase == Ended ==> played == HALVES * HALF_PLAY_SECONDS
    ensures Valid(s) && s.phase in {FirstHalf, SecondHalf} ==>
              s.halfIndex * HALF_PLAY_SECONDS <= played < (s.halfIndex + 1) * HALF_PLAY_SECONDS
  {
    s.halfIndex * HALF_PLAY_SECONDS + (HALF_PLAY_SECONDS - s.halfRemaining)
  }

  /** Seconds of play still to come; with TotalPlayed it always makes up the full match. */
  function TotalRemaining(s: MatchState): (remaining: int)
    ensures TotalPlayed(s) + remaining == 180
    ensures Valid(s) ==> 0 <= remaining <= 180
    ensures Valid(s) ==> (remaining == 0 <==> s.phase == Ended)
  {
    HALVES * HALF_PLAY_SECONDS - TotalPlayed(s)
  }

  /**
   * The winner once the match has ended: a team whose opponent alone is
   * disqualified wins regardless of score; otherwise the higher score wins
   * and equal scores give no winner.
   */
  function Winner(s: MatchState): (w: Option<TeamIdx>)
    requires |s.teams| == 2
    ensures s.phase != Ended ==> w == None
    ensures s.phase == Ended && s.teams[0].disqualified != s.teams[1].disqualified ==>
              w == Some(if s.teams[0].disqualified then 1 else 0)
    ensures s.phase == Ended && s.teams[0].disqualified == s.teams[1].disqualified ==>
              && (w == Some(0) <==> s.teams[0].score > s.teams[1].score)
              && (w == Some(1) <==> s.teams[1].score > s.teams[0].score)
              && (w == None <==> s.teams[0].score == s.teams[1].score)
  {
    if s.phase != Ended then None
    else if s.teams[0].disqualified && !s.teams[1].disqualified then Some(1)
    else if s.teams[1].disqualified && !s.teams[0].disqualified then Some(0)
    else if s.teams[0].score > s.teams[1].score then Some(0)
    else if s.teams[1].score > s.teams[0].score then Some(1)
    else None
  }

  /**
   * The half clock's start/pause control is disabled during a timeout, a
   * stoppage, half-time and after the end.
   */
  function ClockDisabled(s: MatchState): (disabled: bool)
    ensures !disabled ==> !s.timeout.running && !s.stoppage.running
    ensures !disabled ==> s.phase in {PreMatch, FirstHalf, SecondHalf}
    ensures s.phase in {HalfTime, Ended} ==> disabled
    ensures !s.timeout.running && !s.stoppage.running && s.phase in {PreMatch, FirstHalf, SecondHalf} ==> !disabled
  {
    s.timeout.running || s.stoppage.running || s.phase == HalfTime || s.phase == Ended
  }

  /** handlePublish: a result only once the match has ended; publishing changes no state. */
  function Publish(s: MatchState): (r: Option<MatchResult>)
    requires |s.teams| == 2
    ensures r.Some? <==> s.phase == Ended
    ensures r.Some? ==> r.value.teams == s.teams && r.value.log == s.log && r.value.winner == Winner(s)
  {
    if s.phase != Ended then None else Some(MatchResult(s.teams, Winner(s), s.log))
  }
}
