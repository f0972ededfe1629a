/**
 * Properties of the match engine over sequences of commands and timer
 * seconds: the invariant every reachable state keeps, the disqualification
 * latch, the forward phase order, and the timelines of a timeout and of a
 * half.
 */
module Properties {
  import opened Options
  import opened Constants
  import E = Engine

  /**
   * Everything that can change the match: the command interface and one
   * second of each of the four timers, in any interleaving.
   */
  datatype Command =
    | AdjustScore(t: E.TeamIdx, delta: int, reason: string)
    | Goal(t: E.TeamIdx)
    | EarlyStartFoul(t: E.TeamIdx)
    | ToggleBotOut(t: E.TeamIdx)
    | Rename(t: E.TeamIdx, name: string)
    | CallTimeout(t: E.TeamIdx)
    | EndTimeout
    | StartStoppage(reason: string)
    | EndStoppage
    | StartMatch
    | BeginSecondHalf
    | ToggleClock
    | ResetMatch
    | HalfTick
    | TimeoutTick
    | StoppageTick
    | HalfTimeTick

  function Apply(s: E.MatchState, c: Command): (r: E.MatchState)
    requires |s.teams| == 2
    ensures |r.teams| == 2
    ensures E.Valid(s) ==> E.Valid(r)
  {
    match c
    case AdjustScore(t, delta, reason) => E.AdjustScore(s, t, delta, reason)
    case Goal(t) => E.Goal(s, t)
    case EarlyStartFoul(t) => E.EarlyStartFoul(s, t)
    case ToggleBotOut(t) => E.ToggleBotOut(s, t)
    case Rename(t, name) => E.Rename(s, t, name)
    case CallTimeout(t) => E.CallTimeout(s, t)
    case EndTimeout => E.EndTimeout(s)
    case StartStoppage(reason) => E.StartStoppage(s, reason)
    case EndStoppage => E.EndStoppage(s)
    case StartMatch => E.StartMatch(s)
    case BeginSecondHalf => E.BeginSecondHalf(s)
    case ToggleClock => E.ToggleClock(s)
    case ResetMatch => E.Initial()
    case HalfTick => E.HalfTick(s)
    case TimeoutTick => E.TimeoutTick(s)
    case StoppageTick => E.StoppageTick(s)
    case HalfTimeTick => E.HalfTimeTick(s)
  }

  function Run(s: E.MatchState, cmds: seq<Command>): (r: E.MatchState)
    requires |s.teams| == 2
    ensures |r.teams| == 2
    decreases |cmds|
  {
    if cmds == [] then s else Run(Apply(s, cmds[0]), cmds[1..])
  }

  // ---------------------------------------------------------------------
  // The invariant
  // ---------------------------------------------------------------------

  /** Every state reachable from a valid one is valid. */
  lemma {:induction false} RunPreservesValid(s: E.MatchState, cmds: seq<Command>)
    requires E.Valid(s)
    ensures E.Valid(Run(s, cmds))
    decreases |cmds|
  {
    if cmds != [] {
      RunPreservesValid(Apply(s, cmds[0]), cmds[1..]);
    }
  }

  /**
   * From the initial state, whatever happens, no score is negative and no
   * team has used more than one timeout.
   */
  lemma ReachableBounds(cmds: seq<Command>, i: E.TeamIdx)
    ensures var r := Run(E.Initial(), cmds);
            r.teams[i].score >= 0 && 0 <= r.teams[i].timeoutsUsed <= 1
  {
    E.InitialValid();
    RunPreservesValid(E.Initial(), cmds);
  }

  // ---------------------------------------------------------------------
  // Disqualification latch
  // ---------------------------------------------------------------------

  /** One step other than reset never clears a disqualification. */
  lemma DisqualificationKept(s: E.MatchState, c: Command, i: E.TeamIdx)
    requires E.Valid(s) && !c.ResetMatch?
    requires s.teams[i].disqualified
    ensures Apply(s, c).teams[i].disqualified
  {
    if c.TimeoutTick? && s.timeout.running {
      var t := s.timeout.forTeam.value;
      if i != t {
        assert i == E.Opponent(t);
      }
    }
  }

  /** A disqualification stays set along any run without a reset. */
  lemma {:induction false} DisqualificationLatched(s: E.MatchState, cmds: seq<Command>, i: E.TeamIdx)
    requires E.Valid(s)
    requires forall k :: 0 <= k < |cmds| ==> !cmds[k].ResetMatch?
    requires s.teams[i].disqualified
    ensures Run(s, cmds).teams[i].disqualified
    decreases |cmds|
  {
    if cmds != [] {
      DisqualificationKept(s, cmds[0], i);
      DisqualificationLatched(Apply(s, cmds[0]), cmds[1..], i);
    }
  }

  /** Only the timeout timer, at the disqualification threshold, can disqualify a team. */
  lemma DisqualificationOnlyByTimeout(s: E.MatchState, c: Command, i: E.TeamIdx)
    requires E.Valid(s) && !c.ResetMatch?
    requires !s.teams[i].disqualified && Apply(s, c).teams[i].disqualified
    ensures c.TimeoutTick? && s.timeout.forTeam == Some(i)
    ensures s.timeout.elapsed + 1 == TIMEOUT_DQ_THRESHOLD
  {
  }

  // ---------------------------------------------------------------------
  // Phase order
  // ---------------------------------------------------------------------

  /** The user interface offers "Start 2nd Half" only during half-time. */
  predicate OfferedByInterface(s: E.MatchState, c: Command)
  {
    c.BeginSecondHalf? ==> s.phase == HalfTime
  }

  /**
   * Each step other than reset keeps the phase or moves it exactly one step
   * forward, provided the second half is begun only from half-time.
   */
  lemma PhaseStep(s: E.MatchState, c: Command)
    requires E.Valid(s) && !c.ResetMatch? && OfferedByInterface(s, c)
    ensures Rank(Apply(s, c).phase) == Rank(s.phase) || Rank(Apply(s, c).phase) == Rank(s.phase) + 1
  {
  }

  /** The phase moves one way only along such a run. */
  lemma {:induction false} PhaseNeverRegresses(s: E.MatchState, cmds: seq<Command>)
    requires E.Valid(s)
    requires forall k :: 0 <= k < |cmds| ==> !cmds[k].ResetMatch?
    requires forall k :: 0 <= k < |cmds| ==> OfferedByInterface(Run(s, cmds[..k]), cmds[k])
    ensures Rank(Run(s, cmds).phase) >= Rank(s.phase)
    decreases |cmds|
  {
    if cmds != [] {
      assert cmds[..0] == [];
      PhaseStep(s, cmds[0]);
      var s1 := Apply(s, cmds[0]);
      forall k | 0 <= k < |cmds[1..]|
        ensures OfferedByInterface(Run(s1, cmds[1..][..k]), cmds[1..][k])
      {
        assert cmds[..k + 1] == [cmds[0]] + cmds[1..][..k];
        assert Run(s, cmds[..k + 1]) == Run(s1, cmds[1..][..k]);
      }
      PhaseNeverRegresses(s1, cmds[1..]);
    }
  }

  /** The engine itself does not guard beginSecondHalf: from ENDED it goes back to SECOND_HALF. */
  lemma BeginSecondHalfUnguarded(s: E.MatchState)
    requires E.Valid(s) && s.phase == Ended
    ensures Rank(Apply(s, BeginSecondHalf).phase) < Rank(s.phase)
    ensures Apply(s, BeginSecondHalf).running
  {
  }

  // ---------------------------------------------------------------------
  // Timeout timeline
  // ---------------------------------------------------------------------

  /** k seconds of the timeout timer. */
  function TimeoutTicks(s: E.MatchState, k: nat): (r: E.MatchState)
    requires |s.teams| == 2
    ensures |r.teams| == 2
    decreases k
  {
    if k == 0 then s else TimeoutTicks(E.TimeoutTick(s), k - 1)
  }

  /**
   * k seconds into a running timeout, up to the disqualification threshold:
   * the opponent has gained exactly one point if the count passed 45, the
   * calling team is untouched until 90, at 90 it is disqualified and the
   * timeout is over; nothing but teams, timeout and log changes.
   */
  lemma {:induction false} TimeoutTimeline(s: E.MatchState, k: nat)
    requires E.Valid(s) && s.timeout.running
    requires s.timeout.elapsed + k <= TIMEOUT_DQ_THRESHOLD
    ensures var t, e, r := s.timeout.forTeam.value, s.timeout.elapsed, TimeoutTicks(s, k);
            var bonus := if e < TIMEOUT_TECHNICAL_THRESHOLD <= e + k then 1 else 0;
            && E.Valid(r)
            && r.teams[E.Opponent(t)] == s.teams[E.Opponent(t)].(score := s.teams[E.Opponent(t)].score + bonus)
            && (e + k < TIMEOUT_DQ_THRESHOLD ==>
                  r.teams[t] == s.teams[t] && r.timeout == s.timeout.(elapsed := e + k))
            && (e + k == TIMEOUT_DQ_THRESHOLD ==>
                  r.teams[t] == s.teams[t].(disqualified := true) && r.timeout == E.IdleTimeout)
            && r == s.(teams := r.teams, timeout := r.timeout, log := r.log)
    decreases k
  {
    if k > 0 {
      var s1 := E.TimeoutTick(s);
      if s.timeout.elapsed + 1 < TIMEOUT_DQ_THRESHOLD {
        TimeoutTimeline(s1, k - 1);
      } else {
        assert k == 1;
      }
    }
  }

  /** With no timeout running, the timeout timer changes nothing. */
  lemma {:induction false} IdleTimeoutTicks(s: E.MatchState, k: nat)
    requires |s.teams| == 2 && !s.timeout.running
    ensures TimeoutTicks(s, k) == s
    decreases k
  {
    if k > 0 {
      IdleTimeoutTicks(s, k - 1);
    }
  }

  lemma {:induction false} TimeoutTicksAdd(s: E.MatchState, j: nat, k: nat)
    requires |s.teams| == 2
    ensures TimeoutTicks(s, j + k) == TimeoutTicks(TimeoutTicks(s, j), k)
    decreases j
  {
    if j > 0 {
      TimeoutTicksAdd(E.TimeoutTick(s), j - 1, k);
    }
  }

  /**
   * A timeout left running: however many further seconds pass, the opponent
   * gains exactly one technical point and the calling team is disqualified
   * exactly once.
   */
  lemma TimeoutEscalation(s: E.MatchState, k: nat)
    requires E.Valid(s) && s.timeout.running && s.timeout.elapsed == 0
    requires k >= TIMEOUT_DQ_THRESHOLD
    ensures var t, r := s.timeout.forTeam.value, TimeoutTicks(s, k);
            && r.teams[E.Opponent(t)].score == s.teams[E.Opponent(t)].score + 1
            && r.teams[t] == s.teams[t].(disqualified := true)
            && !r.timeout.running
  {
    var m := TimeoutTicks(s, TIMEOUT_DQ_THRESHOLD);
    TimeoutTimeline(s, TIMEOUT_DQ_THRESHOLD);
    assert !m.timeout.running;
    IdleTimeoutTicks(m, k - TIMEOUT_DQ_THRESHOLD);
    TimeoutTicksAdd(s, TIMEOUT_DQ_THRESHOLD, k - TIMEOUT_DQ_THRESHOLD);
    assert TimeoutTicks(s, k) == m;
  }

  // ---------------------------------------------------------------------
  // Half-clock timeline and a full match
  // ---------------------------------------------------------------------

  /** k seconds of the half-clock timer. */
  function HalfTicks(s: E.MatchState, k: nat): (r: E.MatchState)
    decreases k
  {
    if k == 0 then s else HalfTicks(E.HalfTick(s), k - 1)
  }

  /**
   * Each second of a running half adds exactly one second to the time played,
   * whether the half goes on or ends on that tick; a stopped clock adds none.
   */
  lemma HalfTickPlaysOneSecond(s: E.MatchState)
    requires E.Valid(s)
    ensures s.running && s.phase in {FirstHalf, SecondHalf} ==>
              E.TotalPlayed(E.HalfTick(s)) == E.TotalPlayed(s) + 1
    ensures !s.running ==> E.TotalPlayed(E.HalfTick(s)) == E.TotalPlayed(s)
  {
  }

  /**
   * A running half counts down one second per tick and ends exactly when
   * the remaining seconds have passed: the first half in HALF_TIME, the
   * second in ENDED, with the clock stopped.
   */
  lemma {:induction false} HalfCountdown(s: E.MatchState, k: nat)
    requires E.Valid(s) && s.running && s.phase in {FirstHalf, SecondHalf}
    requires k <= s.halfRemaining
    ensures var r := HalfTicks(s, k);
            && E.Valid(r)
            && (k < s.halfRemaining ==> r == s.(halfRemaining := s.halfRemaining - k))
            && (k == s.halfRemaining ==>
                  && r.halfRemaining == 0 && !r.running
                  && r.phase == (if s.halfIndex == 0 then HalfTime else Ended)
                  && r.teams == s.teams && r.timeout == s.timeout && r.stoppage == s.stoppage
                  && r.halfIndex == s.halfIndex)
    decreases k
  {
    if k > 0 {
      var s1 := E.HalfTick(s);
      if s.halfRemaining > 1 {
        HalfCountdown(s1, k - 1);
      } else {
        assert k == 1;
      }
    }
  }

  /**
   * A match run through without interruption visits PRE_MATCH, FIRST_HALF,
   * HALF_TIME, SECOND_HALF and ENDED in that order, plays 180 seconds and
   * leaves the teams as they were.
   */
  lemma FullMatch(s: E.MatchState)
    requires E.Valid(s) && s.phase == PreMatch
    ensures var s1 := E.StartMatch(s);
            var s2 := HalfTicks(s1, HALF_PLAY_SECONDS);
            var s3 := E.BeginSecondHalf(s2);
            var s4 := HalfTicks(s3, HALF_PLAY_SECONDS);
            && s1.phase == FirstHalf && s1.running
            && s2.phase == HalfTime && !s2.running && E.TotalPlayed(s2) == HALF_PLAY_SECONDS
            && s3.phase == SecondHalf && s3.running
            && s4.phase == Ended && !s4.running
            && E.TotalPlayed(s4) == 180 && E.TotalRemaining(s4) == 0
            && s4.teams == s.teams
  {
    var s1 := E.StartMatch(s);
    HalfCountdown(s1, HALF_PLAY_SECONDS);
    var s3 := E.BeginSecondHalf(HalfTicks(s1, HALF_PLAY_SECONDS));
    HalfCountdown(s3, HALF_PLAY_SECONDS);
  }

  // ---------------------------------------------------------------------
  // Commands and their inverses
  // ---------------------------------------------------------------------

  /** A non-negative adjustment is undone by the opposite one, on a non-negative score. */
  lemma AdjustScoreUndo(s: E.MatchState, t: E.TeamIdx, delta: int, reason: string)
    requires |s.teams| == 2 && s.teams[t].score >= 0 && delta >= 0
    ensures E.AdjustScore(E.AdjustScore(s, t, delta, reason), t, -delta, reason).teams == s.teams
  {
    var s1 := E.AdjustScore(s, t, delta, reason);
    var s2 := E.AdjustScore(s1, t, -delta, reason);
    assert s2.teams[t] == s.teams[t];
    assert s2.teams[E.Opponent(t)] == s.teams[E.Opponent(t)];
  }

  /** Clamping at zero loses information: a foul on a scoreless team is not undone by a goal. */
  lemma FoulOnZeroNotUndone(s: E.MatchState, t: E.TeamIdx)
    requires |s.teams| == 2 && s.teams[t].score == 0
    ensures E.Goal(E.EarlyStartFoul(s, t), t).teams[t].score == 1
  {
  }

  /** Toggling the clock twice outside ENDED changes nothing. */
  lemma ToggleClockTwice(s: E.MatchState)
    requires s.phase != Ended
    ensures E.ToggleClock(E.ToggleClock(s)) == s
  {
  }

  /** Declaring a bot out and back restores the team; the log keeps both entries. */
  lemma ToggleBotOutTwice(s: E.MatchState, t: E.TeamIdx)
    requires |s.teams| == 2
    ensures var r := E.ToggleBotOut(E.ToggleBotOut(s, t), t);
            r.teams == s.teams && |r.log| == |s.log| + 2 && r.log[2..] == s.log
  {
    var s1 := E.ToggleBotOut(s, t);
    var r := E.ToggleBotOut(s1, t);
    assert r.teams[t] == s.teams[t];
    assert r.teams[E.Opponent(t)] == s.teams[E.Opponent(t)];
    assert r.log[2..] == s1.log[1..];
  }

  /**
   * A team that called and ended its timeout is back to a stopped clock
   * with no timeout running, and cannot call another.
   */
  lemma OneTimeoutPerTeam(s: E.MatchState, t: E.TeamIdx)
    requires E.Valid(s) && !s.timeout.running && s.teams[t].timeoutsUsed == 0
    ensures var r := E.EndTimeout(E.CallTimeout(s, t));
            && E.Valid(r) && !r.running && !r.timeout.running
            && r.teams[t].timeoutsUsed == 1
            && E.CallTimeout(r, t) == r
  {
  }

  // ---------------------------------------------------------------------
  // Pausing, winner
  // ---------------------------------------------------------------------

  /**
   * No timeout or stoppage command ever sets the clock running, and an
   * accepted call or start leaves the clock control disabled.
   */
  lemma PausesNeverResume(s: E.MatchState, c: Command)
    requires |s.teams| == 2
    requires c.CallTimeout? || c.EndTimeout? || c.StartStoppage? || c.EndStoppage?
    ensures Apply(s, c).running ==> s.running
    ensures c.CallTimeout? && Apply(s, c) != s ==> !Apply(s, c).running && E.ClockDisabled(Apply(s, c))
    ensures c.StartStoppage? && Apply(s, c) != s ==> !Apply(s, c).running && E.ClockDisabled(Apply(s, c))
  {
  }

  /** Nothing stops a stoppage from being started during a timeout: both can run together. */
  lemma TimeoutAndStoppageTogether(s: E.MatchState, t: E.TeamIdx, reason: string)
    requires E.Valid(s) && !s.timeout.running && !s.stoppage.running && s.teams[t].timeoutsUsed == 0
    ensures var r := Run(s, [CallTimeout(t), StartStoppage(reason)]);
            E.Valid(r) && r.timeout.running && r.stoppage.running
  {
    var s1 := Apply(s, CallTimeout(t));
    assert Run(s, [CallTimeout(t), StartStoppage(reason)]) == Run(s1, [StartStoppage(reason)]);
  }

  /** A team that alone is disqualified never wins, whatever the scores. */
  lemma WinnerNotSolelyDisqualified(s: E.MatchState, i: E.TeamIdx)
    requires |s.teams| == 2 && E.Winner(s) == Some(i)
    ensures !(s.teams[i].disqualified && !s.teams[E.Opponent(i)].disqualified)
    ensures s.phase == Ended
  {
  }

  /** Worked cases of the winner rule. */
  lemma WinnerExamples(s: E.MatchState)
    requires |s.teams| == 2 && s.phase == Ended
    ensures (!s.teams[0].disqualified && !s.teams[1].disqualified &&
             s.teams[0].score == 3 && s.teams[1].score == 2) ==> E.Winner(s) == Some(0)
    ensures (s.teams[0].disqualified == s.teams[1].disqualified &&
             s.teams[0].score == 2 && s.teams[1].score == 2) ==> E.Winner(s) == None
    ensures s.teams[0].disqualified && !s.teams[1].disqualified ==> E.Winner(s) == Some(1)
  {
  }
}
