/**
 * The MatchController component as an object: its state slots are fields,
 * its command callbacks and interval bodies are methods that update them in
 * place. Each method is proved to take the state exactly where the
 * corresponding function of module Engine takes it, so every property
 * proved there holds of the object.
 */
module Controller {
  import opened Options
  import opened Constants
  import E = Engine

  class MatchController {
    var phase: Phase
    var halfIndex: int
    var halfRemaining: int
    var teams: seq<E.Team>
    var timeout: E.TimeoutState
    var stoppage: E.StoppageState
    var running: bool
    var log: seq<string>
    var htRemaining: int

    /** The fields as one value. */
    function State(): E.MatchState
      reads this
    {
      E.MatchState(phase, halfIndex, halfRemaining, teams, timeout, stoppage, running, log, htRemaining)
    }

    predicate Valid()
      reads this
    {
      E.Valid(State())
    }

    constructor ()
      ensures Valid() && State() == E.Initial()
    {
      phase := PreMatch;
      halfIndex := 0;
      halfRemaining := HALF_PLAY_SECONDS;
      teams := [E.FreshTeam("Team A"), E.FreshTeam("Team B")];
      timeout := E.IdleTimeout;
      stoppage := E.IdleStoppage;
      running := false;
      log := [];
      htRemaining := HALF_TIME_BREAK_SECONDS;
      E.InitialValid();
    }

    /** pushLog: prepend one entry. */
    method PushLog(entry: string)
      modifies this`log
      ensures log == E.Push(old(log), entry)
    {
      log := [entry] + log;
    }

    method AdjustScore(t: E.TeamIdx, delta: int, reason: string)
      requires Valid()
      modifies this
      ensures Valid() && State() == E.AdjustScore(old(State()), t, delta, reason)
    {
      var team := teams[t];
      var newScore := team.score + delta;
      if newScore < 0 {
        newScore := 0;
      }
      teams := teams[t := team.(score := newScore)];
      if reason != "" {
        PushLog(E.ScoreEntry(team.name, delta, reason));
      }
    }

    method Goal(t: E.TeamIdx)
      requires Valid()
      modifies this
      ensures Valid() && State() == E.Goal(old(State()), t)
    {
      AdjustScore(t, 1, E.GoalReason);
    }

    method EarlyStartFoul(t: E.TeamIdx)
      requires Valid()
      modifies this
      ensures Valid() && State() == E.EarlyStartFoul(old(State()), t)
    {
      AdjustScore(t, -1, E.EarlyStartFoulReason);
    }

    method ToggleBotOut(t: E.TeamIdx)
      requires Valid()
      modifies this
      ensures Valid() && State() == E.ToggleBotOut(old(State()), t)
    {
      var team := teams[t];
      teams := teams[t := team.(isBotOut := !team.isBotOut)];
      PushLog(E.BotOutEntry(team.name, team.isBotOut));
    }

    method Rename(t: E.TeamIdx, name: string)
      requires Valid()
      modifies this
      ensures Valid() && State() == E.Rename(old(State()), t, name)
    {
      teams := teams[t := teams[t].(name := name)];
    }

    method CallTimeout(t: E.TeamIdx)
      requires Valid()
      modifies this
      ensures Valid() && State() == E.CallTimeout(old(State()), t)
    {
      if timeout.running {
        return;
      }
      if teams[t].timeoutsUsed >= 1 {
        return;
      }
      running := false;
      timeout := E.TimeoutState(true, Some(t), 0);
      var team := teams[t];
      teams := teams[t := team.(timeoutsUsed := team.timeoutsUsed + 1)];
      PushLog(E.TimeoutCalledEntry(team.name));
    }

    method EndTimeout()
      requires Valid()
      modifies this
      ensures Valid() && State() == E.EndTimeout(old(State()))
    {
      if !timeout.running {
        return;
      }
      PushLog(E.TimeoutEndedEntry(timeout.elapsed));
      timeout := E.IdleTimeout;
    }

    method StartStoppage(reason: string)
      requires Valid()
      modifies this
      ensures Valid() && State() == E.StartStoppage(old(State()), reason)
    {
      if stoppage.running {
        return;
      }
      running := false;
      stoppage := E.StoppageState(true, Some(reason), 0);
      PushLog(E.StoppageStartedEntry(reason));
    }

    method EndStoppage()
      requires Valid()
      modifies this
      ensures Valid() && State() == E.EndStoppage(old(State()))
    {
      if !stoppage.running {
        return;
      }
      PushLog(E.StoppageEndedEntry(stoppage.elapsed));
      stoppage := E.IdleStoppage;
    }

    method StartMatch()
      requires Valid()
      modifies this
      ensures Valid() && State() == E.StartMatch(old(State()))
    {
      if phase != PreMatch {
        return;
      }
      phase := FirstHalf;
      running := true;
      halfIndex := 0;
      halfRemaining := HALF_PLAY_SECONDS;
      PushLog(E.MatchStartedEntry);
    }

    method BeginSecondHalf()
      requires Valid()
      modifies this
      ensures Valid() && State() == E.BeginSecondHalf(old(State()))
    {
      phase := SecondHalf;
      running := true;
      halfIndex := 1;
      halfRemaining := HALF_PLAY_SECONDS;
      PushLog(E.SecondHalfEntry);
    }

    method ToggleClock()
      requires Valid()
      modifies this
      ensures Valid() && State() == E.ToggleClock(old(State()))
    {
      if phase == Ended {
        return;
      }
      running := !running;
    }

    /** resetMatch: every field back to its initial value. */
    method ResetMatch()
      modifies this
      ensures Valid() && State() == E.Initial()
    {
      phase := PreMatch;
      halfIndex := 0;
      halfRemaining := HALF_PLAY_SECONDS;
      teams := [E.FreshTeam("Team A"), E.FreshTeam("Team B")];
      timeout := E.IdleTimeout;
      stoppage := E.IdleStoppage;
      running := false;
      log := [];
      htRemaining := HALF_TIME_BREAK_SECONDS;
      E.InitialValid();
    }

    /** handleEndHalf. */
    method EndHalf()
      modifies this
      ensures State() == E.EndHalf(old(State()))
    {
      if halfIndex == 0 {
        running := false;
        PushLog(E.FirstHalfEndedEntry);
        phase := HalfTime;
      } else {
        running := false;
        PushLog(E.FullTimeEntry);
        phase := Ended;
      }
    }

    /** One second of the half-clock interval. */
    method HalfTick()
      requires Valid()
      modifies this
      ensures Valid() && State() == E.HalfTick(old(State()))
    {
      if !running || (phase != FirstHalf && phase != SecondHalf) {
        return;
      }
      if halfRemaining <= 1 {
        EndHalf();
        halfRemaining := 0;
      } else {
        halfRemaining := halfRemaining - 1;
      }
    }

    /** One second of the timeout interval. */
    method TimeoutTick()
      requires Valid()
      modifies this
      ensures Valid() && State() == E.TimeoutTick(old(State()))
    {
      if !timeout.running {
        return;
      }
      var newElapsed := timeout.elapsed + 1;
      var forTeam := timeout.forTeam;
      if newElapsed == TIMEOUT_TECHNICAL_THRESHOLD && forTeam.Some? {
        var opp := E.Opponent(forTeam.value);
        var team := teams[opp];
        teams := teams[opp := team.(score := team.score + 1)];
        PushLog(E.TechnicalPointEntry(team.name));
      }
      if newElapsed >= TIMEOUT_DQ_THRESHOLD && forTeam.Some? {
        var t := forTeam.value;
        var team := teams[t];
        if !team.disqualified {
          teams := teams[t := team.(disqualified := true)];
          PushLog(E.DisqualifiedEntry(newElapsed, team.name));
        }
        timeout := E.IdleTimeout;
        return;
      }
      timeout := timeout.(elapsed := newElapsed);
    }

    /** One second of the stoppage interval. */
    method StoppageTick()
      requires Valid()
      modifies this
      ensures Valid() && State() == E.StoppageTick(old(State()))
    {
      if !stoppage.running {
        return;
      }
      stoppage := stoppage.(elapsed := stoppage.elapsed + 1);
    }

    /** One second of the half-time interval. */
    method HalfTimeTick()
      requires Valid()
      modifies this
      ensures Valid() && State() == E.HalfTimeTick(old(State()))
    {
      if phase != HalfTime || htRemaining <= 0 {
        return;
      }
      htRemaining := htRemaining - 1;
    }

    /**
     * handlePublish: the result of an ended match, or nothing (the source
     * alerts "End the match first."); no field changes.
     */
    method Publish() returns (result: Option<E.MatchResult>)
      requires Valid()
      ensures result.Some? <==> phase == Ended
      ensures result.Some? ==> result.value == E.MatchResult(teams, E.Winner(State()), log)
    {
      if phase != Ended {
        return None;
      }
      result := Some(E.MatchResult(teams, E.Winner(State()), log));
    }
  }
}
