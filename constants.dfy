/**
 * The phase enumeration and the timing constants that parameterise the
 * match engine (src/utils/constants.ts).
 */
module Constants {
  import opened Options

  /** The five match phases, in the order a full match visits them. */
  datatype Phase = PreMatch | FirstHalf | HalfTime | SecondHalf | Ended

  /** The string value each member of the `Phase` object carries. */
  function PhaseName(p: Phase): string
  {
    match p
    case PreMatch => "PRE_MATCH"
    case FirstHalf => "FIRST_HALF"
    case HalfTime => "HALF_TIME"
    case SecondHalf => "SECOND_HALF"
    case Ended => "ENDED"
  }

  /**
   * `PhaseType` is the union of the five string literals: a string is a
   * phase exactly when it is one of those names.
   */
  function ParsePhase(s: string): (r: Option<Phase>)
    ensures r.Some? ==> PhaseName(r.value) == s
    ensures r.None? ==> s !in {"PRE_MATCH", "FIRST_HALF", "HALF_TIME", "SECOND_HALF", "ENDED"}
  {
    if s == "PRE_MATCH" then Some(PreMatch)
    else if s == "FIRST_HALF" then Some(FirstHalf)
    else if s == "HALF_TIME" then Some(HalfTime)
    else if s == "SECOND_HALF" then Some(SecondHalf)
    else if s == "ENDED" then Some(Ended)
    else None
  }

  /** Every phase name reads back as its phase. */
  lemma PhaseNameRoundTrip(p: Phase)
    ensures ParsePhase(PhaseName(p)) == Some(p)
  {
  }

  /** The five phase names are pairwise distinct. */
  lemma PhaseNamesDistinct(p: Phase, q: Phase)
    ensures PhaseName(p) == PhaseName(q) ==> p == q
  {
    PhaseNameRoundTrip(p);
    PhaseNameRoundTrip(q);
  }

  /** Position of a phase in the forward order PRE_MATCH .. ENDED. */
  function Rank(p: Phase): (r: nat)
    ensures r < 5
    ensures p == PreMatch <==> r == 0
    ensures p == Ended <==> r == 4
  {
    match p
    case PreMatch => 0
    case FirstHalf => 1
    case HalfTime => 2
    case SecondHalf => 3
    case Ended => 4
  }

  /** The ranks follow the match: PRE_MATCH, FIRST_HALF, HALF_TIME, SECOND_HALF, ENDED. */
  lemma PhaseOrder()
    ensures Rank(PreMatch) < Rank(FirstHalf) < Rank(HalfTime) < Rank(SecondHalf) < Rank(Ended)
  {
  }

  /** Seconds of play in one half (the source comment says 3 minutes; the value is 90 s). */
  const HALF_PLAY_SECONDS: nat := 90
  const HALVES: nat := 2
  /** Length of the half-time break; also the initial and reset value of its clock. */
  const HALF_TIME_BREAK_SECONDS: nat := 90
  /** Declared but never read by the engine. */
  const TIMEOUT_ALLOWED_SECONDS: nat := 30
  /** Timeout length at which the opponent receives a technical point. */
  const TIMEOUT_TECHNICAL_THRESHOLD: nat := 45
  /** Timeout length at which the calling team is disqualified. */
  const TIMEOUT_DQ_THRESHOLD: nat := 90

  /** A full match is two halves of 90 seconds, i.e. 180 seconds. */
  lemma MatchLength()
    ensures HALVES * HALF_PLAY_SECONDS == 180
  {
  }

  /** Within one timeout the technical point comes before disqualification. */
  lemma ThresholdOrder()
    ensures TIMEOUT_ALLOWED_SECONDS < TIMEOUT_TECHNICAL_THRESHOLD < TIMEOUT_DQ_THRESHOLD
  {
  }
}
