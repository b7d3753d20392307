/** The session card of the grid: the phase badge, the countdown to the end
    (or, on upcoming cards, to the start), the shortened title, and the action
    button with its label and its disabled state. The clock is an input
    (`nowMs`, milliseconds as `Date.now()` returns them). */
module VotingCard {
  import opened JsRuntime
  import opened VotingTypes

  /** `getPhaseText`. */
  function PhaseText(phase: int): (text: string)
    ensures text == "Unknown" <==> phase != SetupPhase && phase != OpenPhase && phase != ClosedPhase
    ensures phase == SetupPhase ==> text == "Setup"
    ensures phase == OpenPhase ==> text == "Open"
    ensures phase == ClosedPhase ==> text == "Closed"
  {
    if phase == 0 then "Setup"
    else if phase == 1 then "Open"
    else if phase == 2 then "Closed"
    else "Unknown"
  }

  // ----- countdowns -----

  /** Whole days, hours and minutes of a positive number of seconds. */
  datatype Countdown = Countdown(days: nat, hours: nat, minutes: nat)

  /** `Math.floor(r / 86400)`, `Math.floor((r % 86400) / 3600)` and
      `Math.floor((r % 3600) / 60)` for `r > 0`, where JavaScript's `%` and
      Dafny's agree. */
  function Decompose(remaining: int): (c: Countdown)
    requires remaining > 0
    ensures c.hours < 24 && c.minutes < 60
    ensures c.days * 86400 + c.hours * 3600 + c.minutes * 60 <= remaining
    ensures remaining < c.days * 86400 + c.hours * 3600 + c.minutes * 60 + 60
  {
    var days := remaining / 86400;
    var hours := (remaining % 86400) / 3600;
    var minutes := (remaining % 3600) / 60;
    HoursWithinDay(remaining);
    Countdown(days, hours, minutes)
  }

  /** A whole number of days is a whole number of hours: the seconds past the
      hour are the same whether counted from the day or from the start. */
  lemma HoursWithinDay(remaining: int)
    ensures remaining % 3600 == (remaining % 86400) % 3600
  {
    var q := remaining / 86400;
    var r := remaining % 86400;
    var a := r / 3600;
    var b := r % 3600;
    assert remaining == q * 86400 + r;
    assert r == a * 3600 + b;
    assert remaining == (q * 24 + a) * 3600 + b;
  }

  /** Which of the three templates a countdown uses. */
  datatype CountdownForm = DaysHours | HoursMinutes | MinutesOnly

  function FormOf(c: Countdown): CountdownForm
  {
    if c.days > 0 then DaysHours else if c.hours > 0 then HoursMinutes else MinutesOnly
  }

  /** `${days}d ${hours}h`, `${hours}h ${minutes}m` or `${minutes}m`. */
  function FormatCountdown(c: Countdown): string
  {
    match FormOf(c)
    case DaysHours => NatToString(c.days) + "d " + NatToString(c.hours) + "h"
    case HoursMinutes => NatToString(c.hours) + "h " + NatToString(c.minutes) + "m"
    case MinutesOnly => NatToString(c.minutes) + "m"
  }

  /** The template follows the size of the wait: a day or more shows days and
      hours, an hour or more hours and minutes, less than an hour minutes. */
  lemma FormByMagnitude(remaining: int)
    requires remaining > 0
    ensures remaining >= 86400 <==> FormOf(Decompose(remaining)) == DaysHours
    ensures 3600 <= remaining < 86400 <==> FormOf(Decompose(remaining)) == HoursMinutes
    ensures remaining < 3600 <==> FormOf(Decompose(remaining)) == MinutesOnly
  {
  }

  /** A formatted countdown starts with a digit. */
  lemma FormatStartsWithDigit(c: Countdown)
    ensures |FormatCountdown(c)| > 0 && IsDigit(FormatCountdown(c)[0])
  {
    NatToStringRoundTrip(c.days);
    NatToStringRoundTrip(c.hours);
    NatToStringRoundTrip(c.minutes);
  }

  /** `getTimeRemaining(endTime)`. */
  function TimeRemaining(endTime: int, nowMs: int): (text: string)
    ensures text == "Ended" <==> endTime - UnixSeconds(nowMs) <= 0
    ensures endTime - UnixSeconds(nowMs) > 0 ==> |text| > 0 && IsDigit(text[0])
  {
    var remaining := endTime - UnixSeconds(nowMs);
    if remaining <= 0 then "Ended"
    else
      var c := Decompose(remaining);
      FormatStartsWithDigit(c);
      FormatCountdown(c)
  }

  /** While time remains, the card shows the whole minutes left, split into
      days, hours and minutes, in the template the size of the wait selects. */
  lemma TimeRemainingCountdown(endTime: int, nowMs: int)
    requires endTime - UnixSeconds(nowMs) > 0
    ensures var r := endTime - UnixSeconds(nowMs);
            var c := Decompose(r);
            TimeRemaining(endTime, nowMs) == FormatCountdown(c) &&
            c.hours < 24 && c.minutes < 60 &&
            c.days * 86400 + c.hours * 3600 + c.minutes * 60 <= r < c.days * 86400 + c.hours * 3600 + c.minutes * 60 + 60 &&
            (r >= 86400 <==> FormOf(c) == DaysHours) &&
            (3600 <= r < 86400 <==> FormOf(c) == HoursMinutes) &&
            (r < 3600 <==> FormOf(c) == MinutesOnly)
  {
    FormByMagnitude(endTime - UnixSeconds(nowMs));
  }

  /** `getStartsIn(startTime)`: the same countdown, to the start, behind
      "Starts in ", and "Started" once the start has passed. */
  function StartsIn(startTime: int, nowMs: int): (text: string)
    ensures text == "Started" <==> startTime - UnixSeconds(nowMs) <= 0
    ensures startTime - UnixSeconds(nowMs) > 0 ==> text == "Starts in " + TimeRemaining(startTime, nowMs)
  {
    var remaining := startTime - UnixSeconds(nowMs);
    if remaining <= 0 then "Started"
    else
      var c := Decompose(remaining);
      "Starts in " + FormatCountdown(c)
  }

  // ----- title -----

  const DefaultTitle := "FHE Voting System Implementation"
  const TitleLimit := 75

  /** The title shown on the card: the default for an empty title, and at
      most 75 characters of it followed by "..." when it is longer. */
  function DisplayTitle(title: string): (text: string)
    ensures var base := if title == "" then DefaultTitle else title;
            (|base| <= TitleLimit ==> text == base) &&
            (|base| > TitleLimit ==> |text| == TitleLimit + 3 && text[..TitleLimit] == base[..TitleLimit] &&
                                      text[TitleLimit..] == "...")
    ensures 0 < |text| <= TitleLimit + 3
  {
    var base := if title == "" then DefaultTitle else title;
    if |base| > TitleLimit then base[..TitleLimit] + "..." else base
  }

  // ----- the action button -----

  /** `"active" | "upcoming" | "ended"`, and the `"owner"` the owner tab
      passes although the card does not declare it. */
  datatype CardType = ActiveCard | UpcomingCard | EndedCard | OwnerCard

  /** `Date.now() / 1000 < startTime`, a comparison of a fractional second
      count with an integer. */
  predicate BeforeStart(nowMs: int, startTime: int) {
    (nowMs as real) / 1000.0 < startTime as real
  }

  /** Comparing the fractional clock is the same as comparing whole seconds. */
  lemma BeforeStartIffWholeSeconds(nowMs: int, startTime: int)
    ensures BeforeStart(nowMs, startTime) <==> UnixSeconds(nowMs) < startTime
  {
    var s := UnixSeconds(nowMs);
    assert (nowMs as real) / 1000.0 < startTime as real <==> (nowMs as real) < (startTime * 1000) as real;
    if s < startTime {
      assert nowMs < s * 1000 + 1000 <= startTime * 1000;
    } else {
      assert nowMs >= s * 1000 >= startTime * 1000;
    }
  }

  /** The `disabled` attribute of the action button. */
  predicate ActionDisabled(t: CardType, hasVoted: bool, phase: int, startTime: int, nowMs: int) {
    t == ActiveCard && (hasVoted || (phase != OpenPhase && BeforeStart(nowMs, startTime)))
  }

  /** Only an active card's button is ever disabled: because its user has
      voted, or because the session is not open and has not started yet. */
  lemma ActionDisabledCases(t: CardType, hasVoted: bool, phase: int, startTime: int, nowMs: int)
    ensures ActionDisabled(t, hasVoted, phase, startTime, nowMs) <==>
            t == ActiveCard && (hasVoted || (phase != OpenPhase && UnixSeconds(nowMs) < startTime))
  {
    BeforeStartIffWholeSeconds(nowMs, startTime);
  }

  /** The orange, clickable style of an active card's button. */
  predicate LooksClickable(hasVoted: bool, phase: int, startTime: int, nowMs: int) {
    (phase == OpenPhase || !BeforeStart(nowMs, startTime)) && !hasVoted
  }

  /** On an active card the button looks clickable exactly when it is enabled. */
  lemma ActiveStyleMatchesEnablement(hasVoted: bool, phase: int, startTime: int, nowMs: int)
    ensures LooksClickable(hasVoted, phase, startTime, nowMs) <==>
            !ActionDisabled(ActiveCard, hasVoted, phase, startTime, nowMs)
  {
  }

  /** The button's label. */
  function ActionLabel(t: CardType): string
  {
    match t
    case UpcomingCard => "View Details"
    case EndedCard => "View Results"
    case ActiveCard => "Vote Now"
    case OwnerCard => "Vote Now"
  }

  /** The handler a click calls. */
  datatype CardClick = OpensDetails | OpensVote

  function ClickTarget(t: CardType): CardClick
  {
    if t == UpcomingCard then OpensDetails else OpensVote
  }

  /** The three declared card types have three different labels, and an owner
      card reads like an active one; only upcoming cards open the details
      handler. */
  lemma LabelsAndTargets(t: CardType, u: CardType)
    ensures ActionLabel(t) == ActionLabel(u) <==>
              t == u || ((t == ActiveCard || t == OwnerCard) && (u == ActiveCard || u == OwnerCard))
    ensures ClickTarget(t) == OpensDetails <==> t == UpcomingCard
  {
  }

  /** An owner card reads "Vote Now" and opens the vote view, and its button is
      never disabled: the test is for `"active"` only. Once its user has voted
      it still takes the grey, not-allowed style while it stays pressable. */
  lemma OwnerCardNeverDisabled(hasVoted: bool, phase: int, startTime: int, nowMs: int)
    ensures !ActionDisabled(OwnerCard, hasVoted, phase, startTime, nowMs)
    ensures ActionLabel(OwnerCard) == "Vote Now" && ClickTarget(OwnerCard) == OpensVote
    ensures hasVoted ==> !LooksClickable(hasVoted, phase, startTime, nowMs)
    ensures ActionDisabled(ActiveCard, hasVoted, phase, startTime, nowMs) ==>
              !LooksClickable(hasVoted, phase, startTime, nowMs)
  {
  }
}
