/** The detail view of one session: which voting options can be picked, when
    the "Vote Now" button is shown and enabled, which owner controls appear in
    which phase, and the per-option count and share once results are decrypted.
    Voting is gated by the session's phase, not by its time window. */
module VotingSessionDetail {
  import opened Wrappers
  import opened JsRuntime
  import opened VotingTypes

  /** `canUserVote`: a non-owner who has not voted, in an open session. */
  predicate CanUserVote(isOwner: bool, phase: int, hasVoted: bool) {
    !isOwner && phase == OpenPhase && !hasVoted
  }

  /** The `disabled` attribute of each option button. */
  predicate OptionDisabled(isOwner: bool, phase: int, hasVoted: bool) {
    !CanUserVote(isOwner, phase, hasVoted) && !isOwner
  }

  /** Whether the "Vote Now" button is rendered. */
  predicate VoteNowShown(isOwner: bool, phase: int, hasVoted: bool) {
    isOwner || CanUserVote(isOwner, phase, hasVoted)
  }

  /** The `disabled` attribute of "Vote Now". */
  predicate VoteNowDisabled(selectedOption: Option<nat>, status: Status) {
    selectedOption.None? || status == Loading
  }

  /** The label of "Vote Now". */
  function VoteNowLabel(status: Status): string
  {
    if status == Loading then "Processing..." else "Vote Now"
  }

  /** The `disabled` attribute of "View Results". */
  predicate ViewResultsDisabled(status: Status) {
    status == Loading
  }

  /** An owner can always pick an option, whatever the phase and whether the
      owner has voted. */
  lemma OwnerCanAlwaysSelect(phase: int, hasVoted: bool)
    ensures !OptionDisabled(true, phase, hasVoted)
    ensures VoteNowShown(true, phase, hasVoted)
  {
  }

  /** The options are enabled exactly when "Vote Now" is shown, and for a
      non-owner exactly when the session is open and the user has not voted. */
  lemma OptionsEnabledIffVoteNowShown(isOwner: bool, phase: int, hasVoted: bool)
    ensures !OptionDisabled(isOwner, phase, hasVoted) <==> VoteNowShown(isOwner, phase, hasVoted)
    ensures !isOwner ==> (!OptionDisabled(isOwner, phase, hasVoted) <==> phase == OpenPhase && !hasVoted)
  {
  }

  /** A pressable "Vote Now" reads "Vote Now", never "Processing...". */
  lemma VoteNowPressable(selectedOption: Option<nat>, status: Status)
    ensures !VoteNowDisabled(selectedOption, status) ==> VoteNowLabel(status) == "Vote Now"
  {
  }

  // ----- owner controls -----

  datatype OwnerControl = OpenControl | CloseControl | PublicControl

  /** Which optional handlers the parent passed. */
  datatype Handlers = Handlers(onOpen: bool, onClose: bool, onMakePublic: bool)

  /** Whether an owner control is rendered. */
  predicate ControlShown(c: OwnerControl, isOwner: bool, phase: int, h: Handlers) {
    isOwner &&
    match c
    case OpenControl => phase == SetupPhase && h.onOpen
    case CloseControl => h.onClose
    case PublicControl => phase == ClosedPhase && h.onMakePublic
  }

  /** Whether a rendered owner control is disabled; "Close Session" has no
      `disabled` attribute. */
  predicate ControlDisabled(c: OwnerControl, status: Status) {
    c != CloseControl && status == Loading
  }

  /** Owners see "Open Session" only in Setup and "Make Results Public" only
      when Closed, but "Close Session" in every phase, even while loading;
      non-owners see none of them. */
  lemma OwnerControlsByPhase(isOwner: bool, phase: int, h: Handlers, status: Status)
    ensures ControlShown(OpenControl, isOwner, phase, h) ==> phase == SetupPhase
    ensures ControlShown(PublicControl, isOwner, phase, h) ==> phase == ClosedPhase
    ensures isOwner && h.onClose ==> ControlShown(CloseControl, isOwner, phase, h) &&
                                     !ControlDisabled(CloseControl, status)
    ensures !isOwner ==> forall c :: !ControlShown(c, isOwner, phase, h)
    ensures !(ControlShown(OpenControl, isOwner, phase, h) && ControlShown(PublicControl, isOwner, phase, h))
  {
  }

  /** While an operation is loading, every button of the action row that has a
      `disabled` attribute is disabled; "Close Session" is the one that stays
      pressable. */
  lemma LoadingFreezesActions(selectedOption: Option<nat>, status: Status)
    ensures status == Loading ==>
              ViewResultsDisabled(status) && VoteNowDisabled(selectedOption, status) &&
              ControlDisabled(OpenControl, status) && ControlDisabled(PublicControl, status) &&
              !ControlDisabled(CloseControl, status)
  {
  }

  // ----- counts and shares -----

  /** Counts are shown only when both the handles and the decrypted values are
      present. */
  predicate CountsShown(results: Option<seq<string>>, decrypted: Option<seq<JsNumber>>) {
    results.Some? && decrypted.Some?
  }

  /** What an option button shows on its right: "No results", or the count
      and the (unrounded) share. */
  datatype CountCell = NoResults | Votes(count: JsNumber, share: real)

  function CountCellOf(results: Option<seq<string>>, decrypted: Option<seq<JsNumber>>, idx: nat): (c: CountCell)
    ensures c.Votes? <==> CountsShown(results, decrypted)
    ensures c.Votes? ==> c.count.Finite? &&
                         (c.count.value != 0 ==> idx < |decrypted.value| && c.count == decrypted.value[idx])
  {
    if CountsShown(results, decrypted) then
      Votes(DisplayedCount(decrypted.value, idx), Share(decrypted.value, idx))
    else NoResults
  }

  /** `decryptedResults[idx] || 0`. */
  function DisplayedCount(decrypted: seq<JsNumber>, idx: nat): (n: JsNumber)
    ensures n.Finite?
    ensures n.value != 0 <==> idx < |decrypted| && Truthy(decrypted[idx])
    ensures n.value != 0 ==> n == decrypted[idx]
  {
    if idx < |decrypted| && Truthy(decrypted[idx]) then decrypted[idx] else Finite(0)
  }

  /** `decryptedResults.reduce((sum, v) => sum + v, 0)`, where one `NaN`
      makes the whole sum `NaN`. */
  function Total(decrypted: seq<JsNumber>): (t: JsNumber)
    ensures t.NaN? <==> exists i :: 0 <= i < |decrypted| && decrypted[i].NaN?
    ensures t.Finite? ==> t.value == ValueSum(decrypted)
  {
    if decrypted == [] then Finite(0)
    else
      var init := decrypted[..|decrypted| - 1];
      var last := decrypted[|decrypted| - 1];
      assert forall i :: 0 <= i < |init| ==> init[i] == decrypted[i];
      assert init + [last] == decrypted;
      ValueSumSnoc(init, last);
      var prefix := Total(init);
      if prefix.NaN? || last.NaN? then NaN else Finite(prefix.value + last.value)
  }

  /** The value of a finite number, and 0 for `NaN`. */
  function ValueOf(n: JsNumber): int
  {
    if n.Finite? then n.value else 0
  }

  /** The sum of the entries' values, first to last: the reference `Total`
      is checked against. */
  function ValueSum(s: seq<JsNumber>): int
  {
    if s == [] then 0 else ValueOf(s[0]) + ValueSum(s[1..])
  }

  /** Appending one entry adds its value to the sum. */
  lemma {:induction false} ValueSumSnoc(s: seq<JsNumber>, x: JsNumber)
    ensures ValueSum(s + [x]) == ValueSum(s) + ValueOf(x)
  {
    if s == [] {
      assert [] + [x] == [x];
      assert [x][1..] == [];
    } else {
      assert (s + [x])[0] == s[0];
      assert (s + [x])[1..] == s[1..] + [x];
      ValueSumSnoc(s[1..], x);
    }
  }

  /** The unrounded percentage of option `idx`: its count over the total,
      times 100, or 0 when the total is not positive (a `NaN` total is not). */
  function Share(decrypted: seq<JsNumber>, idx: nat): real
  {
    var t := Total(decrypted);
    if t.Finite? && t.value > 0 then
      ((DisplayedCount(decrypted, idx).value as real) / (t.value as real)) * 100.0
    else 0.0
  }

  /** The shares of the first `n` options. */
  function ShareSum(decrypted: seq<JsNumber>, n: nat): real
  {
    if n == 0 then 0.0 else ShareSum(decrypted, n - 1) + Share(decrypted, n - 1)
  }

  /** With a positive total (so no `NaN` entry), the unrounded shares of all
      options add up to 100. */
  lemma SharesSumToHundred(decrypted: seq<JsNumber>)
    requires Total(decrypted).Finite? && Total(decrypted).value > 0
    ensures ShareSum(decrypted, |decrypted|) == 100.0
  {
    assert forall i :: 0 <= i < |decrypted| ==> decrypted[i].Finite?;
    var t := Total(decrypted).value;
    assert decrypted[..|decrypted|] == decrypted;
    PartialShares(decrypted, t, |decrypted|);
    WholeOverWhole(t);
  }

  /** `t·100 / t` is 100. */
  lemma WholeOverWhole(t: int)
    requires t > 0
    ensures (t as real) * 100.0 / (t as real) == 100.0
  {
  }

  lemma {:induction false} PartialShares(decrypted: seq<JsNumber>, t: int, n: nat)
    requires n <= |decrypted|
    requires forall i :: 0 <= i < |decrypted| ==> decrypted[i].Finite?
    requires Total(decrypted) == Finite(t) && t > 0
    ensures Total(decrypted[..n]).Finite?
    ensures ShareSum(decrypted, n) == (Total(decrypted[..n]).value as real) * 100.0 / (t as real)
  {
    if n == 0 {
      assert decrypted[..0] == [];
    } else {
      PartialShares(decrypted, t, n - 1);
      var p := decrypted[..n];
      assert p[..|p| - 1] == decrypted[..n - 1];
      var a := Total(decrypted[..n - 1]).value;
      var b := decrypted[n - 1].value;
      assert Total(p) == Finite(a + b);
      assert DisplayedCount(decrypted, n - 1).value == b;
      assert Share(decrypted, n - 1) == ((b as real) / (t as real)) * 100.0;
      ShareStep(a, b, t);
    }
  }

  lemma ShareStep(a: int, b: int, t: int)
    requires t > 0
    ensures (a as real) * 100.0 / (t as real) + ((b as real) / (t as real)) * 100.0 ==
            ((a + b) as real) * 100.0 / (t as real)
  {
  }
}
