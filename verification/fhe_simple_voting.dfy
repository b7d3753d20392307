/** The single-ballot voting page: which screen renders, and which of its
    buttons are enabled in which phase of the Setup/Open/Closed lifecycle. */
module FheSimpleVoting {
  import opened Wrappers
  import opened JsRuntime
  import opened VotingTypes
  import SimpleVoting

  /** The screen the component returns. */
  datatype Screen = NotConnectedScreen | FhevmErrorScreen | VotingErrorScreen | MainScreen

  /** The early returns, in order: no wallet, then an encryption-SDK error,
      then a voting error, and only then the main view. */
  function RenderedScreen(isConnected: bool, fhevmFailed: bool, votingStatus: Status): (s: Screen)
    ensures s == NotConnectedScreen <==> !isConnected
    ensures s == FhevmErrorScreen <==> isConnected && fhevmFailed
    ensures s == VotingErrorScreen <==> isConnected && !fhevmFailed && votingStatus == Error
    ensures s == MainScreen <==> isConnected && !fhevmFailed && votingStatus != Error
  {
    if !isConnected then NotConnectedScreen
    else if fhevmFailed then FhevmErrorScreen
    else if votingStatus == Error then VotingErrorScreen
    else MainScreen
  }

  // ----- vote buttons -----

  /** One mascot card: its name and the candidate index its button submits. */
  datatype VoteButton = VoteButton(name: string, candidateIndex: nat)

  /** The three cards, left to right. */
  function VoteButtons(): (bs: seq<VoteButton>)
    ensures |bs| == 3
    ensures forall k :: 0 <= k < |bs| ==> bs[k].candidateIndex == k
  {
    [VoteButton("Zama Fox", 0), VoteButton("Zama Rabit", 1), VoteButton("Zama Bear", 2)]
  }

  /** The `disabled` attribute shared by the three vote buttons. */
  predicate VoteButtonDisabled(phase: int, status: Status, hasVoted: bool) {
    phase != OpenPhase || status == Loading || hasVoted
  }

  function VoteButtonLabel(b: VoteButton, hasVoted: bool): string
  {
    if hasVoted then "Already Voted" else "Vote for " + b.name
  }

  /** Once voted, every button reads "Already Voted" and none is pressable;
      before that, each reads "Vote for" its mascot. */
  lemma VoteButtonStates(b: VoteButton, phase: int, status: Status, hasVoted: bool)
    ensures VoteButtonLabel(b, hasVoted) == "Already Voted" <==> hasVoted
    ensures hasVoted ==> VoteButtonDisabled(phase, status, hasVoted)
  {
    if !hasVoted {
      assert ("Vote for " + b.name)[0] == 'V';
      assert "Already Voted"[0] == 'A';
    }
  }

  // ----- owner and results buttons -----

  /** The phase in which each owner button is enabled. */
  function RequiredPhase(a: SimpleVoting.AdminAction): int
  {
    match a
    case InitTallies => SetupPhase
    case OpenVoting => SetupPhase
    case CloseVoting => OpenPhase
    case MakeTalliesPublic => ClosedPhase
  }

  /** Owner buttons are rendered for the owner only. */
  predicate OwnerControlsShown(isOwner: bool) {
    isOwner
  }

  predicate OwnerActionEnabled(a: SimpleVoting.AdminAction, phase: int, status: Status) {
    phase == RequiredPhase(a) && status != Loading
  }

  /** An owner button that is both rendered and enabled. */
  predicate OwnerActionPressable(a: SimpleVoting.AdminAction, isOwner: bool, phase: int, status: Status) {
    OwnerControlsShown(isOwner) && OwnerActionEnabled(a, phase, status)
  }

  /** An owner button can be pressed only by a signer whose address is the
      contract owner's (ignoring case), and only in that button's phase. */
  lemma OwnerActionsNeedOwnerSigner(a: SimpleVoting.AdminAction, signer: string, owner: string,
                                    phase: int, status: Status)
    requires OwnerActionPressable(a, IsOwnerAddress(signer, owner), phase, status)
    ensures signer != "" && SameIgnoringCase(signer, owner)
    ensures phase == RequiredPhase(a) && status != Loading
  {
  }

  /** While a vote can be cast, the only owner button that can be pressed is
      Close Voting, and only by the owner. */
  lemma OnlyCloseDuringVoting(a: SimpleVoting.AdminAction, isOwner: bool, phase: int, status: Status, hasVoted: bool)
    requires !VoteButtonDisabled(phase, status, hasVoted)
    ensures OwnerActionPressable(a, isOwner, phase, status) <==> isOwner && a == SimpleVoting.CloseVoting
  {
  }

  predicate GetResultsEnabled(phase: int, status: Status) {
    phase == ClosedPhase && status != Loading
  }

  predicate DecryptEnabled(phase: int, status: Status, results: Option<seq<string>>) {
    phase == ClosedPhase && status != Loading && results.Some?
  }

  /** Setup offers exactly Initialize Tallies and Open Voting, Open exactly
      Close Voting, Closed exactly Make Tallies Public; in every lifecycle
      phase some owner action is available, and while loading none is. */
  lemma OwnerActionsByPhase(a: SimpleVoting.AdminAction, phase: int, status: Status)
    ensures status != Loading && phase == SetupPhase ==>
              (OwnerActionEnabled(a, phase, status) <==> a == SimpleVoting.InitTallies || a == SimpleVoting.OpenVoting)
    ensures status != Loading && phase == OpenPhase ==>
              (OwnerActionEnabled(a, phase, status) <==> a == SimpleVoting.CloseVoting)
    ensures status != Loading && phase == ClosedPhase ==>
              (OwnerActionEnabled(a, phase, status) <==> a == SimpleVoting.MakeTalliesPublic)
    ensures status == Loading ==> !OwnerActionEnabled(a, phase, status)
    ensures phase != SetupPhase && phase != OpenPhase && phase != ClosedPhase ==>
              !OwnerActionEnabled(a, phase, status)
  {
  }

  /** Some owner action is enabled in every lifecycle phase when idle. */
  lemma OwnerCanAlwaysProceed(phase: int, status: Status)
    requires phase == SetupPhase || phase == OpenPhase || phase == ClosedPhase
    requires status != Loading
    ensures exists a :: OwnerActionEnabled(a, phase, status)
  {
    if phase == SetupPhase {
      assert OwnerActionEnabled(SimpleVoting.OpenVoting, phase, status);
    } else if phase == OpenPhase {
      assert OwnerActionEnabled(SimpleVoting.CloseVoting, phase, status);
    } else {
      assert OwnerActionEnabled(SimpleVoting.MakeTalliesPublic, phase, status);
    }
  }

  /** Voting and reading results are never open at the same time; decrypting
      needs everything getting results needs, plus stored handles. */
  lemma VotingAndResultsExclusive(phase: int, status: Status, hasVoted: bool, results: Option<seq<string>>)
    ensures !VoteButtonDisabled(phase, status, hasVoted) ==>
              !GetResultsEnabled(phase, status) && !DecryptEnabled(phase, status, results)
    ensures DecryptEnabled(phase, status, results) <==> GetResultsEnabled(phase, status) && results.Some?
    ensures !VoteButtonDisabled(phase, status, hasVoted) ==>
              OwnerActionEnabled(SimpleVoting.CloseVoting, phase, status)
  {
  }
}
