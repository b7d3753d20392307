/** The vocabulary both voting hooks share: the status slot, the toast, the
    session record the client mirrors from the contract, which collaborators are
    present, how a transaction ends, and the two small decisions both hooks make
    the same way (who the owner is, and which error means "already voted"). */
module VotingTypes {
  import opened Wrappers
  import opened JsRuntime

  /** `"idle" | "loading" | "success" | "error"` */
  datatype Status = Idle | Loading | Success | Error

  /** `"success" | "error" | "warning"` */
  datatype ToastKind = ToastSuccess | ToastError | ToastWarning

  /** Phases as the contract numbers them: 0 Setup, 1 Open, 2 Closed. */
  const SetupPhase := 0
  const OpenPhase := 1
  const ClosedPhase := 2

  /** One voting session as the client holds it (`VotingSession` interface). */
  datatype VotingSession = VotingSession(
    title: string,
    description: string,
    creator: string,
    candidates: seq<string>,
    voteCount: int,
    startTime: int,
    endTime: int,
    phase: int)

  /** Which collaborators the hook was given. The read-only contract exists when
      there is a deployed address and a provider; the signing contract when
      there is an address and a signer. */
  datatype Env = Env(hasAddress: bool, hasSigner: bool, hasProvider: bool, hasInstance: bool) {
    predicate ReadContract() { hasAddress && hasProvider }
    predicate WriteContract() { hasAddress && hasSigner }
  }

  /** How one transaction ends: it failed before it was sent (wallet, encryption,
      or the send itself rejected), it was sent and waiting for it failed, or it
      was confirmed. */
  datatype TxOutcome =
    | NotSent(message: string)
    | SentThenFailed(hash: string, message: string)
    | Confirmed(hash: string)

  /** `e.message || fallback`: an empty message falls back. */
  function OrElse(message: string, fallback: string): (r: string)
    ensures r == message || r == fallback
    ensures message != "" ==> r == message
    ensures message == "" ==> r == fallback
    ensures r == "" ==> message == "" && fallback == ""
  {
    if message == "" then fallback else message
  }

  /** The signer is the owner: `!!me && me === owner.toLowerCase()` with
      `me` the lower-cased signer address. */
  function IsOwnerAddress(signer: string, owner: string): (r: bool)
    ensures r <==> signer != "" && SameIgnoringCase(signer, owner)
  {
    LowerEqualIffSameIgnoringCase(signer, owner);
    var me := ToLower(signer);
    me != "" && me == ToLower(owner)
  }

  /** The error text both hooks read as "this address has already voted". */
  predicate IsAlreadyVotedError(message: string) {
    Includes(message, "missing revert data") || Includes(message, "CALL_EXCEPTION")
  }

  /** An error whose text carries either marker is read as "already voted",
      wherever in the message the marker stands. */
  lemma AlreadyVotedErrorIffMarker(message: string)
    ensures IsAlreadyVotedError(message) <==>
            (exists i :: OccursAt(message, "missing revert data", i)) ||
            (exists i :: OccursAt(message, "CALL_EXCEPTION", i))
  {
    IncludesIffOccurs(message, "missing revert data");
    IncludesIffOccurs(message, "CALL_EXCEPTION");
  }
}
