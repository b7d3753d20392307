/** The multi-session voting hook: the client-side state container that mirrors
    the sessions of the multi-session voting contract, the caller's "has voted"
    flags, the encrypted tallies of one session and their public decryption.
    Every call into the contract, the wallet or the encryption SDK is an input:
    a `Remote` holds what each call resolves or rejects with during one
    operation, and a `TxOutcome` how a submitted transaction ends. */
module MultiSessionVoting {
  import opened Wrappers
  import opened JsRuntime
  import opened VotingTypes

  /** The tuple `getSession(i)` resolves to, in its positional order. */
  datatype SessionTuple = SessionTuple(
    title: string,
    description: string,
    candidates: seq<string>,
    startTime: int,
    endTime: int,
    phase: int,
    creator: string)

  /** The value `publicDecrypt` resolves to, in the three shapes the hook tells
      apart. The numbers are the values after `Number()` coercion. */
  datatype DecryptShape =
    | AsArray(items: seq<JsNumber>)
    | AsObject(values: seq<JsNumber>)
    | AsPrimitive(value: JsNumber)

  /** What the contract, the wallet and the SDK answer during one operation.
      `hasUserVoted(user)(sessionId)` and `getEncryptedTally(sessionId)(i)` are
      curried so that one user's flags, or one session's tallies, form an
      index-to-outcome function. `publicDecrypt` is the first of the three
      call shapes that does not reject (or the third one's rejection). */
  datatype Remote = Remote(
    sessionCount: Outcome<nat>,
    getSession: nat -> Outcome<SessionTuple>,
    getVoteCount: nat -> Outcome<int>,
    owner: Outcome<string>,
    signerAddress: Outcome<string>,
    hasUserVoted: string -> nat -> Outcome<bool>,
    getEncryptedTally: nat -> nat -> Outcome<string>,
    publicDecrypt: string -> Outcome<DecryptShape>)

  /** The message and kind of the toast. */
  datatype Toast = Toast(message: string, kind: ToastKind)

  // ----- reading sessions -----

  /** Session `i` as the loop builds it, field by field from `getSession(i)`
      and `getVoteCount(i)`, awaited in that order. */
  function SessionAt(r: Remote, i: nat): Outcome<VotingSession>
  {
    match r.getSession(i)
    case Err(m) => Err(m)
    case Ok(t) =>
      match r.getVoteCount(i)
      case Err(m) => Err(m)
      case Ok(c) => Ok(VotingSession(
        title := t.title, description := t.description, creator := t.creator,
        candidates := t.candidates, voteCount := c,
        startTime := t.startTime, endTime := t.endTime, phase := t.phase))
  }

  /** The loop body of `refreshSessions`, as a function of the index. */
  function SessionReader(r: Remote): nat -> Outcome<VotingSession>
  {
    (i: nat) => SessionAt(r, i)
  }

  /** Sessions `0..n-1`, all or nothing. */
  function ReadSessions(r: Remote, n: nat): Outcome<seq<VotingSession>>
  {
    FetchAll(SessionReader(r), n)
  }

  /** Session `i` mirrors the contract's tuple for `i` and its vote count. */
  lemma ReadSessionsMirrorsLedger(r: Remote, n: nat, i: nat)
    requires ReadSessions(r, n).Ok? && i < n
    ensures r.getSession(i).Ok? && r.getVoteCount(i).Ok?
    ensures |ReadSessions(r, n).value| == n
    ensures var s := ReadSessions(r, n).value[i];
            var t := r.getSession(i).value;
            s.title == t.title && s.description == t.description && s.candidates == t.candidates &&
            s.startTime == t.startTime && s.endTime == t.endTime && s.phase == t.phase &&
            s.creator == t.creator && s.voteCount == r.getVoteCount(i).value
  {
    assert SessionReader(r)(i) == SessionAt(r, i);
  }

  // ----- decryption -----

  /** The number the hook keeps for one decrypted value:
      an array gives `Number(vals[0] || vals)`, an object the first of its
      values (`NaN` when it has none), a primitive itself. */
  function ParseShape(v: DecryptShape): JsNumber
  {
    match v
    case AsArray(xs) =>
      if |xs| > 0 && Truthy(xs[0]) then xs[0]
      else if |xs| == 0 then Finite(0)   // Number([]) is 0
      else if |xs| == 1 then xs[0]       // Number([x]) is x
      else NaN                           // Number([a, b, ...]) is NaN
    case AsObject(vs) => if |vs| > 0 then vs[0] else NaN
    case AsPrimitive(n) => n
  }

  /** The three shapes normalise a single value to the same number. */
  lemma SingleValueShapesAgree(n: JsNumber)
    ensures ParseShape(AsArray([n])) == n
    ensures ParseShape(AsObject([n])) == n
    ensures ParseShape(AsPrimitive(n)) == n
  {
  }

  function ParseAll(vs: seq<DecryptShape>): (r: seq<JsNumber>)
    ensures |r| == |vs|
    ensures forall i :: 0 <= i < |vs| ==> r[i] == ParseShape(vs[i])
  {
    if vs == [] then [] else ParseAll(vs[..|vs| - 1]) + [ParseShape(vs[|vs| - 1])]
  }

  /** Every handle decrypted in order and normalised, or the first rejection. */
  function DecryptAll(r: Remote, handles: seq<string>): Outcome<seq<JsNumber>>
  {
    match FetchEach(handles, r.publicDecrypt)
    case Err(m) => Err(m)
    case Ok(vs) => Ok(ParseAll(vs))
  }

  /** The decryption loop of `decryptPublicResults`. */
  method DecryptEach(r: Remote, handles: seq<string>) returns (out: Outcome<seq<JsNumber>>)
    ensures out == DecryptAll(r, handles)
  {
    var decrypted: seq<JsNumber> := [];
    ghost var raw: seq<DecryptShape> := [];
    var i := 0;
    while i < |handles|
      invariant 0 <= i <= |handles|
      invariant FetchEach(handles[..i], r.publicDecrypt) == Ok(raw)
      invariant decrypted == ParseAll(raw)
    {
      var vals := r.publicDecrypt(handles[i]);
      assert handles[..i + 1][..i] == handles[..i];
      if vals.Err? {
        FetchEachFailureSticks(handles, r.publicDecrypt, i + 1);
        return Err(vals.message);
      }
      assert (raw + [vals.value])[..|raw|] == raw;
      raw := raw + [vals.value];
      decrypted := decrypted + [ParseShape(vals.value)];
      i := i + 1;
    }
    assert handles[..i] == handles;
    return Ok(decrypted);
  }

  /** `decryptedResults` after a decryption over `handles` (the `results` the
      decrypting closure sees): unchanged unless handles are present, the
      session exists and is closed, and every handle decrypts. */
  function DecryptedAfter(env: Env, r: Remote, sessions: seq<VotingSession>, sessionId: nat,
                          handles: Option<seq<string>>, before: Option<seq<JsNumber>>): Option<seq<JsNumber>>
  {
    if !env.hasInstance || handles.None? then before
    else if sessionId >= |sessions| || sessions[sessionId].phase != ClosedPhase then before
    else match DecryptAll(r, handles.value)
      case Err(_) => before
      case Ok(ns) => Some(ns)
  }

  /** The toast a decryption leaves, `None` when it leaves the toast alone. */
  function DecryptToast(env: Env, r: Remote, sessions: seq<VotingSession>, sessionId: nat,
                        handles: Option<seq<string>>): Option<Toast>
  {
    if !env.hasInstance || handles.None? then None
    else if sessionId >= |sessions| || sessions[sessionId].phase != ClosedPhase then
      Some(Toast("Session must be closed and made public before decrypting results", ToastWarning))
    else match DecryptAll(r, handles.value)
      case Err(m) => Some(Toast("Failed to decrypt results: " + m, ToastError))
      case Ok(_) => Some(Toast("Results decrypted successfully!", ToastSuccess))
  }

  /** Decryption commits all or nothing: it writes one number per stored
      handle, in handle order, or leaves the old vector in place. */
  lemma DecryptedAllOrNothing(env: Env, r: Remote, sessions: seq<VotingSession>, sessionId: nat,
                              handles: Option<seq<string>>, before: Option<seq<JsNumber>>)
    ensures var after := DecryptedAfter(env, r, sessions, sessionId, handles, before);
            after == before ||
            (handles.Some? && after.Some? && |after.value| == |handles.value| &&
             forall i :: 0 <= i < |handles.value| ==>
               r.publicDecrypt(handles.value[i]).Ok? &&
               after.value[i] == ParseShape(r.publicDecrypt(handles.value[i]).value))
    ensures handles.Some? && sessionId < |sessions| && sessions[sessionId].phase == ClosedPhase && env.hasInstance &&
            (exists i :: 0 <= i < |handles.value| && r.publicDecrypt(handles.value[i]).Err?) ==>
            DecryptedAfter(env, r, sessions, sessionId, handles, before) == before
    ensures handles.Some? && sessionId < |sessions| && sessions[sessionId].phase == ClosedPhase && env.hasInstance &&
            (forall i :: 0 <= i < |handles.value| ==> r.publicDecrypt(handles.value[i]).Ok?) ==>
            var after := DecryptedAfter(env, r, sessions, sessionId, handles, before);
            after.Some? && |after.value| == |handles.value| &&
            forall i :: 0 <= i < |handles.value| ==> after.value[i] == ParseShape(r.publicDecrypt(handles.value[i]).value)
  {
  }

  // ----- voting -----

  /** How the hook reads a rejected vote, first match wins. */
  datatype VoteErrorKind = AlreadyVoted | OutsideWindow | NotOpen | OtherFailure

  function ClassifyVoteError(message: string): (k: VoteErrorKind)
    ensures k == AlreadyVoted <==> IsAlreadyVotedError(message)
    ensures k == OutsideWindow <==> !IsAlreadyVotedError(message) && Includes(message, "not in time")
    ensures k == NotOpen <==>
              !IsAlreadyVotedError(message) && !Includes(message, "not in time") && Includes(message, "not open")
    ensures k == OtherFailure <==>
              !IsAlreadyVotedError(message) && !Includes(message, "not in time") && !Includes(message, "not open")
  {
    if IsAlreadyVotedError(message) then AlreadyVoted
    else if Includes(message, "not in time") then OutsideWindow
    else if Includes(message, "not open") then NotOpen
    else OtherFailure
  }

  /** The toast of a rejected vote. */
  function VoteFailureToast(k: VoteErrorKind): Toast
  {
    match k
    case AlreadyVoted => Toast("You have already voted! Each address can only vote once per session.", ToastWarning)
    case OutsideWindow => Toast("Voting period has ended or not started yet.", ToastWarning)
    case NotOpen => Toast("This session is not open for voting.", ToastWarning)
    case OtherFailure => Toast("Vote failed. Please try again.", ToastError)
  }

  /** `session?.candidates[candidateIndex] || \`Option ${candidateIndex + 1}\``. */
  function CandidateLabel(sessions: seq<VotingSession>, sessionId: nat, candidateIndex: nat): (text: string)
    ensures text != ""
    ensures sessionId < |sessions| && candidateIndex < |sessions[sessionId].candidates| &&
            sessions[sessionId].candidates[candidateIndex] != "" ==>
            text == sessions[sessionId].candidates[candidateIndex]
    ensures !(sessionId < |sessions| && candidateIndex < |sessions[sessionId].candidates| &&
              sessions[sessionId].candidates[candidateIndex] != "") ==>
            text == "Option " + NatToString(candidateIndex + 1)
  {
    if sessionId < |sessions| && candidateIndex < |sessions[sessionId].candidates| &&
       sessions[sessionId].candidates[candidateIndex] != ""
    then sessions[sessionId].candidates[candidateIndex]
    else "Option " + NatToString(candidateIndex + 1)
  }

  // ----- owner actions -----

  /** The four owner transactions of the hook, with their arguments. */
  datatype AdminOp =
    | CreateSession(title: string, description: string, candidates: seq<string>, startTime: int, endTime: int)
    | OpenSession(sessionId: nat)
    | CloseSession(sessionId: nat)
    | MakeTalliesPublic(sessionId: nat)

  /** Only `makeTalliesPublic` skips the session refresh after confirmation. */
  predicate RefreshesAfter(op: AdminOp) {
    !op.MakeTalliesPublic?
  }

  function AdminSuccessToast(op: AdminOp): Toast
  {
    match op
    case CreateSession(_, _, _, _, _) => Toast("Session created successfully!", ToastSuccess)
    case OpenSession(_) => Toast("Session opened successfully!", ToastSuccess)
    case CloseSession(_) => Toast("Session closed successfully!", ToastSuccess)
    case MakeTalliesPublic(_) => Toast("Tallies made public successfully!", ToastSuccess)
  }

  function AdminFailureToast(op: AdminOp): Toast
  {
    match op
    case CreateSession(_, _, _, _, _) => Toast("Failed to create session", ToastError)
    case OpenSession(_) => Toast("Failed to open session", ToastError)
    case CloseSession(_) => Toast("Failed to close session", ToastError)
    case MakeTalliesPublic(_) => Toast("Failed to make tallies public", ToastError)
  }

  /** The `error` text when the transaction's error has no message. */
  function AdminDefaultError(op: AdminOp): string
  {
    match op
    case CreateSession(_, _, _, _, _) => "Failed to create session"
    case OpenSession(_) => "Failed to open session"
    case CloseSession(_) => "Failed to close session"
    case MakeTalliesPublic(_) => "Failed to make tallies public"
  }

  /** `checkHasVoted`: a point read of the contract's flag; a missing contract
      or a rejected read both answer "not voted". */
  function CheckHasVoted(env: Env, r: Remote, sessionId: nat, user: string): (voted: bool)
    ensures voted <==> env.ReadContract() && r.hasUserVoted(user)(sessionId) == Ok(true)
  {
    if !env.ReadContract() then false
    else match r.hasUserVoted(user)(sessionId)
      case Ok(b) => b
      case Err(_) => false
  }

  class Client {
    var status: Status
    var error: Option<string>
    var sessions: seq<VotingSession>
    var sessionCount: nat
    var owner: string
    var isOwner: bool
    var selectedSessionId: Option<nat>
    var results: Option<seq<string>>
    var decryptedResults: Option<seq<JsNumber>>
    var lastTx: Option<string>
    var hasVotedMap: map<nat, bool>
    var toastMessage: Option<string>
    var toastType: ToastKind

    constructor ()
      ensures status == Idle && error == None
      ensures sessions == [] && sessionCount == 0
      ensures owner == "" && !isOwner && selectedSessionId == None
      ensures results == None && decryptedResults == None && lastTx == None
      ensures hasVotedMap == map[]
      ensures toastMessage == None && toastType == ToastError
    {
      status, error := Idle, None;
      sessions, sessionCount := [], 0;
      owner, isOwner, selectedSessionId := "", false, None;
      results, decryptedResults, lastTx := None, None, None;
      hasVotedMap := map[];
      toastMessage, toastType := None, ToastError;
    }

    /** `hasVotedMap[sessionId]` is truthy. */
    predicate HasVoted(sessionId: nat)
      reads this
    {
      sessionId in hasVotedMap && hasVotedMap[sessionId]
    }

    /** The toast slots hold `t`. */
    predicate ShowsToast(t: Toast)
      reads this
    {
      toastMessage == Some(t.message) && toastType == t.kind
    }

    /** What `refreshSessions` leaves behind, given the values it started from:
        without a read contract or a count nothing changes; otherwise
        `sessionCount` takes the count first, and `sessions` is replaced by
        sessions `0..count-1` only if every one of them is read. */
    ghost predicate SessionsRefreshed(env: Env, r: Remote, sessions0: seq<VotingSession>, count0: nat)
      reads this
    {
      if !env.ReadContract() || r.sessionCount.Err? then
        sessions == sessions0 && sessionCount == count0
      else
        sessionCount == r.sessionCount.value &&
        match ReadSessions(r, r.sessionCount.value)
        case Ok(all) => sessions == all
        case Err(_) => sessions == sessions0
    }

    method RefreshSessions(env: Env, r: Remote)
      modifies this`sessions, this`sessionCount
      ensures SessionsRefreshed(env, r, old(sessions), old(sessionCount))
    {
      if !env.ReadContract() || r.sessionCount.Err? {
        return;
      }
      var count := r.sessionCount.value;
      sessionCount := count;
      var data: seq<VotingSession> := [];
      var i := 0;
      while i < count
        invariant 0 <= i <= count
        invariant ReadSessions(r, i) == Ok(data)
        invariant sessions == old(sessions) && sessionCount == count
      {
        var sessionData := r.getSession(i);
        if sessionData.Err? {
          FetchAllFailureSticks(SessionReader(r), i + 1, count);
          return;
        }
        var voteCount := r.getVoteCount(i);
        if voteCount.Err? {
          FetchAllFailureSticks(SessionReader(r), i + 1, count);
          return;
        }
        var t := sessionData.value;
        data := data + [VotingSession(
          title := t.title, description := t.description, creator := t.creator,
          candidates := t.candidates, voteCount := voteCount.value,
          startTime := t.startTime, endTime := t.endTime, phase := t.phase)];
        i := i + 1;
      }
      sessions := data;
    }

    method RefreshOwner(env: Env, r: Remote)
      modifies this`owner, this`isOwner
      ensures !(env.ReadContract() && env.hasSigner) || r.owner.Err? ==>
                owner == old(owner) && isOwner == old(isOwner)
      ensures env.ReadContract() && env.hasSigner && r.owner.Ok? ==> owner == ToLower(r.owner.value)
      ensures env.ReadContract() && env.hasSigner && r.owner.Ok? ==>
                isOwner == (if r.signerAddress.Ok? then IsOwnerAddress(r.signerAddress.value, r.owner.value)
                            else old(isOwner))
    {
      if !(env.ReadContract() && env.hasSigner) || r.owner.Err? {
        return;
      }
      var o := r.owner.value;
      owner := ToLower(o);
      if r.signerAddress.Err? {
        return;
      }
      var me := ToLower(r.signerAddress.value);
      isOwner := me != "" && me == ToLower(o);
    }

    method RefreshHasVoted(env: Env, r: Remote, sessionId: nat)
      modifies this`hasVotedMap
      ensures if env.ReadContract() && env.hasSigner && r.signerAddress.Ok? &&
                 r.hasUserVoted(r.signerAddress.value)(sessionId).Ok?
              then hasVotedMap == old(hasVotedMap)[sessionId := r.hasUserVoted(r.signerAddress.value)(sessionId).value]
              else hasVotedMap == old(hasVotedMap)
    {
      if !(env.ReadContract() && env.hasSigner) || r.signerAddress.Err? {
        return;
      }
      var status := r.hasUserVoted(r.signerAddress.value)(sessionId);
      if status.Ok? {
        hasVotedMap := hasVotedMap[sessionId := status.value];
      }
    }

    /** The flags of sessions `0..n-1` for the signer, all or nothing. */
    static function VoteFlags(r: Remote, n: nat): Outcome<seq<bool>>
    {
      match r.signerAddress
      case Err(m) => Err(m)
      case Ok(user) => FetchAll(r.hasUserVoted(user), n)
    }

    method LoadAllVotes(env: Env, r: Remote)
      modifies this`hasVotedMap
      ensures var n := |sessions|;
              if env.ReadContract() && env.hasSigner && n > 0 && VoteFlags(r, n).Ok? then
                (forall i: nat :: i in hasVotedMap <==> i < n) &&
                forall i :: 0 <= i < n ==> hasVotedMap[i] == VoteFlags(r, n).value[i]
              else hasVotedMap == old(hasVotedMap)
    {
      var n := |sessions|;
      if !(env.ReadContract() && env.hasSigner) || n == 0 || r.signerAddress.Err? {
        return;
      }
      var flags := r.hasUserVoted(r.signerAddress.value);
      var votes: map<nat, bool> := map[];
      var i := 0;
      while i < n
        invariant 0 <= i <= n
        invariant FetchAll(flags, i).Ok?
        invariant forall k: nat :: k in votes <==> k < i
        invariant forall k :: 0 <= k < i ==> votes[k] == flags(k).value
        invariant hasVotedMap == old(hasVotedMap)
      {
        var hasVoted := flags(i);
        if hasVoted.Err? {
          FetchAllFailureSticks(flags, i + 1, n);
          return;
        }
        votes := votes[i := hasVoted.value];
        i := i + 1;
      }
      hasVotedMap := votes;
    }

    /** `createSession`, `openSession`, `closeSession` and `makeTalliesPublic`:
        loading, then success (after a session refresh, except for
        `makeTalliesPublic`) or error. Nothing happens without a signing
        contract. */
    method SubmitAdminTx(env: Env, op: AdminOp, tx: TxOutcome, r: Remote)
      modifies this`status, this`error, this`lastTx, this`sessions, this`sessionCount,
               this`toastMessage, this`toastType
      ensures !env.WriteContract() ==>
                status == old(status) && error == old(error) && lastTx == old(lastTx) &&
                sessions == old(sessions) && sessionCount == old(sessionCount) &&
                toastMessage == old(toastMessage) && toastType == old(toastType)
      ensures env.WriteContract() ==>
                lastTx == (if tx.NotSent? then old(lastTx) else Some(tx.hash))
      ensures env.WriteContract() && tx.Confirmed? ==>
                status == Success && error == None && ShowsToast(AdminSuccessToast(op)) &&
                if RefreshesAfter(op) then SessionsRefreshed(env, r, old(sessions), old(sessionCount))
                else sessions == old(sessions) && sessionCount == old(sessionCount)
      ensures env.WriteContract() && !tx.Confirmed? ==>
                status == Error && error == Some(OrElse(tx.message, AdminDefaultError(op))) &&
                ShowsToast(AdminFailureToast(op)) &&
                sessions == old(sessions) && sessionCount == old(sessionCount)
    {
      if !env.WriteContract() {
        return;
      }
      status := Loading;
      error := None;
      match tx {
        case NotSent(m) =>
          error := Some(OrElse(m, AdminDefaultError(op)));
          status := Error;
          toastMessage, toastType := Some(AdminFailureToast(op).message), ToastError;
        case SentThenFailed(h, m) =>
          lastTx := Some(h);
          error := Some(OrElse(m, AdminDefaultError(op)));
          status := Error;
          toastMessage, toastType := Some(AdminFailureToast(op).message), ToastError;
        case Confirmed(h) =>
          lastTx := Some(h);
          if RefreshesAfter(op) {
            RefreshSessions(env, r);
          }
          status := Success;
          toastMessage, toastType := Some(AdminSuccessToast(op).message), ToastSuccess;
      }
    }

    /** `vote(sessionId, candidateIndex)`. `attempted` says whether the wallet,
        encryption and transaction calls were made at all; `rejected` says
        whether the call itself rejects: in the "already voted" branch the hook
        calls `setHasVoted`, a name this hook does not declare, after setting the
        toast, so that branch throws and leaves `status` at loading. */
    method Vote(env: Env, sessionId: nat, candidateIndex: nat, tx: TxOutcome)
      returns (attempted: bool, rejected: bool)
      modifies this`status, this`error, this`lastTx, this`hasVotedMap, this`toastMessage, this`toastType
      ensures !(env.WriteContract() && env.hasInstance) ==>
                !attempted && !rejected &&
                status == old(status) && error == old(error) && lastTx == old(lastTx) &&
                hasVotedMap == old(hasVotedMap) &&
                toastMessage == old(toastMessage) && toastType == old(toastType)
      ensures env.WriteContract() && env.hasInstance && old(HasVoted(sessionId)) ==>
                !attempted && !rejected &&
                status == old(status) && error == old(error) && lastTx == old(lastTx) &&
                hasVotedMap == old(hasVotedMap) &&
                ShowsToast(Toast("You have already voted in this session!", ToastWarning))
      ensures env.WriteContract() && env.hasInstance && !old(HasVoted(sessionId)) ==>
                attempted &&
                lastTx == (if tx.NotSent? then old(lastTx) else Some(tx.hash))
      ensures attempted && tx.Confirmed? ==>
                !rejected && status == Success && error == None &&
                hasVotedMap == old(hasVotedMap)[sessionId := true] &&
                ShowsToast(Toast("Vote submitted successfully! You voted for: " +
                                 CandidateLabel(sessions, sessionId, candidateIndex), ToastSuccess))
      ensures attempted && !tx.Confirmed? ==>
                var kind := ClassifyVoteError(tx.message);
                hasVotedMap == old(hasVotedMap) &&
                rejected == (kind == AlreadyVoted) &&
                ShowsToast(VoteFailureToast(kind)) &&
                (if kind == OtherFailure then status == Error && error == Some(OrElse(tx.message, "Vote failed"))
                 else status == Loading && error == None)
    {
      attempted, rejected := false, false;
      if !(env.WriteContract() && env.hasInstance) {
        return;
      }
      if HasVoted(sessionId) {
        toastMessage, toastType := Some("You have already voted in this session!"), ToastWarning;
        return;
      }
      status := Loading;
      error := None;
      attempted := true;
      match tx {
        case Confirmed(h) =>
          lastTx := Some(h);
          hasVotedMap := hasVotedMap[sessionId := true];
          status := Success;
          toastMessage := Some("Vote submitted successfully! You voted for: " +
                               CandidateLabel(sessions, sessionId, candidateIndex));
          toastType := ToastSuccess;
        case NotSent(m) =>
          rejected := FailVote(m);
        case SentThenFailed(h, m) =>
          lastTx := Some(h);
          rejected := FailVote(m);
      }
    }

    /** The `catch` block of `vote`; answers whether it throws. */
    method FailVote(message: string) returns (rejected: bool)
      modifies this`status, this`error, this`toastMessage, this`toastType
      ensures var kind := ClassifyVoteError(message);
              rejected == (kind == AlreadyVoted) &&
              ShowsToast(VoteFailureToast(kind)) &&
              if kind == OtherFailure then status == Error && error == Some(OrElse(message, "Vote failed"))
              else status == old(status) && error == old(error)
    {
      rejected := false;
      var kind := ClassifyVoteError(message);
      match kind {
        case AlreadyVoted =>
          toastMessage, toastType := Some(VoteFailureToast(kind).message), ToastWarning;
          // `setHasVoted(true)` is not declared in this hook: the call throws.
          rejected := true;
        case OutsideWindow =>
          toastMessage, toastType := Some(VoteFailureToast(kind).message), ToastWarning;
        case NotOpen =>
          toastMessage, toastType := Some(VoteFailureToast(kind).message), ToastWarning;
        case OtherFailure =>
          error := Some(OrElse(message, "Vote failed"));
          status := Error;
          toastMessage, toastType := Some(VoteFailureToast(kind).message), ToastError;
      }
    }

    /** `decryptPublicResults` run by a closure that sees `handles` as
        `results`. */
    method DecryptFrom(env: Env, r: Remote, sessionId: nat, handles: Option<seq<string>>)
      modifies this`decryptedResults, this`toastMessage, this`toastType
      ensures decryptedResults == DecryptedAfter(env, r, sessions, sessionId, handles, old(decryptedResults))
      ensures var t := DecryptToast(env, r, sessions, sessionId, handles);
              if t.Some? then ShowsToast(t.value)
              else toastMessage == old(toastMessage) && toastType == old(toastType)
    {
      if !env.hasInstance || handles.None? {
        return;
      }
      if sessionId >= |sessions| || sessions[sessionId].phase != ClosedPhase {
        toastMessage := Some("Session must be closed and made public before decrypting results");
        toastType := ToastWarning;
        return;
      }
      var decrypted := DecryptEach(r, handles.value);
      if decrypted.Err? {
        toastMessage := Some("Failed to decrypt results: " + decrypted.message);
        toastType := ToastError;
        return;
      }
      decryptedResults := Some(decrypted.value);
      toastMessage := Some("Results decrypted successfully!");
      toastType := ToastSuccess;
    }

    method DecryptPublicResults(env: Env, r: Remote, sessionId: nat)
      modifies this`decryptedResults, this`toastMessage, this`toastType
      ensures decryptedResults == DecryptedAfter(env, r, sessions, sessionId, results, old(decryptedResults))
      ensures var t := DecryptToast(env, r, sessions, sessionId, results);
              if t.Some? then ShowsToast(t.value)
              else toastMessage == old(toastMessage) && toastType == old(toastType)
    {
      DecryptFrom(env, r, sessionId, results);
    }

    /** `getResults(sessionId)`: one tally per candidate, in candidate order,
        stored all or nothing; then the chained decryption, whose closure sees
        `captured` as `results` (the value from the render it was created in). */
    method GetResults(env: Env, r: Remote, sessionId: nat, captured: Option<seq<string>>)
      modifies this`results, this`decryptedResults, this`toastMessage, this`toastType
      ensures !(env.ReadContract() && env.hasInstance) ==>
                results == old(results) && decryptedResults == old(decryptedResults) &&
                ShowsToast(Toast("Contract or FHEVM not initialized", ToastError))
      ensures env.ReadContract() && env.hasInstance && sessionId >= |sessions| ==>
                results == old(results) && decryptedResults == old(decryptedResults) &&
                ShowsToast(Toast("Session not found", ToastError))
      ensures env.ReadContract() && env.hasInstance && sessionId < |sessions| ==>
                var tallies := FetchAll(r.getEncryptedTally(sessionId), |sessions[sessionId].candidates|);
                if tallies.Ok? then
                  results == Some(tallies.value) &&
                  decryptedResults == DecryptedAfter(env, r, sessions, sessionId, captured, old(decryptedResults)) &&
                  ShowsToast(Toast("Results loaded successfully", ToastSuccess))
                else
                  results == old(results) && decryptedResults == old(decryptedResults) &&
                  ShowsToast(Toast("Failed to get results: " + tallies.message, ToastError))
    {
      if !(env.ReadContract() && env.hasInstance) {
        toastMessage, toastType := Some("Contract or FHEVM not initialized"), ToastError;
        return;
      }
      if sessionId >= |sessions| {
        toastMessage, toastType := Some("Session not found"), ToastError;
        return;
      }
      var candidateCount := |sessions[sessionId].candidates|;
      var tallies := Collect(r.getEncryptedTally(sessionId), candidateCount);
      if tallies.Err? {
        toastMessage := Some("Failed to get results: " + tallies.message);
        toastType := ToastError;
        return;
      }
      results := Some(tallies.value);
      DecryptFrom(env, r, sessionId, captured);
      toastMessage, toastType := Some("Results loaded successfully"), ToastSuccess;
    }
  }

  /** A refresh that fails on any session keeps every cached session. */
  lemma RefreshNeverTears(env: Env, r: Remote, c: Client, sessions0: seq<VotingSession>, count0: nat, k: nat)
    requires c.SessionsRefreshed(env, r, sessions0, count0)
    requires env.ReadContract() && r.sessionCount.Ok? && k < r.sessionCount.value && SessionAt(r, k).Err?
    ensures c.sessions == sessions0
    ensures c.sessionCount == r.sessionCount.value
  {
    assert SessionReader(r)(k).Err?;
  }
}
