/** The single-contract voting hook: one ballot with a fixed candidate list and
    a global phase, a `hasVoted` flag for the connected wallet, the encrypted
    tallies and their public decryption. Calls into the contract, the wallet and
    the encryption SDK are inputs (`Remote`, `TxOutcome`); an operation that
    throws to its caller returns the error's message as `thrown`. */
module SimpleVoting {
  import opened Wrappers
  import opened JsRuntime
  import opened VotingTypes

  // ----- the values the decryption SDK hands back -----

  /** A JavaScript value as far as the decrypt parser tells values apart:
      `undefined`/`null`, a bigint, a string, or anything else (a number, a
      boolean, an object), of which only truthiness matters. */
  datatype JsValue = Nullish | BigInt(n: int) | Str(s: string) | Other(truthy: bool)

  predicate IsTruthy(v: JsValue) {
    match v
    case Nullish => false
    case BigInt(n) => n != 0
    case Str(s) => s != ""
    case Other(t) => t
  }

  /** What `publicDecrypt([handle])` resolves to: an object keyed by handle,
      an array, or a bare value. */
  datatype DecryptReturn =
    | Keyed(entries: map<string, JsValue>)
    | Listed(items: seq<JsValue>)
    | Bare(value: JsValue)

  /** The text of the `TypeError` raised by a property read on `undefined`. */
  const NullishReadError := "Cannot read properties of undefined"

  /** The array index a property key denotes: a canonical decimal numeral. */
  function IndexKey(key: string): (i: Option<nat>)
    ensures i.Some? ==> AllDigits(key)
  {
    if AllDigits(key) && (|key| == 1 || key[0] != '0') then Some(DecimalValue(key)) else None
  }

  /** The index key of a count's own numeral is that count. */
  lemma IndexKeyOfNumeral(n: nat)
    ensures IndexKey(NatToString(n)) == Some(n)
  {
    NatToStringRoundTrip(n);
  }

  /** `vals[key]`: an own entry of an object, an element of an array, a
      one-character string of a string; `undefined` otherwise, and a
      `TypeError` on `undefined` or `null`. */
  function Get(vals: DecryptReturn, key: string): Outcome<JsValue>
  {
    match vals
    case Keyed(m) => Ok(if key in m then m[key] else Nullish)
    case Listed(xs) =>
      var i := IndexKey(key);
      Ok(if i.Some? && i.value < |xs| then xs[i.value] else Nullish)
    case Bare(v) =>
      match v
      case Nullish => Err(NullishReadError)
      case Str(s) =>
        var i := IndexKey(key);
        Ok(if i.Some? && i.value < |s| then Str([s[i.value]]) else Nullish)
      case _ => Ok(Nullish)
  }

  /** `vals` itself as a value: objects and arrays are truthy non-strings. */
  function AsValue(vals: DecryptReturn): JsValue
  {
    match vals
    case Bare(v) => v
    case _ => Other(true)
  }

  /** `vals[handle] || vals[0] || vals`. */
  function ChooseValue(vals: DecryptReturn, handle: string): (r: Outcome<JsValue>)
    ensures r.Err? <==> vals == Bare(Nullish)
    ensures r.Ok? && IsTruthy(Get(vals, handle).value) ==> r.value == Get(vals, handle).value
    ensures r.Ok? && !IsTruthy(Get(vals, handle).value) && IsTruthy(Get(vals, "0").value) ==>
              r.value == Get(vals, "0").value
    ensures r.Ok? && !IsTruthy(Get(vals, handle).value) && !IsTruthy(Get(vals, "0").value) ==>
              r.value == AsValue(vals)
  {
    match Get(vals, handle)
    case Err(m) => Err(m)
    case Ok(a) =>
      if IsTruthy(a) then Ok(a)
      else
        match Get(vals, "0")
        case Err(m) => Err(m)
        case Ok(b) => if IsTruthy(b) then Ok(b) else Ok(AsValue(vals))
  }

  /** The parse at the end of the decrypt loop: a bigint is its value, a
      string of decimal digits is read in base 10, a string starting with `0x`
      in base 16 (longest hexadecimal prefix), and anything else is 0. */
  function ParseValue(v: JsValue): JsNumber
  {
    match v
    case BigInt(n) => Finite(n)
    case Str(s) =>
      if AllDigits(s) then Finite(DecimalValue(s))
      else if StartsWith(s, "0x") then ParseHex0x(s)
      else Finite(0)
    case _ => Finite(0)
  }

  /** The parser yields `NaN` only for a `0x` string with no hexadecimal digit
      right after the prefix, and a negative number only from a bigint. */
  lemma ParseValueOutcomes(v: JsValue)
    ensures ParseValue(v).NaN? <==>
              v.Str? && StartsWith(v.s, "0x") && (|v.s| == 2 || !IsHexDigit(v.s[2]))
    ensures ParseValue(v).Finite? && ParseValue(v).value < 0 ==> v.BigInt? && v.n < 0
  {
    if v.Str? && StartsWith(v.s, "0x") {
      assert v.s[1] == 'x';
      assert !AllDigits(v.s);
    }
  }

  /** A tally rendered in decimal parses back to itself. */
  lemma ParseDecimalRoundTrip(n: nat)
    ensures ParseValue(Str(NatToString(n))) == Finite(n)
  {
    NatToStringRoundTrip(n);
  }

  /** A `0x` string reads as its longest run of hexadecimal digits. */
  lemma ParseHexPrefix(s: string, digits: string, rest: string)
    requires |digits| > 0 && forall i :: 0 <= i < |digits| ==> IsHexDigit(digits[i])
    requires rest == [] || !IsHexDigit(rest[0])
    requires s == "0x" + (digits + rest)
    ensures ParseValue(Str(s)) == Finite(HexValue(digits))
  {
    ParseHex0xIgnoresTrailing(s, digits, rest);
    assert s[1] == 'x';
    assert !AllDigits(s);
  }

  /** An object keyed by the handle yields its entry when that is truthy. */
  lemma KeyedEntryWins(m: map<string, JsValue>, handle: string)
    requires handle in m && IsTruthy(m[handle])
    ensures ChooseValue(Keyed(m), handle) == Ok(m[handle])
  {
  }

  /** A zero tally keyed by its handle falls through both lookups to the
      object itself, which parses as 0: the zero survives. */
  lemma KeyedZeroTallyReadsZero(m: map<string, JsValue>, handle: string)
    requires handle in m && m[handle] == BigInt(0) && "0" !in m
    ensures ChooseValue(Keyed(m), handle).Ok?
    ensures ParseValue(ChooseValue(Keyed(m), handle).value) == Finite(0)
  {
  }

  /** A bare string is indexed by `vals[0]` before the fallback to `vals`:
      a bare decimal string reads as its first digit only. */
  lemma BareStringReadsFirstCharacter(s: string, handle: string)
    requires |s| > 0 && IndexKey(handle).None?
    ensures ChooseValue(Bare(Str(s)), handle) == Ok(Str([s[0]]))
  {
    assert IndexKey("0") == Some(0);
  }

  /** The same quirk for a hexadecimal bare string: `"0x1f"` reads as `"0"`,
      which parses as 0. */
  lemma BareHexStringReadsZero(s: string, handle: string)
    requires StartsWith(s, "0x") && IndexKey(handle).None?
    ensures ChooseValue(Bare(Str(s)), handle).Ok?
    ensures ParseValue(ChooseValue(Bare(Str(s)), handle).value) == Finite(0)
  {
    BareStringReadsFirstCharacter(s, handle);
    assert s[0] == '0';
    assert AllDigits([s[0]]);
  }

  // ----- remote calls -----

  /** What the contract, the wallet and the SDK answer during one operation. */
  datatype Remote = Remote(
    phase: Outcome<int>,
    owner: Outcome<string>,
    signerAddress: Outcome<string>,
    candidateCount: Outcome<nat>,
    candidate: nat -> Outcome<string>,
    encryptedTally: nat -> Outcome<string>,
    publicDecrypt: string -> Outcome<DecryptReturn>)

  /** `candidates(0..n-1)` after `candidateCount()`, all or nothing. */
  function ReadCandidates(r: Remote): Outcome<seq<string>>
  {
    match r.candidateCount
    case Err(m) => Err(m)
    case Ok(n) => FetchAll(r.candidate, n)
  }

  /** `getEncryptedTally(0..n-1)` after `candidateCount()`, all or nothing. */
  function ReadTallies(r: Remote): Outcome<seq<string>>
  {
    match r.candidateCount
    case Err(m) => Err(m)
    case Ok(n) => FetchAll(r.encryptedTally, n)
  }

  /** Decrypting, choosing and parsing one handle. */
  function DecryptOne(r: Remote, handle: string): Outcome<JsNumber>
  {
    match r.publicDecrypt(handle)
    case Err(m) => Err(m)
    case Ok(vals) =>
      match ChooseValue(vals, handle)
      case Err(m) => Err(m)
      case Ok(v) => Ok(ParseValue(v))
  }

  function Decryptor(r: Remote): string -> Outcome<JsNumber>
  {
    (h: string) => DecryptOne(r, h)
  }

  /** The decryption loop of `decryptPublicResults`: one value per handle, in
      handle order, or the first error. */
  method DecryptEach(r: Remote, handles: seq<string>) returns (out: Outcome<seq<JsNumber>>)
    ensures out == FetchEach(handles, Decryptor(r))
  {
    var decrypted: seq<JsNumber> := [];
    var i := 0;
    while i < |handles|
      invariant 0 <= i <= |handles|
      invariant FetchEach(handles[..i], Decryptor(r)) == Ok(decrypted)
    {
      var handle := handles[i];
      assert handles[..i + 1][..i] == handles[..i];
      assert Decryptor(r)(handle) == DecryptOne(r, handle);
      var vals := r.publicDecrypt(handle);
      if vals.Err? {
        FetchEachFailureSticks(handles, Decryptor(r), i + 1);
        return Err(vals.message);
      }
      var val := ChooseValue(vals.value, handle);
      if val.Err? {
        FetchEachFailureSticks(handles, Decryptor(r), i + 1);
        return Err(val.message);
      }
      decrypted := decrypted + [ParseValue(val.value)];
      i := i + 1;
    }
    assert handles[..i] == handles;
    return Ok(decrypted);
  }

  /** The rejection of `refreshPhaseAndOwner`, if it rejects. When both reads
      reject, the phase read's error is taken. */
  function RefreshFailure(env: Env, r: Remote): Option<string>
  {
    if !env.ReadContract() then None
    else if r.phase.Err? then Some(r.phase.message)
    else if r.owner.Err? then Some(r.owner.message)
    else if env.hasSigner && r.signerAddress.Err? then Some(r.signerAddress.message)
    else None
  }

  // ----- admin actions -----

  datatype AdminAction = InitTallies | OpenVoting | CloseVoting | MakeTalliesPublic

  /** Only `makeTalliesPublic` skips the phase/owner refresh. */
  predicate RefreshesAfter(a: AdminAction) {
    !a.MakeTalliesPublic?
  }

  /** The `error` text when the error has no message. */
  function AdminDefaultError(a: AdminAction): string
  {
    match a
    case InitTallies => "initTallies failed"
    case OpenVoting => "open failed"
    case CloseVoting => "close failed"
    case MakeTalliesPublic => "makeTalliesPublic failed"
  }

  class Client {
    var status: Status
    var error: Option<string>
    var candidates: seq<string>
    var phase: int
    var owner: string
    var isOwner: bool
    var results: Option<seq<string>>
    var decryptedResults: Option<seq<JsNumber>>
    var lastTx: Option<string>
    var hasVoted: bool
    var toastMessage: Option<string>
    var toastType: ToastKind

    constructor ()
      ensures status == Idle && error == None
      ensures candidates == [] && phase == SetupPhase && owner == "" && !isOwner
      ensures results == None && decryptedResults == None && lastTx == None
      ensures !hasVoted && toastMessage == None && toastType == ToastError
    {
      status, error := Idle, None;
      candidates, phase, owner, isOwner := [], SetupPhase, "", false;
      results, decryptedResults, lastTx := None, None, None;
      hasVoted, toastMessage, toastType := false, None, ToastError;
    }

    /** What `refreshPhaseAndOwner` leaves behind: phase and lower-cased owner
        once both reads resolve, then the owner flag (false without a signer)
        unless reading the signer's address rejects. */
    ghost predicate PhaseAndOwnerRefreshed(env: Env, r: Remote, phase0: int, owner0: string, isOwner0: bool)
      reads this
    {
      if !env.ReadContract() || r.phase.Err? || r.owner.Err? then
        phase == phase0 && owner == owner0 && isOwner == isOwner0
      else
        phase == r.phase.value && owner == ToLower(r.owner.value) &&
        isOwner == (if !env.hasSigner then false
                    else if r.signerAddress.Err? then isOwner0
                    else IsOwnerAddress(r.signerAddress.value, r.owner.value))
    }

    method RefreshPhaseAndOwner(env: Env, r: Remote) returns (failure: Option<string>)
      modifies this`phase, this`owner, this`isOwner
      ensures failure == RefreshFailure(env, r)
      ensures PhaseAndOwnerRefreshed(env, r, old(phase), old(owner), old(isOwner))
    {
      if !env.ReadContract() {
        return None;
      }
      if r.phase.Err? {
        return Some(r.phase.message);
      }
      if r.owner.Err? {
        return Some(r.owner.message);
      }
      var o := r.owner.value;
      phase := r.phase.value;
      owner := ToLower(o);
      if !env.hasSigner {
        isOwner := false;
        return None;
      }
      if r.signerAddress.Err? {
        return Some(r.signerAddress.message);
      }
      var me := ToLower(r.signerAddress.value);
      isOwner := me != "" && me == ToLower(o);
      return None;
    }

    method GetCandidates(env: Env, r: Remote)
      modifies this`candidates, this`error, this`status
      ensures !env.ReadContract() ==>
                candidates == old(candidates) && error == old(error) && status == old(status)
      ensures env.ReadContract() && ReadCandidates(r).Ok? ==>
                candidates == ReadCandidates(r).value && error == old(error) && status == old(status)
      ensures env.ReadContract() && ReadCandidates(r).Err? ==>
                candidates == old(candidates) && status == Error &&
                error == Some(OrElse(ReadCandidates(r).message, "Failed to get candidates"))
    {
      if !env.ReadContract() {
        return;
      }
      if r.candidateCount.Err? {
        error := Some(OrElse(r.candidateCount.message, "Failed to get candidates"));
        status := Error;
        return;
      }
      var list := Collect(r.candidate, r.candidateCount.value);
      if list.Err? {
        error := Some(OrElse(list.message, "Failed to get candidates"));
        status := Error;
        return;
      }
      candidates := list.value;
    }

    /** `initTallies`, `openVoting`, `closeVoting` and `makeTalliesPublic`. */
    method RunAdmin(env: Env, action: AdminAction, tx: TxOutcome, r: Remote) returns (thrown: Option<string>)
      modifies this`status, this`error, this`lastTx, this`phase, this`owner, this`isOwner
      ensures !env.WriteContract() ==>
                thrown == Some("No signer or contract") &&
                status == old(status) && error == old(error) && lastTx == old(lastTx) &&
                phase == old(phase) && owner == old(owner) && isOwner == old(isOwner)
      ensures env.WriteContract() ==>
                thrown == None && lastTx == (if tx.NotSent? then old(lastTx) else Some(tx.hash))
      ensures env.WriteContract() && !tx.Confirmed? ==>
                status == Error && error == Some(OrElse(tx.message, AdminDefaultError(action))) &&
                phase == old(phase) && owner == old(owner) && isOwner == old(isOwner)
      ensures env.WriteContract() && tx.Confirmed? && !RefreshesAfter(action) ==>
                status == Success && error == None &&
                phase == old(phase) && owner == old(owner) && isOwner == old(isOwner)
      ensures env.WriteContract() && tx.Confirmed? && RefreshesAfter(action) ==>
                var f := RefreshFailure(env, r);
                PhaseAndOwnerRefreshed(env, r, old(phase), old(owner), old(isOwner)) &&
                (if f.None? then status == Success && error == None
                 else status == Error && error == Some(OrElse(f.value, AdminDefaultError(action))))
    {
      if !env.WriteContract() {
        return Some("No signer or contract");
      }
      status, error := Loading, None;
      thrown := None;
      match tx {
        case NotSent(m) =>
          error, status := Some(OrElse(m, AdminDefaultError(action))), Error;
        case SentThenFailed(h, m) =>
          lastTx := Some(h);
          error, status := Some(OrElse(m, AdminDefaultError(action))), Error;
        case Confirmed(h) =>
          lastTx := Some(h);
          status := Success;
          if RefreshesAfter(action) {
            var failure := RefreshPhaseAndOwner(env, r);
            if failure.Some? {
              error, status := Some(OrElse(failure.value, AdminDefaultError(action))), Error;
            }
          }
      }
    }

    /** `vote(candidateIndex)`. `attempted` says whether the wallet,
        encryption and transaction calls were made. */
    method Vote(env: Env, candidateIndex: nat, tx: TxOutcome) returns (thrown: Option<string>, attempted: bool)
      modifies this`status, this`error, this`lastTx, this`hasVoted, this`toastMessage, this`toastType
      ensures thrown == (if !env.hasInstance then Some("FHEVM instance not ready")
                         else if !env.hasSigner then Some("No signer")
                         else if !env.hasAddress then Some("No contract address")
                         else None)
      ensures attempted <==> thrown.None? && !old(hasVoted)
      ensures !attempted ==>
                status == old(status) && error == old(error) && lastTx == old(lastTx) && hasVoted == old(hasVoted)
      ensures thrown.Some? ==> toastMessage == old(toastMessage) && toastType == old(toastType)
      ensures thrown.None? && old(hasVoted) ==>
                toastMessage == Some("You have already voted!") && toastType == ToastWarning
      ensures attempted ==> lastTx == (if tx.NotSent? then old(lastTx) else Some(tx.hash))
      ensures attempted && tx.Confirmed? ==>
                hasVoted && status == Success && error == None &&
                toastMessage == old(toastMessage) && toastType == old(toastType)
      ensures attempted && !tx.Confirmed? && IsAlreadyVotedError(tx.message) ==>
                hasVoted && status == Loading && error == None &&
                toastMessage == Some("You have already voted! Each address can only vote once.") &&
                toastType == ToastWarning
      ensures attempted && !tx.Confirmed? && !IsAlreadyVotedError(tx.message) ==>
                hasVoted == old(hasVoted) && status == Error && error == Some(OrElse(tx.message, "Failed to vote")) &&
                toastMessage == old(toastMessage) && toastType == old(toastType)
      ensures old(hasVoted) ==> hasVoted
    {
      attempted := false;
      if !env.hasInstance {
        return Some("FHEVM instance not ready"), false;
      }
      if !env.hasSigner {
        return Some("No signer"), false;
      }
      if !env.hasAddress {
        return Some("No contract address"), false;
      }
      thrown := None;
      if hasVoted {
        toastMessage, toastType := Some("You have already voted!"), ToastWarning;
        return;
      }
      status, error := Loading, None;
      attempted := true;
      match tx {
        case Confirmed(h) =>
          lastTx := Some(h);
          hasVoted := true;
          status := Success;
        case NotSent(m) =>
          FailVote(m);
        case SentThenFailed(h, m) =>
          lastTx := Some(h);
          FailVote(m);
      }
    }

    /** The `catch` block of `vote`. */
    method FailVote(message: string)
      modifies this`status, this`error, this`hasVoted, this`toastMessage, this`toastType
      ensures IsAlreadyVotedError(message) ==>
                hasVoted && status == old(status) && error == old(error) &&
                toastMessage == Some("You have already voted! Each address can only vote once.") &&
                toastType == ToastWarning
      ensures !IsAlreadyVotedError(message) ==>
                hasVoted == old(hasVoted) && status == Error && error == Some(OrElse(message, "Failed to vote")) &&
                toastMessage == old(toastMessage) && toastType == old(toastType)
    {
      if IsAlreadyVotedError(message) {
        toastMessage, toastType := Some("You have already voted! Each address can only vote once."), ToastWarning;
        hasVoted := true;
      } else {
        error, status := Some(OrElse(message, "Failed to vote")), Error;
      }
    }

    method GetResults(env: Env, r: Remote) returns (thrown: Option<string>)
      modifies this`status, this`error, this`results
      ensures !env.ReadContract() ==>
                thrown == Some("Readonly contract missing") &&
                status == old(status) && error == old(error) && results == old(results)
      ensures env.ReadContract() ==> thrown == None
      ensures env.ReadContract() && ReadTallies(r).Ok? ==>
                results == Some(ReadTallies(r).value) && status == Success && error == None
      ensures env.ReadContract() && ReadTallies(r).Err? ==>
                results == old(results) && status == Error &&
                error == Some(OrElse(ReadTallies(r).message, "Failed to get results"))
    {
      if !env.ReadContract() {
        return Some("Readonly contract missing");
      }
      thrown := None;
      status, error := Loading, None;
      if r.candidateCount.Err? {
        error, status := Some(OrElse(r.candidateCount.message, "Failed to get results")), Error;
        return;
      }
      var list := Collect(r.encryptedTally, r.candidateCount.value);
      if list.Err? {
        error, status := Some(OrElse(list.message, "Failed to get results")), Error;
        return;
      }
      results := Some(list.value);
      status := Success;
    }

    method DecryptPublicResults(env: Env, r: Remote) returns (thrown: Option<string>)
      modifies this`status, this`error, this`decryptedResults
      ensures thrown == (if results.None? then Some("No results to decrypt")
                         else if !env.hasInstance then Some("FHEVM instance not ready")
                         else None)
      ensures thrown.Some? ==>
                status == old(status) && error == old(error) && decryptedResults == old(decryptedResults)
      ensures thrown.None? ==>
                var d := FetchEach(results.value, Decryptor(r));
                if d.Ok? then decryptedResults == Some(d.value) && status == Success && error == None
                else decryptedResults == old(decryptedResults) && status == Error &&
                     error == Some(OrElse(d.message, "Failed to decrypt results"))
    {
      if results.None? {
        return Some("No results to decrypt");
      }
      if !env.hasInstance {
        return Some("FHEVM instance not ready");
      }
      thrown := None;
      status, error := Loading, None;
      var out := DecryptEach(r, results.value);
      if out.Err? {
        error, status := Some(OrElse(out.message, "Failed to decrypt results")), Error;
        return;
      }
      decryptedResults := Some(out.value);
      status := Success;
    }
  }

  /** A successful decryption has one value per stored handle, each the parse
      of the value chosen from that handle's decryption. */
  lemma DecryptedMatchesHandles(r: Remote, handles: seq<string>, i: nat)
    requires FetchEach(handles, Decryptor(r)).Ok? && i < |handles|
    ensures |FetchEach(handles, Decryptor(r)).value| == |handles|
    ensures r.publicDecrypt(handles[i]).Ok?
    ensures ChooseValue(r.publicDecrypt(handles[i]).value, handles[i]).Ok?
    ensures FetchEach(handles, Decryptor(r)).value[i] ==
            ParseValue(ChooseValue(r.publicDecrypt(handles[i]).value, handles[i]).value)
  {
    assert Decryptor(r)(handles[i]) == DecryptOne(r, handles[i]);
  }
}
