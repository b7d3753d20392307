# encryp-to-vote client core, in Dafny

encryp-to-vote is a browser front end for voting with fully homomorphic
encryption. Ballots are encrypted in the browser. A contract tallies them
under encryption. Once the owner makes the tallies public, anyone can decrypt
them. This project models the client-side logic around those calls:

- **The multi-session hook** (`MultiSessionVoting`, class `Client`). It mirrors
  the contract's sessions and the caller's per-session "has voted" flags. It
  submits the owner's create/open/close/make-public transactions and votes,
  fetches one session's encrypted tallies and decrypts them.
- **The single-contract hook** (`SimpleVoting`, class `Client`). It covers one
  ballot with a global phase and a single `hasVoted` flag. It also holds the
  parser that turns whatever the decryption SDK hands back into a number.
- **The multi-session page** (`FheVoting`):
  - the tab filter that sorts sessions into upcoming, active and ended by time
    window;
  - the grid/vote view state (class `VotingView`);
  - the create-session form with its fixed Yes/No/Abstain options.
- **The session card** (`VotingCard`). It covers the phase names, the
  countdowns, the shortened title, and the action button's label and disabled
  state.
- **The session detail view** (`VotingSessionDetail`). It covers option and
  "Vote Now" enablement, owner controls by phase, and the per-option counts and
  shares.
- **The single-ballot page** (`FheSimpleVoting`). It covers render precedence
  and the per-phase enablement of the vote, owner and results buttons.

Shared pieces:

- `Wrappers`: `Option`, `Outcome` (`Ok(value)` or `Err(message)`), and the
  all-or-nothing loops `FetchAll`, `FetchEach` and `Collect`.
- `JsRuntime`: the JavaScript built-ins the client relies on, written out.
  These are `includes`, ASCII `toLowerCase`, `/^\d+$/` with `parseInt(s, 10)`,
  `parseInt(s, 16)` on `0x` strings, decimal rendering of counts, and
  `Math.floor(ms / 1000)`.
- `VotingTypes`: the status slot, the toast kind, the session record, which
  collaborators are present, how a transaction ends, the owner comparison, and
  the "already voted" error test.

Every contract, wallet or SDK call is an input. A `Remote` value holds what
each call resolves or rejects with during one operation. A `TxOutcome` says how
a transaction ends: rejected before it was sent, sent and then failed, or
confirmed. Which collaborators exist is an `Env`. The clock is an integer
parameter in milliseconds. An operation that throws to its caller returns the
error's message as `thrown`. In the multi-session hook's `Vote`, a `rejected`
flag says the call rejects.

Behaviour of the code worth knowing:

- `results` and `decryptedResults` are single arrays. Each fetch overwrites
  them. They are not maps keyed by session.
- Creating a session checks nothing about `startTime < endTime`.
  `FheVoting.InvertedWindowIsNeverActive` shows what such a session looks like
  to the filter.
- In the multi-session hook, an "already voted" rejection does not set the
  flag. The branch calls an undeclared `setHasVoted` and throws. `status`
  stays `"loading"` and `hasVotedMap` is unchanged. The single-contract hook
  does set `hasVoted`.
- A "not in time" or "not open" rejection is a warning toast, not an error
  state. `status` stays `"loading"`.
- Decryption does not default every odd shape to 0. The multi-session hook can
  produce `NaN`. The single-contract hook fails the whole batch when the SDK
  resolves to `undefined`.

## Model

| member | source | states |
|---|---|---|
| Wrappers.FetchAll | packages/site/hooks/useFHEMultiSessionVoting.tsx:343-353 | the awaited loop over indices `0..n-1` succeeds iff every call succeeds; it then returns `n` results in index order; otherwise it returns the message of the first failing index |
| Wrappers.FetchAllFailureSticks | packages/site/hooks/useFHEMultiSessionVoting.tsx:345-352 | once a prefix of the loop has thrown, running more iterations does not change the outcome |
| Wrappers.Collect | packages/site/hooks/useFHESimpleVoting.tsx:180-184 | the push loop returns exactly `FetchAll` of its calls: the full list, or the first rejection |
| Wrappers.FetchEach | packages/site/hooks/useFHESimpleVoting.tsx:204-227 | the `for…of` loop over handles succeeds iff every handle's call succeeds, with one result per handle in order; otherwise it returns the first failing handle's message |
| Wrappers.FetchEachFailureSticks | packages/site/hooks/useFHESimpleVoting.tsx:204-227 | a failure among the first `m` handles is the failure of the whole loop |
| JsRuntime.UnixSeconds | packages/site/components/FHEVoting.tsx:148 | `Math.floor(ms / 1000)` is the whole second `s` with `1000·s ≤ ms < 1000·s + 1000` |
| JsRuntime.IncludesIffOccurs | packages/site/hooks/useFHEMultiSessionVoting.tsx:297 | `includes` is true exactly when the needle occurs at some position |
| JsRuntime.ToLower | packages/site/hooks/useFHEMultiSessionVoting.tsx:98-99 | lower-casing keeps the length and lower-cases each character |
| JsRuntime.LowerEqualIffSameIgnoringCase | packages/site/hooks/useFHEMultiSessionVoting.tsx:100 | comparing lower-cased copies is exactly comparison ignoring case |
| JsRuntime.NatToStringRoundTrip | packages/site/hooks/useFHEMultiSessionVoting.tsx:291 | `${n}` is a non-empty digit string without a leading zero, and reading it in base 10 gives back `n` |
| JsRuntime.HexRunLength | packages/site/hooks/useFHESimpleVoting.tsx:219 | returns the length of the longest prefix of hexadecimal digits: everything before it is a hex digit, and the next character is not |
| JsRuntime.ParseHex0x | packages/site/hooks/useFHESimpleVoting.tsx:218-219 | `parseInt(s, 16)` on a `0x` string is `NaN` iff no hex digit follows the prefix; otherwise it is non-negative |
| JsRuntime.ParseHex0xIgnoresTrailing | packages/site/hooks/useFHESimpleVoting.tsx:219 | characters after the first non-hex character do not change the parsed value |
| JsRuntime.HexRunOfDigits | packages/site/hooks/useFHESimpleVoting.tsx:219 | the hex run of `digits + rest` is all of `digits` when `rest` starts with a non-hex character |
| VotingTypes.OrElse | packages/site/hooks/useFHEMultiSessionVoting.tsx:176 | `e.message \|\| fallback` is the message when it is non-empty and the fallback when it is empty, so it is empty only if both are |
| VotingTypes.IsOwnerAddress | packages/site/hooks/useFHEMultiSessionVoting.tsx:97-100 | the owner flag is true iff the signer address is non-empty and equals the owner address ignoring case |
| VotingTypes.AlreadyVotedErrorIffMarker | packages/site/hooks/useFHEMultiSessionVoting.tsx:297 | an error reads as "already voted" iff "missing revert data" or "CALL_EXCEPTION" occurs anywhere in its message |
| MultiSessionVoting.Client.constructor | packages/site/hooks/useFHEMultiSessionVoting.tsx:35-49 | the initial state: idle, no error, no sessions, count 0, empty owner, no selection, no results, empty flag map, no toast, toast kind "error" |
| MultiSessionVoting.Client.RefreshSessions | packages/site/hooks/useFHEMultiSessionVoting.tsx:65-92 | without a read contract or a count, nothing changes; otherwise `sessionCount` takes the count before the loop, and `sessions` is replaced by sessions `0..count-1` only if every session and vote-count read succeeds; otherwise it is unchanged |
| MultiSessionVoting.ReadSessionsMirrorsLedger | packages/site/hooks/useFHEMultiSessionVoting.tsx:73-86 | after a full read, there are `count` sessions, and session `i` has the title, description, candidates, window, phase and creator of `getSession(i)` and the vote count of `getVoteCount(i)` |
| MultiSessionVoting.RefreshNeverTears | packages/site/hooks/useFHEMultiSessionVoting.tsx:69-91 | if any one session read fails, the cached sessions are kept whole while `sessionCount` already holds the new count |
| MultiSessionVoting.Client.RefreshOwner | packages/site/hooks/useFHEMultiSessionVoting.tsx:94-104 | the owner is stored lower-cased once read; the owner flag follows `IsOwnerAddress`; it is kept if reading the signer's address fails |
| MultiSessionVoting.Client.RefreshHasVoted | packages/site/hooks/useFHEMultiSessionVoting.tsx:107-116 | a successful read changes only key `sessionId` of the flag map; any failure or missing collaborator leaves the map unchanged |
| MultiSessionVoting.Client.LoadAllVotes | packages/site/hooks/useFHEMultiSessionVoting.tsx:119-134 | when there are sessions and every flag read succeeds, the map is replaced wholesale, with keys exactly `0..sessions.length-1` holding the flags read; otherwise, including with no sessions, it is unchanged |
| MultiSessionVoting.CheckHasVoted | packages/site/hooks/useFHEMultiSessionVoting.tsx:450-459 | the answer is true iff there is a read contract and the ledger's flag read resolves to true; a failed read answers false |
| MultiSessionVoting.Client.SubmitAdminTx | packages/site/hooks/useFHEMultiSessionVoting.tsx:159-255 | without a signing contract nothing changes; once sent, `lastTx` holds the hash; on confirmation: success, the operation's success toast, and a session refresh except after make-public; on failure: error status, `e.message \|\| default`, the failure toast, sessions untouched |
| MultiSessionVoting.Client.Vote | packages/site/hooks/useFHEMultiSessionVoting.tsx:258-314 | without signer, contract or instance nothing happens; if the local flag is already set, no call is made, only the warning toast changes; on confirmation, only key `sessionId` becomes true, with success and the candidate's label; on failure the map is unchanged and the error is classified |
| MultiSessionVoting.Client.FailVote | packages/site/hooks/useFHEMultiSessionVoting.tsx:295-313 | the three warning kinds set a warning toast and leave status and error alone; the already-voted kind then throws; only an unclassified failure sets error status and `e.message \|\| "Vote failed"` |
| MultiSessionVoting.ClassifyVoteError | packages/site/hooks/useFHEMultiSessionVoting.tsx:297-312 | first match wins: already-voted markers, then "not in time", then "not open", else other; each kind holds iff every earlier test fails and its own succeeds |
| MultiSessionVoting.CandidateLabel | packages/site/hooks/useFHEMultiSessionVoting.tsx:290-292 | the label is never empty; it is the candidate's name when that exists and is non-empty, otherwise "Option k+1" |
| MultiSessionVoting.Client.GetResults | packages/site/hooks/useFHEMultiSessionVoting.tsx:317-368 | a missing collaborator or session is reported and fetches nothing; when every candidate's tally is read, `results` holds one handle per candidate in candidate order, followed by the chained decryption over the captured `results` and the "loaded" toast; otherwise `results` is unchanged and the error toast shown |
| MultiSessionVoting.Client.DecryptFrom | packages/site/hooks/useFHEMultiSessionVoting.tsx:371-439 | without an instance or handles nothing changes; an absent or unclosed session gets a warning and no change; otherwise the decrypted vector is written only when every handle decrypts, else kept, with the matching toast |
| MultiSessionVoting.Client.DecryptPublicResults | packages/site/hooks/useFHEMultiSessionVoting.tsx:371-439 | the decryption over the hook's current `results`, with the outcome of `DecryptFrom` |
| MultiSessionVoting.DecryptEach | packages/site/hooks/useFHEMultiSessionVoting.tsx:389-428 | the loop yields each handle's decrypted shape normalised, in handle order, or the first rejection |
| MultiSessionVoting.ParseAll | packages/site/hooks/useFHEMultiSessionVoting.tsx:413-427 | one parsed number per decrypted shape, position by position |
| MultiSessionVoting.SingleValueShapesAgree | packages/site/hooks/useFHEMultiSessionVoting.tsx:413-424 | a one-element array, a one-entry object and a bare value all normalise to that value |
| MultiSessionVoting.DecryptedAllOrNothing | packages/site/hooks/useFHEMultiSessionVoting.tsx:385-438 | after a decryption the vector is either the old one, or one number per stored handle, each the normalised decryption of that handle; any rejecting handle keeps the old vector; for a closed session with an SDK instance whose handles all decrypt, the new vector is always written |
| SimpleVoting.IndexKey | packages/site/hooks/useFHESimpleVoting.tsx:210 | a property key denotes an array index only if it is a decimal numeral |
| SimpleVoting.IndexKeyOfNumeral | packages/site/hooks/useFHESimpleVoting.tsx:210 | the numeral of `n` denotes index `n` (so `vals[0]` reads element 0) |
| SimpleVoting.ChooseValue | packages/site/hooks/useFHESimpleVoting.tsx:210 | `vals[handle] \|\| vals[0] \|\| vals` throws iff the SDK resolved to `undefined`/`null`; otherwise it picks the first truthy of the two lookups, else `vals` itself |
| SimpleVoting.ParseValueOutcomes | packages/site/hooks/useFHESimpleVoting.tsx:213-223 | the parser gives `NaN` iff the value is a `0x` string with no hex digit after the prefix; only a negative bigint gives a negative number |
| SimpleVoting.ParseDecimalRoundTrip | packages/site/hooks/useFHESimpleVoting.tsx:216-217 | a count rendered in decimal parses back to that count |
| SimpleVoting.ParseHexPrefix | packages/site/hooks/useFHESimpleVoting.tsx:218-219 | a `0x` string parses as its longest run of hex digits |
| SimpleVoting.KeyedEntryWins | packages/site/hooks/useFHESimpleVoting.tsx:209-210 | an object keyed by the handle yields that entry when it is truthy |
| SimpleVoting.KeyedZeroTallyReadsZero | packages/site/hooks/useFHESimpleVoting.tsx:210-223 | a zero tally keyed by its handle falls through to the object itself and still parses as 0 |
| SimpleVoting.BareStringReadsFirstCharacter | packages/site/hooks/useFHESimpleVoting.tsx:210 | a bare non-empty string is indexed by `vals[0]`: only its first character is parsed |
| SimpleVoting.BareHexStringReadsZero | packages/site/hooks/useFHESimpleVoting.tsx:210-219 | a bare `0x…` string therefore parses as 0 |
| SimpleVoting.DecryptEach | packages/site/hooks/useFHESimpleVoting.tsx:204-227 | the loop yields one parsed value per handle in handle order, or the first error (SDK rejection or `TypeError`) |
| SimpleVoting.DecryptedMatchesHandles | packages/site/hooks/useFHESimpleVoting.tsx:204-229 | a successful decryption has one value per handle, each the parse of the value chosen from that handle's decryption |
| SimpleVoting.Client.constructor | packages/site/hooks/useFHESimpleVoting.tsx:22-35 | the initial state: idle, no error, no candidates, phase 0, not owner, no results, not voted, no toast |
| SimpleVoting.Client.RefreshPhaseAndOwner | packages/site/hooks/useFHESimpleVoting.tsx:50-57 | rejects with the first failing read; phase and lower-cased owner are set once both reads resolve; the owner flag is false without a signer, kept if the address read rejects, else `IsOwnerAddress` |
| SimpleVoting.Client.GetCandidates | packages/site/hooks/useFHESimpleVoting.tsx:59-73 | the list is replaced by `candidateCount` names in index order only if every read succeeds; on failure it is kept and the status is error, with `e.message \|\| "Failed to get candidates"` |
| SimpleVoting.Client.RunAdmin | packages/site/hooks/useFHESimpleVoting.tsx:75-128 | without a signing contract it throws before touching state; otherwise loading ends in error on a failed transaction, or in success; after init/open/close a phase/owner refresh follows, and its rejection turns the status to error |
| SimpleVoting.Client.Vote | packages/site/hooks/useFHESimpleVoting.tsx:130-169 | throws in order without instance, signer or address; with `hasVoted` already set, no call is made and only the warning toast changes; success sets `hasVoted`; an already-voted error also sets it with a warning and no error status; any other error sets error status and leaves `hasVoted`; `hasVoted` never goes back to false |
| SimpleVoting.Client.FailVote | packages/site/hooks/useFHESimpleVoting.tsx:157-168 | an already-voted error sets `hasVoted` and a warning; any other error sets error status and `e.message \|\| "Failed to vote"` |
| SimpleVoting.Client.GetResults | packages/site/hooks/useFHESimpleVoting.tsx:171-193 | without a read contract it throws before any change; `results` becomes `candidateCount` handles in index order only if every read succeeds, else it is kept and the status is error |
| SimpleVoting.Client.DecryptPublicResults | packages/site/hooks/useFHESimpleVoting.tsx:195-236 | throws before any change without results, then without an instance; otherwise the vector is written only after every handle is decrypted and parsed, else it is kept and the status is error |
| FheVoting.ExactlyOneWindow | packages/site/components/FHEVoting.tsx:149-151 | a session with `startTime ≤ endTime` is exactly one of upcoming, active, ended at any time |
| FheVoting.InvertedWindowIsNeverActive | packages/site/components/FHEVoting.tsx:149-151 | a session ending before it starts is never active, and between its end and its start it is both upcoming and ended |
| FheVoting.KeptIndices | packages/site/components/FHEVoting.tsx:147-160 | the indices a tab lists are strictly increasing and valid; each listed session matches the tab, and every matching session is listed |
| FheVoting.FilterSessionsAtKeptIndices | packages/site/components/FHEVoting.tsx:147-160 | the filtered list is the sessions at the kept indices, in order: an order-preserving subsequence holding exactly the matching sessions |
| FheVoting.KeptIndicesOnlyShown | packages/site/components/FHEVoting.tsx:153-158 | an index is kept iff its session matches the tab |
| FheVoting.OwnerTabShowsAll | packages/site/components/FHEVoting.tsx:157 | the owner tab lists every session, in order |
| FheVoting.TimeTabsPartition | packages/site/components/FHEVoting.tsx:149-156 | with a well-formed window, each session is listed by exactly one of the three time tabs |
| FheVoting.VotingView.constructor | packages/site/components/FHEVoting.tsx:15-24 | the initial view: active tab, grid, nothing selected, form closed and empty |
| FheVoting.VotingView.VoteClick | packages/site/components/FHEVoting.tsx:163-167 | selects the session, switches to the vote view, clears the option |
| FheVoting.VotingView.ViewDetails | packages/site/components/FHEVoting.tsx:170-173 | selects the session and switches to the vote view, keeping the option |
| FheVoting.VotingView.SelectVoteOption | packages/site/components/FHEVoting.tsx:176-178 | selects the option |
| FheVoting.VotingView.ConfirmVote | packages/site/components/FHEVoting.tsx:181-185 | a vote request is made iff both a session and an option are selected, and it carries exactly those two |
| FheVoting.ConfirmAfterVoteClickIsIdle | packages/site/components/FHEVoting.tsx:163-185 | confirming right after a vote click makes no vote call |
| FheVoting.VotingView.BackToGrid | packages/site/components/FHEVoting.tsx:188-192 | always back to the grid with nothing selected |
| FheVoting.VotingView.TabChange | packages/site/components/FHEVoting.tsx:195-202 | the tab is set; the owner tab resets view and selections; the time tabs keep them |
| FheVoting.VotingView.SubmitCreateForm | packages/site/components/FHEVoting.tsx:204-234 | the submitted session always has the options Yes, No, Abstain and the given title, question and window; the form is then closed and cleared |
| VotingCard.PhaseText | packages/site/components/VotingCard.tsx:33-40 | 0/1/2 name Setup/Open/Closed; every other value, and only those, reads "Unknown" |
| VotingCard.Decompose | packages/site/components/VotingCard.tsx:48-50 | for `r > 0`: hours < 24, minutes < 60, and `d·86400 + h·3600 + m·60 ≤ r < that + 60` |
| VotingCard.FormByMagnitude | packages/site/components/VotingCard.tsx:52-54 | a wait of a day or more shows "Xd Yh", of an hour or more "Xh Ym", else "Xm" |
| VotingCard.FormatStartsWithDigit | packages/site/components/VotingCard.tsx:52-54 | every formatted countdown starts with a digit |
| VotingCard.TimeRemaining | packages/site/components/VotingCard.tsx:42-55 | "Ended" iff `endTime − now ≤ 0`; otherwise a countdown, which starts with a digit and so is never "Ended" |
| VotingCard.TimeRemainingCountdown | packages/site/components/VotingCard.tsx:42-55 | while time remains, the text is the countdown of the whole minutes left (hours < 24, minutes < 60, at most 59 seconds dropped), in the days/hours/minutes template the size of the wait selects |
| VotingCard.StartsIn | packages/site/components/VotingCard.tsx:57-70 | "Started" iff `startTime − now ≤ 0`; otherwise "Starts in " followed by the same countdown `getTimeRemaining` gives for the start |
| VotingCard.DisplayTitle | packages/site/components/VotingCard.tsx:105-108 | an empty title becomes the default; a title over 75 characters becomes its first 75 plus "..."; otherwise it is unchanged; the result has 1 to 78 characters |
| VotingCard.BeforeStartIffWholeSeconds | packages/site/components/VotingCard.tsx:147 | comparing the fractional `Date.now() / 1000` with an integer start is the same as comparing whole seconds |
| VotingCard.ActionDisabledCases | packages/site/components/VotingCard.tsx:146-148 | the button is disabled iff the card is active and the user has voted or the session is not open and not yet started |
| VotingCard.ActiveStyleMatchesEnablement | packages/site/components/VotingCard.tsx:142-148 | on an active card the clickable style is shown exactly when the button is enabled |
| VotingCard.LabelsAndTargets | packages/site/components/VotingCard.tsx:136-155 | the three declared card types have distinct labels and an owner card reads like an active one; only upcoming cards open the details handler |
| VotingCard.OwnerCardNeverDisabled | packages/site/components/VotingCard.tsx:136-155 | a card of type `"owner"` (passed at packages/site/components/VotingTabs.tsx line 336) reads "Vote Now", opens the vote view and is never disabled, yet shows the grey not-allowed style once its user has voted |
| VotingSessionDetail.OwnerCanAlwaysSelect | packages/site/components/VotingSessionDetail.tsx:138 | an owner's option buttons are never disabled, and "Vote Now" is shown to the owner |
| VotingSessionDetail.OptionsEnabledIffVoteNowShown | packages/site/components/VotingSessionDetail.tsx:138-217 | options are enabled exactly when "Vote Now" is shown; for a non-owner, exactly in an open session before voting |
| VotingSessionDetail.VoteNowPressable | packages/site/components/VotingSessionDetail.tsx:225-227 | whenever "Vote Now" is enabled its label reads "Vote Now", never "Processing..." |
| VotingSessionDetail.OwnerControlsByPhase | packages/site/components/VotingSessionDetail.tsx:176-203 | "Open Session" only in Setup, "Make Results Public" only when Closed, "Close Session" in every phase and never disabled; none for non-owners |
| VotingSessionDetail.LoadingFreezesActions | packages/site/components/VotingSessionDetail.tsx:176-227 | while loading, View Results, Vote Now, Open Session and Make Results Public are disabled and Close Session is not |
| VotingSessionDetail.CountCellOf | packages/site/components/VotingSessionDetail.tsx:152-160 | an option shows a count exactly when both handles and decrypted values are present; the count shown is never `NaN`, and a non-zero count is that option's decrypted entry |
| VotingSessionDetail.DisplayedCount | packages/site/components/VotingSessionDetail.tsx:154 | `decryptedResults[idx] \|\| 0` is never `NaN`; it is non-zero iff the entry exists and is truthy, and then it is that entry |
| VotingSessionDetail.Total | packages/site/components/VotingSessionDetail.tsx:154 | the reduce sum is `NaN` iff some entry is `NaN`; a finite sum is the sum of the entries' values, counted first to last |
| VotingSessionDetail.SharesSumToHundred | packages/site/components/VotingSessionDetail.tsx:154 | with a positive finite total (hence no `NaN` entry), the unrounded shares of all options add up to 100 |
| VotingSessionDetail.PartialShares | packages/site/components/VotingSessionDetail.tsx:154 | the shares of the first `n` options are the running sum over the total, times 100 |
| FheSimpleVoting.RenderedScreen | packages/site/components/FHESimpleVoting.tsx:61-75 | not connected first, then SDK error, then voting error; the main view iff none applies |
| FheSimpleVoting.VoteButtons | packages/site/components/FHESimpleVoting.tsx:174-224 | three vote buttons, and button `k` submits candidate index `k` |
| FheSimpleVoting.VoteButtonStates | packages/site/components/FHESimpleVoting.tsx:175-178 | the label reads "Already Voted" iff the user has voted, and a user who has voted can press no vote button |
| FheSimpleVoting.OwnerActionsByPhase | packages/site/components/FHESimpleVoting.tsx:239-269 | when not loading: Setup enables exactly Initialize Tallies and Open Voting, Open exactly Close Voting, Closed exactly Make Tallies Public; nothing while loading or outside the three phases |
| FheSimpleVoting.OwnerCanAlwaysProceed | packages/site/components/FHESimpleVoting.tsx:239-269 | in every lifecycle phase, when idle, some owner action is enabled |
| FheSimpleVoting.OwnerActionsNeedOwnerSigner | packages/site/components/FHESimpleVoting.tsx:235-271 | a pressable owner button implies the signer's address is non-empty and equals the owner's ignoring case, and the phase is that button's phase with nothing loading |
| FheSimpleVoting.OnlyCloseDuringVoting | packages/site/components/FHESimpleVoting.tsx:175-271 | while a vote can be cast, an owner button is pressable iff the user is the owner and the button is Close Voting |
| FheSimpleVoting.VotingAndResultsExclusive | packages/site/components/FHESimpleVoting.tsx:175-286 | while voting is possible neither Get Results nor Decrypt is; Decrypt is enabled iff Get Results is and results are present; voting implies Close Voting is enabled |

## Left out

- Contract reads and writes, `tx.wait()`, the wallet's `getAddress`, and the SDK's `createEncryptedInput`/`encrypt`/`publicDecrypt`. They are opaque inputs. Their semantics live outside this repository.
- The multi-session hook's three `publicDecrypt` call shapes collapse into one outcome: the first that does not reject, or the last one's rejection.
- Arbitrary `Number()` coercion. `DecryptShape` carries numbers after coercion. An array whose first element is a truthy string that coerces to 0 (such as `"0"`) is not distinguished from one whose first element is the number 0.
- Bigint-to-number precision loss, and JavaScript's 53-bit number range. Counts are unbounded integers.
- Exceptions without a `message` property. Every error carries a string message, so `e.message?.includes` never meets `undefined`.
- `SimpleVoting.Get` models own entries, array elements and string characters. It does not model inherited properties or `length`. The `TypeError` text is a fixed string and does not name the key.
- `SimpleVoting.RefreshFailure`: when both the phase and the owner read reject, `Promise.all` rejects with whichever settles first. The model takes the phase read's error.
- `toLowerCase` beyond ASCII letters. Addresses are hexadecimal ASCII.
- String lengths are counted in characters, not UTF-16 code units. This matters to `DisplayTitle` only for characters outside the Basic Multilingual Plane.
- Dates and locales: `new Date(str)`, `toLocaleString`, `Date.now()`. The clock is an integer parameter. The create form's date fields arrive already converted to Unix seconds.
- React effects, memoisation, re-renders and the order in which effects fire. This covers the auto-refresh effects and the single-contract hook's mount effect with its `getCode` check.
- Concurrency between async operations. Each operation runs alone against one `Remote`.
- The stale closure in the multi-session `getResults` is reduced to a `captured` parameter, the `results` the chained decryption sees.
- Percentage rounding with `Math.round`. Shares are unrounded reals, and rounded shares need not sum to 100.
- The plain setters `setSelectedSessionId` and `setToastMessage`, and the inline JSX handlers (show/close the create form, view results). They only assign.
- Presentation: colours, class names, the "Proposal #" header, `voteCount || 0` on cards, option numbering, overlay counts, the tab contents of the single-ballot page, and the multi-session page's loading/connect/SDK-error early returns. The duplicate `getPhaseText` helpers in `FHEVoting.tsx` and `VotingSessionDetail.tsx` are the same function as `VotingCard.PhaseText`.
- VotingTabs.tsx, CreateSessionModal.tsx, WalletButton.tsx, AppHeader.tsx, Toast.tsx, TabNavigation.tsx, NavigationContext.tsx, the app layout, the wallet/chain plumbing, build scripts and deployment scripts. They are plumbing or presentation.
