/** The multi-session voting page: the tab filter that sorts sessions by their
    time window, the grid/vote view state and its handlers, and the form that
    creates a session with the fixed Yes/No/Abstain options. The clock is an
    input (`nowMs`, milliseconds as `Date.now()` returns them). */
module FheVoting {
  import opened Wrappers
  import opened JsRuntime
  import opened VotingTypes
  import MultiSessionVoting

  /** `"active" | "upcoming" | "ended" | "owner"` */
  datatype Filter = ActiveTab | UpcomingTab | EndedTab | OwnerTab

  /** `"grid" | "vote"` */
  datatype ViewMode = Grid | VoteView

  // ----- time windows, with `now` in Unix seconds -----

  predicate IsUpcoming(s: VotingSession, now: int) {
    now < s.startTime
  }

  predicate IsActive(s: VotingSession, now: int) {
    now >= s.startTime && now <= s.endTime
  }

  predicate IsEnded(s: VotingSession, now: int) {
    now > s.endTime
  }

  /** Whether tab `f` lists session `s`. */
  predicate Shows(f: Filter, s: VotingSession, now: int) {
    match f
    case UpcomingTab => IsUpcoming(s, now)
    case ActiveTab => IsActive(s, now)
    case EndedTab => IsEnded(s, now)
    case OwnerTab => true
  }

  /** A session whose window is well formed is in exactly one of the three
      time tabs, whatever the clock says. */
  lemma ExactlyOneWindow(s: VotingSession, now: int)
    requires s.startTime <= s.endTime
    ensures IsUpcoming(s, now) || IsActive(s, now) || IsEnded(s, now)
    ensures !(IsUpcoming(s, now) && IsActive(s, now))
    ensures !(IsActive(s, now) && IsEnded(s, now))
    ensures !(IsUpcoming(s, now) && IsEnded(s, now))
  {
  }

  /** Nothing checks that a session starts before it ends; a session whose
      window is inverted is never active, and between its end and its start
      it is listed both as upcoming and as ended. */
  lemma InvertedWindowIsNeverActive(s: VotingSession, now: int)
    requires s.endTime < s.startTime
    ensures !IsActive(s, now)
    ensures s.endTime < now < s.startTime ==> IsUpcoming(s, now) && IsEnded(s, now)
  {
  }

  // ----- the filtered list -----

  /** The indices of the sessions tab `f` lists, in increasing order: the
      reference the filtered list is checked against. */
  function KeptIndices(sessions: seq<VotingSession>, f: Filter, now: int): (k: seq<nat>)
    ensures forall a, b :: 0 <= a < b < |k| ==> k[a] < k[b]
    ensures forall j :: 0 <= j < |k| ==> k[j] < |sessions| && Shows(f, sessions[k[j]], now)
    ensures forall i :: 0 <= i < |sessions| && Shows(f, sessions[i], now) ==> i in k
  {
    if sessions == [] then []
    else
      var init := KeptIndices(sessions[..|sessions| - 1], f, now);
      assert forall j :: 0 <= j < |init| ==> sessions[..|sessions| - 1][init[j]] == sessions[init[j]];
      if Shows(f, sessions[|sessions| - 1], now) then init + [|sessions| - 1] else init
  }

  /** `getFilteredSessions`: `sessions.filter(...)` with the clock read as
      `Math.floor(nowMs / 1000)`. */
  function FilterSessions(sessions: seq<VotingSession>, f: Filter, nowMs: int): seq<VotingSession>
  {
    if sessions == [] then []
    else
      var init := sessions[..|sessions| - 1];
      var last := sessions[|sessions| - 1];
      if Shows(f, last, UnixSeconds(nowMs)) then FilterSessions(init, f, nowMs) + [last]
      else FilterSessions(init, f, nowMs)
  }

  /** The filtered list is the sessions at the kept indices, in order: the
      order-preserving subsequence of exactly the sessions the tab lists. */
  lemma {:induction false} FilterSessionsAtKeptIndices(sessions: seq<VotingSession>, f: Filter, nowMs: int)
    ensures var r := FilterSessions(sessions, f, nowMs);
            var k := KeptIndices(sessions, f, UnixSeconds(nowMs));
            |r| == |k| && forall j :: 0 <= j < |k| ==> r[j] == sessions[k[j]]
  {
    if sessions != [] {
      var init := sessions[..|sessions| - 1];
      FilterSessionsAtKeptIndices(init, f, nowMs);
      assert forall i :: 0 <= i < |init| ==> init[i] == sessions[i];
    }
  }

  /** The owner tab lists every session, in order. */
  lemma {:induction false} OwnerTabShowsAll(sessions: seq<VotingSession>, nowMs: int)
    ensures FilterSessions(sessions, OwnerTab, nowMs) == sessions
  {
    if sessions != [] {
      OwnerTabShowsAll(sessions[..|sessions| - 1], nowMs);
      assert sessions[..|sessions| - 1] + [sessions[|sessions| - 1]] == sessions;
    }
  }

  /** With well-formed windows, the three time tabs together list every
      session exactly once. */
  lemma TimeTabsPartition(sessions: seq<VotingSession>, nowMs: int, i: nat)
    requires i < |sessions| && sessions[i].startTime <= sessions[i].endTime
    ensures var now := UnixSeconds(nowMs);
            (if i in KeptIndices(sessions, UpcomingTab, now) then 1 else 0) +
            (if i in KeptIndices(sessions, ActiveTab, now) then 1 else 0) +
            (if i in KeptIndices(sessions, EndedTab, now) then 1 else 0) == 1
  {
    var now := UnixSeconds(nowMs);
    ExactlyOneWindow(sessions[i], now);
    KeptIndicesOnlyShown(sessions, UpcomingTab, now, i);
    KeptIndicesOnlyShown(sessions, ActiveTab, now, i);
    KeptIndicesOnlyShown(sessions, EndedTab, now, i);
  }

  /** Index `i` is kept exactly when its session is listed. */
  lemma KeptIndicesOnlyShown(sessions: seq<VotingSession>, f: Filter, now: int, i: nat)
    requires i < |sessions|
    ensures i in KeptIndices(sessions, f, now) <==> Shows(f, sessions[i], now)
  {
    var k := KeptIndices(sessions, f, now);
    if i in k {
      var j :| 0 <= j < |k| && k[j] == i;
    }
  }

  // ----- the vote request -----

  /** The arguments of the `vote` call the confirm button makes. */
  datatype VoteRequest = VoteRequest(sessionIndex: nat, optionIndex: nat)

  /** The page's view state. */
  class VotingView {
    var activeFilter: Filter
    var viewMode: ViewMode
    var selectedSessionForVote: Option<nat>
    var selectedVoteOption: Option<nat>
    var showCreateSession: bool
    var votingQuestion: string
    var startTime: string
    var endTime: string

    constructor ()
      ensures activeFilter == ActiveTab && viewMode == Grid
      ensures selectedSessionForVote == None && selectedVoteOption == None
      ensures !showCreateSession && votingQuestion == "" && startTime == "" && endTime == ""
    {
      activeFilter, viewMode := ActiveTab, Grid;
      selectedSessionForVote, selectedVoteOption := None, None;
      showCreateSession, votingQuestion, startTime, endTime := false, "", "", "";
    }

    /** `handleVoteClick`: open the vote view on a session, with no option. */
    method VoteClick(sessionIndex: nat)
      modifies this`selectedSessionForVote, this`viewMode, this`selectedVoteOption
      ensures selectedSessionForVote == Some(sessionIndex) && viewMode == VoteView
      ensures selectedVoteOption == None
    {
      selectedSessionForVote := Some(sessionIndex);
      viewMode := VoteView;
      selectedVoteOption := None;
    }

    /** `handleViewDetails`: the same, keeping the selected option. */
    method ViewDetails(sessionIndex: nat)
      modifies this`selectedSessionForVote, this`viewMode
      ensures selectedSessionForVote == Some(sessionIndex) && viewMode == VoteView
    {
      selectedSessionForVote := Some(sessionIndex);
      viewMode := VoteView;
    }

    /** `handleSelectVoteOption`. */
    method SelectVoteOption(optionIndex: nat)
      modifies this`selectedVoteOption
      ensures selectedVoteOption == Some(optionIndex)
    {
      selectedVoteOption := Some(optionIndex);
    }

    /** `handleConfirmVote`: the `vote` call it makes, if any. */
    method ConfirmVote() returns (request: Option<VoteRequest>)
      ensures request.Some? <==> selectedSessionForVote.Some? && selectedVoteOption.Some?
      ensures request.Some? ==>
                request.value.sessionIndex == selectedSessionForVote.value &&
                request.value.optionIndex == selectedVoteOption.value
    {
      if selectedSessionForVote.Some? && selectedVoteOption.Some? {
        request := Some(VoteRequest(selectedSessionForVote.value, selectedVoteOption.value));
      } else {
        request := None;
      }
    }

    /** `handleBackToGrid`: back to the grid with nothing selected. */
    method BackToGrid()
      modifies this`viewMode, this`selectedSessionForVote, this`selectedVoteOption
      ensures viewMode == Grid && selectedSessionForVote == None && selectedVoteOption == None
    {
      viewMode := Grid;
      selectedSessionForVote := None;
      selectedVoteOption := None;
    }

    /** `handleTabChange`: the owner tab resets the view; the time tabs keep it. */
    method TabChange(tab: Filter)
      modifies this`activeFilter, this`viewMode, this`selectedSessionForVote, this`selectedVoteOption
      ensures activeFilter == tab
      ensures tab == OwnerTab ==>
                viewMode == Grid && selectedSessionForVote == None && selectedVoteOption == None
      ensures tab != OwnerTab ==>
                viewMode == old(viewMode) && selectedSessionForVote == old(selectedSessionForVote) &&
                selectedVoteOption == old(selectedVoteOption)
    {
      activeFilter := tab;
      if tab != ActiveTab && tab != UpcomingTab && tab != EndedTab {
        viewMode := Grid;
        selectedSessionForVote := None;
        selectedVoteOption := None;
      }
    }

    /** `handleCreateSession`, with the two date fields already read as Unix
        seconds: the session it submits, always with the options Yes, No and
        Abstain; then the form is closed and cleared. */
    method SubmitCreateForm(title: string, question: string, startUnix: int, endUnix: int)
      returns (op: MultiSessionVoting.AdminOp)
      modifies this`showCreateSession, this`votingQuestion, this`startTime, this`endTime
      ensures op == MultiSessionVoting.CreateSession(title, question, ["Yes", "No", "Abstain"], startUnix, endUnix)
      ensures !showCreateSession && votingQuestion == "" && startTime == "" && endTime == ""
    {
      var candidates := ["Yes", "No", "Abstain"];
      op := MultiSessionVoting.CreateSession(title, question, candidates, startUnix, endUnix);
      showCreateSession := false;
      votingQuestion := "";
      startTime := "";
      endTime := "";
    }
  }

  /** Confirming right after a vote click makes no vote call: the click
      clears the option. */
  method ConfirmAfterVoteClickIsIdle(view: VotingView, sessionIndex: nat) returns (request: Option<VoteRequest>)
    modifies view
    ensures request == None
  {
    view.VoteClick(sessionIndex);
    request := view.ConfirmVote();
  }
}
