/** The examination list: collecting one card per assigned set whose status
    and history both arrived, and the decisions each card makes. */
module Examinations {
  import opened Wrappers
  import AttendQuiz

  datatype AssignedSet = AssignedSet(id: int, questionSetId: int, setName: string, category: string)

  type Status = AttendQuiz.Status
  type Attempt = AttendQuiz.Attempt

  /** The replies for one assigned set: the status request, then the history
      request (whose body may lack its `attempts` array). The history request
      is only made when the status request succeeded. */
  datatype SetReplies = SetReplies(
    assignment: AssignedSet,
    statusReply: Option<Status>,
    historyReply: Option<Option<seq<Attempt>>>)

  datatype ExamCard = ExamCard(assignment: AssignedSet, status: Status, attempts: seq<Attempt>)

  /** Both requests for this set succeeded. */
  predicate Fetched(r: SetReplies) {
    r.statusReply.Some? && r.historyReply.Some?
  }

  /** The card pushed for a fetched set; a missing `attempts` array is `[]`. */
  function CardOf(r: SetReplies): ExamCard
    requires Fetched(r)
  {
    ExamCard(r.assignment, r.statusReply.value, r.historyReply.value.GetOr([]))
  }

  /** The cards of the fetched sets, in list order. */
  function Collected(rs: seq<SetReplies>): seq<ExamCard> {
    if rs == [] then []
    else (if Fetched(rs[0]) then [CardOf(rs[0])] else []) + Collected(rs[1..])
  }

  /** The `for` loop of `fetchData`: a set whose status or history request
      fails is skipped, the others are pushed in order. */
  method CollectExams(rs: seq<SetReplies>) returns (exams: seq<ExamCard>)
    ensures exams == Collected(rs)
  {
    exams := [];
    var i := 0;
    while i < |rs|
      invariant 0 <= i <= |rs|
      invariant exams == Collected(rs[..i])
    {
      CollectedAppend(rs[..i], [rs[i]]);
      assert rs[..i + 1] == rs[..i] + [rs[i]];
      if Fetched(rs[i]) {
        exams := exams + [CardOf(rs[i])];
      }
      i := i + 1;
    }
    assert rs[..i] == rs;
  }

  /** Collecting distributes over concatenation, so the cards keep the order
      of their sets. */
  lemma {:induction false} CollectedAppend(a: seq<SetReplies>, b: seq<SetReplies>)
    ensures Collected(a + b) == Collected(a) + Collected(b)
  {
    if a == [] {
      assert a + b == b;
    } else {
      var head := if Fetched(a[0]) then [CardOf(a[0])] else [];
      assert (a + b)[0] == a[0] && (a + b)[1..] == a[1..] + b;
      assert Collected(a + b) == head + Collected(a[1..] + b);
      CollectedAppend(a[1..], b);
      assert Collected(a) == head + Collected(a[1..]);
    }
  }

  /** A card is in the list exactly when it is the card of a fetched set. */
  lemma {:induction false} CollectedMembers(rs: seq<SetReplies>, c: ExamCard)
    ensures c in Collected(rs) <==> exists i :: 0 <= i < |rs| && Fetched(rs[i]) && c == CardOf(rs[i])
  {
    if rs != [] {
      CollectedMembers(rs[1..], c);
      if exists i :: 0 <= i < |rs| && Fetched(rs[i]) && c == CardOf(rs[i]) {
        var i :| 0 <= i < |rs| && Fetched(rs[i]) && c == CardOf(rs[i]);
        if i > 0 {
          assert rs[1..][i - 1] == rs[i];
        }
      }
      if c in Collected(rs[1..]) {
        var j :| 0 <= j < |rs[1..]| && Fetched(rs[1..][j]) && c == CardOf(rs[1..][j]);
        assert rs[j + 1] == rs[1..][j];
      }
    }
  }

  /** No card is invented: there are at most as many cards as sets, and
      exactly as many when every request succeeded. */
  lemma {:induction false} CollectedLength(rs: seq<SetReplies>)
    ensures |Collected(rs)| <= |rs|
    ensures (forall i :: 0 <= i < |rs| ==> Fetched(rs[i])) ==> |Collected(rs)| == |rs|
  {
    if rs != [] {
      CollectedLength(rs[1..]);
      assert forall i :: 1 <= i < |rs| ==> rs[1..][i - 1] == rs[i];
    }
  }

  /** An empty assignment list gives an empty examination list, on both the
      early-return path and the loop. */
  lemma EmptyAssignmentList()
    ensures Collected([]) == []
  {
  }

  /** The whole of `fetchData`: the assigned-sets request (whose body may lack
      `assigned`), then the loop. A failed first request leaves the list as it
      was. */
  method FetchData(assignedReply: Option<Option<seq<SetReplies>>>, previous: seq<ExamCard>)
    returns (exams: seq<ExamCard>)
    ensures assignedReply.None? ==> exams == previous
    ensures assignedReply.Some? ==> exams == Collected(assignedReply.value.GetOr([]))
  {
    if assignedReply.None? {
      return previous;
    }
    var sets := assignedReply.value.GetOr([]);
    if |sets| == 0 {
      return [];
    }
    exams := CollectExams(sets);
  }

  /** `isFirstAttempt` on a card. */
  predicate IsFirstAttempt(s: Status) {
    s.attemptsCount == 0
  }

  /** `hasPassed` on a card. */
  predicate HasPassed(s: Status) {
    s.bestPercent >= AttendQuiz.PassPercent
  }

  /** The "n attempt(s) remaining" note under the start button. */
  datatype RemainingNote = RemainingNote(count: int, plural: bool)

  /** What a card's footer shows. */
  datatype Footer =
    | StartButton(caption: string, remaining: Option<RemainingNote>)
    | PassedBanner
    | NoAttemptsLeftBanner

  const StartLabel := "Start Examination"
  const RetryLabel := "Take Another Attempt"

  /** The footer of one card: the start button while an attempt is allowed,
      otherwise the passed banner or the no-attempts banner. */
  function FooterOf(s: Status): Footer {
    if s.canAttempt then
      StartButton(
        if IsFirstAttempt(s) then StartLabel else RetryLabel,
        if !IsFirstAttempt(s) && s.attemptsLeft > 0
        then Some(RemainingNote(s.attemptsLeft, s.attemptsLeft != 1))
        else None)
    else if HasPassed(s) then PassedBanner
    else NoAttemptsLeftBanner
  }

  /** The footer is the start button exactly when an attempt is allowed, the
      passed banner exactly when none is allowed and the user passed, and the
      no-attempts banner otherwise. */
  lemma FooterBranches(s: Status)
    ensures FooterOf(s).StartButton? <==> s.canAttempt
    ensures FooterOf(s).PassedBanner? <==> !s.canAttempt && HasPassed(s)
    ensures FooterOf(s).NoAttemptsLeftBanner? <==> !s.canAttempt && !HasPassed(s)
  {
  }

  /** The button reads "Start Examination" exactly on a first attempt; the
      remaining note appears only after the first attempt with attempts left,
      and takes a plural "s" exactly when the count is not 1. */
  lemma StartButtonText(s: Status)
    requires s.canAttempt
    ensures FooterOf(s).caption == StartLabel <==> s.attemptsCount == 0
    ensures FooterOf(s).caption == RetryLabel <==> s.attemptsCount != 0
    ensures FooterOf(s).remaining.Some? <==> s.attemptsCount != 0 && s.attemptsLeft > 0
    ensures FooterOf(s).remaining.Some? ==>
      FooterOf(s).remaining.value.count == s.attemptsLeft &&
      (FooterOf(s).remaining.value.plural <==> s.attemptsLeft != 1)
  {
  }

  /** The guidelines are shown on a first attempt that is allowed. */
  predicate ShowGuidelines(c: ExamCard) {
    IsFirstAttempt(c.status) && c.status.canAttempt
  }

  /** The results carousel is shown after the first attempt when there are
      attempts to show. */
  predicate ShowCarousel(c: ExamCard) {
    !IsFirstAttempt(c.status) && |c.attempts| > 0
  }

  /** The guidelines and the carousel never appear together. */
  lemma GuidelinesOrCarousel(c: ExamCard)
    ensures !(ShowGuidelines(c) && ShowCarousel(c))
  {
  }
}
