/** The exam-attempt screen: the answer map, the question cursor, the
    pre-submit gates, the submit payload, and the choice of view. */
module AttendQuiz {
  import opened Wrappers

  /** The pass mark the screen applies to the best percentage. */
  const PassPercent: real := 70.0

  /** The attempt status the server computes for one question set. */
  datatype Status = Status(
    attemptsCount: int,
    attemptsLeft: int,
    bestScore: int,
    bestPercent: real,
    canAttempt: bool)

  datatype Question = Question(id: int, optionIds: seq<int>)

  datatype Attempt = Attempt(
    attemptNumber: int,
    score: int,
    totalQuestions: int,
    percent: real,
    passed: bool)

  /** Question id to the selected option id, `None` standing for `null`. */
  type Answers = map<int, Option<int>>

  /** The ids of a list of questions. */
  function QuestionIds(qs: seq<Question>): set<int> {
    set i | 0 <= i < |qs| :: qs[i].id
  }

  /** The answer map right after loading: every question id, no selection. */
  method InitialAnswers(qs: seq<Question>) returns (m: Answers)
    ensures m.Keys == QuestionIds(qs)
    ensures forall q :: q in m ==> m[q] == None
  {
    m := map[];
    var i := 0;
    while i < |qs|
      invariant 0 <= i <= |qs|
      invariant m.Keys == QuestionIds(qs[..i])
      invariant forall q :: q in m ==> m[q] == None
    {
      assert QuestionIds(qs[..i + 1]) == QuestionIds(qs[..i]) + {qs[i].id} by {
        assert forall j :: 0 <= j < i ==> qs[..i + 1][j] == qs[..i][j];
      }
      m := m[qs[i].id := None];
      i := i + 1;
    }
    assert qs[..i] == qs;
  }

  /** The question ids that have a selected option. */
  function AnsweredIds(m: Answers): set<int> {
    set q | q in m && m[q].Some?
  }

  /** `answeredCount`: how many values of the map are not `null`. */
  function AnsweredCount(m: Answers): (n: nat)
    ensures n <= |m|
    ensures n == |m| <==> forall q :: q in m ==> m[q].Some?
  {
    var a := AnsweredIds(m);
    assert a <= m.Keys;
    assert |m.Keys - a| + |a| == |m.Keys|;
    assert (forall q :: q in m ==> m[q].Some?) ==> m.Keys - a == {};
    assert (exists q :: q in m && m[q] == None) ==> m.Keys - a != {};
    |a|
  }

  /** `Object.values(answers).some((a) => a === null)`. */
  predicate HasUnanswered(m: Answers) {
    exists q :: q in m && m[q] == None
  }

  /** The `answers` part of the submit payload: one entry per question that
      has a selection, from the question id to the selected option id. The
      order of the entries (that of `Object.entries`) is not modelled. */
  function Payload(m: Answers): (p: map<int, int>)
    ensures forall q :: q in p <==> q in m && m[q].Some?
    ensures forall q :: q in p ==> m[q] == Some(p[q])
  {
    map q | q in m && m[q].Some? :: m[q].value
  }

  /** The payload has exactly one entry per answered question. */
  lemma PayloadSize(m: Answers)
    ensures |Payload(m)| == AnsweredCount(m)
  {
    assert Payload(m).Keys == AnsweredIds(m);
  }

  /** Once nothing is unanswered, the payload covers every question of the map. */
  lemma PayloadComplete(m: Answers)
    requires !HasUnanswered(m)
    ensures Payload(m).Keys == m.Keys
    ensures |Payload(m)| == |m|
  {
    forall q | q in m ensures q in AnsweredIds(m) {
      assert m[q] != None;
    }
    assert Payload(m).Keys == AnsweredIds(m) == m.Keys;
  }

  /** Right after loading, a fully answered map yields a payload with one
      entry per distinct question. */
  lemma PayloadCoversQuestions(qs: seq<Question>, m: Answers)
    requires m.Keys == QuestionIds(qs)
    requires !HasUnanswered(m)
    ensures Payload(m).Keys == QuestionIds(qs)
    ensures |Payload(m)| == |QuestionIds(qs)|
  {
    PayloadComplete(m);
  }

  /** `hasPassed`: a missing status counts as a best percentage of 0. */
  predicate HasPassed(status: Option<Status>) {
    (if status.Some? then status.value.bestPercent else 0.0) >= PassPercent
  }

  /** `status?.can_attempt`, with a missing status as `false`. */
  predicate CanAttempt(status: Option<Status>) {
    status.Some? && status.value.canAttempt
  }

  /** `isFirstAttempt`: `status?.attempts_count === 0`. */
  predicate IsFirstAttempt(status: Option<Status>) {
    status.Some? && status.value.attemptsCount == 0
  }

  /** The branch the screen renders. */
  datatype View = Loading | NotFound | Completed | Exhausted | InProgress

  /** The views are tried in source order: loading, no status, passed with no
      attempt allowed, no attempt allowed and not submitted, then the exam. */
  function SelectView(loading: bool, status: Option<Status>, submitted: bool): View {
    if loading then Loading
    else if status.None? then NotFound
    else if HasPassed(status) && !status.value.canAttempt then Completed
    else if !status.value.canAttempt && !submitted then Exhausted
    else InProgress
  }

  /** With attempts exhausted, a passed user always sees the completed view,
      and a user who has not passed sees the exhausted view until submitting. */
  lemma ExhaustedViews(status: Status, submitted: bool)
    requires !status.canAttempt
    ensures status.bestPercent >= PassPercent ==> SelectView(false, Some(status), submitted) == Completed
    ensures status.bestPercent < PassPercent && !submitted ==> SelectView(false, Some(status), submitted) == Exhausted
    ensures status.bestPercent < PassPercent && submitted ==> SelectView(false, Some(status), submitted) == InProgress
  {
  }

  /** The exam itself is shown exactly when loading is over, a status is
      there, and either an attempt is allowed or a failed attempt was just
      submitted. */
  lemma InProgressIff(loading: bool, status: Option<Status>, submitted: bool)
    ensures SelectView(loading, status, submitted) == InProgress <==>
      !loading && status.Some? &&
      (status.value.canAttempt || (!HasPassed(status) && submitted))
  {
  }

  /** `currentQuestionAnswered`: there is a current question and its entry is
      not `null`. An id missing from the map reads as `undefined`, which is
      not `null`, so it counts as answered. */
  predicate CurrentAnswered(qs: seq<Question>, m: Answers, index: int) {
    0 <= index < |qs| && !(qs[index].id in m && m[qs[index].id] == None)
  }

  /** `isLastQuestion`. */
  predicate IsLast(qs: seq<Question>, index: int) {
    index == |qs| - 1
  }

  /** The forward button is disabled when the current question is the last
      one and it is not answered. */
  predicate ForwardDisabled(qs: seq<Question>, m: Answers, index: int) {
    !CurrentAnswered(qs, m, index) && IsLast(qs, index)
  }

  /** On the last question, with the map as loaded, the submit button is
      enabled exactly when that question has a selection; on any other
      question the forward button is never disabled. */
  lemma ForwardDisabledIff(qs: seq<Question>, m: Answers, index: int)
    requires 0 <= index < |qs|
    requires m.Keys == QuestionIds(qs)
    ensures IsLast(qs, index) ==> (ForwardDisabled(qs, m, index) <==> m[qs[index].id] == None)
    ensures !IsLast(qs, index) ==> !ForwardDisabled(qs, m, index)
  {
    assert qs[index].id in QuestionIds(qs);
  }

  /** The cursor is a valid question index, or 0 when there are no questions. */
  predicate IndexInRange(index: int, count: int) {
    0 <= index && (index < count || index == 0)
  }

  /** What `load` and `submitQuiz` report to the user. */
  datatype LoadOutcome = InvalidSetId | LoadFailed | Loaded
  datatype SubmitOutcome = Unanswered | NoAttemptsLeft | SubmitFailed | SubmitDone

  /** The body posted by `submitQuiz`: the set id and the answers. */
  datatype SubmitBody = SubmitBody(questionSetId: string, answers: map<int, int>)

  /** The state of one `AttendQuiz` screen. */
  class Controller {
    /** The route's `setId`; an absent parameter is the empty string. */
    const setId: string
    var status: Option<Status>
    var questions: seq<Question>
    var answers: Answers
    var history: seq<Attempt>
    var loading: bool
    var submitted: bool
    var result: Option<Attempt>
    var index: int
    var showSubmitDialog: bool
    var showResultDialog: bool
    var justSubmitted: bool

    ghost predicate Valid()
      reads this
    {
      IndexInRange(index, |questions|)
    }

    /** The initial values of the component's state, on the route of `id`. */
    constructor (id: string)
      ensures Valid() && setId == id
      ensures status == None && questions == [] && answers == map[] && history == []
      ensures loading && !submitted && result == None && index == 0
      ensures !showSubmitDialog && !showResultDialog && !justSubmitted
    {
      setId := id;
      status, questions, answers, history := None, [], map[], [];
      loading, submitted, result, index := true, false, None, 0;
      showSubmitDialog, showResultDialog, justSubmitted := false, false, false;
    }

    /** The mount effect. Without a set id it returns at once (and `loading`
        stays set). Otherwise it fetches status, questions and history in that
        order, keeping each reply that arrived before the first failure, and
        builds the answer map only when all three arrived; `loading` ends
        either way. */
    method Load(statusReply: Option<Status>,
                questionsReply: Option<seq<Question>>, historyReply: Option<seq<Attempt>>)
      returns (outcome: LoadOutcome)
      requires Valid() && index == 0
      modifies this
      ensures Valid()
      ensures index == 0 && submitted == old(submitted) && result == old(result)
      ensures showSubmitDialog == old(showSubmitDialog) && showResultDialog == old(showResultDialog)
      ensures justSubmitted == old(justSubmitted)
      ensures setId == "" ==>
        (outcome == InvalidSetId && loading == old(loading) &&
         status == old(status) && questions == old(questions) &&
         answers == old(answers) && history == old(history))
      ensures setId != "" ==> !loading
      ensures setId != "" ==> status == (if statusReply.Some? then statusReply else old(status))
      ensures setId != "" ==>
        (questions == if statusReply.Some? && questionsReply.Some? then questionsReply.value
                      else old(questions))
      ensures setId != "" ==>
        (history == if statusReply.Some? && questionsReply.Some? && historyReply.Some?
                    then historyReply.value else old(history))
      ensures setId != "" && statusReply.Some? && questionsReply.Some? && historyReply.Some? ==>
        outcome == Loaded && answers.Keys == QuestionIds(questionsReply.value) &&
        forall q :: q in answers ==> answers[q] == None
      ensures setId != "" && !(statusReply.Some? && questionsReply.Some? && historyReply.Some?) ==>
        outcome == LoadFailed && answers == old(answers)
    {
      if setId == "" {
        return InvalidSetId;
      }
      outcome := LoadFailed;
      if statusReply.Some? {
        status := statusReply;
        if questionsReply.Some? {
          questions := questionsReply.value;
          if historyReply.Some? {
            history := historyReply.value;
            answers := InitialAnswers(questionsReply.value);
            outcome := Loaded;
          }
        }
      }
      loading := false;
    }

    /** `selectOption`: the entry of that question is set and no other changes. */
    method SelectOption(questionId: int, optionId: int)
      modifies this`answers
      ensures answers.Keys == old(answers).Keys + {questionId}
      ensures answers[questionId] == Some(optionId)
      ensures forall q :: q in old(answers) && q != questionId ==> answers[q] == old(answers)[q]
    {
      answers := answers[questionId := Some(optionId)];
    }

    /** `submitQuiz`, with the three requests' replies as parameters. An
        unanswered question or a status that allows no attempt stops it
        before any request; `sent` is the payload posted, if any. The answers
        are never touched, so a failed submission can be retried. */
    method Submit(postReply: Option<Attempt>, historyReply: Option<seq<Attempt>>,
                  statusReply: Option<Status>)
      returns (outcome: SubmitOutcome, sent: Option<SubmitBody>)
      requires Valid()
      modifies this
      ensures Valid()
      ensures answers == old(answers) && questions == old(questions) && index == old(index)
      ensures loading == old(loading)
      ensures HasUnanswered(old(answers)) ==>
        outcome == Unanswered && sent == None && unchanged(this)
      ensures !HasUnanswered(old(answers)) && !CanAttempt(old(status)) ==>
        outcome == NoAttemptsLeft && sent == None && unchanged(this)
      ensures !HasUnanswered(old(answers)) && CanAttempt(old(status)) ==>
        sent == Some(SubmitBody(setId, Payload(old(answers))))
      ensures sent.Some? && postReply.None? ==> outcome == SubmitFailed && unchanged(this)
      ensures sent.Some? && postReply.Some? ==>
        result == postReply && submitted && justSubmitted && !showSubmitDialog &&
        history == (if historyReply.Some? then historyReply.value else old(history)) &&
        status == (if historyReply.Some? && statusReply.Some? then statusReply else old(status)) &&
        showResultDialog == (if historyReply.Some? && statusReply.Some? && postReply.value.passed
                             then true else old(showResultDialog)) &&
        outcome == (if historyReply.Some? && statusReply.Some? then SubmitDone else SubmitFailed)
    {
      sent := None;
      if HasUnanswered(answers) {
        return Unanswered, None;
      }
      if !CanAttempt(status) {
        return NoAttemptsLeft, None;
      }
      sent := Some(SubmitBody(setId, Payload(answers)));
      if postReply.None? {
        return SubmitFailed, sent;
      }
      result := postReply;
      submitted := true;
      justSubmitted := true;
      showSubmitDialog := false;
      if historyReply.None? {
        return SubmitFailed, sent;
      }
      history := historyReply.value;
      if statusReply.None? {
        return SubmitFailed, sent;
      }
      status := statusReply;
      if postReply.value.passed {
        showResultDialog := true;
      }
      outcome := SubmitDone;
    }

    /** `handleNextQuestion`: moves forward unless on the last question. */
    method Next()
      requires Valid()
      modifies this`index
      ensures Valid()
      ensures index == if old(index) < |questions| - 1 then old(index) + 1 else old(index)
    {
      if index < |questions| - 1 {
        index := index + 1;
      }
    }

    /** `handlePreviousQuestion`: moves back unless on the first question. */
    method Previous()
      requires Valid()
      modifies this`index
      ensures Valid()
      ensures index == if old(index) > 0 then old(index) - 1 else old(index)
    {
      if index > 0 {
        index := index - 1;
      }
    }
  }
}
