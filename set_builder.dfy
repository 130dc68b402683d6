/** The options step of the question-set builder: its option rows and the
    validation of `handleAddOptions`. */
module SetBuilder {
  import opened Wrappers
  import opened Choices
  import Seqs
  import Text

  /** A row with text once trimmed. */
  predicate HasText(c: Choice) {
    !Text.IsBlank(c.text)
  }

  /** `validOptions`: the rows with text, in order. */
  function ValidOptions(opts: seq<Choice>): (r: seq<Choice>)
    ensures |r| <= |opts|
    ensures forall c :: c in r <==> c in opts && HasText(c)
  {
    Seqs.Filter(HasText, opts)
  }

  /** `hasCorrect` on the rows with text. */
  predicate AnyCorrect(opts: seq<Choice>) {
    exists k :: 0 <= k < |opts| && opts[k].isCorrect
  }

  datatype BuilderError = AtLeastTwoOptions | MarkOneCorrect

  /** The two checks, in order: at least two rows with text, then at least
      one of those marked correct. Several correct rows are allowed. */
  function OptionsCheck(opts: seq<Choice>): Option<BuilderError> {
    var valid := ValidOptions(opts);
    if |valid| < 2 then Some(AtLeastTwoOptions)
    else if !AnyCorrect(valid) then Some(MarkOneCorrect)
    else None
  }

  /** Each rejection happens exactly under its condition, and the rows pass
      exactly when there are two with text and one of those is correct. */
  lemma OptionsCheckCases(opts: seq<Choice>)
    ensures OptionsCheck(opts) == Some(AtLeastTwoOptions) <==> |ValidOptions(opts)| < 2
    ensures OptionsCheck(opts) == Some(MarkOneCorrect) <==>
      |ValidOptions(opts)| >= 2 && forall c :: c in opts && HasText(c) ==> !c.isCorrect
    ensures OptionsCheck(opts) == None <==>
      |ValidOptions(opts)| >= 2 && exists c :: c in opts && HasText(c) && c.isCorrect
  {
  }

  /** Rows are sent in their original order: filtering rows added one by one
      is filtering the old rows, then the new one. */
  lemma ValidOptionsAppend(opts: seq<Choice>, c: Choice)
    ensures ValidOptions(opts + [c]) == ValidOptions(opts) + (if HasText(c) then [c] else [])
  {
    Seqs.FilterAppend(HasText, opts, [c]);
  }

  /** When every row has text, all of them are sent. */
  lemma AllRowsSent(opts: seq<Choice>)
    requires forall k :: 0 <= k < |opts| ==> HasText(opts[k])
    ensures ValidOptions(opts) == opts
  {
    Seqs.FilterKeepsAll(HasText, opts);
  }

  /** The field a row's control changes; the correct toggle writes the new
      value into that row alone. */
  datatype FieldUpdate = SetText(text: string) | SetCorrect(value: bool)

  datatype AddOutcome = NoQuestion | Invalid(error: BuilderError) | AddFailed | Added

  /** `!selectedQuestionId`: no question, or the id 0. */
  predicate NoSelection(selected: Option<int>) {
    selected.None? || selected.value == 0
  }

  /** The state of the options step. */
  class Builder {
    var selectedQuestionId: Option<int>
    var options: seq<Choice>
    var showOptionsModal: bool

    constructor ()
      ensures selectedQuestionId == None && options == TwoBlank && !showOptionsModal
    {
      selectedQuestionId, options, showOptionsModal := None, TwoBlank, false;
    }

    /** A created question opens the options step for its id. */
    method QuestionCreated(id: int)
      modifies this`selectedQuestionId, this`showOptionsModal
      ensures selectedQuestionId == Some(id) && showOptionsModal
    {
      selectedQuestionId := Some(id);
      showOptionsModal := true;
    }

    /** `addOptionField`: one blank row more at the end. */
    method AddOptionField()
      modifies this`options
      ensures options == old(options) + [BlankChoice]
    {
      options := options + [BlankChoice];
    }

    /** `removeOptionField`: removes row `index` only while more than two
        rows remain. */
    method RemoveOptionField(index: int)
      modifies this`options
      ensures |old(options)| > 2 ==> options == Seqs.RemoveAt(old(options), index)
      ensures |old(options)| <= 2 ==> options == old(options)
    {
      if |options| > 2 {
        options := Seqs.RemoveAt(options, index);
      }
    }

    /** `updateOption`: only the named field of row `index` changes. */
    method UpdateOption(index: int, update: FieldUpdate)
      requires 0 <= index < |options|
      modifies this`options
      ensures |options| == |old(options)|
      ensures forall k :: 0 <= k < |options| && k != index ==> options[k] == old(options)[k]
      ensures update.SetText? ==> options[index] == old(options)[index].(text := update.text)
      ensures update.SetCorrect? ==> options[index] == old(options)[index].(isCorrect := update.value)
    {
      var row := options[index];
      var newRow := if update.SetText? then row.(text := update.text) else row.(isCorrect := update.value);
      options := options[index := newRow];
    }

    /** `handleAddOptions`, with the request's success as a parameter. With
        no question selected it does nothing; `sent` is the rows posted. On
        success, and on cancel, the rows go back to two blank ones and the
        selection is cleared. */
    method HandleAddOptions(saved: bool) returns (outcome: AddOutcome, sent: Option<seq<Choice>>)
      modifies this
      ensures NoSelection(old(selectedQuestionId)) ==>
        outcome == NoQuestion && sent == None && unchanged(this)
      ensures !NoSelection(old(selectedQuestionId)) && OptionsCheck(old(options)).Some? ==>
        outcome == Invalid(OptionsCheck(old(options)).value) && sent == None && unchanged(this)
      ensures !NoSelection(old(selectedQuestionId)) && OptionsCheck(old(options)).None? ==>
        sent == Some(ValidOptions(old(options)))
      ensures outcome == Added <==>
        !NoSelection(old(selectedQuestionId)) && OptionsCheck(old(options)).None? && saved
      ensures outcome == Added ==>
        options == TwoBlank && selectedQuestionId == None && !showOptionsModal
      ensures outcome != Added ==> unchanged(this)
    {
      sent := None;
      if NoSelection(selectedQuestionId) {
        return NoQuestion, None;
      }
      var check := OptionsCheck(options);
      if check.Some? {
        return Invalid(check.value), None;
      }
      outcome, sent := Post(saved);
    }

    /** The request of rows that passed the checks. */
    method Post(saved: bool) returns (outcome: AddOutcome, sent: Option<seq<Choice>>)
      modifies this
      ensures sent == Some(ValidOptions(old(options)))
      ensures outcome == (if saved then Added else AddFailed)
      ensures saved ==> options == TwoBlank && selectedQuestionId == None && !showOptionsModal
      ensures !saved ==> unchanged(this)
    {
      sent := Some(ValidOptions(options));
      if !saved {
        return AddFailed, sent;
      }
      showOptionsModal := false;
      options := TwoBlank;
      selectedQuestionId := None;
      outcome := Added;
    }

    /** The Cancel button of the options step. */
    method Cancel()
      modifies this
      ensures options == TwoBlank && selectedQuestionId == None && !showOptionsModal
    {
      showOptionsModal := false;
      options := TwoBlank;
      selectedQuestionId := None;
    }
  }

  /** What is posted has at least two rows, all with text, at least one of
      them correct. */
  lemma SentOptionsShape(opts: seq<Choice>)
    requires OptionsCheck(opts).None?
    ensures |ValidOptions(opts)| >= 2
    ensures forall c :: c in ValidOptions(opts) ==> HasText(c)
    ensures exists c :: c in ValidOptions(opts) && c.isCorrect
  {
  }
}
