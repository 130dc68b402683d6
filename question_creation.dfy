/** The "Add Question" form: its option rows, the save-time validation and
    reset, and the image drop gate. */
module QuestionCreation {
  import opened Wrappers
  import opened Choices
  import opened Files
  import Seqs
  import Text

  /** The `forEach` of `updateOption(index, "isCorrect", true)`: each row is
      marked correct exactly when it is the row at `index`. */
  method MarkOnlyCorrect(opts: seq<Choice>, index: int) returns (r: seq<Choice>)
    ensures MarkedOnly(r, opts, index)
  {
    r := opts;
    var i := 0;
    while i < |r|
      invariant |r| == |opts| && 0 <= i <= |r|
      invariant forall k :: 0 <= k < i ==> r[k] == opts[k].(isCorrect := k == index)
      invariant forall k :: i <= k < |r| ==> r[k] == opts[k]
    {
      r := r[i := r[i].(isCorrect := i == index)];
      i := i + 1;
    }
  }

  /** The field an option row's input changes. */
  datatype FieldUpdate = SetText(text: string) | SetCorrect(value: bool)

  /** The validation messages of `saveAll`, in the order they are tried. */
  datatype SaveError = SetAndTextRequired | TwoOptionsWithText | ExactlyOneCorrect

  /** Some row has no text once trimmed. */
  predicate SomeBlank(opts: seq<Choice>) {
    exists k :: 0 <= k < |opts| && Text.IsBlank(opts[k].text)
  }

  /** The checks of `saveAll`: a set and a non-blank question first, then at
      least two rows all with text, then exactly one row marked correct. */
  function SaveCheck(setId: string, question: string, opts: seq<Choice>): Option<SaveError> {
    if setId == "" || Text.IsBlank(question) then Some(SetAndTextRequired)
    else if |opts| < 2 || SomeBlank(opts) then Some(TwoOptionsWithText)
    else if CorrectCount(opts) != 1 then Some(ExactlyOneCorrect)
    else None
  }

  /** Each rejection happens exactly under its condition, in order, and the
      form passes exactly when a single option, and only it, is correct. */
  lemma SaveCheckCases(setId: string, question: string, opts: seq<Choice>)
    ensures SaveCheck(setId, question, opts) == Some(SetAndTextRequired) <==>
      setId == "" || Text.IsBlank(question)
    ensures SaveCheck(setId, question, opts) == Some(TwoOptionsWithText) <==>
      setId != "" && !Text.IsBlank(question) && (|opts| < 2 || SomeBlank(opts))
    ensures SaveCheck(setId, question, opts) == Some(ExactlyOneCorrect) <==>
      setId != "" && !Text.IsBlank(question) && |opts| >= 2 && !SomeBlank(opts) &&
      !exists index :: OnlyCorrectAt(opts, index)
    ensures SaveCheck(setId, question, opts) == None <==>
      setId != "" && !Text.IsBlank(question) && |opts| >= 2 && !SomeBlank(opts) &&
      exists index :: OnlyCorrectAt(opts, index)
  {
    CountOneIff(opts);
  }

  /** The `question_type` sent with a question. */
  function QuestionType(image: Option<File>): (t: string)
    ensures t == "image" <==> image.Some?
    ensures t == "text" <==> image.None?
  {
    if image.Some? then "image" else "text"
  }

  /** `handleDrop` keeps a dropped file only when its MIME type starts with
      "image/". */
  predicate DropAccepted(file: Option<File>) {
    file.Some? && Text.StartsWith(file.value.mimeType, "image/")
  }

  datatype SaveOutcome = Rejected(error: SaveError) | SaveFailed | Saved

  /** The multipart body of `addQuestion`: `question_set_id`,
      `question_text`, `question_type`, and `question_image` when an image is
      attached. */
  datatype QuestionBody = QuestionBody(setId: string, text: string, questionType: string, image: Option<File>)

  /** The JSON body posted to the options endpoint: the id the question
      request returned and every row. */
  datatype OptionsBody = OptionsBody(questionId: int, options: seq<Choice>)

  /** The state of one "Add Question" form. */
  class Form {
    var setId: string
    var question: string
    var image: Option<File>
    var options: seq<Choice>

    constructor ()
      ensures setId == "" && question == "" && image == None && options == TwoBlank
    {
      setId, question, image, options := "", "", None, TwoBlank;
    }

    /** The set selector stores the chosen set's id. */
    method SelectSet(id: string)
      modifies this`setId
      ensures setId == id
    {
      setId := id;
    }

    /** The question text area stores what was typed. */
    method EditQuestion(value: string)
      modifies this`question
      ensures question == value
    {
      question := value;
    }

    /** `addOptionRow`: one blank row more at the end. */
    method AddOptionRow()
      modifies this`options
      ensures options == old(options) + [BlankChoice]
      ensures |options| == |old(options)| + 1
    {
      options := options + [BlankChoice];
    }

    /** `updateOption`. Turning a row's switch on goes through the marking
        loop; setting a text, or turning a switch off, changes that one field
        of that one row. */
    method UpdateOption(index: int, update: FieldUpdate)
      requires update != SetCorrect(true) ==> 0 <= index < |options|
      modifies this`options
      ensures update == SetCorrect(true) ==> MarkedOnly(options, old(options), index)
      ensures update.SetText? ==>
        options == old(options)[index := old(options)[index].(text := update.text)]
      ensures update == SetCorrect(false) ==>
        options == old(options)[index := old(options)[index].(isCorrect := false)]
    {
      if update == SetCorrect(true) {
        options := MarkOnlyCorrect(options, index);
      } else if update.SetText? {
        options := options[index := options[index].(text := update.text)];
      } else {
        options := options[index := options[index].(isCorrect := false)];
      }
    }

    /** `removeOption`: exactly the row at `index` goes, the others keep
        their order. The handler itself enforces no minimum; the page only
        renders a row's remove button while there are more than two rows. */
    method RemoveOption(index: int)
      modifies this`options
      ensures options == Seqs.RemoveAt(old(options), index)
    {
      options := Seqs.RemoveAt(options, index);
    }

    /** `saveAll`, with the question request's reply (the new question id)
        and the option request's success as parameters. `sentQuestion` is the
        question body posted, `sentOptions` the options body. On success
        the form is cleared to two blank rows; otherwise nothing changes. */
    method SaveAll(questionReply: Option<int>, optionsSaved: bool)
      returns (outcome: SaveOutcome, sentQuestion: Option<QuestionBody>, sentOptions: Option<OptionsBody>)
      modifies this`setId, this`question, this`image, this`options
      ensures SaveCheck(old(setId), old(question), old(options)).Some? ==>
        outcome == Rejected(SaveCheck(old(setId), old(question), old(options)).value) &&
        sentQuestion == None && sentOptions == None && unchanged(this)
      ensures SaveCheck(old(setId), old(question), old(options)).None? ==>
        sentQuestion == Some(QuestionBody(old(setId), old(question), QuestionType(old(image)), old(image))) &&
        sentOptions == (if questionReply.Some? then Some(OptionsBody(questionReply.value, old(options))) else None)
      ensures outcome == Saved <==>
        SaveCheck(old(setId), old(question), old(options)).None? && questionReply.Some? && optionsSaved
      ensures outcome == Saved ==>
        setId == "" && question == "" && image == None && options == TwoBlank
      ensures outcome != Saved ==> unchanged(this)
    {
      var check := SaveCheck(setId, question, options);
      if check.Some? {
        return Rejected(check.value), None, None;
      }
      outcome, sentQuestion, sentOptions := Post(questionReply, optionsSaved);
    }

    /** The two requests of a form that passed its checks: the question,
        then its options under the id the first reply carries. */
    method Post(questionReply: Option<int>, optionsSaved: bool)
      returns (outcome: SaveOutcome, sentQuestion: Option<QuestionBody>, sentOptions: Option<OptionsBody>)
      modifies this`setId, this`question, this`image, this`options
      ensures sentQuestion == Some(QuestionBody(old(setId), old(question), QuestionType(old(image)), old(image)))
      ensures sentOptions == (if questionReply.Some? then Some(OptionsBody(questionReply.value, old(options))) else None)
      ensures outcome == Saved <==> questionReply.Some? && optionsSaved
      ensures outcome != Saved ==> outcome == SaveFailed
      ensures outcome == Saved ==>
        setId == "" && question == "" && image == None && options == TwoBlank
      ensures outcome != Saved ==> unchanged(this)
    {
      sentQuestion := Some(QuestionBody(setId, question, QuestionType(image), image));
      sentOptions := None;
      if questionReply.None? {
        return SaveFailed, sentQuestion, None;
      }
      sentOptions := Some(OptionsBody(questionReply.value, options));
      if !optionsSaved {
        return SaveFailed, sentQuestion, sentOptions;
      }
      question, setId, image, options := "", "", None, TwoBlank;
      outcome := Saved;
    }

    /** `handleDrop`: the first dropped file replaces the image only when it
        is an image. */
    method Drop(file: Option<File>)
      modifies this`image
      ensures image == if DropAccepted(file) then file else old(image)
    {
      if DropAccepted(file) {
        image := file;
      }
    }

    /** The file input's `onChange`: whatever was picked, or nothing, with no
        MIME check of its own. */
    method PickFile(file: Option<File>)
      modifies this`image
      ensures image == file
    {
      image := file;
    }
  }

  /** A question that passes the checks has at least two options, every one
      with text, and exactly one of them correct. */
  lemma SavedQuestionShape(setId: string, question: string, opts: seq<Choice>)
    requires SaveCheck(setId, question, opts).None?
    ensures |opts| >= 2 && CorrectCount(opts) == 1
    ensures forall k :: 0 <= k < |opts| ==> !Text.IsBlank(opts[k].text)
  {
    CountOneIff(opts);
  }
}
