/** The "Edit Question" dialog: the editable copy of a question's options,
    its handlers, and the payload it sends back. */
module QuestionEdit {
  import opened Wrappers
  import opened Files
  import Seqs
  import Text

  /** An option as the server returns and accepts it. */
  datatype ServerOption = ServerOption(id: int, optionText: string, isCorrect: bool)

  /** An option as the dialog edits it. */
  datatype EditOption = EditOption(id: int, text: string, isCorrect: bool)

  function FromServer(o: ServerOption): EditOption {
    EditOption(o.id, o.optionText, o.isCorrect)
  }

  function ToServer(o: EditOption): ServerOption {
    ServerOption(o.id, o.text, o.isCorrect)
  }

  /** The initial options: the question's options mapped one by one, or an
      empty list when the question has none. */
  function InitialOptions(options: Option<seq<ServerOption>>): (r: seq<EditOption>)
    ensures options.None? ==> r == []
    ensures options.Some? ==> |r| == |options.value|
    ensures options.Some? ==> forall k :: 0 <= k < |r| ==>
      r[k].id == options.value[k].id && r[k].text == options.value[k].optionText &&
      r[k].isCorrect == options.value[k].isCorrect
  {
    if options.None? then []
    else seq(|options.value|, k requires 0 <= k < |options.value| => FromServer(options.value[k]))
  }

  /** The `options` body of the second PUT: id, text and mark of each row,
      in order. */
  function Payload(opts: seq<EditOption>): (r: seq<ServerOption>)
    ensures |r| == |opts|
  {
    seq(|opts|, k requires 0 <= k < |opts| => ToServer(opts[k]))
  }

  /** Saving an unedited dialog sends back exactly the options it was
      opened with. */
  lemma PayloadOfInitial(options: seq<ServerOption>)
    ensures Payload(InitialOptions(Some(options))) == options
  {
    var p := Payload(InitialOptions(Some(options)));
    assert forall k :: 0 <= k < |options| ==> p[k] == options[k];
  }

  /** Opening the dialog on a saved payload gives back the edited rows. */
  lemma InitialOfPayload(opts: seq<EditOption>)
    ensures InitialOptions(Some(Payload(opts))) == opts
  {
    var r := InitialOptions(Some(Payload(opts)));
    assert forall k :: 0 <= k < |opts| ==> r[k] == opts[k];
  }

  /** The `forEach` of `updateOption(idx, "isCorrect", …)`: every row's mark
      becomes "is this row `idx`", whatever value was passed. */
  method MarkOnlyCorrect(opts: seq<EditOption>, idx: int) returns (r: seq<EditOption>)
    ensures |r| == |opts|
    ensures forall k :: 0 <= k < |opts| ==> r[k] == opts[k].(isCorrect := k == idx)
  {
    r := opts;
    var i := 0;
    while i < |r|
      invariant |r| == |opts| && 0 <= i <= |r|
      invariant forall k :: 0 <= k < i ==> r[k] == opts[k].(isCorrect := k == idx)
      invariant forall k :: i <= k < |r| ==> r[k] == opts[k]
    {
      r := r[i := r[i].(isCorrect := i == idx)];
      i := i + 1;
    }
  }

  datatype SubmitOutcome = TextRequired | UpdateFailed | Updated

  /** The state of one open dialog. */
  class Editor {
    var text: string
    var newImage: Option<File>
    var options: seq<EditOption>

    /** Opening the dialog on a question with this text and these options. */
    constructor (questionText: Option<string>, questionOptions: Option<seq<ServerOption>>)
      ensures text == questionText.GetOr("") && newImage == None
      ensures options == InitialOptions(questionOptions)
    {
      text := questionText.GetOr("");
      newImage := None;
      options := InitialOptions(questionOptions);
    }

    /** The question text area stores what was typed. */
    method EditText(value: string)
      modifies this`text
      ensures text == value
    {
      text := value;
    }

    /** `handleImageChange`: a picked file replaces the new image; picking
        nothing keeps it. */
    method ChangeImage(file: Option<File>)
      modifies this`newImage
      ensures newImage == if file.Some? then file else old(newImage)
    {
      if file.Some? {
        newImage := file;
      }
    }

    /** `updateOption(idx, "text", value)`: only that row's text changes. */
    method UpdateText(idx: int, value: string)
      requires 0 <= idx < |options|
      modifies this`options
      ensures options == old(options)[idx := old(options)[idx].(text := value)]
    {
      options := options[idx := options[idx].(text := value)];
    }

    /** `updateOption(idx, "isCorrect", value)`: `idx` becomes the only
        correct row, ids and texts are kept. */
    method UpdateCorrect(idx: int)
      modifies this`options
      ensures |options| == |old(options)|
      ensures forall k :: 0 <= k < |options| ==>
        options[k] == old(options)[k].(isCorrect := k == idx)
    {
      options := MarkOnlyCorrect(options, idx);
    }

    /** `addOption`: a blank, incorrect row with the id the clock gave. */
    method AddOption(freshId: int)
      modifies this`options
      ensures options == old(options) + [EditOption(freshId, "", false)]
    {
      options := options + [EditOption(freshId, "", false)];
    }

    /** `removeOption`: refused (with a message) while two rows or fewer
        remain; otherwise exactly row `idx` goes. */
    method RemoveOption(idx: int) returns (refused: bool)
      modifies this`options
      ensures refused <==> |old(options)| <= 2
      ensures refused ==> options == old(options)
      ensures !refused ==> options == Seqs.RemoveAt(old(options), idx)
    {
      refused := |options| <= 2;
      if !refused {
        options := Seqs.RemoveAt(options, idx);
      }
    }

    /** `submit`, with the two PUT requests' success as parameters. A blank
        text stops it before any request; `sentOptions` is the options body,
        sent only after the question itself was updated. */
    method Submit(questionUpdated: bool, optionsUpdated: bool)
      returns (outcome: SubmitOutcome, sentText: Option<string>, sentImage: Option<File>,
               sentOptions: Option<seq<ServerOption>>)
      ensures Text.IsBlank(text) ==>
        outcome == TextRequired && sentText == None && sentImage == None && sentOptions == None
      ensures !Text.IsBlank(text) ==> sentText == Some(text) && sentImage == newImage
      ensures !Text.IsBlank(text) ==>
        sentOptions == (if questionUpdated then Some(Payload(options)) else None)
      ensures outcome == Updated <==> !Text.IsBlank(text) && questionUpdated && optionsUpdated
    {
      if Text.IsBlank(text) {
        return TextRequired, None, None, None;
      }
      sentText, sentImage := Some(text), newImage;
      if !questionUpdated {
        return UpdateFailed, sentText, sentImage, None;
      }
      sentOptions := Some(Payload(options));
      outcome := if optionsUpdated then Updated else UpdateFailed;
    }
  }
}
