/** The passport upload form: required fields, the file gate for the photo
    and signature, and the multipart body it submits. */
module PassportForm {
  import opened Wrappers
  import opened Files

  /** The fourteen text fields, in the order the form object declares them. */
  datatype Field =
    | PassportType | CountryCode | PassportNumber | FullName | Nationality | Sex
    | DateOfBirth | PlaceOfBirth | DateOfIssue | DateOfExpiry | PlaceOfIssue
    | FatherName | SpouseName | Address

  const FieldOrder: seq<Field> := [
    PassportType, CountryCode, PassportNumber, FullName, Nationality, Sex,
    DateOfBirth, PlaceOfBirth, DateOfIssue, DateOfExpiry, PlaceOfIssue,
    FatherName, SpouseName, Address]

  /** The key of each field in the form object and in the multipart body. */
  function FieldName(f: Field): string {
    match f
    case PassportType => "passport_type"
    case CountryCode => "country_code"
    case PassportNumber => "passport_number"
    case FullName => "full_name"
    case Nationality => "nationality"
    case Sex => "sex"
    case DateOfBirth => "date_of_birth"
    case PlaceOfBirth => "place_of_birth"
    case DateOfIssue => "date_of_issue"
    case DateOfExpiry => "date_of_expiry"
    case PlaceOfIssue => "place_of_issue"
    case FatherName => "father_name"
    case SpouseName => "spouse_name"
    case Address => "address"
  }

  /** Every field appears in the declaration order. */
  lemma FieldOrderComplete(f: Field)
    ensures f in FieldOrder
  {
  }

  /** No field appears twice, so the body has one part per field. */
  lemma FieldOrderDistinct()
    ensures forall i, j :: 0 <= i < j < |FieldOrder| ==> FieldOrder[i] != FieldOrder[j]
  {
  }

  /** The form's text values: one entry per field. */
  type Values = map<Field, string>

  predicate Complete(form: Values) {
    forall f: Field :: f in form
  }

  /** The values the form starts with: every field empty. */
  function EmptyValues(): (v: Values)
    ensures Complete(v)
    ensures forall f :: v[f] == ""
  {
    var v := map f: Field | f in FieldOrder :: "";
    assert Complete(v) by {
      forall f: Field ensures f in v {
        FieldOrderComplete(f);
      }
    }
    v
  }

  /** The four fields `validate` insists on. */
  predicate IsRequired(f: Field) {
    f == PassportType || f == CountryCode || f == PassportNumber || f == FullName
  }

  /** `validate`: fails when one of the required fields is empty. */
  predicate ValidateOk(form: Values)
    requires Complete(form)
  {
    !(form[PassportType] == "" || form[CountryCode] == "" ||
      form[PassportNumber] == "" || form[FullName] == "")
  }

  /** `validate` passes exactly when no required field is empty. */
  lemma ValidateIff(form: Values)
    requires Complete(form)
    ensures ValidateOk(form) <==> forall f :: IsRequired(f) ==> form[f] != ""
  {
  }

  /** Every field other than the four is optional: its value never changes
      the verdict. */
  lemma OptionalFields(form: Values, f: Field, v: string)
    requires Complete(form) && !IsRequired(f)
    ensures Complete(form[f := v]) && ValidateOk(form[f := v]) == ValidateOk(form)
  {
  }

  /** The largest accepted file: 5 MiB. */
  const MaxFileSize: int := 5 * 1024 * 1024

  /** The accepted MIME types. */
  const AllowedTypes: seq<string> := ["image/jpeg", "image/png", "image/jpg"]

  datatype FileVerdict = NoFile | TooLarge | BadType | Accepted

  /** `handleFile`'s checks, size first, then type. */
  function CheckFile(file: Option<File>): (v: FileVerdict)
    ensures v == Accepted <==>
      file.Some? && file.value.size <= 5242880 && file.value.mimeType in AllowedTypes
    ensures v == TooLarge <==> file.Some? && file.value.size > 5242880
    ensures v == BadType <==>
      file.Some? && file.value.size <= 5242880 && file.value.mimeType !in AllowedTypes
    ensures v == NoFile <==> file.None?
  {
    if file.None? then NoFile
    else if file.value.size > MaxFileSize then TooLarge
    else if file.value.mimeType !in AllowedTypes then BadType
    else Accepted
  }

  /** A file of exactly 5 MiB passes the size check; one byte more does not. */
  lemma SizeBoundary(name: string, mimeType: string)
    ensures CheckFile(Some(File(name, mimeType, 5242880))) != TooLarge
    ensures CheckFile(Some(File(name, mimeType, 5242881))) == TooLarge
  {
  }

  datatype FormError = MissingRequired | FileTooLarge | InvalidFileType | UploadFailed

  /** One entry of the multipart body. */
  datatype Part = TextPart(key: string, text: string) | FilePart(key: string, file: File)

  /** The two file inputs. */
  datatype Slot = PhotoSlot | SignatureSlot

  /** The body `submit` builds: every text field in declaration order, then
      the photo and the signature when present. */
  method BuildFormData(form: Values, photo: Option<File>, signature: Option<File>)
    returns (fd: seq<Part>)
    requires Complete(form)
    ensures |fd| == |FieldOrder| + (if photo.Some? then 1 else 0) + (if signature.Some? then 1 else 0)
    ensures forall k :: 0 <= k < |FieldOrder| ==>
      fd[k] == TextPart(FieldName(FieldOrder[k]), form[FieldOrder[k]])
    ensures photo.Some? ==> fd[|FieldOrder|] == FilePart("passport_photo", photo.value)
    ensures signature.Some? ==> fd[|fd| - 1] == FilePart("signature", signature.value)
  {
    fd := [];
    var i := 0;
    while i < |FieldOrder|
      invariant 0 <= i <= |FieldOrder| && |fd| == i
      invariant forall k :: 0 <= k < i ==>
        fd[k] == TextPart(FieldName(FieldOrder[k]), form[FieldOrder[k]])
    {
      var f := FieldOrder[i];
      fd := fd + [TextPart(FieldName(f), form[f])];
      i := i + 1;
    }
    if photo.Some? {
      fd := fd + [FilePart("passport_photo", photo.value)];
    }
    if signature.Some? {
      fd := fd + [FilePart("signature", signature.value)];
    }
  }

  datatype SubmitOutcome = NotSubmitted | Uploaded | Failed

  /** The state of the form. */
  class Form {
    var values: Values
    var photo: Option<File>
    var signature: Option<File>
    var error: Option<FormError>

    ghost predicate Valid()
      reads this
    {
      Complete(values)
    }

    constructor ()
      ensures Valid() && values == EmptyValues()
      ensures photo == None && signature == None && error == None
    {
      values := EmptyValues();
      photo, signature, error := None, None, None;
    }

    /** `handleChange`: the named field takes the value and the error is cleared. */
    method HandleChange(f: Field, value: string)
      requires Valid()
      modifies this`values, this`error
      ensures Valid()
      ensures values == old(values)[f := value] && error == None
    {
      values := values[f := value];
      error := None;
    }

    /** The sex selector writes its field without clearing the error. */
    method SelectSex(value: string)
      requires Valid()
      modifies this`values
      ensures Valid()
      ensures values == old(values)[Sex := value]
    {
      values := values[Sex := value];
    }

    /** `handleFile` for one slot: a missing or rejected file empties the
        slot; a rejected file sets the matching error, an accepted one
        fills the slot and clears the error. */
    method HandleFile(slot: Slot, file: Option<File>)
      modifies this`photo, this`signature, this`error
      ensures slot == PhotoSlot ==> signature == old(signature)
      ensures slot == SignatureSlot ==> photo == old(photo)
      ensures (if slot == PhotoSlot then photo else signature) ==
        (if CheckFile(file) == Accepted then file else None)
      ensures error == match CheckFile(file)
        case NoFile => old(error)
        case TooLarge => Some(FileTooLarge)
        case BadType => Some(InvalidFileType)
        case Accepted => None
    {
      var verdict := CheckFile(file);
      var kept: Option<File> := None;
      match verdict {
        case NoFile =>
        case TooLarge => error := Some(FileTooLarge);
        case BadType => error := Some(InvalidFileType);
        case Accepted => kept := file; error := None;
      }
      if slot == PhotoSlot {
        photo := kept;
      } else {
        signature := kept;
      }
    }

    /** `submit`, with the upload's success as a parameter. A failed
        validation stops it before the body is built; `sent` is the body. */
    method Submit(uploaded: bool) returns (outcome: SubmitOutcome, sent: Option<seq<Part>>)
      requires Valid()
      modifies this`error
      ensures !ValidateOk(values) ==>
        outcome == NotSubmitted && sent == None && error == Some(MissingRequired)
      ensures ValidateOk(values) ==> sent.Some?
      ensures ValidateOk(values) ==>
        |sent.value| == |FieldOrder| + (if photo.Some? then 1 else 0) + (if signature.Some? then 1 else 0)
      ensures ValidateOk(values) ==> forall k :: 0 <= k < |FieldOrder| ==>
        sent.value[k] == TextPart(FieldName(FieldOrder[k]), values[FieldOrder[k]])
      ensures ValidateOk(values) && photo.Some? ==>
        sent.value[|FieldOrder|] == FilePart("passport_photo", photo.value)
      ensures ValidateOk(values) && signature.Some? ==>
        sent.value[|sent.value| - 1] == FilePart("signature", signature.value)
      ensures ValidateOk(values) && uploaded ==> outcome == Uploaded && error == None
      ensures ValidateOk(values) && !uploaded ==> outcome == Failed && error == Some(UploadFailed)
    {
      if !ValidateOk(values) {
        error := Some(MissingRequired);
        return NotSubmitted, None;
      }
      var fd := BuildFormData(values, photo, signature);
      sent := Some(fd);
      if uploaded {
        outcome, error := Uploaded, None;
      } else {
        outcome, error := Failed, Some(UploadFailed);
      }
    }
  }
}
