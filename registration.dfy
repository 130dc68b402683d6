/** The registration form's schema: per-field rules, the role enumeration and
    the password-match refinement, and the payload a valid form submits. */
module Registration {
  import opened Wrappers

  /** The roles a user may register with; `admin` is not among them. */
  const RegistrableRoles: seq<string> := ["driver", "welder", "student"]

  /** The role the form starts with. */
  const DefaultRole: string := "driver"

  /** The form's values as typed. */
  datatype FormData = FormData(
    email: string, phone: string, name: string,
    password: string, confirmPassword: string, role: string)

  /** The fields an issue can be reported on. */
  datatype FieldPath = EmailPath | PhonePath | NamePath | PasswordPath | ConfirmPasswordPath | RolePath

  /** The schema's failures. */
  datatype Issue = InvalidEmail | PhoneTooShort | NameTooShort | PasswordTooShort | InvalidRole | PasswordsDiffer

  function PathOf(i: Issue): FieldPath {
    match i
    case InvalidEmail => EmailPath
    case PhoneTooShort => PhonePath
    case NameTooShort => NamePath
    case PasswordTooShort => PasswordPath
    case InvalidRole => RolePath
    case PasswordsDiffer => ConfirmPasswordPath
  }

  function MessageOf(i: Issue): string {
    match i
    case InvalidEmail => "Invalid email address"
    case PhoneTooShort => "Phone number must be at least 10 digits"
    case NameTooShort => "Name must be at least 2 characters"
    case PasswordTooShort => "Password must be at least 6 characters"
    case InvalidRole => "Invalid enum value"
    case PasswordsDiffer => "Passwords do not match"
  }

  function IfFails(fails: bool, i: Issue): seq<Issue> {
    if fails then [i] else []
  }

  /** The issues the schema reports, field by field in declaration order. The
      email check is a parameter. A role outside the enumeration aborts the
      object, so the password-match refinement only runs when the role is
      valid; the length failures do not abort it. */
  function Issues(data: FormData, emailOk: bool): (issues: seq<Issue>)
    ensures InvalidEmail in issues <==> !emailOk
    ensures PhoneTooShort in issues <==> |data.phone| < 10
    ensures NameTooShort in issues <==> |data.name| < 2
    ensures PasswordTooShort in issues <==> |data.password| < 6
    ensures InvalidRole in issues <==> data.role !in RegistrableRoles
    ensures PasswordsDiffer in issues <==>
      data.role in RegistrableRoles && data.password != data.confirmPassword
  {
    var fieldIssues :=
      IfFails(!emailOk, InvalidEmail) + IfFails(|data.phone| < 10, PhoneTooShort) +
      IfFails(|data.name| < 2, NameTooShort) + IfFails(|data.password| < 6, PasswordTooShort) +
      IfFails(data.role !in RegistrableRoles, InvalidRole);
    if data.role !in RegistrableRoles then fieldIssues
    else fieldIssues + IfFails(data.password != data.confirmPassword, PasswordsDiffer)
  }

  /** The schema accepts exactly the forms that meet every rule. */
  lemma {:induction false} AcceptedIff(data: FormData, emailOk: bool)
    ensures Issues(data, emailOk) == [] <==>
      emailOk && |data.phone| >= 10 && |data.name| >= 2 && |data.password| >= 6 &&
      data.role in RegistrableRoles && data.password == data.confirmPassword
  {
    var issues := Issues(data, emailOk);
    if issues != [] {
      assert issues[0] in issues;
      match issues[0]
      case InvalidEmail =>
      case PhoneTooShort =>
      case NameTooShort =>
      case PasswordTooShort =>
      case InvalidRole =>
      case PasswordsDiffer =>
    }
  }

  /** A password mismatch is reported on the confirmation field. */
  lemma MismatchOnConfirmPath(data: FormData, emailOk: bool)
    requires data.role in RegistrableRoles && data.password != data.confirmPassword
    ensures exists i :: i in Issues(data, emailOk) && PathOf(i) == ConfirmPasswordPath
  {
    assert PasswordsDiffer in Issues(data, emailOk);
  }

  /** Nobody can register as an administrator. */
  lemma AdminCannotRegister(data: FormData, emailOk: bool)
    requires data.role == "admin"
    ensures InvalidRole in Issues(data, emailOk)
  {
  }

  /** The default role is one of the registrable roles, so an untouched role
      selector never fails. */
  lemma DefaultRoleAccepted(data: FormData, emailOk: bool)
    requires data.role == DefaultRole
    ensures InvalidRole !in Issues(data, emailOk)
  {
  }

  /** The body sent to the register endpoint: the form without the
      confirmation. */
  datatype RegisterRequest = RegisterRequest(
    email: string, phone: string, name: string, password: string, role: string)

  /** `onSubmit` is only reached with data the schema accepted. */
  function SubmitRequest(data: FormData, emailOk: bool): (r: Option<RegisterRequest>)
    ensures r.Some? <==> Issues(data, emailOk) == []
    ensures r.Some? ==> r.value.role in RegistrableRoles && r.value.role != "admin"
    ensures r.Some? ==> r.value == RegisterRequest(
      data.email, data.phone, data.name, data.password, data.role)
  {
    if Issues(data, emailOk) != [] then None
    else
      AcceptedIff(data, emailOk);
      Some(RegisterRequest(data.email, data.phone, data.name, data.password, data.role))
  }
}
