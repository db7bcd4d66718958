/** The registration form (frontend/src/pages/Register.js): its validator, and the form and
    error state its handlers replace. */
module RegisterPage {
  import opened Wrappers
  import opened Text

  datatype Field = Name | Email | Password | ConfirmPassword | Role

  datatype Form = Form(name: string, email: string, password: string, confirmPassword: string, role: string)

  /** The initial form: every field empty, the role "student". */
  const Blank := Form("", "", "", "", "student")

  /** The roles the page offers, as buttons. */
  const RoleChoices := ["student", "instructor"]

  function Value(f: Form, field: Field): string {
    match field
    case Name => f.name
    case Email => f.email
    case Password => f.password
    case ConfirmPassword => f.confirmPassword
    case Role => f.role
  }

  /** `{ ...prev, [name]: value }` */
  function WithValue(f: Form, field: Field, v: string): (r: Form)
    ensures Value(r, field) == v
    ensures forall g :: g != field ==> Value(r, g) == Value(f, g)
  {
    match field
    case Name => f.(name := v)
    case Email => f.(email := v)
    case Password => f.(password := v)
    case ConfirmPassword => f.(confirmPassword := v)
    case Role => f.(role := v)
  }

  /** A match of `/\S+@\S+\.\S+/` somewhere in `s`: a non-space before an '@', only
      non-spaces from there to a later '.', and a non-space after that '.'. */
  predicate ContainsEmailShape(s: string) {
    exists at, dot | 0 <= at < |s| && 0 <= dot < |s| :: EmailShapeAt(s, at, dot)
  }

  predicate EmailShapeAt(s: string, at: int, dot: int) {
    && 0 < at && at + 1 < dot && dot + 1 < |s|
    && s[at] == '@' && s[dot] == '.'
    && !IsSpace(s[at - 1]) && !IsSpace(s[dot + 1])
    && forall i :: at < i < dot ==> !IsSpace(s[i])
  }

  const NameRequired := "Name is required"
  const NameTooShort := "Name must be at least 2 characters"
  const EmailRequired := "Email is required"
  const EmailInvalid := "Email is invalid"
  const PasswordRequired := "Password is required"
  const PasswordTooShort := "Password must be at least 6 characters"
  const ConfirmRequired := "Please confirm your password"
  const PasswordsDiffer := "Passwords do not match"
  const RoleRequired := "Please select a role"

  /** The error `validateForm` records for one field, if any. An empty string is falsy, so
      "empty" is the first test of each field; lengths count UTF-16 code units. */
  function FieldError(f: Form, field: Field): (r: Option<string>)
    ensures field == Name ==> (r.Some? <==> Utf16Length(f.name) < 2)
                              && (r.Some? ==> r.value == if f.name == "" then NameRequired else NameTooShort)
    ensures field == Email ==> (r.Some? <==> f.email == "" || !ContainsEmailShape(f.email))
                               && (r.Some? ==> r.value == if f.email == "" then EmailRequired else EmailInvalid)
    ensures field == Password ==> (r.Some? <==> Utf16Length(f.password) < 6)
                                  && (r.Some? ==> r.value == if f.password == "" then PasswordRequired else PasswordTooShort)
    ensures field == ConfirmPassword ==> (r.Some? <==> f.confirmPassword == "" || f.password != f.confirmPassword)
                                         && (r.Some? ==> r.value == if f.confirmPassword == "" then ConfirmRequired else PasswordsDiffer)
    ensures field == Role ==> (r.Some? <==> f.role == "") && (r.Some? ==> r.value == RoleRequired)
    ensures r.Some? ==> r.value != ""
  {
    match field
    case Name =>
      if f.name == "" then Some(NameRequired) else if Utf16Length(f.name) < 2 then Some(NameTooShort) else None
    case Email =>
      if f.email == "" then Some(EmailRequired) else if !ContainsEmailShape(f.email) then Some(EmailInvalid) else None
    case Password =>
      if f.password == "" then Some(PasswordRequired) else if Utf16Length(f.password) < 6 then Some(PasswordTooShort) else None
    case ConfirmPassword =>
      if f.confirmPassword == "" then Some(ConfirmRequired) else if f.password != f.confirmPassword then Some(PasswordsDiffer) else None
    case Role =>
      if f.role == "" then Some(RoleRequired) else None
  }

  const Fields: set<Field> := {Name, Email, Password, ConfirmPassword, Role}

  /** Every field is one of the five the form has. */
  lemma EveryField()
    ensures forall field: Field :: field in Fields
  {
    forall field: Field
      ensures field in Fields
    {
      match field
      case Name =>
      case Email =>
      case Password =>
      case ConfirmPassword =>
      case Role =>
    }
  }

  /** `validateForm`: a fresh map holding the error of each field that fails, and nothing for
      a field that passes. */
  function ValidateForm(f: Form): (errors: map<Field, string>)
    ensures forall field :: field in errors <==> FieldError(f, field).Some?
    ensures forall field :: field in errors ==> errors[field] == FieldError(f, field).value
  {
    EveryField();
    map field | field in Fields && FieldError(f, field).Some? :: FieldError(f, field).value
  }

  /** The form is valid exactly when every rule holds. */
  lemma FormValidIff(f: Form)
    ensures ValidateForm(f) == map[] <==>
              && Utf16Length(f.name) >= 2 && ContainsEmailShape(f.email)
              && Utf16Length(f.password) >= 6 && f.confirmPassword == f.password && f.role != ""
  {
    var e := ValidateForm(f);
    if e == map[] {
      assert Name !in e && Email !in e && Password !in e && ConfirmPassword !in e && Role !in e;
    } else {
      var field :| field in e;
    }
  }

  /** The pattern is not anchored: whatever text surrounds a matching address, the whole
      still matches. */
  lemma UnanchoredPattern(p: string, s: string, q: string)
    requires ContainsEmailShape(s)
    ensures ContainsEmailShape(p + s + q)
  {
    var at, dot :| 0 <= at < |s| && 0 <= dot < |s| && EmailShapeAt(s, at, dot);
    assert forall i :: 0 <= i < |s| ==> (p + s + q)[|p| + i] == s[i];
    assert EmailShapeAt(p + s + q, |p| + at, |p| + dot);
  }

  /** An address needs a dot at least two characters after an '@': text where every '.'
      is before each '@' or right after it never matches ("a@b", "a@.c"). */
  lemma NoDotNoMatch(s: string)
    requires forall i, j | 0 <= i && i + 1 < j < |s| :: s[i] == '@' ==> s[j] != '.'
    ensures !ContainsEmailShape(s)
  {
  }

  /** What submission sends to the register call. */
  datatype Registration = Registration(name: string, email: string, password: string, role: string)

  /** The outcome of the register call: success, or failure with an optional message. */
  datatype RegisterResult = Registered | NotRegistered(message: Option<string>)

  /** The page's state. */
  class Page {
    var form: Form
    var errors: map<Field, string>
    var message: string
    /** Where `navigate` has gone, if anywhere. */
    var navigatedTo: Option<string>

    /** Only the offered roles can be selected, and no input edits the role. */
    ghost predicate Valid()
      reads this
    {
      form.role in RoleChoices
    }

    constructor ()
      ensures Valid()
      ensures form == Blank && errors == map[] && message == "" && navigatedTo == None
    {
      form := Blank;
      errors := map[];
      message := "";
      navigatedTo := None;
    }

    /** `handleInputChange` for one of the four inputs: the field takes the value, and only
        that field's error, if set, is cleared to "". */
    method HandleInputChange(field: Field, v: string)
      requires field != Role && Valid()
      modifies this
      ensures Valid()
      ensures form == WithValue(old(form), field, v)
      ensures errors == if field in old(errors) && old(errors)[field] != "" then old(errors)[field := ""] else old(errors)
      ensures message == old(message) && navigatedTo == old(navigatedTo)
    {
      form := WithValue(form, field, v);
      if field in errors && errors[field] != "" {
        errors := errors[field := ""];
      }
    }

    /** `handleRoleSelect`, from the button of choice `k`. */
    method HandleRoleSelect(k: nat)
      requires k < |RoleChoices|
      modifies this
      ensures Valid()
      ensures form == old(form).(role := RoleChoices[k])
      ensures errors == if Role in old(errors) && old(errors)[Role] != "" then old(errors)[Role := ""] else old(errors)
      ensures message == old(message) && navigatedTo == old(navigatedTo)
    {
      form := form.(role := RoleChoices[k]);
      if Role in errors && errors[Role] != "" {
        errors := errors[Role := ""];
      }
    }

    /** The guard of `handleSubmit`: the message is cleared, the errors are replaced by the
        validator's, and the registration is sent only when there are none. */
    method HandleSubmit() returns (sent: Option<Registration>)
      requires Valid()
      modifies this
      ensures Valid() && form == old(form) && navigatedTo == old(navigatedTo)
      ensures message == "" && errors == ValidateForm(form)
      ensures sent.Some? <==> errors == map[]
      ensures sent.Some? ==> sent.value == Registration(form.name, form.email, form.password, form.role)
    {
      message := "";
      errors := ValidateForm(form);
      if errors != map[] {
        return None;
      }
      sent := Some(Registration(form.name, form.email, form.password, form.role));
    }

    /** The rest of `handleSubmit`: to the dashboard on success, otherwise the failure's
        message, or "Registration failed" when it has none. */
    method FinishSubmit(result: RegisterResult)
      modifies this
      ensures form == old(form) && errors == old(errors)
      ensures result.Registered? ==> navigatedTo == Some("/dashboard") && message == old(message)
      ensures result.NotRegistered? ==>
                && navigatedTo == old(navigatedTo)
                && message == if result.message.Some? && result.message.value != "" then result.message.value else "Registration failed"
    {
      if result.Registered? {
        navigatedTo := Some("/dashboard");
      } else if result.message.Some? && result.message.value != "" {
        message := result.message.value;
      } else {
        message := "Registration failed";
      }
    }
  }

  /** With only offered roles selectable, the role error never shows. */
  lemma RoleErrorUnreachable(f: Form)
    requires f.role in RoleChoices
    ensures Role !in ValidateForm(f)
  {
  }
}
