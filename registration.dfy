/**
 * The mobile account-registration screen: its form and error state, the
 * client-side validation that gates the register call, the password
 * strength meter and the confirmation hint.
 *
 * The register call's reply is a parameter of the submit handler.
 */
module Registration {
  import opened Wrappers
  import opened Text

  /** The six form fields. */
  datatype Field = FirstName | LastName | Role | Email | Password | Confirm

  /** The form state: one text per field. */
  datatype Form = Form(firstName: string, lastName: string, role: string, email: string, password: string, confirm: string)

  function Value(form: Form, f: Field): string {
    match f
    case FirstName => form.firstName
    case LastName => form.lastName
    case Role => form.role
    case Email => form.email
    case Password => form.password
    case Confirm => form.confirm
  }

  /** `{ ...form, [f]: v }`: field f becomes v, every other field is kept. */
  function With(form: Form, f: Field, v: string): (r: Form)
    ensures Value(r, f) == v
    ensures forall g :: g != f ==> Value(r, g) == Value(form, g)
  {
    match f
    case FirstName => form.(firstName := v)
    case LastName => form.(lastName := v)
    case Role => form.(role := v)
    case Email => form.(email := v)
    case Password => form.(password := v)
    case Confirm => form.(confirm := v)
  }

  /** The form as the screen starts and as a successful registration leaves it. */
  const EmptyForm := Form("", "", "", "", "", "")

  /**
   * `/\S+@\S+\.\S+/.test(s)`: somewhere in s, a non-space character, an '@',
   * one or more non-space characters, a '.', and a non-space character.
   */
  predicate EmailLike(s: string) {
    exists a, d :: 0 < a < |s| && 0 < d < |s| && EmailAt(s, a, d)
  }

  /** The match with its '@' at a and its '.' at d. */
  predicate EmailAt(s: string, a: int, d: int) {
    0 < a && a + 1 < d && d + 1 < |s| && s[a] == '@' && s[d] == '.'
      && !IsSpace(s[a - 1]) && !IsSpace(s[d + 1]) && NoSpaceBetween(s, a, d)
  }

  predicate NoSpaceBetween(s: string, a: int, d: int)
    requires 0 <= a <= d <= |s|
  {
    forall k :: a < k < d ==> !IsSpace(s[k])
  }

  /** Text that looks like an e-mail address is never blank. */
  lemma EmailLikeNotBlank(s: string)
    requires EmailLike(s)
    ensures Trim(s) != ""
  {
    var a, d :| 0 < a < |s| && 0 < d < |s| && EmailAt(s, a, d);
    assert !IsSpace(s[a]);
  }

  /** Does field f fail its check? */
  predicate Fails(form: Form, f: Field) {
    match f
    case FirstName => Trim(form.firstName) == ""
    case LastName => Trim(form.lastName) == ""
    case Role => form.role == ""
    case Email => Trim(form.email) == "" || !EmailLike(form.email)
    case Password => |form.password| < 6
    case Confirm => form.confirm != form.password
  }

  function Message(f: Field): string {
    match f
    case FirstName => "First name is required"
    case LastName => "Last name is required"
    case Role => "Please select a role"
    case Email => "Valid email is required"
    case Password => "Password must be at least 6 characters"
    case Confirm => "Passwords do not match"
  }

  /** The form the register call may be made with. */
  predicate FormValid(form: Form) {
    && Trim(form.firstName) != "" && Trim(form.lastName) != ""
    && form.role != ""
    && EmailLike(form.email)
    && |form.password| >= 6
    && form.confirm == form.password
  }

  /** No field fails exactly when the form is valid. */
  lemma NoFailureIffValid(form: Form)
    ensures (forall f :: !Fails(form, f)) <==> FormValid(form)
  {
    if EmailLike(form.email) {
      EmailLikeNotBlank(form.email);
    }
    assert (!Fails(form, FirstName) && !Fails(form, LastName) && !Fails(form, Role)
      && !Fails(form, Email) && !Fails(form, Password) && !Fails(form, Confirm)) ==> forall f :: !Fails(form, f);
  }

  /** Every key holds its field's message. */
  predicate MessagesFit(errs: map<Field, string>) {
    forall f :: f in errs ==> errs[f] == Message(f)
  }

  const AllFields: set<Field> := {FirstName, LastName, Role, Email, Password, Confirm}

  lemma AllFieldsListed()
    ensures forall f: Field :: f in AllFields
  {
    forall f: Field ensures f in AllFields {
      match f
      case FirstName =>
      case LastName =>
      case Role =>
      case Email =>
      case Password =>
      case Confirm =>
    }
  }

  /**
   * `validateForm`: one message for each failing field, and no other key.
   * The source adds the keys one check at a time; only the resulting
   * object matters, so it is written here as one map.
   */
  function ValidateForm(form: Form): (errs: map<Field, string>)
    ensures forall f :: f in errs <==> Fails(form, f)
    ensures MessagesFit(errs)
  {
    AllFieldsListed();
    map f | f in AllFields && Fails(form, f) :: Message(f)
  }

  /** So validation reports nothing exactly when the form is valid. */
  lemma NoErrorsIffValid(form: Form, errs: map<Field, string>)
    requires forall f :: f in errs <==> Fails(form, f)
    ensures errs == map[] <==> FormValid(form)
  {
    NoFailureIffValid(form);
    if errs == map[] {
      forall f ensures !Fails(form, f) {
        assert f !in errs;
      }
    } else {
      var k :| k in errs;
      assert Fails(form, k);
    }
  }

  /** The body of the register call. */
  datatype RegisterPayload = RegisterPayload(
    first_name: string, last_name: string, email: string, password: string, confirm: string, role: string)

  /** The register call's outcome: success, field errors, another failure, or no reply at all. */
  datatype Reply = Registered | FieldErrors(errors: map<Field, string>) | Refused(message: string) | NetworkError

  class Screen {
    var form: Form
    var errors: map<Field, string>
    var loading: bool

    constructor ()
      ensures form == EmptyForm && errors == map[] && !loading
    {
      form := EmptyForm;
      errors := map[];
      loading := false;
    }

    /** `handleChange`: set one field and clear that field's error; nothing else changes. */
    method HandleChange(field: Field, value: string)
      modifies this
      ensures form == With(old(form), field, value)
      ensures errors == old(errors)[field := ""]
      ensures loading == old(loading)
    {
      form := With(form, field, value);
      errors := errors[field := ""];
    }

    /**
     * `handleRegister`: validate; only a valid form is sent. A success
     * resets every field to '', field errors from the server replace the
     * error messages, and the busy flag is off once the call is over.
     */
    method HandleRegister(reply: Reply) returns (sent: Option<RegisterPayload>)
      modifies this
      ensures loading == (!FormValid(old(form)) && old(loading))
      ensures sent.Some? <==> FormValid(old(form))
      ensures sent.Some? ==> sent.value == RegisterPayload(old(form).firstName, old(form).lastName,
        old(form).email, old(form).password, old(form).confirm, old(form).role)
      ensures !FormValid(old(form)) ==> form == old(form) && MessagesFit(errors) && forall f :: f in errors <==> Fails(old(form), f)
      ensures FormValid(old(form)) && reply.Registered? ==> form == EmptyForm && errors == map[]
      ensures FormValid(old(form)) && reply.FieldErrors? ==> form == old(form) && errors == reply.errors
      ensures FormValid(old(form)) && (reply.Refused? || reply.NetworkError?) ==> form == old(form) && errors == map[]
    {
      var errs := ValidateForm(form);
      NoErrorsIffValid(form, errs);
      errors := errs;
      sent := None;
      if errs == map[] {
        loading := true;
        sent := Some(RegisterPayload(form.firstName, form.lastName, form.email, form.password, form.confirm, form.role));
        match reply {
          case Registered =>
            form := EmptyForm;
          case FieldErrors(e) =>
            errors := e;
          case Refused(_) =>
          case NetworkError =>
        }
        loading := false;
      }
    }
  }

  // ---------------------------------------------------------------------------
  // The password strength meter

  datatype Strength = Weak | Medium | Strong

  function Rank(s: Strength): nat {
    match s
    case Weak => 0
    case Medium => 1
    case Strong => 2
  }

  predicate IsUpper(c: char) { 'A' <= c <= 'Z' }
  predicate IsAlnum(c: char) { 'A' <= c <= 'Z' || 'a' <= c <= 'z' || IsDigit(c) }

  predicate HasUpper(p: string) { exists i :: 0 <= i < |p| && IsUpper(p[i]) }
  predicate HasDigit(p: string) { exists i :: 0 <= i < |p| && IsDigit(p[i]) }
  predicate HasSymbol(p: string) { exists i :: 0 <= i < |p| && !IsAlnum(p[i]) }

  /** The number of the four criteria a password meets. */
  function Score(p: string): (r: nat)
    ensures r <= 4
  {
    (if |p| >= 6 then 1 else 0) + (if HasUpper(p) then 1 else 0)
      + (if HasDigit(p) then 1 else 0) + (if HasSymbol(p) then 1 else 0)
  }

  /** At most one criterion is weak, two is medium, three or more is strong. */
  function LabelOf(score: nat): (r: Strength)
    ensures score <= 1 <==> r == Weak
    ensures score == 2 <==> r == Medium
    ensures score >= 3 <==> r == Strong
  {
    if score <= 1 then Weak else if score == 2 then Medium else Strong
  }

  /** `getPasswordStrength`: count the criteria one by one, then label the count. */
  method PasswordStrength(password: string) returns (r: Strength)
    ensures r == LabelOf(Score(password))
  {
    var strength := 0;
    if |password| >= 6 { strength := strength + 1; }
    if HasUpper(password) { strength := strength + 1; }
    if HasDigit(password) { strength := strength + 1; }
    if HasSymbol(password) { strength := strength + 1; }
    if strength <= 1 {
      r := Weak;
    } else if strength == 2 {
      r := Medium;
    } else {
      r := Strong;
    }
  }

  /** Typing more characters never lowers the meter: every criterion survives an extension. */
  lemma StrengthGrowsWithTyping(p: string, q: string)
    ensures Score(p) <= Score(p + q)
    ensures Rank(LabelOf(Score(p))) <= Rank(LabelOf(Score(p + q)))
  {
    if HasUpper(p) {
      var i :| 0 <= i < |p| && IsUpper(p[i]);
      assert (p + q)[i] == p[i];
    }
    if HasDigit(p) {
      var i :| 0 <= i < |p| && IsDigit(p[i]);
      assert (p + q)[i] == p[i];
    }
    if HasSymbol(p) {
      var i :| 0 <= i < |p| && !IsAlnum(p[i]);
      assert (p + q)[i] == p[i];
    }
  }

  /** `getConfirmMatch`: no hint while the confirmation is empty, else whether it equals the password. */
  function ConfirmMatch(form: Form): (r: Option<bool>)
    ensures r.None? <==> form.confirm == ""
    ensures r.Some? ==> (r.value <==> !Fails(form, Confirm))
  {
    if |form.confirm| == 0 then None else Some(form.password == form.confirm)
  }
}
