/** The sign-up page: the form schema and what submitting does to the
    page's error message and loading flag. `validEmail` stands for the
    schema library's e-mail check. */
module SignUp {
  import opened Wrappers
  import opened Text
  import opened Types
  import opened Api
  import opened Auth

  datatype SignUpForm = SignUpForm(name: string, email: string, password: string, confirmPassword: string)

  datatype Field = NameField | EmailField | PasswordField | ConfirmPasswordField

  datatype FieldError = FieldError(field: Field, message: string)

  const NameTooShort: string := "Name must be at least 2 characters"
  const InvalidEmail: string := "Please enter a valid email address"
  const PasswordTooShort: string := "Password must be at least 6 characters"
  const PasswordsDiffer: string := "Passwords don't match"
  const SignUpFailed: string := "An error occurred during sign up"

  /** The schema's issues in the order it reports them: the field checks in
      field order, then the password confirmation, which is checked even
      when a field check failed. Lengths are in UTF-16 code units. */
  function Validate(f: SignUpForm, validEmail: string -> bool): (issues: seq<FieldError>)
    ensures NoIssueFor(issues, NameField) <==> Utf16Length(f.name) >= 2
    ensures NoIssueFor(issues, EmailField) <==> validEmail(f.email)
    ensures NoIssueFor(issues, PasswordField) <==> Utf16Length(f.password) >= 6
    ensures NoIssueFor(issues, ConfirmPasswordField) <==> f.password == f.confirmPassword
  {
    (if Utf16Length(f.name) < 2 then [FieldError(NameField, NameTooShort)] else []) +
    (if !validEmail(f.email) then [FieldError(EmailField, InvalidEmail)] else []) +
    (if Utf16Length(f.password) < 6 then [FieldError(PasswordField, PasswordTooShort)] else []) +
    (if f.password != f.confirmPassword then [FieldError(ConfirmPasswordField, PasswordsDiffer)] else [])
  }

  predicate NoIssueFor(issues: seq<FieldError>, field: Field) {
    forall e :: e in issues ==> e.field != field
  }

  /** A form is accepted exactly when every rule holds. */
  lemma AcceptedIff(f: SignUpForm, validEmail: string -> bool)
    ensures Validate(f, validEmail) == [] <==>
            Utf16Length(f.name) >= 2 && validEmail(f.email) && Utf16Length(f.password) >= 6 &&
            f.password == f.confirmPassword
  {
    var issues := Validate(f, validEmail);
    if issues != [] {
      assert issues[0] in issues;
      assert !NoIssueFor(issues, issues[0].field);
    }
  }

  /** Each rule has its message, and a mismatch is reported on the
      confirmation field. */
  lemma MessagesPerField(f: SignUpForm, validEmail: string -> bool)
    ensures FieldError(NameField, NameTooShort) in Validate(f, validEmail) <==> Utf16Length(f.name) < 2
    ensures FieldError(EmailField, InvalidEmail) in Validate(f, validEmail) <==> !validEmail(f.email)
    ensures FieldError(PasswordField, PasswordTooShort) in Validate(f, validEmail) <==> Utf16Length(f.password) < 6
    ensures FieldError(ConfirmPasswordField, PasswordsDiffer) in Validate(f, validEmail) <==>
            f.password != f.confirmPassword
  {
  }

  /** Every issue concerns one field, and no field gets two. */
  lemma OneIssuePerField(f: SignUpForm, validEmail: string -> bool)
    ensures |Validate(f, validEmail)| <= 4
    ensures forall i, j :: 0 <= i < j < |Validate(f, validEmail)| ==>
              Validate(f, validEmail)[i].field != Validate(f, validEmail)[j].field
  {
  }

  /** What was thrown at the page: an `Error`, with its message, or any
      other value. */
  datatype Thrown = ErrorObject(message: string) | OtherValue

  /** The message shown for a failed sign-up. */
  function ErrorMessage(t: Thrown): (m: string)
    ensures t.ErrorObject? ==> m == t.message
    ensures t.OtherValue? ==> m == SignUpFailed
  {
    match t
    case ErrorObject(message) => message
    case OtherValue => SignUpFailed
  }

  class SignUpPage {
    var error: string
    var isLoading: bool
    const auth: AuthProvider

    constructor (auth: AuthProvider)
      ensures this.auth == auth && error == "" && !isLoading
    {
      this.auth := auth;
      error := "";
      isLoading := false;
    }

    /** `onSubmit`: the error is cleared and loading shown during the call;
        afterwards loading is off, and either the user is signed in and sent
        home or the failure's message is shown. The client's errors are
        `Error` objects. */
    method OnSubmit(f: SignUpForm, reply: Outcome<Session>) returns (navigated: bool)
      modifies this, auth, auth.api
      ensures !isLoading && auth.isLoading == old(auth.isLoading)
      ensures navigated <==> reply.Success?
      ensures reply.Success? ==>
                error == "" && auth.user == Some(reply.value.user) &&
                auth.api.authToken == (if Present(reply.value.token) then reply.value.token else old(auth.api.authToken))
      ensures reply.Failure? ==>
                error == ErrorMessage(ErrorObject(reply.error.message)) && auth.user == old(auth.user) &&
                auth.api.authToken == (if Unauthorized(reply) then None else old(auth.api.authToken))
    {
      isLoading := true;
      error := "";
      var thrown := auth.Signup(reply);
      if thrown.None? {
        navigated := true;
      } else {
        error := ErrorMessage(ErrorObject(thrown.value.message));
        navigated := false;
      }
      isLoading := false;
    }

    /** The form's submit: a form the schema rejects shows its issues and
        calls nothing; an accepted one goes to `onSubmit`. */
    method HandleSubmit(f: SignUpForm, validEmail: string -> bool, reply: Outcome<Session>)
      returns (issues: seq<FieldError>, navigated: bool)
      modifies this, auth, auth.api
      ensures issues == Validate(f, validEmail)
      ensures issues != [] ==> !navigated && error == old(error) && isLoading == old(isLoading) &&
                               auth.user == old(auth.user) && auth.api.authToken == old(auth.api.authToken)
      ensures auth.isLoading == old(auth.isLoading)
      ensures issues == [] ==> !isLoading && (navigated <==> reply.Success?)
      ensures issues == [] && reply.Success? ==>
                error == "" && auth.user == Some(reply.value.user) &&
                auth.api.authToken == (if Present(reply.value.token) then reply.value.token else old(auth.api.authToken))
      ensures issues == [] && reply.Failure? ==>
                error == ErrorMessage(ErrorObject(reply.error.message)) && auth.user == old(auth.user) &&
                auth.api.authToken == (if Unauthorized(reply) then None else old(auth.api.authToken))
    {
      issues := Validate(f, validEmail);
      if issues != [] {
        navigated := false;
        return;
      }
      navigated := OnSubmit(f, reply);
    }
  }
}
