/** The sign-in form (app/Login.jsx): `validateForm` and the submit handler. */
module Login {

  const EmailRequired := "Email is required"
  const PasswordRequired := "Password is required"

  /** The error map `validateForm` ends with: one entry per empty field. */
  function FormErrors(email: string, password: string): map<string, string> {
    (if email == "" then map["email" := EmailRequired] else map[])
    + (if password == "" then map["password" := PasswordRequired] else map[])
  }

  /** Only emptiness is checked: no format and no length rule. */
  lemma FormErrorsShape(email: string, password: string)
    ensures FormErrors(email, password).Keys <= {"email", "password"}
    ensures "email" in FormErrors(email, password) <==> email == ""
    ensures "password" in FormErrors(email, password) <==> password == ""
    ensures FormErrors(email, password) == map[] <==> email != "" && password != ""
  {
    if email == "" {
      assert "email" in FormErrors(email, password);
    }
    if password == "" {
      assert "password" in FormErrors(email, password);
    }
  }

  /** `validateForm`: records each empty field and accepts when no key is set. */
  method ValidateForm(email: string, password: string) returns (errors: map<string, string>, valid: bool)
    ensures errors == FormErrors(email, password)
    ensures valid <==> email != "" && password != ""
  {
    errors := map[];
    if email == "" {
      errors := errors["email" := EmailRequired];
    }
    if password == "" {
      errors := errors["password" := PasswordRequired];
    }
    FormErrorsShape(email, password);
    valid := |errors| == 0;
    assert valid <==> errors == map[] by {
      if |errors| == 0 {
        assert errors.Keys == {};
      }
    }
  }

  /** How a submit ends: not sent, sign-in refused, no session afterwards, or on Home. */
  datatype SubmitOutcome = NotSubmitted | SignInFailed | SessionMissing | NavigatedHome

  /** The sign-in screen's form state. */
  class LoginScreen {
    var email: string
    var password: string
    var errors: map<string, string>

    constructor ()
      ensures email == "" && password == "" && errors == map[]
    {
      email, password := "", "";
      errors := map[];
    }

    /** `handleSubmit`: an invalid form only records its errors. A valid one signs in with
        the form's email and password, goes Home when a session follows, and in every case
        then clears both fields and the errors. */
    method HandleSubmit(signInOk: bool, hasSession: bool) returns (outcome: SubmitOutcome)
      modifies this
      ensures old(email) == "" || old(password) == "" ==>
        outcome == NotSubmitted && email == old(email) && password == old(password)
        && errors == FormErrors(old(email), old(password))
      ensures old(email) != "" && old(password) != "" ==>
        email == "" && password == "" && errors == map[]
        && outcome == (if !signInOk then SignInFailed else if hasSession then NavigatedHome else SessionMissing)
    {
      var validationErrors, valid := ValidateForm(email, password);
      errors := validationErrors;
      if !valid {
        return NotSubmitted;
      }
      if !signInOk {
        outcome := SignInFailed;
      } else if hasSession {
        outcome := NavigatedHome;
      } else {
        outcome := SessionMissing;
      }
      email := "";
      password := "";
      errors := map[];
    }
  }
}
