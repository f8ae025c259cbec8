/** The registration form (app/Register.jsx): `validateForm` and the submit handler. */
module Register {
  import opened Text

  const EmailRequired := "Email is required"
  const PasswordRequired := "Password is required"
  const InvalidEmailFormat := "Invalid email format"
  const PasswordTooShort := "Password must be at least 8 characters"
  const UsernameTaken := "Username already taken"
  const MinPasswordLength := 8

  /** A match of the unanchored pattern `\S+@\S+\.\S+` with its `@` at `at` and its `.` at
      `dot`: a non-space character just before the `@`, a non-empty run of non-space
      characters between the two, and a non-space character just after the dot. (Longer
      runs on either side contain these, so nothing more is needed for a match.) */
  ghost predicate EmailMatchAt(s: string, at: int, dot: int) {
    1 <= at && at + 2 <= dot && dot + 1 < |s| && s[at] == '@' && s[dot] == '.'
    && !IsWhitespace(s[at - 1]) && !IsWhitespace(s[dot + 1])
    && forall t :: at < t < dot ==> !IsWhitespace(s[t])
  }

  /** `/\S+@\S+\.\S+/.test(s)`. */
  ghost predicate MatchesEmailPattern(s: string) {
    exists at, dot :: EmailMatchAt(s, at, dot)
  }

  /** Looks for the dot of a match whose `@` is at `at`, scanning from `j` over non-space
      characters. */
  function DotFrom(s: string, at: nat, j: nat): (r: bool)
    requires 1 <= at < j <= |s| && s[at] == '@' && !IsWhitespace(s[at - 1])
    requires forall t :: at < t < j ==> !IsWhitespace(s[t])
    ensures r <==> exists dot :: j <= dot && EmailMatchAt(s, at, dot)
    decreases |s| - j
  {
    if j == |s| || IsWhitespace(s[j]) then
      assert forall dot :: j <= dot && EmailMatchAt(s, at, dot) ==> dot == j;
      false
    else if s[j] == '.' && at + 2 <= j && j + 1 < |s| && !IsWhitespace(s[j + 1]) then
      assert EmailMatchAt(s, at, j);
      true
    else
      DotFrom(s, at, j + 1)
  }

  /** Looks for a match whose `@` is at `i` or later. */
  function AtFrom(s: string, i: nat): (r: bool)
    requires i <= |s|
    ensures r <==> exists at, dot :: i <= at && EmailMatchAt(s, at, dot)
    decreases |s| - i
  {
    if i == |s| then false
    else if 1 <= i && s[i] == '@' && !IsWhitespace(s[i - 1]) && DotFrom(s, i, i + 1) then
      true
    else
      assert forall dot :: !EmailMatchAt(s, i, dot);
      AtFrom(s, i + 1)
  }

  /** The regular-expression test, as an executable scan. */
  function EmailPatternTest(s: string): (r: bool)
    ensures r <==> MatchesEmailPattern(s)
  {
    AtFrom(s, 0)
  }

  /** The error map `validateForm` ends with: later checks overwrite the "required"
      messages, so only the format and length messages can remain. */
  ghost function FormErrors(email: string, password: string): map<string, string> {
    (if MatchesEmailPattern(email) then map[] else map["email" := InvalidEmailFormat])
    + (if |password| >= MinPasswordLength then map[] else map["password" := PasswordTooShort])
  }

  /** The error map has only the keys `email` and `password`, neither "required" message
      survives, and it is empty exactly when the email matches and the password is long
      enough. */
  lemma FormErrorsShape(email: string, password: string)
    ensures FormErrors(email, password).Keys <= {"email", "password"}
    ensures "email" in FormErrors(email, password) <==> !MatchesEmailPattern(email)
    ensures "password" in FormErrors(email, password) <==> |password| < MinPasswordLength
    ensures forall k :: k in FormErrors(email, password) ==>
      FormErrors(email, password)[k] != EmailRequired && FormErrors(email, password)[k] != PasswordRequired
    ensures FormErrors(email, password) == map[] <==>
      MatchesEmailPattern(email) && |password| >= MinPasswordLength
  {
    if !MatchesEmailPattern(email) {
      assert "email" in FormErrors(email, password);
    }
    if |password| < MinPasswordLength {
      assert "password" in FormErrors(email, password);
    }
  }

  /** The map the four checks leave behind is FormErrors: whatever the "required" checks
      wrote is overwritten, because an empty email never matches and an empty password is
      too short. */
  lemma ErrorsAfterOverwrites(email: string, password: string, errors: map<string, string>)
    requires errors.Keys <= {"email", "password"}
    requires "email" in errors <==> email == "" || !EmailPatternTest(email)
    requires "email" in errors && !EmailPatternTest(email) ==> errors["email"] == InvalidEmailFormat
    requires "password" in errors <==> password == "" || |password| < MinPasswordLength
    requires "password" in errors ==> errors["password"] == PasswordTooShort
    ensures errors == FormErrors(email, password)
  {
    assert email == "" ==> !EmailPatternTest(email);
  }

  /** `validateForm`: fills the error map check by check, later checks overwriting earlier
      ones, and accepts when no key is left. */
  method ValidateForm(email: string, password: string) returns (errors: map<string, string>, valid: bool)
    ensures errors == FormErrors(email, password)
    ensures valid <==> MatchesEmailPattern(email) && |password| >= MinPasswordLength
  {
    errors := map[];
    if email == "" {
      errors := errors["email" := EmailRequired];
    }
    if password == "" {
      errors := errors["password" := PasswordRequired];
    }
    if !EmailPatternTest(email) {
      errors := errors["email" := InvalidEmailFormat];
    }
    if |password| < MinPasswordLength {
      errors := errors["password" := PasswordTooShort];
    }
    ErrorsAfterOverwrites(email, password, errors);
    FormErrorsShape(email, password);
    valid := |errors| == 0;
    assert valid <==> errors == map[] by {
      if |errors| == 0 {
        assert errors.Keys == {};
      }
    }
  }

  /** The backend calls registration makes. */
  datatype AuthCall = LookupUsername(username: string) | SignUp(email: string, password: string)
                    | InsertUser(email: string)

  /** The registration screen's form state. */
  class RegisterScreen {
    var fullName: string
    var username: string
    var email: string
    var password: string
    var errors: map<string, string>

    constructor ()
      ensures fullName == "" && username == "" && email == "" && password == "" && errors == map[]
    {
      fullName, username, email, password := "", "", "", "";
      errors := map[];
    }

    /** `handleSubmit`: an invalid form makes no backend call. A valid one looks the
        username up, stops if it is taken, signs up, and on success inserts the user row and
        moves on to the one-time-password screen (with the form's email and password). */
    method HandleSubmit(usernameTaken: bool, signUpOk: bool) returns (calls: seq<AuthCall>, toOtp: bool)
      modifies this`errors
      ensures !(MatchesEmailPattern(email) && |password| >= MinPasswordLength) ==>
        calls == [] && !toOtp && errors == FormErrors(email, password)
      ensures MatchesEmailPattern(email) && |password| >= MinPasswordLength && usernameTaken ==>
        calls == [LookupUsername(username)] && !toOtp && errors == map["username" := UsernameTaken]
      ensures MatchesEmailPattern(email) && |password| >= MinPasswordLength && !usernameTaken ==>
        calls == [LookupUsername(username), SignUp(email, password)] + (if signUpOk then [InsertUser(email)] else [])
        && toOtp == signUpOk && errors == map[]
    {
      var validationErrors, valid := ValidateForm(email, password);
      errors := validationErrors;
      calls, toOtp := [], false;
      if valid {
        FormErrorsShape(email, password);
        calls := [LookupUsername(username)];
        if usernameTaken {
          errors := map["username" := UsernameTaken];
          return;
        }
        calls := calls + [SignUp(email, password)];
        if !signUpOk {
          return;
        }
        calls := calls + [InsertUser(email)];
        toOtp := true;
      }
    }
  }
}
