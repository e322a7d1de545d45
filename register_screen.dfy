/** The registration screen's submit handler: checks run in a fixed order, the
    first one that fails reports its message, and only a form that passes them
    all is sent. */
module RegisterScreen {
  import opened Base
  import opened Strings
  import opened Auth
  import AuthService

  const InvalidEmail := "Ingresa un email válido."
  const MissingPassword := "Ingresa una contraseña."
  const ShortPassword := "La contraseña debe tener al menos 6 caracteres."
  const Mismatch := "Las contraseñas no coinciden."
  const NotCreated := "No se pudo crear la cuenta."
  const CreateError := "Error al crear la cuenta"

  const MinPasswordLength := 6

  /** The checks of `handleRegister`, in order: the message of the first one
      that fails, or `None` when the form may be sent. */
  function RegisterValidation(email: string, password: string, confirm: string): Option<string> {
    if !IsValidEmail(email) then Some(InvalidEmail)
    else if password == "" then Some(MissingPassword)
    else if |password| < MinPasswordLength then Some(ShortPassword)
    else if password != confirm then Some(Mismatch)
    else None
  }

  /** A form passes exactly when every check does, and each message is
      reported only when every earlier check passed. */
  lemma RegisterValidationOrder(email: string, password: string, confirm: string)
    ensures RegisterValidation(email, password, confirm).None? <==>
      IsValidEmail(email) && |password| >= MinPasswordLength && password == confirm
    ensures RegisterValidation(email, password, confirm) == Some(MissingPassword) ==> IsValidEmail(email)
    ensures RegisterValidation(email, password, confirm) == Some(ShortPassword) ==> IsValidEmail(email) && password != ""
    ensures RegisterValidation(email, password, confirm) == Some(Mismatch) ==>
      IsValidEmail(email) && |password| >= MinPasswordLength
  {
  }

  /** The `disabled` condition of the submit button. */
  predicate RegisterButtonDisabled(email: string, password: string, confirm: string, isSubmitting: bool) {
    email == "" || password == "" || confirm == "" || isSubmitting
  }

  /** A form that passes has every field filled in, so the button that sends
      it is enabled unless a submission is running. */
  lemma PassingFormIsFilled(email: string, password: string, confirm: string)
    requires RegisterValidation(email, password, confirm).None?
    ensures email != "" && password != "" && confirm != ""
    ensures !RegisterButtonDisabled(email, password, confirm, false)
  {
    assert |Trim(email)| <= |email|;
  }

  /** The length is checked on the password as typed, but the trimmed password
      is what is sent: a padded short password passes the check. */
  lemma LengthCheckIsUntrimmed(email: string)
    requires IsValidEmail(email)
    ensures RegisterValidation(email, "  abcd", "  abcd").None?
    ensures |Trim("  abcd")| < MinPasswordLength
  {
    assert "  abcd" == "  " + "abcd" + [];
    TrimUnique("  ", "abcd", []);
  }

  /** The error shown once the registration call has settled: none after a
      success, otherwise a message that is never empty. */
  function SettledError(result: Settled<bool>): (e: string)
    ensures e == "" <==> result == Returns(true)
  {
    match result
    case Returns(ok) => if ok then "" else NotCreated
    case Throws(m) => if m != "" then m else CreateError
  }

  /** The state of the registration screen. */
  class RegisterForm {
    var email: string
    var password: string
    var confirmPassword: string
    var error: string
    var isSubmitting: bool
    /** Whether the screen has navigated to the todo list. */
    var navigated: bool

    constructor()
      ensures email == "" && password == "" && confirmPassword == "" && error == ""
      ensures !isSubmitting && !navigated
    {
      email, password, confirmPassword, error := "", "", "", "";
      isSubmitting, navigated := false, false;
    }

    /** The `disabled` condition of the submit button. */
    predicate SubmitDisabled()
      reads this
    {
      RegisterButtonDisabled(email, password, confirmPassword, isSubmitting)
    }

    /** `handleRegister` up to the awaited call: the error is cleared, then the
        first failing check sets its message and nothing else changes; a form
        that passes raises `isSubmitting` and returns the trimmed credentials
        to send. */
    method BeginRegister() returns (call: Option<AuthService.Credentials>)
      modifies this
      ensures var v := RegisterValidation(email, password, confirmPassword);
        && (call.None? <==> v.Some?)
        && error == (if v.Some? then v.value else "")
      ensures call.Some? ==> call.value == AuthService.Credentials(Trim(email), Trim(password))
      ensures isSubmitting == if call.Some? then true else old(isSubmitting)
      ensures email == old(email) && password == old(password) && confirmPassword == old(confirmPassword)
      ensures navigated == old(navigated)
    {
      error := "";
      if !IsValidEmail(email) {
        error := InvalidEmail;
        return None;
      }
      if password == "" {
        error := MissingPassword;
        return None;
      }
      if |password| < MinPasswordLength {
        error := ShortPassword;
        return None;
      }
      if password != confirmPassword {
        error := Mismatch;
        return None;
      }
      isSubmitting := true;
      call := Some(AuthService.Credentials(Trim(email), Trim(password)));
    }

    /** `handleRegister` after the awaited call: `true` navigates, `false`
        reports that no account was created, a rejection reports its message
        or, when it is empty, a generic one; `isSubmitting` ends false on every
        path. */
    method FinishRegister(result: Settled<bool>)
      modifies this
      ensures !isSubmitting
      ensures navigated == (old(navigated) || result == Returns(true))
      ensures error == if result == Returns(true) then old(error) else SettledError(result)
      ensures email == old(email) && password == old(password) && confirmPassword == old(confirmPassword)
    {
      match result {
        case Returns(ok) =>
          if !ok {
            error := NotCreated;
          } else {
            navigated := true;
          }
        case Throws(m) =>
          error := if m != "" then m else CreateError;
      }
      isSubmitting := false;
    }

    /** `handleRegister`, with `result` standing for how the registration call
        settles when it is made. */
    method HandleRegister(result: Settled<bool>) returns (call: Option<AuthService.Credentials>)
      modifies this
      ensures call.None? <==> old(RegisterValidation(email, password, confirmPassword)).Some?
      ensures call.None? ==>
        error == old(RegisterValidation(email, password, confirmPassword)).value
        && isSubmitting == old(isSubmitting) && navigated == old(navigated)
      ensures call.Some? ==> call.value == AuthService.Credentials(Trim(old(email)), Trim(old(password))) && !isSubmitting
      ensures call.Some? ==> navigated == (old(navigated) || result == Returns(true))
      ensures call.Some? ==> error == SettledError(result)
      ensures email == old(email) && password == old(password) && confirmPassword == old(confirmPassword)
    {
      call := BeginRegister();
      if call.Some? {
        FinishRegister(result);
      }
    }
  }
}
