/** The login screen's submit handler: the email is checked before the
    password, and only a form that passes both is sent. */
module LoginScreen {
  import opened Base
  import opened Strings
  import opened Auth
  import AuthService

  const InvalidEmail := "Ingresa un email válido."
  const MissingPassword := "Ingresa tu contraseña."
  const BadCredentials := "Credenciales incorrectas."
  const LoginError := "No se pudo iniciar sesión. Intenta nuevamente."

  /** The checks of `handleLogin`, in order. */
  function LoginValidation(email: string, password: string): Option<string> {
    if !IsValidEmail(email) then Some(InvalidEmail)
    else if password == "" then Some(MissingPassword)
    else None
  }

  /** The email is checked first: an invalid email is reported whatever the
      password, and a form passes exactly when both checks do. */
  lemma LoginValidationOrder(email: string, password: string)
    ensures !IsValidEmail(email) ==> LoginValidation(email, password) == Some(InvalidEmail)
    ensures LoginValidation(email, password) == Some(MissingPassword) <==> IsValidEmail(email) && password == ""
    ensures LoginValidation(email, password).None? <==> IsValidEmail(email) && password != ""
  {
  }

  /** The `disabled` condition of the login button. */
  predicate LoginButtonDisabled(email: string, password: string, isSubmitting: bool) {
    email == "" || password == "" || isSubmitting
  }

  /** A form that passes has both fields filled in, so its button is enabled
      whenever no login is running. */
  lemma PassingLoginIsFilled(email: string, password: string)
    requires LoginValidation(email, password).None?
    ensures email != "" && password != ""
    ensures !LoginButtonDisabled(email, password, false)
  {
    assert |Trim(email)| <= |email|;
  }

  /** A password made only of spaces passes the check and is sent empty. */
  lemma BlankPasswordIsSentEmpty(email: string, password: string)
    requires IsValidEmail(email) && password != "" && AllSpace(password)
    ensures LoginValidation(email, password).None?
    ensures Trim(password) == ""
  {
    assert password + [] + [] == password;
    TrimIgnoresPadding(password, [], []);
  }

  /** The error shown once the login call has settled. */
  function SettledError(result: Settled<bool>): (e: string)
    ensures e == "" <==> result == Returns(true)
  {
    match result
    case Returns(ok) => if ok then "" else BadCredentials
    case Throws(m) => if m != "" then m else LoginError
  }

  /** The state of the login screen's form. */
  class LoginForm {
    var email: string
    var password: string
    var error: string
    var isSubmitting: bool
    /** Whether the screen has navigated to the todo list. */
    var navigated: bool

    constructor()
      ensures email == "" && password == "" && error == "" && !isSubmitting && !navigated
    {
      email, password, error := "", "", "";
      isSubmitting, navigated := false, false;
    }

    /** The `disabled` condition of the login button. */
    predicate SubmitDisabled()
      reads this
    {
      LoginButtonDisabled(email, password, isSubmitting)
    }

    /** `handleLogin` up to the awaited call. */
    method BeginLogin() returns (call: Option<AuthService.Credentials>)
      modifies this
      ensures var v := LoginValidation(email, password);
        && (call.None? <==> v.Some?)
        && error == (if v.Some? then v.value else "")
      ensures call.Some? ==> call.value == AuthService.Credentials(Trim(email), Trim(password))
      ensures isSubmitting == if call.Some? then true else old(isSubmitting)
      ensures email == old(email) && password == old(password) && navigated == old(navigated)
    {
      error := "";
      if !IsValidEmail(email) {
        error := InvalidEmail;
        return None;
      }
      if password == "" {
        error := MissingPassword;
        return None;
      }
      isSubmitting := true;
      call := Some(AuthService.Credentials(Trim(email), Trim(password)));
    }

    /** `handleLogin` after the awaited call; `isSubmitting` ends false on every
        path. */
    method FinishLogin(result: Settled<bool>)
      modifies this
      ensures !isSubmitting
      ensures navigated == (old(navigated) || result == Returns(true))
      ensures error == if result == Returns(true) then old(error) else SettledError(result)
      ensures email == old(email) && password == old(password)
    {
      match result {
        case Returns(ok) =>
          if !ok {
            error := BadCredentials;
          } else {
            navigated := true;
          }
        case Throws(m) =>
          error := if m != "" then m else LoginError;
      }
      isSubmitting := false;
    }

    /** `handleLogin`, with `result` standing for how the login call settles
        when it is made. */
    method HandleLogin(result: Settled<bool>) returns (call: Option<AuthService.Credentials>)
      modifies this
      ensures call.None? <==> old(LoginValidation(email, password)).Some?
      ensures call.None? ==>
        error == old(LoginValidation(email, password)).value
        && isSubmitting == old(isSubmitting) && navigated == old(navigated)
      ensures call.Some? ==> call.value == AuthService.Credentials(Trim(old(email)), Trim(old(password))) && !isSubmitting
      ensures call.Some? ==> navigated == (old(navigated) || result == Returns(true))
      ensures call.Some? ==> error == SettledError(result)
      ensures email == old(email) && password == old(password)
    {
      call := BeginLogin();
      if call.Some? {
        FinishLogin(result);
      }
    }
  }
}
