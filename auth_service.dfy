/** The authentication gateway: `login` and `register` post the credentials and
    resolve with the response body as it came; only failures are classified.
    Both functions are generic in the body type `B`, so they can neither
    inspect nor alter the body (`success`, `data.token`). */
module AuthService {
  import opened Base
  import opened Http

  /** The payload of both requests. */
  datatype Credentials = Credentials(email: string, password: string)

  const InvalidCredentials := "Credenciales inválidas"
  const UserExists := "El usuario ya existe"
  const NetworkOrServer := "Error de red o del servidor"

  /** `login`: the body of any response is returned unchanged; HTTP 401 means
      invalid credentials, every other failure is a network or server error. */
  function Login<B>(o: Outcome<B>): (r: Settled<B>)
    ensures o.Ok? ==> r == Returns(o.body)
    ensures o.HttpErr? && o.status == 401 ==> r == Throws(InvalidCredentials)
    ensures !o.Ok? && !(o.HttpErr? && o.status == 401) ==> r == Throws(NetworkOrServer)
  {
    match Await(o)
    case Completed(body) => Returns(body)
    case Raised(e) => if HasStatus(e, 401) then Throws(InvalidCredentials) else Throws(NetworkOrServer)
  }

  /** `register`: as `login`, but the status told apart is 409, an existing
      user. */
  function Register<B>(o: Outcome<B>): (r: Settled<B>)
    ensures o.Ok? ==> r == Returns(o.body)
    ensures o.HttpErr? && o.status == 409 ==> r == Throws(UserExists)
    ensures !o.Ok? && !(o.HttpErr? && o.status == 409) ==> r == Throws(NetworkOrServer)
  {
    match Await(o)
    case Completed(body) => Returns(body)
    case Raised(e) => if HasStatus(e, 409) then Throws(UserExists) else Throws(NetworkOrServer)
  }

  /** Each gateway singles out its own status only: a 409 on login and a 401 on
      register are generic failures. */
  lemma StatusesAreNotShared<B>(m: string)
    ensures Login<B>(HttpErr(409, m)) == Throws(NetworkOrServer)
    ensures Register<B>(HttpErr(401, m)) == Throws(NetworkOrServer)
    ensures Login<B>(HttpErr(401, m)) != Register<B>(HttpErr(401, m))
    ensures Login<B>(HttpErr(409, m)) != Register<B>(HttpErr(409, m))
  {
  }
}
