/** The login page (`src/pages/Login.jsx`): the password-length gate and
    where a signed-in user is sent. The auth and profile calls are given as
    their replies. */
module Login {
  import opened Domain
  import Access

  /** Whether an auth call (`signUp`, `signInWithPassword`) returned an error. */
  datatype Reply = Accepted | Refused

  /** The profile read after signing in. */
  datatype ProfileReply = ReadError | NoProfile | HasRole(role: string)

  /** The form as submitted: registration, or sign-in, with the replies the calls give. */
  datatype Request =
    | SignUp(signUp: Reply, autoSignIn: Reply)
    | SignIn(signIn: Reply, profile: ProfileReply)

  /** What the page does: refuse the password, stay put, or navigate. */
  datatype Outcome = TooShort | Stay | Go(path: string)

  /** The `if … else if` chain after a profile is read. */
  function Landing(role: string): (path: string)
    ensures role in {"gerente", "chofer", "recepcion", "bodega"} ==> path == "/" + role
    ensures role !in {"gerente", "chofer", "recepcion", "bodega"} ==> path == "/cliente"
  {
    if role == "gerente" then "/gerente"
    else if role == "chofer" then "/chofer"
    else if role == "recepcion" then "/recepcion"
    else if role == "bodega" then "/bodega"
    else "/cliente"
  }

  /** `handleAuth`: a password under six characters is refused before any
      call; a registration whose sign-up and automatic sign-in both succeed
      goes to `/cliente`; a sign-in with a readable profile goes to the
      landing page of its role; every other case stays on the page. */
  function HandleAuth(password: string, request: Request): (o: Outcome)
    ensures |password| < 6 <==> o == TooShort
    ensures o.Go? ==> o.path in {"/gerente", "/chofer", "/recepcion", "/bodega", "/cliente"}
    ensures (|password| >= 6 && request.SignIn? && request.signIn == Accepted && request.profile.HasRole?) ==>
      o == Go(Landing(request.profile.role))
    ensures (|password| >= 6 && request.SignIn? && (request.signIn == Refused || !request.profile.HasRole?)) ==> o == Stay
    ensures (|password| >= 6 && request.SignUp?) ==>
      (o == Go("/cliente") <==> request.signUp == Accepted && request.autoSignIn == Accepted)
  {
    if |password| < 6 then TooShort
    else match request
      case SignUp(signUp, autoSignIn) =>
        if signUp == Accepted && autoSignIn == Accepted then Go("/cliente") else Stay
      case SignIn(signIn, profile) =>
        if signIn == Refused then Stay
        else match profile
          case HasRole(role) => Go(Landing(role))
          case _ => Stay
  }

  /** After signing in, a staff member or customer arrives on a page that
      admits them; any other role arrives on `/cliente`, where the guard sends
      them home. */
  lemma LandingAdmitted(role: string)
    ensures role in {"gerente", "chofer", "recepcion", "bodega", "cliente"} ==>
      Access.Navigate(Landing(role), true, Some(role)) == Access.Shows(Access.RouteFor(Landing(role)).screen)
    ensures role !in {"gerente", "chofer", "recepcion", "bodega", "cliente"} ==>
      Access.Navigate(Landing(role), true, Some(role)) == Access.GoesTo("/")
  {
    Access.RouteTable(role);
  }
}
