/** The route table (`src/App.jsx`) and the role guard around each protected
    page (`src/components/l.jsx`). */
module Access {
  import opened Domain

  /** The page component a route renders. */
  datatype Screen = HomeScreen | LoginScreen | ReceptionScreen | WarehouseScreen | DriverScreen | CustomerScreen | ManagerScreen

  /** A route either renders its page to anyone or sits behind a guard with
      its `allowedRoles`. */
  datatype Route = Open(screen: Screen) | Guarded(screen: Screen, allowed: seq<string>)

  /** The `<Routes>` table; any unknown path renders the home page. */
  function RouteFor(path: string): (r: Route)
    ensures path !in {"/recepcion", "/bodega", "/chofer", "/cliente", "/gerente"} ==> r.Open?
    ensures path == "/login" ==> r == Open(LoginScreen)
    ensures path !in {"/login", "/recepcion", "/bodega", "/chofer", "/cliente", "/gerente"} ==> r == Open(HomeScreen)
  {
    if path == "/" then Open(HomeScreen)
    else if path == "/login" then Open(LoginScreen)
    else if path == "/recepcion" then Guarded(ReceptionScreen, ["recepcion", "gerente"])
    else if path == "/bodega" then Guarded(WarehouseScreen, ["bodega", "gerente"])
    else if path == "/chofer" then Guarded(DriverScreen, ["chofer"])
    else if path == "/cliente" then Guarded(CustomerScreen, ["cliente"])
    else if path == "/gerente" then Guarded(ManagerScreen, ["gerente"])
    else Open(HomeScreen)
  }

  /** Whether `role` may see what `path` renders. */
  predicate Admits(path: string, role: string) {
    match RouteFor(path)
    case Open(_) => true
    case Guarded(_, allowed) => role in allowed
  }

  /** Who gets into each protected page. */
  lemma RouteTable(role: string)
    ensures Admits("/recepcion", role) <==> role == "recepcion" || role == "gerente"
    ensures Admits("/bodega", role) <==> role == "bodega" || role == "gerente"
    ensures Admits("/chofer", role) <==> role == "chofer"
    ensures Admits("/cliente", role) <==> role == "cliente"
    ensures Admits("/gerente", role) <==> role == "gerente"
  {
  }

  /** What the guard does once the session and profile reads have finished. */
  datatype Decision = Render | Redirect(to: string)

  /** The page the guard sends a known role to when it is not allowed in. */
  function OwnPage(role: string): (path: string)
    ensures path == "/" <==> role !in {"gerente", "recepcion", "bodega", "chofer", "cliente"}
    ensures path != "/" ==> path == "/" + role
  {
    if role == "gerente" then "/gerente"
    else if role == "recepcion" then "/recepcion"
    else if role == "bodega" then "/bodega"
    else if role == "chofer" then "/chofer"
    else if role == "cliente" then "/cliente"
    else "/"
  }

  /** `ProtectedRoute`: no session goes to `/login`; a profile whose role is
      allowed renders; a known role goes to its own page; a missing profile
      or an unknown role goes to `/`. */
  function Guard(session: bool, role: Option<string>, allowed: seq<string>): (d: Decision)
    ensures !session ==> d == Redirect("/login")
    ensures session ==> (d == Render <==> role.Some? && role.value in allowed)
    ensures session && role.None? ==> d == Redirect("/")
    ensures session && role.Some? && role.value !in allowed ==> d == Redirect(OwnPage(role.value))
  {
    if !session then Redirect("/login")
    else if role.Some? && role.value in allowed then Render
    else if role.Some? then Redirect(OwnPage(role.value))
    else Redirect("/")
  }

  /** Opening `path`: the page is shown, or the browser is sent elsewhere. */
  datatype Visit = Shows(screen: Screen) | GoesTo(path: string)

  /** The page reached by opening `path` with the given session and profile role. */
  function Navigate(path: string, session: bool, role: Option<string>): (v: Visit)
    ensures RouteFor(path).Open? ==> v == Shows(RouteFor(path).screen)
    ensures v.Shows? ==> v.screen == RouteFor(path).screen
  {
    match RouteFor(path)
    case Open(screen) => Shows(screen)
    case Guarded(screen, allowed) =>
      match Guard(session, role, allowed)
      case Render => Shows(screen)
      case Redirect(to) => GoesTo(to)
  }

  /** A redirect always lands on a page that shows: every role's own page
      admits it, and `/login` and `/` are open, so there is never a second
      redirect and never a loop. */
  lemma {:induction false} OneRedirectSettles(path: string, session: bool, role: Option<string>)
    ensures Navigate(path, session, role).GoesTo? ==> Navigate(Navigate(path, session, role).path, session, role).Shows?
  {
    if Navigate(path, session, role).GoesTo? && session && role.Some? {
      var r := role.value;
      var target := OwnPage(r);
      if target != "/" {
        RouteTable(r);
      }
    }
  }
}
