/** The application shell (src/App.tsx): the signed-in user, the loading flag,
    the stored token, the current location, and the route table that either
    renders a page or redirects to the sign-in page. */
module Session {
  import opened Common
  import Auth

  /** The locations the route table knows. The `:userId` and `:threadId`
      segments are kept as the text of the URL. */
  datatype Route =
    | Landing                      // "/"
    | AuthRoute                    // "/auth"
    | Dashboard                    // "/dashboard"
    | Admin                        // "/admin"
    | ForumRoute                   // "/forum"
    | Profile(userId: string)      // "/profile/:userId"
    | Thread(threadId: string)     // "/thread/:threadId"
    | CreateThreadRoute            // "/create-thread"
    | Settings                     // "/settings"

  /** The page a route renders, with the user it is given. */
  datatype View =
    | LandingView
    | AuthView
    | DashboardView(user: Auth.User)
    | AdminView(user: Auth.User)
    | ForumView(user: Auth.User)
    | ProfileView(user: Auth.User)
    | ThreadRouteView(user: Auth.User, threadId: string)
    | CreateThreadView(user: Auth.User)
    | SettingsView(user: Auth.User)

  /** What a route element evaluates to: a page, or `<Navigate to=... replace />`. */
  datatype Element = Render(view: View) | Navigate(to: Route, replace: bool)

  /** The two routes that need no signed-in user. */
  predicate Public(r: Route) {
    r == Landing || r == AuthRoute
  }

  /** The user a view was given, if it takes one. */
  function ViewUser(v: View): Option<Auth.User> {
    match v
    case LandingView => None
    case AuthView => None
    case DashboardView(u) => Some(u)
    case AdminView(u) => Some(u)
    case ForumView(u) => Some(u)
    case ProfileView(u) => Some(u)
    case ThreadRouteView(u, _) => Some(u)
    case CreateThreadView(u) => Some(u)
    case SettingsView(u) => Some(u)
  }

  /** The view a route shows when it renders. */
  function PageOf(r: Route, u: Option<Auth.User>): View
    requires !Public(r) ==> u.Some?
  {
    match r
    case Landing => LandingView
    case AuthRoute => AuthView
    case Dashboard => DashboardView(u.value)
    case Admin => AdminView(u.value)
    case ForumRoute => ForumView(u.value)
    case Profile(_) => ProfileView(u.value)
    case Thread(id) => ThreadRouteView(u.value, id)
    case CreateThreadRoute => CreateThreadView(u.value)
    case Settings => SettingsView(u.value)
  }

  /** The `Routes` table. Every route other than `/` and `/auth` is guarded by
      `currentUser ? <Page user={currentUser} /> : <Navigate to="/auth" replace />`.
      The loading flag plays no part. */
  function RouteElement(r: Route, currentUser: Option<Auth.User>): (e: Element)
    ensures Public(r) ==> e.Render? && ViewUser(e.view) == None
    ensures !Public(r) ==> (e.Render? <==> currentUser.Some?)
    ensures !Public(r) && currentUser == None ==> e == Navigate(AuthRoute, true)
    ensures !Public(r) && e.Render? ==> ViewUser(e.view) == currentUser
    ensures e.Render? ==> e.view == PageOf(r, currentUser)
  {
    if Public(r) || currentUser.Some? then Render(PageOf(r, currentUser))
    else Navigate(AuthRoute, true)
  }

  /** The admin page is guarded only by being signed in: any badge reaches it. */
  lemma AdminNeedsOnlySignIn(u: Auth.User)
    ensures RouteElement(Admin, Some(u)) == Render(AdminView(u))
  {
  }

  /** The element for a route changes with the user only between "signed in" and
      "signed out", and for public routes not at all. */
  lemma RouteDependsOnlyOnSignIn(r: Route, u1: Option<Auth.User>, u2: Option<Auth.User>)
    requires u1.Some? == u2.Some?
    ensures RouteElement(r, u1).Render? == RouteElement(r, u2).Render?
    ensures Public(r) ==> RouteElement(r, u1) == RouteElement(r, u2)
  {
  }

  /** `userId || currentUser?.uid || 1`, where a zero id is falsy. */
  function ProfileTarget(userId: Option<int>, currentUser: Option<Auth.User>): (id: int)
    ensures id != 0
    ensures userId.Some? && userId.value != 0 ==> id == userId.value
    ensures !(userId.Some? && userId.value != 0) && currentUser.Some? && currentUser.value.uid != 0 ==>
              id == currentUser.value.uid
    ensures id == 1 || (userId.Some? && id == userId.value) || (currentUser.Some? && id == currentUser.value.uid)
  {
    if userId.Some? && userId.value != 0 then userId.value
    else if currentUser.Some? && currentUser.value.uid != 0 then currentUser.value.uid
    else 1
  }

  /** The fields of a `verifyToken` reply the shell reads. */
  datatype VerifyReply = VerifyReply(success: bool, user: Option<Auth.User>)

  /** The user a verification establishes: only a reply with `success` and `user`. */
  function VerifiedUser(verify: Reply<VerifyReply>): (u: Option<Auth.User>)
    ensures u.Some? <==> verify.Returned? && verify.body.success && verify.body.user.Some?
    ensures u.Some? ==> u == verify.body.user
  {
    match verify
    case Returned(v) => if v.success then v.user else None
    case Threw(_) => None
  }

  /** The shell's state. */
  class App {
    var currentUser: Option<Auth.User>
    var isLoading: bool
    var location: Route
    const storage: TokenStore

    constructor (storage: TokenStore, location: Route)
      ensures currentUser == None && isLoading
      ensures this.storage == storage && this.location == location
    {
      currentUser := None;
      isLoading := true;
      this.location := location;
      this.storage := storage;
    }

    /** `checkStoredToken`, run once on load. `verify` is what `verifyToken`
        answers for the stored token; it is consulted only if a token is stored. */
    method CheckStoredToken(verify: Reply<VerifyReply>) returns (verifyCalled: bool)
      modifies this, storage
      ensures verifyCalled <==> Truthy(old(storage.token))
      ensures !isLoading
      ensures !verifyCalled ==>
                currentUser == old(currentUser) && location == old(location) && storage.token == old(storage.token)
      ensures verifyCalled && VerifiedUser(verify).Some? ==>
                currentUser == VerifiedUser(verify) && location == ForumRoute && storage.token == old(storage.token)
      ensures verifyCalled && VerifiedUser(verify).None? ==>
                currentUser == old(currentUser) && location == old(location) && storage.token == None
    {
      verifyCalled := Truthy(storage.token);
      if verifyCalled {
        match verify {
          case Returned(v) =>
            if v.success && v.user.Some? {
              currentUser := v.user;
              location := ForumRoute;
            } else {
              storage.token := None;
            }
          case Threw(_) =>
            storage.token := None;
        }
      }
      isLoading := false;
    }

    /** `handleLogin`: the user handed over by the sign-in page becomes current. */
    method HandleLogin(user: Auth.User)
      modifies this
      ensures currentUser == Some(user) && location == ForumRoute
      ensures isLoading == old(isLoading)
    {
      currentUser := Some(user);
      location := ForumRoute;
    }

    /** `handleLogout`: whatever the state, the token and the user are dropped. */
    method HandleLogout()
      modifies this, storage
      ensures storage.token == None && currentUser == None && location == Landing
      ensures isLoading == old(isLoading)
    {
      storage.token := None;
      currentUser := None;
      location := Landing;
    }

    /** `handleBackToLanding`: the user is dropped but the stored token is kept. */
    method HandleBackToLanding()
      modifies this
      ensures currentUser == None && location == Landing
      ensures isLoading == old(isLoading)
    {
      location := Landing;
      currentUser := None;
    }

    /** `handleProfile`: navigate to the profile of `userId`, the current user, or user 1. */
    method HandleProfile(userId: Option<int>)
      modifies this
      ensures location == Profile(IntToString(ProfileTarget(userId, currentUser)))
      ensures currentUser == old(currentUser) && isLoading == old(isLoading)
    {
      location := Profile(IntToString(ProfileTarget(userId, currentUser)));
    }

    /** What the shell shows at its current location. */
    function Shown(): Element
      reads this
    {
      RouteElement(location, currentUser)
    }
  }

  /** A page load at `start` with `stored` in localStorage, followed by the
      token check. With a verified token the forum is shown whatever the start;
      otherwise the start route is shown to a signed-out visitor, which for a
      guarded route is the redirect to `/auth`. */
  method Bootstrap(stored: Option<string>, start: Route, verify: Reply<VerifyReply>)
    returns (user: Option<Auth.User>, token: Option<string>, shown: Element, verifyCalled: bool)
    ensures verifyCalled <==> Truthy(stored)
    ensures user == (if Truthy(stored) then VerifiedUser(verify) else None)
    ensures token == (if Truthy(stored) && VerifiedUser(verify).None? then None else stored)
    ensures user.Some? ==> shown == Render(ForumView(user.value))
    ensures user.None? ==> shown == RouteElement(start, None)
    ensures user.None? && !Public(start) ==> shown == Navigate(AuthRoute, true)
  {
    var storage := new TokenStore(stored);
    var app := new App(storage, start);
    verifyCalled := app.CheckStoredToken(verify);
    user := app.currentUser;
    token := storage.token;
    shown := app.Shown();
  }

  /** After a logout, started from any state, every guarded route redirects to `/auth`. */
  method LogoutThenVisit(stored: Option<string>, user: Option<Auth.User>, target: Route)
    returns (token: Option<string>, shown: Element)
    ensures token == None
    ensures shown == (if Public(target) then Render(PageOf(target, None)) else Navigate(AuthRoute, true))
  {
    var storage := new TokenStore(stored);
    var app := new App(storage, Landing);
    app.currentUser := user;
    app.HandleLogout();
    app.location := target;
    token := storage.token;
    shown := app.Shown();
  }
}
