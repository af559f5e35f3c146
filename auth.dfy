/** The client authentication state of `src/context/auth-context.tsx`: the
    `AuthProvider` state (user, isAuthenticated, isLoading) and its demo-mode
    flag, with the transitions the provider offers, and the redirect rule of
    `useAuthProtection`. Every request the provider makes is an input that says
    how it settled; browser storage is a key/value field; the router is an
    output naming the route pushed. Each asynchronous transition is modelled
    from its start to its end. */
module Auth {
  import opened Wrappers
  import opened ErrorHandler

  /** `UserRole`: 'admin' | 'user' | 'editor' | 'viewer' ('user' is `Member`). */
  datatype UserRole = Admin | Member | Editor | Viewer

  datatype User = User(
    id: string, email: string, name: string, role: UserRole,
    avatarUrl: Option<string>, isActive: bool, createdAt: string, updatedAt: string)

  /** `ApiResponse<T>`: whether the server reported success, and its data
      (`None` when missing or null). */
  datatype ApiResponse<T> = ApiResponse(success: bool, data: Option<T>)

  datatype LoginData = LoginData(user: User, token: string)

  datatype RegisterData = RegisterData(email: string, password: string, name: string)

  const DemoAuthStorageKey := "demo_auth_enabled"
  const DemoUserId := "demo-user-123"
  const LoginRoute := "/login"
  const DashboardRoute := "/dashboard"

  /** The demo user, built when the module is loaded; each timestamp is its
      own reading of the clock, so the two may differ. */
  function DemoUser(createdAt: string, updatedAt: string): (u: User)
    ensures u.id == DemoUserId && u.role == Member && u.isActive
    ensures u.createdAt == createdAt && u.updatedAt == updatedAt
  {
    User(DemoUserId, "demo@example.com", "Demo User", Member, None, true, createdAt, updatedAt)
  }

  /** `useAuthProtection(redirectTo = '/login')`: the route the effect pushes,
      which it does exactly when loading has finished and nobody is signed in. */
  function ProtectionRedirect(isLoading: bool, isAuthenticated: bool, redirectTo: string := LoginRoute): (r: Option<string>)
    ensures r.Some? <==> !isLoading && !isAuthenticated
    ensures r.Some? ==> r.value == redirectTo
  {
    if !isLoading && !isAuthenticated then Some(redirectTo) else None
  }

  class AuthProvider {
    var user: Option<User>
    var isAuthenticated: bool
    var isLoading: bool
    var isDemoMode: bool
    /** Browser storage, of which the provider uses the demo flag key. */
    var storage: map<string, string>
    const demoUser: User
    /** Whether the build runs in development, which decides what is logged. */
    const isDevelopment: bool

    /** The state stays coherent: a user is present exactly when someone is
        authenticated, and demo mode means a signed-in demo user, loading
        finished, and the flag stored. */
    predicate Valid()
      reads this
    {
      && demoUser.id == DemoUserId
      && (isAuthenticated <==> user.Some?)
      && (isDemoMode ==>
            && isAuthenticated && !isLoading && user.value.id == DemoUserId
            && DemoAuthStorageKey in storage && storage[DemoAuthStorageKey] == "true")
    }

    /** The default state: no user, not authenticated, loading. */
    constructor (storage: map<string, string>, createdAt: string, updatedAt: string, isDevelopment: bool)
      ensures user.None? && !isAuthenticated && isLoading && !isDemoMode
      ensures this.storage == storage && demoUser == DemoUser(createdAt, updatedAt)
      ensures this.isDevelopment == isDevelopment
      ensures Valid()
    {
      user := None;
      isAuthenticated := false;
      isLoading := true;
      isDemoMode := false;
      this.storage := storage;
      demoUser := DemoUser(createdAt, updatedAt);
      this.isDevelopment := isDevelopment;
    }

    /** `setState({user, isAuthenticated, isLoading})`. */
    method SetState(u: Option<User>, authenticated: bool, loading: bool)
      modifies this`user, this`isAuthenticated, this`isLoading
      ensures user == u && isAuthenticated == authenticated && isLoading == loading
    {
      user, isAuthenticated, isLoading := u, authenticated, loading;
    }

    /** The mount check: a stored flag of exactly "true" restores demo mode
        without a request; anything else runs `refreshUser` with the answer
        `me` of the `/auth/me` request, which, demo mode being off without
        the flag, signs in the user of a successful answer and signs
        everybody out otherwise. */
    method Mount(me: Settled<ApiResponse<User>>) returns (requested: bool)
      requires Valid()
      modifies this`user, this`isAuthenticated, this`isLoading, this`isDemoMode
      ensures Valid() && !isLoading
      ensures var flagged := DemoAuthStorageKey in storage && storage[DemoAuthStorageKey] == "true";
        && (flagged ==> isDemoMode && user == Some(demoUser) && isAuthenticated && !requested)
        && (!flagged ==> !isDemoMode && requested)
        && (!flagged && me.Resolved? && me.value.success && me.value.data.Some? ==>
              user == me.value.data && isAuthenticated)
        && (!flagged && !(me.Resolved? && me.value.success && me.value.data.Some?) ==>
              user.None? && !isAuthenticated)
    {
      if DemoAuthStorageKey in storage && storage[DemoAuthStorageKey] == "true" {
        isDemoMode := true;
        SetState(Some(demoUser), true, false);
        return false;
      }
      requested := RefreshUser(me);
    }

    /** `refreshUser()`: in demo mode the demo user is signed in without a
        request. Otherwise a successful answer with a user signs that user in,
        and an unsuccessful answer or a thrown error signs everybody out. */
    method RefreshUser(me: Settled<ApiResponse<User>>) returns (requested: bool)
      requires Valid()
      modifies this`user, this`isAuthenticated, this`isLoading
      ensures Valid() && !isLoading && requested == !isDemoMode
      ensures isDemoMode ==> user == Some(demoUser) && isAuthenticated
      ensures !isDemoMode && me.Resolved? && me.value.success && me.value.data.Some? ==>
        user == me.value.data && isAuthenticated
      ensures !isDemoMode && !(me.Resolved? && me.value.success && me.value.data.Some?) ==>
        user.None? && !isAuthenticated
    {
      if isDemoMode {
        SetState(Some(demoUser), true, false);
        return false;
      }
      SetState(user, isAuthenticated, true);
      requested := true;
      match me
      case Resolved(response) =>
        if response.success && response.data.Some? {
          SetState(response.data, true, false);
        } else {
          SetState(None, false, false);
        }
      case Rejected(_) =>
        SetState(None, false, false);
    }

    /** `login(email, password)`: in demo mode the demo user is signed in and
        the call succeeds without a request. Otherwise the request goes through
        `handleApiError` without rethrow: an answer that reports success with
        data signs its user in and returns true; anything else, a thrown error
        included, returns false and only ends the loading. */
    method Login(email: string, password: string, answer: Settled<ApiResponse<LoginData>>) returns (ok: bool)
      requires Valid()
      modifies this`user, this`isAuthenticated, this`isLoading
      ensures Valid() && !isLoading
      ensures isDemoMode ==> ok && user == Some(demoUser) && isAuthenticated
      ensures !isDemoMode ==>
        ok == (answer.Resolved? && answer.value.success && answer.value.data.Some?)
      ensures !isDemoMode && ok ==> user == Some(answer.value.data.value.user) && isAuthenticated
      ensures !isDemoMode && !ok ==> user == old(user) && isAuthenticated == old(isAuthenticated)
    {
      if isDemoMode {
        SetState(Some(demoUser), true, false);
        return true;
      }
      SetState(user, isAuthenticated, true);
      var result, logged, reported := HandleApiError(answer, HandleOptions(false, None, false), isDevelopment);
      ok := SignInWith(result);
    }

    /** `register(userData)`: in demo mode the demo user is signed in under the
        caller's email and name, keeping the demo id. Otherwise as `login`. */
    method Register(userData: RegisterData, answer: Settled<ApiResponse<LoginData>>) returns (ok: bool)
      requires Valid()
      modifies this`user, this`isAuthenticated, this`isLoading
      ensures Valid() && !isLoading
      ensures isDemoMode ==>
        && ok && isAuthenticated
        && user == Some(demoUser.(email := userData.email, name := userData.name))
      ensures !isDemoMode ==>
        ok == (answer.Resolved? && answer.value.success && answer.value.data.Some?)
      ensures !isDemoMode && ok ==> user == Some(answer.value.data.value.user) && isAuthenticated
      ensures !isDemoMode && !ok ==> user == old(user) && isAuthenticated == old(isAuthenticated)
    {
      if isDemoMode {
        SetState(Some(demoUser.(email := userData.email, name := userData.name)), true, false);
        return true;
      }
      SetState(user, isAuthenticated, true);
      var result, logged, reported := HandleApiError(answer, HandleOptions(false, None, false), isDevelopment);
      ok := SignInWith(result);
    }

    /** The common ending of `login` and `register` once `handleApiError` has
        settled: `result?.success && result.data` decides. */
    method SignInWith(result: Settled<Option<ApiResponse<LoginData>>>) returns (ok: bool)
      requires Valid() && !isDemoMode
      modifies this`user, this`isAuthenticated, this`isLoading
      ensures Valid() && !isLoading
      ensures ok == (result.Resolved? && result.value.Some? && result.value.value.success && result.value.value.data.Some?)
      ensures ok ==> user == Some(result.value.value.data.value.user) && isAuthenticated
      ensures !ok ==> user == old(user) && isAuthenticated == old(isAuthenticated)
    {
      if result.Resolved? && result.value.Some? && result.value.value.success && result.value.value.data.Some? {
        SetState(Some(result.value.value.data.value.user), true, false);
        return true;
      }
      SetState(user, isAuthenticated, false);
      ok := false;
    }

    /** `logout()`: always ends signed out, not loading, and pushing the login
        route. In demo mode no request is made and demo mode is switched off.
        Otherwise the `/auth/logout` request is made, and an error it throws is
        thrown again by `logout` after the state has been reset. */
    method Logout(answer: Settled<()>) returns (route: string, thrown: Option<ErrorValue>)
      requires Valid()
      modifies this
      ensures Valid()
      ensures user.None? && !isAuthenticated && !isLoading && !isDemoMode
      ensures route == LoginRoute
      ensures old(isDemoMode) ==> thrown.None? && storage == old(storage) - {DemoAuthStorageKey}
      ensures !old(isDemoMode) ==> storage == old(storage)
      ensures !old(isDemoMode) ==> thrown == if answer.Rejected? then Some(answer.error) else None
    {
      if isDemoMode {
        DisableDemoMode();
        SetState(None, false, false);
        return LoginRoute, None;
      }
      SetState(None, false, false);
      route := LoginRoute;
      thrown := if answer.Rejected? then Some(answer.error) else None;
    }

    /** `enableDemoMode()`: demo mode on, the demo user signed in, the flag
        stored, and the dashboard route pushed. */
    method EnableDemoMode() returns (route: string)
      requires Valid()
      modifies this
      ensures Valid()
      ensures isDemoMode && user == Some(demoUser) && isAuthenticated && !isLoading
      ensures storage == old(storage)[DemoAuthStorageKey := "true"]
      ensures route == DashboardRoute
    {
      isDemoMode := true;
      SetState(Some(demoUser), true, false);
      storage := storage[DemoAuthStorageKey := "true"];
      route := DashboardRoute;
    }

    /** `disableDemoMode()`: demo mode off and the flag removed; the user
        state is left as it is. */
    method DisableDemoMode()
      requires Valid()
      modifies this`isDemoMode, this`storage
      ensures Valid()
      ensures !isDemoMode && storage == old(storage) - {DemoAuthStorageKey}
    {
      isDemoMode := false;
      storage := storage - {DemoAuthStorageKey};
    }
  }

  /** A demo session: enabling demo mode signs in without any request, and
      logging out signs out, clears the flag, and leaves the protected routes
      redirecting to the login page. */
  method DemoSession(createdAt: string, updatedAt: string)
  {
    var provider := new AuthProvider(map[], createdAt, updatedAt, false);
    var route := provider.EnableDemoMode();
    assert route == DashboardRoute && provider.isAuthenticated;
    assert ProtectionRedirect(provider.isLoading, provider.isAuthenticated).None?;
    var failed := ErrorHandler.TypeError("Failed to fetch");
    var ok := provider.Login("someone@example.com", "secret", Rejected(failed));
    assert ok;
    var thrown;
    route, thrown := provider.Logout(Rejected(failed));
    assert thrown.None?;
    assert DemoAuthStorageKey !in provider.storage;
    assert ProtectionRedirect(provider.isLoading, provider.isAuthenticated) == Some(LoginRoute);
  }
}
