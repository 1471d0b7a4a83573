/** The session context of components/auth-provider.tsx: a provider that, on
    mount and whenever the path changes, adopts an authorization code from
    the URL (storing it in the cookie and cleaning the URL) or else reads the
    existing cookie, and offers `logout`. */
module AuthProvider {
  import opened Text
  import opened Browser
  import opened Uri
  import opened Auth

  /** What `useAuth()` hands to the components below the provider. */
  datatype Context = Context(isAuthenticated: bool, loading: bool)

  /** The context seen outside any provider: signed out, still loading
      (its `logout` does nothing). */
  function DefaultContext(): (c: Context)
    ensures !c.isAuthenticated && c.loading
  {
    Context(false, true)
  }

  const LoginPath: string := "/login"
  const HomePath: string := "/"

  /** One mounted `AuthProvider` with the window and router it runs in. */
  class Provider {
    var isAuth: bool
    var loading: bool
    const win: Window
    const router: Router

    /** The first render: not signed in, loading. */
    constructor (win: Window, router: Router)
      ensures this.win == win && this.router == router
      ensures !isAuth && loading
      ensures Value() == Context(false, true)
    {
      this.win := win;
      this.router := router;
      isAuth := false;
      loading := true;
    }

    /** The value the provider publishes. */
    function Value(): (c: Context)
      reads this
      ensures c.isAuthenticated == isAuth && c.loading == loading
    {
      Context(isAuth, loading)
    }

    /** The flag agrees with what the cookie says. */
    predicate InSync()
      reads this, win
    {
      isAuth == IsAuthenticated(win)
    }

    /** The effect run after mount and on every change of the path. A truthy
        `code` parameter is stored as the session cookie, signs the user in
        and is dropped from the URL; on the login page the router then goes
        home. Without one, the flag is read from the cookie. Either way
        loading ends and the flag agrees with the cookie. */
    method Effect()
      requires ValidJar(win.cookies)
      modifies this`isAuth, this`loading, win`cookies, win`pathname, win`search, router
      ensures !loading
      ensures ValidJar(win.cookies) && InSync()
      ensures var token := GetParam(old(win.search), "code");
        if Truthy(token) then
          && isAuth
          && win.cookies == AssignCookie(old(win.cookies), SetCookieText(token.value))
          && win.pathname == old(win.pathname) && win.search == []
          && router.pushed == old(router.pushed) + (if old(win.pathname) == LoginPath then [HomePath] else [])
        else
          && isAuth == HasAuthRow(RenderCookies(old(win.cookies)))
          && win.cookies == old(win.cookies) && win.pathname == old(win.pathname)
          && win.search == old(win.search) && router.pushed == old(router.pushed)
    {
      var token := TokenFromUrl(win);
      if Truthy(token) {
        AdoptToken(token.value);
      } else {
        ReadCookie();
      }
      loading := false;
    }

    /** The effect's branch without a code: the flag is read from the
        cookie. */
    method ReadCookie()
      modifies this`isAuth
      ensures isAuth == HasAuthRow(RenderCookies(win.cookies)) && InSync()
    {
      isAuth := IsAuthenticated(win);
    }

    /** The effect's branch for a code in the URL. */
    method AdoptToken(token: string)
      requires ValidJar(win.cookies)
      modifies this`isAuth, win`cookies, win`pathname, win`search, router
      ensures isAuth && ValidJar(win.cookies) && InSync()
      ensures win.cookies == AssignCookie(old(win.cookies), SetCookieText(token))
      ensures win.pathname == old(win.pathname) && win.search == []
      ensures router.pushed == old(router.pushed) + (if old(win.pathname) == LoginPath then [HomePath] else [])
    {
      var pathname := win.pathname;
      SetAuthCookie(win, token);
      isAuth := true;
      win.ReplaceWithPath(win.pathname);
      if pathname == LoginPath {
        router.Push(HomePath);
      }
    }

    /** `logout()`: the cookie is cleared, the flag drops and the router
        goes to the login page. */
    method Logout()
      requires ValidJar(win.cookies)
      modifies this`isAuth, win`cookies, router
      ensures win.cookies == AssignCookie(old(win.cookies), ClearCookieText())
      ensures !isAuth && ValidJar(win.cookies) && InSync()
      ensures router.pushed == old(router.pushed) + [LoginPath]
    {
      ClearAuthCookie(win);
      isAuth := false;
      router.Push(LoginPath);
    }
  }
}
