/**
 * The session middleware `updateSession`: the per-request routing decision
 * (pass through, redirect to a canonical path, or fail with HTTP 500) and the
 * cookie mirroring the identity backend drives through `setAll`.
 *
 * The two backend calls (`auth.getUser()` and the `profiles` lookup) are
 * inputs: an `Identity` says whether a user was found, with its role code and
 * the lookup's outcome, and `refreshes` lists the cookie batches the backend
 * handed to `setAll` while resolving the user.
 */
module Middleware {
  import opened Wrappers
  import opened Text

  /** The parts of `request.nextUrl` that routing reads and that a redirect copies. */
  datatype Url = Url(origin: string, pathname: string, search: string)

  /** `request.url`, the whole URL as one string. */
  function Href(u: Url): string {
    u.origin + u.pathname + u.search
  }

  /** Outcome of `profiles.select('is_completed').eq('user_id', …).single()`. */
  datatype ProfileLookup = Found(isCompleted: Option<bool>) | Failed(message: string)

  /**
   * What `auth.getUser()` resolved the caller to. The profile lookup only runs
   * for a signed-in user, so only that case carries its outcome.
   */
  datatype Identity = Anonymous | SignedIn(roleCode: Option<string>, profile: ProfileLookup)

  datatype Decision = Pass | Redirect(path: string) | Error500(message: string)

  const PublicRoutes: seq<string> := ["/", "/about/"]

  /** Every path the router ever redirects to. */
  const CanonicalPaths: set<string> :=
    {"/", "/auth/login", "/skr", "/skr/setup", "/pdr", "/pdr/setup", "/admin"}

  predicate IsAuthRoute(pathname: string) {
    StartsWith(pathname, "/auth")
  }

  predicate IsPublicRoute(pathname: string) {
    pathname in PublicRoutes
  }

  /** `profile?.is_completed` used as a condition: a missing flag counts as false. */
  predicate IsCompleted(flag: Option<bool>) {
    flag == Some(true)
  }

  /** A signed-in user on an auth page whose URL does not mention `logout` is sent home first. */
  predicate BouncedFromAuth(url: Url) {
    IsAuthRoute(url.pathname) && !Contains(Href(url), "logout")
  }

  /** The three checks the seeker and provider cases of the role switch share, in order. */
  function OnboardingRules(home: string, setup: string, completed: bool, pathname: string): Decision {
    if !StartsWith(pathname, home) then Redirect(home)
    else if !completed && !StartsWith(pathname, setup) then Redirect(setup)
    else if completed && StartsWith(pathname, setup) then Redirect(home)
    else Pass
  }

  /** The `switch (role_code)`; an unmatched role falls out of the switch without redirecting. */
  function RoleRules(roleCode: Option<string>, completed: bool, pathname: string): Decision {
    if roleCode == Some("SKR") then OnboardingRules("/skr", "/skr/setup", completed, pathname)
    else if roleCode == Some("PDR") then OnboardingRules("/pdr", "/pdr/setup", completed, pathname)
    else if roleCode == Some("admin") then
      (if !StartsWith(pathname, "/admin") then Redirect("/admin") else Pass)
    else Pass
  }

  /** The routing decision of `updateSession`: its early returns, first match wins. */
  function Route(identity: Identity, url: Url): Decision {
    match identity
    case SignedIn(roleCode, profile) =>
      if profile.Failed? then Error500(profile.message)
      else if BouncedFromAuth(url) then Redirect("/")
      else RoleRules(roleCode, IsCompleted(profile.isCompleted), url.pathname)
    case Anonymous =>
      if !IsAuthRoute(url.pathname) && !IsPublicRoute(url.pathname) then Redirect("/auth/login")
      else Pass
  }

  /** Auth routes are the `/auth` prefix; public routes are exactly `/` and `/about/`. */
  lemma RouteClassification(pathname: string)
    ensures IsAuthRoute(pathname) <==> "/auth" <= pathname
    ensures IsPublicRoute(pathname) <==> pathname == "/" || pathname == "/about/"
  {
  }

  /** HTTP 500 happens exactly when a signed-in user's profile lookup fails, and carries its message. */
  lemma ServerErrorExactlyOnLookupFailure(identity: Identity, url: Url, message: string)
    ensures Route(identity, url) == Error500(message)
        <==> identity.SignedIn? && identity.profile == Failed(message)
    ensures identity.SignedIn? && identity.profile.Failed? ==> Route(identity, url).Error500?
  {
  }

  /** With the lookup answered, an auth page without `logout` sends every role to `/`. */
  lemma SignedInLeavesAuthPages(roleCode: Option<string>, flag: Option<bool>, url: Url)
    requires BouncedFromAuth(url)
    ensures Route(SignedIn(roleCode, Found(flag)), url) == Redirect("/")
  {
  }

  /**
   * The seeker and provider policy: the request passes exactly when it is inside
   * the role's namespace and inside its setup area exactly when onboarding is
   * unfinished; otherwise the first failing rule picks home or setup.
   */
  lemma OnboardingPolicy(home: string, setup: string, completed: bool, pathname: string)
    requires StartsWith(setup, home) && |home| < |setup|
    ensures OnboardingRules(home, setup, completed, pathname) == Pass
        <==> StartsWith(pathname, home) && (completed <==> !StartsWith(pathname, setup))
    ensures OnboardingRules(home, setup, completed, pathname) == Redirect(setup)
        <==> StartsWith(pathname, home) && !completed && !StartsWith(pathname, setup)
    ensures OnboardingRules(home, setup, completed, pathname) == Redirect(home)
        <==> !StartsWith(pathname, home) || (completed && StartsWith(pathname, setup))
  {
    assert home != setup;
  }

  /** The seeker case of the role switch, for a user not bounced from an auth page. */
  lemma SeekerPolicy(flag: Option<bool>, url: Url)
    requires !BouncedFromAuth(url)
    ensures Route(SignedIn(Some("SKR"), Found(flag)), url)
         == OnboardingRules("/skr", "/skr/setup", IsCompleted(flag), url.pathname)
    ensures Route(SignedIn(Some("SKR"), Found(flag)), url) == Pass
        <==> StartsWith(url.pathname, "/skr")
             && (IsCompleted(flag) <==> !StartsWith(url.pathname, "/skr/setup"))
  {
    OnboardingPolicy("/skr", "/skr/setup", IsCompleted(flag), url.pathname);
  }

  /** The provider case: the same rules with `/pdr` and `/pdr/setup`. */
  lemma ProviderPolicy(flag: Option<bool>, url: Url)
    requires !BouncedFromAuth(url)
    ensures Route(SignedIn(Some("PDR"), Found(flag)), url)
         == OnboardingRules("/pdr", "/pdr/setup", IsCompleted(flag), url.pathname)
    ensures Route(SignedIn(Some("PDR"), Found(flag)), url) == Pass
        <==> StartsWith(url.pathname, "/pdr")
             && (IsCompleted(flag) <==> !StartsWith(url.pathname, "/pdr/setup"))
  {
    OnboardingPolicy("/pdr", "/pdr/setup", IsCompleted(flag), url.pathname);
  }

  /** The admin case: confinement to `/admin` only, whatever the completion flag. */
  lemma AdminPolicy(flag: Option<bool>, url: Url)
    requires !BouncedFromAuth(url)
    ensures Route(SignedIn(Some("admin"), Found(flag)), url)
         == if StartsWith(url.pathname, "/admin") then Pass else Redirect("/admin")
  {
  }

  /** Any other or missing role is never redirected by the role switch. */
  lemma UnknownRolePasses(roleCode: Option<string>, flag: Option<bool>, url: Url)
    requires roleCode !in {Some("SKR"), Some("PDR"), Some("admin")}
    ensures Route(SignedIn(roleCode, Found(flag)), url)
         == if BouncedFromAuth(url) then Redirect("/") else Pass
  {
  }

  /** Home prefix of a role that has one. */
  function HomeOf(roleCode: Option<string>): Option<string> {
    if roleCode == Some("SKR") then Some("/skr")
    else if roleCode == Some("PDR") then Some("/pdr")
    else if roleCode == Some("admin") then Some("/admin")
    else None
  }

  /**
   * Namespace isolation: whatever a signed-in user with a known role is let
   * through to lies under that role's home prefix and under no other role's.
   */
  lemma NamespaceIsolation(identity: Identity, url: Url, other: Option<string>)
    requires identity.SignedIn? && HomeOf(identity.roleCode).Some?
    requires HomeOf(other).Some? && HomeOf(other) != HomeOf(identity.roleCode)
    requires Route(identity, url) == Pass
    ensures StartsWith(url.pathname, HomeOf(identity.roleCode).value)
    ensures !StartsWith(url.pathname, HomeOf(other).value)
  {
    var p := url.pathname;
    var home := HomeOf(identity.roleCode).value;
    var away := HomeOf(other).value;
    PrefixesDiverge(p, home, away, 1);
  }

  /** A signed-in user is never sent to the login page. */
  lemma SignedInNeverSentToLogin(identity: Identity, url: Url)
    requires identity.SignedIn?
    ensures Route(identity, url) != Redirect("/auth/login")
  {
  }

  /** An anonymous request is redirected to login exactly off the auth and public routes, else passes. */
  lemma AnonymousPolicy(url: Url)
    ensures Route(Anonymous, url) == Redirect("/auth/login")
        <==> !IsAuthRoute(url.pathname) && !IsPublicRoute(url.pathname)
    ensures Route(Anonymous, url) in {Pass, Redirect("/auth/login")}
  {
  }

  /** Every redirect goes to one of the seven canonical paths. */
  lemma RedirectTargetsCanonical(identity: Identity, url: Url)
    requires Route(identity, url).Redirect?
    ensures Route(identity, url).path in CanonicalPaths
  {
  }

  /**
   * The logout exemption only skips the bounce to `/`: a known role on an auth
   * page whose URL mentions `logout` (in the host, the path or the query) is
   * still redirected to its home prefix, and only a user with another or no
   * role reaches the page.
   */
  lemma LogoutPageAfterExemption(roleCode: Option<string>, flag: Option<bool>, url: Url)
    requires IsAuthRoute(url.pathname) && Contains(Href(url), "logout")
    ensures Route(SignedIn(roleCode, Found(flag)), url)
         == if HomeOf(roleCode).Some? then Redirect(HomeOf(roleCode).value) else Pass
  {
    PrefixesDiverge(url.pathname, "/auth", "/skr", 1);
    PrefixesDiverge(url.pathname, "/auth", "/pdr", 1);
    PrefixesDiverge(url.pathname, "/auth", "/admin", 2);
  }

  /** Following redirects from `url` reaches a page that passes within `fuel` redirects. */
  predicate Settles(identity: Identity, url: Url, fuel: nat)
    decreases fuel
  {
    match Route(identity, url)
    case Pass => true
    case Error500(_) => false
    case Redirect(path) => fuel > 0 && Settles(identity, url.(pathname := path), fuel - 1)
  }

  /**
   * No redirect loop: unless the profile lookup fails, a browser that follows
   * the redirects lands on a page that passes after at most three of them.
   */
  lemma RedirectsSettle(identity: Identity, url: Url)
    requires !(identity.SignedIn? && identity.profile.Failed?)
    ensures Settles(identity, url, 3)
  {
    var home := url.(pathname := "/");
    match identity
    case Anonymous =>
      assert Settles(identity, url.(pathname := "/auth/login"), 0);
    case SignedIn(roleCode, profile) =>
      var c := IsCompleted(profile.isCompleted);
      if roleCode == Some("SKR") {
        SettlesUnder(identity, url, "/skr", "/skr/setup");
      } else if roleCode == Some("PDR") {
        SettlesUnder(identity, url, "/pdr", "/pdr/setup");
      } else if roleCode == Some("admin") {
        var admin := url.(pathname := "/admin");
        MismatchAt("/admin", "/auth", 2);
        assert Settles(identity, admin, 0);
        assert Settles(identity, home, 1);
      } else {
        assert Settles(identity, home, 0);
      }
  }

  /** `RedirectsSettle` for a role governed by `OnboardingRules(home, setup, …)`. */
  lemma SettlesUnder(identity: Identity, url: Url, home: string, setup: string)
    requires identity.SignedIn? && identity.profile.Found?
    requires (identity.roleCode == Some("SKR") && home == "/skr" && setup == "/skr/setup")
          || (identity.roleCode == Some("PDR") && home == "/pdr" && setup == "/pdr/setup")
    ensures Settles(identity, url, 3)
  {
    var c := IsCompleted(identity.profile.isCompleted);
    var setupUrl := url.(pathname := setup);
    var homeUrl := url.(pathname := home);
    var rootUrl := url.(pathname := "/");
    assert StartsWith(setup, home);
    MismatchAt(setup, "/auth", 1);
    assert Route(identity, setupUrl) == OnboardingRules(home, setup, c, setup);
    assert Route(identity, homeUrl) == OnboardingRules(home, setup, c, home);
    assert Route(identity, rootUrl) == OnboardingRules(home, setup, c, "/");
    if c {
      assert Settles(identity, homeUrl, 0);
    } else {
      assert Settles(identity, setupUrl, 0);
      assert Settles(identity, homeUrl, 1);
    }
    assert Settles(identity, rootUrl, 2);
  }

  // ---------------------------------------------------------------------------
  // Cookies and responses

  /** A cookie's attributes (path, expiry, security flags), carried unchanged. */
  datatype CookieOptions = CookieOptions(attributes: map<string, string>)

  /** One entry of `cookiesToSet`. */
  datatype Cookie = Cookie(name: string, value: string, options: CookieOptions)

  /** A `Set-Cookie` entry on a response. */
  datatype SetCookie = SetCookie(value: string, options: CookieOptions)

  /**
   * What `NextResponse.next({ request })` builds: it forwards the request's
   * cookies as they are at that moment and starts with no cookies of its own.
   */
  datatype NextResponse = NextResponse(forwarded: map<string, string>, cookies: map<string, SetCookie>)

  datatype Request = Request(nextUrl: Url, cookies: map<string, string>)

  datatype Response =
    | Forward(next: NextResponse)
    | Redirection(location: Url)
    | ServerError(status: int, error: string)

  /** The last cookie in `cs` named `name`, if any. */
  function LastNamed(cs: seq<Cookie>, name: string): (r: Option<Cookie>)
    ensures r.None? <==> forall k :: 0 <= k < |cs| ==> cs[k].name != name
    ensures r.Some? ==>
      exists k :: 0 <= k < |cs| && cs[k] == r.value && cs[k].name == name
        && forall j :: k < j < |cs| ==> cs[j].name != name
    decreases |cs|
  {
    if |cs| == 0 then None
    else if cs[|cs| - 1].name == name then Some(cs[|cs| - 1])
    else LastNamed(cs[..|cs| - 1], name)
  }

  /** `request.cookies.set(name, value)` for each cookie in turn. */
  function WithRequestCookies(jar: map<string, string>, cs: seq<Cookie>): map<string, string>
    decreases |cs|
  {
    if |cs| == 0 then jar
    else
      var c := cs[|cs| - 1];
      WithRequestCookies(jar, cs[..|cs| - 1])[c.name := c.value]
  }

  /** `response.cookies.set(name, value, options)` for each cookie in turn, on a fresh response. */
  function ResponseJar(cs: seq<Cookie>): map<string, SetCookie>
    decreases |cs|
  {
    if |cs| == 0 then map[]
    else
      var c := cs[|cs| - 1];
      ResponseJar(cs[..|cs| - 1])[c.name := SetCookie(c.value, c.options)]
  }

  /** The response holds exactly the queued names, each with the value and options queued last. */
  lemma {:induction false} ResponseJarHoldsLastWrite(cs: seq<Cookie>, name: string)
    ensures name in ResponseJar(cs) <==> LastNamed(cs, name).Some?
    ensures name in ResponseJar(cs) ==>
      ResponseJar(cs)[name] == SetCookie(LastNamed(cs, name).value.value, LastNamed(cs, name).value.options)
    decreases |cs|
  {
    if |cs| > 0 {
      ResponseJarHoldsLastWrite(cs[..|cs| - 1], name);
    }
  }

  /** The request keeps its cookies, overwritten by the value queued last under each name. */
  lemma {:induction false} RequestJarHoldsLastWrite(jar: map<string, string>, cs: seq<Cookie>, name: string)
    ensures name in WithRequestCookies(jar, cs) <==> name in jar || LastNamed(cs, name).Some?
    ensures name in WithRequestCookies(jar, cs) ==>
      WithRequestCookies(jar, cs)[name]
        == if LastNamed(cs, name).Some? then LastNamed(cs, name).value.value else jar[name]
    decreases |cs|
  {
    if |cs| > 0 {
      RequestJarHoldsLastWrite(jar, cs[..|cs| - 1], name);
    }
  }

  /** Two batches written one after the other are one batch written in order. */
  lemma {:induction false} WithRequestCookiesConcat(jar: map<string, string>, a: seq<Cookie>, b: seq<Cookie>)
    ensures WithRequestCookies(WithRequestCookies(jar, a), b) == WithRequestCookies(jar, a + b)
    decreases |b|
  {
    if |b| > 0 {
      WithRequestCookiesConcat(jar, a, b[..|b| - 1]);
      assert (a + b)[..|a + b| - 1] == a + b[..|b| - 1];
    } else {
      assert a + b == a;
    }
  }

  /**
   * The cookie state during one request: the request's own cookie jar and the
   * pass-through response `supabaseResponse` that `setAll` rebuilds.
   */
  class SessionExchange {
    var requestCookies: map<string, string>
    var response: NextResponse

    /** `let supabaseResponse = NextResponse.next({ request })`. */
    constructor (cookies: map<string, string>)
      ensures requestCookies == cookies
      ensures response == NextResponse(cookies, map[])
    {
      requestCookies := cookies;
      response := NextResponse(cookies, map[]);
    }

    /**
     * The `setAll` callback: writes each cookie's value onto the request, then
     * replaces the response by a fresh pass-through one (forwarding the updated
     * request) and writes each cookie onto it with its options.
     */
    method SetAll(cookiesToSet: seq<Cookie>)
      modifies this
      ensures requestCookies == WithRequestCookies(old(requestCookies), cookiesToSet)
      ensures response == NextResponse(requestCookies, ResponseJar(cookiesToSet))
    {
      for i := 0 to |cookiesToSet|
        invariant requestCookies == WithRequestCookies(old(requestCookies), cookiesToSet[..i])
      {
        var c := cookiesToSet[i];
        requestCookies := requestCookies[c.name := c.value];
        assert cookiesToSet[..i + 1][..i] == cookiesToSet[..i];
      }
      assert cookiesToSet[..|cookiesToSet|] == cookiesToSet;
      response := NextResponse(requestCookies, map[]);
      for i := 0 to |cookiesToSet|
        invariant requestCookies == WithRequestCookies(old(requestCookies), cookiesToSet)
        invariant response == NextResponse(requestCookies, ResponseJar(cookiesToSet[..i]))
      {
        var c := cookiesToSet[i];
        response := response.(cookies := response.cookies[c.name := SetCookie(c.value, c.options)]);
        assert cookiesToSet[..i + 1][..i] == cookiesToSet[..i];
      }
      assert cookiesToSet[..|cookiesToSet|] == cookiesToSet;
    }
  }

  /** The pass-through response after the backend has called `setAll` with each batch in turn. */
  function AfterRefreshes(cookies: map<string, string>, refreshes: seq<seq<Cookie>>): NextResponse
    decreases |refreshes|
  {
    if |refreshes| == 0 then NextResponse(cookies, map[])
    else
      var before := AfterRefreshes(cookies, refreshes[..|refreshes| - 1]);
      var last := refreshes[|refreshes| - 1];
      NextResponse(WithRequestCookies(before.forwarded, last), ResponseJar(last))
  }

  /** All the batches concatenated, in order. */
  function Flatten(refreshes: seq<seq<Cookie>>): seq<Cookie>
    decreases |refreshes|
  {
    if |refreshes| == 0 then [] else Flatten(refreshes[..|refreshes| - 1]) + refreshes[|refreshes| - 1]
  }

  /**
   * The pass-through response forwards the request with every queued cookie
   * applied in order, and sets on the browser exactly the last batch.
   */
  lemma {:induction false} AfterRefreshesContents(cookies: map<string, string>, refreshes: seq<seq<Cookie>>)
    ensures AfterRefreshes(cookies, refreshes).forwarded == WithRequestCookies(cookies, Flatten(refreshes))
    ensures AfterRefreshes(cookies, refreshes).cookies
         == if |refreshes| == 0 then map[] else ResponseJar(refreshes[|refreshes| - 1])
    decreases |refreshes|
  {
    if |refreshes| > 0 {
      var n := |refreshes| - 1;
      AfterRefreshesContents(cookies, refreshes[..n]);
      WithRequestCookiesConcat(cookies, Flatten(refreshes[..n]), refreshes[n]);
    }
  }

  /** The response object a decision turns into. */
  function Respond(decision: Decision, url: Url, next: NextResponse): Response {
    match decision
    case Pass => Forward(next)
    case Redirect(path) => Redirection(url.(pathname := path))
    case Error500(message) => ServerError(500, message)
  }

  /** The cookies a response sets on the browser. */
  function CookiesOf(response: Response): map<string, SetCookie> {
    match response
    case Forward(next) => next.cookies
    case _ => map[]
  }

  /**
   * Only the pass-through response carries the refreshed cookies: a redirect is
   * a fresh response whose URL is the request's with just the pathname changed,
   * and the 500 response is fresh too.
   */
  lemma ResponseShapes(decision: Decision, url: Url, next: NextResponse)
    ensures decision == Pass ==> CookiesOf(Respond(decision, url, next)) == next.cookies
    ensures decision != Pass ==> CookiesOf(Respond(decision, url, next)) == map[]
    ensures decision.Redirect? ==>
      var loc := Respond(decision, url, next).location;
      loc.pathname == decision.path && loc.origin == url.origin && loc.search == url.search
  {
  }

  /**
   * `updateSession`: resolve the session (the backend calls `setAll` once per
   * batch in `refreshes`), decide, and answer with the pass-through response,
   * a redirect or a 500.
   */
  method UpdateSession(request: Request, identity: Identity, refreshes: seq<seq<Cookie>>)
    returns (response: Response)
    ensures response == Respond(Route(identity, request.nextUrl), request.nextUrl,
                                AfterRefreshes(request.cookies, refreshes))
  {
    var exchange := new SessionExchange(request.cookies);
    for k := 0 to |refreshes|
      invariant exchange.response == AfterRefreshes(request.cookies, refreshes[..k])
      invariant exchange.requestCookies == exchange.response.forwarded
    {
      exchange.SetAll(refreshes[k]);
      assert refreshes[..k + 1][..k] == refreshes[..k];
    }
    assert refreshes[..|refreshes|] == refreshes;
    var decision := Route(identity, request.nextUrl);
    match decision {
      case Pass =>
        response := Forward(exchange.response);
      case Redirect(path) =>
        var url := request.nextUrl.(pathname := path);
        response := Redirection(url);
      case Error500(message) =>
        response := ServerError(500, message);
    }
  }
}
