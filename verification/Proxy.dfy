/** The dashboard's request gate with its proactive token refresh, alone and composed with the
    session backend. */
module Proxy {
  import opened Optional
  import Sessions

  type Jti = Sessions.Jti

  /** What can be read from an access token without verifying it. */
  datatype AccessToken = Garbled | WithoutExp | Expiring(exp: int)

  datatype Pair = Pair(access: AccessToken, refresh: Jti, expiresIn: int)

  /** What the refresh endpoint can answer: an error of any kind, a success without data, or a pair. A success
      without data is neither a rotation nor taken for a failure. */
  datatype Reply = Refused | Empty | Granted(pair: Pair)

  /** The two auth cookies of a request; an empty cookie counts as absent. */
  datatype Cookies = Cookies(access: Option<AccessToken>, refresh: Option<Jti>)

  datatype Target = Home | LoginPage(next: string)

  datatype Response =
    | Redirect(to: Target, grants: Option<Pair>, clears: bool)
    | Next(downstream: Cookies, grants: Option<Pair>)

  const REFRESH_MARGIN_SECONDS := 60

  // ------------------------------------------------------------------ paths

  predicate Under(prefix: string, path: string) { path == prefix || prefix + "/" <= path }

  predicate IsAuthPath(path: string) {
    "/login" <= path || "/register" <= path || "/claim" <= path
  }

  predicate IsPublic(path: string) {
    || Under("/login", path) || Under("/register", path) || Under("/claim", path)
    || Under("/programmes", path) || Under("/events", path) || Under("/verify-email", path)
  }

  function PathOf(t: Target): string {
    match t
    case Home => "/"
    case LoginPage(_) => "/login"
  }

  lemma TargetPaths()
    ensures !IsAuthPath("/") && !IsPublic("/")
    ensures IsAuthPath("/login") && IsPublic("/login")
  {
  }

  // ------------------------------------------------------------------ the gate, on values

  predicate IsExpiringSoon(token: AccessToken, now: int) {
    token.Expiring? ==> token.exp * 1000 <= now + REFRESH_MARGIN_SECONDS * 1000
  }

  /** A refresh is attempted when there is something to refresh with and a reason to. */
  predicate Attempts(c: Cookies, now: int) {
    c.refresh.Some? && (c.access.None? || IsExpiringSoon(c.access.value, now))
  }

  function Gate(path: string, c: Cookies, now: int, reply: Reply): Response {
    var rotated := if Attempts(c, now) && reply.Granted? then Some(reply.pair) else None;
    var failed := Attempts(c, now) && reply.Refused?;
    var session := rotated.Some? || (c.access.Some? && !failed);
    if session && IsAuthPath(path) then Redirect(Home, rotated, false)
    else if !session && !IsPublic(path) then Redirect(LoginPage(path), None, failed)
    else Next(if rotated.Some? then Cookies(Some(rotated.value.access), Some(rotated.value.refresh)) else c, rotated)
  }

  /** A refresh cookie, and no access token that can be read and is good for more than a minute. */
  predicate NeedsRefresh(c: Cookies, now: int) {
    && c.refresh.Some?
    && (c.access.Some? && c.access.value.Expiring? ==> c.access.value.exp * 1000 <= now + 60 * 1000)
  }

  // ------------------------------------------------------------------ the gate, in place

  /** The incoming request: its cookie header can be rewritten before it is forwarded. */
  class NextRequest {
    const pathname: string
    var cookies: Cookies

    constructor (pathname: string, cookies: Cookies)
      ensures this.pathname == pathname && this.cookies == cookies
    {
      this.pathname, this.cookies := pathname, cookies;
    }
  }

  /** `reply` is what the refresh endpoint would answer, if it is called. */
  method Handle(request: NextRequest, now: int, reply: Reply) returns (response: Response, called: bool)
    modifies request
    ensures response == Gate(request.pathname, old(request.cookies), now, reply)
    ensures called <==> NeedsRefresh(old(request.cookies), now)
    ensures response.Next? ==> request.cookies == response.downstream
  {
    var isAuthPath, isPublic := IsAuthPath(request.pathname), IsPublic(request.pathname);
    var accessToken, refreshToken := request.cookies.access, request.cookies.refresh;
    var rotated: Option<Pair> := None;
    var refreshFailed := false;
    called := false;
    if refreshToken.Some? && (accessToken.None? || IsExpiringSoon(accessToken.value, now)) {
      called := true;
      if reply.Granted? { rotated := Some(reply.pair); }
      refreshFailed := reply.Refused?;
    }
    var hasSession := rotated.Some? || (accessToken.Some? && !refreshFailed);
    if hasSession && isAuthPath {
      return Redirect(Home, rotated, false), called;
    }
    if !hasSession && !isPublic {
      return Redirect(LoginPage(request.pathname), None, refreshFailed), called;
    }
    if rotated.Some? {
      request.cookies := request.cookies.(access := Some(rotated.value.access));
      request.cookies := request.cookies.(refresh := Some(rotated.value.refresh));
    }
    return Next(request.cookies, rotated), called;
  }

  // ------------------------------------------------------------------ the browser

  datatype Cookie<T> = Cookie(value: T, until: int)

  /** Cookies with the time at which the browser drops them. */
  datatype Jar = Jar(access: Option<Cookie<AccessToken>>, refresh: Option<Cookie<Jti>>)

  const REFRESH_COOKIE_SECONDS := 60 * 60 * 24 * 30

  function Sent(jar: Jar, now: int): Cookies {
    Cookies(if jar.access.Some? && now < jar.access.value.until then Some(jar.access.value.value) else None,
            if jar.refresh.Some? && now < jar.refresh.value.until then Some(jar.refresh.value.value) else None)
  }

  function Received(jar: Jar, r: Response, now: int): Jar {
    if r.grants.Some? then
      Jar(Some(Cookie(r.grants.value.access, now + r.grants.value.expiresIn * 1000)),
          Some(Cookie(r.grants.value.refresh, now + REFRESH_COOKIE_SECONDS * 1000)))
    else if r.Redirect? && r.clears then Jar(None, None)
    else jar
  }

  // ------------------------------------------------------------------ when the gate refreshes

  /** The endpoint's answer matters only if there is something to refresh with and a reason to. */
  lemma CalledIff(path: string, c: Cookies, now: int)
    ensures (exists reply :: Gate(path, c, now, reply) != Gate(path, c, now, Empty))
            <==> c.refresh.Some? && !(c.access.Some? && c.access.value.Expiring? && c.access.value.exp * 1000 > now + 60000)
  {
    var granted := Granted(Pair(Garbled, 0, 0));
    if c.refresh.Some? && !(c.access.Some? && c.access.value.Expiring? && c.access.value.exp * 1000 > now + 60000) {
      assert Attempts(c, now);
      assert Gate(path, c, now, granted).grants.Some?;
      assert Gate(path, c, now, Empty).grants.None?;
    }
  }

  /** With something to refresh with, and an endpoint that grants a good pair, no page is ever rendered with an access
      token that is missing, unreadable or good for less than a minute. */
  lemma PagesGetGoodTokens(path: string, c: Cookies, now: int, pair: Pair)
    requires c.refresh.Some? && pair.access.Expiring? && pair.access.exp * 1000 > now + 60000
    ensures var response := Gate(path, c, now, Granted(pair));
            response.Next? ==>
              && response.downstream.access.Some? && response.downstream.access.value.Expiring?
              && response.downstream.access.value.exp * 1000 > now + 60000
  {
  }

  /** The browser's jar after a sequence of requests, each for some path. */
  function JarAfterAll(jar: Jar, requests: seq<(string, Hop)>): Jar
    decreases |requests|
  {
    if requests == [] then jar
    else JarAfterAll(JarAfter(requests[0].0, jar, requests[0].1), requests[1..])
  }

  /** After a rotation that granted an access token for `seconds` seconds, and for all but the last 61 of them, no
      request calls the endpoint: whatever it would answer, the response is the same and the jar is untouched. */
  lemma {:induction false} QuietAfterRotation(path: string, jar: Jar, hop: Hop, pair: Pair, seconds: int, requests: seq<(string, Hop)>)
    requires hop.reply == Granted(pair) && Visit(path, jar, hop).grants == Some(pair)
    requires pair.access == Expiring(hop.now / 1000 + seconds) && pair.expiresIn == seconds && 60 < seconds
    requires forall i :: 0 <= i < |requests| ==> hop.now <= requests[i].1.now <= hop.now + (seconds - 61) * 1000
    ensures JarAfterAll(JarAfter(path, jar, hop), requests) == JarAfter(path, jar, hop)
    ensures forall i, reply :: 0 <= i < |requests| ==>
              Gate(requests[i].0, Sent(JarAfter(path, jar, hop), requests[i].1.now), requests[i].1.now, reply)
              == Visit(requests[i].0, JarAfter(path, jar, hop), requests[i].1)
    decreases |requests|
  {
    if requests == [] {
    } else {
      var rest := requests[1..];
      assert forall i :: 0 <= i < |rest| ==> rest[i] == requests[i + 1];
      QuietAfterRotation(path, jar, hop, pair, seconds, rest);
      QuietVisit(path, jar, hop, pair, seconds, requests[0].0, requests[0].1);
    }
  }

  lemma QuietVisit(path: string, jar: Jar, hop: Hop, pair: Pair, seconds: int, next: string, later: Hop)
    requires hop.reply == Granted(pair) && Visit(path, jar, hop).grants == Some(pair)
    requires pair.access == Expiring(hop.now / 1000 + seconds) && pair.expiresIn == seconds && 60 < seconds
    requires hop.now <= later.now <= hop.now + (seconds - 61) * 1000
    ensures JarAfter(next, JarAfter(path, jar, hop), later) == JarAfter(path, jar, hop)
    ensures forall reply :: Gate(next, Sent(JarAfter(path, jar, hop), later.now), later.now, reply)
                            == Visit(next, JarAfter(path, jar, hop), later)
  {
    var jar' := JarAfter(path, jar, hop);
    assert jar' == Jar(Some(Cookie(pair.access, hop.now + seconds * 1000)), Some(Cookie(pair.refresh, hop.now + 2592000 * 1000)));
    assert Sent(jar', later.now).access == Some(pair.access);
    assert (hop.now / 1000 + seconds) * 1000 > later.now + 60000;
  }

  /** A rotation's refresh cookie is sent for thirty days, unless it is replaced or cleared. */
  lemma RefreshCookieLasts(path: string, jar: Jar, hop: Hop, pair: Pair, later: int)
    requires hop.reply == Granted(pair) && Visit(path, jar, hop).grants == Some(pair)
    ensures Sent(JarAfter(path, jar, hop), later).refresh == Some(pair.refresh) <==> later < hop.now + 30 * 24 * 60 * 60 * 1000
  {
    assert JarAfter(path, jar, hop).refresh == Some(Cookie(pair.refresh, hop.now + 2592000 * 1000));
  }

  // ------------------------------------------------------------------ which pages are for whom

  predicate StartsWithOneOf(path: string, prefixes: seq<string>) {
    exists i :: 0 <= i < |prefixes| && prefixes[i] <= path
  }

  predicate WithinOneOf(path: string, roots: seq<string>) {
    exists i :: 0 <= i < |roots| && (path == roots[i] || roots[i] + "/" <= path)
  }

  /** Without auth cookies exactly the public pages are served; everything else leads to the login page, which
      remembers the path. */
  lemma StrangersSee(path: string, now: int, reply: Reply)
    ensures var response := Gate(path, Cookies(None, None), now, reply);
            if WithinOneOf(path, ["/login", "/register", "/claim", "/programmes", "/events", "/verify-email"])
            then response == Next(Cookies(None, None), None)
            else response == Redirect(LoginPage(path), None, false)
  {
    var roots := ["/login", "/register", "/claim", "/programmes", "/events", "/verify-email"];
    assert roots[0] == "/login" && roots[1] == "/register" && roots[2] == "/claim";
    assert roots[3] == "/programmes" && roots[4] == "/events" && roots[5] == "/verify-email";
  }

  /** With a good access token every page is served but those for logging in, which lead home. */
  lemma MembersSee(path: string, c: Cookies, now: int, reply: Reply)
    requires c.access.Some? && c.access.value.Expiring? && c.access.value.exp * 1000 > now + 60000
    ensures Gate(path, c, now, reply) ==
              if StartsWithOneOf(path, ["/login", "/register", "/claim"]) then Redirect(Home, None, false) else Next(c, None)
  {
    var prefixes := ["/login", "/register", "/claim"];
    assert prefixes[0] == "/login" && prefixes[1] == "/register" && prefixes[2] == "/claim";
  }

  // ------------------------------------------------------------------ redirects settle

  /** One request of a redirect chain: when it is made and what the backend would answer. */
  datatype Hop = Hop(now: int, reply: Reply)

  function Visit(path: string, jar: Jar, hop: Hop): Response {
    Gate(path, Sent(jar, hop.now), hop.now, hop.reply)
  }

  function JarAfter(path: string, jar: Jar, hop: Hop): Jar {
    Received(jar, Visit(path, jar, hop), hop.now)
  }

  /** Whether following redirects, one request per hop, reaches a page. */
  predicate Settles(path: string, jar: Jar, hops: seq<Hop>)
    decreases |hops|
  {
    hops != [] &&
      var r := Visit(path, jar, hops[0]);
      r.Next? || Settles(PathOf(r.to), JarAfter(path, jar, hops[0]), hops[1..])
  }

  /** Without any auth cookie, the login page is served. */
  lemma LoginServesStrangers(jar: Jar, hop: Hop)
    requires Sent(jar, hop.now) == Cookies(None, None)
    ensures Visit("/login", jar, hop).Next?
  {
    TargetPaths();
  }

  /** Unless the backend answered a success without data, a redirect to the login page leaves the browser with no
      cookie it would still send. */
  lemma LoginRedirectLeavesNothing(path: string, jar: Jar, hop: Hop, later: int)
    requires later >= hop.now && !hop.reply.Empty?
    requires var r := Visit(path, jar, hop); r.Redirect? && r.to.LoginPage?
    ensures Sent(JarAfter(path, jar, hop), later) == Cookies(None, None)
  {
  }

  predicate InTime(hops: seq<Hop>) {
    forall i, j :: 0 <= i < j < |hops| ==> hops[i].now <= hops[j].now
  }

  predicate NeverEmpty(hops: seq<Hop>) {
    forall i :: 0 <= i < |hops| ==> !hops[i].reply.Empty?
  }

  /** From any path, with any cookies, any passage of time and any backend answers that carry a pair or fail,
      following redirects reaches a page after at most two of them. */
  lemma RedirectsSettle(path: string, jar: Jar, hops: seq<Hop>)
    requires |hops| >= 3 && InTime(hops) && NeverEmpty(hops)
    ensures Settles(path, jar, hops)
  {
    TargetPaths();
    var r0, jar1 := Visit(path, jar, hops[0]), JarAfter(path, jar, hops[0]);
    if r0.Redirect? {
      var r1, jar2 := Visit(PathOf(r0.to), jar1, hops[1]), JarAfter(PathOf(r0.to), jar1, hops[1]);
      if r0.to.LoginPage? {
        LoginRedirectLeavesNothing(path, jar, hops[0], hops[1].now);
        LoginServesStrangers(jar1, hops[1]);
      } else if r1.Redirect? {
        LoginRedirectLeavesNothing("/", jar1, hops[1], hops[2].now);
        LoginServesStrangers(jar2, hops[2]);
        assert hops[1..][1..][0] == hops[2];
        assert Settles("/login", jar2, hops[1..][1..]);
      }
      assert Settles(PathOf(r0.to), jar1, hops[1..]);
    }
  }

  /** A backend that alternates between a pair whose access cookie is dropped at once and a success without data. */
  function Alternating(n: nat, granting: bool, now: int): seq<Hop> {
    if n == 0 then []
    else [Hop(now, if granting then Granted(Pair(Garbled, 7, 0)) else Empty)] + Alternating(n - 1, !granting, now)
  }

  lemma {:induction false} AlternatingIsInTime(n: nat, granting: bool, now: int)
    ensures |Alternating(n, granting, now)| == n
    ensures forall i :: 0 <= i < n ==> Alternating(n, granting, now)[i].now == now
  {
    if n == 0 {
    } else {
      AlternatingIsInTime(n - 1, !granting, now);
    }
  }

  lemma {:induction false} NeverSettles(n: nat, granting: bool, jar: Jar, now: int)
    requires Sent(jar, now).access.None? && Sent(jar, now).refresh.Some?
    ensures !Settles(if granting then "/login" else "/", jar, Alternating(n, granting, now))
  {
    TargetPaths();
    if n == 0 {
    } else {
      var path, hops := if granting then "/login" else "/", Alternating(n, granting, now);
      NeverSettles(n - 1, !granting, JarAfter(path, jar, hops[0]), now);
      assert hops[1..] == Alternating(n - 1, !granting, now);
    }
  }

  /** Whether n requests always suffice, with or without successes that carry no data. */
  ghost predicate Suffice(n: nat, emptyReplies: bool) {
    forall path, jar, hops :: |hops| == n && InTime(hops) && (emptyReplies || NeverEmpty(hops)) ==> Settles(path, jar, hops)
  }

  /** There is a bound on the length of redirect chains exactly if the refresh endpoint never answers a success
      without data; three requests then suffice. */
  lemma BoundedIffNeverEmpty(emptyReplies: bool)
    ensures (exists n :: Suffice(n, emptyReplies)) <==> !emptyReplies
    ensures Suffice(3, false)
  {
    forall path, jar, hops | |hops| == 3 && InTime(hops) && NeverEmpty(hops)
      ensures Settles(path, jar, hops)
    {
      RedirectsSettle(path, jar, hops);
    }
    assert Suffice(3, false);
    forall n
      ensures !Suffice(n, true)
    {
      var jar := Jar(None, Some(Cookie(7, 1)));
      NeverSettles(n, true, jar, 0);
      AlternatingIsInTime(n, true, 0);
      assert InTime(Alternating(n, true, 0)) && !Settles("/login", jar, Alternating(n, true, 0));
    }
  }

  /** Two is the least such bound: a visit to the login page can take two redirects. */
  lemma TwoRedirectsHappen(jar: Jar, pair: Pair, hops: seq<Hop>)
    requires |hops| == 2 && hops[0].now < hops[1].now
    requires jar == Jar(None, Some(Cookie(7, hops[1].now + 1)))
    requires hops[0].reply == Granted(pair) && pair.expiresIn == 0 && hops[1].reply.Refused?
    requires hops[1].now < hops[0].now + REFRESH_COOKIE_SECONDS * 1000
    ensures !Settles("/login", jar, hops)
  {
    TargetPaths();
    var jar1 := JarAfter("/login", jar, hops[0]);
    assert Visit("/login", jar, hops[0]) == Redirect(Home, Some(pair), false);
    assert Visit("/", jar1, hops[1]) == Redirect(LoginPage("/"), None, true);
    assert hops[1..][1..] == [];
    assert !Settles("/", jar1, hops[1..]);
  }

  // ------------------------------------------------------------------ browser and backend in step

  /** The refresh endpoint: rotates a refreshable session; the reply may be lost on the way back. */
  datatype Backend = Backend(auth: Sessions.Auth, ttl: nat, accessSeconds: int)

  ghost function Answer(b: Backend, c: Cookies, now: int, minted: Jti, delivered: bool): Reply {
    if Attempts(c, now) && Sessions.Refreshable(b.auth, c.refresh.value, now) && delivered
    then Granted(Pair(Expiring(now / 1000 + b.accessSeconds), minted, b.accessSeconds))
    else Refused
  }

  ghost function AuthAfter(b: Backend, c: Cookies, now: int, device: Sessions.DeviceId, minted: Jti): Sessions.Auth {
    if Attempts(c, now) then Sessions.Refreshed(b.auth, c.refresh.value, device, minted, now, b.ttl) else b.auth
  }

  /** After a proxied request made with a live refresh cookie, whatever the path: the browser is left
      with a dead refresh cookie exactly when a refresh was attempted, its reply was lost and the path is
      public; when the reply arrives, the cookie it holds is live, and is what the render downstream sees. */
  lemma StaysInStep(b: Backend, path: string, jar: Jar, now: int, device: Sessions.DeviceId, minted: Jti, delivered: bool)
    requires Sessions.Sound(b.auth) && minted !in b.auth.issued
    requires Sent(jar, now).refresh.Some? && Sessions.Refreshable(b.auth, Sent(jar, now).refresh.value, now)
    ensures var c := Sent(jar, now);
            var r := Gate(path, c, now, Answer(b, c, now, minted, delivered));
            var jar', auth' := Received(jar, r, now), AuthAfter(b, c, now, device, minted);
            && ((jar'.refresh.Some? && !Sessions.Refreshable(auth', jar'.refresh.value.value, now))
                <==> Attempts(c, now) && !delivered && IsPublic(path))
            && (r.Next? && (delivered || !Attempts(c, now)) ==> r.downstream == Sent(jar', now) || b.accessSeconds <= 0)
            && (r.Next? && jar'.refresh.Some? ==> r.downstream.refresh == Some(jar'.refresh.value.value))
  {
    var c := Sent(jar, now);
    var held := c.refresh.value;
    if Attempts(c, now) {
      var t := Sessions.At(now, Sessions.Rotate(held, device, minted));
      var auth' := Sessions.Refreshed(b.auth, held, device, minted, now, b.ttl);
      var k := Sessions.FindJti(b.auth.rows, held).value;
      Sessions.StepKeepsSound(b.auth, t, b.ttl);
      Sessions.EndsSession(b.auth, t, b.ttl, k);
      Sessions.RefreshableIsActive(auth', held, now);
      assert auth'.rows[(k.0, device)] == Sessions.Row(minted, false, now + b.ttl * 1000);
      assert Sessions.FindJti(auth'.rows, minted) == Some((k.0, device));
    }
  }

  /** With delivered replies no path leaves the browser with a dead refresh cookie. */
  lemma DeliveredKeepsLive(b: Backend, path: string, jar: Jar, now: int, device: Sessions.DeviceId, minted: Jti)
    requires Sessions.Sound(b.auth) && minted !in b.auth.issued
    requires Sent(jar, now).refresh.Some? && Sessions.Refreshable(b.auth, Sent(jar, now).refresh.value, now)
    ensures var c := Sent(jar, now);
            var jar' := Received(jar, Gate(path, c, now, Answer(b, c, now, minted, true)), now);
            && jar'.refresh.Some?
            && Sessions.Refreshable(AuthAfter(b, c, now, device, minted), jar'.refresh.value.value, now)
  {
    StaysInStep(b, path, jar, now, device, minted, true);
  }
}
