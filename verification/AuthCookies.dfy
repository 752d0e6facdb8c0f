/**
 * apps/api/src/auth/auth.cookies.ts: the Set-Cookie headers for login, refresh and logout, run against
 * a browser jar that may still hold copies written by older versions of the code.
 */
module AuthCookies {
  import opened Wrappers
  import opened CookieJar

  const REFRESH_COOKIE_NAME := "ol_refresh"
  const CSRF_COOKIE_NAME := "ol_csrf"
  const REFRESH_COOKIE_PATH := "/v1/auth"
  const CSRF_COOKIE_PATH := "/"
  const LEGACY_AUTH_COOKIE_PATH := "/auth"

  const OURS: set<string> := {REFRESH_COOKIE_NAME, CSRF_COOKIE_NAME}

  /** NODE_ENV and OL_COOKIE_DOMAIN. */
  datatype Env = Env(prod: bool, cookieDomain: Option<string>)

  /** What JavaScript's `trim` strips: its white space and its line terminators. */
  predicate IsSpace(c: char) {
    || '\t' <= c <= '\r' || c == ' ' || c == '\U{A0}' || c == '\U{1680}' || '\U{2000}' <= c <= '\U{200A}'
    || c == '\U{2028}' || c == '\U{2029}' || c == '\U{202F}' || c == '\U{205F}' || c == '\U{3000}' || c == '\U{FEFF}'
  }

  function TrimLeft(s: string): string {
    if s != "" && IsSpace(s[0]) then TrimLeft(s[1..]) else s
  }

  function TrimRight(s: string): string {
    if s != "" && IsSpace(s[|s| - 1]) then TrimRight(s[..|s| - 1]) else s
  }

  function ResolveCookieDomain(env: Env): Option<string> {
    if env.cookieDomain.None? then None
    else
      var raw := TrimRight(TrimLeft(env.cookieDomain.value));
      if |raw| > 0 then Some(raw) else None
  }

  predicate AllBlank(s: string) {
    forall i :: 0 <= i < |s| ==> IsSpace(s[i])
  }

  /** The blanks by code point. */
  lemma IsSpaceIff(c: char)
    ensures IsSpace(c) <==>
              9 <= c as int <= 13 || 0x2000 <= c as int <= 0x200A
              || c as int in {0x20, 0xA0, 0x1680, 0x2028, 0x2029, 0x202F, 0x205F, 0x3000, 0xFEFF}
  {
  }

  lemma BlankEnds(a: string, b: string)
    requires AllBlank(a) && AllBlank(b)
    ensures AllBlank(a + b)
  {
  }

  lemma {:induction false} TrimLeftStripsBlanks(s: string) returns (before: string)
    ensures s == before + TrimLeft(s) && AllBlank(before)
  {
    before := "";
    if s != "" && IsSpace(s[0]) {
      var more := TrimLeftStripsBlanks(s[1..]);
      BlankEnds([s[0]], more);
      before := [s[0]] + more;
    }
  }

  lemma {:induction false} TrimRightStripsBlanks(s: string) returns (after: string)
    ensures s == TrimRight(s) + after && AllBlank(after)
  {
    after := "";
    if s != "" && IsSpace(s[|s| - 1]) {
      var more := TrimRightStripsBlanks(s[..|s| - 1]);
      BlankEnds(more, [s[|s| - 1]]);
      after := more + [s[|s| - 1]];
    }
  }

  /** What is used as the Domain is the setting without blanks before and after it, and nothing else is lost. */
  lemma CookieDomainIsTheSetting(env: Env)
    requires ResolveCookieDomain(env).Some?
    ensures exists before, after ::
              AllBlank(before) && AllBlank(after) && env.cookieDomain == Some(before + ResolveCookieDomain(env).value + after)
  {
    var setting := env.cookieDomain.value;
    var before := TrimLeftStripsBlanks(setting);
    var after := TrimRightStripsBlanks(TrimLeft(setting));
    assert setting == before + ResolveCookieDomain(env).value + after;
  }

  lemma {:induction false} TrimLeftEmptyIff(s: string)
    ensures TrimLeft(s) == "" <==> forall i :: 0 <= i < |s| ==> IsSpace(s[i])
    ensures TrimLeft(s) != "" ==> !IsSpace(TrimLeft(s)[0])
  {
    if s != "" && IsSpace(s[0]) {
      TrimLeftEmptyIff(s[1..]);
      assert forall i :: 0 < i < |s| ==> s[i] == s[1..][i - 1];
    }
  }

  lemma {:induction false} TrimRightKeepsHead(s: string)
    requires s != "" && !IsSpace(s[0])
    ensures TrimRight(s) != "" && TrimRight(s)[0] == s[0] && !IsSpace(TrimRight(s)[|TrimRight(s)| - 1])
  {
    if IsSpace(s[|s| - 1]) {
      TrimRightKeepsHead(s[..|s| - 1]);
    }
  }

  /** A missing or all-blank OL_COOKIE_DOMAIN is unset; any other is used without surrounding blanks. */
  lemma CookieDomainUnsetIff(env: Env)
    ensures ResolveCookieDomain(env).None?
       <==> env.cookieDomain.None? || forall i :: 0 <= i < |env.cookieDomain.value| ==> IsSpace(env.cookieDomain.value[i])
    ensures var d := ResolveCookieDomain(env);
            d.Some? ==> d.value != "" && !IsSpace(d.value[0]) && !IsSpace(d.value[|d.value| - 1])
  {
    if env.cookieDomain.Some? {
      TrimLeftEmptyIff(env.cookieDomain.value);
      if TrimLeft(env.cookieDomain.value) != "" {
        TrimRightKeepsHead(TrimLeft(env.cookieDomain.value));
      }
    }
  }

  // ---------------------------------------------------------------- the response

  function ClearHeader(name: string, path: string, domain: Option<string>): SetCookie {
    SetCookie(name, "", domain, path, false, false, true)
  }

  function RefreshHeader(env: Env, token: string): SetCookie {
    SetCookie(REFRESH_COOKIE_NAME, token, ResolveCookieDomain(env), REFRESH_COOKIE_PATH, env.prod, true, false)
  }

  function CsrfHeader(env: Env, csrf: string): SetCookie {
    SetCookie(CSRF_COOKIE_NAME, csrf, ResolveCookieDomain(env), CSRF_COOKIE_PATH, env.prod, false, false)
  }

  function SetRefreshHeaders(env: Env, token: string): seq<SetCookie> {
    [ClearHeader(REFRESH_COOKIE_NAME, LEGACY_AUTH_COOKIE_PATH, None)]
    + (if ResolveCookieDomain(env).Some? then [ClearHeader(REFRESH_COOKIE_NAME, REFRESH_COOKIE_PATH, None)] else [])
    + [RefreshHeader(env, token)]
  }

  function SetCsrfHeaders(env: Env, csrf: string): seq<SetCookie> {
    [ClearHeader(CSRF_COOKIE_NAME, LEGACY_AUTH_COOKIE_PATH, None)]
    + (if ResolveCookieDomain(env).Some? then [ClearHeader(CSRF_COOKIE_NAME, CSRF_COOKIE_PATH, None)] else [])
    + [CsrfHeader(env, csrf)]
  }

  function ClearAuthHeaders(env: Env): seq<SetCookie> {
    [ClearHeader(REFRESH_COOKIE_NAME, REFRESH_COOKIE_PATH, ResolveCookieDomain(env)),
     ClearHeader(CSRF_COOKIE_NAME, CSRF_COOKIE_PATH, ResolveCookieDomain(env))]
    + (if ResolveCookieDomain(env).Some? then
         [ClearHeader(REFRESH_COOKIE_NAME, REFRESH_COOKIE_PATH, None),
          ClearHeader(CSRF_COOKIE_NAME, CSRF_COOKIE_PATH, None)]
       else [])
    + [ClearHeader(CSRF_COOKIE_NAME, LEGACY_AUTH_COOKIE_PATH, None),
       ClearHeader(REFRESH_COOKIE_NAME, LEGACY_AUTH_COOKIE_PATH, None)]
  }

  /** The Express response: Set-Cookie headers accumulate in call order. */
  class Response {
    var headers: seq<SetCookie>

    constructor ()
      ensures headers == []
    {
      headers := [];
    }

    method ClearCookie(name: string, path: string, domain: Option<string>)
      modifies this
      ensures headers == old(headers) + [ClearHeader(name, path, domain)]
    {
      headers := headers + [SetCookie(name, "", domain, path, false, false, true)];
    }

    method Cookie(h: SetCookie)
      modifies this
      ensures headers == old(headers) + [h]
    {
      headers := headers + [h];
    }
  }

  method SetRefreshCookie(res: Response, env: Env, rawToken: string)
    modifies res
    ensures res.headers == old(res.headers) + SetRefreshHeaders(env, rawToken)
  {
    res.ClearCookie(REFRESH_COOKIE_NAME, LEGACY_AUTH_COOKIE_PATH, None);
    if ResolveCookieDomain(env).Some? {
      res.ClearCookie(REFRESH_COOKIE_NAME, REFRESH_COOKIE_PATH, None);
    }
    res.Cookie(RefreshHeader(env, rawToken));
  }

  /** `random` is the fresh hex string of 32 random bytes. */
  method SetCsrfCookie(res: Response, env: Env, random: string) returns (csrf: string)
    modifies res
    ensures csrf == random
    ensures res.headers == old(res.headers) + SetCsrfHeaders(env, csrf)
  {
    csrf := random;
    res.ClearCookie(CSRF_COOKIE_NAME, LEGACY_AUTH_COOKIE_PATH, None);
    if ResolveCookieDomain(env).Some? {
      res.ClearCookie(CSRF_COOKIE_NAME, CSRF_COOKIE_PATH, None);
    }
    res.Cookie(CsrfHeader(env, csrf));
  }

  method ClearAuthCookies(res: Response, env: Env)
    modifies res
    ensures res.headers == old(res.headers) + ClearAuthHeaders(env)
  {
    var domain := ResolveCookieDomain(env);
    res.ClearCookie(REFRESH_COOKIE_NAME, REFRESH_COOKIE_PATH, domain);
    res.ClearCookie(CSRF_COOKIE_NAME, CSRF_COOKIE_PATH, domain);
    if domain.Some? {
      res.ClearCookie(REFRESH_COOKIE_NAME, REFRESH_COOKIE_PATH, None);
      res.ClearCookie(CSRF_COOKIE_NAME, CSRF_COOKIE_PATH, None);
    }
    res.ClearCookie(CSRF_COOKIE_NAME, LEGACY_AUTH_COOKIE_PATH, None);
    res.ClearCookie(REFRESH_COOKIE_NAME, LEGACY_AUTH_COOKIE_PATH, None);
  }

  // ---------------------------------------------------------------- reachable jars

  /** The API host that sets the cookies and the host whose pages the SPA runs on. */
  datatype Site = Site(api: string, web: string)

  function CurrentPath(name: string): string {
    if name == REFRESH_COOKIE_NAME then REFRESH_COOKIE_PATH else CSRF_COOKIE_PATH
  }

  /** Everything that can happen to the jar, under the cookie domain configured at that moment. */
  datatype Event =
    | LegacySet(name: string, value: string)      // before #748 / #1327: host-only at /auth
    | HostOnlySet(name: string, value: string)    // before #1725: host-only at the current path
    | DomainSet(name: string, value: string)      // #1725 to #1998: current scope, no cleanup
    | RefreshIssued(token: string)
    | CsrfIssued(csrf: string)
    | Cleared
    | Foreign(host: string, header: SetCookie)    // any other site, any other name
    | Evicted(cookie: Cookie)                     // expiry, user action, or the browser's own limits

  function Happen(site: Site, env: Env, jar: Jar, e: Event): Jar {
    match e
    case LegacySet(name, value) =>
      if name in OURS then
        Receive(jar, site.api, SetCookie(name, value, None, LEGACY_AUTH_COOKIE_PATH, env.prod, name == REFRESH_COOKIE_NAME, false))
      else jar
    case HostOnlySet(name, value) =>
      if name in OURS then
        Receive(jar, site.api, SetCookie(name, value, None, CurrentPath(name), env.prod, name == REFRESH_COOKIE_NAME, false))
      else jar
    case DomainSet(name, value) =>
      if name in OURS then
        Receive(jar, site.api,
                SetCookie(name, value, ResolveCookieDomain(env), CurrentPath(name), env.prod, name == REFRESH_COOKIE_NAME, false))
      else jar
    case RefreshIssued(token) => ReceiveAll(jar, site.api, SetRefreshHeaders(env, token))
    case CsrfIssued(csrf) => ReceiveAll(jar, site.api, SetCsrfHeaders(env, csrf))
    case Cleared => ReceiveAll(jar, site.api, ClearAuthHeaders(env))
    case Foreign(host, header) => if header.name in OURS then jar else Receive(jar, host, header)
    case Evicted(cookie) => Drop(jar, cookie)
  }

  function History(site: Site, env: Env, jar: Jar, events: seq<Event>): Jar
    decreases |events|
  {
    if events == [] then jar else History(site, env, Happen(site, env, jar, events[0]), events[1..])
  }

  /** A history starts with no cookie domain and switches at most once, to the domain of `env`. */
  ghost predicate Reached(site: Site, env: Env, jar: Jar) {
    exists before, after ::
      jar == History(site, env, History(site, env.(cookieDomain := None), [], before), after)
  }

  predicate KnownScope(site: Site, env: Env, c: Cookie) {
    || (c.domain == site.api && c.path == LEGACY_AUTH_COOKIE_PATH)
    || (c.domain == site.api && c.path == CurrentPath(c.name))
    || (Some(c.domain) == Canonical(ResolveCookieDomain(env)) && c.path == CurrentPath(c.name))
  }

  ghost predicate Tidy(site: Site, env: Env, jar: Jar) {
    Distinct(jar) && forall c :: c in jar && c.name in OURS ==> KnownScope(site, env, c)
  }

  predicate OurHeader(env: Env, h: SetCookie) {
    && h.name in OURS
    && (h.domain == None || h.domain == ResolveCookieDomain(env))
    && (h.path == CurrentPath(h.name) || (h.path == LEGACY_AUTH_COOKIE_PATH && h.domain == None))
  }

  lemma ReceiveTidy(site: Site, env: Env, jar: Jar, host: string, h: SetCookie)
    requires Tidy(site, env, jar)
    requires h.name in OURS && Described(host, h).Some? ==> KnownScope(site, env, Described(host, h).value)
    ensures Tidy(site, env, Receive(jar, host, h))
  {
    ReceiveKeepsDistinct(jar, host, h);
    var c := Described(host, h);
    if c.Some? {
      DropMembers(jar, c.value);
      PutMembers(jar, c.value);
    }
  }

  lemma {:induction false} ReceiveAllTidy(site: Site, env: Env, jar: Jar, hs: seq<SetCookie>)
    requires Tidy(site, env, jar) && forall h :: h in hs ==> OurHeader(env, h)
    ensures Tidy(site, env, ReceiveAll(jar, site.api, hs))
    decreases |hs|
  {
    if hs != [] {
      assert OurHeader(env, hs[0]);
      ReceiveTidy(site, env, jar, site.api, hs[0]);
      ReceiveAllTidy(site, env, Receive(jar, site.api, hs[0]), hs[1..]);
    }
  }

  lemma HappenTidy(site: Site, env: Env, jar: Jar, e: Event)
    requires Tidy(site, env, jar)
    ensures Tidy(site, env, Happen(site, env, jar, e))
  {
    match e {
      case LegacySet(name, value) =>
      case HostOnlySet(name, value) =>
      case DomainSet(name, value) =>
      case RefreshIssued(token) => ReceiveAllTidy(site, env, jar, SetRefreshHeaders(env, token));
      case CsrfIssued(csrf) => ReceiveAllTidy(site, env, jar, SetCsrfHeaders(env, csrf));
      case Cleared => ReceiveAllTidy(site, env, jar, ClearAuthHeaders(env));
      case Foreign(host, header) =>
        if header.name !in OURS {
          ReceiveTidy(site, env, jar, host, header);
        }
      case Evicted(cookie) => DropMembers(jar, cookie);
    }
    if e.LegacySet? || e.HostOnlySet? || e.DomainSet? {
      if e.name in OURS {
        var path := if e.LegacySet? then LEGACY_AUTH_COOKIE_PATH else CurrentPath(e.name);
        var domain := if e.DomainSet? then ResolveCookieDomain(env) else None;
        ReceiveTidy(site, env, jar, site.api, SetCookie(e.name, e.value, domain, path, env.prod, e.name == REFRESH_COOKIE_NAME, false));
      }
    }
  }

  lemma {:induction false} HistoryTidy(site: Site, env: Env, jar: Jar, events: seq<Event>)
    requires Tidy(site, env, jar)
    ensures Tidy(site, env, History(site, env, jar, events))
    decreases |events|
  {
    if events != [] {
      HappenTidy(site, env, jar, events[0]);
      HistoryTidy(site, env, Happen(site, env, jar, events[0]), events[1..]);
    }
  }

  /** In every reachable jar our cookies sit at one of three scopes, at most one cookie each. */
  lemma ReachedTidy(site: Site, env: Env, jar: Jar)
    requires Reached(site, env, jar)
    ensures Tidy(site, env, jar)
  {
    var before, after :|
      jar == History(site, env, History(site, env.(cookieDomain := None), [], before), after);
    var unset := env.(cookieDomain := None);
    HistoryTidy(site, unset, [], before);
    assert Tidy(site, env, History(site, unset, [], before));
    HistoryTidy(site, env, History(site, unset, [], before), after);
  }

  lemma {:induction false} HistoryAppend(site: Site, env: Env, jar: Jar, events: seq<Event>, e: Event)
    ensures History(site, env, jar, events + [e]) == Happen(site, env, History(site, env, jar, events), e)
    decreases |events|
  {
    if events == [] {
      assert ([] + [e])[1..] == [];
    } else {
      HistoryAppend(site, env, Happen(site, env, jar, events[0]), events[1..], e);
      assert (events + [e])[1..] == events[1..] + [e];
    }
  }

  lemma ReachedStep(site: Site, env: Env, jar: Jar, e: Event)
    requires Reached(site, env, jar)
    ensures Reached(site, env, Happen(site, env, jar, e))
  {
    var before, after :|
      jar == History(site, env, History(site, env.(cookieDomain := None), [], before), after);
    HistoryAppend(site, env, History(site, env.(cookieDomain := None), [], before), after, e);
  }

  // ---------------------------------------------------------------- what the three functions achieve

  /** The browser accepts the configured Domain from the API host. */
  predicate Accepts(site: Site, env: Env) {
    var d := Canonical(ResolveCookieDomain(env));
    d.Some? ==> DomainMatch(site.api, d.value)
  }

  function IssuedCookie(site: Site, env: Env, h: SetCookie): Cookie
    requires Accepts(site, env) && h.domain == ResolveCookieDomain(env)
  {
    Described(site.api, h).value
  }

  /** Three headers: clear /auth, clear the host-only copy if a Domain is set, set. Only the set survives. */
  lemma IssueCollapses(site: Site, env: Env, jar: Jar, issue: SetCookie, headers: seq<SetCookie>)
    requires Tidy(site, env, jar) && Accepts(site, env)
    requires issue.name in OURS && !issue.expired
    requires issue.domain == ResolveCookieDomain(env) && issue.path == CurrentPath(issue.name)
    requires headers == [ClearHeader(issue.name, LEGACY_AUTH_COOKIE_PATH, None)]
                      + (if ResolveCookieDomain(env).Some? then [ClearHeader(issue.name, CurrentPath(issue.name), None)] else [])
                      + [issue]
    ensures Restrict(ReceiveAll(jar, site.api, headers), {issue.name}, true) == [IssuedCookie(site, env, issue)]
    ensures Restrict(ReceiveAll(jar, site.api, headers), {issue.name}, false) == Restrict(jar, {issue.name}, false)
  {
    ReceiveAllLocal(jar, site.api, headers, {issue.name});
    ReceiveAllFrame(jar, site.api, headers, {issue.name}, false);
    var mine := Restrict(jar, {issue.name}, true);
    RestrictMembers(jar, {issue.name}, true);
    CleanupLeavesTarget(site, env, mine, IssuedCookie(site, env, issue));
    if ResolveCookieDomain(env).Some? {
      ReceiveThree(mine, site.api, headers[0], headers[1], issue);
    } else {
      ReceiveTwo(mine, site.api, headers[0], issue);
    }
  }

  /** The host-only identity of a name at a path, the one a Domain-less clear removes. */
  function HostOnly(site: Site, name: string, path: string): Cookie {
    Cookie(name, "", site.api, true, path, false, false)
  }

  lemma CleanupLeavesTarget(site: Site, env: Env, mine: Jar, c: Cookie)
    requires Distinct(mine) && c.name in OURS && c.path == CurrentPath(c.name)
    requires forall d :: d in mine ==> d.name == c.name && KnownScope(site, env, d)
    requires var d := Canonical(ResolveCookieDomain(env)); c.domain == if d.Some? then d.value else site.api
    ensures var rest := Drop(mine, HostOnly(site, c.name, LEGACY_AUTH_COOKIE_PATH));
            Put(if ResolveCookieDomain(env).Some? then Drop(rest, HostOnly(site, c.name, c.path)) else rest, c) == [c]
  {
    var rest := Drop(mine, HostOnly(site, c.name, LEGACY_AUTH_COOKIE_PATH));
    DropMembers(mine, HostOnly(site, c.name, LEGACY_AUTH_COOKIE_PATH));
    DropMembers(rest, HostOnly(site, c.name, c.path));
    AtMostOneScope(if ResolveCookieDomain(env).Some? then Drop(rest, HostOnly(site, c.name, c.path)) else rest, c);
  }

  /** If only the target identity is left, putting the cookie leaves it alone. */
  lemma AtMostOneScope(jar: Jar, c: Cookie)
    requires Distinct(jar) && forall d :: d in jar ==> SameIdentity(d, c)
    ensures Put(jar, c) == [c]
  {
    assert |jar| >= 2 ==> !SameIdentity(jar[0], jar[1]);
    forall i | 0 <= i < |jar| ensures SameIdentity(jar[i], c) {
      assert jar[i] in jar;
    }
  }

  lemma ReceiveTwo(jar: Jar, host: string, a: SetCookie, b: SetCookie)
    ensures ReceiveAll(jar, host, [a] + [] + [b]) == Receive(Receive(jar, host, a), host, b)
  {
    assert ([a] + [] + [b])[1..] == [b] && [b][1..] == [];
    assert ReceiveAll(Receive(jar, host, a), host, [b]) == ReceiveAll(Receive(Receive(jar, host, a), host, b), host, []);
  }

  lemma ReceiveThree(jar: Jar, host: string, a: SetCookie, b: SetCookie, c: SetCookie)
    ensures ReceiveAll(jar, host, [a] + [b] + [c]) == Receive(Receive(Receive(jar, host, a), host, b), host, c)
  {
    assert ([a] + [b] + [c])[1..] == [b] + [] + [c];
    ReceiveTwo(Receive(jar, host, a), host, b, c);
  }

  /** The SPA's page can see what the API host sets. */
  predicate WebSees(site: Site, env: Env) {
    var d := Canonical(ResolveCookieDomain(env));
    if d.Some? then DomainMatch(site.web, d.value) else site.web == site.api
  }

  predicate UnderAuth(path: string) {
    path == REFRESH_COOKIE_PATH || REFRESH_COOKIE_PATH + "/" <= path
  }

  /**
   * From every reachable jar: the API reads the new ol_csrf on every /v1/auth request, and the SPA, at
   * any document path, reads that same value exactly when the two hosts share the cookie's scope.
   */
  lemma CsrfMirrorsIff(site: Site, env: Env, jar: Jar, csrf: string, request: string, document: string, https: bool)
    requires Reached(site, env, jar) && Accepts(site, env)
    requires UnderAuth(request) && "/" <= document && (env.prod ==> https)
    ensures var after := ReceiveAll(jar, site.api, SetCsrfHeaders(env, csrf));
            && Reads(after, Query(site.api, request, https, false), CSRF_COOKIE_NAME) == Some(csrf)
            && (Reads(after, Query(site.web, document, https, true), CSRF_COOKIE_NAME)
                == Reads(after, Query(site.api, request, https, false), CSRF_COOKIE_NAME)
                <==> WebSees(site, env))
            && Restrict(after, {CSRF_COOKIE_NAME}, false) == Restrict(jar, {CSRF_COOKIE_NAME}, false)
  {
    ReachedTidy(site, env, jar);
    var h := CsrfHeader(env, csrf);
    IssueCollapses(site, env, jar, h, SetCsrfHeaders(env, csrf));
    var after := ReceiveAll(jar, site.api, SetCsrfHeaders(env, csrf));
    var c := IssuedCookie(site, env, h);
    OnlyCookieIsRead(after, Query(site.api, request, https, false), c);
    OnlyCookieIsRead(after, Query(site.web, document, https, true), c);
    assert "/" <= request;
  }

  /** One ol_refresh is left, the newest; every /v1/auth request carries it and scripts never see it. */
  lemma RefreshIsTheOnlyOne(site: Site, env: Env, jar: Jar, token: string, request: string, https: bool)
    requires Reached(site, env, jar) && Accepts(site, env)
    requires UnderAuth(request) && (env.prod ==> https)
    ensures var after := ReceiveAll(jar, site.api, SetRefreshHeaders(env, token));
            && |Restrict(after, {REFRESH_COOKIE_NAME}, true)| == 1
            && Reads(after, Query(site.api, request, https, false), REFRESH_COOKIE_NAME) == Some(token)
            && Reads(after, Query(site.api, request, https, true), REFRESH_COOKIE_NAME) == None
            && Restrict(after, {REFRESH_COOKIE_NAME}, false) == Restrict(jar, {REFRESH_COOKIE_NAME}, false)
  {
    ReachedTidy(site, env, jar);
    IssueCollapses(site, env, jar, RefreshHeader(env, token), SetRefreshHeaders(env, token));
    SoleRefreshIsRead(site, env, ReceiveAll(jar, site.api, SetRefreshHeaders(env, token)), token, request, https);
  }

  /** The host is the API host, or with a Domain the domain itself or a name below it. */
  predicate InScope(site: Site, env: Env, host: string) {
    var d := Canonical(ResolveCookieDomain(env));
    if d.None? then host == site.api
    else host == d.value || (!IsIpAddress(host) && |host| > |d.value| && host[|host| - |d.value| - 1..] == "." + d.value)
  }

  lemma InScopeIff(site: Site, env: Env, host: string)
    ensures var d := Canonical(ResolveCookieDomain(env));
            InScope(site, env, host) <==> if d.None? then host == site.api else DomainMatch(host, d.value)
  {
    var d := Canonical(ResolveCookieDomain(env));
    if d.Some? && |host| > |d.value| {
      var tail := host[|host| - |d.value| - 1..];
      assert tail == [tail[0]] + tail[1..] && tail[1..] == host[|host| - |d.value|..];
    }
  }

  /** Exactly which requests and pages get the new ol_refresh: only /v1/auth, never a script, in production only over https. */
  lemma RefreshCookieScope(site: Site, env: Env, jar: Jar, token: string, q: Query)
    requires Reached(site, env, jar) && Accepts(site, env)
    ensures Reads(ReceiveAll(jar, site.api, SetRefreshHeaders(env, token)), q, "ol_refresh")
         == if InScope(site, env, q.host) && (q.path == "/v1/auth" || "/v1/auth/" <= q.path) && (env.prod ==> q.https) && !q.script
            then Some(token) else None
  {
    ReachedTidy(site, env, jar);
    IssueCollapses(site, env, jar, RefreshHeader(env, token), SetRefreshHeaders(env, token));
    OnlyCookieIsRead(ReceiveAll(jar, site.api, SetRefreshHeaders(env, token)), q, IssuedCookie(site, env, RefreshHeader(env, token)));
    InScopeIff(site, env, q.host);
    PathMatchIff(q.path, "/v1/auth");
    assert "/v1/auth" + "/" == "/v1/auth/";
  }

  /** Exactly which requests and pages get the new ol_csrf: every path, scripts included, in production only over https. */
  lemma CsrfCookieScope(site: Site, env: Env, jar: Jar, csrf: string, q: Query)
    requires Reached(site, env, jar) && Accepts(site, env)
    ensures Reads(ReceiveAll(jar, site.api, SetCsrfHeaders(env, csrf)), q, "ol_csrf")
         == if InScope(site, env, q.host) && "/" <= q.path && (env.prod ==> q.https) then Some(csrf) else None
  {
    ReachedTidy(site, env, jar);
    IssueCollapses(site, env, jar, CsrfHeader(env, csrf), SetCsrfHeaders(env, csrf));
    OnlyCookieIsRead(ReceiveAll(jar, site.api, SetCsrfHeaders(env, csrf)), q, IssuedCookie(site, env, CsrfHeader(env, csrf)));
    InScopeIff(site, env, q.host);
    PathMatchIff(q.path, "/");
  }

  /** From any jar, reachable or not: logout removes the API host's copies of both cookies at /auth. */
  lemma LogoutDropsLegacyCopies(site: Site, env: Env, jar: Jar, c: Cookie)
    requires Accepts(site, env) && c.domain == site.api && c.path == "/auth" && c.name in {"ol_refresh", "ol_csrf"}
    ensures c !in ReceiveAll(jar, site.api, ClearAuthHeaders(env))
  {
    ReceiveAllClears(jar, site.api, ClearAuthHeaders(env));
    ClearHeadersCover(env, c.name);
    var h := ClearHeader(c.name, "/auth", None);
    assert h in ClearAuthHeaders(env) && SameIdentity(c, Described(site.api, h).value);
  }

  /** From any jar, reachable or not: each setter removes the API host's copy of its cookie at /auth. */
  lemma LegacyCopiesGo(site: Site, env: Env, jar: Jar, token: string, csrf: string, c: Cookie)
    requires Distinct(jar) && Accepts(site, env) && c.domain == site.api && c.path == "/auth"
    ensures c.name == "ol_refresh" ==> c !in ReceiveAll(jar, site.api, SetRefreshHeaders(env, token))
    ensures c.name == "ol_csrf" ==> c !in ReceiveAll(jar, site.api, SetCsrfHeaders(env, csrf))
  {
    if c.name == "ol_refresh" {
      assert "/v1/auth"[1] != "/auth"[1];
      LegacyCopyGoes(site, env, jar, RefreshHeader(env, token), "/v1/auth", c);
    }
    if c.name == "ol_csrf" {
      LegacyCopyGoes(site, env, jar, CsrfHeader(env, csrf), "/", c);
    }
  }

  lemma LegacyCopyGoes(site: Site, env: Env, jar: Jar, issue: SetCookie, path: string, c: Cookie)
    requires Distinct(jar) && Accepts(site, env) && !issue.expired
    requires issue.domain == ResolveCookieDomain(env) && issue.path == path && path != "/auth"
    requires c.name == issue.name && c.domain == site.api && c.path == "/auth"
    ensures c !in ReceiveAll(jar, site.api, [ClearHeader(issue.name, "/auth", None)]
                    + (if ResolveCookieDomain(env).Some? then [ClearHeader(issue.name, path, None)] else []) + [issue])
  {
    var legacy, hostOnly := HostOnly(site, issue.name, "/auth"), HostOnly(site, issue.name, path);
    var rest := Drop(jar, legacy);
    DropMembers(jar, legacy);
    DropMembers(rest, hostOnly);
    if ResolveCookieDomain(env).Some? {
      ReceiveThree(jar, site.api, ClearHeader(issue.name, "/auth", None), ClearHeader(issue.name, path, None), issue);
      PutMembers(Drop(rest, hostOnly), IssuedCookie(site, env, issue));
    } else {
      ReceiveTwo(jar, site.api, ClearHeader(issue.name, "/auth", None), issue);
      PutMembers(rest, IssuedCookie(site, env, issue));
    }
  }

  /** The two setters of one login or refresh response do not disturb each other. */
  lemma SessionCookiesReachTheApi(site: Site, env: Env, jar: Jar, token: string, csrf: string, request: string, https: bool)
    requires Reached(site, env, jar) && Accepts(site, env)
    requires UnderAuth(request) && (env.prod ==> https)
    ensures var after := ReceiveAll(jar, site.api, SetRefreshHeaders(env, token) + SetCsrfHeaders(env, csrf));
            && Reads(after, Query(site.api, request, https, false), REFRESH_COOKIE_NAME) == Some(token)
            && Reads(after, Query(site.api, request, https, false), CSRF_COOKIE_NAME) == Some(csrf)
  {
    var first := Happen(site, env, jar, RefreshIssued(token));
    ReceiveAllAppend(jar, site.api, SetRefreshHeaders(env, token), SetCsrfHeaders(env, csrf));
    ReachedStep(site, env, jar, RefreshIssued(token));
    CsrfMirrorsIff(site, env, first, csrf, request, "/", https);
    RefreshSurvivesCsrf(site, env, jar, token, csrf, request, https);
  }

  lemma RefreshSurvivesCsrf(site: Site, env: Env, jar: Jar, token: string, csrf: string, request: string, https: bool)
    requires Reached(site, env, jar) && Accepts(site, env)
    requires UnderAuth(request) && (env.prod ==> https)
    ensures var both := ReceiveAll(ReceiveAll(jar, site.api, SetRefreshHeaders(env, token)), site.api, SetCsrfHeaders(env, csrf));
            Reads(both, Query(site.api, request, https, false), REFRESH_COOKIE_NAME) == Some(token)
  {
    var first := ReceiveAll(jar, site.api, SetRefreshHeaders(env, token));
    ReachedTidy(site, env, jar);
    IssueCollapses(site, env, jar, RefreshHeader(env, token), SetRefreshHeaders(env, token));
    ReceiveAllFrame(first, site.api, SetCsrfHeaders(env, csrf), {REFRESH_COOKIE_NAME}, true);
    SoleRefreshIsRead(site, env, ReceiveAll(first, site.api, SetCsrfHeaders(env, csrf)), token, request, https);
  }

  lemma SoleRefreshIsRead(site: Site, env: Env, jar: Jar, token: string, request: string, https: bool)
    requires Accepts(site, env) && UnderAuth(request) && (env.prod ==> https)
    requires Restrict(jar, {REFRESH_COOKIE_NAME}, true) == [IssuedCookie(site, env, RefreshHeader(env, token))]
    ensures Reads(jar, Query(site.api, request, https, false), REFRESH_COOKIE_NAME) == Some(token)
    ensures Reads(jar, Query(site.api, request, https, true), REFRESH_COOKIE_NAME) == None
  {
    var c := IssuedCookie(site, env, RefreshHeader(env, token));
    OnlyCookieIsRead(jar, Query(site.api, request, https, false), c);
    OnlyCookieIsRead(jar, Query(site.api, request, https, true), c);
  }

  lemma {:induction false} ReceiveAllClears(jar: Jar, host: string, hs: seq<SetCookie>)
    requires forall h :: h in hs ==> h.expired && Described(host, h).Some?
    ensures forall c :: c in ReceiveAll(jar, host, hs) <==>
              c in jar && forall h :: h in hs ==> !SameIdentity(c, Described(host, h).value)
    decreases |hs|
  {
    if hs != [] {
      DropMembers(jar, Described(host, hs[0]).value);
      ReceiveAllClears(Drop(jar, Described(host, hs[0]).value), host, hs[1..]);
      assert hs == [hs[0]] + hs[1..];
    }
  }

  lemma HasMember(jar: Jar)
    requires jar != []
    ensures exists c :: c in jar
  {
    assert jar[0] in jar;
  }

  lemma ClearHeadersCover(env: Env, name: string)
    requires name in OURS
    ensures ClearHeader(name, CurrentPath(name), ResolveCookieDomain(env)) in ClearAuthHeaders(env)
    ensures ClearHeader(name, CurrentPath(name), None) in ClearAuthHeaders(env)
    ensures ClearHeader(name, LEGACY_AUTH_COOKIE_PATH, None) in ClearAuthHeaders(env)
  {
    var hs := ClearAuthHeaders(env);
    var k := if name == REFRESH_COOKIE_NAME then 0 else 1;
    assert hs[k] == ClearHeader(name, CurrentPath(name), ResolveCookieDomain(env));
    assert ResolveCookieDomain(env).Some? ==> hs[2 + k] == ClearHeader(name, CurrentPath(name), None);
    assert hs[|hs| - 1 - k] == ClearHeader(name, LEGACY_AUTH_COOKIE_PATH, None);
  }

  /** Logout leaves no cookie of either name, whatever copies the jar held, and touches nothing else. */
  lemma ClearRemovesEveryCopy(site: Site, env: Env, jar: Jar)
    requires Reached(site, env, jar) && Accepts(site, env)
    ensures var after := ReceiveAll(jar, site.api, ClearAuthHeaders(env));
            Restrict(after, OURS, true) == [] && Restrict(after, OURS, false) == Restrict(jar, OURS, false)
  {
    var hs := ClearAuthHeaders(env);
    var after := ReceiveAll(jar, site.api, hs);
    ReachedTidy(site, env, jar);
    ReceiveAllClears(jar, site.api, hs);
    ReceiveAllFrame(jar, site.api, hs, OURS, false);
    RestrictMembers(after, OURS, true);
    forall c | c in jar && c.name in OURS ensures c !in after {
      ClearedCookieGone(site, env, c);
    }
    if Restrict(after, OURS, true) != [] {
      HasMember(Restrict(after, OURS, true));
    }
  }

  /** The same by name: what is left is what had another name. */
  lemma LogoutKeepsOnlyOthers(site: Site, env: Env, jar: Jar, c: Cookie)
    requires Reached(site, env, jar) && Accepts(site, env)
    ensures c in ReceiveAll(jar, site.api, ClearAuthHeaders(env)) <==> c in jar && c.name !in {"ol_refresh", "ol_csrf"}
  {
    ClearRemovesEveryCopy(site, env, jar);
    RestrictMembers(ReceiveAll(jar, site.api, ClearAuthHeaders(env)), OURS, true);
    RestrictMembers(ReceiveAll(jar, site.api, ClearAuthHeaders(env)), OURS, false);
    RestrictMembers(jar, OURS, false);
  }

  /** Whichever of the three scopes a copy has, one of the clearing headers names it. */
  lemma ClearedCookieGone(site: Site, env: Env, c: Cookie)
    requires c.name in OURS && KnownScope(site, env, c) && Accepts(site, env)
    ensures exists h :: h in ClearAuthHeaders(env) && SameIdentity(c, Described(site.api, h).value)
  {
    ClearHeadersCover(env, c.name);
    var h := if c.path == LEGACY_AUTH_COOKIE_PATH then ClearHeader(c.name, LEGACY_AUTH_COOKIE_PATH, None)
             else if c.domain == site.api then ClearHeader(c.name, CurrentPath(c.name), None)
             else ClearHeader(c.name, CurrentPath(c.name), ResolveCookieDomain(env));
    assert h in ClearAuthHeaders(env) && SameIdentity(c, Described(site.api, h).value);
  }

  /**
   * Why the cleanup is there: with a Domain other than the API host and a host-only copy in the jar,
   * setting the Domain cookie alone makes the API read the stale value while the SPA reads the new one.
   */
  lemma WithoutCleanupTheServerReadsStale(site: Site, env: Env, stale: string, csrf: string, request: string, document: string)
    requires Accepts(site, env) && WebSees(site, env) && UnderAuth(request) && "/" <= document
    requires var d := Canonical(ResolveCookieDomain(env)); d.Some? && d.value != site.api && site.web != site.api
    ensures var jar := [Cookie(CSRF_COOKIE_NAME, stale, site.api, true, CSRF_COOKIE_PATH, env.prod, false)];
            && Reached(site, env, jar)
            && var after := Receive(jar, site.api, CsrfHeader(env, csrf));
               && Reads(after, Query(site.api, request, true, false), CSRF_COOKIE_NAME) == Some(stale)
               && Reads(after, Query(site.web, document, true, true), CSRF_COOKIE_NAME) == Some(csrf)
  {
    var staleCookie := Cookie(CSRF_COOKIE_NAME, stale, site.api, true, CSRF_COOKIE_PATH, env.prod, false);
    var jar := [staleCookie];
    var unset := env.(cookieDomain := None);
    var e := HostOnlySet(CSRF_COOKIE_NAME, stale);
    assert [e][1..] == [];
    assert Happen(site, unset, [], e) == jar;
    assert History(site, unset, [], [e]) == jar;
    assert History(site, env, jar, []) == jar;
    var c := IssuedCookie(site, env, CsrfHeader(env, csrf));
    var after := Receive(jar, site.api, CsrfHeader(env, csrf));
    assert jar[1..] == [] && Put([], c) == [c] && after == [staleCookie] + [c];
    var atApi, atWeb := Query(site.api, request, true, false), Query(site.web, document, true, true);
    assert "/" <= request;
    assert Sendable(staleCookie, atApi) && Sendable(c, atApi) && !Sendable(staleCookie, atWeb) && Sendable(c, atWeb);
    PairSent(staleCookie, c, atApi);
    PairSent(staleCookie, c, atWeb);
  }
}
