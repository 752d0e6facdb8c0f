/**
 * `login`, `refresh` and `logout` of apps/api/src/auth/auth.controller.ts: rotation on the server
 * combined with the cookies sent to the browser, with a user who may have vanished meanwhile.
 */
module AuthController {
  import opened Wrappers
  import opened CookieJar
  import opened AuthCookies
  import opened RefreshTokens

  /** `getMe`: the user, an UnauthorizedException, or any other failure. */
  datatype UserLookup = Found | Gone | LookupFailed

  datatype Status = Ok200 | NoContent204 | Unauthorized401 | ServerError500

  /** What one response does: the token table, the Set-Cookie headers, the status, and who is signed in by it. */
  datatype Answer = Answer(rows: Table, headers: seq<SetCookie>, status: Status, user: Option<User>)

  /** An absent and an empty cookie read the same. */
  function ReadCookie(cookie: Option<string>): Option<string> {
    if cookie.Some? && cookie.value != "" then cookie else None
  }

  ghost function RefreshAnswer(t: Table, env: Env, cookie: Option<string>, now: Time, random: Random,
                               csrf: string, lookup: UserLookup, signed: bool): Answer
  {
    var raw := ReadCookie(cookie);
    if raw.None? then Answer(t, [], Unauthorized401, None)
    else
      var (u, rotation) := RotatedTable(t, raw.value, now, random);
      match rotation
      case InvalidToken => Answer(u, [], Unauthorized401, None)
      case ExpiredToken => Answer(u, [], Unauthorized401, None)
      case ReuseFound => Answer(u, ClearAuthHeaders(env), Unauthorized401, None)
      case Success(user, token, _) => RenewalAnswer(u, env, user, token, now, csrf, lookup, signed)
  }

  /** The second half of `refresh`: the token has been rotated, the user is looked up and signed in. */
  ghost function RenewalAnswer(u: Table, env: Env, user: User, token: string, now: Time,
                               csrf: string, lookup: UserLookup, signed: bool): Answer
  {
    match lookup
    case Found =>
      Answer(u, SetRefreshHeaders(env, token) + SetCsrfHeaders(env, csrf),
             if signed then Ok200 else ServerError500, if signed then Some(user) else None)
    case Gone => Answer(RevokedTable(u, token, now), ClearAuthHeaders(env), Unauthorized401, None)
    case LookupFailed => Answer(u, [], ServerError500, None)
  }

  /** No cookie, or one whose token the table does not hold. */
  ghost predicate Unknown(t: Table, cookie: Option<string>) {
    cookie.None? || cookie.value == "" || forall i :: 0 <= i < |t| ==> t[i].tokenHash != Sha256(cookie.value)
  }

  /** Row i is that of the cookie's token. */
  ghost predicate Names(t: Table, cookie: Option<string>, i: int) {
    cookie.Some? && cookie.value != "" && 0 <= i < |t| && t[i].tokenHash == Sha256(cookie.value)
  }

  /** The answer to the token of row i, by the columns of that row. */
  ghost predicate RefreshOutcome(t: Table, env: Env, i: int, now: Time, random: Random, csrf: string,
                                 lookup: UserLookup, signed: bool, a: Answer)
    requires 0 <= i < |t|
  {
    var live := t[i].revokedAt.None? && t[i].expiresAt > now;
    && a.status != NoContent204
    && (a.status == Ok200 <==> live && lookup == Found && signed)
    && (a.status == ServerError500 <==> live && (lookup == LookupFailed || (lookup == Found && !signed)))
    && a.user == (if a.status == Ok200 then Some(t[i].userId) else None)
    && a.headers == (if live && lookup == Found then SetRefreshHeaders(env, random.raw) + SetCsrfHeaders(env, csrf)
                     else if t[i].revokedAt.Some? || (live && lookup == Gone) then ClearAuthHeaders(env) else [])
    && (t[i].revokedAt.None? && !live ==> a.rows == t)
    && (live ==>
          && |a.rows| == |t| + 1
          && a.rows[|t|].userId == t[i].userId && a.rows[|t|].tokenHash == Sha256(random.raw)
          && a.rows[|t|].expiresAt == now + 1_209_600_000 && a.rows[|t|].rotatedFromId == Some(t[i].id)
          && (a.rows[|t|].revokedAt.Some? <==> lookup == Gone)
          && a.rows[i].revokedAt == Some(now)
          && forall j :: 0 <= j < |t| && j != i ==> a.rows[j] == t[j])
  }

  lemma RefreshCases(t: Table, env: Env, cookie: Option<string>, now: Time, random: Random,
                     csrf: string, lookup: UserLookup, signed: bool)
    requires Inv(t) && Unused(t, random)
    ensures var a := RefreshAnswer(t, env, cookie, now, random, csrf, lookup, signed);
            && (Unknown(t, cookie) ==> a == Answer(t, [], Unauthorized401, None))
            && (forall i :: Names(t, cookie, i) ==> RefreshOutcome(t, env, i, now, random, csrf, lookup, signed, a))
  {
    if Unknown(t, cookie) {
      if cookie.Some? && cookie.value != "" {
        RotationCases(t, cookie.value, now, random);
      }
    }
    forall i | Names(t, cookie, i)
      ensures RefreshOutcome(t, env, i, now, random, csrf, lookup, signed,
                             RefreshAnswer(t, env, cookie, now, random, csrf, lookup, signed))
    {
      RefreshOfRow(t, env, cookie.value, i, now, random, csrf, lookup, signed);
    }
  }

  lemma RefreshOfRow(t: Table, env: Env, raw: string, i: nat, now: Time, random: Random,
                     csrf: string, lookup: UserLookup, signed: bool)
    requires Inv(t) && Unused(t, random) && Names(t, Some(raw), i)
    ensures RefreshOutcome(t, env, i, now, random, csrf, lookup, signed,
                           RefreshAnswer(t, env, Some(raw), now, random, csrf, lookup, signed))
  {
    RotationCases(t, raw, now, random);
    var (u, rotation) := RotatedTable(t, raw, now, random);
    assert RotationOutcome(t, i, raw, now, random, u, rotation);
    if rotation.Success? && lookup == Gone {
      RotateKeepsInv(t, raw, now, random);
      NewRowRevoked(t, u, random.raw, now);
    }
  }

  lemma NewRowRevoked(t: Table, u: Table, raw: string, now: Time)
    requires Inv(u) && |u| == |t| + 1 && u[|t|].tokenHash == Sha256(raw) && u[|t|].revokedAt.None?
    ensures var w := RevokedTable(u, raw, now);
            && |w| == |u| && w[|t|] == u[|t|].(revokedAt := Some(now), revokedReason := Some(LoggedOut))
            && forall j :: 0 <= j < |t| ==> w[j] == u[j]
  {
    RevocationRows(u, raw, now);
  }

  class AuthController {
    const refreshTokenService: RefreshTokenService
    const env: Env

    constructor (refreshTokenService: RefreshTokenService, env: Env)
      ensures this.refreshTokenService == refreshTokenService && this.env == env
    {
      this.refreshTokenService, this.env := refreshTokenService, env;
    }

    /** `signed` tells whether signing the access token succeeded. */
    method Refresh(cookie: Option<string>, now: Time, random: Random, csrf: string,
                   lookup: UserLookup, signed: bool, res: Response) returns (status: Status, user: Option<User>)
      requires Inv(refreshTokenService.repository.rows) && Unused(refreshTokenService.repository.rows, random)
      requires res.headers == []
      modifies refreshTokenService.repository, res
      ensures Answer(refreshTokenService.repository.rows, res.headers, status, user)
           == RefreshAnswer(old(refreshTokenService.repository.rows), env, cookie, now, random, csrf, lookup, signed)
      ensures Unknown(old(refreshTokenService.repository.rows), cookie) ==>
                && status == Unauthorized401 && user == None && res.headers == []
                && refreshTokenService.repository.rows == old(refreshTokenService.repository.rows)
      ensures forall i :: Names(old(refreshTokenService.repository.rows), cookie, i) ==>
                RefreshOutcome(old(refreshTokenService.repository.rows), env, i, now, random, csrf, lookup, signed,
                               Answer(refreshTokenService.repository.rows, res.headers, status, user))
    {
      RefreshCases(refreshTokenService.repository.rows, env, cookie, now, random, csrf, lookup, signed);
      var raw := ReadCookie(cookie);
      if raw.None? {
        return Unauthorized401, None;
      }
      RotateKeepsInv(refreshTokenService.repository.rows, raw.value, now, random);
      var rotation := refreshTokenService.Rotate(raw.value, now, random);
      match rotation {
        case ReuseFound =>
          ClearAuthCookies(res, env);
          return Unauthorized401, None;
        case InvalidToken =>
          return Unauthorized401, None;
        case ExpiredToken =>
          return Unauthorized401, None;
        case Success(userId, token, _) =>
          status, user := Renew(userId, token, now, csrf, lookup, signed, res);
      }
    }

    /** Sets the cookies and signs the user in, or ends the new session of a user who is gone. */
    method Renew(userId: User, token: string, now: Time, csrf: string, lookup: UserLookup, signed: bool, res: Response)
      returns (status: Status, user: Option<User>)
      requires DistinctHashes(refreshTokenService.repository.rows) && DistinctIds(refreshTokenService.repository.rows)
      requires res.headers == []
      modifies refreshTokenService.repository, res
      ensures Answer(refreshTokenService.repository.rows, res.headers, status, user)
           == RenewalAnswer(old(refreshTokenService.repository.rows), env, userId, token, now, csrf, lookup, signed)
    {
      match lookup {
        case Found =>
          SetRefreshCookie(res, env, token);
          var _ := SetCsrfCookie(res, env, csrf);
          if !signed {
            return ServerError500, None;
          }
          return Ok200, Some(userId);
        case Gone =>
          refreshTokenService.Revoke(token, now);
          ClearAuthCookies(res, env);
          return Unauthorized401, None;
        case LookupFailed =>
          return ServerError500, None;
      }
    }

    method Login(user: User, now: Time, random: Random, csrf: string, res: Response) returns (status: Status)
      modifies refreshTokenService.repository, res
      ensures status == Ok200
      ensures refreshTokenService.repository.rows == IssuedTable(old(refreshTokenService.repository.rows), user, now, random)
      ensures refreshTokenService.repository.rows == old(refreshTokenService.repository.rows)
                + [Token(random.id, user, Sha256(random.raw), now, now + 1_209_600_000, None, None, None)]
      ensures res.headers == old(res.headers) + (SetRefreshHeaders(env, random.raw) + SetCsrfHeaders(env, csrf))
    {
      var token, _ := refreshTokenService.Issue(user, now, random);
      SetRefreshCookie(res, env, token);
      var _ := SetCsrfCookie(res, env, csrf);
      status := Ok200;
    }

    method Logout(cookie: Option<string>, now: Time, res: Response) returns (status: Status)
      requires DistinctHashes(refreshTokenService.repository.rows) && DistinctIds(refreshTokenService.repository.rows)
      modifies refreshTokenService.repository, res
      ensures status == NoContent204
      ensures refreshTokenService.repository.rows == LoggedOutRows(old(refreshTokenService.repository.rows), cookie, now)
      ensures |refreshTokenService.repository.rows| == |old(refreshTokenService.repository.rows)|
      ensures forall i :: 0 <= i < |refreshTokenService.repository.rows| ==>
                refreshTokenService.repository.rows[i]
                == if Names(old(refreshTokenService.repository.rows), cookie, i) && old(refreshTokenService.repository.rows)[i].revokedAt.None?
                   then old(refreshTokenService.repository.rows)[i].(revokedAt := Some(now), revokedReason := Some(LoggedOut))
                   else old(refreshTokenService.repository.rows)[i]
      ensures res.headers == old(res.headers) + ClearAuthHeaders(env)
    {
      var raw := ReadCookie(cookie);
      if raw.Some? {
        refreshTokenService.Revoke(raw.value, now);
      }
      ClearAuthCookies(res, env);
      status := NoContent204;
    }
  }

  ghost function LoggedOutRows(t: Table, cookie: Option<string>, now: Time): Table {
    var raw := ReadCookie(cookie);
    if raw.Some? then RevokedTable(t, raw.value, now) else t
  }

  // ---------------------------------------------------------------- what an answer means

  /** Row j is a token of row i's chain that the server would still accept. */
  ghost predicate LiveInChain(t: Table, i: nat, j: nat, now: Time)
    requires LinksBack(t) && i < |t|
  {
    j < |t| && SameChain(t, i, j) && t[j].IsActive(now)
  }

  lemma RowOf(t: Table, raw: string, i: nat)
    requires DistinctHashes(t) && i < |t| && t[i].tokenHash == Sha256(raw)
    ensures Row(t, raw) == Some(i)
  {
    assert IsRow(t, Sha256(raw), i);
  }

  /** After a successful rotation the new row is the one live token of the presented row's chain. */
  lemma RotationLeavesOneLive(t: Table, raw: string, now: Time, random: Random, i: nat)
    requires Inv(t) && Unused(t, random) && Row(t, raw) == Some(i)
    requires RotatedTable(t, raw, now, random).1.Success?
    ensures var u := RotatedTable(t, raw, now, random).0;
            && Inv(u) && |u| == |t| + 1 && Row(u, random.raw) == Some(|t|)
            && forall j: nat :: LiveInChain(u, i, j, now) <==> j == |t|
  {
    var u := RotatedTable(t, raw, now, random).0;
    RotateKeepsInv(t, raw, now, random);
    RowOf(u, random.raw, |t|);
    assert Follows(u, |t|, i);
    FollowerIsPrevious(u, |t|, i);
    forall j: nat ensures LiveInChain(u, i, j, now) <==> j == |t| {
      if j < |u| && SameChain(u, i, j) {
        OneLiveTokenPerChain(u, |t|, j);
      }
    }
  }

  /** A vanished user's fresh successor is revoked at once, which ends the chain. */
  lemma VanishedUserEndsTheChain(t: Table, raw: string, now: Time, random: Random, i: nat)
    requires Inv(t) && Unused(t, random) && Row(t, raw) == Some(i)
    requires RotatedTable(t, raw, now, random).1.Success?
    ensures var w := RevokedTable(RotatedTable(t, raw, now, random).0, random.raw, now);
            Inv(w) && i < |w| && DeadChain(w, i)
  {
    var u := RotatedTable(t, raw, now, random).0;
    var w := RevokedTable(u, random.raw, now);
    RotationLeavesOneLive(t, raw, now, random, i);
    RotateKeepsInv(t, raw, now, random);
    MarkKeepsInv(u, {u[|t|].id}, LoggedOut, now);
    assert w == MarkRevoked(u, {u[|t|].id}, LoggedOut, now);
    assert Follows(u, |t|, i);
    FollowerIsPrevious(u, |t|, i);
    forall j: nat | j < |w| && SameChain(w, i, j) ensures w[j].IsRevoked() {
      RootStable(u, w, i);
      RootStable(u, w, j);
      OneLiveTokenPerChain(u, |t|, j);
    }
  }

  /** An expired token that was never revoked is its chain's tail, so nothing in the chain is live. */
  lemma ExpiredTailMeansNoneLive(t: Table, i: nat, j: nat, now: Time)
    requires Inv(t) && i < |t| && !t[i].IsRevoked() && !t[i].IsActive(now)
    ensures !LiveInChain(t, i, j, now)
  {
    if j < |t| && SameChain(t, i, j) {
      OneLiveTokenPerChain(t, i, j);
    }
  }

  /**
   * Every refresh with a known token: a 401 leaves no live token in its chain; a 200 leaves exactly one;
   * any other answer leaves one too, and the browser misses it exactly when the user lookup failed.
   */
  lemma RefreshLeavesAtMostOneLive(t: Table, env: Env, raw: string, now: Time, random: Random, csrf: string,
                                   lookup: UserLookup, signed: bool, i: nat)
    requires Inv(t) && Unused(t, random) && raw != "" && Row(t, raw) == Some(i)
    ensures var a := RefreshAnswer(t, env, Some(raw), now, random, csrf, lookup, signed);
            && Inv(a.rows) && i < |a.rows|
            && (a.status == Unauthorized401 <==> forall j: nat :: !LiveInChain(a.rows, i, j, now))
            && (a.status != Unauthorized401 ==>
                  && (forall j: nat :: LiveInChain(a.rows, i, j, now) <==> j == |t|)
                  && a.rows[|t|].tokenHash == Sha256(random.raw)
                  && (a.headers == [] <==> lookup == LookupFailed))
  {
    RotateKeepsInv(t, raw, now, random);
    var rotation := RotatedTable(t, raw, now, random).1;
    var a := RefreshAnswer(t, env, Some(raw), now, random, csrf, lookup, signed);
    if rotation.Success? {
      RotationLeavesOneLive(t, raw, now, random, i);
      if lookup == Gone {
        VanishedUserEndsTheChain(t, raw, now, random, i);
        assert forall j: nat :: !LiveInChain(a.rows, i, j, now);
      } else {
        assert LiveInChain(a.rows, i, |t|, now);
      }
    } else if t[i].IsRevoked() {
      ReplayWipesTheChain(t, raw, now, random);
      assert forall j: nat :: !LiveInChain(a.rows, i, j, now);
    } else {
      forall j: nat ensures !LiveInChain(t, i, j, now) {
        ExpiredTailMeansNoneLive(t, i, j, now);
      }
    }
  }

  /**
   * A 401 for a known token is final: in no later run, on a clock that does not go back, is any token of
   * that chain accepted or added. After a replay or a vanished user this holds whatever the clock says.
   */
  lemma RefusalIsFinal(t: Table, env: Env, raw: string, now: Time, random: Random, csrf: string,
                       lookup: UserLookup, signed: bool, i: nat, ops: seq<Op>)
    requires Inv(t) && Unused(t, random) && raw != "" && Row(t, raw) == Some(i)
    requires RefreshAnswer(t, env, Some(raw), now, random, csrf, lookup, signed).status == Unauthorized401
    requires Legal(RefreshAnswer(t, env, Some(raw), now, random, csrf, lookup, signed).rows, ops)
    requires RefreshAnswer(t, env, Some(raw), now, random, csrf, lookup, signed).headers == [] ==> NotBefore(ops, Some(now))
    ensures var a := RefreshAnswer(t, env, Some(raw), now, random, csrf, lookup, signed);
            var u := Run(a.rows, ops);
            && Inv(u) && i < |u| && ChainWithin(u, i, |a.rows|)
            && ClosedChain(u, i, if a.headers == [] then Some(now) else None)
  {
    var a := RefreshAnswer(t, env, Some(raw), now, random, csrf, lookup, signed);
    RefreshLeavesAtMostOneLive(t, env, raw, now, random, csrf, lookup, signed, i);
    if a.headers == [] {
      forall j: nat | j < |a.rows| && SameChain(a.rows, i, j) ensures a.rows[j].IsRevoked() || a.rows[j].expiresAt <= now {
        assert !LiveInChain(a.rows, i, j, now);
      }
      ClosedChainStaysClosed(a.rows, ops, i, Some(now));
    } else {
      if RotatedTable(t, raw, now, random).1.Success? {
        VanishedUserEndsTheChain(t, raw, now, random, i);
      } else {
        ReplayWipesTheChain(t, raw, now, random);
      }
      ClosedChainStaysClosed(a.rows, ops, i, None);
    }
  }

  /** The 200 answer puts that one live token in the jar: it is what the next /v1/auth request carries. */
  lemma OkRefreshReachesTheBrowser(t: Table, site: Site, env: Env, jar: Jar, raw: string, now: Time, random: Random,
                                   csrf: string, request: string, https: bool, i: nat)
    requires Inv(t) && Unused(t, random) && raw != "" && Row(t, raw) == Some(i)
    requires Reached(site, env, jar) && Accepts(site, env) && UnderAuth(request) && (env.prod ==> https)
    requires RefreshAnswer(t, env, Some(raw), now, random, csrf, Found, true).status == Ok200
    ensures var a := RefreshAnswer(t, env, Some(raw), now, random, csrf, Found, true);
            var sent := Reads(ReceiveAll(jar, site.api, a.headers), Query(site.api, request, https, false), REFRESH_COOKIE_NAME);
            && sent.Some? && Row(a.rows, sent.value) == Some(|t|)
            && Inv(a.rows) && i < |a.rows| && LiveInChain(a.rows, i, |t|, now)
  {
    RotationLeavesOneLive(t, raw, now, random, i);
    SessionCookiesReachTheApi(site, env, jar, random.raw, csrf, request, https);
  }

  /**
   * Logout always empties the jar of our cookies, but it ends the session on the server exactly when the
   * presented token is not already revoked: logging out with a rotated token leaves the successor live.
   */
  lemma LogoutEndsTheChainIff(t: Table, raw: string, now: Time, i: nat)
    requires Inv(t) && raw != "" && Row(t, raw) == Some(i)
    ensures var u := LoggedOutRows(t, Some(raw), now);
            Inv(u) && i < |u| && (DeadChain(u, i) <==> !t[i].IsRevoked() || DeadChain(t, i))
  {
    var u := LoggedOutRows(t, Some(raw), now);
    MarkKeepsInv(t, {t[i].id}, LoggedOut, now);
    if !t[i].IsRevoked() {
      forall j: nat | j < |u| && SameChain(u, i, j) ensures u[j].IsRevoked() {
        RootStable(t, u, i);
        RootStable(t, u, j);
        OneLiveTokenPerChain(t, i, j);
      }
    }
  }

  // ---------------------------------------------------------------- whole sessions

  /** Login starts a chain of its own with one live token. */
  lemma LoginStartsAChain(t: Table, user: User, now: Time, random: Random)
    requires Inv(t) && Unused(t, random)
    ensures var u := IssuedTable(t, user, now, random);
            && Inv(u) && Row(u, random.raw) == Some(|t|) && u[|t|].userId == user
            && forall j: nat :: LiveInChain(u, |t|, j, now) <==> j == |t|
  {
    var u := IssuedTable(t, user, now, random);
    InsertKeepsInv(t, NewToken(user, None, now, random));
    RowOf(u, random.raw, |t|);
    assert Root(u, |t|) == |t|;
  }

  /**
   * If the answer to a successful refresh is lost, the browser's next refresh looks like a replay: it is
   * refused and the chain, with the successor the browser never saw, is revoked.
   */
  lemma LostAnswerEndsTheSession(t: Table, env: Env, raw: string, now: Time, later: Time, first: Random, second: Random,
                                 csrf: string, lookup: UserLookup, signed: bool, i: nat)
    requires Inv(t) && Unused(t, first) && raw != "" && Row(t, raw) == Some(i)
    requires RefreshAnswer(t, env, Some(raw), now, first, csrf, Found, true).status == Ok200
    requires Unused(RefreshAnswer(t, env, Some(raw), now, first, csrf, Found, true).rows, second)
    ensures var lost := RefreshAnswer(t, env, Some(raw), now, first, csrf, Found, true);
            var retry := RefreshAnswer(lost.rows, env, Some(raw), later, second, csrf, lookup, signed);
            && retry.status == Unauthorized401 && retry.headers == ClearAuthHeaders(env)
            && Inv(retry.rows) && i < |retry.rows| && DeadChain(retry.rows, i)
  {
    var lost := RefreshAnswer(t, env, Some(raw), now, first, csrf, Found, true);
    RotationLeavesOneLive(t, raw, now, first, i);
    RotateKeepsInv(t, raw, now, first);
    RowOf(lost.rows, raw, i);
    assert Follows(lost.rows, |t|, i);
    ReplayWipesTheChain(lost.rows, raw, later, second);
  }

  /** The operation does not present a token of row i's chain. */
  ghost predicate Foreign(t: Table, i: nat, op: Op)
    requires LinksBack(t) && i < |t|
  {
    op.Issue? || Row(t, op.raw).None? || !SameChain(t, i, Row(t, op.raw).value)
  }

  /** Whatever others do with their own tokens, including a replay, leaves this row alone. */
  lemma ForeignStepKeepsRow(t: Table, op: Op, i: nat)
    requires Inv(t) && Legal(t, [op]) && i < |t| && Foreign(t, i, op)
    ensures Inv(Apply(t, op)) && i < |Apply(t, op)| && Apply(t, op)[i] == t[i]
  {
    ApplyKeepsInv(t, op);
    if !op.Issue? && Row(t, op.raw).Some? {
      var k := Row(t, op.raw).value;
      assert k != i;
      WalkIsTheChain(t, k);
      InChainIds(t, k, i);
      assert t[k].id != t[i].id;
    }
  }

  ghost predicate AllForeign(t: Table, i: nat, ops: seq<Op>)
    decreases |ops|
  {
    ops == [] || (Inv(t) && i < |t| && Foreign(t, i, ops[0]) && AllForeign(Apply(t, ops[0]), i, ops[1..]))
  }

  lemma {:induction false} ForeignRunKeepsRow(t: Table, ops: seq<Op>, i: nat)
    requires Inv(t) && Legal(t, ops) && i < |t| && AllForeign(t, i, ops)
    ensures Inv(Run(t, ops)) && i < |Run(t, ops)| && Run(t, ops)[i] == t[i]
    decreases |ops|
  {
    if ops != [] {
      assert [ops[0]][1..] == [];
      ForeignStepKeepsRow(t, ops[0], i);
      ForeignRunKeepsRow(Apply(t, ops[0]), ops[1..], i);
    }
  }

  /** What happens elsewhere, then this browser's next refresh. */
  datatype Visit = Visit(others: seq<Op>, now: Time, random: Random, csrf: string)

  ghost function VisitAnswer(t: Table, env: Env, raw: string, v: Visit): Answer {
    RefreshAnswer(Run(t, v.others), env, Some(raw), v.now, v.random, v.csrf, Found, true)
  }

  /** Every visit comes before the cookie's expiry, and nobody else presents a token of this session. */
  ghost predicate Undisturbed(t: Table, env: Env, raw: string, i: nat, visits: seq<Visit>)
    decreases |visits|
  {
    visits == [] || (
      var v := visits[0];
      && i < |t| && v.now < t[i].expiresAt
      && Legal(t, v.others) && AllForeign(t, i, v.others)
      && Unused(Run(t, v.others), v.random) && v.random.raw != ""
      && Undisturbed(VisitAnswer(t, env, raw, v).rows, env, v.random.raw, |Run(t, v.others)|, visits[1..]))
  }

  ghost predicate AllOk(t: Table, env: Env, raw: string, visits: seq<Visit>)
    decreases |visits|
  {
    visits == [] || (
      var a := VisitAnswer(t, env, raw, visits[0]);
      a.status == Ok200 && AllOk(a.rows, env, visits[0].random.raw, visits[1..]))
  }

  /** Such a browser, sending back the cookie it was last given, stays logged in for ever. */
  lemma {:induction false} HonestSessionStaysLoggedIn(t: Table, env: Env, raw: string, i: nat, visits: seq<Visit>)
    requires Inv(t) && raw != "" && Row(t, raw) == Some(i) && !t[i].IsRevoked()
    requires Undisturbed(t, env, raw, i, visits)
    ensures AllOk(t, env, raw, visits)
    decreases |visits|
  {
    if visits != [] {
      var v := visits[0];
      var u := Run(t, v.others);
      ForeignRunKeepsRow(t, v.others, i);
      RowOf(u, raw, i);
      assert u[i].IsActive(v.now);
      RotationLeavesOneLive(u, raw, v.now, v.random, i);
      HonestSessionStaysLoggedIn(VisitAnswer(t, env, raw, v).rows, env, v.random.raw, |u|, visits[1..]);
    }
  }

  /**
   * The operation spends or ends the live row i: it rotates that row in time, even if it crashes half-way,
   * logs it out, or replays an older token of its chain.
   */
  ghost predicate Ends(t: Table, i: nat, op: Op)
    requires LinksBack(t) && i < |t|
  {
    match op
    case Issue(_, _, _) => false
    case Rotate(raw, now, _) =>
      var k := Row(t, raw);
      k.Some? && SameChain(t, i, k.value) && (k == Some(i) ==> t[i].IsActive(now))
    case CrashedRotate(raw, now) => Row(t, raw) == Some(i) && t[i].IsActive(now)
    case Revoke(raw, _) => Row(t, raw) == Some(i)
  }

  lemma StepRevokesIff(t: Table, op: Op, i: nat)
    requires Inv(t) && Legal(t, [op]) && i < |t| && !t[i].IsRevoked()
    ensures i < |Apply(t, op)| && (Apply(t, op)[i].IsRevoked() <==> Ends(t, i, op))
  {
    if Foreign(t, i, op) {
      ForeignStepKeepsRow(t, op, i);
    } else {
      var k := Row(t, op.raw).value;
      OneLiveTokenPerChain(t, i, k);
      if op.Rotate? && k != i {
        ReplayWipesTheChain(t, op.raw, op.now, op.random);
      }
    }
  }

  ghost predicate EndedBy(t: Table, i: nat, ops: seq<Op>)
    decreases |ops|
  {
    ops != [] && LinksBack(t) && i < |t| && (Ends(t, i, ops[0]) || EndedBy(Apply(t, ops[0]), i, ops[1..]))
  }

  lemma {:induction false} RunRevokesIff(t: Table, ops: seq<Op>, i: nat)
    requires Inv(t) && Legal(t, ops) && i < |t| && !t[i].IsRevoked()
    ensures Inv(Run(t, ops)) && Extends(t, Run(t, ops))
    ensures Run(t, ops)[i].IsRevoked() <==> EndedBy(t, i, ops)
    decreases |ops|
  {
    RunKeepsInv(t, ops);
    if ops != [] {
      assert [ops[0]][1..] == [];
      var next := Apply(t, ops[0]);
      ApplyKeepsInv(t, ops[0]);
      StepRevokesIff(t, ops[0], i);
      if next[i].IsRevoked() {
        RunKeepsInv(next, ops[1..]);
      } else {
        RunRevokesIff(next, ops[1..], i);
      }
    }
  }

  /** A visit with the session's live token is answered 200 exactly when it comes in time and no one ended the token. */
  lemma VisitAcceptedIff(t: Table, env: Env, raw: string, i: nat, v: Visit)
    requires Inv(t) && raw != "" && Row(t, raw) == Some(i) && !t[i].IsRevoked() && Legal(t, v.others)
    ensures VisitAnswer(t, env, raw, v).status == Ok200 <==> v.now < t[i].expiresAt && !EndedBy(t, i, v.others)
    ensures VisitAnswer(t, env, raw, v).status in {Ok200, Unauthorized401}
    ensures Inv(Run(t, v.others)) && Row(Run(t, v.others), raw) == Some(i)
  {
    RunRevokesIff(t, v.others, i);
    RowOf(Run(t, v.others), raw, i);
  }

  /** The random values of every visit and of everyone else are fresh. */
  ghost predicate FreshVisits(t: Table, env: Env, raw: string, visits: seq<Visit>)
    decreases |visits|
  {
    visits == [] || (
      var v := visits[0];
      && Legal(t, v.others) && Unused(Run(t, v.others), v.random) && v.random.raw != ""
      && FreshVisits(VisitAnswer(t, env, raw, v).rows, env, v.random.raw, visits[1..]))
  }

  /** No visit is late and no one else ends the token the browser holds at that time. */
  ghost predicate NeverCut(t: Table, env: Env, raw: string, i: nat, visits: seq<Visit>)
    decreases |visits|
  {
    visits == [] || (
      var v := visits[0];
      && i < |t| && v.now < t[i].expiresAt && !EndedBy(t, i, v.others)
      && NeverCut(VisitAnswer(t, env, raw, v).rows, env, v.random.raw, |Run(t, v.others)|, visits[1..]))
  }

  /** A browser that sends back the cookie it was last given is answered 200 at every visit exactly then. */
  lemma {:induction false} SessionStaysLoggedInIff(t: Table, env: Env, raw: string, i: nat, visits: seq<Visit>)
    requires Inv(t) && raw != "" && Row(t, raw) == Some(i) && !t[i].IsRevoked()
    requires FreshVisits(t, env, raw, visits)
    ensures AllOk(t, env, raw, visits) <==> NeverCut(t, env, raw, i, visits)
    decreases |visits|
  {
    if visits != [] {
      var v := visits[0];
      VisitAcceptedIff(t, env, raw, i, v);
      if VisitAnswer(t, env, raw, v).status == Ok200 {
        RotationLeavesOneLive(Run(t, v.others), raw, v.now, v.random, i);
        SessionStaysLoggedInIff(VisitAnswer(t, env, raw, v).rows, env, v.random.raw, |Run(t, v.others)|, visits[1..]);
      }
    }
  }
}
