/**
 * Single-use confirmation tokens: apps/api/src/auth/email-confirmation.service.ts over the repository in
 * libs/core/src/users. Each repository statement is atomic; everything between two statements of one
 * request may be interleaved with any other request. A random raw token stands for its own hash.
 */
module EmailConfirmation {
  import opened Wrappers

  type RawToken = string
  type User = string
  type Time = int
  type Thread = nat

  datatype Row = Row(userId: User, expiresAt: Time, usedAt: Option<Time>)

  type Tokens = map<RawToken, Row>

  datatype UserStatus = PendingConfirmation | Active | OtherStatus

  // ---------------------------------------------------------------- atomic statements

  predicate Live(r: Row, now: Time) {
    r.usedAt.None? && r.expiresAt > now
  }

  /** UPDATE ... SET used_at WHERE token_hash AND used_at IS NULL AND expires_at > now RETURNING user_id. */
  function Consumed(t: Tokens, raw: RawToken, now: Time): (Tokens, Option<User>) {
    if raw in t && Live(t[raw], now) then (t[raw := t[raw].(usedAt := Some(now))], Some(t[raw].userId)) else (t, None)
  }

  function Invalidated(t: Tokens, user: User, now: Time): Tokens {
    map raw | raw in t :: if t[raw].userId == user && t[raw].usedAt.None? then t[raw].(usedAt := Some(now)) else t[raw]
  }

  function Saved(t: Tokens, raw: RawToken, user: User, expiresAt: Time): Tokens {
    t[raw := Row(user, expiresAt, None)]
  }

  class TokenRepository {
    var tokens: Tokens

    constructor ()
      ensures tokens == map[]
    {
      tokens := map[];
    }

    method Save(user: User, raw: RawToken, expiresAt: Time)
      modifies this
      ensures tokens == Saved(old(tokens), raw, user, expiresAt) == old(tokens)[raw := Row(user, expiresAt, None)]
    {
      tokens := tokens[raw := Row(user, expiresAt, None)];
    }

    method ConsumeToken(raw: RawToken, now: Time) returns (user: Option<User>)
      modifies this
      ensures (tokens, user) == Consumed(old(tokens), raw, now)
      ensures user.Some? <==> raw in old(tokens) && old(tokens)[raw].usedAt == None && now < old(tokens)[raw].expiresAt
      ensures user.Some? ==> && user.value == old(tokens)[raw].userId
                             && tokens == old(tokens)[raw := old(tokens)[raw].(usedAt := Some(now))]
      ensures user.None? ==> tokens == old(tokens)
    {
      if raw in tokens && tokens[raw].usedAt.None? && tokens[raw].expiresAt > now {
        user := Some(tokens[raw].userId);
        tokens := tokens[raw := tokens[raw].(usedAt := Some(now))];
      } else {
        user := None;
      }
    }

    method InvalidateActiveForUser(user: User, now: Time)
      modifies this
      ensures tokens == Invalidated(old(tokens), user, now) && tokens.Keys == old(tokens).Keys
      ensures forall raw :: raw in old(tokens) ==>
                tokens[raw] == if old(tokens)[raw].userId == user && old(tokens)[raw].usedAt == None
                               then old(tokens)[raw].(usedAt := Some(now)) else old(tokens)[raw]
    {
      tokens := map raw | raw in tokens ::
        if tokens[raw].userId == user && tokens[raw].usedAt.None? then tokens[raw].(usedAt := Some(now)) else tokens[raw];
    }
  }

  datatype Confirmation = Confirmed(user: User) | InvalidToken

  class EmailConfirmationService {
    const tokenRepository: TokenRepository
    var users: map<User, UserStatus>

    constructor (tokenRepository: TokenRepository, users: map<User, UserStatus>)
      ensures this.tokenRepository == tokenRepository && this.users == users
    {
      this.tokenRepository, this.users := tokenRepository, users;
    }

    /** One request run without interruption: succeeds exactly for a live token of a pending user. */
    method ConfirmEmail(token: RawToken, now: Time) returns (result: Confirmation)
      modifies tokenRepository, this
      ensures result.Confirmed? <==>
                && token != "" && token in old(tokenRepository.tokens)
                && old(tokenRepository.tokens)[token].usedAt == None && now < old(tokenRepository.tokens)[token].expiresAt
                && old(users).Keys >= {old(tokenRepository.tokens)[token].userId}
                && old(users)[old(tokenRepository.tokens)[token].userId] == PendingConfirmation
      ensures result.Confirmed? ==> result.user == old(tokenRepository.tokens)[token].userId
                                    && users == old(users)[result.user := Active]
      ensures !result.Confirmed? ==> users == old(users)
      ensures tokenRepository.tokens == if token == "" then old(tokenRepository.tokens)
                                        else Consumed(old(tokenRepository.tokens), token, now).0
    {
      if token == "" {
        return InvalidToken;
      }
      var userId := tokenRepository.ConsumeToken(token, now);
      if userId.None? {
        return InvalidToken;
      }
      if userId.value !in users || users[userId.value] != PendingConfirmation {
        return InvalidToken;
      }
      users := users[userId.value := Active];
      result := Confirmed(userId.value);
    }

    /** One resend run without interruption: the fresh token is the user's only unused one. */
    method ResendConfirmation(user: User, raw: RawToken, now: Time, ttl: int)
      requires raw !in tokenRepository.tokens
      modifies tokenRepository
      ensures if user in users && users[user] == PendingConfirmation then
                && tokenRepository.tokens == Saved(Invalidated(old(tokenRepository.tokens), user, now), raw, user, now + ttl)
                && UnusedOf(tokenRepository.tokens, user) == {raw}
                && raw in tokenRepository.tokens && tokenRepository.tokens[raw] == Row(user, now + ttl, None)
                && forall other :: other in old(tokenRepository.tokens) ==>
                     && other in tokenRepository.tokens
                     && tokenRepository.tokens[other]
                        == if old(tokenRepository.tokens)[other].userId == user && old(tokenRepository.tokens)[other].usedAt == None
                           then old(tokenRepository.tokens)[other].(usedAt := Some(now)) else old(tokenRepository.tokens)[other]
              else tokenRepository.tokens == old(tokenRepository.tokens)
    {
      if user !in users || users[user] != PendingConfirmation {
        return;
      }
      tokenRepository.InvalidateActiveForUser(user, now);
      tokenRepository.Save(user, raw, now + ttl);
    }
  }

  ghost function UnusedOf(t: Tokens, user: User): set<RawToken> {
    set raw | raw in t && t[raw].userId == user && t[raw].usedAt.None?
  }

  // ---------------------------------------------------------------- interleaved requests

  /** Where a request stands between its atomic steps. */
  datatype Pc =
    | Confirming(raw: RawToken)              // about to consume
    | Activating(raw: RawToken, user: User)  // consumed, about to call the activation, which reads the status
    | Writing(user: User)                    // the activation has read `pending`, about to write `active`
    | Resending(user: User)                  // found the pending user, about to invalidate
    | Sending(user: User)                    // about to save a new token (resend or registration)
    | Ended

  /** `accepted` and `activations` log, in order, the tokens consumed and those that reached the activation call. */
  datatype State = State(
    tokens: Tokens, users: map<User, UserStatus>, threads: map<Thread, Pc>,
    accepted: seq<RawToken>, activations: seq<RawToken>, confirmed: seq<User>)

  datatype Event =
    | StartConfirm(thread: Thread, raw: RawToken)
    | Consume(thread: Thread, now: Time)
    | ReadStatus(thread: Thread)
    | WriteStatus(thread: Thread)
    | StartResend(thread: Thread, user: User)
    | Invalidate(thread: Thread, now: Time)
    | Save(thread: Thread, raw: RawToken, expiresAt: Time)
    | Registered(thread: Thread, user: User)
    | StatusChanged(user: User, status: UserStatus)

  predicate Enabled(s: State, e: Event) {
    match e
    case StartConfirm(thread, raw) => thread !in s.threads && raw != ""
    case Consume(thread, _) => thread in s.threads && s.threads[thread].Confirming?
    case ReadStatus(thread) => thread in s.threads && s.threads[thread].Activating?
    case WriteStatus(thread) => thread in s.threads && s.threads[thread].Writing?
    case StartResend(thread, user) => thread !in s.threads && user in s.users && s.users[user] == PendingConfirmation
    case Invalidate(thread, _) => thread in s.threads && s.threads[thread].Resending?
    case Save(thread, raw, _) => thread in s.threads && s.threads[thread].Sending? && raw !in s.tokens
    case Registered(thread, user) => thread !in s.threads && user !in s.users
    case StatusChanged(user, status) => user in s.users && status != PendingConfirmation
  }

  function Step(s: State, e: Event): State
    requires Enabled(s, e)
  {
    match e
    case StartConfirm(thread, raw) => s.(threads := s.threads[thread := Confirming(raw)])
    case Consume(thread, now) =>
      var raw := s.threads[thread].raw;
      var (tokens, user) := Consumed(s.tokens, raw, now);
      if user.None? then s.(threads := s.threads[thread := Ended])
      else s.(tokens := tokens, threads := s.threads[thread := Activating(raw, user.value)], accepted := s.accepted + [raw])
    case ReadStatus(thread) =>
      var pc := s.threads[thread];
      var pending := pc.user in s.users && s.users[pc.user] == PendingConfirmation;
      s.(threads := s.threads[thread := if pending then Writing(pc.user) else Ended], activations := s.activations + [pc.raw])
    case WriteStatus(thread) =>
      var user := s.threads[thread].user;
      s.(users := s.users[user := Active], threads := s.threads[thread := Ended], confirmed := s.confirmed + [user])
    case StartResend(thread, user) => s.(threads := s.threads[thread := Resending(user)])
    case Invalidate(thread, now) =>
      var user := s.threads[thread].user;
      s.(tokens := Invalidated(s.tokens, user, now), threads := s.threads[thread := Sending(user)])
    case Save(thread, raw, expiresAt) =>
      s.(tokens := Saved(s.tokens, raw, s.threads[thread].user, expiresAt), threads := s.threads[thread := Ended])
    case Registered(thread, user) =>
      s.(users := s.users[user := PendingConfirmation], threads := s.threads[thread := Sending(user)])
    case StatusChanged(user, status) => s.(users := s.users[user := status])
  }

  /** A schedule: events that are not enabled are skipped, so every sequence of events is a run. */
  function Run(s: State, events: seq<Event>): State
    decreases |events|
  {
    if events == [] then s else Run(Next(s, events[0]), events[1..])
  }

  function Next(s: State, e: Event): State {
    if Enabled(s, e) then Step(s, e) else s
  }

  const INITIAL := State(map[], map[], map[], [], [], [])

  ghost predicate NoRepeat<T>(log: seq<T>) {
    forall i, j :: 0 <= i < j < |log| ==> log[i] != log[j]
  }

  ghost predicate Inv(s: State) {
    // an accepted token exists and is used; it is accepted once
    && NoRepeat(s.accepted)
    && (forall raw :: raw in s.accepted ==> raw in s.tokens && s.tokens[raw].usedAt.Some?)
    // each accepted token is either held by one activating request or already through, never both
    && NoRepeat(s.activations)
    && (forall raw :: raw in s.activations ==> raw in s.accepted)
    && (forall h :: h in s.threads && s.threads[h].Activating? ==>
          s.threads[h].raw in s.accepted && s.threads[h].raw !in s.activations)
    && (forall h, k :: h in s.threads && k in s.threads && h != k && s.threads[h].Activating? && s.threads[k].Activating? ==>
          s.threads[h].raw != s.threads[k].raw)
    // a confirmed account is never pending again; accounts are not removed
    && (forall u :: u in s.confirmed ==> u in s.users && s.users[u] != PendingConfirmation)
    && (forall h :: h in s.threads && s.threads[h].Writing? ==> s.threads[h].user in s.users)
  }

  lemma AppendNoRepeat<T>(log: seq<T>, x: T)
    requires NoRepeat(log) && x !in log
    ensures NoRepeat(log + [x])
  {
  }

  lemma ConsumeKeepsInv(s: State, e: Event)
    requires Inv(s) && e.Consume? && Enabled(s, e)
    ensures Inv(Step(s, e))
  {
    var raw := s.threads[e.thread].raw;
    if Consumed(s.tokens, raw, e.now).1.Some? {
      AppendNoRepeat(s.accepted, raw);
    }
  }

  lemma ReadStatusKeepsInv(s: State, e: Event)
    requires Inv(s) && e.ReadStatus? && Enabled(s, e)
    ensures Inv(Step(s, e))
  {
    AppendNoRepeat(s.activations, s.threads[e.thread].raw);
  }

  lemma NextKeepsInv(s: State, e: Event)
    requires Inv(s)
    ensures Inv(Next(s, e))
  {
    if Enabled(s, e) {
      if e.Consume? {
        ConsumeKeepsInv(s, e);
      } else if e.ReadStatus? {
        ReadStatusKeepsInv(s, e);
      }
    }
  }

  lemma {:induction false} RunKeepsInv(s: State, events: seq<Event>)
    requires Inv(s)
    ensures Inv(Run(s, events))
    decreases |events|
  {
    if events != [] {
      NextKeepsInv(s, events[0]);
      RunKeepsInv(Next(s, events[0]), events[1..]);
    }
  }

  /** Under every interleaving each issued token is accepted at most once and reaches the activation at most once. */
  lemma EveryInterleavingIsSingleUse(events: seq<Event>)
    ensures var r := Run(INITIAL, events);
            NoRepeat(r.accepted) && NoRepeat(r.activations) && forall raw :: raw in r.activations ==> raw in r.accepted
  {
    RunKeepsInv(INITIAL, events);
  }

  // ---------------------------------------------------------------- how often an account is confirmed

  predicate AboutToWrite(s: State, h: Thread, user: User) {
    h in s.threads && s.threads[h] == Writing(user)
  }

  /** Some request, other than `except`, has read the account as pending and its write is still to come. */
  ghost predicate WriteToCome(s: State, user: User, except: Thread, events: seq<Event>) {
    exists k :: k != except && AboutToWrite(s, k, user) && WriteStatus(k) in events
  }

  /** In the schedule a request writes `active` between another request's status read and its write. */
  ghost predicate Overtaken(s: State, events: seq<Event>)
    decreases |events|
  {
    events != [] &&
    (|| (events[0].WriteStatus? && Enabled(s, events[0])
         && WriteToCome(s, s.threads[events[0].thread].user, events[0].thread, events[1..]))
     || Overtaken(Next(s, events[0]), events[1..]))
  }

  lemma {:induction false} ConfirmedGrows(s: State, events: seq<Event>)
    ensures s.confirmed <= Run(s, events).confirmed
    decreases |events|
  {
    if events != [] {
      ConfirmedGrows(Next(s, events[0]), events[1..]);
    }
  }

  /** A confirmed account still has a write to come. */
  ghost predicate LateWrite(s: State, events: seq<Event>) {
    exists k, u :: u in s.confirmed && AboutToWrite(s, k, u) && WriteStatus(k) in events
  }

  lemma LateWriteStep(s: State, events: seq<Event>)
    requires Inv(s) && events != [] && !(events[0].WriteStatus? && Enabled(s, events[0]))
    ensures LateWrite(Next(s, events[0]), events[1..]) <==> LateWrite(s, events)
  {
    var s', rest := Next(s, events[0]), events[1..];
    forall k, u | u in s.confirmed
      ensures AboutToWrite(s', k, u) && WriteStatus(k) in rest <==> AboutToWrite(s, k, u) && WriteStatus(k) in events
    {
    }
  }

  lemma LateWriteAfterWrite(s: State, events: seq<Event>)
    requires Inv(s) && events != [] && events[0].WriteStatus? && Enabled(s, events[0])
    requires s.threads[events[0].thread].user !in s.confirmed
    ensures LateWrite(Next(s, events[0]), events[1..])
       <==> LateWrite(s, events) || WriteToCome(s, s.threads[events[0].thread].user, events[0].thread, events[1..])
  {
    var h, s', rest := events[0].thread, Next(s, events[0]), events[1..];
    var user := s.threads[h].user;
    forall k, u ensures AboutToWrite(s', k, u) <==> k != h && AboutToWrite(s, k, u) {
    }
    forall k | k != h ensures WriteStatus(k) in rest <==> WriteStatus(k) in events {
    }
    if LateWrite(s', rest) {
      var k, u :| u in s'.confirmed && AboutToWrite(s', k, u) && WriteStatus(k) in rest;
      assert AboutToWrite(s, k, u);
      assert u == user || u in s.confirmed;
    }
    if k, u :| u in s.confirmed && AboutToWrite(s, k, u) && WriteStatus(k) in events {
      assert AboutToWrite(s', k, u) && u in s'.confirmed;
    }
    if k :| k != h && AboutToWrite(s, k, user) && WriteStatus(k) in rest {
      assert AboutToWrite(s', k, user) && user in s'.confirmed;
    }
  }

  lemma {:induction false} ConfirmedOnceFromIff(s: State, events: seq<Event>)
    requires Inv(s) && NoRepeat(s.confirmed)
    ensures NoRepeat(Run(s, events).confirmed) <==> !Overtaken(s, events) && !LateWrite(s, events)
    decreases |events|
  {
    if events != [] {
      var e, s', rest := events[0], Next(s, events[0]), events[1..];
      NextKeepsInv(s, e);
      if e.WriteStatus? && Enabled(s, e) {
        var user := s.threads[e.thread].user;
        if user in s.confirmed {
          assert AboutToWrite(s, e.thread, user);
          ConfirmedGrows(s', rest);
          var i :| 0 <= i < |s.confirmed| && s.confirmed[i] == user;
          assert s'.confirmed[i] == s'.confirmed[|s.confirmed|] == user;
        } else {
          AppendNoRepeat(s.confirmed, user);
          ConfirmedOnceFromIff(s', rest);
          LateWriteAfterWrite(s, events);
        }
      } else {
        ConfirmedOnceFromIff(s', rest);
        LateWriteStep(s, events);
      }
    }
  }

  /**
   * In every schedule from the start, each account is confirmed at most once exactly when no request writes
   * between another's status read and its write.
   */
  lemma ConfirmedOnceIff(events: seq<Event>)
    ensures NoRepeat(Run(INITIAL, events).confirmed) <==> !Overtaken(INITIAL, events)
  {
    ConfirmedOnceFromIff(INITIAL, events);
  }

  lemma {:induction false} WriterWaits(s: State, h: Thread, user: User, between: seq<Event>)
    requires AboutToWrite(s, h, user) && WriteStatus(h) !in between
    ensures AboutToWrite(Run(s, between), h, user)
    decreases |between|
  {
    if between != [] {
      WriterWaits(Next(s, between[0]), h, user, between[1..]);
    }
  }

  /** The write is unconditional: whatever was decided about the account since the read, it ends active. */
  lemma WriteDiscardsWhatCameBetween(s: State, h: Thread, user: User, between: seq<Event>)
    requires AboutToWrite(s, h, user) && WriteStatus(h) !in between
    ensures var r := Run(s, between + [WriteStatus(h)]);
            user in r.users && r.users[user] == Active && user in r.confirmed
  {
    WriterWaits(s, h, user, between);
    RunConcat(s, between, [WriteStatus(h)]);
    RunCons(Run(s, between), WriteStatus(h), []);
    assert [WriteStatus(h)] + [] == [WriteStatus(h)];
    var t := Run(s, between);
    var r := Step(t, WriteStatus(h));
    assert r.confirmed[|t.confirmed|] == user;
  }

  lemma {:induction false} RunConcat(s: State, first: seq<Event>, second: seq<Event>)
    ensures Run(s, first + second) == Run(Run(s, first), second)
    decreases |first|
  {
    if first == [] {
      assert first + second == second;
    } else {
      assert (first + second)[1..] == first[1..] + second;
      RunConcat(Next(s, first[0]), first[1..], second);
    }
  }

  // ---------------------------------------------------------------- invalidation

  /** All of these tokens are known and used up. */
  ghost predicate Spent(s: State, earlier: set<RawToken>) {
    forall raw :: raw in earlier ==> raw in s.tokens && s.tokens[raw].usedAt.Some?
  }

  /** The accepted log grows only by tokens outside the set. */
  ghost predicate GrowsWithout(before: seq<RawToken>, after: seq<RawToken>, earlier: set<RawToken>) {
    before <= after && forall i :: |before| <= i < |after| ==> after[i] !in earlier
  }

  lemma {:induction false} SpentStaysSpent(s: State, events: seq<Event>, earlier: set<RawToken>)
    requires Spent(s, earlier)
    ensures Spent(Run(s, events), earlier) && GrowsWithout(s.accepted, Run(s, events).accepted, earlier)
    decreases |events|
  {
    if events != [] {
      SpentStaysSpent(Next(s, events[0]), events[1..], earlier);
    }
  }

  /** A token saved before a resend's invalidation is never accepted after it, in any continuation. */
  lemma InvalidationIsFinal(s: State, thread: Thread, now: Time, events: seq<Event>)
    requires Enabled(s, Invalidate(thread, now))
    ensures var user := s.threads[thread].user;
            var earlier := set raw | raw in s.tokens && s.tokens[raw].userId == user;
            GrowsWithout(s.accepted, Run(Step(s, Invalidate(thread, now)), events).accepted, earlier)
  {
    var user := s.threads[thread].user;
    SpentStaysSpent(Step(s, Invalidate(thread, now)), events, set raw | raw in s.tokens && s.tokens[raw].userId == user);
  }

  lemma RunCons(s: State, e: Event, rest: seq<Event>)
    requires Enabled(s, e)
    ensures Run(s, [e] + rest) == Run(Step(s, e), rest)
  {
    assert ([e] + rest)[1..] == rest;
  }

  // ---------------------------------------------------------------- which links a schedule leaves unused

  /** This event issues the link `raw` to the user. */
  predicate Issues(s: State, e: Event, user: User, raw: RawToken) {
    e.Save? && e.raw == raw && Enabled(s, e) && s.threads[e.thread].user == user
  }

  /** This event ends the link: a resend invalidates the user's links, or a confirmation accepts it in time. */
  predicate Revokes(s: State, e: Event, user: User, raw: RawToken) {
    && Enabled(s, e)
    && match e
       case Invalidate(thread, _) => s.threads[thread].user == user
       case Consume(thread, now) => s.threads[thread].raw == raw && raw in s.tokens && s.tokens[raw].expiresAt > now
       case _ => false
  }

  predicate Revoked(s: State, events: seq<Event>, user: User, raw: RawToken)
    decreases |events|
  {
    events != [] && (Revokes(s, events[0], user, raw) || Revoked(Next(s, events[0]), events[1..], user, raw))
  }

  /** The schedule issues this link and no later event of it ends the link. */
  predicate IssuedAndKept(s: State, events: seq<Event>, user: User, raw: RawToken)
    decreases |events|
  {
    events != [] &&
    (|| (Issues(s, events[0], user, raw) && !Revoked(Next(s, events[0]), events[1..], user, raw))
     || IssuedAndKept(Next(s, events[0]), events[1..], user, raw))
  }

  /** In every schedule the unused links are the ones it issued and kept, and the earlier ones it did not end. */
  lemma {:induction false} UnusedIff(s: State, events: seq<Event>, user: User, raw: RawToken)
    ensures raw in UnusedOf(Run(s, events).tokens, user)
       <==> || IssuedAndKept(s, events, user, raw)
            || (raw in UnusedOf(s.tokens, user) && !Revoked(s, events, user, raw))
    decreases |events|
  {
    if events != [] {
      var e, s', rest := events[0], Next(s, events[0]), events[1..];
      UnusedIff(s', rest, user, raw);
      assert raw in UnusedOf(s'.tokens, user)
        <==> Issues(s, e, user, raw) || (raw in UnusedOf(s.tokens, user) && !Revokes(s, e, user, raw));
      if raw in s'.tokens {
        KnownIsNotIssued(s', rest, user, raw);
      }
    }
  }

  lemma {:induction false} LinksKeepTheirColumns(s: State, events: seq<Event>, raw: RawToken)
    requires raw in s.tokens
    ensures var t := Run(s, events).tokens;
            raw in t && t[raw].userId == s.tokens[raw].userId && t[raw].expiresAt == s.tokens[raw].expiresAt
    decreases |events|
  {
    if events != [] {
      LinksKeepTheirColumns(Next(s, events[0]), events[1..], raw);
    }
  }

  /** A link is accepted exactly until it expires, unless something ended it since it was issued. */
  lemma LinkIsAcceptedIff(s: State, h: Thread, user: User, raw: RawToken, expiresAt: Time, between: seq<Event>,
                          k: Thread, now: Time)
    requires h in s.threads && s.threads[h] == Sending(user) && raw !in s.tokens && raw != ""
    requires k !in Run(Step(s, Save(h, raw, expiresAt)), between).threads
    ensures var issued := Step(s, Save(h, raw, expiresAt));
            var t := Run(issued, between);
            Run(t, [StartConfirm(k, raw)] + ([Consume(k, now)] + [])).accepted
            == if now < expiresAt && !Revoked(issued, between, user, raw) then t.accepted + [raw] else t.accepted
  {
    var issued := Step(s, Save(h, raw, expiresAt));
    var t := Run(issued, between);
    LinksKeepTheirColumns(issued, between, raw);
    UnusedIff(issued, between, user, raw);
    KnownIsNotIssued(issued, between, user, raw);
    assert raw in UnusedOf(t.tokens, user) <==> t.tokens[raw].usedAt.None?;
    var started := Step(t, StartConfirm(k, raw));
    RunCons(t, StartConfirm(k, raw), [Consume(k, now)] + []);
    RunCons(started, Consume(k, now), []);
  }

  lemma {:induction false} KnownIsNotIssued(s: State, events: seq<Event>, user: User, raw: RawToken)
    requires raw in s.tokens
    ensures raw in Run(s, events).tokens && !IssuedAndKept(s, events, user, raw)
    decreases |events|
  {
    if events != [] {
      KnownIsNotIssued(Next(s, events[0]), events[1..], user, raw);
    }
  }

  /** The account is past confirmation and no request is on its way to issue it a link. */
  ghost predicate NoLinksDue(s: State, user: User) {
    && user in s.users && s.users[user] != PendingConfirmation
    && forall h :: h in s.threads ==> s.threads[h] != Resending(user) && s.threads[h] != Sending(user)
  }

  lemma NextIssuesNoLink(s: State, user: User, e: Event)
    requires NoLinksDue(s, user)
    ensures NoLinksDue(Next(s, e), user)
    ensures forall raw :: raw in Next(s, e).tokens && Next(s, e).tokens[raw].userId == user ==>
              raw in s.tokens && s.tokens[raw].userId == user
  {
  }

  /** Only pending accounts are sent links: from then on, in every schedule, the account gets no new one. */
  lemma {:induction false} NoLinksAfterConfirmation(s: State, user: User, events: seq<Event>, raw: RawToken)
    requires NoLinksDue(s, user)
    requires var t := Run(s, events).tokens; raw in t && t[raw].userId == user
    ensures raw in s.tokens && s.tokens[raw].userId == user
    decreases |events|
  {
    if events != [] {
      NextIssuesNoLink(s, user, events[0]);
      NoLinksAfterConfirmation(Next(s, events[0]), user, events[1..], raw);
    }
  }

  /** The event is not the thread's own save. */
  predicate NotSaveOf(e: Event, h: Thread) {
    !(e.Save? && e.thread == h)
  }

  lemma {:induction false} SenderWaits(s: State, h: Thread, user: User, between: seq<Event>)
    requires h in s.threads && s.threads[h] == Sending(user) && forall e :: e in between ==> NotSaveOf(e, h)
    ensures h in Run(s, between).threads && Run(s, between).threads[h] == Sending(user)
    decreases |between|
  {
    if between != [] {
      assert NotSaveOf(between[0], h);
      SenderWaits(Next(s, between[0]), h, user, between[1..]);
    }
  }

  /**
   * A resend of thread h over all schedules: once its new link is saved, that link is the user's only unused
   * one exactly when every link another request issued between h's invalidation and h's save was ended
   * again before h's save. The other requests are those already past their own invalidation, or registering,
   * at h's invalidation, and those that got there later.
   */
  lemma NewestLinkIsTheOnlyOneIff(s: State, h: Thread, user: User, now: Time, between: seq<Event>,
                                  raw: RawToken, expiresAt: Time)
    requires h in s.threads && s.threads[h] == Resending(user) && forall e :: e in between ==> NotSaveOf(e, h)
    requires raw !in Run(Step(s, Invalidate(h, now)), between).tokens
    ensures var invalidated := Step(s, Invalidate(h, now));
            UnusedOf(Run(invalidated, between + [Save(h, raw, expiresAt)]).tokens, user) == {raw}
            <==> !exists other :: IssuedAndKept(invalidated, between, user, other)
  {
    var invalidated := Step(s, Invalidate(h, now));
    SenderWaits(invalidated, h, user, between);
    var t := Run(invalidated, between);
    RunConcat(invalidated, between, [Save(h, raw, expiresAt)]);
    RunCons(t, Save(h, raw, expiresAt), []);
    assert [Save(h, raw, expiresAt)] + [] == [Save(h, raw, expiresAt)];
    var after := UnusedOf(Run(invalidated, between + [Save(h, raw, expiresAt)]).tokens, user);
    assert after == UnusedOf(t.tokens, user) + {raw};
    forall other ensures other in UnusedOf(t.tokens, user) <==> IssuedAndKept(invalidated, between, user, other) {
      UnusedIff(invalidated, between, user, other);
    }
    if other :| IssuedAndKept(invalidated, between, user, other) {
      assert other in after && other != raw;
      assert exists o :: IssuedAndKept(invalidated, between, user, o);
    } else {
      assert UnusedOf(t.tokens, user) == {};
    }
  }

  /** No other request is about to issue a link to the user. */
  ghost predicate SoleSender(s: State, h: Thread, user: User) {
    forall k :: k in s.threads && s.threads[k] == Sending(user) ==> k == h
  }

  /** In every continuation without a further resend of this user's links, at most one is unused. */
  ghost predicate NeverTwoLinks(s: State, user: User) {
    forall events :: NoInvalidation(s, events, user) ==> AtMostOneLink(Run(s, events), user)
  }

  ghost predicate AtMostOneLink(s: State, user: User) {
    forall a, b :: a in UnusedOf(s.tokens, user) && b in UnusedOf(s.tokens, user) ==> a == b
  }

  predicate NoInvalidation(s: State, events: seq<Event>, user: User)
    decreases |events|
  {
    events == [] ||
    (&& !(events[0].Invalidate? && Enabled(s, events[0]) && s.threads[events[0].thread].user == user)
     && NoInvalidation(Next(s, events[0]), events[1..], user))
  }

  /** One link at most, and none as long as the one request that may issue one has not. */
  ghost predicate OneLinkAtMost(s: State, h: Thread, user: User) {
    && user in s.users && SoleSender(s, h, user) && AtMostOneLink(s, user)
    && (h in s.threads && s.threads[h] == Sending(user) ==> UnusedOf(s.tokens, user) == {})
  }

  lemma NextKeepsOneLink(s: State, h: Thread, user: User, e: Event)
    requires OneLinkAtMost(s, h, user)
    requires !(e.Invalidate? && Enabled(s, e) && s.threads[e.thread].user == user)
    ensures OneLinkAtMost(Next(s, e), h, user)
  {
    assert forall raw :: raw in UnusedOf(Next(s, e).tokens, user) ==> raw in UnusedOf(s.tokens, user) || Issues(s, e, user, raw);
  }

  lemma {:induction false} SoleSenderLeavesOneLink(s: State, h: Thread, user: User, events: seq<Event>)
    requires OneLinkAtMost(s, h, user) && NoInvalidation(s, events, user)
    ensures AtMostOneLink(Run(s, events), user)
    decreases |events|
  {
    if events != [] {
      NextKeepsOneLink(s, h, user, events[0]);
      SoleSenderLeavesOneLink(Next(s, events[0]), h, user, events[1..]);
    }
  }

  /**
   * The promise as a condition on the other requests at h's invalidation: however the run goes on, short of
   * a further resend, no two links of the user are ever unused together, exactly when no other request of
   * this user is then past its own invalidation with its save to come.
   */
  lemma NeverTwoLinksIff(s: State, h: Thread, user: User, now: Time)
    requires h in s.threads && s.threads[h] == Resending(user) && user in s.users
    ensures NeverTwoLinks(Step(s, Invalidate(h, now)), user) <==> SoleSender(Step(s, Invalidate(h, now)), h, user)
  {
    var t := Step(s, Invalidate(h, now));
    assert UnusedOf(t.tokens, user) == {};
    if SoleSender(t, h, user) {
      forall events | NoInvalidation(t, events, user) ensures AtMostOneLink(Run(t, events), user) {
        SoleSenderLeavesOneLink(t, h, user, events);
      }
    } else {
      var k :| k in t.threads && t.threads[k] == Sending(user) && k != h;
      var a := FreshToken(t.tokens.Keys);
      var b := FreshToken(t.tokens.Keys + {a});
      var events := [Save(h, a, 0)] + ([Save(k, b, 0)] + []);
      TwoSendersTwoLiveTokens(t, h, k, user, a, b, 0);
      var t1 := Step(t, Save(h, a, 0));
      assert events[1..] == [Save(k, b, 0)] && events[1..][1..] == [];
      assert NoInvalidation(t1, [Save(k, b, 0)], user);
      assert NoInvalidation(t, events, user);
    }
  }

  ghost predicate LongerThanAll(n: nat, known: set<RawToken>) {
    forall k :: k in known ==> |k| < n
  }

  /** Tokens do not run out. */
  ghost function FreshToken(known: set<RawToken>): (raw: RawToken)
    ensures raw !in known
  {
    LengthsAreBounded(known);
    var n: nat :| LongerThanAll(n, known);
    seq(n, _ => '0')
  }

  lemma {:induction false} LengthsAreBounded(known: set<RawToken>)
    ensures exists n: nat :: LongerThanAll(n, known)
    decreases known
  {
    if known == {} {
      assert LongerThanAll(0, known);
    } else {
      var x :| x in known;
      LengthsAreBounded(known - {x});
      var n: nat :| LongerThanAll(n, known - {x});
      assert LongerThanAll(if |x| < n then n else |x| + 1, known);
    }
  }

  /** Two requests past their invalidation both save: both links are live. */
  lemma TwoSendersTwoLiveTokens(s: State, h: Thread, k: Thread, u: User, a: RawToken, b: RawToken, expiresAt: Time)
    requires h in s.threads && k in s.threads && h != k && s.threads[h] == s.threads[k] == Sending(u)
    requires a != b && a !in s.tokens && b !in s.tokens
    ensures {a, b} <= UnusedOf(Run(s, [Save(h, a, expiresAt)] + ([Save(k, b, expiresAt)] + [])).tokens, u)
  {
    var s1 := Step(s, Save(h, a, expiresAt));
    RunCons(s, Save(h, a, expiresAt), [Save(k, b, expiresAt)] + []);
    RunCons(s1, Save(k, b, expiresAt), []);
  }

  /**
   * What is not promised: resends that overlap both invalidate first and both save afterwards. This run
   * brings two of them to that point, so one user ends with two live links.
   */
  lemma OverlappingResendsReachTwoSenders(u: User)
    ensures exists events, h, k ::
              var s := Run(INITIAL, events);
              h in s.threads && k in s.threads && h != k && s.threads[h] == s.threads[k] == Sending(u)
  {
    var s1 := Step(INITIAL, Registered(0, u));
    var s2 := Step(s1, StartResend(1, u));
    var s3 := Step(s2, StartResend(2, u));
    var s4 := Step(s3, Invalidate(1, 5));
    var s5 := Step(s4, Invalidate(2, 6));
    var e5 := [Invalidate(2, 6)] + [];
    var e4 := [Invalidate(1, 5)] + e5;
    var e3 := [StartResend(2, u)] + e4;
    var e2 := [StartResend(1, u)] + e3;
    RunCons(s4, Invalidate(2, 6), []);
    RunCons(s3, Invalidate(1, 5), e5);
    RunCons(s2, StartResend(2, u), e4);
    RunCons(s1, StartResend(1, u), e3);
    RunCons(INITIAL, Registered(0, u), e2);
    var s := Run(INITIAL, [Registered(0, u)] + e2);
    assert s == s5 && s.threads[1] == s.threads[2] == Sending(u);
  }

  /** The schedule that uses two links of one account at once. */
  function Race(h: Thread, k: Thread, a: RawToken, b: RawToken, now: Time): seq<Event> {
    BothAccept(h, k, a, b, now) + BothActivate(h, k)
  }

  function BothAccept(h: Thread, k: Thread, a: RawToken, b: RawToken, now: Time): seq<Event> {
    [StartConfirm(h, a)] + ([StartConfirm(k, b)] + ([Consume(h, now)] + ([Consume(k, now)] + [])))
  }

  function BothActivate(h: Thread, k: Thread): seq<Event> {
    [ReadStatus(h)] + ([ReadStatus(k)] + ([WriteStatus(h)] + ([WriteStatus(k)] + [])))
  }

  lemma BothAccepted(s: State, user: User, a: RawToken, b: RawToken, h: Thread, k: Thread, now: Time)
    requires a != b && a != "" && b != "" && {a, b} <= UnusedOf(s.tokens, user)
    requires s.tokens[a].expiresAt > now && s.tokens[b].expiresAt > now
    requires h != k && h !in s.threads && k !in s.threads
    ensures var r := Run(s, BothAccept(h, k, a, b, now));
            && h in r.threads && r.threads[h] == Activating(a, user) && k in r.threads && r.threads[k] == Activating(b, user)
            && r.users == s.users && r.confirmed == s.confirmed
  {
    var s1 := Step(s, StartConfirm(h, a));
    var s2 := Step(s1, StartConfirm(k, b));
    var s3 := Step(s2, Consume(h, now));
    var e3 := [Consume(k, now)] + [];
    var e2 := [Consume(h, now)] + e3;
    RunCons(s, StartConfirm(h, a), [StartConfirm(k, b)] + e2);
    RunCons(s1, StartConfirm(k, b), e2);
    RunCons(s2, Consume(h, now), e3);
    RunCons(s3, Consume(k, now), []);
  }

  lemma BothConfirm(s: State, user: User, a: RawToken, b: RawToken, h: Thread, k: Thread)
    requires user in s.users && s.users[user] == PendingConfirmation && h != k
    requires h in s.threads && s.threads[h] == Activating(a, user) && k in s.threads && s.threads[k] == Activating(b, user)
    ensures Run(s, BothActivate(h, k)).confirmed == s.confirmed + [user, user]
  {
    var s1 := Step(s, ReadStatus(h));
    var s2 := Step(s1, ReadStatus(k));
    var s3 := Step(s2, WriteStatus(h));
    var e3 := [WriteStatus(k)] + [];
    var e2 := [WriteStatus(h)] + e3;
    RunCons(s, ReadStatus(h), [ReadStatus(k)] + e2);
    RunCons(s1, ReadStatus(k), e2);
    RunCons(s2, WriteStatus(h), e3);
    RunCons(s3, WriteStatus(k), []);
  }

  /** Any two live links of a pending account can confirm it twice. */
  lemma TwoLinksConfirmTwice(s: State, user: User, a: RawToken, b: RawToken, h: Thread, k: Thread, now: Time)
    requires user in s.users && s.users[user] == PendingConfirmation
    requires a != b && a != "" && b != "" && {a, b} <= UnusedOf(s.tokens, user)
    requires s.tokens[a].expiresAt > now && s.tokens[b].expiresAt > now
    requires h != k && h !in s.threads && k !in s.threads
    ensures Run(s, Race(h, k, a, b, now)).confirmed == s.confirmed + [user, user]
  {
    BothAccepted(s, user, a, b, h, k, now);
    BothConfirm(Run(s, BothAccept(h, k, a, b, now)), user, a, b, h, k);
    RunConcat(s, BothAccept(h, k, a, b, now), BothActivate(h, k));
  }
}
