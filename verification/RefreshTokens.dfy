/**
 * Refresh-token rotation: apps/api/src/auth/refresh-token.service.ts over the repository in
 * libs/core/src/users. A table lists its rows in insertion order. A random id, a random token and its
 * SHA-256 hash are modelled as values that are fresh for the table; the hash is injective.
 */
module RefreshTokens {
  import opened Wrappers
  import opened RecursiveQuery

  const REFRESH_TOKEN_TTL_MS: int := 14 * 24 * 60 * 60 * 1000

  type Id = string
  type User = string
  type Time = int

  datatype Hash = Sha256(raw: string)

  datatype Reason = Rotated | LoggedOut | ReuseDetected

  datatype Token = Token(
    id: Id, userId: User, tokenHash: Hash, issuedAt: Time, expiresAt: Time,
    rotatedFromId: Option<Id>, revokedAt: Option<Time>, revokedReason: Option<Reason>)
  {
    predicate IsRevoked() {
      revokedAt.Some?
    }

    predicate IsActive(now: Time) {
      revokedAt.None? && expiresAt > now
    }
  }

  type Table = seq<Token>

  /** What the random generators hand out for one insert. */
  datatype Random = Random(id: Id, raw: string)

  datatype Rotation =
    | Success(userId: User, rawToken: string, expiresAt: Time)
    | InvalidToken
    | ReuseFound
    | ExpiredToken

  // ---------------------------------------------------------------- statements

  /** `UPDATE ... SET revoked_at, revoked_reason WHERE id IN (ids) AND revoked_at IS NULL`. */
  function MarkRevoked(t: Table, ids: set<Id>, reason: Reason, at: Time): Table {
    seq(|t|, i requires 0 <= i < |t| =>
      if t[i].id in ids && t[i].revokedAt.None? then t[i].(revokedAt := Some(at), revokedReason := Some(reason)) else t[i])
  }

  /** Edges of the descendants walk, predecessor to successor. */
  function Successors(t: Table): set<(Id, Id)> {
    set r | r in t && r.rotatedFromId.Some? :: (r.rotatedFromId.value, r.id)
  }

  /** Edges of the ancestors walk, successor to predecessor. */
  function Predecessors(t: Table): set<(Id, Id)> {
    set r | r in t && r.rotatedFromId.Some? :: (r.id, r.rotatedFromId.value)
  }

  /** The ids `revokeChain` updates: everything either walk meets. */
  ghost function WalkBothWays(t: Table, id: Id): set<Id> {
    Reach(Successors(t), {id}) + Reach(Predecessors(t), {id})
  }

  function NewToken(user: User, from: Option<Id>, now: Time, random: Random): Token {
    Token(random.id, user, Sha256(random.raw), now, now + REFRESH_TOKEN_TTL_MS, from, None, None)
  }

  ghost predicate IsRow(t: Table, hash: Hash, i: int) {
    0 <= i < |t| && t[i].tokenHash == hash
  }

  /** The row a raw token names, if any; hashes are unique in every reachable table. */
  ghost function Row(t: Table, raw: string): Option<nat> {
    if exists i :: IsRow(t, Sha256(raw), i) then (var i :| IsRow(t, Sha256(raw), i); Some(i)) else None
  }

  // ---------------------------------------------------------------- operations on the table

  ghost function IssuedTable(t: Table, user: User, now: Time, random: Random): Table {
    t + [NewToken(user, None, now, random)]
  }

  ghost function RotatedTable(t: Table, raw: string, now: Time, random: Random): (Table, Rotation) {
    var row := Row(t, raw);
    if row.None? then (t, InvalidToken)
    else
      var presented := t[row.value];
      if presented.IsRevoked() then (MarkRevoked(t, WalkBothWays(t, presented.id), ReuseDetected, now), ReuseFound)
      else if !presented.IsActive(now) then (t, ExpiredToken)
      else
        var next := NewToken(presented.userId, Some(presented.id), now, random);
        (MarkRevoked(t, {presented.id}, Rotated, now) + [next],
         Success(presented.userId, random.raw, next.expiresAt))
  }

  ghost function RevokedTable(t: Table, raw: string, now: Time): Table {
    var row := Row(t, raw);
    if row.None? || t[row.value].IsRevoked() then t
    else MarkRevoked(t, {t[row.value].id}, LoggedOut, now)
  }

  /** A crash between revoking the predecessor and inserting its successor. */
  ghost function HalfRotated(t: Table, raw: string, now: Time): Table {
    var row := Row(t, raw);
    if row.Some? && t[row.value].IsActive(now) then MarkRevoked(t, {t[row.value].id}, Rotated, now) else t
  }

  // ---------------------------------------------------------------- the service

  class RefreshTokenRepository {
    var rows: Table

    constructor ()
      ensures rows == []
    {
      rows := [];
    }

    method Insert(token: Token)
      modifies this
      ensures rows == old(rows) + [token]
    {
      rows := rows + [token];
    }

    method FindByHash(hash: Hash) returns (found: Option<Token>)
      ensures found.None? <==> forall i :: 0 <= i < |rows| ==> rows[i].tokenHash != hash
      ensures found.Some? ==> found.value in rows && found.value.tokenHash == hash
    {
      for i := 0 to |rows|
        invariant forall k :: 0 <= k < i ==> rows[k].tokenHash != hash
      {
        if rows[i].tokenHash == hash {
          return Some(rows[i]);
        }
      }
      found := None;
    }

    method Revoke(id: Id, reason: Reason, at: Time)
      modifies this
      ensures rows == MarkRevoked(old(rows), {id}, reason, at)
    {
      rows := MarkRevoked(rows, {id}, reason, at);
    }

    method RevokeChain(tokenId: Id, reason: Reason, at: Time)
      modifies this
      ensures rows == MarkRevoked(old(rows), WalkBothWays(old(rows), tokenId), reason, at)
    {
      var descendants := Evaluate(Successors(rows), {tokenId});
      var ancestors := Evaluate(Predecessors(rows), {tokenId});
      rows := MarkRevoked(rows, descendants + ancestors, reason, at);
    }
  }

  class RefreshTokenService {
    const repository: RefreshTokenRepository

    constructor (repository: RefreshTokenRepository)
      ensures this.repository == repository
    {
      this.repository := repository;
    }

    method Persist(user: User, from: Option<Id>, now: Time, random: Random) returns (expiresAt: Time)
      modifies repository
      ensures repository.rows == old(repository.rows) + [NewToken(user, from, now, random)]
      ensures expiresAt == NewToken(user, from, now, random).expiresAt
    {
      var token := NewToken(user, from, now, random);
      repository.Insert(token);
      expiresAt := token.expiresAt;
    }

    /** A login token: live for fourteen days, not rotated from anything. */
    method Issue(user: User, now: Time, random: Random) returns (rawToken: string, expiresAt: Time)
      modifies repository
      ensures repository.rows == IssuedTable(old(repository.rows), user, now, random)
      ensures repository.rows == old(repository.rows)
                + [Token(random.id, user, Sha256(rawToken), now, expiresAt, None, None, None)]
      ensures rawToken == random.raw && expiresAt == now + 1_209_600_000
    {
      expiresAt := Persist(user, None, now, random);
      rawToken := random.raw;
    }

    method Rotate(raw: string, now: Time, random: Random) returns (result: Rotation)
      requires DistinctHashes(repository.rows) && DistinctIds(repository.rows)
      modifies repository
      ensures (repository.rows, result) == RotatedTable(old(repository.rows), raw, now, random)
      ensures result.InvalidToken? <==> forall i :: 0 <= i < |old(repository.rows)| ==> old(repository.rows)[i].tokenHash != Sha256(raw)
      ensures result.InvalidToken? || result.ExpiredToken? ==> repository.rows == old(repository.rows)
      ensures forall i :: 0 <= i < |old(repository.rows)| && old(repository.rows)[i].tokenHash == Sha256(raw) ==>
                RotationOutcome(old(repository.rows), i, raw, now, random, repository.rows, result)
    {
      RotationCases(repository.rows, raw, now, random);
      var presented := repository.FindByHash(Sha256(raw));
      if presented.None? {
        return InvalidToken;
      }
      RowIsFound(repository.rows, raw, presented.value);
      if presented.value.IsRevoked() {
        repository.RevokeChain(presented.value.id, ReuseDetected, now);
        return ReuseFound;
      }
      if !presented.value.IsActive(now) {
        return ExpiredToken;
      }
      repository.Revoke(presented.value.id, Rotated, now);
      var expiresAt := Persist(presented.value.userId, Some(presented.value.id), now, random);
      result := Success(presented.value.userId, random.raw, expiresAt);
    }

    method Revoke(raw: string, now: Time)
      requires DistinctHashes(repository.rows) && DistinctIds(repository.rows)
      modifies repository
      ensures repository.rows == RevokedTable(old(repository.rows), raw, now)
      ensures |repository.rows| == |old(repository.rows)|
      ensures forall i :: 0 <= i < |repository.rows| ==>
                repository.rows[i]
                == if old(repository.rows)[i].tokenHash == Sha256(raw) && old(repository.rows)[i].revokedAt.None?
                   then old(repository.rows)[i].(revokedAt := Some(now), revokedReason := Some(LoggedOut))
                   else old(repository.rows)[i]
    {
      RevocationRows(repository.rows, raw, now);
      var presented := repository.FindByHash(Sha256(raw));
      if presented.None? {
        return;
      }
      RowIsFound(repository.rows, raw, presented.value);
      if presented.value.IsRevoked() {
        return;
      }
      repository.Revoke(presented.value.id, LoggedOut, now);
    }
  }

  lemma RowIsFound(t: Table, raw: string, token: Token)
    requires DistinctHashes(t) && token in t && token.tokenHash == Sha256(raw)
    ensures Row(t, raw).Some? && t[Row(t, raw).value] == token
  {
    var k :| 0 <= k < |t| && t[k] == token;
    assert IsRow(t, Sha256(raw), k);
  }

  // ---------------------------------------------------------------- the operations, column by column

  /**
   * Presenting the token of row i: a revoked one is a replay, an overdue one is refused, a live one is
   * revoked and followed by one new row of the same user, which lives for fourteen days.
   */
  ghost predicate RotationOutcome(t: Table, i: int, raw: string, now: Time, random: Random, u: Table, result: Rotation)
    requires 0 <= i < |t|
  {
    if t[i].revokedAt.Some? then result == ReuseFound && |u| == |t|
    else if t[i].expiresAt <= now then result == ExpiredToken
    else
      && result == Success(t[i].userId, random.raw, now + 1_209_600_000)
      && |u| == |t| + 1
      && u[|t|] == Token(random.id, t[i].userId, Sha256(random.raw), now, now + 1_209_600_000, Some(t[i].id), None, None)
      && u[i] == t[i].(revokedAt := Some(now), revokedReason := Some(Rotated))
      && forall j :: 0 <= j < |t| && j != i ==> u[j] == t[j]
  }

  lemma RotationCases(t: Table, raw: string, now: Time, random: Random)
    requires DistinctHashes(t) && DistinctIds(t)
    ensures var (u, result) := RotatedTable(t, raw, now, random);
            && (result.InvalidToken? <==> forall i :: 0 <= i < |t| ==> t[i].tokenHash != Sha256(raw))
            && (result.InvalidToken? || result.ExpiredToken? ==> u == t)
            && forall i :: 0 <= i < |t| && t[i].tokenHash == Sha256(raw) ==> RotationOutcome(t, i, raw, now, random, u, result)
  {
    forall i | 0 <= i < |t| && t[i].tokenHash == Sha256(raw) ensures Row(t, raw) == Some(i) {
      assert IsRow(t, Sha256(raw), i);
    }
  }

  /** A crash after the revocation: the row is spent, and nothing has followed it. */
  lemma CrashPointRows(t: Table, raw: string, now: Time)
    requires DistinctHashes(t) && DistinctIds(t)
    ensures var u := HalfRotated(t, raw, now);
            && |u| == |t|
            && forall i :: 0 <= i < |t| ==>
                 u[i] == if t[i].tokenHash == Sha256(raw) && t[i].revokedAt.None? && t[i].expiresAt > now
                         then t[i].(revokedAt := Some(now), revokedReason := Some(Rotated)) else t[i]
  {
    forall i | 0 <= i < |t| && t[i].tokenHash == Sha256(raw) ensures Row(t, raw) == Some(i) {
      assert IsRow(t, Sha256(raw), i);
    }
  }

  lemma RevocationRows(t: Table, raw: string, now: Time)
    requires DistinctHashes(t) && DistinctIds(t)
    ensures var u := RevokedTable(t, raw, now);
            && |u| == |t|
            && forall i :: 0 <= i < |t| ==>
                 u[i] == if t[i].tokenHash == Sha256(raw) && t[i].revokedAt.None?
                         then t[i].(revokedAt := Some(now), revokedReason := Some(LoggedOut)) else t[i]
  {
    forall i | 0 <= i < |t| && t[i].tokenHash == Sha256(raw) ensures Row(t, raw) == Some(i) {
      assert IsRow(t, Sha256(raw), i);
    }
  }

  // ---------------------------------------------------------------- chains

  ghost predicate DistinctIds(t: Table) {
    forall i, j :: 0 <= i < j < |t| ==> t[i].id != t[j].id
  }

  ghost predicate DistinctHashes(t: Table) {
    forall i, j :: 0 <= i < j < |t| ==> t[i].tokenHash != t[j].tokenHash
  }

  predicate Follows(t: Table, j: int, i: int) {
    0 <= i < |t| && 0 <= j < |t| && t[j].rotatedFromId == Some(t[i].id)
  }

  /** Every link names an earlier row: the foreign key holds and there are no cycles. */
  ghost predicate LinksBack(t: Table) {
    forall j :: 0 <= j < |t| && t[j].rotatedFromId.Some? ==> exists i :: 0 <= i < j && Follows(t, j, i)
  }

  /** No row has two successors: with LinksBack, the links form disjoint paths. */
  ghost predicate NoFork(t: Table) {
    forall j, k :: 0 <= j < k < |t| && t[j].rotatedFromId.Some? ==> t[j].rotatedFromId != t[k].rotatedFromId
  }

  ghost predicate SpentIsRevoked(t: Table) {
    forall j, i :: Follows(t, j, i) ==> t[i].IsRevoked() && t[i].userId == t[j].userId
  }

  ghost predicate Inv(t: Table) {
    DistinctIds(t) && DistinctHashes(t) && LinksBack(t) && NoFork(t) && SpentIsRevoked(t)
  }

  ghost function Previous(t: Table, j: nat): (i: nat)
    requires LinksBack(t) && j < |t| && t[j].rotatedFromId.Some?
    ensures i < j && Follows(t, j, i)
  {
    var i :| 0 <= i < j && Follows(t, j, i);
    i
  }

  /** The login token a row's rotations started from. */
  ghost function Root(t: Table, j: nat): (r: nat)
    requires LinksBack(t) && j < |t|
    ensures r <= j
    decreases j
  {
    if t[j].rotatedFromId.None? then j else Root(t, Previous(t, j))
  }

  ghost function Depth(t: Table, j: nat): nat
    requires LinksBack(t) && j < |t|
    decreases j
  {
    if t[j].rotatedFromId.None? then 0 else 1 + Depth(t, Previous(t, j))
  }

  /** A rotation chain: the rows with the same root. */
  ghost predicate SameChain(t: Table, i: nat, j: nat)
    requires LinksBack(t) && i < |t| && j < |t|
  {
    Root(t, i) == Root(t, j)
  }

  lemma {:induction false} DepthIdentifies(t: Table, i: nat, j: nat)
    requires Inv(t) && i < |t| && j < |t| && SameChain(t, i, j) && Depth(t, i) == Depth(t, j)
    ensures i == j
    decreases Depth(t, i)
  {
    if t[i].rotatedFromId.Some? {
      DepthIdentifies(t, Previous(t, i), Previous(t, j));
      assert t[i].rotatedFromId == t[j].rotatedFromId;
    }
  }

  lemma {:induction false} DeeperIsDescendant(t: Table, i: nat, j: nat)
    requires Inv(t) && i < |t| && j < |t| && SameChain(t, i, j) && Depth(t, i) <= Depth(t, j)
    ensures t[j].id in Reach(Successors(t), {t[i].id})
    ensures t[i].id in Reach(Predecessors(t), {t[j].id})
    decreases j
  {
    ReachHasRoots(Successors(t), {t[i].id});
    ReachHasRoots(Predecessors(t), {t[j].id});
    if Depth(t, i) == Depth(t, j) {
      DepthIdentifies(t, i, j);
    } else {
      var p := Previous(t, j);
      DeeperIsDescendant(t, i, p);
      assert t[j] in t;
      assert (t[p].id, t[j].id) in Successors(t) && (t[j].id, t[p].id) in Predecessors(t);
      ReachStep(Successors(t), {t[i].id}, t[p].id, t[j].id);
      ReachStep(Predecessors(t), {t[j].id}, t[j].id, t[p].id);
      ReachClosed(Predecessors(t), {t[j].id});
      ReachIsLeast(Predecessors(t), {t[p].id}, Reach(Predecessors(t), {t[j].id}));
    }
  }

  lemma FollowerIsPrevious(t: Table, j: nat, i: nat)
    requires Inv(t) && Follows(t, j, i)
    ensures i == Previous(t, j) && SameChain(t, i, j)
  {
  }

  ghost function ChainIds(t: Table, i: nat): set<Id>
    requires LinksBack(t) && i < |t|
  {
    set j | 0 <= j < |t| && SameChain(t, i, j) :: t[j].id
  }

  lemma InChainIds(t: Table, i: nat, j: nat)
    requires Inv(t) && i < |t| && j < |t|
    ensures t[j].id in ChainIds(t, i) <==> SameChain(t, i, j)
  {
    if t[j].id in ChainIds(t, i) {
      var k: nat :| k < |t| && SameChain(t, i, k) && t[k].id == t[j].id;
      assert k == j;
    }
  }

  lemma WalkStaysInChain(t: Table, i: nat)
    requires Inv(t) && i < |t|
    ensures WalkBothWays(t, t[i].id) <= ChainIds(t, i)
  {
    var chain := ChainIds(t, i);
    forall a, b | (a, b) in Successors(t) && a in chain ensures b in chain {
      ChainClosed(t, i, a, b);
    }
    forall a, b | (a, b) in Predecessors(t) && a in chain ensures b in chain {
      var r :| r in t && r.rotatedFromId.Some? && (r.id, r.rotatedFromId.value) == (a, b);
      assert (b, a) in Successors(t);
      ChainClosed(t, i, b, a);
    }
    ReachIsLeast(Successors(t), {t[i].id}, chain);
    ReachIsLeast(Predecessors(t), {t[i].id}, chain);
  }

  /** The two recursive walks of `revokeChain` together visit exactly the presented row's chain. */
  lemma WalkIsTheChain(t: Table, i: nat)
    requires Inv(t) && i < |t|
    ensures WalkBothWays(t, t[i].id) == ChainIds(t, i)
  {
    WalkStaysInChain(t, i);
    forall id | id in ChainIds(t, i) ensures id in WalkBothWays(t, t[i].id) {
      var j: nat :| j < |t| && SameChain(t, i, j) && t[j].id == id;
      if Depth(t, i) <= Depth(t, j) {
        DeeperIsDescendant(t, i, j);
      } else {
        DeeperIsDescendant(t, j, i);
      }
    }
  }

  lemma ChainClosed(t: Table, i: nat, parent: Id, child: Id)
    requires Inv(t) && i < |t| && (parent, child) in Successors(t)
    ensures parent in ChainIds(t, i) <==> child in ChainIds(t, i)
  {
    var r :| r in t && r.rotatedFromId == Some(parent) && r.id == child;
    var k :| 0 <= k < |t| && t[k] == r;
    var p := Previous(t, k);
    FollowerIsPrevious(t, k, p);
    assert t[p].id == parent && SameChain(t, p, k);
  }

  /** At most one unrevoked token in a chain, and it is the tail. */
  lemma OneLiveTokenPerChain(t: Table, i: nat, j: nat)
    requires Inv(t) && i < |t| && j < |t| && SameChain(t, i, j) && !t[i].IsRevoked()
    ensures !t[j].IsRevoked() ==> i == j
    ensures !Follows(t, j, i) && Depth(t, j) <= Depth(t, i)
  {
    if Depth(t, i) < Depth(t, j) {
      AncestorIsRevoked(t, i, j);
    } else if Depth(t, j) < Depth(t, i) && !t[j].IsRevoked() {
      AncestorIsRevoked(t, j, i);
    } else if Depth(t, i) == Depth(t, j) {
      DepthIdentifies(t, i, j);
    }
  }

  lemma {:induction false} AncestorIsRevoked(t: Table, i: nat, j: nat)
    requires Inv(t) && i < |t| && j < |t| && SameChain(t, i, j) && Depth(t, i) < Depth(t, j)
    ensures t[i].IsRevoked()
    decreases j
  {
    var p := Previous(t, j);
    if Depth(t, p) == Depth(t, i) {
      DepthIdentifies(t, i, p);
    } else {
      AncestorIsRevoked(t, i, p);
    }
  }

  // ---------------------------------------------------------------- runs

  datatype Op =
    | Issue(user: User, now: Time, random: Random)
    | Rotate(raw: string, now: Time, random: Random)
    | CrashedRotate(raw: string, now: Time)
    | Revoke(raw: string, now: Time)

  ghost function Apply(t: Table, op: Op): Table {
    match op
    case Issue(user, now, random) => IssuedTable(t, user, now, random)
    case Rotate(raw, now, random) => RotatedTable(t, raw, now, random).0
    case CrashedRotate(raw, now) => HalfRotated(t, raw, now)
    case Revoke(raw, now) => RevokedTable(t, raw, now)
  }

  ghost predicate Unused(t: Table, random: Random) {
    forall i :: 0 <= i < |t| ==> t[i].id != random.id && t[i].tokenHash != Sha256(random.raw)
  }

  ghost function Run(t: Table, ops: seq<Op>): Table
    decreases |ops|
  {
    if ops == [] then t else Run(Apply(t, ops[0]), ops[1..])
  }

  /** Random ids and tokens never repeat within a run. */
  ghost predicate Legal(t: Table, ops: seq<Op>)
    decreases |ops|
  {
    ops == [] || (((ops[0].Issue? || ops[0].Rotate?) ==> Unused(t, ops[0].random)) && Legal(Apply(t, ops[0]), ops[1..]))
  }

  /** The rows that were there keep their place, identity and link, and a revoked one stays revoked. */
  ghost predicate Extends(t: Table, u: Table) {
    && |t| <= |u|
    && forall i :: 0 <= i < |t| ==>
         && u[i].id == t[i].id && u[i].tokenHash == t[i].tokenHash && u[i].userId == t[i].userId
         && u[i].rotatedFromId == t[i].rotatedFromId && u[i].expiresAt == t[i].expiresAt
         && (t[i].IsRevoked() ==> u[i].revokedAt == t[i].revokedAt && u[i].revokedReason == t[i].revokedReason)
  }

  lemma MarkKeepsLinks(t: Table, ids: set<Id>, reason: Reason, at: Time)
    requires LinksBack(t)
    ensures LinksBack(MarkRevoked(t, ids, reason, at))
  {
    var u := MarkRevoked(t, ids, reason, at);
    forall j | 0 <= j < |u| && u[j].rotatedFromId.Some? ensures exists i :: 0 <= i < j && Follows(u, j, i) {
      assert Follows(u, j, Previous(t, j));
    }
  }

  lemma MarkKeepsInv(t: Table, ids: set<Id>, reason: Reason, at: Time)
    requires Inv(t)
    ensures Inv(MarkRevoked(t, ids, reason, at)) && Extends(t, MarkRevoked(t, ids, reason, at))
  {
    var u := MarkRevoked(t, ids, reason, at);
    MarkKeepsLinks(t, ids, reason, at);
    assert Extends(t, u);
    forall j, i | Follows(u, j, i) ensures u[i].IsRevoked() && u[i].userId == u[j].userId {
      assert Follows(t, j, i);
    }
  }

  lemma InsertKeepsInv(t: Table, token: Token)
    requires Inv(t)
    requires forall i :: 0 <= i < |t| ==> t[i].id != token.id && t[i].tokenHash != token.tokenHash
    requires token.rotatedFromId.Some? ==>
               exists i :: 0 <= i < |t| && t[i].id == token.rotatedFromId.value && t[i].IsRevoked() && t[i].userId == token.userId
    requires forall i :: 0 <= i < |t| && token.rotatedFromId.Some? ==> t[i].rotatedFromId != token.rotatedFromId
    ensures Inv(t + [token]) && Extends(t, t + [token])
  {
    var u := t + [token];
    forall j | 0 <= j < |u| && u[j].rotatedFromId.Some? ensures exists i :: 0 <= i < j && Follows(u, j, i) {
      if j < |t| {
        assert Follows(u, j, Previous(t, j));
      } else {
        var i :| 0 <= i < |t| && t[i].id == token.rotatedFromId.value;
        assert Follows(u, j, i);
      }
    }
    forall j, i | Follows(u, j, i) ensures u[i].IsRevoked() && u[i].userId == u[j].userId {
      if j < |t| {
        assert i < |t| by {
          assert Follows(u, j, Previous(t, j));
        }
        assert Follows(t, j, i);
      } else {
        var k :| 0 <= k < |t| && t[k].id == token.rotatedFromId.value && t[k].IsRevoked() && t[k].userId == token.userId;
        assert u[i].id == u[k].id;
      }
    }
  }

  /** Presenting a live token: it is revoked and its one successor continues the chain. */
  lemma RotateKeepsInv(t: Table, raw: string, now: Time, random: Random)
    requires Inv(t) && Unused(t, random)
    ensures var (u, result) := RotatedTable(t, raw, now, random); Inv(u) && Extends(t, u)
  {
    var row := Row(t, raw);
    if row.Some? {
      var k, p := row.value, t[row.value];
      MarkKeepsInv(t, WalkBothWays(t, p.id), ReuseDetected, now);
      MarkKeepsInv(t, {p.id}, Rotated, now);
      if p.IsActive(now) {
        var half := MarkRevoked(t, {p.id}, Rotated, now);
        forall i | 0 <= i < |half| ensures half[i].rotatedFromId != Some(p.id) {
          assert !Follows(t, i, k);
        }
        assert half[k].id == p.id && half[k].IsRevoked();
        InsertKeepsInv(half, NewToken(p.userId, Some(p.id), now, random));
      }
    }
  }

  lemma ApplyKeepsInv(t: Table, op: Op)
    requires Inv(t) && Legal(t, [op])
    ensures Inv(Apply(t, op)) && Extends(t, Apply(t, op))
  {
    match op {
      case Issue(user, now, random) => InsertKeepsInv(t, NewToken(user, None, now, random));
      case Rotate(raw, now, random) => RotateKeepsInv(t, raw, now, random);
      case CrashedRotate(raw, now) =>
        if Row(t, raw).Some? {
          MarkKeepsInv(t, {t[Row(t, raw).value].id}, Rotated, now);
        }
      case Revoke(raw, now) =>
        if Row(t, raw).Some? {
          MarkKeepsInv(t, {t[Row(t, raw).value].id}, LoggedOut, now);
        }
    }
  }

  /** Every state of every run, crash points included, has disjoint chains with at most one live tail. */
  lemma {:induction false} RunKeepsInv(t: Table, ops: seq<Op>)
    requires Inv(t) && Legal(t, ops)
    ensures Inv(Run(t, ops)) && Extends(t, Run(t, ops))
    decreases |ops|
  {
    if ops != [] {
      assert [ops[0]][1..] == [];
      ApplyKeepsInv(t, ops[0]);
      RunKeepsInv(Apply(t, ops[0]), ops[1..]);
    }
  }

  lemma {:induction false} RootStable(t: Table, u: Table, j: nat)
    requires Inv(t) && Inv(u) && Extends(t, u) && j < |t|
    ensures Root(u, j) == Root(t, j)
    decreases j
  {
    if t[j].rotatedFromId.Some? {
      var p := Previous(t, j);
      assert Follows(u, j, p);
      FollowerIsPrevious(u, j, p);
      RootStable(t, u, p);
    }
  }

  // ---------------------------------------------------------------- replay

  ghost predicate DeadChain(t: Table, i: nat)
    requires LinksBack(t) && i < |t|
  {
    forall j :: 0 <= j < |t| && SameChain(t, i, j) ==> t[j].IsRevoked()
  }

  /** Replaying a spent token revokes its whole chain and not one row of any other. */
  lemma ReplayWipesTheChain(t: Table, raw: string, now: Time, random: Random)
    requires Inv(t) && Row(t, raw).Some? && t[Row(t, raw).value].IsRevoked()
    ensures var i := Row(t, raw).value;
            var (u, result) := RotatedTable(t, raw, now, random);
            && result == ReuseFound && Inv(u) && |u| == |t| && DeadChain(u, i)
            && (forall j :: 0 <= j < |t| && !SameChain(t, i, j) ==> u[j] == t[j])
            && (forall j :: 0 <= j < |t| && SameChain(t, i, j) ==>
                  u[j] == if t[j].IsRevoked() then t[j] else t[j].(revokedAt := Some(now), revokedReason := Some(ReuseDetected)))
  {
    var i := Row(t, raw).value;
    WalkIsTheChain(t, i);
    MarkingAChain(t, i, WalkBothWays(t, t[i].id), ReuseDetected, now);
  }

  /** Row indices, each the predecessor or the successor of the one before it. */
  ghost predicate IsLinked(t: Table, p: seq<nat>) {
    && |p| > 0 && (forall k :: 0 <= k < |p| ==> p[k] < |t|)
    && forall k :: 0 < k < |p| ==> t[p[k]].rotatedFromId == Some(t[p[k - 1]].id) || t[p[k - 1]].rotatedFromId == Some(t[p[k]].id)
  }

  lemma {:induction false} LinkedIsSameChain(t: Table, p: seq<nat>)
    requires Inv(t) && IsLinked(t, p)
    ensures SameChain(t, p[0], p[|p| - 1])
  {
    if |p| > 1 {
      var q := p[..|p| - 1];
      LinkedIsSameChain(t, q);
      var a, b := p[|p| - 2], p[|p| - 1];
      assert q[|q| - 1] == a;
      if Follows(t, b, a) {
        FollowerIsPrevious(t, b, a);
      } else {
        assert Follows(t, a, b);
        FollowerIsPrevious(t, a, b);
      }
    }
  }

  lemma {:induction false} ChainHasOneUser(t: Table, j: nat)
    requires Inv(t) && j < |t|
    ensures t[Root(t, j)].userId == t[j].userId
    decreases j
  {
    if t[j].rotatedFromId.Some? {
      ChainHasOneUser(t, Previous(t, j));
    }
  }

  /** A replay in the rows' own terms: whatever is linked to the presented row dies, other users' rows stay. */
  lemma ReplayInRows(t: Table, raw: string, now: Time, random: Random, p: seq<nat>, j: nat)
    requires Inv(t) && IsLinked(t, p) && t[p[0]].tokenHash == Sha256(raw) && t[p[0]].revokedAt.Some?
    requires j < |t| && t[j].userId != t[p[0]].userId
    ensures var u := RotatedTable(t, raw, now, random).0;
            |u| == |t| && u[p[|p| - 1]].revokedAt.Some? && u[j] == t[j]
  {
    assert IsRow(t, Sha256(raw), p[0]);
    ReplayWipesTheChain(t, raw, now, random);
    LinkedIsSameChain(t, p);
    ChainHasOneUser(t, p[0]);
    ChainHasOneUser(t, j);
  }

  /** Revoking the ids of a chain kills it and touches no other. */
  lemma MarkingAChain(t: Table, i: nat, ids: set<Id>, reason: Reason, at: Time)
    requires Inv(t) && i < |t| && ids == ChainIds(t, i)
    ensures var u := MarkRevoked(t, ids, reason, at);
            && Inv(u) && |u| == |t| && DeadChain(u, i)
            && (forall j :: 0 <= j < |t| && !SameChain(t, i, j) ==> u[j] == t[j])
            && (forall j :: 0 <= j < |t| && SameChain(t, i, j) ==>
                  u[j] == if t[j].IsRevoked() then t[j] else t[j].(revokedAt := Some(at), revokedReason := Some(reason)))
  {
    var u := MarkRevoked(t, ids, reason, at);
    MarkKeepsInv(t, ids, reason, at);
    forall j | 0 <= j < |u| ensures SameChain(u, i, j) <==> SameChain(t, i, j) {
      RootStable(t, u, i);
      RootStable(t, u, j);
    }
    forall j: nat | j < |t| ensures t[j].id in ids <==> SameChain(t, i, j) {
      InChainIds(t, i, j);
    }
  }

  /** Nothing in the chain can be used: every row is revoked or, when a time is given, expired by then. */
  ghost predicate ClosedChain(t: Table, i: nat, since: Option<Time>)
    requires LinksBack(t) && i < |t|
  {
    forall j: nat :: j < |t| && SameChain(t, i, j) ==> t[j].IsRevoked() || (since.Some? && t[j].expiresAt <= since.value)
  }

  /** No operation of the run reads a clock earlier than `since`. */
  ghost predicate NotBefore(ops: seq<Op>, since: Option<Time>) {
    since.Some? ==> forall k :: 0 <= k < |ops| ==> ops[k].now >= since.value
  }

  /** A new row joins a chain only as the successor of its live token. */
  lemma StepKeepsClosed(t: Table, op: Op, i: nat, since: Option<Time>)
    requires Inv(t) && Legal(t, [op]) && i < |t| && ClosedChain(t, i, since) && NotBefore([op], since)
    ensures var u := Apply(t, op);
            Inv(u) && |t| <= |u| && ClosedChain(u, i, since) && ChainWithin(u, i, |t|)
  {
    var u := Apply(t, op);
    ApplyKeepsInv(t, op);
    RootStable(t, u, i);
    assert [op][0] == op;
    forall j | |t| <= j < |u| ensures !SameChain(u, i, j) {
      if u[j].rotatedFromId.Some? {
        var k := Row(t, op.raw).value;
        assert Follows(u, j, k) && t[k].IsActive(op.now);
        FollowerIsPrevious(u, j, k);
        RootStable(t, u, k);
      }
    }
    forall j: nat | j < |u| && SameChain(u, i, j)
      ensures u[j].IsRevoked() || (since.Some? && u[j].expiresAt <= since.value)
    {
      assert j < |t|;
      RootStable(t, u, j);
      assert SameChain(t, i, j);
    }
  }

  /** No run revives a closed chain or adds a row to it. */
  lemma {:induction false} ClosedChainStaysClosed(t: Table, ops: seq<Op>, i: nat, since: Option<Time>)
    requires Inv(t) && Legal(t, ops) && i < |t| && ClosedChain(t, i, since) && NotBefore(ops, since)
    ensures var u := Run(t, ops); Inv(u) && |t| <= |u| && ClosedChain(u, i, since) && ChainWithin(u, i, |t|)
    decreases |ops|
  {
    if ops != [] {
      assert [ops[0]][1..] == [];
      StepKeepsClosed(t, ops[0], i, since);
      var u := Apply(t, ops[0]);
      ClosedChainStaysClosed(u, ops[1..], i, since);
      RunKeepsInv(u, ops[1..]);
      ChainStaysWithin(u, Run(u, ops[1..]), i, |t|);
    }
  }

  /** Every row of the chain is among the first n. */
  ghost predicate ChainWithin(t: Table, i: nat, n: nat)
    requires LinksBack(t) && i < |t|
  {
    forall j: nat :: j < |t| && SameChain(t, i, j) ==> j < n
  }

  lemma ChainStaysWithin(t: Table, u: Table, i: nat, n: nat)
    requires Inv(t) && Inv(u) && Extends(t, u) && i < |t|
    requires ChainWithin(t, i, n) && ChainWithin(u, i, |t|)
    ensures ChainWithin(u, i, n)
  {
    forall j: nat | j < |u| && SameChain(u, i, j) ensures j < n {
      RootStable(t, u, i);
      RootStable(t, u, j);
      assert SameChain(t, i, j);
    }
  }
}
