/**
 * apps/api/src/categories/categories-cache.service.ts: category levels cached per connection for 24 hours.
 * The upstream taxonomy is a function of connection and time; a category has one parent at a time.
 */
module CategoryCache {
  import opened Wrappers

  type Connection = string
  type CategoryId = string
  type Time = int

  const CACHE_TTL_MS: int := 24 * 60 * 60 * 1000

  datatype Category = Category(name: string, parentId: Option<CategoryId>, leaf: bool)

  /** A set of offer categories by id, as the API lists them and as the service returns them. */
  type Categories = map<CategoryId, Category>

  datatype Row = Row(category: Category, fetchedAt: Time)

  /** The cache table under its unique key (connection, category id). */
  type Cache = map<(Connection, CategoryId), Row>

  /**
   * How the ORM renders the bare `null` in `where: { parentId: null }`: as IS NULL, as `= NULL` (which the
   * repository's own note in tax-rate-journal.repository.ts says), or not at all.
   */
  datatype NullFilter = IsNull | MatchesNothing | Ignored

  /** `find({ where })` and `delete(where)` are two ORM calls; each may render the bare `null` its own way. */
  datatype NullFilters = NullFilters(find: NullFilter, delete: NullFilter)

  /** What the upstream call does: it lists a tree, the adapter cannot browse categories, or it raises. */
  datatype Upstream = Listing(tree: Categories) | NotBrowsable | Raising

  type World = (Connection, Time) -> Upstream

  datatype Reply = Answered(categories: Categories) | Raised

  // ---------------------------------------------------------------- the service's steps

  predicate Selected(filter: NullFilter, connection: Connection, parentId: Option<CategoryId>,
                     key: (Connection, CategoryId), row: Row)
  {
    && key.0 == connection
    && (if parentId.Some? then row.category.parentId == parentId
        else filter.Ignored? || (filter.IsNull? && row.category.parentId.None?))
  }

  function Found(cache: Cache, filter: NullFilter, connection: Connection, parentId: Option<CategoryId>): Cache {
    map k | k in cache && Selected(filter, connection, parentId, k, cache[k]) :: cache[k]
  }

  /** `setHours(getHours() - 24)` moves wall-clock hours; `dst` is how much longer than 24 h that was. */
  predicate AnyStale(found: Cache, now: Time, dst: int) {
    exists k :: k in found && found[k].fetchedAt < now - CACHE_TTL_MS - dst
  }

  /** `fetchCategories`: an absent or empty parent id asks for the root level. */
  function Level(parentId: Option<CategoryId>): Option<CategoryId> {
    if parentId == Some("") then None else parentId
  }

  function Children(tree: Categories, parentId: Option<CategoryId>): Categories {
    map id | id in tree && tree[id].parentId == Level(parentId) :: tree[id]
  }

  function Stored(cache: Cache, connection: Connection, categories: Categories, now: Time): Cache {
    cache + map id | id in categories :: (connection, id) := Row(categories[id], now)
  }

  function ToDomain(connection: Connection, found: Cache): Categories {
    map id | id in (set k | k in found :: k.1) && (connection, id) in found :: found[(connection, id)].category
  }

  function ReadSpec(cache: Cache, filters: NullFilters, world: World, connection: Connection,
                    parentId: Option<CategoryId>, now: Time, dst: int): (Cache, Reply)
  {
    var found := Found(cache, filters.find, connection, parentId);
    if found != map[] && !AnyStale(found, now, dst) then (cache, Answered(ToDomain(connection, found)))
    else Fetched(Evicted(cache, filters, connection, parentId, now, dst), world, connection, parentId, now)
  }

  /** The table after the look-up: a stale level is deleted, with the delete's own filter. */
  function Evicted(cache: Cache, filters: NullFilters, connection: Connection, parentId: Option<CategoryId>,
                   now: Time, dst: int): Cache
  {
    if AnyStale(Found(cache, filters.find, connection, parentId), now, dst)
    then cache - Found(cache, filters.delete, connection, parentId).Keys else cache
  }

  function Fetched(cache: Cache, world: World, connection: Connection, parentId: Option<CategoryId>, now: Time): (Cache, Reply) {
    match world(connection, now)
    case Raising => (cache, Raised)
    case NotBrowsable => (cache, Answered(map[]))
    case Listing(tree) => (Stored(cache, connection, Children(tree, parentId), now), Answered(Children(tree, parentId)))
  }

  lemma StoringNothing(cache: Cache, c: Connection, now: Time)
    ensures Stored(cache, c, map[], now) == cache
  {
  }

  class CategoriesCacheService {
    const filters: NullFilters
    var cache: Cache

    constructor (filters: NullFilters)
      ensures this.filters == filters && cache == map[]
    {
      this.filters, cache := filters, map[];
    }

    method FindCached(connection: Connection, parentId: Option<CategoryId>, now: Time, dst: int) returns (found: Cache)
      modifies this
      ensures cache == Evicted(old(cache), filters, connection, parentId, now, dst)
      ensures var all := Found(old(cache), filters.find, connection, parentId);
              found == if AnyStale(all, now, dst) then map[] else all
    {
      found := Found(cache, filters.find, connection, parentId);
      if |found| > 0 && exists k :: k in found && found[k].fetchedAt < now - CACHE_TTL_MS - dst {
        cache := cache - Found(cache, filters.delete, connection, parentId).Keys;
        found := map[];
      }
    }

    /** A hit answers from the table; a miss fetches and stores the level, or passes the upstream error on. */
    method GetAllegroCategories(world: World, connection: Connection, parentId: Option<CategoryId>, now: Time, dst: int)
      returns (reply: Reply)
      modifies this
      ensures (cache, reply) == ReadSpec(old(cache), filters, world, connection, parentId, now, dst)
    {
      var cached := FindCached(connection, parentId, now, dst);
      if |cached| > 0 {
        return Answered(ToDomain(connection, cached));
      }
      var upstream := world(connection, now);
      match upstream
      case Raising => return Raised;
      case NotBrowsable => return Answered(map[]);
      case Listing(tree) =>
        var categories := Children(tree, parentId);
        if |categories| > 0 {
          cache := Stored(cache, connection, categories, now);
        } else {
          StoringNothing(cache, connection, now);
        }
        reply := Answered(categories);
    }

    method InvalidateCache(connection: Connection)
      modifies this
      ensures cache == Invalidated(old(cache), connection)
      ensures forall k :: k in cache <==> k in old(cache) && k.0 != connection
      ensures forall k :: k in cache ==> cache[k] == old(cache)[k]
    {
      cache := map k | k in cache && k.0 != connection :: cache[k];
    }
  }

  function Invalidated(cache: Cache, connection: Connection): Cache {
    map k | k in cache && k.0 != connection :: cache[k]
  }

  // ---------------------------------------------------------------- a read, row by row

  /** The row is cached for the connection under this parent. */
  predicate AtLevel(cache: Cache, c: Connection, p: Option<CategoryId>, k: (Connection, CategoryId)) {
    k in cache && k.0 == c && cache[k].category.parentId == p
  }

  /** Some row is cached there, and none is older than 24 hours by the wall clock. */
  ghost predicate Fresh(cache: Cache, c: Connection, p: Option<CategoryId>, now: Time, dst: int) {
    && (exists k :: AtLevel(cache, c, p, k))
    && forall k :: AtLevel(cache, c, p, k) ==> now - cache[k].fetchedAt <= 86_400_000 + dst
  }

  /** The level a caller asks for: no parent and an empty parent id both mean the root. */
  predicate Wanted(tree: Categories, p: Option<CategoryId>, id: CategoryId) {
    id in tree && (if p == None || p == Some("") then tree[id].parentId == None else tree[id].parentId == p)
  }

  lemma FoundIsTheLevel(cache: Cache, filter: NullFilter, c: Connection, p: Option<CategoryId>)
    requires p.Some? || filter.IsNull?
    ensures forall k :: k in Found(cache, filter, c, p) <==> AtLevel(cache, c, p, k)
    ensures forall k :: k in Found(cache, filter, c, p) ==> Found(cache, filter, c, p)[k] == cache[k]
  {
  }

  lemma ServedIffFresh(cache: Cache, filters: NullFilters, c: Connection, p: Option<CategoryId>, now: Time, dst: int)
    requires p.Some? || filters.find.IsNull?
    ensures Served(cache, filters, c, p, now, dst) <==> Fresh(cache, c, p, now, dst)
  {
    FoundIsTheLevel(cache, filters.find, c, p);
    var found := Found(cache, filters.find, c, p);
    if found != map[] {
      var k :| k in found;
      assert AtLevel(cache, c, p, k);
    }
  }

  /** A fresh level is answered from the table, which stays as it is. */
  lemma HitInRows(cache: Cache, filters: NullFilters, world: World, c: Connection, p: Option<CategoryId>, now: Time,
                  dst: int, id: CategoryId)
    requires (p.Some? || filters.find.IsNull?) && Fresh(cache, c, p, now, dst)
    ensures var (after, reply) := ReadSpec(cache, filters, world, c, p, now, dst);
            && after == cache && reply.Answered?
            && (id in reply.categories <==> AtLevel(cache, c, p, (c, id)))
            && (id in reply.categories ==> reply.categories[id] == cache[(c, id)].category)
  {
    ServedIffFresh(cache, filters, c, p, now, dst);
    HitReturnsFound(cache, filters.find, c, p, id);
  }

  /** Any other level is deleted and, if the upstream lists its tree, stored anew; no other row changes. */
  lemma MissInRows(cache: Cache, filters: NullFilters, world: World, c: Connection, p: Option<CategoryId>, now: Time,
                   dst: int, k: (Connection, CategoryId))
    requires p.Some? || (filters.find.IsNull? && filters.delete.IsNull?)
    requires !Fresh(cache, c, p, now, dst)
    ensures var (after, reply) := ReadSpec(cache, filters, world, c, p, now, dst);
            var upstream := world(c, now);
            && (upstream.Raising? ==> reply == Raised)
            && (upstream.NotBrowsable? ==> reply == Answered(map[]))
            && (upstream.Listing? ==>
                  && reply.Answered?
                  && (k.1 in reply.categories <==> Wanted(upstream.tree, p, k.1))
                  && (k.1 in reply.categories ==> reply.categories[k.1] == upstream.tree[k.1]))
            && (if k.0 == c && upstream.Listing? && Wanted(upstream.tree, p, k.1) then
                  k in after && after[k] == Row(upstream.tree[k.1], now)
                else if AtLevel(cache, c, p, k) then k !in after
                else (k in after <==> k in cache) && (k in after ==> after[k] == cache[k]))
  {
    ServedIffFresh(cache, filters, c, p, now, dst);
    ReadLeaves(cache, filters, world, c, p, now, dst);
    FoundIsTheLevel(cache, filters.find, c, p);
    FoundIsTheLevel(cache, filters.delete, c, p);
    EvictedLevel(cache, filters, c, p, now, dst, k);
    if k.0 == c {
      assert k == (c, k.1);
    }
  }

  lemma EvictedLevel(cache: Cache, filters: NullFilters, c: Connection, p: Option<CategoryId>, now: Time, dst: int,
                     k: (Connection, CategoryId))
    requires p.Some? || (filters.find.IsNull? && filters.delete.IsNull?)
    requires !Fresh(cache, c, p, now, dst)
    ensures var kept := Evicted(cache, filters, c, p, now, dst);
            if AtLevel(cache, c, p, k) then k !in kept else (k in kept <==> k in cache) && (k in kept ==> kept[k] == cache[k])
  {
    FoundIsTheLevel(cache, filters.find, c, p);
    FoundIsTheLevel(cache, filters.delete, c, p);
    if AtLevel(cache, c, p, k) {
      var stale :| AtLevel(cache, c, p, stale) && now - cache[stale].fetchedAt > 86_400_000 + dst;
      assert stale in Found(cache, filters.find, c, p);
    }
  }

  // ---------------------------------------------------------------- runs

  datatype Event =
    | Read(connection: Connection, parentId: Option<CategoryId>, now: Time, dst: int)
    | Invalidate(connection: Connection)

  function Happen(cache: Cache, filters: NullFilters, world: World, e: Event): Cache {
    match e
    case Read(connection, parentId, now, dst) => ReadSpec(cache, filters, world, connection, parentId, now, dst).0
    case Invalidate(connection) => Invalidated(cache, connection)
  }

  function Run(cache: Cache, filters: NullFilters, world: World, events: seq<Event>): Cache
    decreases |events|
  {
    if events == [] then cache else Run(Happen(cache, filters, world, events[0]), filters, world, events[1..])
  }

  // ---------------------------------------------------------------- a taxonomy that does not change

  /** Whenever the upstream of connection `c` lists its tree, it is this one; at other times the call may fail. */
  ghost predicate Fixed(world: World, c: Connection, tree: Categories) {
    forall t: Time :: world(c, t).Listing? ==> world(c, t).tree == tree
  }

  /** The read is answered from the table. */
  predicate Served(cache: Cache, filters: NullFilters, c: Connection, parentId: Option<CategoryId>, now: Time, dst: int) {
    var found := Found(cache, filters.find, c, parentId);
    found != map[] && !AnyStale(found, now, dst)
  }

  /** What a read has to answer when the upstream lists nothing. */
  function Failure(upstream: Upstream): Reply {
    if upstream.Raising? then Raised else Answered(map[])
  }

  ghost predicate InLevel(cache: Cache, c: Connection, p: Option<CategoryId>, id: CategoryId) {
    (c, id) in cache && cache[(c, id)].category.parentId == p
  }

  /** Each cached level is absent or complete, with one fetch time. */
  ghost predicate WholeLevels(cache: Cache, c: Connection, tree: Categories) {
    && (forall id :: (c, id) in cache ==>
          id in tree && cache[(c, id)].category == tree[id] && tree[id].parentId != Some(""))
    && (forall p, a, b :: InLevel(cache, c, p, a) && b in tree && tree[b].parentId == p ==>
          (c, b) in cache && cache[(c, b)].fetchedAt == cache[(c, a)].fetchedAt)
  }

  /** Dropping whole levels or storing a whole level keeps the invariant. */
  lemma ReadKeepsWholeLevels(cache: Cache, filters: NullFilters, world: World, c: Connection, tree: Categories,
                             parentId: Option<CategoryId>, now: Time, dst: int)
    requires Fixed(world, c, tree) && WholeLevels(cache, c, tree)
    ensures WholeLevels(ReadSpec(cache, filters, world, c, parentId, now, dst).0, c, tree)
  {
    ReadLeaves(cache, filters, world, c, parentId, now, dst);
    EvictingKeepsWholeLevels(cache, filters, c, tree, parentId, now, dst);
    if world(c, now).Listing? {
      StoringKeepsWholeLevels(Evicted(cache, filters, c, parentId, now, dst), c, tree, parentId, now);
    }
  }

  /** The table after a read. */
  lemma ReadLeaves(cache: Cache, filters: NullFilters, world: World, c: Connection, parentId: Option<CategoryId>,
                   now: Time, dst: int)
    ensures var kept := Evicted(cache, filters, c, parentId, now, dst);
            ReadSpec(cache, filters, world, c, parentId, now, dst).0
            == if !Served(cache, filters, c, parentId, now, dst) && world(c, now).Listing?
               then Stored(kept, c, Children(world(c, now).tree, parentId), now) else kept
  {
  }

  lemma EvictingKeepsWholeLevels(cache: Cache, filters: NullFilters, c: Connection, tree: Categories,
                                 parentId: Option<CategoryId>, now: Time, dst: int)
    requires WholeLevels(cache, c, tree)
    ensures WholeLevels(Evicted(cache, filters, c, parentId, now, dst), c, tree)
  {
    var kept := Evicted(cache, filters, c, parentId, now, dst);
    forall p, a, b | InLevel(kept, c, p, a) && b in tree && tree[b].parentId == p
      ensures (c, b) in kept && kept[(c, b)].fetchedAt == kept[(c, a)].fetchedAt
    {
      assert InLevel(cache, c, p, a);
    }
  }

  lemma StoringKeepsWholeLevels(kept: Cache, c: Connection, tree: Categories, parentId: Option<CategoryId>, now: Time)
    requires WholeLevels(kept, c, tree)
    ensures WholeLevels(Stored(kept, c, Children(tree, parentId), now), c, tree)
  {
    var stored := Stored(kept, c, Children(tree, parentId), now);
    forall p, a, b | InLevel(stored, c, p, a) && b in tree && tree[b].parentId == p
      ensures (c, b) in stored && stored[(c, b)].fetchedAt == stored[(c, a)].fetchedAt
    {
      if p != Level(parentId) {
        assert InLevel(kept, c, p, a);
      }
    }
  }

  lemma OtherConnectionUntouched(cache: Cache, filters: NullFilters, world: World, c: Connection, tree: Categories, e: Event)
    requires e.connection != c && WholeLevels(cache, c, tree)
    ensures WholeLevels(Happen(cache, filters, world, e), c, tree)
  {
    var after := Happen(cache, filters, world, e);
    assert forall id :: (c, id) in after <==> (c, id) in cache;
    assert forall id :: (c, id) in cache ==> after[(c, id)] == cache[(c, id)];
    forall p, a, b | InLevel(after, c, p, a) && b in tree && tree[b].parentId == p
      ensures (c, b) in after && after[(c, b)].fetchedAt == after[(c, a)].fetchedAt
    {
      assert InLevel(cache, c, p, a);
    }
  }

  lemma {:induction false} RunKeepsWholeLevels(cache: Cache, filters: NullFilters, world: World, c: Connection,
                                               tree: Categories, events: seq<Event>)
    requires Fixed(world, c, tree) && WholeLevels(cache, c, tree)
    ensures WholeLevels(Run(cache, filters, world, events), c, tree)
    decreases |events|
  {
    if events != [] {
      var e := events[0];
      if e.connection != c {
        OtherConnectionUntouched(cache, filters, world, c, tree, e);
      } else if e.Read? {
        ReadKeepsWholeLevels(cache, filters, world, c, tree, e.parentId, e.now, e.dst);
      }
      RunKeepsWholeLevels(Happen(cache, filters, world, e), filters, world, c, tree, events[1..]);
    }
  }

  /** What a hit returns, level by level. */
  lemma HitReturnsFound(cache: Cache, filter: NullFilter, c: Connection, parentId: Option<CategoryId>, id: CategoryId)
    ensures var found := Found(cache, filter, c, parentId);
            && (id in ToDomain(c, found) <==> (c, id) in cache && Selected(filter, c, parentId, (c, id), cache[(c, id)]))
            && (id in ToDomain(c, found) ==> ToDomain(c, found)[id] == cache[(c, id)].category)
  {
    var found := Found(cache, filter, c, parentId);
    if (c, id) in found {
      assert (c, id).1 == id;
    }
  }

  /**
   * After any run over a fixed tree, every read returns exactly the children of the asked parent, or passes
   * on the failure of the upstream call it needed. For the root level this needs the null filter not to be
   * dropped from the look-up. The delete's filter is free.
   */
  lemma ReadReturnsTheChildren(filters: NullFilters, world: World, c: Connection, tree: Categories, events: seq<Event>,
                               parentId: Option<CategoryId>, now: Time, dst: int)
    requires Fixed(world, c, tree) && (parentId.Some? || !filters.find.Ignored?)
    ensures var cache := Run(map[], filters, world, events);
            ReadSpec(cache, filters, world, c, parentId, now, dst).1
            == if Served(cache, filters, c, parentId, now, dst) || world(c, now).Listing?
               then Answered(Children(tree, parentId)) else Failure(world(c, now))
  {
    RunKeepsWholeLevels(map[], filters, world, c, tree, events);
    var cache := Run(map[], filters, world, events);
    if Served(cache, filters, c, parentId, now, dst) {
      SelectedLevelIsTheChildren(cache, filters.find, c, tree, parentId);
    }
  }

  lemma SelectedLevelIsTheChildren(cache: Cache, filter: NullFilter, c: Connection, tree: Categories, parentId: Option<CategoryId>)
    requires WholeLevels(cache, c, tree) && (parentId.Some? || !filter.Ignored?) && Found(cache, filter, c, parentId) != map[]
    ensures ToDomain(c, Found(cache, filter, c, parentId)) == Children(tree, parentId)
  {
    var found := Found(cache, filter, c, parentId);
    var k :| k in found;
    assert InLevel(cache, c, parentId, k.1);
    assert parentId == Level(parentId);
    forall id
      ensures id in ToDomain(c, found) <==> id in Children(tree, parentId)
      ensures id in Children(tree, parentId) ==> ToDomain(c, found)[id] == Children(tree, parentId)[id]
    {
      HitReturnsFound(cache, filter, c, parentId, id);
    }
  }

  /**
   * If the look-up drops the null filter, a root read selects every cached row of the connection. Served
   * from the table it is right exactly when all those rows are root rows; otherwise exactly when the
   * upstream lists the tree, or cannot and there are no root categories.
   */
  lemma DroppedFilterRootReadIff(filters: NullFilters, world: World, c: Connection, tree: Categories, events: seq<Event>,
                                 now: Time, dst: int)
    requires Fixed(world, c, tree) && filters.find.Ignored?
    ensures var cache := Run(map[], filters, world, events);
            ReadSpec(cache, filters, world, c, None, now, dst).1 == Answered(Children(tree, None))
            <==> if Served(cache, filters, c, None, now, dst)
                 then forall id :: (c, id) in cache ==> cache[(c, id)].category.parentId == None
                 else world(c, now).Listing? || (world(c, now).NotBrowsable? && Children(tree, None) == map[])
  {
    var cache := Run(map[], filters, world, events);
    RunKeepsWholeLevels(map[], filters, world, c, tree, events);
    var found := Found(cache, Ignored, c, None);
    if Served(cache, filters, c, None, now, dst) {
      forall id ensures id in ToDomain(c, found) <==> (c, id) in cache {
        HitReturnsFound(cache, Ignored, c, None, id);
      }
      if forall id :: (c, id) in cache ==> cache[(c, id)].category.parentId == None {
        var k :| k in found;
        assert InLevel(cache, c, None, k.1);
        forall id | id in Children(tree, None) ensures id in ToDomain(c, found) && ToDomain(c, found)[id] == tree[id] {
          HitReturnsFound(cache, Ignored, c, None, id);
        }
        assert ToDomain(c, found) == Children(tree, None);
      }
    }
  }

  // ---------------------------------------------------------------- a taxonomy that changes

  /** Every cached row was an upstream category when it was fetched, and none was fetched after `limit`. */
  ghost predicate Witnessed(cache: Cache, world: World, limit: Time) {
    forall k :: k in cache ==> WitnessedRow(world, k, cache[k]) && cache[k].fetchedAt <= limit
  }

  ghost predicate WitnessedRow(world: World, k: (Connection, CategoryId), row: Row) {
    var upstream := world(k.0, row.fetchedAt);
    && upstream.Listing? && k.1 in upstream.tree && upstream.tree[k.1] == row.category
    && row.category.parentId != Some("")
  }

  /** No read of the run is made after `limit`. */
  ghost predicate ReadsUntil(events: seq<Event>, limit: Time) {
    forall e :: e in events && e.Read? ==> e.now <= limit
  }

  lemma StoringKeepsWitnesses(cache: Cache, world: World, c: Connection, parentId: Option<CategoryId>, now: Time, limit: Time)
    requires Witnessed(cache, world, limit) && now <= limit && world(c, now).Listing?
    ensures Witnessed(Stored(cache, c, Children(world(c, now).tree, parentId), now), world, limit)
  {
    var stored := Stored(cache, c, Children(world(c, now).tree, parentId), now);
    forall k | k in stored ensures WitnessedRow(world, k, stored[k]) && stored[k].fetchedAt <= limit {
      if k.0 == c && k.1 in Children(world(c, now).tree, parentId) {
        assert k == (c, k.1);
      }
    }
  }

  lemma HappenKeepsWitnesses(cache: Cache, filters: NullFilters, world: World, e: Event, limit: Time)
    requires Witnessed(cache, world, limit) && (e.Read? ==> e.now <= limit)
    ensures Witnessed(Happen(cache, filters, world, e), world, limit)
  {
    if e.Read? {
      ReadLeaves(cache, filters, world, e.connection, e.parentId, e.now, e.dst);
      var kept := Evicted(cache, filters, e.connection, e.parentId, e.now, e.dst);
      if world(e.connection, e.now).Listing? {
        StoringKeepsWitnesses(kept, world, e.connection, e.parentId, e.now, limit);
      }
    }
  }

  lemma {:induction false} RunKeepsWitnesses(cache: Cache, filters: NullFilters, world: World, events: seq<Event>, limit: Time)
    requires Witnessed(cache, world, limit) && ReadsUntil(events, limit)
    ensures Witnessed(Run(cache, filters, world, events), world, limit)
    decreases |events|
  {
    if events != [] {
      assert events[0].Read? ==> events[0].now <= limit;
      HappenKeepsWitnesses(cache, filters, world, events[0], limit);
      RunKeepsWitnesses(Happen(cache, filters, world, events[0]), filters, world, events[1..], limit);
    }
  }

  /** A child of `parentId` at some moment up to `now`, no more than 24 hours (plus a daylight-saving shift) before it. */
  ghost predicate RecentChild(world: World, c: Connection, parentId: Option<CategoryId>, id: CategoryId,
                              category: Category, now: Time, dst: int)
  {
    exists at: Time :: now - CACHE_TTL_MS - dst <= at <= now && world(c, at).Listing?
      && id in Children(world(c, at).tree, parentId) && world(c, at).tree[id] == category
  }

  /** Whatever happens upstream, every returned row was a child of that parent within the last day. */
  lemma ReadReturnsRecentChildren(filters: NullFilters, world: World, events: seq<Event>, c: Connection,
                                  parentId: Option<CategoryId>, now: Time, dst: int, id: CategoryId)
    requires (parentId.Some? || !filters.find.Ignored?) && dst >= -CACHE_TTL_MS && ReadsUntil(events, now)
    requires var reply := ReadSpec(Run(map[], filters, world, events), filters, world, c, parentId, now, dst).1;
             reply.Answered? && id in reply.categories
    ensures RecentChild(world, c, parentId, id,
              ReadSpec(Run(map[], filters, world, events), filters, world, c, parentId, now, dst).1.categories[id], now, dst)
  {
    var cache := Run(map[], filters, world, events);
    RunKeepsWitnesses(map[], filters, world, events, now);
    var found := Found(cache, filters.find, c, parentId);
    if found != map[] && !AnyStale(found, now, dst) {
      HitReturnsFound(cache, filters.find, c, parentId, id);
      assert (c, id) in found && WitnessedRow(world, (c, id), cache[(c, id)]);
      var at := cache[(c, id)].fetchedAt;
      assert id in Children(world(c, at).tree, parentId);
    } else {
      assert now - CACHE_TTL_MS - dst <= now;
      assert id in Children(world(c, now).tree, parentId);
    }
  }

  /** Everything a read with this clock shift returns was a child of that parent within 24 hours. */
  ghost predicate WithinADay(filters: NullFilters, world: World, events: seq<Event>, c: Connection,
                             parentId: Option<CategoryId>, now: Time, dst: int)
  {
    var reply := ReadSpec(Run(map[], filters, world, events), filters, world, c, parentId, now, dst).1;
    reply.Answered? ==> forall id :: id in reply.categories ==>
      RecentChild(world, c, parentId, id, reply.categories[id], now, 0)
  }

  /** The documented 24 hours hold for every upstream and every run exactly when the clock shift is not positive. */
  lemma WithinADayIff(filters: NullFilters, dst: int)
    requires dst >= -CACHE_TTL_MS
    ensures dst <= 0 <==>
              forall world, events, c, parentId: Option<CategoryId>, now ::
                (parentId.Some? || !filters.find.Ignored?) && ReadsUntil(events, now) ==>
                  WithinADay(filters, world, events, c, parentId, now, dst)
  {
    if dst <= 0 {
      forall world, events, c, parentId: Option<CategoryId>, now | (parentId.Some? || !filters.find.Ignored?) && ReadsUntil(events, now)
        ensures WithinADay(filters, world, events, c, parentId, now, dst)
      {
        var reply := ReadSpec(Run(map[], filters, world, events), filters, world, c, parentId, now, dst).1;
        if reply.Answered? {
          forall id | id in reply.categories ensures RecentChild(world, c, parentId, id, reply.categories[id], now, 0) {
            ReadReturnsRecentChildren(filters, world, events, c, parentId, now, dst, id);
          }
        }
      }
    } else {
      ShiftedClockServesLonger(filters, dst);
    }
  }

  const GONE := Category("gone", Some("p"), true)

  /** A category listed at time 0 only. */
  function Vanishing(): World {
    (c, t) => Listing(if t == 0 then map["a" := GONE] else map[])
  }

  const FIRST := Read("c", Some("p"), 0, 0)

  lemma FirstReadStores(filters: NullFilters)
    ensures Run(map[], filters, Vanishing(), [FIRST]) == map[("c", "a") := Row(GONE, 0)]
  {
    var cache := Happen(map[], filters, Vanishing(), FIRST);
    assert Run(map[], filters, Vanishing(), [FIRST]) == Run(cache, filters, Vanishing(), []);
    assert Children(map["a" := GONE], Some("p")) == map["a" := GONE];
  }

  lemma SecondReadServes(filters: NullFilters, dst: int)
    requires dst > 0
    ensures var cache := map[("c", "a") := Row(GONE, 0)];
            ReadSpec(cache, filters, Vanishing(), "c", Some("p"), CACHE_TTL_MS + dst, dst).1 == Answered(map["a" := GONE])
  {
    var cache := map[("c", "a") := Row(GONE, 0)];
    var found := Found(cache, filters.find, "c", Some("p"));
    assert found == cache && ("c", "a") in found;
    assert ToDomain("c", cache) == map["a" := GONE] by {
      assert ("c", "a").1 == "a";
    }
  }

  /** Read at time 0 and again a day and the shift later: the row is served, a day and the shift old. */
  lemma ShiftedClockServesLonger(filters: NullFilters, dst: int)
    requires dst > 0
    ensures ReadsUntil([FIRST], CACHE_TTL_MS + dst)
    ensures !WithinADay(filters, Vanishing(), [FIRST], "c", Some("p"), CACHE_TTL_MS + dst, dst)
  {
    FirstReadStores(filters);
    SecondReadServes(filters, dst);
    assert !RecentChild(Vanishing(), "c", Some("p"), "a", GONE, CACHE_TTL_MS + dst, 0);
    assert "a" in map["a" := GONE];
  }

  /** A cached level is served exactly while it is at most 24 h old by the wall clock: with dst > 0, longer. */
  lemma LevelServedIff(cache: Cache, filter: NullFilter, c: Connection, tree: Categories, parentId: Option<CategoryId>,
                       id: CategoryId, now: Time, dst: int)
    requires WholeLevels(cache, c, tree) && (parentId.Some? || filter.IsNull?) && InLevel(cache, c, parentId, id)
    ensures !AnyStale(Found(cache, filter, c, parentId), now, dst) <==> now - cache[(c, id)].fetchedAt <= CACHE_TTL_MS + dst
  {
    var found := Found(cache, filter, c, parentId);
    assert (c, id) in found;
    forall k | k in found ensures found[k].fetchedAt == cache[(c, id)].fetchedAt {
      assert (c, k.1) == k;
    }
  }
}
