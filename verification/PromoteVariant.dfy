/**
 * Migration 1788000000000-promote-product-variant-entity-type: variant rows move from
 * entityType 'Product' with `ol_product_*` ids to 'ProductVariant' with `ol_variant_*` ids, in step
 * over four tables, inside one transaction. `down` reverses it behind a collision check.
 */
module PromoteVariant {
  import opened Wrappers

  const PRODUCT := "Product"
  const PRODUCT_VARIANT := "ProductVariant"
  const PRODUCT_PREFIX := "ol_product_"
  const VARIANT_PREFIX := "ol_variant_"

  /** The JSON value under metadata.isVariant; `->>` reads both spellings of true as the text 'true'. */
  datatype Marker = TextTrue | BoolTrue | OtherJson(text: string)

  datatype Metadata = Metadata(isVariant: Option<Marker>, rest: string)

  /** The nullable jsonb column; `rest` stands for the keys the migration never looks at. */
  datatype Context = Null | Json(metadata: Option<Metadata>, rest: string)

  datatype Mapping = Mapping(
    id: int, entityType: string, internalId: string, externalId: string,
    platformType: string, connectionId: string, context: Context)

  datatype Variant = Variant(id: string, data: string)
  datatype Item = Item(id: string, productVariantId: Option<string>, data: string)
  datatype Offer = Offer(id: string, internalVariantId: string, data: string)

  datatype Database = Database(
    mappings: seq<Mapping>, variants: seq<Variant>, items: seq<Item>, offers: seq<Offer>)

  datatype Result = Committed | RolledBack(reason: Failure)
  datatype Failure = PrimaryKeyViolation | MappingKeyViolation | ForeignKeyViolation | WouldCollide

  // ---------------------------------------------------------------- predicates of the SQL text

  /** LIKE 'ol_product_%': an underscore in a LIKE pattern matches any one character. */
  predicate LikeProduct(s: string) {
    |s| >= 11 && s[..2] == "ol" && s[3..10] == "product"
  }

  predicate LikeVariant(s: string) {
    |s| >= 11 && s[..2] == "ol" && s[3..10] == "variant"
  }

  /** `substring(id from 12)` under a new prefix. */
  function Reprefix(prefix: string, id: string): string {
    prefix + if |id| >= 11 then id[11..] else ""
  }

  predicate IsMarked(c: Context) {
    c.Json? && c.metadata.Some? && (c.metadata.value.isVariant == Some(TextTrue) || c.metadata.value.isVariant == Some(BoolTrue))
  }

  /** The rows `up` promotes. */
  predicate Flagged(m: Mapping) {
    m.entityType == PRODUCT && IsMarked(m.context) && LikeProduct(m.internalId)
  }

  /** The rows `down` reverts. */
  predicate Promoted(m: Mapping) {
    m.entityType == PRODUCT_VARIANT && LikeVariant(m.internalId)
  }

  /** jsonb_set with create_missing adds the last path step only: no metadata object, no change. */
  function SetMarker(c: Context): Context {
    match c
    case Null => Json(None, "")
    case Json(metadata, rest) =>
      if metadata.None? then c else Json(Some(metadata.value.(isVariant := Some(BoolTrue))), rest)
  }

  // ---------------------------------------------------------------- the two rewrites

  function FlaggedIds(mappings: seq<Mapping>): set<string> {
    set m | m in mappings && Flagged(m) :: m.internalId
  }

  function PromotedIds(mappings: seq<Mapping>): set<string> {
    set m | m in mappings && Promoted(m) :: m.internalId
  }

  /** `SET id = m.new FROM projection m WHERE id = m.old`: the new id depends on the old one alone. */
  function Renamed(ids: set<string>, prefix: string, id: string): string {
    if id in ids then Reprefix(prefix, id) else id
  }

  function RenameVariants(rows: seq<Variant>, ids: set<string>, prefix: string): seq<Variant> {
    seq(|rows|, i requires 0 <= i < |rows| => rows[i].(id := Renamed(ids, prefix, rows[i].id)))
  }

  function RenameItems(rows: seq<Item>, ids: set<string>, prefix: string): seq<Item> {
    seq(|rows|, i requires 0 <= i < |rows| =>
      if rows[i].productVariantId.Some? then
        rows[i].(productVariantId := Some(Renamed(ids, prefix, rows[i].productVariantId.value)))
      else rows[i])
  }

  function RenameOffers(rows: seq<Offer>, ids: set<string>, prefix: string): seq<Offer> {
    seq(|rows|, i requires 0 <= i < |rows| =>
      rows[i].(internalVariantId := Renamed(ids, prefix, rows[i].internalVariantId)))
  }

  function Promote(m: Mapping): Mapping {
    if Flagged(m) then m.(internalId := Reprefix(VARIANT_PREFIX, m.internalId), entityType := PRODUCT_VARIANT) else m
  }

  function Demote(m: Mapping): Mapping {
    if Promoted(m) then
      m.(internalId := Reprefix(PRODUCT_PREFIX, m.internalId), entityType := PRODUCT, context := SetMarker(m.context))
    else m
  }

  function PromoteMappings(rows: seq<Mapping>): seq<Mapping> {
    seq(|rows|, i requires 0 <= i < |rows| => Promote(rows[i]))
  }

  function DemoteMappings(rows: seq<Mapping>): seq<Mapping> {
    seq(|rows|, i requires 0 <= i < |rows| => Demote(rows[i]))
  }

  function UpState(db: Database): Database {
    var ids := FlaggedIds(db.mappings);
    Database(PromoteMappings(db.mappings), RenameVariants(db.variants, ids, VARIANT_PREFIX),
             RenameItems(db.items, ids, VARIANT_PREFIX), RenameOffers(db.offers, ids, VARIANT_PREFIX))
  }

  function DownState(db: Database): Database {
    var ids := PromotedIds(db.mappings);
    Database(DemoteMappings(db.mappings), RenameVariants(db.variants, ids, PRODUCT_PREFIX),
             RenameItems(db.items, ids, PRODUCT_PREFIX), RenameOffers(db.offers, ids, PRODUCT_PREFIX))
  }

  // ---------------------------------------------------------------- constraints

  predicate DistinctIds(rows: seq<Variant>) {
    forall i, j :: 0 <= i < j < |rows| ==> rows[i].id != rows[j].id
  }

  predicate SameExternal(a: Mapping, b: Mapping) {
    a.platformType == b.platformType && a.connectionId == b.connectionId && a.externalId == b.externalId
  }

  predicate DistinctKeys(rows: seq<Mapping>) {
    forall i, j :: 0 <= i < j < |rows| ==> !(rows[i].entityType == rows[j].entityType && SameExternal(rows[i], rows[j]))
  }

  predicate ForeignKeyHolds(items: seq<Item>, variants: seq<Variant>) {
    forall n :: 0 <= n < |items| && items[n].productVariantId.Some? ==>
      exists k :: 0 <= k < |variants| && variants[k].id == items[n].productVariantId.value
  }

  predicate Consistent(db: Database) {
    DistinctIds(db.variants) && DistinctKeys(db.mappings) && ForeignKeyHolds(db.items, db.variants)
  }

  /** `down`'s pre-flight query. */
  predicate Collides(mappings: seq<Mapping>) {
    exists i, j :: 0 <= i < |mappings| && 0 <= j < |mappings| && mappings[i].entityType == PRODUCT_VARIANT
                   && mappings[j].entityType == PRODUCT && SameExternal(mappings[i], mappings[j])
  }

  // ---------------------------------------------------------------- the migration

  class Tables {
    var mappings: seq<Mapping>
    var variants: seq<Variant>
    var items: seq<Item>
    var offers: seq<Offer>

    function State(): Database
      reads this
    {
      Database(mappings, variants, items, offers)
    }

    constructor (db: Database)
      ensures State() == db
    {
      mappings, variants, items, offers := db.mappings, db.variants, db.items, db.offers;
    }

    method Rollback(db: Database)
      modifies this
      ensures State() == db
    {
      mappings, variants, items, offers := db.mappings, db.variants, db.items, db.offers;
    }

    /** Steps 3 to 6 and 9, statement by statement; a violated constraint rolls the transaction back. */
    method Up() returns (result: Result)
      modifies this
      ensures State() == if result.Committed? then UpState(old(State())) else old(State())
      ensures result.Committed? <==> Consistent(UpState(old(State())))
      ensures result == RolledBack(PrimaryKeyViolation) <==> !DistinctIds(UpState(old(State())).variants)
      ensures result == RolledBack(MappingKeyViolation) ==> !DistinctKeys(UpState(old(State())).mappings)
      ensures result != RolledBack(WouldCollide)
    {
      var before := State();
      var projection := FlaggedIds(mappings);
      variants := RenameVariants(variants, projection, VARIANT_PREFIX);
      if !DistinctIds(variants) {
        Rollback(before);
        return RolledBack(PrimaryKeyViolation);
      }
      items := RenameItems(items, projection, VARIANT_PREFIX);
      offers := RenameOffers(offers, projection, VARIANT_PREFIX);
      mappings := PromoteMappings(mappings);
      if !DistinctKeys(mappings) {
        Rollback(before);
        return RolledBack(MappingKeyViolation);
      }
      if !ForeignKeyHolds(items, variants) {
        Rollback(before);
        return RolledBack(ForeignKeyViolation);
      }
      result := Committed;
    }

    method Down() returns (result: Result)
      modifies this
      ensures State() == if result.Committed? then DownState(old(State())) else old(State())
      ensures result.Committed? <==> !Collides(old(mappings)) && Consistent(DownState(old(State())))
      ensures result == RolledBack(WouldCollide) <==>
                exists i, j :: 0 <= i < |old(mappings)| && 0 <= j < |old(mappings)|
                  && old(mappings)[i].entityType == "ProductVariant" && old(mappings)[j].entityType == "Product"
                  && old(mappings)[i].platformType == old(mappings)[j].platformType
                  && old(mappings)[i].connectionId == old(mappings)[j].connectionId
                  && old(mappings)[i].externalId == old(mappings)[j].externalId
      ensures result == RolledBack(PrimaryKeyViolation) ==> !DistinctIds(DownState(old(State())).variants)
    {
      if Collides(mappings) {
        return RolledBack(WouldCollide);
      }
      var before := State();
      var projection := PromotedIds(mappings);
      variants := RenameVariants(variants, projection, PRODUCT_PREFIX);
      if !DistinctIds(variants) {
        Rollback(before);
        return RolledBack(PrimaryKeyViolation);
      }
      items := RenameItems(items, projection, PRODUCT_PREFIX);
      offers := RenameOffers(offers, projection, PRODUCT_PREFIX);
      mappings := DemoteMappings(mappings);
      if !DistinctKeys(mappings) {
        Rollback(before);
        return RolledBack(MappingKeyViolation);
      }
      if !ForeignKeyHolds(items, variants) {
        Rollback(before);
        return RolledBack(ForeignKeyViolation);
      }
      result := Committed;
    }
  }

  /**
   * A new id is never itself an old one, in either direction, so no row that is still to be updated can
   * clash with one already updated: checking uniqueness per row or at the end comes to the same.
   */
  lemma NewIdsAreNotOldIds(id: string)
    ensures !LikeProduct(Reprefix(VARIANT_PREFIX, id)) && LikeVariant(Reprefix(VARIANT_PREFIX, id))
    ensures !LikeVariant(Reprefix(PRODUCT_PREFIX, id)) && LikeProduct(Reprefix(PRODUCT_PREFIX, id))
  {
    var v, p := Reprefix(VARIANT_PREFIX, id), Reprefix(PRODUCT_PREFIX, id);
    assert v[..2] == "ol" && v[3..10] == "variant" && "variant"[0] == 'v';
    assert p[..2] == "ol" && p[3..10] == "product" && "product"[0] == 'p';
  }

  // ---------------------------------------------------------------- documented ids

  /** `ol_<entity>_<hex>`: an id the LIKE gate accepts starts with the literal prefix, and no id is new-style. */
  predicate Documented(id: string) {
    (LikeProduct(id) ==> PRODUCT_PREFIX <= id) && !LikeVariant(id)
  }

  /** The data before the migration: documented ids everywhere, no ProductVariant row yet. */
  predicate PreMigration(db: Database) {
    && Consistent(db)
    && (forall m :: m in db.mappings ==> m.entityType != PRODUCT_VARIANT && Documented(m.internalId))
    && (forall v :: v in db.variants ==> Documented(v.id))
    && (forall i :: i in db.items && i.productVariantId.Some? ==> Documented(i.productVariantId.value))
    && (forall o :: o in db.offers ==> Documented(o.internalVariantId))
  }

  lemma PrefixRoundTrip(id: string)
    requires PRODUCT_PREFIX <= id
    ensures Reprefix(PRODUCT_PREFIX, Reprefix(VARIANT_PREFIX, id)) == id
  {
    assert id == PRODUCT_PREFIX + id[11..];
    assert Reprefix(VARIANT_PREFIX, id)[11..] == id[11..];
  }

  /** The renaming is injective on documented ids: references are equal after it exactly when before. */
  lemma RenamingInjective(db: Database, a: string, b: string)
    requires PreMigration(db) && Documented(a) && Documented(b)
    ensures var ids := FlaggedIds(db.mappings);
            Renamed(ids, VARIANT_PREFIX, a) == Renamed(ids, VARIANT_PREFIX, b) <==> a == b
  {
    var ids := FlaggedIds(db.mappings);
    NewIdsAreNotOldIds(a);
    NewIdsAreNotOldIds(b);
    if a in ids && b in ids {
      PrefixRoundTrip(a);
      PrefixRoundTrip(b);
    }
  }

  // ---------------------------------------------------------------- up

  predicate ItemPointsAt(db: Database, n: nat, k: nat) {
    n < |db.items| && k < |db.variants| && db.items[n].productVariantId == Some(db.variants[k].id)
  }

  predicate OfferPointsAt(db: Database, n: nat, k: nat) {
    n < |db.offers| && k < |db.variants| && db.offers[n].internalVariantId == db.variants[k].id
  }

  predicate MappingNames(db: Database, m: nat, k: nat) {
    m < |db.mappings| && k < |db.variants| && db.mappings[m].internalId == db.variants[k].id
  }

  /** On well-formed data `up` commits, and every inventory and offer reference keeps its target row. */
  lemma UpPreservesReferences(db: Database)
    requires PreMigration(db)
    ensures var up := UpState(db);
            && Consistent(up)
            && (forall n: nat, k: nat :: ItemPointsAt(up, n, k) <==> ItemPointsAt(db, n, k))
            && (forall n: nat, k: nat :: OfferPointsAt(up, n, k) <==> OfferPointsAt(db, n, k))
            && (forall m: nat, k: nat :: m < |db.mappings| && Flagged(db.mappings[m]) ==>
                  (MappingNames(up, m, k) <==> MappingNames(db, m, k)))
  {
    var up := UpState(db);
    var ids := FlaggedIds(db.mappings);
    forall n: nat, k: nat ensures ItemPointsAt(up, n, k) <==> ItemPointsAt(db, n, k) {
      if n < |db.items| && k < |db.variants| && db.items[n].productVariantId.Some? {
        assert db.items[n] in db.items && db.variants[k] in db.variants;
        RenamingInjective(db, db.items[n].productVariantId.value, db.variants[k].id);
      }
    }
    forall n: nat, k: nat ensures OfferPointsAt(up, n, k) <==> OfferPointsAt(db, n, k) {
      if n < |db.offers| && k < |db.variants| {
        assert db.offers[n] in db.offers && db.variants[k] in db.variants;
        RenamingInjective(db, db.offers[n].internalVariantId, db.variants[k].id);
      }
    }
    forall m: nat, k: nat | m < |db.mappings| && Flagged(db.mappings[m])
      ensures MappingNames(up, m, k) <==> MappingNames(db, m, k)
    {
      if k < |db.variants| {
        assert db.mappings[m] in db.mappings && db.variants[k] in db.variants;
        assert db.mappings[m].internalId in ids;
        RenamingInjective(db, db.mappings[m].internalId, db.variants[k].id);
      }
    }
    UpConsistent(db);
  }

  lemma UpConsistent(db: Database)
    requires PreMigration(db)
    ensures Consistent(UpState(db))
  {
    var up := UpState(db);
    forall i, j | 0 <= i < j < |up.variants| ensures up.variants[i].id != up.variants[j].id {
      assert db.variants[i] in db.variants && db.variants[j] in db.variants;
      RenamingInjective(db, db.variants[i].id, db.variants[j].id);
    }
    forall i, j | 0 <= i < j < |up.mappings|
      ensures !(up.mappings[i].entityType == up.mappings[j].entityType && SameExternal(up.mappings[i], up.mappings[j]))
    {
      assert db.mappings[i] in db.mappings && db.mappings[j] in db.mappings;
    }
    RenamingKeepsForeignKey(db.items, db.variants, FlaggedIds(db.mappings), VARIANT_PREFIX);
  }

  /** Renaming both ends of a foreign key by one function keeps it. */
  lemma RenamingKeepsForeignKey(items: seq<Item>, variants: seq<Variant>, ids: set<string>, prefix: string)
    requires ForeignKeyHolds(items, variants)
    ensures ForeignKeyHolds(RenameItems(items, ids, prefix), RenameVariants(variants, ids, prefix))
  {
    var i2, v2 := RenameItems(items, ids, prefix), RenameVariants(variants, ids, prefix);
    forall n | 0 <= n < |i2| && i2[n].productVariantId.Some?
      ensures exists k :: 0 <= k < |v2| && v2[k].id == i2[n].productVariantId.value
    {
      var k :| 0 <= k < |variants| && variants[k].id == items[n].productVariantId.value;
      assert v2[k].id == i2[n].productVariantId.value;
    }
  }

  /**
   * The other mapping rows are not rewritten: one that names a renamed variant loses it. That hits every
   * 'Offer' row (those carry the variant's internal id) and every unflagged 'Product' row of that id.
   */
  lemma MappingKeepsItsVariantIff(db: Database, m: nat, k: nat)
    requires PreMigration(db) && MappingNames(db, m, k)
    ensures MappingNames(UpState(db), m, k)
       <==> Flagged(db.mappings[m]) || db.mappings[m].internalId !in FlaggedIds(db.mappings)
  {
    assert db.mappings[m] in db.mappings;
    NewIdsAreNotOldIds(db.mappings[m].internalId);
    if Flagged(db.mappings[m]) {
      UpPreservesReferences(db);
    }
  }

  /** A promoted product mapping and an offer mapping of one variant. */
  function OfferDatabase(id: string): Database {
    Database([Mapping(0, PRODUCT, id, "7", "prestashop", "c1", Json(Some(Metadata(Some(TextTrue), "")), "")),
              Mapping(1, "Offer", id, "900", "allegro", "c2", Null)],
             [Variant(id, "")], [], [])
  }

  lemma OfferDatabaseFlags(id: string)
    requires |id| > 11 && PRODUCT_PREFIX <= id
    ensures Flagged(OfferDatabase(id).mappings[0]) && FlaggedIds(OfferDatabase(id).mappings) == {id}
  {
    assert id[..2] == "ol" && id[3..10] == "product";
    assert OfferDatabase(id).mappings[0] in OfferDatabase(id).mappings;
  }

  lemma OfferDatabaseIsWellFormed(id: string)
    requires |id| > 11 && PRODUCT_PREFIX <= id
    ensures PreMigration(OfferDatabase(id))
  {
    OfferDatabaseFlags(id);
    assert "product"[0] != "variant"[0];
  }

  /** A concrete offer mapping that dangles after `up`. */
  lemma OfferMappingLosesItsVariant()
    ensures exists db, m: nat, k: nat ::
              && PreMigration(db) && MappingNames(db, m, k) && db.mappings[m].entityType == "Offer"
              && !MappingNames(UpState(db), m, k)
  {
    var id := "ol_product_a";
    assert PRODUCT_PREFIX <= id;
    OfferDatabaseFlags(id);
    OfferDatabaseIsWellFormed(id);
    assert MappingNames(OfferDatabase(id), 1, 0);
    MappingKeepsItsVariantIff(OfferDatabase(id), 1, 0);
  }

  /** Two variant rows that a rewrite would give one id: i is renamed onto j, or both onto one new id. */
  predicate VariantClash(rows: seq<Variant>, ids: set<string>, prefix: string, i: nat, j: nat) {
    && i < |rows| && j < |rows| && i != j && rows[i].id in ids && |rows[i].id| >= 11
    && (rows[j].id == Reprefix(prefix, rows[i].id)
        || (rows[j].id in ids && |rows[j].id| >= 11 && rows[i].id[11..] == rows[j].id[11..]))
  }

  /** A row already promoted under the key of a row to be promoted. */
  predicate KeyClash(db: Database, i: nat, j: nat) {
    && i < |db.mappings| && j < |db.mappings| && Flagged(db.mappings[i])
    && db.mappings[j].entityType == "ProductVariant"
    && db.mappings[i].platformType == db.mappings[j].platformType
    && db.mappings[i].connectionId == db.mappings[j].connectionId
    && db.mappings[i].externalId == db.mappings[j].externalId
  }

  /** From any consistent state, well-formed or not: `up` commits exactly when neither clash is present. */
  lemma UpCommitsIff(db: Database)
    requires Consistent(db)
    ensures Consistent(UpState(db)) <==>
              && (forall i: nat, j: nat :: !VariantClash(db.variants, FlaggedIds(db.mappings), VARIANT_PREFIX, i, j))
              && (forall i: nat, j: nat :: !KeyClash(db, i, j))
  {
    var ids := FlaggedIds(db.mappings);
    RenamingKeepsForeignKey(db.items, db.variants, ids, VARIANT_PREFIX);
    forall id | id in ids ensures |id| >= 11 && Reprefix(VARIANT_PREFIX, id) !in ids {
      NewIdsAreNotOldIds(id);
    }
    RenamedIdsDistinctIff(db.variants, ids, VARIANT_PREFIX);
    KeysStayDistinctIff(db);
  }

  /** The same for `down`: a silent check leaves one way to fail, a product-style id already in use. */
  lemma DownCommitsIff(db: Database)
    requires Consistent(db) && !Collides(db.mappings)
    ensures Consistent(DownState(db)) <==>
              forall i: nat, j: nat :: !VariantClash(db.variants, PromotedIds(db.mappings), PRODUCT_PREFIX, i, j)
  {
    var ids := PromotedIds(db.mappings);
    RenamingKeepsForeignKey(db.items, db.variants, ids, PRODUCT_PREFIX);
    forall id | id in ids ensures |id| >= 11 && Reprefix(PRODUCT_PREFIX, id) !in ids {
      NewIdsAreNotOldIds(id);
    }
    RenamedIdsDistinctIff(db.variants, ids, PRODUCT_PREFIX);
    DownKeepsMappingKey(db);
  }

  lemma RenamedIdsDistinctIff(rows: seq<Variant>, ids: set<string>, prefix: string)
    requires DistinctIds(rows) && |prefix| == 11
    requires forall id :: id in ids ==> |id| >= 11 && Reprefix(prefix, id) !in ids
    ensures DistinctIds(RenameVariants(rows, ids, prefix)) <==> forall i: nat, j: nat :: !VariantClash(rows, ids, prefix, i, j)
  {
    var up := RenameVariants(rows, ids, prefix);
    forall i: nat, j: nat | i < |up| && j < |up| && i != j
      ensures up[i].id == up[j].id <==> VariantClash(rows, ids, prefix, i, j) || VariantClash(rows, ids, prefix, j, i)
    {
      var a, b := rows[i].id, rows[j].id;
      assert a != b;
      assert Reprefix(prefix, a)[11..] == if |a| >= 11 then a[11..] else "";
      assert Reprefix(prefix, b)[11..] == if |b| >= 11 then b[11..] else "";
    }
    if i: nat, j: nat :| VariantClash(rows, ids, prefix, i, j) {
      assert up[i].id == up[j].id;
    }
  }

  lemma KeysStayDistinctIff(db: Database)
    requires Consistent(db)
    ensures DistinctKeys(UpState(db).mappings) <==> forall i: nat, j: nat :: !KeyClash(db, i, j)
  {
    var up := UpState(db).mappings;
    if i: nat, j: nat :| KeyClash(db, i, j) {
      assert up[i].entityType == up[j].entityType && SameExternal(up[i], up[j]);
    }
    forall i: nat, j: nat | i < j < |up| && up[i].entityType == up[j].entityType && SameExternal(up[i], up[j])
      ensures KeyClash(db, i, j) || KeyClash(db, j, i)
    {
      assert SameExternal(db.mappings[i], db.mappings[j]);
    }
  }

  // ---------------------------------------------------------------- the rewrites, column by column

  /** `ol?<word>?<rest>`, with any one character where the pattern has an underscore. */
  ghost predicate Shaped(id: string, word: string, rest: string) {
    exists a: char, b: char :: id == "ol" + [a] + word + [b] + rest
  }

  lemma ShapeIff(id: string, word: string, rest: string)
    requires |word| == 7
    ensures Shaped(id, word, rest) <==> |id| >= 11 && id[..2] == "ol" && id[3..10] == word && id[11..] == rest
  {
    if a: char, b: char :| id == "ol" + [a] + word + [b] + rest {
      assert id[..2] == "ol" && id[3..10] == word && id[11..] == rest;
    }
    if |id| >= 11 {
      assert id == id[..2] + [id[2]] + id[3..10] + [id[10]] + id[11..];
    }
  }

  /** A 'Product' row for the variant `ol_product_<rest>`: its metadata says isVariant true, as text or boolean. */
  ghost predicate VariantMapping(m: Mapping, rest: string) {
    && m.entityType == "Product" && Shaped(m.internalId, "product", rest)
    && m.context.Json? && m.context.metadata.Some? && m.context.metadata.value.isVariant in {Some(TextTrue), Some(BoolTrue)}
  }

  /** A promoted row. */
  ghost predicate PromotedMapping(m: Mapping, rest: string) {
    m.entityType == "ProductVariant" && Shaped(m.internalId, "variant", rest)
  }

  lemma FlaggedIff(m: Mapping, rest: string)
    ensures VariantMapping(m, rest) <==> Flagged(m) && m.internalId[11..] == rest
  {
    ShapeIff(m.internalId, "product", rest);
  }

  lemma PromotedIff(m: Mapping, rest: string)
    ensures PromotedMapping(m, rest) <==> Promoted(m) && m.internalId[11..] == rest
  {
    ShapeIff(m.internalId, "variant", rest);
  }

  /** `up` on a mapping row: its type and id change if it is a variant's, no other column ever. */
  lemma UpMappingRow(db: Database, i: nat)
    requires i < |db.mappings|
    ensures var was := db.mappings[i];
            var now := UpState(db).mappings[i];
            && (forall rest :: VariantMapping(was, rest) ==>
                  now == was.(entityType := "ProductVariant", internalId := "ol_variant_" + rest))
            && ((forall rest :: !VariantMapping(was, rest)) ==> now == was)
  {
    var m := db.mappings[i];
    forall rest | VariantMapping(m, rest) ensures Flagged(m) && m.internalId[11..] == rest {
      FlaggedIff(m, rest);
    }
    if Flagged(m) {
      FlaggedIff(m, m.internalId[11..]);
    }
  }

  /** `down` on a mapping row: the marker is put back as a JSON boolean where there is a metadata object. */
  lemma DownMappingRow(db: Database, i: nat)
    requires i < |db.mappings|
    ensures var was := db.mappings[i];
            var now := DownState(db).mappings[i];
            && (forall rest :: PromotedMapping(was, rest) ==>
                  && now == was.(entityType := "Product", internalId := "ol_product_" + rest, context := now.context)
                  && (was.context.Json? && was.context.metadata.Some? ==>
                        now.context == was.context.(metadata := Some(was.context.metadata.value.(isVariant := Some(BoolTrue)))))
                  && (was.context.Json? && was.context.metadata.None? ==> now.context == was.context)
                  && (was.context.Null? ==> now.context.Json? && now.context.metadata.None?))
            && ((forall rest :: !PromotedMapping(was, rest)) ==> now == was)
  {
    var m := db.mappings[i];
    forall rest | PromotedMapping(m, rest) ensures Promoted(m) && m.internalId[11..] == rest {
      PromotedIff(m, rest);
    }
    if Promoted(m) {
      PromotedIff(m, m.internalId[11..]);
    }
  }

  /** Some mapping row names this id as that of a variant. */
  ghost predicate NamesVariant(db: Database, id: string, rest: string) {
    exists m :: m in db.mappings && m.internalId == id && VariantMapping(m, rest)
  }

  ghost predicate NamesPromoted(db: Database, id: string, rest: string) {
    exists m :: m in db.mappings && m.internalId == id && PromotedMapping(m, rest)
  }

  /** What `up` makes of an id in the other three tables. */
  ghost predicate UpId(db: Database, was: string, now: string) {
    && (forall rest :: NamesVariant(db, was, rest) ==> now == "ol_variant_" + rest)
    && ((forall rest :: !NamesVariant(db, was, rest)) ==> now == was)
  }

  ghost predicate DownId(db: Database, was: string, now: string) {
    && (forall rest :: NamesPromoted(db, was, rest) ==> now == "ol_product_" + rest)
    && ((forall rest :: !NamesPromoted(db, was, rest)) ==> now == was)
  }

  lemma UpIdIs(db: Database, id: string)
    ensures UpId(db, id, Renamed(FlaggedIds(db.mappings), VARIANT_PREFIX, id))
  {
    forall rest | NamesVariant(db, id, rest) ensures id in FlaggedIds(db.mappings) && |id| >= 11 && rest == id[11..] {
      var m :| m in db.mappings && m.internalId == id && VariantMapping(m, rest);
      FlaggedIff(m, rest);
    }
    if id in FlaggedIds(db.mappings) {
      var m :| m in db.mappings && Flagged(m) && m.internalId == id;
      FlaggedIff(m, id[11..]);
      assert NamesVariant(db, id, id[11..]);
    }
  }

  lemma DownIdIs(db: Database, id: string)
    ensures DownId(db, id, Renamed(PromotedIds(db.mappings), PRODUCT_PREFIX, id))
  {
    forall rest | NamesPromoted(db, id, rest) ensures id in PromotedIds(db.mappings) && |id| >= 11 && rest == id[11..] {
      var m :| m in db.mappings && m.internalId == id && PromotedMapping(m, rest);
      PromotedIff(m, rest);
    }
    if id in PromotedIds(db.mappings) {
      var m :| m in db.mappings && Promoted(m) && m.internalId == id;
      PromotedIff(m, id[11..]);
      assert NamesPromoted(db, id, id[11..]);
    }
  }

  /** Both directions on the other tables: ids change as the mappings say, and nothing but ids. */
  lemma VariantRow(db: Database, k: nat)
    requires k < |db.variants|
    ensures |UpState(db).variants| == |DownState(db).variants| == |db.variants|
    ensures var was, up, down := db.variants[k], UpState(db).variants[k], DownState(db).variants[k];
            && up.data == down.data == was.data
            && UpId(db, was.id, up.id) && DownId(db, was.id, down.id)
  {
    UpIdIs(db, db.variants[k].id);
    DownIdIs(db, db.variants[k].id);
  }

  lemma OfferRow(db: Database, k: nat)
    requires k < |db.offers|
    ensures |UpState(db).offers| == |DownState(db).offers| == |db.offers|
    ensures var was, up, down := db.offers[k], UpState(db).offers[k], DownState(db).offers[k];
            && up.id == down.id == was.id && up.data == down.data == was.data
            && UpId(db, was.internalVariantId, up.internalVariantId) && DownId(db, was.internalVariantId, down.internalVariantId)
  {
    UpIdIs(db, db.offers[k].internalVariantId);
    DownIdIs(db, db.offers[k].internalVariantId);
  }

  lemma ItemRow(db: Database, k: nat)
    requires k < |db.items|
    ensures |UpState(db).items| == |DownState(db).items| == |db.items|
    ensures var was, up, down := db.items[k], UpState(db).items[k], DownState(db).items[k];
            && up.id == down.id == was.id && up.data == down.data == was.data
            && (was.productVariantId.Some? <==> up.productVariantId.Some?)
            && (was.productVariantId.Some? <==> down.productVariantId.Some?)
            && (was.productVariantId.Some? ==>
                  && UpId(db, was.productVariantId.value, up.productVariantId.value)
                  && DownId(db, was.productVariantId.value, down.productVariantId.value))
  {
    if db.items[k].productVariantId.Some? {
      UpIdIs(db, db.items[k].productVariantId.value);
      DownIdIs(db, db.items[k].productVariantId.value);
    }
  }

  /** Rows of different platforms, connections or external ids never get in each other's way. */
  lemma DifferentExternalsNeverClash(db: Database)
    requires forall i, j :: 0 <= i < j < |db.mappings| ==>
               || db.mappings[i].platformType != db.mappings[j].platformType
               || db.mappings[i].connectionId != db.mappings[j].connectionId
               || db.mappings[i].externalId != db.mappings[j].externalId
    ensures DistinctKeys(db.mappings) && DistinctKeys(UpState(db).mappings) && DistinctKeys(DownState(db).mappings)
    ensures !Collides(db.mappings)
  {
    assert |PRODUCT| != |PRODUCT_VARIANT|;
    forall i, j | 0 <= i < |db.mappings| && 0 <= j < |db.mappings| && i != j ensures !SameExternal(db.mappings[i], db.mappings[j]) {
    }
  }

  // ---------------------------------------------------------------- down

  /** The row `down` after `up` gives back: the original, with the marker spelled as a JSON boolean. */
  function Remarked(m: Mapping): Mapping {
    if Flagged(m) then m.(context := SetMarker(m.context)) else m
  }

  /** `down` after `up`: the check stays silent, the transaction commits, all four tables are restored. */
  lemma DownUndoesUp(db: Database)
    requires PreMigration(db)
    ensures var up := UpState(db);
            var back := DownState(up);
            && !Collides(up.mappings)
            && Consistent(back)
            && back.variants == db.variants && back.items == db.items && back.offers == db.offers
            && |back.mappings| == |db.mappings|
            && forall i :: 0 <= i < |db.mappings| ==>
                 back.mappings[i] == Remarked(db.mappings[i]) && (IsMarked(back.mappings[i].context) <==> IsMarked(db.mappings[i].context))
  {
    var up := UpState(db);
    var back := DownState(up);
    UpConsistent(db);
    forall i | 0 <= i < |db.mappings| ensures back.mappings[i] == Remarked(db.mappings[i]) {
      assert db.mappings[i] in db.mappings;
      NewIdsAreNotOldIds(db.mappings[i].internalId);
      if Flagged(db.mappings[i]) {
        PrefixRoundTrip(db.mappings[i].internalId);
      }
    }
    forall id: string | Documented(id) ensures RoundTrips(db, id) {
      RenamingRoundTrip(db, id);
    }
    forall k | 0 <= k < |db.variants| ensures back.variants[k] == db.variants[k] {
      assert db.variants[k] in db.variants && RoundTrips(db, db.variants[k].id);
    }
    forall k | 0 <= k < |db.items| ensures back.items[k] == db.items[k] {
      assert db.items[k] in db.items;
      if db.items[k].productVariantId.Some? {
        assert RoundTrips(db, db.items[k].productVariantId.value);
      }
    }
    forall k | 0 <= k < |db.offers| ensures back.offers[k] == db.offers[k] {
      assert db.offers[k] in db.offers && RoundTrips(db, db.offers[k].internalVariantId);
    }
    forall i, j | 0 <= i < |up.mappings| && 0 <= j < |up.mappings| && up.mappings[i].entityType == PRODUCT_VARIANT
                  && up.mappings[j].entityType == PRODUCT
      ensures !SameExternal(up.mappings[i], up.mappings[j])
    {
      assert db.mappings[i] in db.mappings && db.mappings[j] in db.mappings;
    }
  }

  ghost predicate RoundTrips(db: Database, id: string) {
    Renamed(PromotedIds(UpState(db).mappings), PRODUCT_PREFIX, Renamed(FlaggedIds(db.mappings), VARIANT_PREFIX, id)) == id
  }

  lemma RenamingRoundTrip(db: Database, id: string)
    requires PreMigration(db) && Documented(id)
    ensures RoundTrips(db, id)
  {
    var up := UpState(db);
    NewIdsAreNotOldIds(id);
    if id in FlaggedIds(db.mappings) {
      var m :| m in db.mappings && Flagged(m) && m.internalId == id;
      var i :| 0 <= i < |db.mappings| && db.mappings[i] == m;
      assert up.mappings[i] in up.mappings && Promoted(up.mappings[i]);
      PrefixRoundTrip(id);
    } else {
      assert id !in PromotedIds(up.mappings);
    }
  }

  /** From any state whose check passes, reverting keeps the mapping unique key. */
  lemma DownKeepsMappingKey(db: Database)
    requires DistinctKeys(db.mappings) && !Collides(db.mappings)
    ensures DistinctKeys(DownState(db).mappings)
  {
    var back := DownState(db).mappings;
    forall i, j | 0 <= i < j < |back| ensures !(back[i].entityType == back[j].entityType && SameExternal(back[i], back[j])) {
      if SameExternal(back[i], back[j]) {
        assert SameExternal(db.mappings[i], db.mappings[j]) && SameExternal(db.mappings[j], db.mappings[i]);
      }
    }
  }

  /**
   * A reverted row is found again by the pre-migration gate exactly when its context holds a metadata
   * object. A variant minted after `up` without one comes back as a plain Product row.
   */
  lemma RevertedRowIsFlaggedIff(m: Mapping)
    requires Promoted(m)
    ensures Flagged(Demote(m)) <==> m.context.Json? && m.context.metadata.Some?
  {
    NewIdsAreNotOldIds(m.internalId);
  }
}
