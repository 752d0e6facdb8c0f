/**
 * Migrations 1799000000003-backfill-inventory-variant-id and 1799000000004-cleanup-multivariant-product-
 * level-inventory: product-level stock rows become variant rows in place, then orphans are deleted.
 * Uniqueness follows SQL: a NULL location never equals another.
 */
module InventoryBackfill {
  import opened Wrappers

  type ProductId = string
  type VariantId = string
  type LocationId = string

  datatype Variant = Variant(id: VariantId, productId: ProductId)

  datatype Item = Item(
    id: string, productId: ProductId, productVariantId: Option<VariantId>, locationId: Option<LocationId>, quantity: int)

  datatype Result = Committed | UniqueViolation

  // ---------------------------------------------------------------- the sub-selects

  /** GROUP BY "productId": the variants of a product; ids are the primary key. */
  function VariantsOf(variants: seq<Variant>, p: ProductId): set<VariantId> {
    set v | v in variants && v.productId == p :: v.id
  }

  /** HAVING COUNT(*) = 1, with MIN(id) naming the one variant. */
  function OnlyVariant(variants: seq<Variant>, p: ProductId): (only: Option<VariantId>)
    ensures only.Some? <==> |VariantsOf(variants, p)| == 1
    ensures only.Some? ==> VariantsOf(variants, p) == {only.value}
  {
    var ids := VariantsOf(variants, p);
    if |ids| == 1 then
      SingletonHasOne(ids);
      var v :| v in ids && ids == {v};
      Some(v)
    else None
  }

  lemma SingletonHasOne(ids: set<VariantId>)
    requires |ids| == 1
    ensures exists v :: v in ids && ids == {v}
  {
    var v :| v in ids;
    assert |ids - {v}| == 0;
    assert ids == {v};
  }

  // ---------------------------------------------------------------- the statements

  predicate VariantRowAt(rows: seq<Item>, p: ProductId, v: VariantId, location: Option<LocationId>) {
    exists i :: 0 <= i < |rows| && rows[i].productId == p && rows[i].productVariantId == Some(v) && rows[i].locationId == location
  }

  /** A product-level row of a single-variant product with no variant row at its location in the snapshot. */
  predicate Converts(variants: seq<Variant>, rows: seq<Item>, r: Item) {
    var only := OnlyVariant(variants, r.productId);
    only.Some? && r.productVariantId.None? && !VariantRowAt(rows, r.productId, only.value, r.locationId)
  }

  function Backfilled(variants: seq<Variant>, rows: seq<Item>): seq<Item> {
    seq(|rows|, i requires 0 <= i < |rows| =>
      if Converts(variants, rows, rows[i]) then rows[i].(productVariantId := OnlyVariant(variants, rows[i].productId)) else rows[i])
  }

  predicate Reverts(variants: seq<Variant>, r: Item) {
    OnlyVariant(variants, r.productId).Some? && r.productVariantId == OnlyVariant(variants, r.productId)
  }

  function Reverted(variants: seq<Variant>, rows: seq<Item>): seq<Item> {
    seq(|rows|, i requires 0 <= i < |rows| =>
      if Reverts(variants, rows[i]) then rows[i].(productVariantId := None) else rows[i])
  }

  predicate Orphan(variants: seq<Variant>, r: Item) {
    r.productVariantId.None? && |VariantsOf(variants, r.productId)| > 1
  }

  function Cleaned(variants: seq<Variant>, rows: seq<Item>): seq<Item> {
    if rows == [] then []
    else if Orphan(variants, rows[0]) then Cleaned(variants, rows[1..])
    else [rows[0]] + Cleaned(variants, rows[1..])
  }

  // ---------------------------------------------------------------- constraints

  predicate SamePlace(a: Item, b: Item) {
    a.productId == b.productId && a.locationId.Some? && a.locationId == b.locationId
  }

  /** The two partial unique indexes of 1767555200000-change-product-ids-to-varchar. */
  predicate Clash(a: Item, b: Item) {
    SamePlace(a, b) && a.productVariantId == b.productVariantId
  }

  predicate IndexesHold(rows: seq<Item>) {
    forall i, j :: 0 <= i < j < |rows| ==> !Clash(rows[i], rows[j])
  }

  /** The foreign key: a named variant exists. */
  ghost predicate ForeignKeyHolds(variants: seq<Variant>, rows: seq<Item>) {
    forall i :: 0 <= i < |rows| && rows[i].productVariantId.Some? ==>
      exists v :: v in variants && v.id == rows[i].productVariantId.value
  }

  /** What the database does not check: a named variant belongs to the row's product. */
  ghost predicate OwnVariants(variants: seq<Variant>, rows: seq<Item>) {
    forall i :: 0 <= i < |rows| && rows[i].productVariantId.Some? ==>
      rows[i].productVariantId.value in VariantsOf(variants, rows[i].productId)
  }

  class InventoryTable {
    const variants: seq<Variant>
    var rows: seq<Item>

    constructor (variants: seq<Variant>, rows: seq<Item>)
      ensures this.variants == variants && this.rows == rows
    {
      this.variants, this.rows := variants, rows;
    }

    /** From a table whose indexes hold the backfill always commits. */
    method Backfill()
      requires IndexesHold(rows)
      modifies this
      ensures rows == Backfilled(variants, old(rows)) && IndexesHold(rows)
      ensures ForeignKeyHolds(variants, old(rows)) ==> ForeignKeyHolds(variants, rows)
      ensures OwnVariants(variants, old(rows)) ==> OwnVariants(variants, rows)
    {
      BackfillKeepsConstraints(variants, rows);
      rows := Backfilled(variants, rows);
    }

    method RevertBackfill() returns (result: Result)
      modifies this
      ensures result == Committed <==> IndexesHold(Reverted(variants, old(rows)))
      ensures rows == if result == Committed then Reverted(variants, old(rows)) else old(rows)
    {
      var next := Reverted(variants, rows);
      if !IndexesHold(next) {
        return UniqueViolation;
      }
      rows := next;
      result := Committed;
    }

    method Cleanup()
      modifies this
      ensures rows == Cleaned(variants, old(rows))
    {
      rows := Cleaned(variants, rows);
    }
  }

  // ---------------------------------------------------------------- backfill

  lemma BackfillKeepsConstraints(variants: seq<Variant>, rows: seq<Item>)
    requires IndexesHold(rows)
    ensures IndexesHold(Backfilled(variants, rows))
    ensures ForeignKeyHolds(variants, rows) ==> ForeignKeyHolds(variants, Backfilled(variants, rows))
    ensures OwnVariants(variants, rows) ==> OwnVariants(variants, Backfilled(variants, rows))
  {
    var after := Backfilled(variants, rows);
    forall i, j | 0 <= i < j < |after| ensures !Clash(after[i], after[j]) {
      assert !Clash(rows[i], rows[j]);
    }
  }

  /**
   * Only the variant column changes, and only from NULL. A single-variant product keeps a product-level
   * row exactly where a variant row already stood at that location.
   */
  lemma BackfillLeavesOnlyShadowedRows(variants: seq<Variant>, rows: seq<Item>, i: nat)
    requires i < |rows|
    ensures var after := Backfilled(variants, rows);
            && |after| == |rows| && after[i].(productVariantId := None) == rows[i].(productVariantId := None)
            && (rows[i].productVariantId.Some? ==> after[i] == rows[i])
            && (forall v :: OnlyVariant(variants, rows[i].productId) == Some(v) ==>
                  (after[i].productVariantId.None?
                   <==> rows[i].productVariantId.None? && VariantRowAt(rows, rows[i].productId, v, rows[i].locationId)))
            && (OnlyVariant(variants, rows[i].productId).None? ==> after[i] == rows[i])
  {
  }

  // ---------------------------------------------------------------- the statements, row by row

  /** The product has this variant and no other; variants of other products do not count. */
  ghost predicate SoleVariant(variants: seq<Variant>, p: ProductId, v: VariantId) {
    && (exists x :: x in variants && x.productId == p && x.id == v)
    && forall x :: x in variants && x.productId == p ==> x.id == v
  }

  lemma OnlyVariantIff(variants: seq<Variant>, p: ProductId, v: VariantId)
    ensures OnlyVariant(variants, p) == Some(v) <==> SoleVariant(variants, p, v)
  {
    if SoleVariant(variants, p, v) {
      assert VariantsOf(variants, p) == {v};
    }
    if OnlyVariant(variants, p) == Some(v) {
      assert v in VariantsOf(variants, p);
      forall x | x in variants && x.productId == p ensures x.id == v {
        assert x.id in VariantsOf(variants, p);
      }
    }
  }

  /** A product-level row whose product has one variant takes it, unless a row of that variant is at its location. */
  lemma BackfillRow(variants: seq<Variant>, rows: seq<Item>, i: nat)
    requires i < |rows|
    ensures var after := Backfilled(variants, rows);
            var r := rows[i];
            && (forall v :: SoleVariant(variants, r.productId, v) ==>
                  after[i] == if r.productVariantId == None
                                 && (forall j :: 0 <= j < |rows| && rows[j].productId == r.productId && rows[j].productVariantId == Some(v) ==>
                                       rows[j].locationId != r.locationId)
                              then r.(productVariantId := Some(v)) else r)
            && ((forall v :: !SoleVariant(variants, r.productId, v)) ==> after[i] == r)
  {
    var p := rows[i].productId;
    forall v | SoleVariant(variants, p, v) ensures OnlyVariant(variants, p) == Some(v) {
      OnlyVariantIff(variants, p, v);
    }
    if OnlyVariant(variants, p).Some? {
      OnlyVariantIff(variants, p, OnlyVariant(variants, p).value);
    }
  }

  /** `down` puts exactly the rows of an only variant back to product level. */
  lemma RevertRow(variants: seq<Variant>, rows: seq<Item>, i: nat)
    requires i < |rows|
    ensures var r := rows[i];
            Reverted(variants, rows)[i]
            == if r.productVariantId.Some? && SoleVariant(variants, r.productId, r.productVariantId.value)
               then r.(productVariantId := None) else r
  {
    if rows[i].productVariantId.Some? {
      OnlyVariantIff(variants, rows[i].productId, rows[i].productVariantId.value);
    }
  }

  lemma OrphanIff(variants: seq<Variant>, r: Item)
    ensures Orphan(variants, r) <==>
              && r.productVariantId == None
              && exists x, y :: x in variants && y in variants && x.productId == y.productId == r.productId && x.id != y.id
  {
    var ids := VariantsOf(variants, r.productId);
    if x, y :| x in variants && y in variants && x.productId == y.productId == r.productId && x.id != y.id {
      assert {x.id, y.id} <= ids;
      SubsetSize({x.id, y.id}, ids);
    }
    if |ids| > 1 {
      var a :| a in ids;
      assert |ids - {a}| > 0;
      var b :| b in ids - {a};
      var x :| x in variants && x.productId == r.productId && x.id == a;
      var y :| y in variants && y.productId == r.productId && y.id == b;
      assert x.id != y.id;
    }
  }

  lemma {:induction false} SubsetSize(a: set<VariantId>, b: set<VariantId>)
    requires a <= b
    ensures |a| <= |b|
    decreases a
  {
    if a != {} {
      var x :| x in a;
      SubsetSize(a - {x}, b - {x});
    }
  }

  /** The cleanup deletes exactly the product-level rows of products with two variants. */
  lemma CleanupRow(variants: seq<Variant>, rows: seq<Item>, r: Item)
    ensures r in Cleaned(variants, rows) <==>
              && r in rows
              && !(r.productVariantId == None
                   && exists x, y :: x in variants && y in variants && x.productId == y.productId == r.productId && x.id != y.id)
  {
    CleanedMembers(variants, rows);
    OrphanIff(variants, r);
  }

  /** The two partial unique indexes: at a known location one row per variant, and one product-level row. */
  lemma IndexesHoldIff(rows: seq<Item>)
    ensures IndexesHold(rows) <==>
              forall i, j :: 0 <= i < j < |rows| && rows[i].locationId.Some? && rows[j].locationId.Some?
                             && rows[i].productId == rows[j].productId && rows[i].productVariantId == rows[j].productVariantId ==>
                rows[i].locationId.value != rows[j].locationId.value
  {
  }

  // ---------------------------------------------------------------- conservation

  /** Stock of a product at product level (None) or of one variant (Some). */
  function Stock(rows: seq<Item>, p: ProductId, v: Option<VariantId>): int {
    if rows == [] then 0
    else (if rows[0].productId == p && rows[0].productVariantId == v then rows[0].quantity else 0) + Stock(rows[1..], p, v)
  }

  /** Rows carried over one by one with the same product and quantity. */
  ghost predicate RowByRow(before: seq<Item>, after: seq<Item>, p: ProductId, v: VariantId) {
    && |after| == |before|
    && forall i :: 0 <= i < |before| ==>
         && after[i].productId == before[i].productId && after[i].quantity == before[i].quantity
         && (before[i].productId == p ==>
               (before[i].productVariantId == None || before[i].productVariantId == Some(v) <==>
                after[i].productVariantId == None || after[i].productVariantId == Some(v)))
  }

  lemma {:induction false} MovingStockConservesIt(before: seq<Item>, after: seq<Item>, p: ProductId, v: VariantId)
    requires RowByRow(before, after, p, v)
    ensures Stock(after, p, Some(v)) + Stock(after, p, None) == Stock(before, p, Some(v)) + Stock(before, p, None)
  {
    if before != [] {
      assert RowByRow(before[1..], after[1..], p, v);
      MovingStockConservesIt(before[1..], after[1..], p, v);
    }
  }

  lemma {:induction false} NoRowsNoStock(rows: seq<Item>, p: ProductId, v: Option<VariantId>)
    requires forall i :: 0 <= i < |rows| && rows[i].productId == p ==> rows[i].productVariantId != v
    ensures Stock(rows, p, v) == 0
  {
    if rows != [] {
      NoRowsNoStock(rows[1..], p, v);
    }
  }

  /** The stock of a single-variant product is conserved; with no variant row before, the variant gets all of it. */
  lemma BackfillConservesStock(variants: seq<Variant>, rows: seq<Item>, p: ProductId, v: VariantId)
    requires OnlyVariant(variants, p) == Some(v)
    ensures var after := Backfilled(variants, rows);
            && Stock(after, p, Some(v)) + Stock(after, p, None) == Stock(rows, p, Some(v)) + Stock(rows, p, None)
            && ((forall i :: 0 <= i < |rows| && rows[i].productId == p ==> rows[i].productVariantId != Some(v)) ==>
                  Stock(after, p, Some(v)) == Stock(rows, p, None) && Stock(after, p, None) == 0)
  {
    var after := Backfilled(variants, rows);
    MovingStockConservesIt(rows, after, p, v);
    if forall i :: 0 <= i < |rows| && rows[i].productId == p ==> rows[i].productVariantId != Some(v) {
      NoRowsNoStock(rows, p, Some(v));
      NoRowsNoStock(after, p, None);
    }
  }

  // ---------------------------------------------------------------- reverting the backfill

  /** `down` fails exactly when a product-level and a variant row share a known location. */
  lemma RevertSucceedsIff(variants: seq<Variant>, rows: seq<Item>)
    requires IndexesHold(rows)
    ensures IndexesHold(Reverted(variants, rows)) <==>
              forall i, j :: 0 <= i < |rows| && 0 <= j < |rows| && Reverts(variants, rows[i]) && rows[j].productVariantId.None? ==>
                !SamePlace(rows[i], rows[j])
  {
    var after := Reverted(variants, rows);
    forall i, j | 0 <= i < j < |rows|
      ensures Clash(after[i], after[j]) <==>
                && SamePlace(rows[i], rows[j])
                && ((Reverts(variants, rows[i]) && rows[j].productVariantId.None?)
                    || (Reverts(variants, rows[j]) && rows[i].productVariantId.None?))
    {
      assert !Clash(rows[i], rows[j]);
    }
    if !IndexesHold(after) {
      var i, j :| 0 <= i < j < |after| && Clash(after[i], after[j]);
    }
  }

  /** `down` gives back the table before `up` exactly when no single-variant product had a variant row then. */
  lemma RevertUndoesBackfillIff(variants: seq<Variant>, rows: seq<Item>)
    ensures Reverted(variants, Backfilled(variants, rows)) == rows
       <==> forall i :: 0 <= i < |rows| ==> !Reverts(variants, rows[i])
  {
    var back := Reverted(variants, Backfilled(variants, rows));
    forall i | 0 <= i < |rows| ensures back[i] == rows[i] <==> !Reverts(variants, rows[i]) {
    }
  }

  // ---------------------------------------------------------------- cleanup

  lemma {:induction false} CleanedMembers(variants: seq<Variant>, rows: seq<Item>)
    ensures forall r :: r in Cleaned(variants, rows) <==> r in rows && !Orphan(variants, r)
    ensures multiset(Cleaned(variants, rows)) <= multiset(rows)
  {
    if rows != [] {
      CleanedMembers(variants, rows[1..]);
      assert rows == [rows[0]] + rows[1..];
    }
  }

  lemma {:induction false} CleanupKeepsOthers(variants: seq<Variant>, rows: seq<Item>, p: ProductId, v: Option<VariantId>)
    requires v.Some? || |VariantsOf(variants, p)| <= 1
    ensures Stock(Cleaned(variants, rows), p, v) == Stock(rows, p, v)
  {
    if rows != [] {
      CleanupKeepsOthers(variants, rows[1..], p, v);
      var rest := Cleaned(variants, rows[1..]);
      assert ([rows[0]] + rest)[1..] == rest;
    }
  }

  /**
   * The two migrations together: a product-level row that is left belongs to a product without variants,
   * or to a single-variant product with a variant row at the same location.
   */
  lemma WhatIsLeftAtProductLevel(variants: seq<Variant>, rows: seq<Item>, r: Item)
    requires r in Cleaned(variants, Backfilled(variants, rows)) && r.productVariantId.None?
    ensures var ids := VariantsOf(variants, r.productId);
            ids == {} || (exists v :: ids == {v} && VariantRowAt(rows, r.productId, v, r.locationId))
  {
    var after := Backfilled(variants, rows);
    CleanedMembers(variants, after);
    var i :| 0 <= i < |after| && after[i] == r;
    BackfillLeavesOnlyShadowedRows(variants, rows, i);
    var ids := VariantsOf(variants, r.productId);
    if |ids| == 1 {
      assert OnlyVariant(variants, r.productId).Some?;
    }
  }
}
