/**
 * Migration 1824000000000-numbering-routing-axes: two partial unique indexes over (connection, document
 * type, register) become one unique index over five columns with COALESCE(axis, '') in place of NULL.
 */
module RoutingAxes {
  import opened Wrappers

  type Axis = Option<string>

  datatype Route = Route(
    connectionId: string, documentType: string, register: Axis, currency: Axis, source: Axis, seriesId: string)

  datatype Index = DefaultPartial | RegisterPartial | CoalesceKey

  datatype Result = Committed | Conflict(index: Index)

  // ---------------------------------------------------------------- what each index rejects

  function Coalesce(a: Axis): string {
    if a.Some? then a.value else ""
  }

  predicate SameOwner(a: Route, b: Route) {
    a.connectionId == b.connectionId && a.documentType == b.documentType
  }

  /** The routing key with NULL equal to NULL: what uniqueness is meant to be about. */
  predicate SameKey(a: Route, b: Route) {
    SameOwner(a, b) && a.register == b.register && a.currency == b.currency && a.source == b.source
  }

  /** Two rows one index cannot both hold. */
  predicate ConflictOn(index: Index, a: Route, b: Route) {
    match index
    case DefaultPartial => SameOwner(a, b) && a.register.None? && b.register.None?
    case RegisterPartial => SameOwner(a, b) && a.register.Some? && a.register == b.register
    case CoalesceKey =>
      SameOwner(a, b) && Coalesce(a.register) == Coalesce(b.register)
      && Coalesce(a.currency) == Coalesce(b.currency) && Coalesce(a.source) == Coalesce(b.source)
  }

  predicate Admits(index: Index, routes: seq<Route>) {
    forall i, j :: 0 <= i < j < |routes| ==> !ConflictOn(index, routes[i], routes[j])
  }

  ghost predicate DistinctKeys(routes: seq<Route>) {
    forall i, j :: 0 <= i < j < |routes| ==> !SameKey(routes[i], routes[j])
  }

  predicate NoEmptyAxis(r: Route) {
    r.register != Some("") && r.currency != Some("") && r.source != Some("")
  }

  // ---------------------------------------------------------------- the migration

  class RoutesTable {
    var routes: seq<Route>
    var indexes: set<Index>

    constructor (routes: seq<Route>, indexes: set<Index>)
      ensures this.routes == routes && this.indexes == indexes
    {
      this.routes, this.indexes := routes, indexes;
    }

    /** CREATE UNIQUE INDEX IF NOT EXISTS over the rows there are. */
    method CreateUnique(index: Index) returns (ok: bool)
      modifies this`indexes
      ensures ok <==> index in old(indexes) || Admits(index, routes)
      ensures indexes == if ok then old(indexes) + {index} else old(indexes)
    {
      ok := index in indexes || Admits(index, routes);
      if ok {
        indexes := indexes + {index};
      }
    }

    /** Every unique index there is admits the rows: what the database keeps. */
    ghost predicate Valid()
      reads this
    {
      forall index :: index in indexes ==> Admits(index, routes)
    }

    /** From any set of indexes, so also when it has run before. */
    method Up() returns (result: Result)
      modifies this`indexes
      ensures result == Committed <==> CoalesceKey in old(indexes) || Admits(CoalesceKey, routes)
      ensures old(Valid()) ==> Valid() && (result == Committed <==> Admits(CoalesceKey, routes))
      ensures indexes == if result == Committed then old(indexes) - {DefaultPartial, RegisterPartial} + {CoalesceKey}
                         else old(indexes)
    {
      var before := indexes;
      indexes := indexes - {RegisterPartial};
      indexes := indexes - {DefaultPartial};
      var ok := CreateUnique(CoalesceKey);
      if !ok {
        indexes := before;
        return Conflict(CoalesceKey);
      }
      result := Committed;
    }

    /** The axis columns are dropped last; a dropped column reads as NULL. */
    method Down() returns (result: Result)
      modifies this
      ensures result == Committed <==> && (DefaultPartial in old(indexes) || Admits(DefaultPartial, old(routes)))
                                       && (RegisterPartial in old(indexes) || Admits(RegisterPartial, old(routes)))
      ensures old(Valid()) ==>
                Valid() && (result == Committed <==> Admits(DefaultPartial, old(routes)) && Admits(RegisterPartial, old(routes)))
      ensures result == Committed ==> && indexes == old(indexes) - {CoalesceKey} + {DefaultPartial, RegisterPartial}
                                      && routes == WithoutAxes(old(routes))
      ensures result == Committed ==>
                |routes| == |old(routes)| && forall i :: 0 <= i < |routes| ==>
                  routes[i] == old(routes)[i].(currency := None, source := None)
      ensures result != Committed ==> indexes == old(indexes) && routes == old(routes)
    {
      var before := indexes;
      indexes := indexes - {CoalesceKey};
      var ok := CreateUnique(DefaultPartial);
      if !ok {
        indexes := before;
        return Conflict(DefaultPartial);
      }
      ok := CreateUnique(RegisterPartial);
      if !ok {
        indexes := before;
        return Conflict(RegisterPartial);
      }
      OldIndexesIgnoreAxes(routes);
      routes := WithoutAxes(routes);
      result := Committed;
    }
  }

  function WithoutAxes(routes: seq<Route>): seq<Route> {
    seq(|routes|, i requires 0 <= i < |routes| => routes[i].(currency := None, source := None))
  }

  lemma OldIndexesIgnoreAxes(routes: seq<Route>)
    ensures Admits(DefaultPartial, WithoutAxes(routes)) <==> Admits(DefaultPartial, routes)
    ensures Admits(RegisterPartial, WithoutAxes(routes)) <==> Admits(RegisterPartial, routes)
  {
    var bare := WithoutAxes(routes);
    forall i, j | 0 <= i < j < |routes|
      ensures ConflictOn(DefaultPartial, bare[i], bare[j]) <==> ConflictOn(DefaultPartial, routes[i], routes[j])
      ensures ConflictOn(RegisterPartial, bare[i], bare[j]) <==> ConflictOn(RegisterPartial, routes[i], routes[j])
    {
    }
  }

  // ---------------------------------------------------------------- properties

  /** What each index rejects, column by column: NULL registers of one owner, equal registers, equal coalesced axes. */
  lemma IndexesReject(routes: seq<Route>)
    ensures Admits(DefaultPartial, routes) <==>
              forall i, j :: 0 <= i < j < |routes| && routes[i].register == None && routes[j].register == None ==>
                routes[i].connectionId != routes[j].connectionId || routes[i].documentType != routes[j].documentType
    ensures Admits(RegisterPartial, routes) <==>
              forall i, j :: 0 <= i < j < |routes| && routes[i].register.Some? && routes[i].register == routes[j].register ==>
                routes[i].connectionId != routes[j].connectionId || routes[i].documentType != routes[j].documentType
    ensures Admits(CoalesceKey, routes) <==>
              forall i, j :: 0 <= i < j < |routes| ==>
                || routes[i].connectionId != routes[j].connectionId || routes[i].documentType != routes[j].documentType
                || !SameOrBlank(routes[i].register, routes[j].register) || !SameOrBlank(routes[i].currency, routes[j].currency)
                || !SameOrBlank(routes[i].source, routes[j].source)
  {
  }

  /** Equal, or NULL beside the empty string. */
  predicate SameOrBlank(a: Axis, b: Axis) {
    a == b || (a in {None, Some("")} && b in {None, Some("")})
  }

  lemma CoalesceFaithful(a: Axis, b: Axis)
    requires a != Some("") && b != Some("")
    ensures Coalesce(a) == Coalesce(b) <==> a == b
  {
  }

  /** Without empty strings the COALESCE index accepts exactly the tables with distinct five-part keys. */
  lemma CoalesceIndexIsTheKey(routes: seq<Route>)
    requires forall i :: 0 <= i < |routes| ==> NoEmptyAxis(routes[i])
    ensures Admits(CoalesceKey, routes) <==> DistinctKeys(routes)
  {
    forall i, j | 0 <= i < j < |routes|
      ensures ConflictOn(CoalesceKey, routes[i], routes[j]) <==> SameKey(routes[i], routes[j])
    {
      CoalesceFaithful(routes[i].register, routes[j].register);
      CoalesceFaithful(routes[i].currency, routes[j].currency);
      CoalesceFaithful(routes[i].source, routes[j].source);
    }
  }

  function NullTwin(r: Route): Route {
    if r.register == Some("") then r.(register := None)
    else if r.currency == Some("") then r.(currency := None)
    else r.(source := None)
  }

  /** The condition is exact: any row with an empty axis has a NULL twin the index wrongly rejects. */
  lemma EmptyAxisBreaksTheIndex(r: Route)
    requires !NoEmptyAxis(r)
    ensures DistinctKeys([r, NullTwin(r)]) && !Admits(CoalesceKey, [r, NullTwin(r)])
  {
    assert ConflictOn(CoalesceKey, [r, NullTwin(r)][0], [r, NullTwin(r)][1]);
    assert !SameKey([r, NullTwin(r)][0], [r, NullTwin(r)][1]);
  }

  /** A register-less default beside a route whose register is the empty string. */
  predicate NullBesideEmpty(a: Route, b: Route) {
    SameOwner(a, b) && ((a.register == None && b.register == Some("")) || (a.register == Some("") && b.register == None))
  }

  /**
   * While currency and source are unset, the new index accepts what the two old ones accepted, except a
   * default beside an empty register: on such a table, and only there, `up` fails.
   */
  lemma UpReplacesTheIndexesIff(routes: seq<Route>)
    requires forall i :: 0 <= i < |routes| ==> routes[i].currency == None && routes[i].source == None
    ensures Admits(CoalesceKey, routes) <==>
              && Admits(DefaultPartial, routes) && Admits(RegisterPartial, routes)
              && forall i, j :: 0 <= i < j < |routes| ==> !NullBesideEmpty(routes[i], routes[j])
  {
    forall i, j | 0 <= i < j < |routes|
      ensures ConflictOn(CoalesceKey, routes[i], routes[j]) <==>
                ConflictOn(DefaultPartial, routes[i], routes[j]) || ConflictOn(RegisterPartial, routes[i], routes[j])
                || NullBesideEmpty(routes[i], routes[j])
    {
    }
  }

  /** `down` goes through exactly when no two routes differ in currency or source alone. */
  lemma DownSucceedsIff(routes: seq<Route>)
    requires DistinctKeys(routes)
    ensures Admits(DefaultPartial, routes) && Admits(RegisterPartial, routes) <==>
              forall i, j :: 0 <= i < j < |routes| && SameOwner(routes[i], routes[j]) && routes[i].register == routes[j].register ==>
                routes[i].currency == routes[j].currency && routes[i].source == routes[j].source
  {
    forall i, j | 0 <= i < j < |routes|
      ensures ConflictOn(DefaultPartial, routes[i], routes[j]) || ConflictOn(RegisterPartial, routes[i], routes[j])
         <==> SameOwner(routes[i], routes[j]) && routes[i].register == routes[j].register
      ensures !SameKey(routes[i], routes[j])
    {
    }
  }

  /** `up` then `down` on a table that gained no axis values is the identity. */
  lemma DownUndoesUp(routes: seq<Route>)
    requires forall i :: 0 <= i < |routes| ==> routes[i].currency == None && routes[i].source == None
    requires Admits(CoalesceKey, routes)
    ensures Admits(DefaultPartial, routes) && Admits(RegisterPartial, routes) && WithoutAxes(routes) == routes
  {
    UpReplacesTheIndexesIff(routes);
    forall i | 0 <= i < |routes| ensures WithoutAxes(routes)[i] == routes[i] {
    }
  }
}
