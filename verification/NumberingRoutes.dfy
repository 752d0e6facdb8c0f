/**
 * Migration 1821000000000-numbering-per-document-type-routing: a connection's (main, correction)
 * series assignment becomes routes keyed by document type and register, and back.
 */
module NumberingRoutes {
  import opened Wrappers

  type Connection = string
  type SeriesId = string
  type DocumentType = string
  type Register = string

  const INVOICE := "invoice"
  const CORRECTED := "corrected"

  datatype Assignment = Assignment(mainSeriesId: SeriesId, correctionSeriesId: Option<SeriesId>)

  type Assignments = map<Connection, Assignment>

  /** The two partial unique indexes together: one route per key, with a missing register counting as a key. */
  type RouteKey = (Connection, DocumentType, Option<Register>)
  type Routes = map<RouteKey, SeriesId>

  /** `series` maps an id to its documentType column, None while the column does not exist. */
  datatype Database = Database(
    series: map<SeriesId, Option<DocumentType>>, assignments: Option<Assignments>, routes: Option<Routes>)

  // ---------------------------------------------------------------- statements

  /** ADD COLUMN IF NOT EXISTS "documentType" ... DEFAULT 'invoice'. */
  function WithTypeColumn(series: map<SeriesId, Option<DocumentType>>): map<SeriesId, Option<DocumentType>> {
    map s | s in series :: if series[s].Some? then series[s] else Some(INVOICE)
  }

  function InvoiceRoutes(a: Assignments): Routes {
    map c | c in a :: (c, INVOICE, None) := a[c].mainSeriesId
  }

  function Coalesced(a: Assignment): SeriesId {
    if a.correctionSeriesId.Some? then a.correctionSeriesId.value else a.mainSeriesId
  }

  function CorrectedRoutes(a: Assignments): Routes {
    map c | c in a :: (c, CORRECTED, None) := Coalesced(a[c])
  }

  /** INSERT ... ON CONFLICT DO NOTHING: existing routes win. */
  function InsertMissing<K, V>(table: map<K, V>, rows: map<K, V>): map<K, V> {
    rows + table
  }

  function Stamped(series: map<SeriesId, Option<DocumentType>>, a: Assignments): map<SeriesId, Option<DocumentType>> {
    map s | s in series :: if exists c :: c in a && a[c].correctionSeriesId == Some(s) then Some(CORRECTED) else series[s]
  }

  function Default(routes: Routes, c: Connection, doc: DocumentType): Option<SeriesId> {
    if (c, doc, None) in routes then Some(routes[(c, doc, None)]) else None
  }

  /** The default invoice routes left-joined with the default corrected routes. */
  function RebuiltAssignments(routes: Routes): Assignments {
    map c | c in (set k | k in routes :: k.0) && (c, INVOICE, None) in routes ::
      Assignment(routes[(c, INVOICE, None)], Default(routes, c, CORRECTED))
  }

  function UpState(db: Database): Database {
    var series := WithTypeColumn(db.series);
    var routes := if db.routes.Some? then db.routes.value else map[];
    match db.assignments
    case None => Database(series, None, Some(routes))
    case Some(a) =>
      Database(Stamped(series, a), None,
               Some(InsertMissing(InsertMissing(routes, InvoiceRoutes(a)), CorrectedRoutes(a))))
  }

  function DownState(db: Database): Database {
    var assignments := if db.assignments.Some? then db.assignments.value else map[];
    Database(map s | s in db.series :: None,
             Some(if db.routes.Some? then InsertMissing(assignments, RebuiltAssignments(db.routes.value)) else assignments),
             None)
  }

  class NumberingTables {
    var series: map<SeriesId, Option<DocumentType>>
    var assignments: Option<Assignments>
    var routes: Option<Routes>

    function State(): Database
      reads this
    {
      Database(series, assignments, routes)
    }

    constructor (db: Database)
      ensures State() == db
    {
      series, assignments, routes := db.series, db.assignments, db.routes;
    }

    method Up()
      modifies this
      ensures State() == UpState(old(State()))
      ensures ReferencesHold(old(State())) ==> ReferencesHold(State())
    {
      series := WithTypeColumn(series);
      if routes.None? {
        routes := Some(map[]);
      }
      if assignments.Some? {
        var a := assignments.value;
        routes := Some(InsertMissing(routes.value, InvoiceRoutes(a)));
        routes := Some(InsertMissing(routes.value, CorrectedRoutes(a)));
        series := Stamped(series, a);
        assignments := None;
      }
    }

    method Down()
      modifies this
      ensures State() == DownState(old(State()))
      ensures ReferencesHold(old(State())) ==> ReferencesHold(State())
    {
      if assignments.None? {
        assignments := Some(map[]);
      }
      if routes.Some? {
        assignments := Some(InsertMissing(assignments.value, RebuiltAssignments(routes.value)));
        routes := None;
      }
      series := map s | s in series :: None;
    }
  }

  /** The foreign keys to the series table. */
  ghost predicate ReferencesHold(db: Database) {
    && (db.assignments.Some? ==> forall c :: c in db.assignments.value ==>
          db.assignments.value[c].mainSeriesId in db.series && Coalesced(db.assignments.value[c]) in db.series)
    && (db.routes.Some? ==> forall k :: k in db.routes.value ==> db.routes.value[k] in db.series)
  }

  // ---------------------------------------------------------------- the statements, row by row

  /** `up`: existing routes win; each assignment adds an 'invoice' and a 'corrected' default. */
  lemma UpRoute(db: Database, k: RouteKey)
    ensures UpState(db).assignments == None && UpState(db).routes.Some?
    ensures var routes := if db.routes.Some? then db.routes.value else map[];
            var up := UpState(db).routes.value;
            if k in routes then k in up && up[k] == routes[k]
            else if db.assignments.Some? && k.0 in db.assignments.value && k.2 == None && k.1 in {"invoice", "corrected"} then
              var a := db.assignments.value[k.0];
              k in up && up[k] == if k.1 == "corrected" && a.correctionSeriesId.Some? then a.correctionSeriesId.value else a.mainSeriesId
            else k !in up
  {
    assert INVOICE[0] != CORRECTED[0];
    if db.assignments.Some? {
      InvoiceRouteOf(db.assignments.value, k);
      CorrectedRouteOf(db.assignments.value, k);
    }
  }

  /** `up`: a series some assignment used for corrections is stamped; any other gets the default type if it had none. */
  lemma UpSeries(db: Database, s: SeriesId)
    ensures s in UpState(db).series <==> s in db.series
    ensures s in db.series ==>
              UpState(db).series[s]
              == if db.assignments.Some? && exists c :: c in db.assignments.value && db.assignments.value[c].correctionSeriesId == Some(s)
                 then Some("corrected") else if db.series[s].Some? then db.series[s] else Some("invoice")
  {
  }

  /** `down`: existing assignments win; each default invoice route gives one, with the default corrected route if any. */
  lemma DownAssignment(db: Database, c: Connection)
    ensures DownState(db).assignments.Some? && DownState(db).routes == None
    ensures DownState(db).series.Keys == db.series.Keys && forall s :: s in db.series ==> DownState(db).series[s] == None
    ensures var assignments := if db.assignments.Some? then db.assignments.value else map[];
            var routes := if db.routes.Some? then db.routes.value else map[];
            var down := DownState(db).assignments.value;
            if c in assignments then c in down && down[c] == assignments[c]
            else if (c, "invoice", None) in routes then
              && c in down && down[c].mainSeriesId == routes[(c, "invoice", None)]
              && down[c].correctionSeriesId
                 == if (c, "corrected", None) in routes then Some(routes[(c, "corrected", None)]) else None
            else c !in down
  {
    if db.routes.Some? {
      RebuiltAssignmentOf(db.routes.value, c);
    }
  }

  // ---------------------------------------------------------------- effective series

  /** The series a document of the old model numbers from: a correction falls back to the main series. */
  function Assigned(a: Assignments, c: Connection, doc: DocumentType): Option<SeriesId> {
    if c !in a then None
    else if doc == INVOICE then Some(a[c].mainSeriesId)
    else if doc == CORRECTED then Some(Coalesced(a[c]))
    else None
  }

  /** Most specific route first, then the register-less default (invoice-numbering-series.repository.ts). */
  function Resolved(routes: Routes, c: Connection, doc: DocumentType, register: Option<Register>): Option<SeriesId> {
    if (c, doc, register) in routes then Some(routes[(c, doc, register)]) else Default(routes, c, doc)
  }

  /** The routes `up` makes when there were none. */
  function FreshRoutes(a: Assignments): Routes {
    InsertMissing(InsertMissing(map[], InvoiceRoutes(a)), CorrectedRoutes(a))
  }

  lemma InvoiceRouteOf(a: Assignments, k: RouteKey)
    ensures k in InvoiceRoutes(a) <==> k.0 in a && k.1 == INVOICE && k.2 == None
    ensures k in InvoiceRoutes(a) ==> InvoiceRoutes(a)[k] == a[k.0].mainSeriesId
  {
    if k.0 in a && k.1 == INVOICE && k.2 == None {
      assert k == (k.0, INVOICE, None);
    }
  }

  lemma CorrectedRouteOf(a: Assignments, k: RouteKey)
    ensures k in CorrectedRoutes(a) <==> k.0 in a && k.1 == CORRECTED && k.2 == None
    ensures k in CorrectedRoutes(a) ==> CorrectedRoutes(a)[k] == Coalesced(a[k.0])
  {
    if k.0 in a && k.1 == CORRECTED && k.2 == None {
      assert k == (k.0, CORRECTED, None);
    }
  }

  lemma UpRouteOf(a: Assignments, c: Connection, doc: DocumentType, register: Option<Register>)
    ensures (c, doc, register) in FreshRoutes(a) <==> register.None? && Assigned(a, c, doc).Some?
    ensures (c, doc, register) in FreshRoutes(a) ==> Some(FreshRoutes(a)[(c, doc, register)]) == Assigned(a, c, doc)
  {
    assert INVOICE[0] != CORRECTED[0];
    InvoiceRouteOf(a, (c, doc, register));
    CorrectedRouteOf(a, (c, doc, register));
  }

  /** With no routes yet, every document of every connection keeps its series, whatever its register. */
  lemma UpKeepsEffectiveSeries(db: Database, c: Connection, doc: DocumentType, register: Option<Register>)
    requires db.assignments.Some? && (db.routes == None || db.routes == Some(map[]))
    ensures Resolved(UpState(db).routes.value, c, doc, register) == Assigned(db.assignments.value, c, doc)
  {
    UpRouteOf(db.assignments.value, c, doc, register);
    UpRouteOf(db.assignments.value, c, doc, None);
  }

  lemma RebuiltAssignmentOf(routes: Routes, c: Connection)
    ensures var a := RebuiltAssignments(routes);
            && (c in a <==> (c, INVOICE, None) in routes)
            && (c in a ==> a[c] == Assignment(routes[(c, INVOICE, None)], Default(routes, c, CORRECTED)))
  {
    if (c, INVOICE, None) in routes {
      var k: RouteKey := (c, INVOICE, None);
      assert k in routes && k.0 == c;
    }
  }

  /**
   * `down` from any routes: invoices keep their default series. Corrections keep theirs exactly when the
   * connection has both default routes or neither; a lone corrected route is lost.
   */
  lemma DownKeepsDefaultsIff(db: Database, c: Connection)
    requires db.routes.Some? && db.assignments == None
    ensures var routes := db.routes.value;
            var a := DownState(db).assignments.value;
            && Assigned(a, c, INVOICE) == Default(routes, c, INVOICE)
            && (Assigned(a, c, CORRECTED) == Default(routes, c, CORRECTED)
                <==> ((c, INVOICE, None) in routes <==> (c, CORRECTED, None) in routes))
  {
    assert INVOICE[0] != CORRECTED[0];
    RebuiltAssignmentOf(db.routes.value, c);
  }

  function ExplicitFallback(a: Assignment): Assignment {
    Assignment(a.mainSeriesId, Some(Coalesced(a)))
  }

  lemma RebuiltAfterUp(a: Assignments, c: Connection)
    ensures var back := RebuiltAssignments(FreshRoutes(a));
            (c in back <==> c in a) && (c in a ==> back[c] == ExplicitFallback(a[c]))
  {
    RebuiltAssignmentOf(FreshRoutes(a), c);
    UpRouteOf(a, c, INVOICE, None);
    UpRouteOf(a, c, CORRECTED, None);
  }

  lemma DownAfterUpRebuilds(db: Database)
    requires db.assignments.Some? && (db.routes == None || db.routes == Some(map[]))
    ensures DownState(UpState(db)).assignments == Some(RebuiltAssignments(FreshRoutes(db.assignments.value)))
  {
    var up := UpState(db);
    assert up.routes == Some(FreshRoutes(db.assignments.value)) && up.assignments == None;
    InsertIntoEmpty(RebuiltAssignments(up.routes.value));
  }

  lemma InsertIntoEmpty(rows: Assignments)
    ensures InsertMissing(map[], rows) == rows
  {
  }

  lemma ExplicitFallbackIsEffective(a: Assignments, back: Assignments)
    requires back.Keys == a.Keys
    requires forall c :: c in a ==> back[c] == ExplicitFallback(a[c])
    ensures forall c, doc :: Assigned(back, c, doc) == Assigned(a, c, doc)
  {
  }

  /** `down` after `up` gives every connection the assignment with its fallback made explicit. */
  lemma DownAfterUp(db: Database)
    requires db.assignments.Some? && (db.routes == None || db.routes == Some(map[]))
    ensures var a := db.assignments.value;
            var back := DownState(UpState(db)).assignments.value;
            && back.Keys == a.Keys
            && (forall c :: c in a ==> back[c] == ExplicitFallback(a[c]))
            && (forall c, doc :: Assigned(back, c, doc) == Assigned(a, c, doc))
  {
    var a := db.assignments.value;
    var back := DownState(UpState(db)).assignments.value;
    DownAfterUpRebuilds(db);
    forall c ensures (c in back <==> c in a) && (c in a ==> back[c] == ExplicitFallback(a[c])) {
      RebuiltAfterUp(a, c);
    }
    ExplicitFallbackIsEffective(a, back);
  }

  lemma RoutesFollowFromEffectiveSeries(a: Assignments, b: Assignments)
    requires forall c, doc :: Assigned(a, c, doc) == Assigned(b, c, doc)
    ensures FreshRoutes(a) == FreshRoutes(b)
  {
    forall k: RouteKey
      ensures k in FreshRoutes(a) <==> k in FreshRoutes(b)
      ensures k in FreshRoutes(a) && k in FreshRoutes(b) ==> FreshRoutes(a)[k] == FreshRoutes(b)[k]
    {
      UpRouteOf(a, k.0, k.1, k.2);
      UpRouteOf(b, k.0, k.1, k.2);
      assert Assigned(a, k.0, k.1) == Assigned(b, k.0, k.1);
    }
  }

  /** A second `up` rebuilds the same routes. */
  lemma UpAfterDownGivesSameRoutes(db: Database)
    requires db.assignments.Some? && (db.routes == None || db.routes == Some(map[]))
    ensures UpState(DownState(UpState(db))).routes == UpState(db).routes
  {
    DownAfterUp(db);
    RoutesFollowFromEffectiveSeries(DownState(UpState(db)).assignments.value, db.assignments.value);
  }

  ghost predicate UsedForCorrections(a: Assignments, s: SeriesId) {
    exists c :: c in a && a[c].correctionSeriesId == Some(s)
  }

  /**
   * The stamps are another matter: the explicit fallback makes the second `up` stamp a main series as
   * 'corrected'. They come back unchanged exactly when every such main series was a correction series too.
   */
  lemma StampsSurviveTheRoundTripIff(db: Database)
    requires db.assignments.Some? && (db.routes == None || db.routes == Some(map[])) && ReferencesHold(db)
    requires forall s :: s in db.series ==> db.series[s] == None
    ensures UpState(DownState(UpState(db))).series == UpState(db).series
       <==> forall c :: c in db.assignments.value && db.assignments.value[c].correctionSeriesId.None? ==>
              UsedForCorrections(db.assignments.value, db.assignments.value[c].mainSeriesId)
  {
    var a := db.assignments.value;
    var back := DownState(UpState(db)).assignments.value;
    StampsEqualIff(db.series, DownState(UpState(db)).series, back, a);
    DownAfterUp(db);
    ExplicitFallbackUses(a, back);
    forall s | FallsBack(a, s) ensures s in db.series {
      var c :| c in a && a[c].correctionSeriesId.None? && a[c].mainSeriesId == s;
    }
    forall c | c in a && a[c].correctionSeriesId.None? ensures FallsBack(a, a[c].mainSeriesId) {
    }
  }

  ghost predicate FallsBack(a: Assignments, s: SeriesId) {
    exists c :: c in a && a[c].correctionSeriesId.None? && a[c].mainSeriesId == s
  }

  lemma ExplicitFallbackUses(a: Assignments, back: Assignments)
    requires back.Keys == a.Keys
    requires forall c :: c in a ==> back[c] == ExplicitFallback(a[c])
    ensures forall s :: UsedForCorrections(back, s) <==> UsedForCorrections(a, s) || FallsBack(a, s)
  {
    forall s ensures UsedForCorrections(back, s) <==> UsedForCorrections(a, s) || FallsBack(a, s) {
      if UsedForCorrections(back, s) {
        var c :| c in back && back[c].correctionSeriesId == Some(s);
        assert c in a && Coalesced(a[c]) == s;
      }
      if UsedForCorrections(a, s) {
        var c :| c in a && a[c].correctionSeriesId == Some(s);
        assert back[c].correctionSeriesId == Some(s);
      }
      if FallsBack(a, s) {
        var c :| c in a && a[c].correctionSeriesId.None? && a[c].mainSeriesId == s;
        assert back[c].correctionSeriesId == Some(s);
      }
    }
  }

  /** Two untyped series tables over the same ids get the same stamps exactly when the same ids are used for corrections. */
  lemma StampsEqualIff(series: map<SeriesId, Option<DocumentType>>, again: map<SeriesId, Option<DocumentType>>,
                       b: Assignments, a: Assignments)
    requires series.Keys == again.Keys
    requires forall s :: s in series ==> series[s] == None && again[s] == None
    ensures Stamped(WithTypeColumn(again), b) == Stamped(WithTypeColumn(series), a)
       <==> forall s :: s in series ==> (UsedForCorrections(b, s) <==> UsedForCorrections(a, s))
  {
    var x, y := Stamped(WithTypeColumn(again), b), Stamped(WithTypeColumn(series), a);
    assert INVOICE[0] != CORRECTED[0];
    forall s | s in series ensures x[s] == y[s] <==> (UsedForCorrections(b, s) <==> UsedForCorrections(a, s)) {
      assert x[s] == if UsedForCorrections(b, s) then Some(CORRECTED) else Some(INVOICE);
      assert y[s] == if UsedForCorrections(a, s) then Some(CORRECTED) else Some(INVOICE);
    }
    assert x.Keys == y.Keys == series.Keys;
  }
}
