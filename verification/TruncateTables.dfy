/**
 * The integration-test reset of libs/test-kit/src/harness.ts: expand the caller's tables to their
 * cascade closure (memoised per data source), probe the closure for rows, truncate only what is dirty.
 * The reference is the loop it replaced, one `TRUNCATE <t> CASCADE` per listed table.
 */
module TruncateTables {
  import opened Wrappers
  import opened RecursiveQuery

  type Table = string
  type Row = int

  /** Every relation of the database with its rows, search path or not. */
  type Contents = map<Table, seq<Row>>

  datatype ForeignKey = ForeignKey(child: Table, parent: Table)

  datatype Outcome = Done | Refused(table: Table) | NoSuchRelation(table: Table)

  // ---------------------------------------------------------------- table names

  predicate IsLetter(c: char) {
    'a' <= c <= 'z' || 'A' <= c <= 'Z' || c == '_'
  }

  predicate IsWordChar(c: char) {
    IsLetter(c) || '0' <= c <= '9'
  }

  predicate SafeName(s: Table) {
    |s| > 0 && IsLetter(s[0]) && forall i :: 0 <= i < |s| ==> IsWordChar(s[i])
  }

  predicate AllSafe(names: seq<Table>) {
    forall i :: 0 <= i < |names| ==> SafeName(names[i])
  }

  /** The identifiers the check lets through, by code point: ASCII letters, digits and `_`, no digit first. */
  predicate PlainName(s: Table) {
    && s != ""
    && !(48 <= s[0] as int <= 57)
    && forall i :: 0 <= i < |s| ==>
         65 <= s[i] as int <= 90 || 97 <= s[i] as int <= 122 || 48 <= s[i] as int <= 57 || s[i] as int == 95
  }

  lemma SafeNameIff(s: Table)
    ensures SafeName(s) <==> PlainName(s)
  {
  }

  /** `names.join(',')`, the memo key. */
  function Join(names: seq<Table>): string {
    if |names| == 0 then ""
    else if |names| == 1 then names[0]
    else names[0] + "," + Join(names[1..])
  }

  predicate NoComma(s: string) {
    forall i :: 0 <= i < |s| ==> s[i] != ','
  }

  lemma FirstComma(x: string, u: string)
    requires NoComma(x)
    ensures (x + "," + u)[|x|] == ','
    ensures forall k :: 0 <= k < |x| ==> (x + "," + u)[k] != ','
    ensures (x + "," + u)[..|x|] == x && (x + "," + u)[|x| + 1..] == u
  {
  }

  lemma CommaSplitUnique(x: string, u: string, y: string, v: string)
    requires NoComma(x) && NoComma(y)
    requires x + "," + u == y + "," + v
    ensures x == y && u == v
  {
    FirstComma(x, u);
    FirstComma(y, v);
  }

  /** Safe names hold no comma, so a joined list shows whether it has one name or several. */
  lemma JoinCommaIff(a: seq<Table>)
    requires AllSafe(a) && a != []
    ensures NoComma(Join(a)) <==> |a| == 1
    ensures Join(a) != ""
  {
    assert SafeName(a[0]);
    if |a| > 1 {
      FirstComma(a[0], Join(a[1..]));
    }
  }

  lemma {:induction false} JoinInjective(a: seq<Table>, b: seq<Table>)
    requires AllSafe(a) && AllSafe(b)
    requires Join(a) == Join(b)
    ensures a == b
  {
    if a != [] {
      JoinCommaIff(a);
    }
    if b != [] {
      JoinCommaIff(b);
    }
    if |a| == 1 {
      assert a == [a[0]] && b == [b[0]];
    } else if |a| > 1 {
      CommaSplitUnique(a[0], Join(a[1..]), b[0], Join(b[1..]));
      JoinInjective(a[1..], b[1..]);
      assert a == [a[0]] + a[1..] && b == [b[0]] + b[1..];
    }
  }

  /** Without the identifier check two different lists share one memo key. */
  lemma JoinCollidesOnUncheckedNames()
    ensures Join(["a,b"]) == Join(["a", "b"]) && ["a,b"] != ["a", "b"]
    ensures !SafeName("a,b")
  {
    assert Join(["a", "b"]) == "a" + "," + Join(["a", "b"][1..]);
    assert ["a", "b"][1..] == ["b"];
    assert "a,b"[1] == ',';
  }

  // ---------------------------------------------------------------- sorting the dependents

  /** String order by code unit, as the default `sort()` compares. */
  predicate Before(a: string, b: string) {
    b != "" && (a == "" || a[0] < b[0] || (a[0] == b[0] && Before(a[1..], b[1..])))
  }

  lemma {:induction false} BeforeIsTotal(a: string, b: string)
    ensures Before(a, b) || a == b || Before(b, a)
  {
    if a != "" && b != "" && a[0] == b[0] {
      BeforeIsTotal(a[1..], b[1..]);
      assert a == [a[0]] + a[1..] && b == [b[0]] + b[1..];
    }
  }

  lemma {:induction false} BeforeTransitive(a: string, b: string, c: string)
    requires Before(a, b) && Before(b, c)
    ensures Before(a, c)
  {
    if a != "" && a[0] == b[0] == c[0] {
      BeforeTransitive(a[1..], b[1..], c[1..]);
    }
  }

  lemma {:induction false} BeforeIrreflexive(a: string)
    ensures !Before(a, a)
  {
    if a != "" {
      BeforeIrreflexive(a[1..]);
    }
  }

  /** By code units: at the first difference the smaller one decides, and a proper prefix comes first. */
  lemma {:induction false} BeforeIff(a: string, b: string)
    ensures Before(a, b) <==>
              exists k: nat :: k <= |a| && k < |b| && a[..k] == b[..k] && (k == |a| || (a[k] as int) < (b[k] as int))
  {
    assert forall k: nat :: 0 < k <= |a| && k <= |b| && a[..k] == b[..k] ==> a[..k][0] == b[..k][0];
    if a != "" && b != "" && a[0] == b[0] {
      BeforeIff(a[1..], b[1..]);
      if k: nat :| k <= |a[1..]| && k < |b[1..]| && a[1..][..k] == b[1..][..k] && (k == |a[1..]| || a[1..][k] < b[1..][k]) {
        assert a[..k + 1] == [a[0]] + a[1..][..k] && b[..k + 1] == [b[0]] + b[1..][..k];
      }
      if k: nat :| k <= |a| && k < |b| && a[..k] == b[..k] && (k == |a| || a[k] < b[k]) {
        assert k > 0;
        assert a[1..][..k - 1] == a[..k][1..] && b[1..][..k - 1] == b[..k][1..];
      }
    } else if Before(a, b) {
      assert a[..0] == b[..0];
    }
  }

  ghost predicate Ascending(s: seq<Table>) {
    forall i, j :: 0 <= i < j < |s| ==> Before(s[i], s[j])
  }

  function Insert(x: Table, s: seq<Table>): seq<Table> {
    if s == [] || Before(x, s[0]) then [x] + s else [s[0]] + Insert(x, s[1..])
  }

  lemma {:induction false} InsertKeepsOrder(x: Table, s: seq<Table>)
    requires Ascending(s) && x !in s
    ensures Ascending(Insert(x, s)) && Elements(Insert(x, s)) == Elements(s) + {x}
  {
    if s == [] {
    } else if Before(x, s[0]) {
      forall j | 0 < j < |s| ensures Before(x, s[j]) {
        BeforeTransitive(x, s[0], s[j]);
      }
    } else {
      BeforeIsTotal(x, s[0]);
      InsertKeepsOrder(x, s[1..]);
      var r := Insert(x, s[1..]);
      assert s == [s[0]] + s[1..];
      forall j | 0 <= j < |r| ensures Before(s[0], r[j]) {
        assert r[j] in Elements(r);
      }
    }
  }

  /** A set has only one ascending listing, so "sorted dependents" names one list. */
  lemma {:induction false} AscendingUnique(a: seq<Table>, b: seq<Table>)
    requires Ascending(a) && Ascending(b) && Elements(a) == Elements(b)
    ensures a == b
  {
    if a == [] || b == [] {
      NoElements(a);
      NoElements(b);
    } else {
      AscendingHead(a, b);
      AscendingHead(b, a);
      if a[0] != b[0] {
        BeforeTransitive(a[0], b[0], a[0]);
        BeforeIrreflexive(a[0]);
      }
      forall x ensures x in a[1..] <==> x in b[1..] {
        AscendingTail(a, x);
        AscendingTail(b, x);
        assert x in Elements(a) <==> x in Elements(b);
      }
      AscendingUnique(a[1..], b[1..]);
      assert a == [a[0]] + a[1..] && b == [b[0]] + b[1..];
    }
  }

  lemma NoElements(s: seq<Table>)
    ensures s == [] <==> Elements(s) == {}
  {
    if s != [] {
      assert s[0] in Elements(s);
    }
  }

  lemma AscendingHead(a: seq<Table>, b: seq<Table>)
    requires Ascending(a) && a != [] && b != [] && Elements(a) == Elements(b)
    ensures a[0] == b[0] || Before(a[0], b[0])
  {
    assert b[0] in Elements(b);
    var i :| 0 <= i < |a| && a[i] == b[0];
  }

  lemma AscendingTail(a: seq<Table>, x: Table)
    requires Ascending(a) && a != []
    ensures x in a[1..] <==> x in a && x != a[0]
  {
    BeforeIrreflexive(x);
    assert a == [a[0]] + a[1..];
    if x in a[1..] {
      var i :| 0 <= i < |a[1..]| && a[1..][i] == x;
      assert Before(a[0], a[i + 1]);
    }
  }

  // ---------------------------------------------------------------- meaning of TRUNCATE and of the walk

  function Dependents(fks: set<ForeignKey>): set<(Table, Table)> {
    set fk | fk in fks :: (fk.parent, fk.child)
  }

  /** The recursive term of the walk keeps only dependents inside the current schemas. */
  function VisibleDependents(fks: set<ForeignKey>, visible: set<Table>): set<(Table, Table)> {
    set fk | fk in fks && fk.child in visible :: (fk.parent, fk.child)
  }

  /** The state after one `TRUNCATE TABLE <listed> CASCADE`. */
  ghost function Cleared(fks: set<ForeignKey>, contents: Contents, listed: set<Table>): Contents {
    map t | t in contents :: if t in Reach(Dependents(fks), listed) then [] else contents[t]
  }

  /** The replaced reset: one cascading truncate per listed table, in the caller's order. */
  ghost function TruncateEach(fks: set<ForeignKey>, contents: Contents, tables: seq<Table>): Contents {
    if tables == [] then contents
    else TruncateEach(fks, Cleared(fks, contents, {tables[0]}), tables[1..])
  }

  ghost function Walk(fks: set<ForeignKey>, visible: set<Table>, tables: seq<Table>): set<Table> {
    Reach(VisibleDependents(fks, visible), Elements(tables) * visible)
  }

  /** What the memo must hold: the caller's list, then the extra dependents in order. */
  ghost predicate IsClosure(fks: set<ForeignKey>, visible: set<Table>, tables: seq<Table>, closure: seq<Table>) {
    && tables <= closure
    && AllSafe(closure)
    && Ascending(closure[|tables|..])
    && Elements(closure[|tables|..]) == Walk(fks, visible, tables) - Elements(tables)
  }

  lemma ClosureUnique(fks: set<ForeignKey>, visible: set<Table>, tables: seq<Table>, a: seq<Table>, b: seq<Table>)
    requires IsClosure(fks, visible, tables, a) && IsClosure(fks, visible, tables, b)
    ensures a == b
  {
    AscendingUnique(a[|tables|..], b[|tables|..]);
    assert a == tables + a[|tables|..] && b == tables + b[|tables|..];
  }

  /** The state the fast reset leaves: clear the cascade of the dirty members of the walk. */
  ghost function ResetState(fks: set<ForeignKey>, visible: set<Table>, contents: Contents, tables: seq<Table>): Contents {
    Cleared(fks, contents, set t | t in Walk(fks, visible, tables) && t in contents && contents[t] != [])
  }

  /** Two truncates are one truncate of both lists. */
  lemma ClearedTwice(fks: set<ForeignKey>, contents: Contents, a: set<Table>, b: set<Table>)
    ensures Cleared(fks, Cleared(fks, contents, a), b) == Cleared(fks, contents, a + b)
  {
    ReachUnion(Dependents(fks), a, b);
  }

  lemma {:induction false} TruncateEachIsOneTruncate(fks: set<ForeignKey>, contents: Contents, tables: seq<Table>)
    ensures TruncateEach(fks, contents, tables) == Cleared(fks, contents, Elements(tables))
  {
    if tables == [] {
      ReachIsLeast(Dependents(fks), {}, {});
    } else {
      assert Elements(tables) == {tables[0]} + Elements(tables[1..]) by {
        assert tables == [tables[0]] + tables[1..];
      }
      TruncateEachIsOneTruncate(fks, Cleared(fks, contents, {tables[0]}), tables[1..]);
      ClearedTwice(fks, contents, {tables[0]}, Elements(tables[1..]));
    }
  }

  /** Clearing the dirty part of a cascade-closed set clears the whole set. */
  lemma ResetClearsTheWalk(fks: set<ForeignKey>, visible: set<Table>, contents: Contents, tables: seq<Table>)
    requires Walk(fks, visible, tables) == Reach(Dependents(fks), Elements(tables))
    ensures ResetState(fks, visible, contents, tables) == Cleared(fks, contents, Elements(tables))
  {
    var all := Walk(fks, visible, tables);
    var dirty := set t | t in all && t in contents && contents[t] != [];
    ReachHasRoots(Dependents(fks), dirty);
    ReachClosed(Dependents(fks), Elements(tables));
    ReachIsLeast(Dependents(fks), dirty, all);
  }

  lemma FastResetIsOldLoop(fks: set<ForeignKey>, visible: set<Table>, contents: Contents, tables: seq<Table>)
    requires Elements(tables) <= visible
    requires Reach(Dependents(fks), Elements(tables)) <= visible
    ensures ResetState(fks, visible, contents, tables) == TruncateEach(fks, contents, tables)
  {
    VisibleCascadeIsTheWalk(fks, visible, tables);
    ResetClearsTheWalk(fks, visible, contents, tables);
    TruncateEachIsOneTruncate(fks, contents, tables);
  }

  lemma WalkIsPartOfCascade(fks: set<ForeignKey>, visible: set<Table>, tables: seq<Table>)
    ensures Walk(fks, visible, tables) <= Reach(Dependents(fks), Elements(tables))
  {
    ReachMonotone(VisibleDependents(fks, visible), Dependents(fks), Elements(tables) * visible, Elements(tables));
  }

  /**
   * The fast reset equals the old loop on every database exactly when the cascade of the listed
   * tables stays inside the walk, that is, when no cross-schema foreign key leaves the search path.
   */
  lemma ResetMatchesOldLoopIff(fks: set<ForeignKey>, visible: set<Table>, relations: set<Table>, tables: seq<Table>)
    requires Elements(tables) <= visible <= relations
    requires Targets(Dependents(fks)) <= relations
    ensures (forall c: Contents | c.Keys == relations ::
               ResetState(fks, visible, c, tables) == TruncateEach(fks, c, tables))
       <==> Reach(Dependents(fks), Elements(tables)) <= visible
  {
    var cascade := Reach(Dependents(fks), Elements(tables));
    WalkIsPartOfCascade(fks, visible, tables);
    if cascade <= visible {
      forall c: Contents | c.Keys == relations
        ensures ResetState(fks, visible, c, tables) == TruncateEach(fks, c, tables)
      {
        FastResetIsOldLoop(fks, visible, c, tables);
      }
    } else {
      var t :| t in cascade && t !in visible;
      var c: Contents := map r | r in relations :: if r == t then [0] else [];
      TruncateEachIsOneTruncate(fks, c, tables);
      WalkIsVisible(fks, visible, tables);
      assert (set r | r in Walk(fks, visible, tables) && r in c && c[r] != []) == {};
      ReachIsLeast(Dependents(fks), {}, {});
      assert ResetState(fks, visible, c, tables)[t] == [0];
      assert TruncateEach(fks, c, tables)[t] == [];
      assert c.Keys == relations;
    }
  }

  lemma WalkIsVisible(fks: set<ForeignKey>, visible: set<Table>, tables: seq<Table>)
    ensures Walk(fks, visible, tables) <= visible
  {
    ReachIsLeast(VisibleDependents(fks, visible), Elements(tables) * visible, visible);
  }

  lemma VisibleEdge(fks: set<ForeignKey>, visible: set<Table>, a: Table, b: Table)
    requires (a, b) in Dependents(fks)
    ensures b in visible ==> (a, b) in VisibleDependents(fks, visible)
  {
  }

  lemma VisibleCascadeIsTheWalk(fks: set<ForeignKey>, visible: set<Table>, tables: seq<Table>)
    requires Elements(tables) <= visible
    requires Reach(Dependents(fks), Elements(tables)) <= visible
    ensures Walk(fks, visible, tables) == Reach(Dependents(fks), Elements(tables))
  {
    var walk := Walk(fks, visible, tables);
    var cascade := Reach(Dependents(fks), Elements(tables));
    WalkIsPartOfCascade(fks, visible, tables);
    ReachHasRoots(VisibleDependents(fks, visible), Elements(tables) * visible);
    ReachClosed(VisibleDependents(fks, visible), Elements(tables) * visible);
    ReachClosed(Dependents(fks), Elements(tables));
    forall a, b | (a, b) in Dependents(fks) && a in walk ensures b in walk {
      VisibleEdge(fks, visible, a, b);
    }
    ReachIsLeast(Dependents(fks), Elements(tables), walk);
  }

  // ---------------------------------------------------------------- which way a foreign key cascades

  /** Foreign keys that lead from a listed table to dependent after dependent. */
  ghost predicate CascadeChain(fks: set<ForeignKey>, tables: seq<Table>, chain: seq<ForeignKey>) {
    && chain != [] && chain[0].parent in tables
    && (forall i :: 0 <= i < |chain| ==> chain[i] in fks)
    && forall i :: 0 < i < |chain| ==> chain[i].parent == chain[i - 1].child
  }

  ghost predicate StaysInside(chain: seq<ForeignKey>, visible: set<Table>) {
    forall i :: 0 <= i < |chain| ==> chain[i].child in visible
  }

  /** A set of tables that holds the dependents of its members. */
  ghost predicate HoldsDependents(fks: set<ForeignKey>, some: set<Table>) {
    forall fk :: fk in fks && fk.parent in some ==> fk.child in some
  }

  lemma {:induction false} ChainIsWalked(fks: set<ForeignKey>, visible: set<Table>, tables: seq<Table>, chain: seq<ForeignKey>)
    requires CascadeChain(fks, tables, chain) && StaysInside(chain, visible) && Elements(tables) <= visible
    ensures chain[|chain| - 1].child in Walk(fks, visible, tables)
  {
    var last := chain[|chain| - 1];
    ReachHasRoots(VisibleDependents(fks, visible), Elements(tables) * visible);
    if |chain| > 1 {
      ChainIsWalked(fks, visible, tables, chain[..|chain| - 1]);
    } else {
      assert last.parent in Elements(tables);
    }
    assert last in fks && last.child in visible;
    assert (last.parent, last.child) in VisibleDependents(fks, visible);
    ReachStep(VisibleDependents(fks, visible), Elements(tables) * visible, last.parent, last.child);
  }

  /** Tables outside a set that holds the listed tables and all dependents of its members are not cascaded to. */
  lemma CascadeStaysIn(fks: set<ForeignKey>, listed: set<Table>, some: set<Table>)
    requires listed <= some && HoldsDependents(fks, some)
    ensures Reach(Dependents(fks), listed) <= some
  {
    forall a, b | (a, b) in Dependents(fks) && a in some ensures b in some {
      var fk :| fk in fks && (fk.parent, fk.child) == (a, b);
    }
    ReachIsLeast(Dependents(fks), listed, some);
  }

  /** What a reset empties and what it keeps, by the foreign keys alone. */
  ghost predicate ResetOutcome(fks: set<ForeignKey>, visible: set<Table>, tables: seq<Table>, before: Contents, after: Contents) {
    && after.Keys == before.Keys
    && (forall t :: t in before && t in tables ==> after[t] == [])
    && (forall chain: seq<ForeignKey> :: CascadeChain(fks, tables, chain) && StaysInside(chain, visible) && chain[|chain| - 1].child in before ==>
          after[chain[|chain| - 1].child] == [])
    && (forall some: set<Table>, t :: Elements(tables) <= some && HoldsDependents(fks, some) && t in before && t !in some ==>
          after[t] == before[t])
  }

  lemma ResetEmptiesTheWalk(fks: set<ForeignKey>, visible: set<Table>, before: Contents, tables: seq<Table>, t: Table)
    requires t in before && t in Walk(fks, visible, tables)
    ensures ResetState(fks, visible, before, tables)[t] == []
  {
    var dirty := set d | d in Walk(fks, visible, tables) && d in before && before[d] != [];
    ReachHasRoots(Dependents(fks), dirty);
  }

  lemma ResetKeepsOutside(fks: set<ForeignKey>, visible: set<Table>, before: Contents, tables: seq<Table>,
                          some: set<Table>, t: Table)
    requires Elements(tables) <= some && HoldsDependents(fks, some) && t in before && t !in some
    ensures ResetState(fks, visible, before, tables)[t] == before[t]
  {
    WalkIsPartOfCascade(fks, visible, tables);
    CascadeStaysIn(fks, Elements(tables), some);
    var dirty := set d | d in Walk(fks, visible, tables) && d in before && before[d] != [];
    CascadeStaysIn(fks, dirty, some);
  }

  lemma ResetEmptiesTheCascade(fks: set<ForeignKey>, visible: set<Table>, before: Contents, tables: seq<Table>)
    requires Elements(tables) <= visible
    ensures ResetOutcome(fks, visible, tables, before, ResetState(fks, visible, before, tables))
  {
    var after := ResetState(fks, visible, before, tables);
    forall t | t in before && t in tables ensures after[t] == [] {
      assert t in Elements(tables) * visible;
      ReachHasRoots(VisibleDependents(fks, visible), Elements(tables) * visible);
      ResetEmptiesTheWalk(fks, visible, before, tables, t);
    }
    forall chain: seq<ForeignKey>
      | CascadeChain(fks, tables, chain) && StaysInside(chain, visible) && chain[|chain| - 1].child in before
      ensures after[chain[|chain| - 1].child] == []
    {
      ChainIsWalked(fks, visible, tables, chain);
      ResetEmptiesTheWalk(fks, visible, before, tables, chain[|chain| - 1].child);
    }
    forall some: set<Table>, t | Elements(tables) <= some && HoldsDependents(fks, some) && t in before && t !in some
      ensures after[t] == before[t]
    {
      ResetKeepsOutside(fks, visible, before, tables, some, t);
    }
  }

  /** The replaced loop does the same without regard to schemas. */
  lemma OldLoopOutcome(fks: set<ForeignKey>, before: Contents, tables: seq<Table>)
    ensures ResetOutcome(fks, Elements(tables) + set fk | fk in fks :: fk.child, tables, before, TruncateEach(fks, before, tables))
  {
    var everywhere := Elements(tables) + set fk | fk in fks :: fk.child;
    CascadeStaysIn(fks, Elements(tables), everywhere);
    FastResetIsOldLoop(fks, everywhere, before, tables);
    ResetEmptiesTheCascade(fks, everywhere, before, tables);
  }

  /** Every name a completed reset met is a plain one. */
  ghost predicate OnlyPlainNames(fks: set<ForeignKey>, visible: set<Table>, tables: seq<Table>) {
    && (forall t :: t in tables ==> PlainName(t))
    && (forall chain: seq<ForeignKey> :: CascadeChain(fks, tables, chain) && StaysInside(chain, visible) ==> PlainName(chain[|chain| - 1].child))
  }

  lemma CheckedNamesArePlain(fks: set<ForeignKey>, visible: set<Table>, tables: seq<Table>)
    requires AllSafe(tables) && Elements(tables) <= visible
    requires forall t :: t in Walk(fks, visible, tables) ==> SafeName(t)
    ensures OnlyPlainNames(fks, visible, tables)
  {
    forall t | t in tables ensures PlainName(t) {
      SafeNameIff(t);
    }
    forall chain: seq<ForeignKey> | CascadeChain(fks, tables, chain) && StaysInside(chain, visible) ensures PlainName(chain[|chain| - 1].child) {
      ChainIsWalked(fks, visible, tables, chain);
      SafeNameIff(chain[|chain| - 1].child);
    }
  }

  /** Order and duplicates in the caller's list are irrelevant, and nothing outside the cascade changes. */
  lemma TruncateEachOrderAndFrame(fks: set<ForeignKey>, c: Contents, a: seq<Table>, b: seq<Table>)
    requires Elements(a) == Elements(b)
    ensures TruncateEach(fks, c, a) == TruncateEach(fks, c, b)
    ensures TruncateEach(fks, c, a).Keys == c.Keys
    ensures forall t :: t in c && t !in Reach(Dependents(fks), Elements(a)) ==> TruncateEach(fks, c, a)[t] == c[t]
    ensures forall t :: t in c && t in a ==> TruncateEach(fks, c, a)[t] == []
  {
    TruncateEachIsOneTruncate(fks, c, a);
    TruncateEachIsOneTruncate(fks, c, b);
    ReachHasRoots(Dependents(fks), Elements(a));
  }

  // ---------------------------------------------------------------- the data source

  /** The rows of `candidates` that the UNION ALL probe returns. */
  function NonEmpty(candidates: seq<Table>, contents: Contents): (dirty: seq<Table>)
    requires Elements(candidates) <= contents.Keys
    ensures forall t :: t in dirty <==> t in candidates && contents[t] != []
  {
    if candidates == [] then []
    else
      assert candidates == [candidates[0]] + candidates[1..];
      (if contents[candidates[0]] != [] then [candidates[0]] else []) + NonEmpty(candidates[1..], contents)
  }

  class DataSource {
    const visible: set<Table>
    const foreignKeys: set<ForeignKey>
    var contents: Contents

    constructor (visible: set<Table>, foreignKeys: set<ForeignKey>, contents: Contents)
      requires visible <= contents.Keys
      ensures this.visible == visible && this.foreignKeys == foreignKeys && this.contents == contents
      ensures Valid()
    {
      this.visible, this.foreignKeys, this.contents := visible, foreignKeys, contents;
    }

    ghost predicate Valid()
      reads this
    {
      visible <= contents.Keys
    }

    /** The `pg_constraint` walk; the rows come back in no particular order. */
    method ClosureWalk(tables: seq<Table>) returns (rows: set<Table>)
      ensures rows == Walk(foreignKeys, visible, tables)
    {
      rows := Evaluate(VisibleDependents(foreignKeys, visible), Elements(tables) * visible);
    }

    method Probe(candidates: seq<Table>) returns (missing: Option<Table>, dirty: seq<Table>)
      requires Valid()
      ensures missing.Some? <==> !(Elements(candidates) <= visible)
      ensures missing.Some? ==> missing.value in candidates && missing.value !in visible
      ensures missing.None? ==> forall t :: t in dirty <==> t in candidates && contents[t] != []
    {
      var unknown := Elements(candidates) - visible;
      if unknown != {} {
        var t :| t in unknown;
        return Some(t), [];
      }
      assert forall t :: t in Elements(candidates) ==> t !in unknown;
      missing, dirty := None, NonEmpty(candidates, contents);
    }

    method TruncateCascade(listed: seq<Table>)
      modifies this`contents
      ensures contents == Cleared(foreignKeys, old(contents), Elements(listed))
    {
      var doomed := Evaluate(Dependents(foreignKeys), Elements(listed));
      contents := map t | t in contents :: if t in doomed then [] else contents[t];
    }
  }

  // ---------------------------------------------------------------- the test kit

  method FirstUnsafe(names: seq<Table>) returns (bad: Option<Table>)
    ensures bad.None? <==> AllSafe(names)
    ensures bad.Some? ==> bad.value in names && !SafeName(bad.value)
  {
    for i := 0 to |names|
      invariant AllSafe(names[..i])
    {
      if !SafeName(names[i]) {
        return Some(names[i]);
      }
      assert names[..i + 1] == names[..i] + [names[i]];
    }
    assert names[..|names|] == names;
    bad := None;
  }

  method Sorted(rows: set<Table>) returns (s: seq<Table>)
    ensures Ascending(s) && Elements(s) == rows
  {
    s := [];
    var rest := rows;
    while rest != {}
      invariant Ascending(s) && Elements(s) == rows - rest && rest <= rows
      decreases rest
    {
      var t :| t in rest;
      assert t !in s by {
        assert t !in Elements(s);
      }
      InsertKeepsOrder(t, s);
      s := Insert(t, s);
      rest := rest - {t};
    }
  }

  /** The closure lists exactly the caller's tables and the walked ones. */
  lemma ClosureMembers(fks: set<ForeignKey>, visible: set<Table>, tables: seq<Table>, closure: seq<Table>)
    requires IsClosure(fks, visible, tables, closure)
    ensures Elements(closure) == Elements(tables) + Walk(fks, visible, tables)
    ensures forall t :: t in Walk(fks, visible, tables) ==> SafeName(t)
  {
    assert closure == tables + closure[|tables|..];
    forall t ensures t in closure <==> t in Elements(tables) || t in Elements(closure[|tables|..]) {
    }
    forall t | t in Walk(fks, visible, tables) ensures SafeName(t) {
      assert t in closure;
    }
  }

  lemma NothingListedNothingCleared(fks: set<ForeignKey>, contents: Contents)
    ensures Cleared(fks, contents, {}) == contents
  {
    ReachIsLeast(Dependents(fks), {}, {});
  }

  lemma EmptyListResetsNothing(fks: set<ForeignKey>, visible: set<Table>, contents: Contents)
    ensures ResetState(fks, visible, contents, []) == contents
  {
    ReachIsLeast(VisibleDependents(fks, visible), {}, {});
    assert Elements<Table>([]) * visible == {};
    assert Walk(fks, visible, []) == {};
    NothingListedNothingCleared(fks, contents);
  }

  class TestKit {
    var cascadeClosureCache: map<DataSource, map<string, seq<Table>>>

    constructor ()
      ensures cascadeClosureCache == map[] && Valid()
    {
      cascadeClosureCache := map[];
    }

    /** Every memo entry is the closure of the one checked list that has its key. */
    ghost predicate Valid()
      reads this
    {
      forall ds, key :: ds in cascadeClosureCache && key in cascadeClosureCache[ds] ==>
        Explained(ds, key, cascadeClosureCache[ds][key])
    }

    static ghost predicate Explained(ds: DataSource, key: string, closure: seq<Table>) {
      exists tables :: AllSafe(tables) && Join(tables) == key && IsClosure(ds.foreignKeys, ds.visible, tables, closure)
    }

    /** A cached answer equals a fresh walk; an unsafe dependent is refused and never cached. */
    method ResolveCascadeClosure(ds: DataSource, tables: seq<Table>)
      returns (refused: Option<Table>, closure: seq<Table>)
      requires Valid() && AllSafe(tables)
      modifies this
      ensures Valid()
      ensures refused.None? <==> forall t :: t in Walk(ds.foreignKeys, ds.visible, tables) ==> SafeName(t)
      ensures refused.None? ==> IsClosure(ds.foreignKeys, ds.visible, tables, closure)
      ensures refused.Some? ==> !SafeName(refused.value) && cascadeClosureCache == old(cascadeClosureCache)
    {
      var key := Join(tables);
      if ds in cascadeClosureCache && key in cascadeClosureCache[ds] {
        closure := cascadeClosureCache[ds][key];
        refused := None;
        assert Explained(ds, key, closure);
        ghost var cachedFor :| AllSafe(cachedFor) && Join(cachedFor) == key
          && IsClosure(ds.foreignKeys, ds.visible, cachedFor, closure);
        JoinInjective(cachedFor, tables);
        ClosureMembers(ds.foreignKeys, ds.visible, tables, closure);
        return;
      }
      var rows := ds.ClosureWalk(tables);
      var dependents := Sorted(rows - Elements(tables));
      refused := FirstUnsafe(dependents);
      if refused.Some? {
        assert refused.value in Elements(dependents);
        return refused, [];
      }
      closure := tables + dependents;
      assert closure[|tables|..] == dependents;
      assert IsClosure(ds.foreignKeys, ds.visible, tables, closure);
      ClosureMembers(ds.foreignKeys, ds.visible, tables, closure);
      var perDataSource := if ds in cascadeClosureCache then cascadeClosureCache[ds] else map[];
      assert Explained(ds, key, closure);
      cascadeClosureCache := cascadeClosureCache[ds := perDataSource[key := closure]];
    }

    /**
     * The whole reset. Either it stops before touching a row, for one of three stated reasons, or it
     * leaves the state of the old per-table loop (for foreign keys inside the visible schema).
     */
    method TruncateTables(ds: DataSource, tables: seq<Table>) returns (outcome: Outcome)
      requires Valid() && ds.Valid()
      modifies this, ds`contents
      ensures Valid() && ds.Valid()
      ensures outcome.Done? <==>
                tables == [] || (AllSafe(tables) && Elements(tables) <= ds.visible
                                 && forall t :: t in Walk(ds.foreignKeys, ds.visible, tables) ==> SafeName(t))
      ensures outcome.Refused? ==> !PlainName(outcome.table)
      ensures outcome.Done? ==> ResetOutcome(ds.foreignKeys, ds.visible, tables, old(ds.contents), ds.contents)
      ensures outcome.Done? ==> OnlyPlainNames(ds.foreignKeys, ds.visible, tables)
      ensures outcome.NoSuchRelation? ==> outcome.table in tables && outcome.table !in ds.visible
      ensures !outcome.Done? ==> ds.contents == old(ds.contents)
      ensures outcome.Done? ==> ds.contents == ResetState(ds.foreignKeys, ds.visible, old(ds.contents), tables)
      ensures outcome.Done? && Reach(Dependents(ds.foreignKeys), Elements(tables)) <= ds.visible ==>
                ds.contents == TruncateEach(ds.foreignKeys, old(ds.contents), tables)
    {
      ghost var before := ds.contents;
      if |tables| == 0 {
        EmptyListResetsNothing(ds.foreignKeys, ds.visible, ds.contents);
        ResetEmptiesTheCascade(ds.foreignKeys, ds.visible, before, tables);
        return Done;
      }
      var bad := FirstUnsafe(tables);
      if bad.Some? {
        SafeNameIff(bad.value);
        return Refused(bad.value);
      }
      var refused, candidates := ResolveCascadeClosure(ds, tables);
      if refused.Some? {
        SafeNameIff(refused.value);
        return Refused(refused.value);
      }
      outcome := ResetCandidates(ds, tables, candidates);
      if outcome.Done? {
        ResetEmptiesTheCascade(ds.foreignKeys, ds.visible, before, tables);
        CheckedNamesArePlain(ds.foreignKeys, ds.visible, tables);
        if Reach(Dependents(ds.foreignKeys), Elements(tables)) <= ds.visible {
          FastResetIsOldLoop(ds.foreignKeys, ds.visible, before, tables);
        }
      }
    }

    /** The probe and the single `TRUNCATE` over a resolved closure. */
    static method ResetCandidates(ds: DataSource, tables: seq<Table>, candidates: seq<Table>) returns (outcome: Outcome)
      requires ds.Valid() && IsClosure(ds.foreignKeys, ds.visible, tables, candidates)
      modifies ds`contents
      ensures ds.Valid()
      ensures outcome.Done? <==> Elements(tables) <= ds.visible
      ensures !outcome.Done? ==> outcome.NoSuchRelation? && outcome.table in tables && outcome.table !in ds.visible
      ensures !outcome.Done? ==> ds.contents == old(ds.contents)
      ensures outcome.Done? ==> ds.contents == ResetState(ds.foreignKeys, ds.visible, old(ds.contents), tables)
    {
      ClosureMembers(ds.foreignKeys, ds.visible, tables, candidates);
      WalkIsVisible(ds.foreignKeys, ds.visible, tables);
      var missing, dirty := ds.Probe(candidates);
      if missing.Some? {
        assert missing.value in Elements(candidates);
        return NoSuchRelation(missing.value);
      }
      ghost var probed := set t | t in Walk(ds.foreignKeys, ds.visible, tables) && t in ds.contents && ds.contents[t] != [];
      assert Elements(dirty) == probed by {
        ReachHasRoots(VisibleDependents(ds.foreignKeys, ds.visible), Elements(tables) * ds.visible);
        forall t ensures t in Elements(dirty) <==> t in probed {
          assert t in candidates <==> t in Elements(candidates);
        }
      }
      if |dirty| == 0 {
        NothingListedNothingCleared(ds.foreignKeys, ds.contents);
        assert probed == {};
        return Done;
      }
      ds.TruncateCascade(dirty);
      outcome := Done;
    }
  }
}
