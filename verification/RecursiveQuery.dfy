/**
 * `WITH RECURSIVE q AS (roots UNION step)`: the set-semantics recursive query that the cascade
 * closure and the rotation-chain walk both use. `Reach` is the reference meaning (a path exists);
 * `Evaluate` is the working-table loop the database runs.
 */
module RecursiveQuery {

  /** A non-empty walk along the edges; an edge is (from, to). */
  ghost predicate IsPath<T>(edges: set<(T, T)>, p: seq<T>) {
    |p| > 0 && forall i :: 0 < i < |p| ==> (p[i - 1], p[i]) in edges
  }

  ghost predicate Joins<T>(edges: set<(T, T)>, p: seq<T>, roots: set<T>, t: T) {
    IsPath(edges, p) && p[0] in roots && p[|p| - 1] == t
  }

  ghost predicate Reachable<T(!new)>(edges: set<(T, T)>, roots: set<T>, t: T) {
    exists p :: Joins(edges, p, roots, t)
  }

  function Targets<T>(edges: set<(T, T)>): set<T> {
    set e | e in edges :: e.1
  }

  ghost function Reach<T(!new)>(edges: set<(T, T)>, roots: set<T>): set<T> {
    set t | t in roots + Targets(edges) && Reachable(edges, roots, t)
  }

  ghost predicate Closed<T(!new)>(edges: set<(T, T)>, s: set<T>) {
    forall a, b :: (a, b) in edges && a in s ==> b in s
  }

  lemma ReachHasRoots<T(!new)>(edges: set<(T, T)>, roots: set<T>)
    ensures roots <= Reach(edges, roots)
  {
    forall r | r in roots ensures Reachable(edges, roots, r) {
      assert Joins(edges, [r], roots, r);
    }
  }

  lemma ReachStep<T(!new)>(edges: set<(T, T)>, roots: set<T>, a: T, b: T)
    requires a in Reach(edges, roots) && (a, b) in edges
    ensures b in Reach(edges, roots)
  {
    var p :| Joins(edges, p, roots, a);
    assert Joins(edges, p + [b], roots, b);
    assert (a, b).1 in Targets(edges);
  }

  lemma ReachClosed<T(!new)>(edges: set<(T, T)>, roots: set<T>)
    ensures Closed(edges, Reach(edges, roots))
  {
    forall a, b | (a, b) in edges && a in Reach(edges, roots) ensures b in Reach(edges, roots) {
      ReachStep(edges, roots, a, b);
    }
  }

  lemma {:induction false} PathStaysInside<T(!new)>(edges: set<(T, T)>, s: set<T>, p: seq<T>)
    requires IsPath(edges, p) && p[0] in s && Closed(edges, s)
    ensures p[|p| - 1] in s
  {
    if |p| > 1 {
      var q := p[..|p| - 1];
      PathStaysInside(edges, s, q);
      assert (q[|q| - 1], p[|p| - 1]) in edges;
    }
  }

  /** Reach is the least closed set that contains the roots. */
  lemma ReachIsLeast<T(!new)>(edges: set<(T, T)>, roots: set<T>, s: set<T>)
    requires roots <= s && Closed(edges, s)
    ensures Reach(edges, roots) <= s
  {
    forall t | t in Reach(edges, roots) ensures t in s {
      var p :| Joins(edges, p, roots, t);
      PathStaysInside(edges, s, p);
    }
  }

  lemma ReachMonotone<T(!new)>(small: set<(T, T)>, large: set<(T, T)>, few: set<T>, many: set<T>)
    requires small <= large && few <= many
    ensures Reach(small, few) <= Reach(large, many)
  {
    ReachHasRoots(large, many);
    ReachClosed(large, many);
    ReachIsLeast(small, few, Reach(large, many));
  }

  /** Splitting the roots splits the result: statement order and repetition cannot matter. */
  lemma ReachUnion<T(!new)>(edges: set<(T, T)>, a: set<T>, b: set<T>)
    ensures Reach(edges, a + b) == Reach(edges, a) + Reach(edges, b)
  {
    ReachMonotone(edges, edges, a, a + b);
    ReachMonotone(edges, edges, b, a + b);
    ReachHasRoots(edges, a);
    ReachHasRoots(edges, b);
    ReachClosed(edges, a);
    ReachClosed(edges, b);
    ReachIsLeast(edges, a + b, Reach(edges, a) + Reach(edges, b));
  }

  /** The database's evaluation: join only the rows added last, drop duplicates, stop when none are new. */
  method Evaluate<T(==, !new)>(edges: set<(T, T)>, roots: set<T>) returns (result: set<T>)
    ensures result == Reach(edges, roots)
  {
    result := roots;
    var working := roots;
    ReachHasRoots(edges, roots);
    while working != {}
      invariant roots <= result <= Reach(edges, roots)
      invariant working <= result
      invariant forall a, b :: (a, b) in edges && a in result && a !in working ==> b in result
      decreases Targets(edges) - result, working
    {
      var added := (set e | e in edges && e.0 in working :: e.1) - result;
      forall b | b in added ensures b in Reach(edges, roots) && b in Targets(edges) {
        var e :| e in edges && e.0 in working && e.1 == b;
        assert (e.0, b) in edges;
        ReachStep(edges, roots, e.0, b);
      }
      forall a, b | (a, b) in edges && a in result + added && a !in added ensures b in result + added {
        if a in working {
          assert (a, b).1 == b;
        }
      }
      if added != {} {
        var b :| b in added;
        assert b in Targets(edges) - result && b !in Targets(edges) - (result + added);
      }
      result, working := result + added, added;
    }
    ReachIsLeast(edges, roots, result);
  }
}
