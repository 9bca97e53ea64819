/** Directed graphs as sets of edges: paths, reachability, dominance and acyclicity,
    stated over all paths, and the one-step laws that the graph algorithms rely on. */
module Graphs {

  type Id = string
  type Edges = set<(Id, Id)>

  ghost predicate IsPath(edges: Edges, p: seq<Id>) {
    |p| > 0 && forall i :: 0 <= i < |p| - 1 ==> Link(edges, p, i)
  }

  /** The i-th step of `p` follows an edge. */
  ghost predicate Link(edges: Edges, p: seq<Id>, i: int)
    requires 0 <= i < |p| - 1
  {
    (p[i], p[i + 1]) in edges
  }

  ghost predicate PathFrom(edges: Edges, a: Id, b: Id, p: seq<Id>) {
    IsPath(edges, p) && p[0] == a && p[|p| - 1] == b
  }

  /** Reflexive transitive closure of the edges. */
  ghost predicate Reach(edges: Edges, a: Id, b: Id) {
    exists p :: PathFrom(edges, a, b, p)
  }

  /** Every path from `start` to `n` goes through `d`. */
  ghost predicate Dominates(edges: Edges, start: Id, d: Id, n: Id) {
    forall p :: PathFrom(edges, start, n, p) ==> d in p
  }

  /** An edge whose target leads back to its source. */
  ghost predicate OnCycle(edges: Edges, a: Id, b: Id) {
    (a, b) in edges && Reach(edges, b, a)
  }

  ghost predicate Acyclic(edges: Edges) {
    forall a, b :: !OnCycle(edges, a, b)
  }

  ghost predicate Distinct<T>(s: seq<T>) {
    forall i, j :: 0 <= i < j < |s| ==> Differ(s, i, j)
  }

  ghost predicate Differ<T>(s: seq<T>, i: int, j: int)
    requires 0 <= i < |s| && 0 <= j < |s|
  {
    s[i] != s[j]
  }

  lemma DistinctAt<T>(s: seq<T>, i: int, j: int)
    requires Distinct(s) && 0 <= i < |s| && 0 <= j < |s| && s[i] == s[j]
    ensures i == j
  {
    assert i < j ==> Differ(s, i, j);
    assert j < i ==> Differ(s, j, i);
  }

  lemma DistinctAppend<T>(s: seq<T>, x: T)
    requires Distinct(s) && x !in s
    ensures Distinct(s + [x])
  {
    forall i, j | 0 <= i < j < |s| + 1 ensures Differ(s + [x], i, j) {
      assert j < |s| ==> Differ(s, i, j);
    }
  }

  // ---- Paths

  lemma EdgeAt(edges: Edges, p: seq<Id>, i: int)
    requires IsPath(edges, p) && 0 <= i < |p| - 1
    ensures (p[i], p[i + 1]) in edges
  {
    assert Link(edges, p, i);
  }

  lemma Segment(edges: Edges, p: seq<Id>, i: int, j: int)
    requires IsPath(edges, p) && 0 <= i <= j < |p|
    ensures PathFrom(edges, p[i], p[j], p[i..j + 1])
  {
    var r := p[i..j + 1];
    forall k | 0 <= k < |r| - 1 ensures Link(edges, r, k) {
      EdgeAt(edges, p, i + k);
    }
  }

  /** The path without its last node, and the edge to that node. */
  lemma Front(edges: Edges, p: seq<Id>)
    requires IsPath(edges, p) && |p| > 1
    ensures PathFrom(edges, p[0], p[|p| - 2], p[..|p| - 1]) && (p[|p| - 2], p[|p| - 1]) in edges
  {
    Segment(edges, p, 0, |p| - 2);
    EdgeAt(edges, p, |p| - 2);
    assert p[0..|p| - 1] == p[..|p| - 1];
  }

  lemma Joined(edges: Edges, p: seq<Id>, q: seq<Id>)
    requires IsPath(edges, p) && IsPath(edges, q) && p[|p| - 1] == q[0]
    ensures PathFrom(edges, p[0], q[|q| - 1], p + q[1..])
  {
    var r := p + q[1..];
    forall k | 0 <= k < |r| - 1 ensures Link(edges, r, k) {
      if k < |p| - 1 {
        EdgeAt(edges, p, k);
      } else {
        EdgeAt(edges, q, k - (|p| - 1));
      }
    }
  }

  lemma Extended(edges: Edges, p: seq<Id>, n: Id)
    requires IsPath(edges, p) && (p[|p| - 1], n) in edges
    ensures PathFrom(edges, p[0], n, p + [n])
  {
    forall k | 0 <= k < |p| ensures Link(edges, p + [n], k) {
      if k < |p| - 1 {
        EdgeAt(edges, p, k);
      }
    }
  }

  // ---- Reachability

  lemma ReachRefl(edges: Edges, a: Id)
    ensures Reach(edges, a, a)
  {
    assert PathFrom(edges, a, a, [a]);
  }

  lemma ReachEdge(edges: Edges, a: Id, b: Id)
    requires (a, b) in edges
    ensures Reach(edges, a, b)
  {
    assert IsPath(edges, [a]);
    Extended(edges, [a], b);
  }

  lemma ReachTrans(edges: Edges, a: Id, b: Id, c: Id)
    requires Reach(edges, a, b) && Reach(edges, b, c)
    ensures Reach(edges, a, c)
  {
    var p :| PathFrom(edges, a, b, p);
    var q :| PathFrom(edges, b, c, q);
    Joined(edges, p, q);
  }

  /** The first edge of a path: the law behind the reachable sets built in post-order. */
  lemma ReachFirst(edges: Edges, a: Id, b: Id)
    ensures Reach(edges, a, b) <==> a == b || exists t :: (a, t) in edges && Reach(edges, t, b)
  {
    ReachRefl(edges, a);
    if Reach(edges, a, b) && a != b {
      var p :| PathFrom(edges, a, b, p);
      Segment(edges, p, 1, |p| - 1);
      EdgeAt(edges, p, 0);
    }
    forall t | (a, t) in edges && Reach(edges, t, b) ensures Reach(edges, a, b) {
      ReachEdge(edges, a, t);
      ReachTrans(edges, a, t, b);
    }
  }

  /** The last edge of a path. */
  lemma ReachLast(edges: Edges, a: Id, b: Id)
    ensures Reach(edges, a, b) <==> a == b || exists t :: Reach(edges, a, t) && (t, b) in edges
  {
    ReachRefl(edges, a);
    if Reach(edges, a, b) && a != b {
      var p :| PathFrom(edges, a, b, p);
      Front(edges, p);
    }
    forall t | Reach(edges, a, t) && (t, b) in edges ensures Reach(edges, a, b) {
      ReachEdge(edges, t, b);
      ReachTrans(edges, a, t, b);
    }
  }

  lemma PathReaches(edges: Edges, p: seq<Id>, i: int, j: int)
    requires IsPath(edges, p) && 0 <= i <= j < |p|
    ensures Reach(edges, p[i], p[j])
  {
    Segment(edges, p, i, j);
  }

  /** Dropping edges never adds reachability. */
  lemma ReachMonotone(small: Edges, large: Edges, a: Id, b: Id)
    requires small <= large && Reach(small, a, b)
    ensures Reach(large, a, b)
  {
    var p :| PathFrom(small, a, b, p);
    forall k | 0 <= k < |p| - 1 ensures Link(large, p, k) {
      EdgeAt(small, p, k);
    }
    assert PathFrom(large, a, b, p);
  }

  /** A set that contains `a` and is closed under edges contains everything `a` reaches. */
  lemma {:induction false} ClosedContains(edges: Edges, s: set<Id>, p: seq<Id>)
    requires IsPath(edges, p) && p[0] in s
    requires forall a, b :: (a, b) in edges && a in s ==> b in s
    ensures p[|p| - 1] in s
    decreases |p|
  {
    if |p| > 1 {
      Front(edges, p);
      ClosedContains(edges, s, p[..|p| - 1]);
    }
  }

  lemma ReachStays(edges: Edges, s: set<Id>, a: Id, b: Id)
    requires a in s && Reach(edges, a, b)
    requires forall x, y :: (x, y) in edges && x in s ==> y in s
    ensures b in s
  {
    var p :| PathFrom(edges, a, b, p);
    ClosedContains(edges, s, p);
  }

  // ---- Dominance

  lemma DominatesStart(edges: Edges, start: Id, d: Id)
    ensures Dominates(edges, start, d, start) <==> d == start
  {
    assert PathFrom(edges, start, start, [start]);
  }

  /** The law behind the one-pass dominator sets: it holds on every graph. */
  lemma DominatesStep(edges: Edges, start: Id, d: Id, n: Id)
    requires n != start
    ensures Dominates(edges, start, d, n) <==>
            d == n || forall p :: (p, n) in edges ==> Dominates(edges, start, d, p)
  {
    if Dominates(edges, start, d, n) && d != n {
      forall p, q | (p, n) in edges && PathFrom(edges, start, p, q) ensures d in q {
        Extended(edges, q, n);
        assert d in q + [n];
      }
    }
    if forall p :: (p, n) in edges ==> Dominates(edges, start, d, p) {
      forall q | PathFrom(edges, start, n, q) ensures d in q {
        var front := q[..|q| - 1];
        Front(edges, q);
        assert d in front;
      }
    }
  }

  // ---- Acyclicity

  /** A numbering that grows along every edge leaves no room for a cycle. */
  lemma {:induction false} RankGrows(edges: Edges, rank: map<Id, int>, p: seq<Id>)
    requires IsPath(edges, p)
    requires forall a, b :: (a, b) in edges ==> a in rank && b in rank && rank[a] < rank[b]
    ensures |p| > 1 ==> p[0] in rank && p[|p| - 1] in rank && rank[p[0]] < rank[p[|p| - 1]]
    decreases |p|
  {
    if |p| > 1 {
      Front(edges, p);
      RankGrows(edges, rank, p[..|p| - 1]);
    }
  }

  lemma RankedIsAcyclic(edges: Edges, rank: map<Id, int>)
    requires forall a, b :: (a, b) in edges ==> a in rank && b in rank && rank[a] < rank[b]
    ensures Acyclic(edges)
  {
    forall a, b | OnCycle(edges, a, b) ensures false {
      var p :| PathFrom(edges, b, a, p);
      RankGrows(edges, rank, p);
    }
  }

  /** In an acyclic graph a path never visits a node twice. */
  lemma AcyclicPathDistinct(edges: Edges, p: seq<Id>)
    requires Acyclic(edges) && IsPath(edges, p)
    ensures Distinct(p)
  {
    forall i, j | 0 <= i < j < |p| ensures Differ(p, i, j) {
      PathReaches(edges, p, i + 1, j);
      EdgeAt(edges, p, i);
      assert !OnCycle(edges, p[i], p[i + 1]);
    }
  }

  /** Everything reachable from `n`: the measure that shrinks along each edge. */
  ghost function ReachSet(edges: Edges, nodes: set<Id>, n: Id): set<Id> {
    set x | x in nodes && Reach(edges, n, x)
  }

  lemma ReachSetShrinks(edges: Edges, nodes: set<Id>, n: Id, t: Id)
    requires Acyclic(edges) && (n, t) in edges && n in nodes
    ensures ReachSet(edges, nodes, t) < ReachSet(edges, nodes, n)
  {
    forall x | x in ReachSet(edges, nodes, t) ensures x in ReachSet(edges, nodes, n) {
      ReachEdge(edges, n, t);
      ReachTrans(edges, n, t, x);
    }
    ReachRefl(edges, n);
    assert !OnCycle(edges, n, t);
    assert n in ReachSet(edges, nodes, n) && n !in ReachSet(edges, nodes, t);
  }

  // ---- Roots

  /** `n` has a predecessor inside `s`. */
  ghost predicate Fed(edges: Edges, s: set<Id>, n: Id) {
    exists q :: q in s && (q, n) in edges
  }

  /** A cycle leads to `n`. */
  ghost predicate Stuck(edges: Edges, n: Id) {
    exists a, b :: OnCycle(edges, a, b) && Reach(edges, b, n)
  }

  /** Walking backwards inside a finite set in which every node is fed comes back to a node seen before. */
  lemma {:induction false} WalkBack(edges: Edges, s: set<Id>, seen: set<Id>, at: Id, n: Id)
    requires at in s && at in seen && seen <= s && Reach(edges, at, n)
    requires forall x :: x in s ==> Fed(edges, s, x)
    requires forall x :: x in seen ==> Reach(edges, at, x)
    ensures Stuck(edges, n)
    decreases s - seen
  {
    assert Fed(edges, s, at);
    var q :| q in s && (q, at) in edges;
    if q in seen {
      assert OnCycle(edges, q, at);
    } else {
      ReachRefl(edges, q);
      ReachEdge(edges, q, at);
      forall x | x in seen + {q} ensures Reach(edges, q, x) {
        if x in seen {
          ReachTrans(edges, q, at, x);
        }
      }
      ReachTrans(edges, q, at, n);
      WalkBack(edges, s, seen + {q}, q, n);
    }
  }

  lemma AllFedIsStuck(edges: Edges, s: set<Id>, n: Id)
    requires n in s && forall x :: x in s ==> Fed(edges, s, x)
    ensures Stuck(edges, n)
  {
    ReachRefl(edges, n);
    WalkBack(edges, s, {n}, n, n);
  }

  lemma StuckIsCyclic(edges: Edges, n: Id)
    requires Stuck(edges, n)
    ensures !Acyclic(edges)
  {
    var a, b :| OnCycle(edges, a, b) && Reach(edges, b, n);
  }

  /** In an acyclic graph every node of a finite set has a root of that set behind it. */
  lemma RootBehind(edges: Edges, s: set<Id>, n: Id) returns (root: Id)
    requires Acyclic(edges) && n in s
    ensures root in s && !Fed(edges, s, root) && Reach(edges, root, n)
  {
    ReachRefl(edges, n);
    var behind := set x | x in s && Reach(edges, x, n);
    if forall x :: x in behind ==> Fed(edges, s, x) {
      forall x | x in behind ensures Fed(edges, behind, x) {
        var q :| q in s && (q, x) in edges;
        ReachEdge(edges, q, x);
        ReachTrans(edges, q, x, n);
        assert q in behind;
      }
      AllFedIsStuck(edges, behind, n);
      StuckIsCyclic(edges, n);
      root := n;
    } else {
      root :| root in behind && !Fed(edges, s, root);
    }
  }
}
