/** Directed graphs over names, reachability and strongly connected components. */
module Graphs {

  type Graph = map<string, set<string>>

  function Succ(g: Graph, v: string): set<string> {
    if v in g then g[v] else {}
  }

  /** Every name the graph mentions, as a key or as a successor. */
  ghost function Nodes(g: Graph): set<string> {
    g.Keys + set v, w | v in g && w in g[v] :: w
  }

  ghost predicate Path(g: Graph, p: seq<string>) {
    |p| > 0 && forall i :: 0 <= i < |p| - 1 ==> p[i + 1] in Succ(g, p[i])
  }

  ghost predicate PathBetween(g: Graph, p: seq<string>, a: string, b: string) {
    Path(g, p) && p[0] == a && p[|p| - 1] == b
  }

  ghost predicate Reach(g: Graph, a: string, b: string) {
    exists p :: PathBetween(g, p, a, b)
  }

  /** A walk along at least one edge that returns to where it started. */
  ghost predicate OnCycle(g: Graph, v: string) {
    exists w :: w in Succ(g, v) && Reach(g, w, v)
  }

  /** The strongly connected component of `v`. */
  ghost function Scc(g: Graph, v: string): set<string> {
    set u | u in Nodes(g) && Reach(g, v, u) && Reach(g, u, v)
  }

  lemma ReachSelf(g: Graph, v: string)
    ensures Reach(g, v, v)
  {
    assert PathBetween(g, [v], v, v);
  }

  lemma ReachEdge(g: Graph, v: string, w: string)
    requires w in Succ(g, v)
    ensures Reach(g, v, w)
  {
    assert PathBetween(g, [v, w], v, w);
  }

  lemma ReachTransitive(g: Graph, a: string, b: string, c: string)
    requires Reach(g, a, b) && Reach(g, b, c)
    ensures Reach(g, a, c)
  {
    var p :| PathBetween(g, p, a, b);
    var q :| PathBetween(g, q, b, c);
    var r := p + q[1..];
    forall i | 0 <= i < |r| - 1 ensures r[i + 1] in Succ(g, r[i]) {
      if i >= |p| - 1 { assert r[i + 1] == q[i + 2 - |p|] && r[i] == q[i + 1 - |p|]; }
    }
    assert r[|r| - 1] == c;
    assert PathBetween(g, r, a, c);
  }

  /** A set that no edge leaves holds everything reachable from its members. */
  lemma ReachStaysIn(g: Graph, s: set<string>, a: string, b: string)
    requires forall v :: v in s ==> Succ(g, v) <= s
    requires a in s && Reach(g, a, b)
    ensures b in s
  {
    var p :| PathBetween(g, p, a, b);
    var i := 0;
    while i < |p| - 1
      invariant 0 <= i < |p| && p[i] in s
    {
      assert p[i + 1] in Succ(g, p[i]);
      i := i + 1;
    }
  }

  lemma SccMembers(g: Graph, v: string, u: string)
    requires v in Nodes(g) && u in Scc(g, v)
    ensures Scc(g, u) == Scc(g, v)
  {
    forall x ensures x in Scc(g, u) <==> x in Scc(g, v) {
      if x in Scc(g, u) {
        ReachTransitive(g, v, u, x);
        ReachTransitive(g, x, u, v);
      }
      if x in Scc(g, v) {
        ReachTransitive(g, u, v, x);
        ReachTransitive(g, x, v, u);
      }
    }
  }

  lemma SccHasSelf(g: Graph, v: string)
    requires v in Nodes(g)
    ensures v in Scc(g, v)
  {
    ReachSelf(g, v);
  }
}
