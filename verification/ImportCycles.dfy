/** `find_import_cycles` of `scripts/check_sdk_layers.py`, over the import statements its scan yields: the graph and
    the site table it fills, the components it asks for, and one report for each. */
module ImportCycles {
  import opened Graphs
  import opened Sorting
  import opened StronglyConnected

  datatype Kind = ModuleLevel | FunctionLocal | TypeChecking

  /** One import statement of module `name`. */
  datatype Import = Import(name: string, lineno: nat, imported: string, kind: Kind)

  datatype Site = Site(lineno: nat, kind: Kind)

  datatype ImportEdge = ImportEdge(src: string, dst: string, site: Site)

  datatype Report = Report(group: seq<string>, edges: seq<ImportEdge>)

  /** Neither a type-only import nor a module's import of itself. */
  predicate Counts(i: Import) { i.kind != TypeChecking && i.imported != i.name }

  /** `i` counts toward a cycle, as an edge from `src` to `dst`. */
  predicate Links(i: Import, src: string, dst: string) {
    i.kind != TypeChecking && i.imported != i.name && i.name == src && i.imported == dst
  }

  ghost predicate Linked(imports: seq<Import>, src: string, dst: string) {
    exists k :: 0 <= k < |imports| && Links(imports[k], src, dst)
  }

  /** `graph` is the import graph over `known`: no edge for a type-only import or a module's import of itself. */
  ghost predicate IsImportGraph(known: set<string>, imports: seq<Import>, graph: Graph) {
    && graph.Keys == known
    && forall src, dst :: src in known ==> (dst in graph[src] <==> Linked(imports, src, dst))
  }

  ghost predicate SiteAt(imports: seq<Import>, src: string, dst: string, site: Site, k: nat) {
    && k < |imports|
    && Links(imports[k], src, dst)
    && site == Site(imports[k].lineno, imports[k].kind)
    && if site.kind == FunctionLocal
       then forall m :: k < m < |imports| && Links(imports[m], src, dst) ==> imports[m].kind != FunctionLocal
       else forall m :: 0 <= m < |imports| && Links(imports[m], src, dst) ==> k <= m && imports[m].kind != FunctionLocal
  }

  /** The import to report for an edge: the last function-local one when there is any, else the first. */
  ghost predicate IsSite(imports: seq<Import>, src: string, dst: string, site: Site) {
    exists k :: SiteAt(imports, src, dst, site, k)
  }

  ghost predicate IsSiteTable(imports: seq<Import>, site: map<(string, string), Site>) {
    && (forall src, dst :: (src, dst) in site <==> Linked(imports, src, dst))
    && (forall src, dst :: (src, dst) in site ==> IsSite(imports, src, dst, site[(src, dst)]))
  }

  lemma LinkedMore(imports: seq<Import>, n: nat, src: string, dst: string)
    requires n < |imports|
    ensures Linked(imports[..n + 1], src, dst) <==> Linked(imports[..n], src, dst) || Links(imports[n], src, dst)
  {
    if Linked(imports[..n], src, dst) {
      var k :| 0 <= k < n && Links(imports[..n][k], src, dst);
      assert Links(imports[..n + 1][k], src, dst);
    }
    if Links(imports[n], src, dst) { assert Links(imports[..n + 1][n], src, dst); }
  }

  lemma SiteKept(imports: seq<Import>, n: nat, src: string, dst: string, site: Site)
    requires n < |imports|
    requires IsSite(imports[..n], src, dst, site)
    requires Links(imports[n], src, dst) ==> imports[n].kind != FunctionLocal
    ensures IsSite(imports[..n + 1], src, dst, site)
  {
    var k :| SiteAt(imports[..n], src, dst, site, k);
    assert forall m :: 0 <= m < n ==> imports[..n + 1][m] == imports[..n][m];
    assert SiteAt(imports[..n + 1], src, dst, site, k);
  }

  lemma SiteSet(imports: seq<Import>, n: nat)
    requires n < |imports| && Links(imports[n], imports[n].name, imports[n].imported)
    requires !Linked(imports[..n], imports[n].name, imports[n].imported) || imports[n].kind == FunctionLocal
    ensures IsSite(imports[..n + 1], imports[n].name, imports[n].imported, Site(imports[n].lineno, imports[n].kind))
  {
    var i := imports[n];
    if !Linked(imports[..n], i.name, i.imported) {
      forall m | 0 <= m < n ensures !Links(imports[m], i.name, i.imported) {
        assert imports[..n][m] == imports[m];
      }
    }
    assert SiteAt(imports[..n + 1], i.name, i.imported, Site(i.lineno, i.kind), n);
  }

  lemma GraphStep(known: set<string>, imports: seq<Import>, n: nat, graph: Graph, graph': Graph)
    requires n < |imports| && imports[n].name in known && IsImportGraph(known, imports[..n], graph)
    requires graph' == if Counts(imports[n]) then graph[imports[n].name := graph[imports[n].name] + {imports[n].imported}]
                       else graph
    ensures IsImportGraph(known, imports[..n + 1], graph')
  {
    hide Linked;
    forall src, dst | src in known ensures dst in graph'[src] <==> Linked(imports[..n + 1], src, dst) {
      LinkedMore(imports, n, src, dst);
    }
  }

  lemma SiteStep(imports: seq<Import>, n: nat, site: map<(string, string), Site>, site': map<(string, string), Site>)
    requires n < |imports| && IsSiteTable(imports[..n], site)
    requires var i := imports[n];
             site' == if Counts(i) && ((i.name, i.imported) !in site || i.kind == FunctionLocal)
                      then site[(i.name, i.imported) := Site(i.lineno, i.kind)] else site
    ensures IsSiteTable(imports[..n + 1], site')
  {
    hide Linked, IsSite;
    var i := imports[n];
    forall src, dst ensures (src, dst) in site' <==> Linked(imports[..n + 1], src, dst) {
      LinkedMore(imports, n, src, dst);
    }
    forall src, dst | (src, dst) in site' ensures IsSite(imports[..n + 1], src, dst, site'[(src, dst)]) {
      if Links(i, src, dst) && ((src, dst) !in site || i.kind == FunctionLocal) {
        SiteSet(imports, n);
      } else {
        SiteKept(imports, n, src, dst, site[(src, dst)]);
      }
    }
  }

  /** The loop that fills `graph` and `site`. */
  method BuildGraph(known: set<string>, imports: seq<Import>)
    returns (graph: Graph, site: map<(string, string), Site>)
    requires forall i :: i in imports ==> i.name in known && i.imported in known
    ensures IsImportGraph(known, imports, graph)
    ensures IsSiteTable(imports, site)
    ensures Nodes(graph) == known
  {
    graph := map name | name in known :: {};
    site := map[];
    for n := 0 to |imports|
      invariant IsImportGraph(known, imports[..n], graph)
      invariant IsSiteTable(imports[..n], site)
    {
      hide Linked, IsSite, IsSiteTable;
      ghost var graph0, site0 := graph, site;
      var i := imports[n];
      if Counts(i) {
        graph := graph[i.name := graph[i.name] + {i.imported}];
        if (i.name, i.imported) !in site || i.kind == FunctionLocal {
          site := site[(i.name, i.imported) := Site(i.lineno, i.kind)];
        }
      }
      GraphStep(known, imports, n, graph0, graph);
      SiteStep(imports, n, site0, site);
    }
    assert imports[..|imports|] == imports;
    GraphStaysKnown(known, imports, graph);
  }

  lemma GraphStaysKnown(known: set<string>, imports: seq<Import>, graph: Graph)
    requires forall i :: i in imports ==> i.name in known && i.imported in known
    requires IsImportGraph(known, imports, graph)
    ensures Nodes(graph) == known
  {
    forall u, v | u in graph && v in graph[u] ensures v in known {
      assert Linked(imports, u, v);
    }
  }

  // ------------------------------------------------------------------------------------------------------
  // The report is empty exactly when there is no cycle
  // ------------------------------------------------------------------------------------------------------

  ghost predicate NoSelfEdge(g: Graph) {
    forall v :: v !in Succ(g, v)
  }

  lemma CycleMeansTwo(g: Graph, v: string)
    requires NoSelfEdge(g) && OnCycle(g, v)
    ensures v in Nodes(g) && |Scc(g, v)| >= 2
  {
    var w :| w in Succ(g, v) && Reach(g, w, v);
    hide Reach;
    ReachEdge(g, v, w);
    ReachSelf(g, v);
    assert {v, w} <= Scc(g, v);
    SubsetSize({v, w}, Scc(g, v));
  }

  lemma TwoMeansCycle(g: Graph, v: string)
    requires v in Nodes(g) && |Scc(g, v)| >= 2
    ensures OnCycle(g, v)
  {
    hide Reach, Nodes;
    if forall u :: u in Scc(g, v) ==> u == v { SubsetSize(Scc(g, v), {v}); }
    var u :| u in Scc(g, v) && u != v;
    var w := FirstStep(g, v, u);
    ReachTransitive(g, w, u, v);
  }

  lemma FirstStep(g: Graph, a: string, b: string) returns (w: string)
    requires Reach(g, a, b) && a != b
    ensures w in Succ(g, a) && Reach(g, w, b)
  {
    var p :| PathBetween(g, p, a, b);
    w := p[1];
    var q := p[1..];
    assert p == [a] + q;
    forall i | 0 <= i < |q| - 1 ensures q[i + 1] in Succ(g, q[i]) { assert p[i + 1] == q[i] && p[i + 2] == q[i + 1]; }
    assert PathBetween(g, q, w, b);
  }

  /** A name lies on a cycle exactly when some group lists it. */
  lemma CyclesAreListed(g: Graph, groups: seq<seq<string>>, v: string)
    requires NoSelfEdge(g) && IsReport(g, groups)
    ensures OnCycle(g, v) <==> exists i :: 0 <= i < |groups| && v in groups[i]
  {
    hide Reach, Nodes, StrictlyIncreasing;
    if OnCycle(g, v) {
      CycleMeansTwo(g, v);
      assert ListsComponent(groups, Scc(g, v));
      var i :| 0 <= i < |groups| && Elements(groups[i]) == Scc(g, v);
      SccHasSelf(g, v);
      assert v in Elements(groups[i]);
    }
    if i :| 0 <= i < |groups| && v in groups[i] {
      assert IsGroup(g, Nodes(g), groups[i]);
      var u :| u in Nodes(g) && Elements(groups[i]) == Scc(g, u);
      assert v in Scc(g, u);
      SccMembers(g, u, v);
      ElementsCount(groups[i]);
      TwoMeansCycle(g, v);
    }
  }

  /** No group at all means no cycle, and the other way round. */
  lemma NoGroupMeansNoCycle(g: Graph, groups: seq<seq<string>>)
    requires NoSelfEdge(g) && IsReport(g, groups)
    ensures groups == [] <==> forall v :: !OnCycle(g, v)
  {
    forall v ensures OnCycle(g, v) <==> exists i :: 0 <= i < |groups| && v in groups[i] {
      CyclesAreListed(g, groups, v);
    }
    if groups != [] {
      assert IsGroup(g, Nodes(g), groups[0]);
      assert OnCycle(g, groups[0][0]);
    }
  }

  /** `sorted(s)` */
  method SortedNames(s: set<string>) returns (r: seq<string>)
    ensures Elements(r) == s && StrictlyIncreasing(NameLess, r)
  {
    NameLessIsOrder();
    r := SortedSet(NameLess, s);
  }

  /** Where `v` stands in `group`. */
  function Place(group: seq<string>, v: string): (p: nat)
    ensures v in group ==> p < |group| && group[p] == v
  {
    if group == [] || group[0] == v then 0 else 1 + Place(group[1..], v)
  }

  lemma {:induction false} PlaceAt(group: seq<string>, n: nat)
    requires Distinct(group) && n < |group|
    ensures Place(group, group[n]) == n
  {
    if n > 0 {
      assert group[0] != group[n];
      PlaceAt(group[1..], n - 1);
    }
  }

  /** By the place of the importing module in the group, then by the name of the imported one. */
  ghost predicate Before(group: seq<string>, e: ImportEdge, f: ImportEdge) {
    Place(group, e.src) < Place(group, f.src) || (e.src == f.src && NameLess(e.dst, f.dst))
  }

  ghost predicate InReportOrder(group: seq<string>, edges: seq<ImportEdge>) {
    forall i, j :: 0 <= i < j < |edges| ==> Before(group, edges[i], edges[j])
  }

  /** `edges` are the edges of `g` inside `group`, each once, each with its site, in the order of the report. */
  ghost predicate ListsEdges(g: Graph, site: map<(string, string), Site>, group: seq<string>, edges: seq<ImportEdge>) {
    && (forall e :: e in edges ==> EdgeInside(g, site, group, e))
    && (forall src, dst :: src in group && dst in group && dst in Succ(g, src) && (src, dst) in site ==>
          ImportEdge(src, dst, site[(src, dst)]) in edges)
    && Distinct(edges) && InReportOrder(group, edges)
  }

  ghost predicate EdgeInside(g: Graph, site: map<(string, string), Site>, group: seq<string>, e: ImportEdge) {
    e.src in group && e.dst in group && e.dst in Succ(g, e.src) && (e.src, e.dst) in site
    && e.site == site[(e.src, e.dst)]
  }

  ghost predicate HasEdge(edges: seq<ImportEdge>, src: string, dst: string) {
    exists e :: e in edges && e.src == src && e.dst == dst
  }

  /** The next edge comes after all listed so far: they are of earlier modules, or go to earlier targets. */
  lemma NextEdge(group: seq<string>, edges: seq<ImportEdge>, n: nat, e: ImportEdge)
    requires Distinct(group) && n < |group| && e.src == group[n]
    requires InReportOrder(group, edges) && Distinct(edges)
    requires forall i :: 0 <= i < |edges| ==>
               edges[i].src in group[..n] || (edges[i].src == e.src && NameLess(edges[i].dst, e.dst))
    ensures InReportOrder(group, edges + [e]) && Distinct(edges + [e])
  {
    hide Place, NameLess;
    PlaceAt(group, n);
    NameLessIsOrder();
    forall i | 0 <= i < |edges| ensures Before(group, edges[i], e) && edges[i] != e {
      if edges[i].src in group[..n] {
        var p :| 0 <= p < n && group[p] == edges[i].src;
        PlaceAt(group, p);
      } else {
        assert edges[i] == e ==> NameLess(e.dst, e.dst);
      }
    }
  }

  method GroupEdges(g: Graph, site: map<(string, string), Site>, group: seq<string>) returns (edges: seq<ImportEdge>)
    requires forall src, dst :: dst in Succ(g, src) ==> (src, dst) in site
    requires Distinct(group)
    requires forall v :: v in group ==> v in g
    ensures ListsEdges(g, site, group, edges)
  {
    hide InReportOrder, NameLess;
    edges := [];
    NoEdgesInOrder(group);
    var members := set v | v in group;
    for n := 0 to |group|
      invariant forall e :: e in edges ==> EdgeInside(g, site, group, e) && e.src in group[..n]
      invariant forall src, dst :: src in group[..n] && dst in group && dst in Succ(g, src) && (src, dst) in site ==>
                  ImportEdge(src, dst, site[(src, dst)]) in edges
      invariant Distinct(edges) && InReportOrder(group, edges)
    {
      var src := group[n];
      var targets := SortedNames(g[src] * members);
      ghost var was := edges;
      for m := 0 to |targets|
        invariant forall e :: e in edges ==>
                    e in was || (EdgeInside(g, site, group, e) && e.src == src && e.dst in targets[..m])
        invariant forall e :: e in was ==> e in edges
        invariant forall dst :: dst in targets[..m] ==>
                    (src, dst) in site && ImportEdge(src, dst, site[(src, dst)]) in edges
        invariant Distinct(edges) && InReportOrder(group, edges)
      {
        assert targets[m] in Elements(targets);
        var edge := ImportEdge(src, targets[m], site[(src, targets[m])]);
        forall i | 0 <= i < |edges|
          ensures edges[i].src in group[..n] || (edges[i].src == src && NameLess(edges[i].dst, targets[m]))
        {
          assert edges[i] in edges;
        }
        NextEdge(group, edges, n, edge);
        edges := edges + [edge];
        assert targets[..m + 1] == targets[..m] + [targets[m]];
      }
      assert targets[..|targets|] == targets;
      assert group[..n + 1] == group[..n] + [src];
      forall dst | dst in group && dst in Succ(g, src) ensures dst in targets {
        assert dst in Elements(targets);
      }
    }
    assert group[..|group|] == group;
  }

  lemma NoEdgesInOrder(group: seq<string>)
    ensures InReportOrder(group, [])
  {
  }

  /** `find_import_cycles`, from the scanned imports on. */
  method FindImportCycles(known: set<string>, imports: seq<Import>) returns (reports: seq<Report>, ghost graph: Graph)
    requires forall i :: i in imports ==> i.name in known && i.imported in known
    ensures IsImportGraph(known, imports, graph)
    ensures reports == [] <==> forall v :: !OnCycle(graph, v)
    ensures forall v :: OnCycle(graph, v) <==> exists i :: 0 <= i < |reports| && v in reports[i].group
    ensures IsReport(graph, seq(|reports|, i requires 0 <= i < |reports| => reports[i].group))
    ensures forall i, e :: 0 <= i < |reports| && e in reports[i].edges ==> IsSite(imports, e.src, e.dst, e.site)
    ensures forall i, src, dst :: 0 <= i < |reports| && src in reports[i].group && dst in reports[i].group ==>
              (Linked(imports, src, dst) <==> HasEdge(reports[i].edges, src, dst))
    ensures forall i :: 0 <= i < |reports| ==> Distinct(reports[i].edges) && InReportOrder(reports[i].group, reports[i].edges)
  {
    hide InReportOrder, Reach, Nodes, Scc, OnCycle, Lexicographic;
    var g, site := BuildGraph(known, imports);
    graph := g;
    var groups := StronglyConnectedGroups(g);
    NoSelfImports(known, imports, g);
    forall v ensures OnCycle(g, v) <==> exists i :: 0 <= i < |groups| && v in groups[i] {
      CyclesAreListed(g, groups, v);
    }
    NoGroupMeansNoCycle(g, groups);
    reports := [];
    for n := 0 to |groups|
      invariant |reports| == n
      invariant forall i :: 0 <= i < n ==> reports[i].group == groups[i]
      invariant forall i :: 0 <= i < n ==> ListsEdges(g, site, reports[i].group, reports[i].edges)
    {
      GroupIsKnown(g, groups, n);
      var edges := GroupEdges(g, site, groups[n]);
      reports := reports + [Report(groups[n], edges)];
    }
    assert seq(|reports|, i requires 0 <= i < |reports| => reports[i].group) == groups;
    forall i, src, dst | 0 <= i < |reports| && src in reports[i].group && dst in reports[i].group
      ensures Linked(imports, src, dst) <==> HasEdge(reports[i].edges, src, dst)
    {
      GroupIsKnown(g, groups, i);
      assert ListsEdges(g, site, reports[i].group, reports[i].edges);
      if Linked(imports, src, dst) {
        assert ImportEdge(src, dst, site[(src, dst)]) in reports[i].edges;
      }
      if e :| e in reports[i].edges && e.src == src && e.dst == dst {
        assert EdgeInside(g, site, reports[i].group, e);
      }
    }
    forall i, e | 0 <= i < |reports| && e in reports[i].edges ensures IsSite(imports, e.src, e.dst, e.site) {
      assert ListsEdges(g, site, reports[i].group, reports[i].edges);
      assert EdgeInside(g, site, reports[i].group, e);
    }
  }

  lemma NoSelfImports(known: set<string>, imports: seq<Import>, g: Graph)
    requires IsImportGraph(known, imports, g)
    ensures NoSelfEdge(g)
    ensures forall src, dst :: dst in Succ(g, src) ==> Linked(imports, src, dst)
  {
    forall v ensures v !in Succ(g, v) {
      if v in g { assert !Linked(imports, v, v); }
    }
  }

  lemma GroupIsKnown(g: Graph, groups: seq<seq<string>>, i: nat)
    requires IsReport(g, groups) && i < |groups|
    requires Nodes(g) == g.Keys
    ensures Distinct(groups[i])
    ensures forall v :: v in groups[i] ==> v in g
  {
    hide Reach, Nodes;
    assert IsGroup(g, Nodes(g), groups[i]);
    ElementsCount(groups[i]);
    var u :| u in Nodes(g) && Elements(groups[i]) == Scc(g, u);
    assert forall v :: v in groups[i] ==> v in Elements(groups[i]);
  }
}
