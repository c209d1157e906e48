/** `_strongly_connected` of `scripts/check_sdk_layers.py`: Tarjan's algorithm, with the two mutable maps, the
    stack and its membership set kept as fields of one object, and the nested `visit` as a method. */
module StronglyConnected {
  import opened Graphs
  import opened Sorting

  predicate CharLess(a: char, b: char) { a < b }

  predicate NameLess(a: string, b: string) { Lexicographic(CharLess, a, b) }

  predicate GroupLess(a: seq<string>, b: seq<string>) { Lexicographic(NameLess, a, b) }

  lemma NameLessIsOrder()
    ensures StrictTotalOrder(NameLess)
  {
    LexicographicIsStrictTotalOrder(CharLess);
    var lex := (a: string, b: string) => Lexicographic(CharLess, a, b);
    assert StrictTotalOrder(lex);
    assert forall a, b :: NameLess(a, b) == lex(a, b);
  }

  lemma GroupLessIsOrder()
    ensures StrictTotalOrder(GroupLess)
  {
    NameLessIsOrder();
    LexicographicIsStrictTotalOrder(NameLess);
    var lex := (a: seq<string>, b: seq<string>) => Lexicographic(NameLess, a, b);
    assert StrictTotalOrder(lex);
    assert forall a, b :: GroupLess(a, b) == lex(a, b);
  }

  // ------------------------------------------------------------------------------------------------------
  // What the report is
  // ------------------------------------------------------------------------------------------------------

  /** `group` lists, in order, a whole component of at least two names, one of them in `scope`. */
  ghost predicate IsGroup(g: Graph, scope: set<string>, group: seq<string>) {
    && StrictlyIncreasing(NameLess, group)
    && |group| >= 2
    && exists v :: v in scope && Elements(group) == Scc(g, v)
  }

  ghost predicate ListsComponent(groups: seq<seq<string>>, component: set<string>) {
    exists i :: 0 <= i < |groups| && Elements(groups[i]) == component
  }

  /** `groups` are the components of two or more names that meet `scope`, each listed once. */
  ghost predicate Lists(g: Graph, scope: set<string>, groups: seq<seq<string>>) {
    && (forall i :: 0 <= i < |groups| ==> IsGroup(g, scope, groups[i]))
    && (forall v :: v in scope && |Scc(g, v)| >= 2 ==> ListsComponent(groups, Scc(g, v)))
    && (forall i, j :: 0 <= i < j < |groups| ==> Elements(groups[i]) !! Elements(groups[j]))
  }

  /** The value `_strongly_connected` returns for `g`. */
  ghost predicate IsReport(g: Graph, groups: seq<seq<string>>) {
    Lists(g, Nodes(g), groups) && StrictlyIncreasing(GroupLess, groups)
  }

  /** The report depends on the graph alone, not on the order in which sets and dictionaries are iterated. */
  lemma ReportIsUnique(g: Graph, r: seq<seq<string>>, s: seq<seq<string>>)
    requires IsReport(g, r) && IsReport(g, s)
    ensures r == s
  {
    ReportCovers(g, r, s);
    ReportCovers(g, s, r);
    GroupLessIsOrder();
    IncreasingIsUnique(GroupLess, r, s);
  }

  lemma ReportCovers(g: Graph, r: seq<seq<string>>, s: seq<seq<string>>)
    requires IsReport(g, r) && IsReport(g, s)
    ensures Elements(r) <= Elements(s)
  {
    forall x | x in Elements(r) ensures x in Elements(s) {
      var i :| 0 <= i < |r| && r[i] == x;
      assert IsGroup(g, Nodes(g), r[i]);
      var v :| v in Nodes(g) && Elements(x) == Scc(g, v);
      ElementsCount(x);
      assert ListsComponent(s, Scc(g, v));
      var j :| 0 <= j < |s| && Elements(s[j]) == Scc(g, v);
      assert IsGroup(g, Nodes(g), s[j]);
      NameLessIsOrder();
      IncreasingIsUnique(NameLess, x, s[j]);
    }
  }

  lemma ElementsCount(s: seq<string>)
    requires StrictlyIncreasing(NameLess, s)
    ensures Distinct(s) && |Elements(s)| == |s|
  {
    NameLessIsOrder();
    IncreasingSize(NameLess, s);
  }

  // ------------------------------------------------------------------------------------------------------
  // The search state and its invariant
  // ------------------------------------------------------------------------------------------------------

  /** Everything the search keeps but the low-link map. */
  datatype Search = Search(
    index: map<string, nat>,
    stack: seq<string>,
    onStack: set<string>,
    groups: seq<seq<string>>)

  /** Names whose component has been popped. */
  ghost function Finished(s: Search): set<string> { s.index.Keys - s.onStack }

  ghost predicate WellFormed(g: Graph, s: Search, active: set<string>) {
    && s.index.Keys <= Nodes(g)
    && (forall v :: v in s.index ==> s.index[v] < |s.index|)
    && (forall v :: v in s.onStack <==> v in s.stack)
    && active <= s.onStack <= s.index.Keys
    && StackOrdered(s)
  }

  /** The stack holds visited names in the order they were visited. */
  ghost predicate StackOrdered(s: Search) {
    && (forall i :: 0 <= i < |s.stack| ==> s.stack[i] in s.index)
    && (forall i, j :: 0 <= i < j < |s.stack| ==> s.index[s.stack[i]] < s.index[s.stack[j]])
  }

  /** Only a name still being visited can have an unvisited successor. */
  ghost predicate Explored(g: Graph, s: Search, active: set<string>) {
    forall v, w :: v in s.index && v !in active && w in Succ(g, v) ==> w in s.index
  }

  /** No edge leads from a popped name back onto the stack or to an unvisited one. */
  ghost predicate Settled(g: Graph, s: Search) {
    forall v, w :: v in Finished(s) && w in Succ(g, v) ==> w in Finished(s)
  }

  /** `a` is an active name, at or below `x` on the stack, that `x` reaches. */
  ghost predicate Anchor(g: Graph, s: Search, active: set<string>, x: string, a: string) {
    a in active && a in s.index && x in s.index && s.index[a] <= s.index[x] && Reach(g, x, a)
  }

  ghost predicate HasAnchor(g: Graph, s: Search, active: set<string>, x: string) {
    exists a :: Anchor(g, s, active, x, a)
  }

  lemma TakeAnchor(g: Graph, s: Search, active: set<string>, x: string) returns (a: string)
    requires HasAnchor(g, s, active, x)
    ensures Anchor(g, s, active, x, a)
  {
    hide Reach;
    a :| Anchor(g, s, active, x, a);
  }

  lemma GiveAnchor(g: Graph, s: Search, active: set<string>, x: string, a: string)
    requires Anchor(g, s, active, x, a)
    ensures HasAnchor(g, s, active, x)
  {
    hide Reach;
  }

  ghost predicate Anchored(g: Graph, s: Search, active: set<string>) {
    forall x :: x in s.onStack ==> HasAnchor(g, s, active, x)
  }

  /** An active name reaches everything above it on the stack. */
  ghost predicate Dominates(g: Graph, s: Search, active: set<string>)
    requires active <= s.index.Keys && s.onStack <= s.index.Keys
  {
    forall a, x :: a in active && x in s.onStack && s.index[a] <= s.index[x] ==> Reach(g, a, x)
  }

  ghost predicate Inv(g: Graph, s: Search, active: set<string>) {
    && WellFormed(g, s, active)
    && Explored(g, s, active)
    && Settled(g, s)
    && Anchored(g, s, active)
    && Dominates(g, s, active)
    && Lists(g, Finished(s), s.groups)
  }

  /** `t` comes after `s`: nothing visited is forgotten, nothing on the stack is removed. */
  ghost predicate Extends(s: Search, t: Search) {
    && (forall v :: v in s.index ==> v in t.index && t.index[v] == s.index[v])
    && s.stack <= t.stack
  }

  /** Every edge from a name in `t` at stack position `from` or higher to a name in `below` leads to an index of
      at least `bound`. */
  ghost predicate Bounded(g: Graph, t: Search, from: nat, below: set<string>, bound: nat)
    requires below <= t.index.Keys
  {
    forall i, y :: from <= i < |t.stack| && y in Succ(g, t.stack[i]) && y in below ==> bound <= t.index[y]
  }

  /** `m` is the index of a name of `among` that `v` reaches. */
  ghost predicate LowWitness(g: Graph, t: Search, among: set<string>, v: string, m: nat) {
    exists y :: y in among && y in t.index && t.index[y] == m && Reach(g, v, y)
  }

  type Low = map<string, nat>

  /** Low-links are kept for exactly the visited names, and those of names visited before are not touched. */
  ghost predicate LowKept(s: Search, low: Low, t: Search, low': Low) {
    && low.Keys == s.index.Keys
    && low'.Keys == t.index.Keys
    && (forall u :: u in low ==> u in low' && low'[u] == low[u])
  }

  /** What a finished `visit(v)` started in `s` leaves behind in `t`, `m` being `v`'s low-link. */
  ghost predicate Visited(g: Graph, s: Search, t: Search, v: string, active: set<string>, m: nat) {
    && Inv(g, t, active)
    && Extends(s, t)
    && s.onStack <= t.index.Keys
    && v in t.index
    && t.index[v] == |s.index|
    && Bounded(g, t, |s.stack|, s.onStack, m)
    && ((t.stack == s.stack && m == t.index[v]) || LowWitness(g, t, s.onStack, v, m))
  }

  /** The state inside `visit(v)`'s loop, after the successors in `done`; `s` is the state the visit started in
      and `m` the low-link of `v` so far. */
  ghost predicate Scanning(g: Graph, s: Search, t: Search, v: string, active: set<string>, done: set<string>, m: nat) {
    && Inv(g, t, active + {v})
    && Extends(s, t)
    && s.onStack <= t.index.Keys
    && v in t.index
    && s.stack + [v] <= t.stack
    && t.index[v] == |s.index|
    && done <= t.index.Keys
    && Bounded(g, t, |s.stack| + 1, s.onStack, m)
    && (forall y :: y in done && y in s.onStack ==> m <= t.index[y])
    && m <= t.index[v]
    && LowWitness(g, t, s.onStack + {v}, v, m)
  }

  // ------------------------------------------------------------------------------------------------------
  // One lemma for each step of the search
  // ------------------------------------------------------------------------------------------------------

  function Pushed(s: Search, v: string): Search {
    s.(index := s.index[v := |s.index|], stack := s.stack + [v], onStack := s.onStack + {v})
  }

  lemma PushWellFormed(g: Graph, s: Search, v: string, active: set<string>)
    requires WellFormed(g, s, active) && v in Nodes(g) && v !in s.index
    ensures WellFormed(g, Pushed(s, v), active + {v})
    ensures Finished(Pushed(s, v)) == Finished(s)
  {
    hide Nodes;
    var t := Pushed(s, v);
    assert |t.index| == |s.index| + 1;
  }

  lemma PushAnchored(g: Graph, s: Search, v: string, active: set<string>)
    requires WellFormed(g, s, active) && v !in s.index
    requires Anchored(g, s, active)
    ensures Anchored(g, Pushed(s, v), active + {v})
  {
    hide Reach, Nodes, HasAnchor;
    var t := Pushed(s, v);
    forall x | x in t.onStack ensures HasAnchor(g, t, active + {v}, x) {
      if x == v {
        ReachSelf(g, v);
        GiveAnchor(g, t, active + {v}, x, v);
      } else {
        var a := TakeAnchor(g, s, active, x);
        GiveAnchor(g, t, active + {v}, x, a);
      }
    }
  }

  lemma PushDominates(g: Graph, s: Search, v: string, active: set<string>)
    requires WellFormed(g, s, active) && v !in s.index
    requires WellFormed(g, Pushed(s, v), active + {v})
    requires Dominates(g, s, active)
    requires forall a :: a in active ==> Reach(g, a, v)
    ensures Dominates(g, Pushed(s, v), active + {v})
  {
    hide Reach, Nodes;
    ReachSelf(g, v);
  }

  lemma PushKeepsInvariant(g: Graph, s: Search, v: string, active: set<string>)
    requires Inv(g, s, active)
    requires v in Nodes(g) && v !in s.index
    requires forall a :: a in active ==> Reach(g, a, v)
    ensures Scanning(g, s, Pushed(s, v), v, active, {}, |s.index|)
  {
    hide Reach, Lists, Nodes, HasAnchor;
    var t := Pushed(s, v);
    ReachSelf(g, v);
    assert Inv(g, t, active + {v}) by {
      PushWellFormed(g, s, v, active);
      PushAnchored(g, s, v, active);
      PushDominates(g, s, v, active);
      assert Explored(g, t, active + {v}) && Settled(g, t) by { hide Anchored, Dominates; }
    }
    assert t.index[v] == |s.index| && v in s.onStack + {v};
    assert LowWitness(g, t, s.onStack + {v}, v, |s.index|);
  }

  /** A stack name with an index no larger than `v`'s lies in the stack up to `v`. */
  lemma StackBelow(g: Graph, t: Search, active: set<string>, below: seq<string>, v: string, y: string)
    requires WellFormed(g, t, active)
    requires below + [v] <= t.stack && v in t.index
    requires y in t.onStack && t.index[y] <= t.index[v]
    ensures y in below || y == v
  {
    hide Nodes;
    var i :| 0 <= i < |t.stack| && t.stack[i] == y;
    assert t.stack[|below|] == v;
  }

  function Min(a: nat, b: nat): nat { if a < b then a else b }

  /** The successor was already on the stack. */
  lemma SeenSuccessor(g: Graph, s: Search, t: Search, v: string, active: set<string>, done: set<string>, m: nat,
                      y: string)
    requires WellFormed(g, s, active)
    requires Scanning(g, s, t, v, active, done, m)
    requires y in Succ(g, v) && y in t.index && y in t.onStack
    ensures Scanning(g, s, t, v, active, done + {y}, Min(m, t.index[y]))
  {
    hide Reach, Nodes, Lists, Explored, Settled, Anchored, Dominates;
    ReachEdge(g, v, y);
    if t.index[y] < m {
      StackBelow(g, t, active + {v}, s.stack, v, y);
      assert y in s.onStack + {v};
    }
  }

  /** The successor's component was popped long before: nothing changes. */
  lemma PoppedSuccessor(g: Graph, s: Search, t: Search, v: string, active: set<string>, done: set<string>, m: nat,
                        y: string)
    requires WellFormed(g, s, active)
    requires Scanning(g, s, t, v, active, done, m)
    requires y in t.index && y !in t.onStack
    ensures Scanning(g, s, t, v, active, done + {y}, m)
  {
    hide Reach, Nodes, Lists, Explored, Settled, Anchored, Dominates, Bounded, LowWitness;
    assert forall x :: x in s.stack ==> x in t.stack;
  }

  lemma ExtendsTransitive(s: Search, t: Search, u: Search)
    requires Extends(s, t) && Extends(t, u)
    ensures Extends(s, u)
  {
  }

  lemma NewSuccessorBounded(g: Graph, s: Search, t: Search, u: Search, y: string, m: nat, my: nat)
    requires Extends(t, u)
    requires s.onStack <= t.onStack && t.onStack <= t.index.Keys && s.onStack <= u.index.Keys
    requires t.onStack <= u.index.Keys
    requires Bounded(g, t, |s.stack| + 1, s.onStack, m)
    requires Bounded(g, u, |t.stack|, t.onStack, my)
    ensures Bounded(g, u, |s.stack| + 1, s.onStack, Min(m, my))
  {
    forall i, x | |s.stack| + 1 <= i < |u.stack| && x in Succ(g, u.stack[i]) && x in s.onStack
      ensures Min(m, my) <= u.index[x]
    {
      if i < |t.stack| { assert u.stack[i] == t.stack[i]; }
    }
  }

  /** The successor was visited by a recursive call, from `t` to `u`. */
  lemma NewSuccessor(g: Graph, s: Search, t: Search, u: Search, v: string, active: set<string>, done: set<string>,
                     m: nat, y: string, my: nat)
    requires WellFormed(g, s, active)
    requires Scanning(g, s, t, v, active, done, m)
    requires y in Succ(g, v) && y !in t.index
    requires Visited(g, t, u, y, active + {v}, my)
    ensures Scanning(g, s, u, v, active, done + {y}, Min(m, my))
  {
    hide Reach, Nodes, Lists, Explored, Settled, Anchored, Dominates, Bounded, LowWitness, StackOrdered;
    NewSuccessorLow(g, s, t, u, v, active, done, m, y, my);
    ExtendsTransitive(s, t, u);
    assert s.stack + [v] <= u.stack;
    assert s.onStack <= t.onStack by {
      assert forall x :: x in s.stack ==> x in t.stack;
    }
    NewSuccessorBounded(g, s, t, u, y, m, my);
    assert u.index[v] == t.index[v] == |s.index|;
    forall x | x in done + {y} && x in s.onStack ensures Min(m, my) <= u.index[x] {
      assert x in t.index && u.index[x] == t.index[x];
    }
  }

  lemma NewSuccessorLow(g: Graph, s: Search, t: Search, u: Search, v: string, active: set<string>, done: set<string>,
                        m: nat, y: string, my: nat)
    requires WellFormed(g, s, active)
    requires Scanning(g, s, t, v, active, done, m)
    requires y in Succ(g, v) && y !in t.index
    requires Visited(g, t, u, y, active + {v}, my)
    ensures LowWitness(g, u, s.onStack + {v}, v, Min(m, my))
  {
    hide Reach, Nodes, Lists, Explored, Settled, Anchored, Dominates, Bounded;
    if my < m {
      assert u.index[y] >= |t.index| > t.index[v];
      var x :| x in t.onStack && x in u.index && u.index[x] == my && Reach(g, y, x);
      ReachEdge(g, v, y);
      ReachTransitive(g, v, y, x);
      StackBelow(g, t, active + {v}, s.stack, v, x);
      assert x in s.onStack + {v};
    } else {
      var x :| x in s.onStack + {v} && x in t.index && t.index[x] == m && Reach(g, v, x);
      assert u.index[x] == m;
    }
  }

  lemma StaysAnchored(g: Graph, s: Search, t: Search, v: string, active: set<string>, m: nat)
    requires Inv(g, s, active)
    requires Scanning(g, s, t, v, active, Succ(g, v), m)
    requires m != t.index[v]
    ensures LowWitness(g, t, s.onStack, v, m)
    ensures Anchored(g, t, active)
  {
    hide Reach, Nodes, Lists, Explored, Settled, Dominates, Bounded, HasAnchor;
    var y :| y in s.onStack + {v} && y in t.index && t.index[y] == m && Reach(g, v, y);
    var b := TakeAnchor(g, s, active, y);
    ReachTransitive(g, v, y, b);
    forall x | x in t.onStack ensures HasAnchor(g, t, active, x) {
      var a := TakeAnchor(g, t, active + {v}, x);
      if a == v {
        ReachTransitive(g, x, v, b);
        GiveAnchor(g, t, active, x, b);
      } else {
        GiveAnchor(g, t, active, x, a);
      }
    }
  }

  /** `v` is not the root of its component: it stays on the stack, no longer active. */
  lemma StaysOnStack(g: Graph, s: Search, t: Search, v: string, active: set<string>, m: nat)
    requires Inv(g, s, active)
    requires Scanning(g, s, t, v, active, Succ(g, v), m)
    requires m != t.index[v]
    ensures Visited(g, s, t, v, active, m)
  {
    hide Reach, Nodes, Lists, LowWitness, HasAnchor;
    StaysAnchored(g, s, t, v, active, m);
    assert t.stack[|s.stack|] == v;
    assert Bounded(g, t, |s.stack|, s.onStack, m) by { hide Explored, Settled, Dominates, Anchored; }
    assert Explored(g, t, active) by { hide Settled, Dominates, Anchored, Bounded; }
    assert Dominates(g, t, active) by { hide Explored, Settled, Anchored, Bounded; }
    assert active <= active + {v};
  }

  /** The part of the stack from `v` up. */
  ghost function Top(s: Search, t: Search): set<string>
    requires |s.stack| <= |t.stack|
  {
    Elements(t.stack[|s.stack|..])
  }

  lemma BelowIsLower(g: Graph, s: Search, t: Search, v: string, active: set<string>)
    requires WellFormed(g, s, active)
    requires Extends(s, t) && v in t.index && t.index[v] == |s.index|
    ensures forall y :: y in s.onStack ==> y in t.index && t.index[y] < t.index[v]
  {
    hide Nodes;
  }

  lemma TopAbove(s: Search, t: Search, v: string, x: string)
    requires StackOrdered(t)
    requires s.stack + [v] <= t.stack && v in t.index
    requires x in Top(s, t)
    ensures x in t.index && x in t.stack && t.index[v] <= t.index[x]
  {
    var top := t.stack[|s.stack|..];
    var i :| 0 <= i < |top| && top[i] == x;
    assert t.stack[|s.stack| + i] == x && t.stack[|s.stack|] == v;
  }

  lemma TopMembers(g: Graph, s: Search, t: Search, v: string, active: set<string>)
    requires WellFormed(g, s, active)
    requires WellFormed(g, t, active + {v})
    requires Extends(s, t) && v in t.index && t.index[v] == |s.index|
    requires s.stack + [v] <= t.stack
    ensures v in Top(s, t)
    ensures forall x :: x in Top(s, t) ==> x in t.onStack && t.index[v] <= t.index[x]
    ensures t.onStack == s.onStack + Top(s, t) && s.onStack !! Top(s, t)
  {
    hide Nodes, StackOrdered, Extends;
    BelowIsLower(g, s, t, v, active);
    forall x | x in Top(s, t) ensures x in t.index && x in t.stack && t.index[v] <= t.index[x] {
      TopAbove(s, t, v, x);
    }
    StackSplit(s.stack, t.stack, v);
  }

  lemma StackSplit(below: seq<string>, stack: seq<string>, v: string)
    requires below + [v] <= stack
    ensures v in Elements(stack[|below|..])
    ensures forall x :: x in stack <==> x in below || x in Elements(stack[|below|..])
  {
    var top := stack[|below|..];
    assert stack == below + top && top[0] == v;
    assert forall x :: x in top <==> x in Elements(top);
  }

  /** With no low-link below `v`, no edge leaves the names above it except to finished ones. */
  lemma TopIsClosed(g: Graph, s: Search, t: Search, v: string, active: set<string>, m: nat, x: string, y: string)
    requires Inv(g, s, active)
    requires Scanning(g, s, t, v, active, Succ(g, v), m)
    requires m == t.index[v]
    requires x in Top(s, t) && y in Succ(g, x)
    ensures y in Top(s, t) + Finished(t)
  {
    hide Reach, Nodes, Lists, Settled, Anchored, Dominates, LowWitness;
    TopMembers(g, s, t, v, active);
    var i :| 0 <= i < |t.stack[|s.stack|..]| && t.stack[|s.stack|..][i] == x;
    assert t.stack[|s.stack| + i] == x && t.stack[|s.stack|] == v;
    BelowIsLower(g, s, t, v, active);
    assert y in t.index by {
      assert s.onStack !! Top(s, t);
    }
  }

  /** `v` is the root of its component, which is the part of the stack from `v` up. */
  lemma RootComponent(g: Graph, s: Search, t: Search, v: string, active: set<string>, m: nat)
    requires Inv(g, s, active)
    requires Scanning(g, s, t, v, active, Succ(g, v), m)
    requires m == t.index[v]
    ensures Top(s, t) == Scc(g, v)
    ensures forall x, y :: x in Scc(g, v) && y in Succ(g, x) ==> y in Scc(g, v) + Finished(t)
  {
    hide Reach, Nodes, Lists, Bounded, LowWitness, HasAnchor;
    TopMembers(g, s, t, v, active);
    var top := Top(s, t);
    forall x, y | x in top && y in Succ(g, x) ensures y in top + Finished(t) {
      TopIsClosed(g, s, t, v, active, m, x, y);
    }
    forall x | x in top ensures x in Scc(g, v) {
      var a := TakeAnchor(g, t, active + {v}, x);
      assert t.index[a] <= t.index[v] by { if a != v { assert a in s.onStack; } }
      assert Reach(g, a, v) && Reach(g, v, x);
      ReachTransitive(g, x, a, v);
      assert x in Nodes(g);
    }
    forall x | x in Scc(g, v) ensures x in top {
      ReachStaysIn(g, top + Finished(t), v, x);
      if x in Finished(t) { ReachStaysIn(g, Finished(t), x, v); }
    }
  }

  /** Adding a whole component to the finished names, and its group to the list if it has two names or more. */
  lemma ListsMore(g: Graph, scope: set<string>, groups: seq<seq<string>>, v: string, group: seq<string>)
    requires Lists(g, scope, groups)
    requires v in Nodes(g)
    requires StrictlyIncreasing(NameLess, group) && Elements(group) == Scc(g, v)
    requires Scc(g, v) !! scope
    requires forall u :: u in scope ==> Scc(g, u) <= scope
    ensures Lists(g, scope + Scc(g, v), if |group| > 1 then groups + [group] else groups)
  {
    hide Reach, Nodes, StrictlyIncreasing;
    var all := scope + Scc(g, v);
    var r := if |group| > 1 then groups + [group] else groups;
    SccHasSelf(g, v);
    ElementsCount(group);
    forall i | 0 <= i < |r| ensures IsGroup(g, all, r[i]) {
      if i < |groups| {
        assert IsGroup(g, scope, groups[i]);
        var u :| u in scope && Elements(groups[i]) == Scc(g, u);
        assert u in all;
      } else {
        assert v in all && Elements(r[i]) == Scc(g, v);
      }
    }
    forall u | u in all && |Scc(g, u)| >= 2 ensures ListsComponent(r, Scc(g, u)) {
      hide IsGroup;
      if u in scope {
        assert ListsComponent(groups, Scc(g, u));
        var i :| 0 <= i < |groups| && Elements(groups[i]) == Scc(g, u);
        assert r[i] == groups[i];
      } else {
        SccMembers(g, v, u);
        assert Elements(r[|groups|]) == Scc(g, u);
      }
    }
    forall i, j | 0 <= i < j < |r| ensures Elements(r[i]) !! Elements(r[j]) {
      if j == |groups| {
        assert IsGroup(g, scope, groups[i]);
        var u :| u in scope && Elements(groups[i]) == Scc(g, u);
      }
    }
  }

  lemma FinishedIsWhole(g: Graph, s: Search)
    requires Settled(g, s)
    ensures forall u :: u in Finished(s) ==> Scc(g, u) <= Finished(s)
  {
    hide Reach, Nodes;
    forall u, x | u in Finished(s) && x in Scc(g, u) ensures x in Finished(s) {
      ReachStaysIn(g, Finished(s), u, x);
    }
  }

  /** The state after popping the stack back to `rest` and listing `group`. */
  function Popped(t: Search, rest: seq<string>, component: set<string>, group: seq<string>): Search {
    t.(stack := rest, onStack := t.onStack - component,
       groups := if |group| > 1 then t.groups + [group] else t.groups)
  }

  lemma PopLists(g: Graph, t: Search, v: string, group: seq<string>)
    requires Settled(g, t) && Lists(g, Finished(t), t.groups)
    requires v in Nodes(g)
    requires StrictlyIncreasing(NameLess, group) && Elements(group) == Scc(g, v)
    requires Scc(g, v) <= t.onStack
    ensures Lists(g, Finished(t) + Scc(g, v), if |group| > 1 then t.groups + [group] else t.groups)
  {
    hide Reach, Nodes, Lists, Scc, StrictlyIncreasing;
    FinishedIsWhole(g, t);
    ListsMore(g, Finished(t), t.groups, v, group);
  }

  lemma PopAnchored(g: Graph, s: Search, u: Search, active: set<string>)
    requires WellFormed(g, s, active) && Anchored(g, s, active)
    requires Extends(s, u) && u.onStack == s.onStack
    ensures Anchored(g, u, active)
  {
    hide Reach, Nodes, HasAnchor;
    forall x | x in u.onStack ensures HasAnchor(g, u, active, x) {
      var a := TakeAnchor(g, s, active, x);
      GiveAnchor(g, u, active, x, a);
    }
  }

  lemma PopKeepsInvariant(g: Graph, s: Search, t: Search, v: string, active: set<string>, m: nat, group: seq<string>)
    requires Inv(g, s, active)
    requires Scanning(g, s, t, v, active, Succ(g, v), m)
    requires m == t.index[v]
    requires StrictlyIncreasing(NameLess, group) && Elements(group) == Top(s, t)
    ensures Visited(g, s, Popped(t, s.stack, Elements(group), group), v, active, m)
  {
    hide Reach, Nodes, Scc, Lists, LowWitness, HasAnchor, StrictlyIncreasing, Elements;
    TopMembers(g, s, t, v, active);
    RootComponent(g, s, t, v, active, m);
    var top := Elements(group);
    var u := Popped(t, s.stack, top, group);
    assert u.onStack == s.onStack;
    assert Finished(u) == Finished(t) + top;
    PopLists(g, t, v, group);
    PopAnchored(g, s, u, active);
    assert Settled(g, u) by { hide Explored, Anchored, Dominates, Bounded; }
    assert Dominates(g, u, active) by { hide Explored, Anchored, Settled, Bounded; }
    assert Explored(g, u, active) by { hide Dominates, Anchored, Settled, Bounded; }
    assert Bounded(g, u, |s.stack|, s.onStack, m) by { hide Dominates, Anchored, Settled, Explored; }
  }

  // ------------------------------------------------------------------------------------------------------
  // The algorithm
  // ------------------------------------------------------------------------------------------------------

  lemma LowPushed(s: Search, low: Low, v: string)
    requires low.Keys == s.index.Keys && v !in s.index
    ensures LowKept(s, low, Pushed(s, v), low[v := |s.index|])
  {
  }

  lemma LowSet(s: Search, low: Low, t: Search, low': Low, v: string, m: nat)
    requires LowKept(s, low, t, low')
    requires v !in low && v in low'
    ensures LowKept(s, low, t, low'[v := m])
  {
  }

  lemma LowStep(s: Search, low: Low, t: Search, low': Low, u: Search, low'': Low, v: string, m: nat)
    requires LowKept(s, low, t, low') && LowKept(t, low', u, low'')
    requires v !in low && v in low'
    ensures v in low'' && low''[v] == low'[v]
    ensures LowKept(s, low, u, low''[v := m])
  {
  }

  lemma LowKeys(s: Search, low: Low, t: Search, low': Low)
    requires LowKept(s, low, t, low')
    ensures low.Keys == s.index.Keys && low'.Keys == t.index.Keys
  {
  }

  lemma InvariantFacts(g: Graph, s: Search, active: set<string>)
    requires Inv(g, s, active)
    ensures WellFormed(g, s, active)
  {
    hide Nodes, Lists, Explored, Settled, Anchored, Dominates;
  }

  lemma ScanningFacts(g: Graph, s: Search, t: Search, v: string, active: set<string>, done: set<string>, m: nat)
    requires Scanning(g, s, t, v, active, done, m)
    ensures Inv(g, t, active + {v}) && v in t.index
    ensures s.index.Keys <= t.index.Keys
    ensures v in Nodes(g)
    ensures s.stack + [v] <= t.stack
  {
    hide Reach, Nodes, Lists, Explored, Settled, Anchored, Dominates, Bounded, LowWitness;
  }

  class Tarjan {
    const graph: Graph
    var index: map<string, nat>
    var low: map<string, nat>
    var stack: seq<string>
    var onStack: set<string>
    var groups: seq<seq<string>>

    constructor (graph: Graph)
      ensures this.graph == graph
      ensures View() == Search(map[], [], {}, []) && low == map[]
    {
      this.graph := graph;
      index, low, stack, onStack, groups := map[], map[], [], {}, [];
    }

    ghost function View(): Search
      reads this
    {
      Search(index, stack, onStack, groups)
    }

    /** Pops the stack down to and including `node`, which is at position `k`. */
    method PopGroup(node: string, ghost k: nat) returns (group: seq<string>)
      requires k < |stack| && stack[k] == node
      requires Distinct(stack)
      modifies this`stack, this`onStack
      ensures stack == old(stack)[..k]
      ensures Distinct(group) && Elements(group) == Elements(old(stack)[k..])
      ensures onStack == old(onStack) - Elements(group)
    {
      group := [];
      ghost var full := stack;
      ghost var n := |stack|;
      while true
        invariant k < n <= |full|
        invariant stack == full[..n]
        invariant Distinct(group) && Elements(group) == Elements(full[n..])
        invariant onStack == old(onStack) - Elements(group)
        decreases n
      {
        var member := stack[|stack| - 1];
        stack := stack[..|stack| - 1];
        onStack := onStack - {member};
        n := n - 1;
        MemberIsNew(full, n);
        ghost var was := Elements(group);
        group := group + [member];
        assert Elements(group) == was + {member};
        if member == node {
          assert n == k;
          break;
        }
      }
    }

    method Visit(node: string, ghost active: set<string>)
      requires low.Keys == index.Keys
      requires Inv(graph, View(), active)
      requires node in Nodes(graph) && node !in index
      requires forall a :: a in active ==> Reach(graph, a, node)
      modifies this
      ensures LowKept(old(View()), old(low), View(), low)
      ensures node in low && Visited(graph, old(View()), View(), node, active, low[node])
      decreases Nodes(graph) - index.Keys
    {
      hide Reach, Nodes, Inv, Extends, Visited, Scanning, WellFormed, LowKept, ClosedGroup, Distinct, Succ, Path, Lists;
      ghost var start, startLow := View(), low;
      PushKeepsInvariant(graph, start, node, active);
      InvariantFacts(graph, start, active);
      LowPushed(start, startLow, node);
      index, low := index[node := |index|], low[node := |index|];
      stack := stack + [node];
      onStack := onStack + {node};
      assert View() == Pushed(start, node);
      var todo := Succ(graph, node);
      ghost var done := {};
      while todo != {}
        invariant done + todo == Succ(graph, node)
        invariant LowKept(start, startLow, View(), low) && node in low
        invariant Scanning(graph, start, View(), node, active, done, low[node])
        decreases todo
      {
        var other :| other in todo;
        todo := todo - {other};
        ghost var before, beforeLow := View(), low;
        ScanningFacts(graph, start, before, node, active, done, low[node]);
        LowKeys(start, startLow, before, low);
        if other !in index {
          ReachableFromActive(graph, active, node, other);
          Visit(other, active + {node});
          ghost var after, afterLow := View(), low;
          LowStep(start, startLow, before, beforeLow, after, afterLow, node, Min(beforeLow[node], low[other]));
          NewSuccessor(graph, start, before, after, node, active, done, beforeLow[node], other, low[other]);
          low := low[node := if low[other] < low[node] then low[other] else low[node]];
          assert View() == after;
        } else if other in onStack {
          LowSet(start, startLow, before, beforeLow, node, Min(low[node], index[other]));
          SeenSuccessor(graph, start, before, node, active, done, low[node], other);
          low := low[node := if index[other] < low[node] then index[other] else low[node]];
          assert View() == before;
        } else {
          PoppedSuccessor(graph, start, before, node, active, done, low[node], other);
        }
        done := done + {other};
      }
      assert done == Succ(graph, node);
      ScanningFacts(graph, start, View(), node, active, done, low[node]);
      LowKeys(start, startLow, View(), low);
      if low[node] == index[node] {
        ghost var scanned := View();
        StackIsDistinct(graph, scanned, active + {node});
        CloseGroup(node, |start.stack|);
        ClosedGroupKeepsLow(start, startLow, scanned, View(), low);
        ghost var listed :| ClosedGroup(scanned, View(), |start.stack|, listed);
        CloseKeepsInvariant(graph, start, scanned, View(), node, active, low[node], listed);
      } else {
        StaysOnStack(graph, start, View(), node, active, low[node]);
      }
    }

    /** The end of `visit` for the root of a component: pops it and lists it if it has two names or more. */
    method CloseGroup(node: string, ghost k: nat)
      requires k < |stack| && stack[k] == node
      requires Distinct(stack)
      modifies this`stack, this`onStack, this`groups
      ensures exists listed :: ClosedGroup(old(View()), View(), k, listed)
    {
      var group := PopGroup(node, k);
      var listed := Sort(NameLess, group);
      if |group| > 1 {
        groups := groups + [listed];
      }
      NameLessIsOrder();
      SortIncreasing(NameLess, group);
      assert ClosedGroup(old(View()), View(), k, listed);
    }
  }

  /** `u` is `t` after popping from stack position `k`, with the popped names in order as `listed`. */
  ghost predicate ClosedGroup(t: Search, u: Search, k: nat, listed: seq<string>) {
    && k <= |t.stack|
    && StrictlyIncreasing(NameLess, listed)
    && Elements(listed) == Elements(t.stack[k..])
    && u == Popped(t, t.stack[..k], Elements(listed), listed)
  }

  lemma ClosedGroupKeepsLow(s: Search, low: Low, t: Search, u: Search, low': Low)
    requires LowKept(s, low, t, low')
    requires u.index == t.index
    ensures LowKept(s, low, u, low')
  {
  }

  lemma CloseKeepsInvariant(g: Graph, s: Search, t: Search, u: Search, v: string, active: set<string>, m: nat,
                            listed: seq<string>)
    requires Inv(g, s, active)
    requires Scanning(g, s, t, v, active, Succ(g, v), m)
    requires v in t.index && m == t.index[v]
    requires ClosedGroup(t, u, |s.stack|, listed)
    ensures Visited(g, s, u, v, active, m)
  {
    hide Reach, Nodes, Inv, WellFormed, Visited, StrictlyIncreasing, Elements, Bounded, LowWitness;
    PopKeepsInvariant(g, s, t, v, active, m, listed);
    assert t.stack[..|s.stack|] == s.stack;
  }

  lemma MemberIsNew(full: seq<string>, n: nat)
    requires Distinct(full) && n < |full|
    ensures full[n] !in Elements(full[n + 1..])
    ensures Elements(full[n..]) == {full[n]} + Elements(full[n + 1..])
  {
    assert full[n..] == [full[n]] + full[n + 1..];
  }

  lemma StackIsDistinct(g: Graph, s: Search, active: set<string>)
    requires Inv(g, s, active)
    ensures Distinct(s.stack)
  {
    hide Nodes, Lists, Explored, Settled, Anchored, Dominates;
  }

  lemma ReachableFromActive(g: Graph, active: set<string>, v: string, w: string)
    requires w in Succ(g, v)
    requires forall a :: a in active ==> Reach(g, a, v)
    ensures w in Nodes(g)
    ensures forall a :: a in active + {v} ==> Reach(g, a, w)
  {
    hide Reach;
    ReachEdge(g, v, w);
    forall a | a in active ensures Reach(g, a, w) { ReachTransitive(g, a, v, w); }
  }

  lemma EverythingFinished(g: Graph, s: Search)
    requires Inv(g, s, {})
    requires g.Keys <= s.index.Keys
    ensures Lists(g, Nodes(g), s.groups)
  {
    hide Reach, Lists, Dominates;
    assert s.onStack == {} by {
      assert forall x, a :: !Anchor(g, s, {}, x, a);
      assert forall x :: !HasAnchor(g, s, {}, x);
    }
    forall v | v in Nodes(g) ensures v in s.index {
      if v !in g {
        var u :| u in g && v in g[u];
        assert v in Succ(g, u);
      }
    }
    assert Finished(s) == Nodes(g);
  }

  lemma SortedReport(g: Graph, groups: seq<seq<string>>)
    requires Lists(g, Nodes(g), groups)
    ensures IsReport(g, Sort(GroupLess, groups))
  {
    hide Reach, Nodes, Scc, StrictlyIncreasing, Lexicographic;
    var r := Sort(GroupLess, groups);
    GroupsDiffer(g, groups);
    GroupLessIsOrder();
    SortIncreasing(GroupLess, groups);
    SortedGroupsDisjoint(groups);
    hide Elements, IsGroup;
    forall i | 0 <= i < |r| ensures IsGroup(g, Nodes(g), r[i]) {
      SortedHas(groups, r[i]);
    }
    forall v | v in Nodes(g) && |Scc(g, v)| >= 2 ensures ListsComponent(r, Scc(g, v)) {
      assert ListsComponent(groups, Scc(g, v));
      var i :| 0 <= i < |groups| && Elements(groups[i]) == Scc(g, v);
      SortedHas(groups, groups[i]);
    }
  }

  lemma GroupsDiffer(g: Graph, groups: seq<seq<string>>)
    requires Lists(g, Nodes(g), groups)
    ensures Distinct(groups)
  {
    hide Reach, Nodes, Scc, StrictlyIncreasing, ListsComponent;
    forall i, j | 0 <= i < j < |groups| ensures groups[i] != groups[j] {
      assert IsGroup(g, Nodes(g), groups[i]);
      assert groups[i][0] in Elements(groups[i]);
    }
  }

  lemma SortedHas(groups: seq<seq<string>>, x: seq<string>)
    ensures x in groups <==> x in Sort(GroupLess, groups)
  {
    assert x in Elements(groups) <==> x in Elements(Sort(GroupLess, groups));
  }

  lemma SortedGroupsDisjoint(groups: seq<seq<string>>)
    requires forall i, j :: 0 <= i < j < |groups| ==> Elements(groups[i]) !! Elements(groups[j])
    requires StrictlyIncreasing(GroupLess, Sort(GroupLess, groups))
    ensures forall i, j :: 0 <= i < j < |Sort(GroupLess, groups)| ==>
              Elements(Sort(GroupLess, groups)[i]) !! Elements(Sort(GroupLess, groups)[j])
  {
    var r := Sort(GroupLess, groups);
    forall i, j | 0 <= i < j < |r| ensures Elements(r[i]) !! Elements(r[j]) {
      SortedDiffer(r, i, j);
      hide Elements, Lexicographic, GroupLess, Sort, StrictlyIncreasing;
      SortedHas(groups, r[i]);
      SortedHas(groups, r[j]);
      var k :| 0 <= k < |groups| && groups[k] == r[i];
      var m :| 0 <= m < |groups| && groups[m] == r[j];
      assert k != m;
      assert if k < m then Elements(groups[k]) !! Elements(groups[m]) else Elements(groups[m]) !! Elements(groups[k]);
    }
  }

  lemma SortedDiffer(r: seq<seq<string>>, i: nat, j: nat)
    requires StrictlyIncreasing(GroupLess, r) && i < j < |r|
    ensures r[i] != r[j]
  {
    hide Lexicographic, GroupLess;
    GroupLessIsOrder();
  }

  lemma EmptyInvariant(g: Graph)
    ensures Inv(g, Search(map[], [], {}, []), {})
  {
    hide Reach, Nodes, Scc;
  }

  lemma KeysAreNodes(g: Graph, v: string)
    requires v in g
    ensures v in Nodes(g)
  {
  }

  /** `_strongly_connected`: the components of two or more names, each sorted, in sorted order. */
  method StronglyConnectedGroups(graph: Graph) returns (report: seq<seq<string>>)
    ensures IsReport(graph, report)
  {
    hide Reach, Nodes, Scc, Explored, Settled, Anchored, Dominates, Bounded, LowWitness;
    var search := new Tarjan(graph);
    var todo := graph.Keys;
    EmptyInvariant(graph);
    while todo != {}
      invariant Inv(graph, search.View(), {})
      invariant search.graph == graph && search.low.Keys == search.index.Keys
      invariant graph.Keys <= search.index.Keys + todo
      invariant todo <= graph.Keys
      decreases todo
    {
      var node :| node in todo;
      todo := todo - {node};
      if node !in search.index {
        KeysAreNodes(graph, node);
        search.Visit(node, {});
      }
    }
    EverythingFinished(graph, search.View());
    SortedReport(graph, search.groups);
    report := Sort(GroupLess, search.groups);
  }

  /** The order of the report's names, character by character: the first difference decides, and a prefix comes first. */
  ghost predicate ComesFirst(a: string, b: string) { exists k: nat :: DiffersAt(a, b, k) }

  predicate DiffersAt(a: string, b: string, k: nat) {
    k <= |a| && k < |b| && a[..k] == b[..k] && (k == |a| || a[k] < b[k])
  }

  lemma {:induction false} NameLessIs(a: string, b: string)
    ensures NameLess(a, b) <==> ComesFirst(a, b)
  {
    if b != [] && a != [] && a[0] == b[0] {
      NameLessIs(a[1..], b[1..]);
      if k: nat :| DiffersAt(a[1..], b[1..], k) {
        assert a[..k + 1] == [a[0]] + a[1..][..k] && b[..k + 1] == [b[0]] + b[1..][..k];
        assert DiffersAt(a, b, k + 1);
      }
      if k: nat :| DiffersAt(a, b, k) {
        assert k > 0;
        assert a[1..][..k - 1] == a[..k][1..] && b[1..][..k - 1] == b[..k][1..];
        assert DiffersAt(a[1..], b[1..], k - 1);
      }
    } else if b != [] {
      if a == [] || a[0] < b[0] { assert DiffersAt(a, b, 0); }
      if a != [] && ComesFirst(a, b) {
        var k: nat :| DiffersAt(a, b, k);
        FirstAgrees(a, b, k);
      }
    }
  }

  lemma FirstAgrees(a: string, b: string, k: nat)
    requires DiffersAt(a, b, k) && a != [] && b != []
    ensures k == 0 || a[0] == b[0]
  {
    if k > 0 { assert a[..k][0] == b[..k][0]; }
  }

  /** The names in a group, and the groups by their first names, are in that order. */
  lemma ReportIsSorted(g: Graph, groups: seq<seq<string>>)
    requires IsReport(g, groups)
    ensures forall i, j, k :: 0 <= i < |groups| && 0 <= j < k < |groups[i]| ==> ComesFirst(groups[i][j], groups[i][k])
    ensures forall i :: 0 <= i < |groups| ==> |groups[i]| >= 2
    ensures forall i, j :: 0 <= i < j < |groups| ==> ComesFirst(groups[i][0], groups[j][0])
  {
    forall i, j, k | 0 <= i < |groups| && 0 <= j < k < |groups[i]| ensures ComesFirst(groups[i][j], groups[i][k]) {
      assert IsGroup(g, Nodes(g), groups[i]);
      NameLessIs(groups[i][j], groups[i][k]);
    }
    forall i | 0 <= i < |groups| ensures |groups[i]| >= 2 { assert IsGroup(g, Nodes(g), groups[i]); }
    forall i, j | 0 <= i < j < |groups| ensures ComesFirst(groups[i][0], groups[j][0]) {
      assert groups[i][0] in Elements(groups[i]) && groups[j][0] in Elements(groups[j]);
      NameLessIs(groups[i][0], groups[j][0]);
    }
  }
}
