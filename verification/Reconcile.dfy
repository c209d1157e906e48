/** `reconcile_children` and `next_cursor_key` (browser/view/reconcile.py): the keyed update of one level of a tree and
    of the levels below it that its specs describe. A tree node is a value with an identity. */
module Reconcile {
  import opened Basics
  import opened Sorting

  /** A domain key: anything with equality. */
  type Key = nat

  datatype Binding = Binding(key: Key, caption: string, payload: string)

  /** `children` counts only if `describes`; without it (`children=None`) the subtree is to be left alone. */
  datatype NodeSpec = NodeSpec(
    key: Key, caption: string, payload: string, allowExpand: bool, describes: bool, children: seq<NodeSpec>)

  /** A `TreeNode`; a foreign one has no binding. */
  datatype TreeNode = TreeNode(
    id: nat, data: Option<Binding>, caption: string, allowExpand: bool, children: seq<TreeNode>)

  datatype Diff = Diff(
    before: seq<Key>, after: seq<Key>, added: seq<Key>, removed: seq<Key>, relabelled: seq<Key>, rebuilt: bool)

  function BindingOf(spec: NodeSpec): Binding { Binding(spec.key, spec.caption, spec.payload) }

  predicate IsKey(n: TreeNode, k: Key) { n.data.Some? && n.data.value.key == k }

  predicate Has(children: seq<TreeNode>, k: Key) { exists i :: 0 <= i < |children| && IsKey(children[i], k) }

  /** The bound children's keys, in order. */
  function Keys(children: seq<TreeNode>): seq<Key> {
    if children == [] then []
    else (if children[0].data.Some? then [children[0].data.value.key] else []) + Keys(children[1..])
  }

  function SpecKeys(specs: seq<NodeSpec>): (r: seq<Key>)
    ensures |r| == |specs| && forall j :: 0 <= j < |specs| ==> r[j] == specs[j].key
  {
    seq(|specs|, j requires 0 <= j < |specs| => specs[j].key)
  }

  predicate NoForeign(children: seq<TreeNode>) { forall i :: 0 <= i < |children| ==> children[i].data.Some? }

  /** No two bound siblings share a key, on any level. */
  ghost predicate Keyed(children: seq<TreeNode>) {
    Distinct(Keys(children))
    && forall i :: 0 <= i < |children| ==> Keyed(children[i].children)
  }

  ghost predicate SpecsKeyed(specs: seq<NodeSpec>) {
    && Distinct(SpecKeys(specs))
    && forall j :: 0 <= j < |specs| && specs[j].describes ==> SpecsKeyed(specs[j].children)
  }

  // ------------------------------------------------------------------------------------------------------
  // What a level should be
  // ------------------------------------------------------------------------------------------------------

  /** `n` is what `spec` wants: its binding, and below it the level it describes, if any. */
  ghost predicate Agrees(n: TreeNode, spec: NodeSpec)
    decreases spec, 1
  {
    && n.data.Some? && n.data.value.key == spec.key && n.data.value.caption == spec.caption
    && n.data.value.payload == spec.payload && n.allowExpand == spec.allowExpand
    && (spec.describes ==> LevelAgrees(n.children, spec))
  }

  /** Each wanted child is there as wanted, and no other bound child. */
  ghost predicate LevelAgrees(children: seq<TreeNode>, owner: NodeSpec)
    decreases owner, 0
  {
    var specs := owner.children;
    && (forall j :: 0 <= j < |specs| ==> exists i :: 0 <= i < |children| && Agrees(children[i], specs[j]))
    && (forall i :: 0 <= i < |children| && children[i].data.Some? ==> children[i].data.value.key in SpecKeys(specs))
  }

  /** The keys that are also in the other list, in order. */
  function Common(keys: seq<Key>, others: seq<Key>): seq<Key> {
    if keys == [] then [] else (if keys[0] in others then [keys[0]] else []) + Common(keys[1..], others)
  }

  lemma Associates<T>(a: seq<T>, b: seq<T>, c: seq<T>)
    ensures a + (b + c) == a + b + c
  {
  }

  lemma {:induction false} CommonAppends(a: seq<Key>, b: seq<Key>, others: seq<Key>)
    ensures Common(a + b, others) == Common(a, others) + Common(b, others)
  {
    if a == [] {
      assert a + b == b;
    } else {
      var head := if a[0] in others then [a[0]] else [];
      assert (a + b)[1..] == a[1..] + b && (a + b)[0] == a[0];
      CommonAppends(a[1..], b, others);
      Associates(head, Common(a[1..], others), Common(b, others));
    }
  }

  lemma Cons(n: TreeNode, rest: seq<TreeNode>)
    ensures Keys([n] + rest) == if n.data.Some? then [n.data.value.key] + Keys(rest) else Keys(rest)
    ensures Foreign([n] + rest) == if n.data.Some? then Foreign(rest) else [n] + Foreign(rest)
  {
    assert ([n] + rest)[1..] == rest;
  }

  lemma {:induction false} KeysAppend(a: seq<TreeNode>, b: seq<TreeNode>)
    ensures Keys(a + b) == Keys(a) + Keys(b)
  {
    if a == [] {
      assert a + b == b;
    } else {
      var head := if a[0].data.Some? then [a[0].data.value.key] else [];
      assert (a + b)[1..] == a[1..] + b && (a + b)[0] == a[0];
      assert Keys(a + b) == head + Keys(a[1..] + b);
      KeysAppend(a[1..], b);
      Associates(head, Keys(a[1..]), Keys(b));
    }
  }

  lemma {:induction false} KeysAre(children: seq<TreeNode>)
    ensures forall k :: k in Keys(children) <==> Has(children, k)
    ensures NoForeign(children) ==> |Keys(children)| == |children|
                                    && forall i :: 0 <= i < |children| ==> Keys(children)[i] == children[i].data.value.key
  {
    if children != [] {
      KeysAre(children[1..]);
      forall k ensures Has(children, k) <==> IsKey(children[0], k) || Has(children[1..], k) {
        if IsKey(children[0], k) { assert Has(children, k); }
        if Has(children[1..], k) {
          var i :| 0 <= i < |children[1..]| && IsKey(children[1..][i], k);
          assert IsKey(children[i + 1], k);
        }
        if Has(children, k) && !IsKey(children[0], k) {
          var i :| 0 <= i < |children| && IsKey(children[i], k);
          assert IsKey(children[1..][i - 1], k);
        }
      }
    }
  }

  // ------------------------------------------------------------------------------------------------------
  // Operations on one level
  // ------------------------------------------------------------------------------------------------------

  /** The foreign children and those with a wanted key. */
  function Kept(children: seq<TreeNode>, wanted: seq<Key>): seq<TreeNode> {
    if children == [] then []
    else
      (if children[0].data.Some? && children[0].data.value.key !in wanted then [] else [children[0]])
      + Kept(children[1..], wanted)
  }

  function Foreign(children: seq<TreeNode>): seq<TreeNode> {
    if children == [] then [] else (if children[0].data.None? then [children[0]] else []) + Foreign(children[1..])
  }

  lemma {:induction false} ForeignAppends(a: seq<TreeNode>, b: seq<TreeNode>)
    ensures Foreign(a + b) == Foreign(a) + Foreign(b)
  {
    if a == [] {
      assert a + b == b;
    } else {
      var head := if a[0].data.None? then [a[0]] else [];
      assert (a + b)[1..] == a[1..] + b && (a + b)[0] == a[0];
      assert Foreign(a + b) == head + Foreign(a[1..] + b);
      ForeignAppends(a[1..], b);
      Associates(head, Foreign(a[1..]), Foreign(b));
    }
  }

  /** Where the child with key `k` stands; past the end if there is none. */
  function Find(children: seq<TreeNode>, k: Key): (p: nat)
    ensures p < |children| ==> IsKey(children[p], k)
    ensures p >= |children| ==> !Has(children, k)
  {
    if children == [] then 0
    else if IsKey(children[0], k) then 0
    else
      var p := Find(children[1..], k);
      assert Has(children, k) ==> Has(children[1..], k) by {
        if i :| 0 <= i < |children| && IsKey(children[i], k) { assert IsKey(children[1..][i - 1], k); }
      }
      p + 1
  }

  /** The keys that the other list lacks, in order. */
  function Lacking(keys: seq<Key>, others: seq<Key>): seq<Key> {
    if keys == [] then [] else (if keys[0] in others then [] else [keys[0]]) + Lacking(keys[1..], others)
  }

  lemma {:induction false} LackingAppends(a: seq<Key>, k: Key, others: seq<Key>)
    ensures Lacking(a + [k], others) == Lacking(a, others) + if k in others then [] else [k]
  {
    if a == [] {
      assert a + [k] == [k] && [k][1..] == [];
    } else {
      var head := if a[0] in others then [] else [a[0]];
      assert (a + [k])[1..] == a[1..] + [k] && (a + [k])[0] == a[0];
      LackingAppends(a[1..], k, others);
      Associates(head, Lacking(a[1..], others), if k in others then [] else [k]);
    }
  }

  // ------------------------------------------------------------------------------------------------------
  // The incremental path
  // ------------------------------------------------------------------------------------------------------

  /** Whether a level is rebuilt: none of its children is foreign, and more than half of them would go. */
  predicate Rebuilds(was: seq<TreeNode>, wanted: seq<Key>) {
    NoForeign(was) && |Lacking(Keys(was), wanted)| * 2 > |Keys(was)|
  }

  /** The children a level keeps its own from. */
  function Base(was: seq<TreeNode>, wanted: seq<Key>): seq<TreeNode> { if Rebuilds(was, wanted) then [] else was }

  /** Where the node for `spec` comes from: the child of its key survives, or it is new. */
  ghost predicate Comes(was: seq<TreeNode>, n: TreeNode, spec: NodeSpec, next: nat)
    decreases spec, 2
  {
    IsKey(n, spec.key)
    && if Has(was, spec.key) then exists o :: 0 <= o < |was| && IsKey(was[o], spec.key) && Survives(was[o], n, spec, next)
       else IsNew(n, spec, next)
  }

  /** A survivor keeps its identity. It shows the spec's label if its bound one differed, and what it showed otherwise;
      below it comes the level the spec describes, or nothing changes. */
  ghost predicate Survives(o: TreeNode, n: TreeNode, spec: NodeSpec, next: nat)
    decreases spec, 1
  {
    && n.id == o.id
    && n.caption == (if o.data.Some? && o.data.value.caption == spec.caption then o.caption else spec.caption)
    && if spec.describes then LevelComes(o.children, n.children, spec, next) else n.children == o.children
  }

  /** A new node shows the spec's label, and so do those below it. */
  ghost predicate IsNew(n: TreeNode, spec: NodeSpec, next: nat)
    decreases spec, 1
  {
    && n.id >= next && n.caption == spec.caption
    && if spec.describes then LevelComes([], n.children, spec, next) else n.children == []
  }

  /** Where the children of a level come from: the wanted ones survive or are new, all new if the level is rebuilt, and
      the foreign ones are left alone. */
  ghost predicate LevelComes(was: seq<TreeNode>, c: seq<TreeNode>, owner: NodeSpec, next: nat)
    decreases owner, 0
  {
    && Foreign(c) == Foreign(was)
    && forall j :: 0 <= j < |owner.children| ==>
         ChildComes(Base(was, SpecKeys(owner.children)), c, owner.children[j], next)
  }

  ghost predicate ChildComes(was: seq<TreeNode>, c: seq<TreeNode>, spec: NodeSpec, next: nat)
    decreases spec, 3
  {
    exists p :: 0 <= p < |c| && Comes(was, c[p], spec, next)
  }

  /** Identities new since later are new since earlier. */
  lemma {:induction false} LevelEarlier(was: seq<TreeNode>, c: seq<TreeNode>, owner: NodeSpec, next: nat, next': nat)
    requires LevelComes(was, c, owner, next') && next <= next'
    ensures LevelComes(was, c, owner, next)
    decreases owner, 0
  {
    hide Base;
    var from := Base(was, SpecKeys(owner.children));
    forall j | 0 <= j < |owner.children| ensures ChildComes(from, c, owner.children[j], next) {
      var spec := owner.children[j];
      assert ChildComes(from, c, spec, next');
      var p :| 0 <= p < |c| && Comes(from, c[p], spec, next');
      if Has(from, spec.key) {
        var o :| 0 <= o < |from| && IsKey(from[o], spec.key) && Survives(from[o], c[p], spec, next');
        if spec.describes { LevelEarlier(from[o].children, c[p].children, spec, next, next'); }
        assert Survives(from[o], c[p], spec, next);
      } else {
        assert IsNew(c[p], spec, next');
        NewEarlier(c[p], spec, next, next');
      }
      assert Comes(from, c[p], spec, next);
    }
  }

  lemma {:induction false} NewEarlier(n: TreeNode, spec: NodeSpec, next: nat, next': nat)
    requires IsNew(n, spec, next') && next <= next'
    ensures IsNew(n, spec, next)
    decreases spec, 1
  {
    if spec.describes { LevelEarlier([], n.children, spec, next, next'); }
  }

  ghost predicate Fulfilled(was: seq<TreeNode>, c: seq<TreeNode>, spec: NodeSpec, next: nat) {
    exists p :: 0 <= p < |c| && Agrees(c[p], spec) && Comes(was, c[p], spec, next)
  }

  /** The survivor for `spec` is as it was. */
  ghost predicate Waits(was: seq<TreeNode>, c: seq<TreeNode>, k: Key) {
    && (Has(c, k) <==> Has(was, k))
    && forall p :: 0 <= p < |c| && IsKey(c[p], k) ==> c[p] in was
  }

  ghost predicate OnlyWanted(c: seq<TreeNode>, wanted: seq<Key>) {
    forall p :: 0 <= p < |c| && c[p].data.Some? ==> c[p].data.value.key in wanted
  }

  /** After the first `i` specs: those are as wanted; the survivors to come are as they were; nothing else is there. */
  ghost predicate Progress(was: seq<TreeNode>, c: seq<TreeNode>, specs: seq<NodeSpec>, i: nat, next: nat) {
    && i <= |specs| && Keyed(c) && OnlyWanted(c, SpecKeys(specs))
    && (forall j :: 0 <= j < i ==> Fulfilled(was, c, specs[j], next))
    && (forall j :: i <= j < |specs| ==> Waits(was, c, specs[j].key))
  }

  /** The order so far, and room for the next insertion. */
  ghost predicate Ordered(was: seq<TreeNode>, c: seq<TreeNode>, specs: seq<NodeSpec>, i: nat) {
    var (before, wanted) := (Keys(was), SpecKeys(specs));
    && i <= |specs|
    && |Keys(c)| == i + |Common(wanted[i..], before)|
    && Common(Keys(c), before) == Common(before, wanted)
    && (Common(before, wanted) == Common(wanted, before) && NoForeign(was) ==>
          Keys(c) == wanted[..i] + Common(wanted[i..], before))
    && Foreign(c) == Foreign(was)
  }

  lemma {:induction false} KeysCount(c: seq<TreeNode>)
    ensures |Keys(c)| + |Foreign(c)| == |c|
    ensures Foreign(c) == [] <==> NoForeign(c)
  {
    if c != [] { KeysCount(c[1..]); }
  }

  lemma KeysOne(n: TreeNode)
    ensures Keys([n]) == if n.data.Some? then [n.data.value.key] else []
    ensures Foreign([n]) == if n.data.Some? then [] else [n]
  {
    assert [n][1..] == [];
  }

  lemma Replaced(c: seq<TreeNode>, p: nat, n: TreeNode)
    requires p < |c| && c[p].data.Some? && n.data.Some? && n.data.value.key == c[p].data.value.key
    ensures Keys(c[p := n]) == Keys(c) && Foreign(c[p := n]) == Foreign(c)
  {
    hide Keys, Foreign;
    assert c == c[..p] + [c[p]] + c[p + 1..];
    assert c[p := n] == c[..p] + [n] + c[p + 1..];
    Parts(c[..p], c[p], c[p + 1..]);
    Parts(c[..p], n, c[p + 1..]);
  }

  lemma Parts(a: seq<TreeNode>, n: TreeNode, b: seq<TreeNode>)
    ensures Keys(a + [n] + b) == Keys(a) + Keys([n]) + Keys(b)
    ensures Foreign(a + [n] + b) == Foreign(a) + Foreign([n]) + Foreign(b)
    ensures n.data.Some? ==> Keys([n]) == [n.data.value.key] && Foreign([n]) == []
  {
    hide Keys, Foreign;
    KeysOne(n);
    KeysAppend(a, [n]);
    KeysAppend(a + [n], b);
    ForeignAppends(a, [n]);
    ForeignAppends(a + [n], b);
  }

  function Inserted(c: seq<TreeNode>, at: nat, n: TreeNode): seq<TreeNode>
    requires at <= |c|
  {
    c[..at] + [n] + c[at..]
  }

  lemma InsertedKeys(c: seq<TreeNode>, at: nat, n: TreeNode)
    requires at <= |c| && n.data.Some?
    ensures Keys(Inserted(c, at, n)) == Keys(c[..at]) + [n.data.value.key] + Keys(c[at..])
    ensures Keys(c) == Keys(c[..at]) + Keys(c[at..])
    ensures Foreign(Inserted(c, at, n)) == Foreign(c)
  {
    hide Keys, Foreign;
    InsertedParts(c[..at], n, c[at..]);
    assert c == c[..at] + c[at..];
  }

  lemma InsertedParts(a: seq<TreeNode>, n: TreeNode, b: seq<TreeNode>)
    requires n.data.Some?
    ensures Keys(a + [n] + b) == Keys(a) + [n.data.value.key] + Keys(b)
    ensures Keys(a + b) == Keys(a) + Keys(b)
    ensures Foreign(a + [n] + b) == Foreign(a + b)
  {
    hide Keys, Foreign;
    Parts(a, n, b);
    KeysAppend(a, b);
    ForeignAppends(a, b);
    assert Foreign(a) + [] == Foreign(a);
  }

  /** A key is in one place. */
  lemma KeyedOnce(c: seq<TreeNode>, p: nat, q: nat, k: Key)
    requires Distinct(Keys(c)) && p < |c| && q < |c| && IsKey(c[p], k) && IsKey(c[q], k)
    ensures p == q
  {
    if p < q { TwiceNotDistinct(c, p, q, k); }
    if q < p { TwiceNotDistinct(c, q, p, k); }
  }

  lemma TwiceNotDistinct(c: seq<TreeNode>, p: nat, q: nat, k: Key)
    requires p < q < |c| && IsKey(c[p], k) && IsKey(c[q], k)
    ensures !Distinct(Keys(c))
  {
    hide Keys, Foreign;
    assert c == c[..q] + [c[q]] + c[q + 1..];
    Parts(c[..q], c[q], c[q + 1..]);
    KeysAre(c[..q]);
    assert IsKey(c[..q][p], k) && Has(c[..q], k);
    var i :| 0 <= i < |Keys(c[..q])| && Keys(c[..q])[i] == k;
    assert Keys(c)[i] == k && Keys(c)[|Keys(c[..q])|] == k;
  }

  /** What one changed or added child leaves of the others. */
  ghost predicate OthersStay(c: seq<TreeNode>, c': seq<TreeNode>, k: Key, n: TreeNode) {
    && IsKey(n, k) && n in c'
    && (forall p :: 0 <= p < |c| && !IsKey(c[p], k) ==> c[p] in c')
    && (forall p :: 0 <= p < |c'| ==> c'[p] == n || (c'[p] in c && !IsKey(c'[p], k)))
    && Keyed(c')
  }

  lemma ReplacedOthers(c: seq<TreeNode>, p: nat, n: TreeNode, k: Key)
    requires Keyed(c) && p < |c| && IsKey(c[p], k) && IsKey(n, k) && Keyed(n.children)
    ensures OthersStay(c, c[p := n], k, n)
  {
    hide Keys, Distinct;
    var c' := c[p := n];
    Replaced(c, p, n);
    assert c'[p] == n;
    forall q | 0 <= q < |c| && !IsKey(c[q], k) ensures c[q] in c' { assert c'[q] == c[q]; }
    forall q | 0 <= q < |c'| && q != p ensures c'[q] in c && !IsKey(c'[q], k) {
      if IsKey(c[q], k) { KeyedOnce(c, p, q, k); }
    }
  }

  lemma InsertedOthers(c: seq<TreeNode>, at: nat, n: TreeNode, k: Key)
    requires Keyed(c) && at <= |c| && !Has(c, k) && IsKey(n, k) && Keyed(n.children)
    ensures OthersStay(c, Inserted(c, at, n), k, n)
  {
    hide Keys, Distinct;
    var c' := Inserted(c, at, n);
    InsertedDistinct(c, at, n, k);
    assert c'[at] == n;
    forall q | 0 <= q < |c'| && q != at ensures c'[q] in c && !IsKey(c'[q], k) && Keyed(c'[q].children) {
      assert c'[q] == c[if q < at then q else q - 1];
    }
    forall q | 0 <= q < |c| ensures c[q] in c' { assert c'[if q < at then q else q + 1] == c[q]; }
  }

  lemma InsertedDistinct(c: seq<TreeNode>, at: nat, n: TreeNode, k: Key)
    requires Distinct(Keys(c)) && at <= |c| && !Has(c, k) && IsKey(n, k)
    ensures Distinct(Keys(Inserted(c, at, n)))
  {
    hide Keys, Inserted;
    InsertedKeys(c, at, n);
    KeysAre(c);
    DistinctInserted(Keys(c[..at]), k, Keys(c[at..]));
  }

  lemma DistinctInserted(a: seq<Key>, k: Key, b: seq<Key>)
    requires Distinct(a + b) && k !in a + b
    ensures Distinct(a + [k] + b)
  {
    var r := a + [k] + b;
    forall i, j | 0 <= i < j < |r| ensures r[i] != r[j] {
      var (x, y) := (if i <= |a| then i else i - 1, if j <= |a| then j else j - 1);
      assert i != |a| ==> r[i] == (a + b)[x];
      assert j != |a| ==> r[j] == (a + b)[y];
    }
  }

  lemma OthersFulfilled(was: seq<TreeNode>, c: seq<TreeNode>, c': seq<TreeNode>, k: Key, n: TreeNode, spec: NodeSpec,
                        next: nat)
    requires OthersStay(c, c', k, n) && Fulfilled(was, c, spec, next) && spec.key != k
    ensures Fulfilled(was, c', spec, next)
  {
    hide Comes, LevelAgrees, Keyed;
    var p :| 0 <= p < |c| && Agrees(c[p], spec) && Comes(was, c[p], spec, next);
    assert c[p] in c';
    var q :| 0 <= q < |c'| && c'[q] == c[p];
  }

  lemma OthersWait(was: seq<TreeNode>, c: seq<TreeNode>, c': seq<TreeNode>, k: Key, n: TreeNode, other: Key)
    requires OthersStay(c, c', k, n) && Waits(was, c, other) && other != k
    ensures Waits(was, c', other)
  {
    hide Keyed;
    if Has(c, other) {
      var p :| 0 <= p < |c| && IsKey(c[p], other);
      assert c[p] in c';
    }
  }

  /** One more spec is done. */
  lemma ProgressStep(was: seq<TreeNode>, c: seq<TreeNode>, c': seq<TreeNode>, specs: seq<NodeSpec>, i: nat, next: nat,
                     n: TreeNode)
    requires Progress(was, c, specs, i, next) && SpecsKeyed(specs) && i < |specs|
    requires OthersStay(c, c', specs[i].key, n) && Agrees(n, specs[i]) && Comes(was, n, specs[i], next)
    ensures Progress(was, c', specs, i + 1, next)
  {
    hide Keyed, Comes, LevelAgrees;
    var k := specs[i].key;
    assert Distinct(SpecKeys(specs));
    forall j | 0 <= j < i + 1 ensures Fulfilled(was, c', specs[j], next) {
      if j < i {
        assert SpecKeys(specs)[j] != SpecKeys(specs)[i];
        OthersFulfilled(was, c, c', k, n, specs[j], next);
      }
    }
    forall j | i + 1 <= j < |specs| ensures Waits(was, c', specs[j].key) {
      assert SpecKeys(specs)[i] != SpecKeys(specs)[j];
      OthersWait(was, c, c', k, n, specs[j].key);
    }
    assert SpecKeys(specs)[i] == k;
  }

  /** Updating a survivor keeps the order. */
  lemma SurvivorOrder(was: seq<TreeNode>, c: seq<TreeNode>, specs: seq<NodeSpec>, i: nat, p: nat, n: TreeNode)
    requires Ordered(was, c, specs, i) && i < |specs| && Has(was, specs[i].key)
    requires p < |c| && IsKey(c[p], specs[i].key) && IsKey(n, specs[i].key)
    ensures Ordered(was, c[p := n], specs, i + 1)
  {
    hide Keys, Foreign;
    KeysAre(was);
    Replaced(c, p, n);
    var (before, wanted) := (Keys(was), SpecKeys(specs));
    assert wanted[i..][0] == wanted[i] && wanted[i..][1..] == wanted[i + 1..];
  }

  lemma SplitsAlike(a: seq<Key>, b: seq<Key>, x: seq<Key>, y: seq<Key>)
    requires a + b == x + y && |a| == |x|
    ensures a == x && b == y
  {
    assert a == (a + b)[..|a|] && x == (x + y)[..|x|];
    assert b == (a + b)[|a|..] && y == (x + y)[|x|..];
  }

  /** A new child goes to the place its spec has, and there is such a place. */
  lemma InsertionOrder(was: seq<TreeNode>, c: seq<TreeNode>, specs: seq<NodeSpec>, i: nat, n: TreeNode)
    requires Ordered(was, c, specs, i) && i < |specs| && !Has(was, specs[i].key) && IsKey(n, specs[i].key)
    ensures i <= |c| && Ordered(was, Inserted(c, i, n), specs, i + 1)
  {
    hide Keys, Foreign, Inserted;
    var (before, wanted) := (Keys(was), SpecKeys(specs));
    KeysAre(was);
    KeysCount(c);
    KeysCount(was);
    InsertedKeys(c, i, n);
    assert wanted[i..][0] == wanted[i] && wanted[i..][1..] == wanted[i + 1..];
    CommonAppends(Keys(c[..i]) + [wanted[i]], Keys(c[i..]), before);
    CommonAppends(Keys(c[..i]), [wanted[i]], before);
    CommonAppends(Keys(c[..i]), Keys(c[i..]), before);
    assert Common([wanted[i]], before) == [] by { assert [wanted[i]][1..] == []; }
    if NoForeign(was) && Common(before, wanted) == Common(wanted, before) {
      KeysCount(c[..i]);
      assert NoForeign(c[..i]);
      SplitsAlike(Keys(c[..i]), Keys(c[i..]), wanted[..i], Common(wanted[i..], before));
      assert wanted[..i + 1] == wanted[..i] + [wanted[i]];
    }
  }

  // ------------------------------------------------------------------------------------------------------
  // Before the incremental path
  // ------------------------------------------------------------------------------------------------------

  lemma {:induction false} KeptKeys(c: seq<TreeNode>, wanted: seq<Key>)
    ensures Keys(Kept(c, wanted)) == Common(Keys(c), wanted) && Foreign(Kept(c, wanted)) == Foreign(c)
  {
    if c != [] {
      KeptKeys(c[1..], wanted);
      Cons(c[0], Kept(c[1..], wanted));
      Cons(c[0], c[1..]);
      assert c == [c[0]] + c[1..];
      if c[0].data.Some? { CommonCons(c[0].data.value.key, Keys(c[1..]), wanted); }
      if c[0].data.Some? && c[0].data.value.key !in wanted {
        assert Kept(c, wanted) == Kept(c[1..], wanted);
      } else {
        assert Kept(c, wanted) == [c[0]] + Kept(c[1..], wanted);
      }
    }
  }

  lemma CommonCons(k: Key, rest: seq<Key>, others: seq<Key>)
    ensures Common([k] + rest, others) == (if k in others then [k] else []) + Common(rest, others)
  {
    assert ([k] + rest)[1..] == rest;
  }

  lemma {:induction false} KeptAre(c: seq<TreeNode>, wanted: seq<Key>)
    ensures forall n :: n in Kept(c, wanted) <==> n in c && (n.data.Some? ==> n.data.value.key in wanted)
  {
    if c != [] { KeptAre(c[1..], wanted); }
  }

  lemma {:induction false} CommonAre(keys: seq<Key>, others: seq<Key>)
    ensures forall k :: k in Common(keys, others) <==> k in keys && k in others
    ensures Distinct(keys) ==> Distinct(Common(keys, others))
  {
    if keys != [] {
      CommonAre(keys[1..], others);
      assert keys == [keys[0]] + keys[1..];
      if Distinct(keys) {
        assert forall i :: 0 <= i < |keys[1..]| ==> keys[1..][i] == keys[i + 1];
        assert keys[0] !in keys[1..];
      }
    }
  }

  /** What two lists have in common is as long either way. */
  lemma CommonSize(a: seq<Key>, b: seq<Key>)
    requires Distinct(a) && Distinct(b)
    ensures |Common(a, b)| == |Common(b, a)|
  {
    CommonAre(a, b);
    CommonAre(b, a);
    DistinctCount(Common(a, b));
    DistinctCount(Common(b, a));
    assert Elements(Common(a, b)) == Elements(Common(b, a));
  }

  /** Once the unwanted children are gone the incremental path can start. */
  lemma KeptStarts(was: seq<TreeNode>, specs: seq<NodeSpec>, next: nat)
    requires Keyed(was) && SpecsKeyed(specs)
    ensures Progress(was, Kept(was, SpecKeys(specs)), specs, 0, next) && Ordered(was, Kept(was, SpecKeys(specs)), specs, 0)
  {
    hide Keys, Foreign, Kept, Distinct, Common;
    var (before, wanted) := (Keys(was), SpecKeys(specs));
    var c := Kept(was, wanted);
    KeptKeys(was, wanted);
    CommonAre(before, wanted);
    CommonSize(before, wanted);
    CommonOfCommon(before, wanted);
    assert wanted[0..] == wanted;
    KeptWaits(was, specs);
  }

  lemma KeptWaits(was: seq<TreeNode>, specs: seq<NodeSpec>)
    requires forall i :: 0 <= i < |was| ==> Keyed(was[i].children)
    ensures var c := Kept(was, SpecKeys(specs));
            && (forall i :: 0 <= i < |c| ==> Keyed(c[i].children)) && OnlyWanted(c, SpecKeys(specs))
            && (forall j :: 0 <= j < |specs| ==> Waits(was, c, specs[j].key))
  {
    hide Kept, Keyed;
    var (c, wanted) := (Kept(was, SpecKeys(specs)), SpecKeys(specs));
    KeptAre(was, wanted);
    assert forall i :: 0 <= i < |c| ==> c[i] in c;
    forall j | 0 <= j < |specs| ensures Waits(was, c, specs[j].key) {
      assert wanted[j] in wanted;
      if Has(was, specs[j].key) {
        var i :| 0 <= i < |was| && IsKey(was[i], specs[j].key);
        assert was[i] in c;
      }
    }
  }

  lemma {:induction false} CommonAll(keys: seq<Key>, others: seq<Key>)
    requires forall k :: k in keys ==> k in others
    ensures Common(keys, others) == keys
  {
    if keys != [] { CommonAll(keys[1..], others); }
  }

  lemma CommonOfCommon(a: seq<Key>, b: seq<Key>)
    ensures Common(Common(a, b), a) == Common(a, b)
  {
    CommonAre(a, b);
    CommonAll(Common(a, b), a);
  }

  /** At the end: the level is as wanted, every survivor is itself, and the children are in the specs' order exactly if
      the survivors were. */
  lemma ProgressEnds(was: seq<TreeNode>, c: seq<TreeNode>, owner: NodeSpec, next: nat)
    requires Progress(was, c, owner.children, |owner.children|, next) && Ordered(was, c, owner.children, |owner.children|)
    requires Keyed(was) && SpecsKeyed(owner.children)
    ensures LevelAgrees(c, owner) && Keyed(c) && Foreign(c) == Foreign(was)
    ensures NoForeign(was) ==>
              var wanted := SpecKeys(owner.children);
              Keys(c) == wanted <==> Common(Keys(was), wanted) == Common(wanted, Keys(was))
    ensures forall j :: 0 <= j < |owner.children| ==> Fulfilled(was, c, owner.children[j], next)
    ensures !Rebuilds(was, SpecKeys(owner.children)) ==> LevelComes(was, c, owner, next)
  {
    hide Keys, Foreign, Comes, Rebuilds;
    var (before, wanted, specs) := (Keys(was), SpecKeys(owner.children), owner.children);
    assert wanted[|specs|..] == [] && wanted[..|specs|] == wanted;
    forall j | 0 <= j < |specs|
      ensures exists i :: 0 <= i < |c| && Agrees(c[i], specs[j])
      ensures ChildComes(was, c, specs[j], next)
    {
      assert Fulfilled(was, c, specs[j], next);
    }
  }

  // ------------------------------------------------------------------------------------------------------
  // The rebuild
  // ------------------------------------------------------------------------------------------------------

  /** The first `i` wanted children, all new, in order. */
  ghost predicate RebuiltTo(c: seq<TreeNode>, specs: seq<NodeSpec>, i: nat, next: nat) {
    && |c| == i <= |specs|
    && forall j :: 0 <= j < i ==> Agrees(c[j], specs[j]) && IsNew(c[j], specs[j], next) && Keyed(c[j].children)
  }

  lemma RebuiltMore(c: seq<TreeNode>, specs: seq<NodeSpec>, i: nat, next: nat, n: TreeNode)
    requires RebuiltTo(c, specs, i, next) && i < |specs|
    requires Agrees(n, specs[i]) && IsNew(n, specs[i], next) && Keyed(n.children)
    ensures RebuiltTo(Inserted(c, i, n), specs, i + 1, next)
  {
    hide LevelAgrees, Keyed, IsNew;
    assert Inserted(c, i, n) == c + [n];
  }

  lemma RebuiltEnds(c: seq<TreeNode>, owner: NodeSpec, next: nat)
    requires RebuiltTo(c, owner.children, |owner.children|, next) && SpecsKeyed(owner.children)
    ensures LevelAgrees(c, owner) && Keyed(c) && Keys(c) == SpecKeys(owner.children) && NoForeign(c)
    ensures forall i :: 0 <= i < |c| ==> c[i].id >= next
  {
    var specs := owner.children;
    assert forall j :: 0 <= j < |specs| ==> Agrees(c[j], specs[j]);
    assert forall j :: 0 <= j < |specs| ==> SpecKeys(specs)[j] == c[j].data.value.key;
    KeysAre(c);
    assert Keys(c) == SpecKeys(specs);
  }

  lemma RebuiltComes(was: seq<TreeNode>, c: seq<TreeNode>, owner: NodeSpec, next: nat)
    requires RebuiltTo(c, owner.children, |owner.children|, next) && Rebuilds(was, SpecKeys(owner.children))
    requires NoForeign(c)
    ensures LevelComes(was, c, owner, next)
  {
    hide IsNew, LevelAgrees, Keyed, Keys, Foreign, Lacking;
    KeysCount(was);
    KeysCount(c);
    forall j | 0 <= j < |owner.children| ensures ChildComes([], c, owner.children[j], next) {
      assert Agrees(c[j], owner.children[j]);
      assert Comes([], c[j], owner.children[j], next);
    }
  }

  // ------------------------------------------------------------------------------------------------------
  // The methods
  // ------------------------------------------------------------------------------------------------------

  /** `update_node` */
  method UpdateNode(n: TreeNode, spec: NodeSpec) returns (n': TreeNode, relabelled: bool)
    ensures n'.id == n.id && n'.children == n.children
    ensures n'.data == Some(Binding(spec.key, spec.caption, spec.payload)) && n'.allowExpand == spec.allowExpand
    ensures relabelled <==> n.data.None? || n.data.value.caption != spec.caption
    ensures n'.caption == if relabelled then spec.caption else n.caption
  {
    relabelled := n.data == None || n.data.value.caption != spec.caption;
    n' := n;
    if relabelled {
      n' := n'.(caption := spec.caption);
    }
    n' := n'.(data := Some(BindingOf(spec)));
    if n'.allowExpand != spec.allowExpand {
      n' := n'.(allowExpand := spec.allowExpand);
    }
  }

  // ------------------------------------------------------------------------------------------------------
  // Identities
  // ------------------------------------------------------------------------------------------------------

  /** How many of the nodes, and of those below them, have the identity `x`. */
  function Count(c: seq<TreeNode>, x: nat): nat {
    if c == [] then 0 else (if c[0].id == x then 1 else 0) + Count(c[0].children, x) + Count(c[1..], x)
  }

  function OneIn(lo: nat, x: nat, hi: nat): nat { if lo <= x < hi then 1 else 0 }

  /** Of the identities in `c`, those of `was` are there no more often, and those from `lo` to `hi` at most once more. */
  ghost predicate IdsBound(was: seq<TreeNode>, c: seq<TreeNode>, lo: nat, hi: nat) {
    forall x: nat :: Count(c, x) <= Count(was, x) + OneIn(lo, x, hi)
  }

  /** Every node has an identity of its own, below `next`. */
  ghost predicate OwnIds(c: seq<TreeNode>, next: nat) {
    forall x: nat :: Count(c, x) <= OneIn(0, x, next)
  }

  /** So identities stay distinct, and none is used again. */
  lemma BoundKeepsOwn(was: seq<TreeNode>, c: seq<TreeNode>, lo: nat, hi: nat)
    requires OwnIds(was, lo) && IdsBound(was, c, lo, hi) && lo <= hi
    ensures OwnIds(c, hi)
  {
    forall x: nat ensures Count(c, x) <= OneIn(0, x, hi) {
      assert Count(was, x) <= OneIn(0, x, lo);
    }
  }

  lemma {:induction false} CountAppends(a: seq<TreeNode>, b: seq<TreeNode>, x: nat)
    ensures Count(a + b, x) == Count(a, x) + Count(b, x)
  {
    if a == [] {
      assert a + b == b;
    } else {
      assert (a + b)[1..] == a[1..] + b && (a + b)[0] == a[0];
      CountAppends(a[1..], b, x);
    }
  }

  lemma CountOne(n: TreeNode, x: nat)
    ensures Count([n], x) == (if n.id == x then 1 else 0) + Count(n.children, x)
  {
    assert [n][1..] == [];
  }

  lemma InsertedIds(c: seq<TreeNode>, at: nat, n: TreeNode, x: nat)
    requires at <= |c|
    ensures Count(Inserted(c, at, n), x) == Count(c, x) + Count([n], x)
  {
    hide Count;
    assert c == c[..at] + c[at..];
    CountAppends(c[..at], c[at..], x);
    CountAppends(c[..at] + [n], c[at..], x);
    CountAppends(c[..at], [n], x);
  }

  lemma ReplacedIds(c: seq<TreeNode>, p: nat, n: TreeNode, x: nat)
    requires p < |c|
    ensures Count(c[p := n], x) + Count([c[p]], x) == Count(c, x) + Count([n], x)
  {
    hide Count;
    assert c == Inserted(c[..p] + c[p + 1..], p, c[p]);
    assert c[p := n] == Inserted(c[..p] + c[p + 1..], p, n);
    InsertedIds(c[..p] + c[p + 1..], p, c[p], x);
    InsertedIds(c[..p] + c[p + 1..], p, n, x);
  }

  lemma {:induction false} KeptIds(c: seq<TreeNode>, wanted: seq<Key>, x: nat)
    ensures Count(Kept(c, wanted), x) <= Count(c, x)
  {
    if c != [] {
      KeptIds(c[1..], wanted, x);
      CountAppends([c[0]], Kept(c[1..], wanted), x);
      CountOne(c[0], x);
      assert Kept(c, wanted) == Kept(c[1..], wanted) || Kept(c, wanted) == [c[0]] + Kept(c[1..], wanted);
    }
  }

  lemma KeptBound(was: seq<TreeNode>, wanted: seq<Key>, next: nat)
    ensures IdsBound(was, Kept(was, wanted), next, next)
  {
    forall x: nat ensures Count(Kept(was, wanted), x) <= Count(was, x) { KeptIds(was, wanted, x); }
  }

  lemma InsertedBound(was: seq<TreeNode>, c: seq<TreeNode>, at: nat, n: TreeNode, lo: nat, mid: nat, hi: nat)
    requires at <= |c| && lo <= mid <= hi && IdsBound(was, c, lo, mid) && IdsBound([], [n], mid, hi)
    ensures IdsBound(was, Inserted(c, at, n), lo, hi)
  {
    forall x: nat ensures Count(Inserted(c, at, n), x) <= Count(was, x) + OneIn(lo, x, hi) {
      InsertedIds(c, at, n, x);
      assert Count(c, x) <= Count(was, x) + OneIn(lo, x, mid) && Count([n], x) <= Count([], x) + OneIn(mid, x, hi);
    }
  }

  lemma ReplacedBound(was: seq<TreeNode>, c: seq<TreeNode>, p: nat, n: TreeNode, lo: nat, mid: nat, hi: nat)
    requires p < |c| && lo <= mid <= hi && IdsBound(was, c, lo, mid)
    requires n.id == c[p].id && IdsBound(c[p].children, n.children, mid, hi)
    ensures IdsBound(was, c[p := n], lo, hi)
  {
    forall x: nat ensures Count(c[p := n], x) <= Count(was, x) + OneIn(lo, x, hi) {
      ReplacedIds(c, p, n, x);
      CountOne(n, x);
      CountOne(c[p], x);
      assert Count(c, x) <= Count(was, x) + OneIn(lo, x, mid);
      assert Count(n.children, x) <= Count(c[p].children, x) + OneIn(mid, x, hi);
    }
  }

  lemma SameBound(c: seq<TreeNode>, lo: nat)
    ensures IdsBound(c, c, lo, lo)
  {
  }

  lemma NewBound(n: TreeNode, lo: nat, hi: nat)
    requires n.id == lo < hi && IdsBound([], n.children, lo + 1, hi)
    ensures IdsBound([], [n], lo, hi)
  {
    forall x: nat ensures Count([n], x) <= OneIn(lo, x, hi) {
      CountOne(n, x);
      assert Count(n.children, x) <= Count([], x) + OneIn(lo + 1, x, hi);
    }
  }

  // ------------------------------------------------------------------------------------------------------
  // The methods on a level
  // ------------------------------------------------------------------------------------------------------

  /** Some child of that key is bound to another label. */
  predicate Differs(was: seq<TreeNode>, spec: NodeSpec) {
    exists o :: 0 <= o < |was| && IsKey(was[o], spec.key) && was[o].data.value.caption != spec.caption
  }

  /** The keys of the survivors whose bound label differs. */
  function Relabelled(was: seq<TreeNode>, specs: seq<NodeSpec>): seq<Key> {
    if specs == [] then []
    else
      var spec := specs[|specs| - 1];
      Relabelled(was, specs[..|specs| - 1]) + if Differs(was, spec) then [spec.key] else []
  }

  /** `_add_spec`: a new node, and below it what its spec describes, all of identities not used before. */
  method AddSpec(c: seq<TreeNode>, spec: NodeSpec, at: nat, next: nat)
    returns (c': seq<TreeNode>, ghost n: TreeNode, next': nat)
    requires at <= |c| && (spec.describes ==> SpecsKeyed(spec.children))
    ensures c' == Inserted(c, at, n) && n.id == next && next' > next
    ensures Agrees(n, spec) && IsNew(n, spec, next) && Keyed(n.children) && IdsBound([], [n], next, next')
    decreases spec, 2
  {
    hide IdsBound, Inserted, LevelAgrees, LevelComes;
    var node := TreeNode(next, Some(BindingOf(spec)), spec.caption, spec.allowExpand, []);
    next' := next + 1;
    SameBound([], next');
    if spec.describes {
      var below, diff;
      below, diff, next' := ReconcileChildren([], spec, next');
      LevelEarlier([], below, spec, next, next + 1);
      node := node.(children := below);
    }
    n := node;
    NewBound(n, next, next');
    c' := c[..at] + [node] + c[at..];
    assert c' == Inserted(c, at, n) by { InsertedIs(c, at, n); }
  }

  lemma InsertedIs(c: seq<TreeNode>, at: nat, n: TreeNode)
    requires at <= |c|
    ensures Inserted(c, at, n) == c[..at] + [n] + c[at..]
  {
  }

  /** A survivor updated, and below it what its spec describes. */
  method UpdateSurvivor(n: TreeNode, spec: NodeSpec, next: nat)
    returns (n': TreeNode, relabelled: bool, next': nat)
    requires n.data.Some? && Keyed(n.children) && (spec.describes ==> SpecsKeyed(spec.children))
    ensures Agrees(n', spec) && Survives(n, n', spec, next) && Keyed(n'.children) && next' >= next
    ensures relabelled <==> n.data.value.caption != spec.caption
    ensures n'.id == n.id && IdsBound(n.children, n'.children, next, next')
    decreases spec, 2
  {
    hide IdsBound, LevelAgrees, LevelComes, Keyed;
    n', relabelled := UpdateNode(n, spec);
    next' := next;
    SameBound(n.children, next);
    if spec.describes {
      var below, diff;
      below, diff, next' := ReconcileChildren(n.children, spec, next);
      n' := n'.(children := below);
    }
  }

  /** The bulk path: every child removed, and the wanted ones added. */
  method Rebuild(ghost was: seq<TreeNode>, owner: NodeSpec, next: nat) returns (c: seq<TreeNode>, next': nat)
    requires SpecsKeyed(owner.children) && Rebuilds(was, SpecKeys(owner.children))
    ensures Keyed(c) && LevelAgrees(c, owner) && LevelComes(was, c, owner, next) && next' >= next
    ensures Keys(c) == SpecKeys(owner.children) && NoForeign(c) && IdsBound(was, c, next, next')
    ensures forall i :: 0 <= i < |c| ==> c[i].id >= next
    decreases owner, 0
  {
    hide LevelAgrees, Keyed, Keys, Foreign, IsNew, IdsBound, LevelComes, Inserted, Rebuilds;
    var specs := owner.children;
    c, next' := [], next;
    ghost var n;
    NothingBound(was, next);
    for index := 0 to |specs|
      invariant RebuiltTo(c, specs, index, next) && next' >= next && IdsBound(was, c, next, next')
    {
      ghost var before, mid := c, next';
      c, n, next' := AddSpec(c, specs[index], index, next');
      NewEarlier(n, specs[index], next, mid);
      RebuiltMore(before, specs, index, next, n);
      InsertedBound(was, before, index, n, next, mid, next');
    }
    RebuiltEnds(c, owner, next);
    RebuiltComes(was, c, owner, next);
  }

  /** All that holds before the spec at `i`. */
  ghost predicate Under(was: seq<TreeNode>, c: seq<TreeNode>, specs: seq<NodeSpec>, i: nat, next: nat, next': nat) {
    Progress(was, c, specs, i, next) && Ordered(was, c, specs, i) && next' >= next && IdsBound(was, c, next, next')
  }

  lemma SurvivorStep(was: seq<TreeNode>, c: seq<TreeNode>, specs: seq<NodeSpec>, i: nat, p: nat, n: TreeNode, next: nat,
                     mid: nat, next': nat)
    requires Under(was, c, specs, i, next, mid) && SpecsKeyed(specs) && i < |specs| && Has(was, specs[i].key)
    requires p < |c| && IsKey(c[p], specs[i].key) && Keyed(n.children)
    requires Agrees(n, specs[i]) && Survives(c[p], n, specs[i], mid) && n.id == c[p].id
    requires mid <= next' && IdsBound(c[p].children, n.children, mid, next')
    ensures Under(was, c[p := n], specs, i + 1, next, next')
  {
    hide LevelAgrees, Keyed, Keys, Foreign, Comes, Has, IdsBound, LevelComes, Ordered, Survives;
    var spec := specs[i];
    SurvivorBelow(was, c, specs, i, next, p);
    SurvivesEarlier(c[p], n, spec, next, mid);
    ReplacedOthers(c, p, n, spec.key);
    assert Waits(was, c, spec.key);
    SurvivorComes(was, c, spec, next, p, n);
    ProgressStep(was, c, c[p := n], specs, i, next, n);
    SurvivorOrder(was, c, specs, i, p, n);
    ReplacedBound(was, c, p, n, next, mid, next');
  }

  lemma SurvivesEarlier(o: TreeNode, n: TreeNode, spec: NodeSpec, next: nat, next': nat)
    requires Survives(o, n, spec, next') && next <= next'
    ensures Survives(o, n, spec, next)
  {
    if spec.describes { LevelEarlier(o.children, n.children, spec, next, next'); }
  }

  lemma NewStep(was: seq<TreeNode>, c: seq<TreeNode>, specs: seq<NodeSpec>, i: nat, n: TreeNode, next: nat, mid: nat,
                next': nat)
    requires Under(was, c, specs, i, next, mid) && SpecsKeyed(specs) && i < |specs| && !Has(was, specs[i].key)
    requires Agrees(n, specs[i]) && IsNew(n, specs[i], mid) && Keyed(n.children)
    requires mid <= next' && IdsBound([], [n], mid, next')
    ensures i <= |c| && Under(was, Inserted(c, i, n), specs, i + 1, next, next')
  {
    hide LevelAgrees, Keyed, Keys, Foreign, Comes, Has, IdsBound, LevelComes, Ordered, IsNew, Inserted;
    var spec := specs[i];
    NewEarlier(n, spec, next, mid);
    InsertionOrder(was, c, specs, i, n);
    assert Waits(was, c, spec.key);
    KeyedNow(was, c, specs, i, next);
    InsertedOthers(c, i, n, spec.key);
    NewComes(was, n, next, spec);
    ProgressStep(was, c, Inserted(c, i, n), specs, i, next, n);
    InsertedBound(was, c, i, n, next, mid, next');
  }

  lemma KeyedNow(was: seq<TreeNode>, c: seq<TreeNode>, specs: seq<NodeSpec>, i: nat, next: nat)
    requires Progress(was, c, specs, i, next)
    ensures Keyed(c)
  {
  }

  /** There is room for the next child. */
  lemma RoomFor(was: seq<TreeNode>, c: seq<TreeNode>, specs: seq<NodeSpec>, i: nat)
    requires Ordered(was, c, specs, i)
    ensures i <= |c|
  {
    hide Keys, Foreign, Common;
    KeysCount(c);
  }

  /** `x` stands before `y`. */
  ghost predicate StandsBefore(keys: seq<Key>, x: Key, y: Key) {
    exists a, b :: 0 <= a < b < |keys| && keys[a] == x && keys[b] == y
  }

  /** `part` lists some of `keys`, in their order. */
  ghost predicate InOrderOf(part: seq<Key>, keys: seq<Key>) {
    forall i, j :: 0 <= i < j < |part| ==> StandsBefore(keys, part[i], part[j])
  }

  lemma StandsAt(keys: seq<Key>, a: nat, b: nat)
    requires a < b < |keys|
    ensures StandsBefore(keys, keys[a], keys[b])
  {
  }

  lemma StandsMore(k: Key, rest: seq<Key>, x: Key, y: Key)
    ensures StandsBefore(rest, x, y) ==> StandsBefore([k] + rest, x, y)
    ensures y in rest ==> StandsBefore([k] + rest, k, y)
  {
    var all := [k] + rest;
    if StandsBefore(rest, x, y) {
      var a, b :| 0 <= a < b < |rest| && rest[a] == x && rest[b] == y;
      assert all[a + 1] == x && all[b + 1] == y;
      StandsAt(all, a + 1, b + 1);
    }
    if y in rest {
      var b :| 0 <= b < |rest| && rest[b] == y;
      assert all[b + 1] == y;
      StandsAt(all, 0, b + 1);
    }
  }

  lemma InOrderMore(part: seq<Key>, k: Key, rest: seq<Key>)
    requires InOrderOf(part, rest) && forall x :: x in part ==> x in rest
    ensures InOrderOf([k] + part, [k] + rest) && InOrderOf(part, [k] + rest)
  {
    hide StandsBefore;
    forall i, j | 0 <= i < j < |part| ensures StandsBefore([k] + rest, part[i], part[j]) {
      StandsMore(k, rest, part[i], part[j]);
    }
    forall j | 0 <= j < |part| ensures StandsBefore([k] + rest, k, part[j]) {
      StandsMore(k, rest, k, part[j]);
    }
    assert forall i :: 0 < i < |[k] + part| ==> ([k] + part)[i] == part[i - 1];
  }

  /** The keys that are gone, or new: exactly those of the one list that the other lacks, once each and in order. */
  lemma {:induction false} LackingAre(keys: seq<Key>, others: seq<Key>)
    requires Distinct(keys)
    ensures forall k :: k in Lacking(keys, others) <==> k in keys && k !in others
    ensures Distinct(Lacking(keys, others)) && InOrderOf(Lacking(keys, others), keys)
  {
    if keys != [] {
      var rest := keys[1..];
      assert keys == [keys[0]] + rest;
      LackingAre(rest, others);
      InOrderMore(Lacking(rest, others), keys[0], rest);
    }
  }

  /** A level is rebuilt exactly if every child is bound and more than half of them have keys that are not wanted. */
  lemma RebuiltExactly(was: seq<TreeNode>, wanted: seq<Key>)
    requires Keyed(was)
    ensures var gone := set i | 0 <= i < |was| && was[i].data.Some? && was[i].data.value.key !in wanted;
            Rebuilds(was, wanted) <==> (forall i :: 0 <= i < |was| ==> was[i].data.Some?) && |gone| * 2 > |was|
  {
    var gone := set i | 0 <= i < |was| && was[i].data.Some? && was[i].data.value.key !in wanted;
    if NoForeign(was) {
      KeysAre(was);
      GoneCount(was, wanted, |was|);
      assert was[..|was|] == was;
      assert Gone(was, wanted, |was|) == gone;
    }
  }

  function Gone(was: seq<TreeNode>, wanted: seq<Key>, n: nat): set<nat>
    requires n <= |was|
  {
    set i | 0 <= i < n && was[i].data.Some? && was[i].data.value.key !in wanted
  }

  lemma {:induction false} GoneCount(was: seq<TreeNode>, wanted: seq<Key>, n: nat)
    requires n <= |was| && forall i :: 0 <= i < |was| ==> was[i].data.Some?
    ensures |Lacking(Keys(was[..n]), wanted)| == |Gone(was, wanted, n)|
  {
    if n > 0 {
      GoneCount(was, wanted, n - 1);
      var k := was[n - 1].data.value.key;
      assert was[..n] == was[..n - 1] + [was[n - 1]];
      KeysAppend(was[..n - 1], [was[n - 1]]);
      OneKeyOf(was[n - 1]);
      LackingAppends(Keys(was[..n - 1]), k, wanted);
      hide Lacking, Keys;
      GoneMore(was, wanted, n);
    }
  }

  lemma OneKeyOf(n: TreeNode)
    requires n.data.Some?
    ensures Keys([n]) == [n.data.value.key]
  {
    assert [n][1..] == [];
  }

  lemma GoneMore(was: seq<TreeNode>, wanted: seq<Key>, n: nat)
    requires 0 < n <= |was| && was[n - 1].data.Some?
    ensures |Gone(was, wanted, n)| == |Gone(was, wanted, n - 1)| + if was[n - 1].data.value.key in wanted then 0 else 1
  {
    assert Gone(was, wanted, n)
           == Gone(was, wanted, n - 1) + if was[n - 1].data.value.key in wanted then {} else {n - 1};
  }

  /** The keys reported as relabelled are, in the specs' order, those of the survivors whose bound label differed. */
  lemma {:induction false} RelabelledAre(was: seq<TreeNode>, specs: seq<NodeSpec>)
    ensures forall k :: k in Relabelled(was, specs) <==>
              exists j :: 0 <= j < |specs| && specs[j].key == k && Differs(was, specs[j])
    ensures |Relabelled(was, specs)| <= |specs|
  {
    if specs != [] {
      var (front, last) := (specs[..|specs| - 1], specs[|specs| - 1]);
      RelabelledAre(was, front);
      forall k ensures k in Relabelled(was, specs) <==>
                         exists j :: 0 <= j < |specs| && specs[j].key == k && Differs(was, specs[j]) {
        if k in Relabelled(was, front) {
          var j :| 0 <= j < |front| && front[j].key == k && Differs(was, front[j]);
          assert specs[j] == front[j];
        }
        if j :| 0 <= j < |specs| && specs[j].key == k && Differs(was, specs[j]) {
          if j < |front| { assert front[j] == specs[j]; }
        }
      }
    }
  }

  /** `reconcile_children`, for the children that `owner` describes: they end as wanted, level by level, each showing
      its label. Unless rebuilt, every survivor is still itself, and the order is the specs' exactly if the survivors
      were in that order. Identities stay distinct. */
  method ReconcileChildren(children: seq<TreeNode>, owner: NodeSpec, next: nat)
    returns (c: seq<TreeNode>, diff: Diff, next': nat)
    requires Keyed(children) && SpecsKeyed(owner.children)
    ensures Keyed(c) && LevelAgrees(c, owner) && Foreign(c) == Foreign(children) && next' >= next
    ensures LevelComes(children, c, owner, next)
    ensures IdsBound(children, c, next, next') && (OwnIds(children, next) ==> OwnIds(c, next'))
    ensures diff.before == Keys(children) && diff.after == SpecKeys(owner.children)
    ensures diff.removed == Lacking(diff.before, diff.after)
    ensures diff.added == if diff.rebuilt then diff.after else Lacking(diff.after, diff.before)
    ensures diff.relabelled == if diff.rebuilt then [] else Relabelled(children, owner.children)
    ensures diff.rebuilt <==> Rebuilds(children, diff.after)
    ensures diff.rebuilt ==> Keys(c) == diff.after && NoForeign(c) && forall i :: 0 <= i < |c| ==> c[i].id >= next
    ensures !diff.rebuilt ==> forall j :: 0 <= j < |owner.children| ==> Fulfilled(children, c, owner.children[j], next)
    ensures !diff.rebuilt && NoForeign(children) ==>
              (Keys(c) == diff.after <==> Common(diff.before, diff.after) == Common(diff.after, diff.before))
    decreases owner, 1
  {
    hide LevelAgrees, Keyed, Keys, Foreign, Common, Has, IsNew, IdsBound, OwnIds, LevelComes, Survives, Under, Fulfilled;
    hide Differs;
    var specs := owner.children;
    var (before, wanted) := (Keys(children), SpecKeys(specs));
    var removed := Lacking(before, wanted);
    if NoForeign(children) && |removed| * 2 > |before| {
      c, next' := Rebuild(children, owner, next);
      KeysCount(children);
      KeysCount(c);
      OwnIdsKept(children, c, next, next');
      diff := Diff(before, wanted, wanted, removed, [], true);
      return;
    }
    var added, relabelled;
    c, added, relabelled, next' := UpdateIncrementally(children, owner, next);
    UnderEnds(children, c, owner, next, next');
    OwnIdsKept(children, c, next, next');
    diff := Diff(before, wanted, added, removed, relabelled, false);
  }

  lemma OwnIdsKept(was: seq<TreeNode>, c: seq<TreeNode>, lo: nat, hi: nat)
    requires IdsBound(was, c, lo, hi) && lo <= hi
    ensures OwnIds(was, lo) ==> OwnIds(c, hi)
  {
    if OwnIds(was, lo) { BoundKeepsOwn(was, c, lo, hi); }
  }

  lemma UnderEnds(was: seq<TreeNode>, c: seq<TreeNode>, owner: NodeSpec, next: nat, next': nat)
    requires Under(was, c, owner.children, |owner.children|, next, next') && Keyed(was) && SpecsKeyed(owner.children)
    ensures LevelAgrees(c, owner) && Keyed(c) && Foreign(c) == Foreign(was) && next' >= next && IdsBound(was, c, next, next')
    ensures NoForeign(was) ==>
              var wanted := SpecKeys(owner.children);
              Keys(c) == wanted <==> Common(Keys(was), wanted) == Common(wanted, Keys(was))
    ensures forall j :: 0 <= j < |owner.children| ==> Fulfilled(was, c, owner.children[j], next)
    ensures !Rebuilds(was, SpecKeys(owner.children)) ==> LevelComes(was, c, owner, next)
  {
    hide Progress, Ordered;
    ProgressEnds(was, c, owner, next);
  }

  /** The incremental path: what is gone is removed, then each spec in turn updates its survivor or adds its node. */
  method UpdateIncrementally(children: seq<TreeNode>, owner: NodeSpec, next: nat)
    returns (c: seq<TreeNode>, added: seq<Key>, relabelled: seq<Key>, next': nat)
    requires Keyed(children) && SpecsKeyed(owner.children)
    ensures Under(children, c, owner.children, |owner.children|, next, next')
    ensures added == Lacking(SpecKeys(owner.children), Keys(children))
    ensures relabelled == Relabelled(children, owner.children)
    decreases owner, 0
  {
    hide LevelAgrees, Keyed, Keys, Foreign, Common, Kept, Inserted, IsNew, IdsBound, LevelComes, Survives, Under;
    hide Differs, Comes, Has;
    var specs := owner.children;
    ghost var (before, wanted) := (Keys(children), SpecKeys(specs));
    c, next' := Kept(children, SpecKeys(specs)), next;
    StartsUnder(children, specs, next);
    added, relabelled := [], [];
    assert wanted[..0] == [];
    for insertAt := 0 to |specs|
      invariant Under(children, c, specs, insertAt, next, next')
      invariant added == Lacking(wanted[..insertAt], before) && relabelled == Relabelled(children, specs[..insertAt])
    {
      var spec := specs[insertAt];
      ghost var was, mid := c, next';
      UnderNow(children, c, specs, insertAt, next, mid);
      LackingAppends(wanted[..insertAt], spec.key, before);
      assert wanted[..insertAt + 1] == wanted[..insertAt] + [spec.key];
      RelabelledMore(children, specs, insertAt);
      if Has(children, spec.key) {
        var p := Find(c, spec.key);
        var survivor, changed;
        survivor, changed, next' := UpdateSurvivor(c[p], spec, next');
        SurvivorDiffers(children, c, p, spec);
        if changed {
          relabelled := relabelled + [spec.key];
        }
        c := c[p := survivor];
        SurvivorStep(children, was, specs, insertAt, p, survivor, next, mid, next');
      } else {
        ghost var n;
        c, n, next' := AddSpec(c, spec, insertAt, next');
        added := added + [spec.key];
        AbsentDiffers(children, spec);
        NewStep(children, was, specs, insertAt, n, next, mid, next');
      }
    }
    assert wanted[..|specs|] == wanted && specs[..|specs|] == specs;
  }

  lemma StartsUnder(was: seq<TreeNode>, specs: seq<NodeSpec>, next: nat)
    requires Keyed(was) && SpecsKeyed(specs)
    ensures Under(was, Kept(was, SpecKeys(specs)), specs, 0, next, next)
  {
    hide Progress, Ordered, IdsBound;
    KeptStarts(was, specs, next);
    KeptBound(was, SpecKeys(specs), next);
  }

  /** What the loop body needs of the level so far. */
  lemma UnderNow(was: seq<TreeNode>, c: seq<TreeNode>, specs: seq<NodeSpec>, i: nat, next: nat, mid: nat)
    requires Under(was, c, specs, i, next, mid) && i < |specs|
    ensures i <= |c| && Waits(was, c, specs[i].key) && Keyed(c) && mid >= next
    ensures forall p :: 0 <= p < |c| ==> Keyed(c[p].children)
    ensures specs[i].key in Keys(was) <==> Has(was, specs[i].key)
  {
    hide Ordered, IdsBound, Keys;
    RoomFor(was, c, specs, i);
    KeysAre(was);
  }

  lemma NothingBound(was: seq<TreeNode>, next: nat)
    ensures IdsBound(was, [], next, next)
  {
  }

  lemma RelabelledMore(was: seq<TreeNode>, specs: seq<NodeSpec>, i: nat)
    requires i < |specs|
    ensures Relabelled(was, specs[..i + 1])
            == Relabelled(was, specs[..i]) + if Differs(was, specs[i]) then [specs[i].key] else []
  {
    assert specs[..i + 1][..i] == specs[..i];
  }

  /** The survivor's bound label is the one the level had for its key. */
  lemma SurvivorDiffers(was: seq<TreeNode>, c: seq<TreeNode>, p: nat, spec: NodeSpec)
    requires Keyed(was) && Waits(was, c, spec.key) && p < |c| && IsKey(c[p], spec.key)
    ensures Differs(was, spec) <==> c[p].data.value.caption != spec.caption
  {
    hide Keys;
    assert c[p] in was;
    var q :| 0 <= q < |was| && was[q] == c[p];
    if o :| 0 <= o < |was| && IsKey(was[o], spec.key) && was[o].data.value.caption != spec.caption {
      KeyedOnce(was, o, q, spec.key);
    }
  }

  lemma AbsentDiffers(was: seq<TreeNode>, spec: NodeSpec)
    requires !Has(was, spec.key)
    ensures !Differs(was, spec)
  {
  }

  /** The survivor's own children are keyed. */
  lemma SurvivorBelow(was: seq<TreeNode>, c: seq<TreeNode>, specs: seq<NodeSpec>, i: nat, next: nat, p: nat)
    requires Progress(was, c, specs, i, next) && i < |specs| && p < |c|
    ensures Keyed(c[p].children) && Keyed(c)
  {
  }

  lemma SurvivorComes(was: seq<TreeNode>, c: seq<TreeNode>, spec: NodeSpec, next: nat, p: nat, n: TreeNode)
    requires Has(was, spec.key) && Waits(was, c, spec.key) && p < |c| && IsKey(c[p], spec.key) && IsKey(n, spec.key)
    requires Survives(c[p], n, spec, next)
    ensures Comes(was, n, spec, next)
  {
    assert c[p] in was;
  }

  lemma NewComes(was: seq<TreeNode>, n: TreeNode, next: nat, spec: NodeSpec)
    requires !Has(was, spec.key) && IsKey(n, spec.key) && IsNew(n, spec, next)
    ensures Comes(was, n, spec, next)
  {
  }

  // ------------------------------------------------------------------------------------------------------
  // The labels shown
  // ------------------------------------------------------------------------------------------------------

  /** Every bound node shows its bound label, on every level. */
  ghost predicate Honest(children: seq<TreeNode>) {
    forall i :: 0 <= i < |children| ==>
      (children[i].data.Some? ==> children[i].caption == children[i].data.value.caption) && Honest(children[i].children)
  }

  lemma {:induction false} ForeignAre(c: seq<TreeNode>)
    ensures forall n :: n in Foreign(c) <==> n in c && n.data.None?
  {
    if c != [] { ForeignAre(c[1..]); }
  }

  /** The spec of a bound child, and where that child comes from. */
  lemma SpecOf(was: seq<TreeNode>, c: seq<TreeNode>, owner: NodeSpec, next: nat, p: nat) returns (j: nat)
    requires LevelComes(was, c, owner, next) && LevelAgrees(c, owner) && Keyed(c) && p < |c| && c[p].data.Some?
    ensures j < |owner.children| && Agrees(c[p], owner.children[j])
    ensures Comes(Base(was, SpecKeys(owner.children)), c[p], owner.children[j], next)
  {
    hide Keys, Base, Has, Survives, IsNew;
    var (specs, k) := (owner.children, c[p].data.value.key);
    j :| 0 <= j < |specs| && specs[j].key == k;
    var i :| 0 <= i < |c| && Agrees(c[i], specs[j]);
    KeyedOnce(c, i, p, k);
    assert ChildComes(Base(was, SpecKeys(specs)), c, specs[j], next);
    var q :| 0 <= q < |c| && Comes(Base(was, SpecKeys(specs)), c[q], specs[j], next);
    KeyedOnce(c, q, p, k);
  }

  /** If every bound node showed its bound label before, every bound node shows its spec's label after; where no spec
      reaches, nothing changed. */
  lemma {:induction false} LabelsShown(was: seq<TreeNode>, c: seq<TreeNode>, owner: NodeSpec, next: nat)
    requires LevelComes(was, c, owner, next) && LevelAgrees(c, owner) && Keyed(c) && Honest(was)
    ensures Honest(c)
    decreases owner, 0
  {
    ForeignAre(c);
    ForeignAre(was);
    var from := Base(was, SpecKeys(owner.children));
    forall p | 0 <= p < |c|
      ensures c[p].data.Some? ==> c[p].caption == c[p].data.value.caption
      ensures Honest(c[p].children)
    {
      if c[p].data.None? {
        assert c[p] in Foreign(c);
        assert c[p] in was;
      } else {
        var j := SpecOf(was, c, owner, next, p);
        ChildShown(from, c[p], owner.children[j], next);
      }
    }
  }

  lemma {:induction false} ChildShown(from: seq<TreeNode>, n: TreeNode, spec: NodeSpec, next: nat)
    requires Comes(from, n, spec, next) && Agrees(n, spec) && Keyed(n.children) && Honest(from)
    ensures n.caption == spec.caption == n.data.value.caption && Honest(n.children)
    decreases spec, 1
  {
    if Has(from, spec.key) {
      var o :| 0 <= o < |from| && IsKey(from[o], spec.key) && Survives(from[o], n, spec, next);
      if spec.describes { LabelsShown(from[o].children, n.children, spec, next); }
    } else {
      assert IsNew(n, spec, next);
      if spec.describes { LabelsShown([], n.children, spec, next); }
    }
  }

  // ------------------------------------------------------------------------------------------------------
  // Where the cursor goes
  // ------------------------------------------------------------------------------------------------------

  /** `before[j]` is the survivor nearest to position `i`: the next one after it, or if there is none the last before.
      */
  predicate Nearest(before: seq<Key>, after: seq<Key>, i: nat, j: nat) {
    && i < |before| && j < |before| && before[j] in after
    && if j > i then forall m :: i < m < j ==> before[m] !in after
       else forall m :: j < m < |before| ==> before[m] !in after
  }

  /** `next_cursor_key` */
  method NextCursorKey(cursor: Key, before: seq<Key>, after: seq<Key>) returns (k: Option<Key>)
    ensures cursor in after ==> k == Some(cursor)
    ensures cursor !in after && cursor !in before ==> k == None
    ensures cursor !in after && cursor in before ==>
              exists i :: 0 <= i < |before| && before[i] == cursor && cursor !in before[..i]
                          && (if k.Some? then exists j :: 0 <= j < |before| && before[j] == k.value && Nearest(before, after, i, j)
                              else forall m :: 0 <= m < |before| ==> before[m] !in after)
  {
    if cursor in after {
      return Some(cursor);
    }
    if cursor !in before {
      return None;
    }
    var cursorIndex := 0;
    ghost var at :| 0 <= at < |before| && before[at] == cursor;
    while before[cursorIndex] != cursor
      invariant 0 <= cursorIndex <= at && forall m :: 0 <= m < cursorIndex ==> before[m] != cursor
      decreases |before| - cursorIndex
    {
      cursorIndex := cursorIndex + 1;
    }
    for j := cursorIndex + 1 to |before|
      invariant forall m :: cursorIndex < m < j ==> before[m] !in after
    {
      if before[j] in after {
        assert Nearest(before, after, cursorIndex, j);
        return Some(before[j]);
      }
    }
    for j := cursorIndex downto 0
      invariant forall m :: j <= m < |before| ==> before[m] !in after
    {
      if before[j] in after {
        assert Nearest(before, after, cursorIndex, j);
        return Some(before[j]);
      }
    }
    return None;
  }
}
