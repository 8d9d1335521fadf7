/** Propagation of dependencies down the menu tree, with its y/n simplifications, and what
    the resulting conditions evaluate to. */
module KconfigDeps {
  import opened Options
  import opened KconfigEval
  import opened KconfigShape

  // --------------------------------------------------------------- expressions

  /** Short-circuiting evaluation agrees. */
  lemma {:induction false} EvaluationAgrees(cfg: Config, u: User, e: Expr, v: Item -> Tri)
    requires WellFormed(cfg)
    requires forall s :: v(S(s)) == TriEv(cfg, u, s).v
    requires forall c :: v(C(c)) == ModeEv(cfg, u, c).v
    ensures ExprEv(cfg, u, e).v == Value(e, v)
    decreases e
  {
    hide WellFormed, TriEv, ModeEv, Compare;
    match e {
      case Lit(_) =>
      case Ref(_) =>
      case And(a, b) => EvaluationAgrees(cfg, u, a, v); EvaluationAgrees(cfg, u, b, v);
      case Or(a, b) => EvaluationAgrees(cfg, u, a, v); EvaluationAgrees(cfg, u, b, v);
      case Not(a) => EvaluationAgrees(cfg, u, a, v);
      case Cmp(_, a, b) => EvaluationAgrees(cfg, u, a, v); EvaluationAgrees(cfg, u, b, v);
    }
  }

  /** The six relations, by the order of their operands' values. */
  lemma RelationsMean(a: Expr, b: Expr, v: Item -> Tri)
    ensures Value(Cmp(Equal, a, b), v) == (if Value(a, v) == Value(b, v) then 2 else 0)
    ensures Value(Cmp(Unequal, a, b), v) == (if Value(a, v) != Value(b, v) then 2 else 0)
    ensures Value(Cmp(Less, a, b), v) == (if Value(a, v) < Value(b, v) then 2 else 0)
    ensures Value(Cmp(LessEqual, a, b), v) == (if Value(a, v) <= Value(b, v) then 2 else 0)
    ensures Value(Cmp(Greater, a, b), v) == (if Value(a, v) > Value(b, v) then 2 else 0)
    ensures Value(Cmp(GreaterEqual, a, b), v) == (if Value(a, v) >= Value(b, v) then 2 else 0)
  {
  }

  /** && is the greatest value below both operands and || the least above them; ! turns the
      order around and undoes itself, so it swaps n and y and leaves m. */
  lemma ConnectivesMean(a: Expr, b: Expr, v: Item -> Tri, t: Tri)
    ensures t <= Value(And(a, b), v) <==> t <= Value(a, v) && t <= Value(b, v)
    ensures t >= Value(Or(a, b), v) <==> t >= Value(a, v) && t >= Value(b, v)
    ensures Value(Not(a), v) <= Value(Not(b), v) <==> Value(b, v) <= Value(a, v)
    ensures Value(Not(Not(a)), v) == Value(a, v) && (Value(Not(a), v) == 1 <==> Value(a, v) == 1)
    ensures Value(Not(And(a, b)), v) == Value(Or(Not(a), Not(b)), v)
  {
  }

  function MakeAnd(a: Expr, b: Expr): Expr {
    if a == Lit(2) then b
    else if b == Lit(2) then a
    else if a == Lit(0) || b == Lit(0) then Lit(0)
    else And(a, b)
  }

  function MakeOr(a: Expr, b: Expr): Expr {
    if a == Lit(0) then b
    else if b == Lit(0) then a
    else if a == Lit(2) || b == Lit(2) then Lit(2)
    else Or(a, b)
  }

  /** The simplifications change no value, under any assignment. */
  lemma SimplifiedMeansTheSame(a: Expr, b: Expr, v: Item -> Tri)
    ensures Value(MakeAnd(a, b), v) == Value(And(a, b), v)
    ensures Value(MakeOr(a, b), v) == Value(Or(a, b), v)
  {
  }

  /** The least value among expressions. */
  function Least(es: seq<Expr>, v: Item -> Tri): Tri {
    if es == [] then 2 else Min(Value(es[0], v), Least(es[1..], v))
  }

  lemma {:induction false} LeastConcat(xs: seq<Expr>, ys: seq<Expr>, v: Item -> Tri)
    ensures Least(xs + ys, v) == Min(Least(xs, v), Least(ys, v))
  {
    if xs != [] {
      LeastConcat(xs[1..], ys, v);
      assert (xs + ys)[1..] == xs[1..] + ys;
    } else {
      assert xs + ys == ys;
    }
  }

  /** Whatever the assignment, `e` has the least value among `es`. */
  ghost predicate Means(e: Expr, es: seq<Expr>) {
    forall v: Item -> Tri :: Value(e, v) == Least(es, v)
  }

  lemma MeansItself(e: Expr)
    ensures Means(e, [e])
  {
    assert forall v: Item -> Tri :: Least([e], v) == Min(Value(e, v), Least([], v));
  }

  lemma MeansBoth(a: Expr, xs: seq<Expr>, b: Expr, ys: seq<Expr>)
    requires Means(a, xs) && Means(b, ys)
    ensures Means(MakeAnd(a, b), xs + ys)
  {
    forall v: Item -> Tri
      ensures Value(MakeAnd(a, b), v) == Least(xs + ys, v)
    {
      LeastConcat(xs, ys, v);
      SimplifiedMeansTheSame(a, b, v);
    }
  }

  /** One more condition in front. */
  lemma MeansMore(a: Expr, b: Expr, ys: seq<Expr>)
    requires Means(b, ys)
    ensures Means(MakeAnd(a, b), [a] + ys)
  {
    MeansItself(a);
    MeansBoth(a, [a], b, ys);
  }

  // ---------------------------------------------------------------- menu nodes

  datatype MenuItem = SymItem(sym: nat) | ChoiceItem(choice: nat) | MenuMark | IfMark | CommentMark

  /** A default, range, select or imply with its condition. */
  datatype Prop<+T> = Prop(what: T, cond: Expr)

  datatype MenuNode = MenuNode(item: MenuItem, dep: Expr, visibility: Expr, prompt: Option<Expr>,
                       defaults: seq<Prop<Expr>>, ranges: seq<Prop<(Expr, Expr)>>,
                       selects: seq<Prop<nat>>, implies: seq<Prop<nat>>)

  predicate IsSymbolOrChoice(item: MenuItem) { item.SymItem? || item.ChoiceItem? }

  function Guard<T>(ps: seq<Prop<T>>, dep: Expr): seq<Prop<T>> {
    seq(|ps|, i requires 0 <= i < |ps| => Prop(ps[i].what, MakeAnd(ps[i].cond, dep)))
  }

  /** Same properties in the same order, each under its own condition and `deps`. */
  ghost predicate Guarded<T(!new)>(ps: seq<Prop<T>>, qs: seq<Prop<T>>, deps: seq<Expr>) {
    && |qs| == |ps|
    && forall i :: 0 <= i < |ps| ==> qs[i].what == ps[i].what && Means(qs[i].cond, [ps[i].cond] + deps)
  }

  /** What a finished node looks like: `base` is what its parent passes down, `vis` the
      `visible if` conditions of the menus around it. */
  ghost predicate Right(n0: MenuNode, n: MenuNode, base: seq<Expr>, vis: seq<Expr>) {
    && n.item == n0.item && n.visibility == n0.visibility
    && Means(n.dep, [n0.dep] + base)
    && (n.prompt.Some? <==> n0.prompt.Some?)
    && (n0.prompt.Some? && IsSymbolOrChoice(n0.item) ==> Means(n.prompt.value, [n0.prompt.value] + vis + [n0.dep] + base))
    && (n0.prompt.Some? && !IsSymbolOrChoice(n0.item) ==> Means(n.prompt.value, [n0.prompt.value] + [n0.dep] + base))
    && (IsSymbolOrChoice(n0.item) ==>
          && Guarded(n0.defaults, n.defaults, [n0.dep] + base) && Guarded(n0.ranges, n.ranges, [n0.dep] + base)
          && Guarded(n0.selects, n.selects, [n0.dep] + base) && Guarded(n0.implies, n.implies, [n0.dep] + base))
  }

  /** The loop body of `_propagate_deps`. */
  function Pushed(n: MenuNode, basedep: Expr, visibleIf: Expr): MenuNode {
    var dep := MakeAnd(n.dep, basedep);
    var n' := n.(dep := dep);
    if IsSymbolOrChoice(n.item) then
      n'.(prompt := if n.prompt.Some? then Some(MakeAnd(n.prompt.value, MakeAnd(visibleIf, dep))) else None,
          defaults := Guard(n.defaults, dep), ranges := Guard(n.ranges, dep),
          selects := Guard(n.selects, dep), implies := Guard(n.implies, dep))
    else
      n'.(prompt := if n.prompt.Some? then Some(MakeAnd(n.prompt.value, dep)) else None)
  }

  lemma GuardMeans<T(!new)>(ps: seq<Prop<T>>, dep: Expr, deps: seq<Expr>)
    requires Means(dep, deps)
    ensures Guarded(ps, Guard(ps, dep), deps)
  {
    hide Means, MakeAnd;
    forall i | 0 <= i < |ps|
      ensures Means(Guard(ps, dep)[i].cond, [ps[i].cond] + deps)
    {
      MeansMore(ps[i].cond, dep, deps);
    }
  }

  lemma PushedIsRight(n: MenuNode, basedep: Expr, visibleIf: Expr, base: seq<Expr>, vis: seq<Expr>)
    requires Means(basedep, base) && Means(visibleIf, vis)
    ensures Right(n, Pushed(n, basedep, visibleIf), base, vis)
  {
    hide Means, MakeAnd, Guard, Guarded;
    var dep, deps := MakeAnd(n.dep, basedep), [n.dep] + base;
    MeansMore(n.dep, basedep, base);
    if n.prompt.Some? {
      MeansBoth(visibleIf, vis, dep, deps);
      MeansMore(n.prompt.value, MakeAnd(visibleIf, dep), vis + deps);
      assert [n.prompt.value] + (vis + deps) == [n.prompt.value] + vis + [n.dep] + base;
      MeansMore(n.prompt.value, dep, deps);
      assert [n.prompt.value] + deps == [n.prompt.value] + [n.dep] + base;
    }
    GuardMeans(n.defaults, dep, deps);
    GuardMeans(n.ranges, dep, deps);
    GuardMeans(n.selects, dep, deps);
    GuardMeans(n.implies, dep, deps);
  }

  // ------------------------------------------------------------------ the tree

  predicate InTree(t: Tree, id: nat)
    decreases t, 1
  {
    id == t.id || Below(t, id)
  }

  predicate Below(t: Tree, id: nat)
    decreases t, 0
  {
    exists i :: 0 <= i < |t.kids| && InTree(t.kids[i], id)
  }

  /** Every node occurs once; symbols have no children before implicit menus are made. */
  ghost predicate TreeOk(t: Tree, node: map<nat, MenuNode>) {
    && t.id in node && !Below(t, t.id)
    && (node[t.id].item.SymItem? ==> t.kids == [])
    && (forall i :: 0 <= i < |t.kids| ==> TreeOk(t.kids[i], node))
    && (forall i, j, id :: 0 <= i < j < |t.kids| ==> !(InTree(t.kids[i], id) && InTree(t.kids[j], id)))
  }

  /** What a node passes down: a choice its mode, anything else all it depends on. */
  function Passed(item: MenuItem, deps: seq<Expr>): seq<Expr> {
    if item.ChoiceItem? then [Ref(C(item.choice))] else deps
  }

  function Around(n: MenuNode, vis: seq<Expr>): seq<Expr> {
    if n.item == MenuMark then vis + [n.visibility] else vis
  }

  /** Everything below `t` is finished; `deps` and `vis` are what holds at `t` itself. */
  ghost predicate Done(t: Tree, node0: map<nat, MenuNode>, node: map<nat, MenuNode>, deps: seq<Expr>, vis: seq<Expr>)
    requires TreeOk(t, node0) && node.Keys == node0.Keys
  {
    var n0 := node0[t.id];
    var base, vis' := Passed(n0.item, deps), Around(n0, vis);
    forall i :: 0 <= i < |t.kids| ==>
      && TreeOk(t.kids[i], node0)
      && Right(node0[t.kids[i].id], node[t.kids[i].id], base, vis')
      && Done(t.kids[i], node0, node, [node0[t.kids[i].id].dep] + base, vis')
  }

  /** Only what lies below `t` matters. */
  lemma {:induction false} DoneFrame(t: Tree, a0: map<nat, MenuNode>, a: map<nat, MenuNode>,
                                     b0: map<nat, MenuNode>, b: map<nat, MenuNode>, deps: seq<Expr>, vis: seq<Expr>)
    requires TreeOk(t, a0) && TreeOk(t, b0) && a.Keys == a0.Keys && b.Keys == b0.Keys && Done(t, a0, a, deps, vis)
    requires a0[t.id].item == b0[t.id].item && a0[t.id].visibility == b0[t.id].visibility
    requires forall id :: Below(t, id) && id in a0 && id in b0 ==> a0[id] == b0[id] && a[id] == b[id]
    ensures Done(t, b0, b, deps, vis)
    decreases t
  {
    hide Right;
    var base, vis' := Passed(a0[t.id].item, deps), Around(a0[t.id], vis);
    forall i | 0 <= i < |t.kids|
      ensures Right(b0[t.kids[i].id], b[t.kids[i].id], base, vis')
      ensures Done(t.kids[i], b0, b, [b0[t.kids[i].id].dep] + base, vis')
    {
      var kid := t.kids[i];
      assert InTree(kid, kid.id) && Below(t, kid.id);
      forall id | Below(kid, id)
        ensures Below(t, id)
      {
        assert InTree(kid, id);
      }
      DoneFrame(kid, a0, a, b0, b, [a0[kid.id].dep] + base, vis');
    }
  }

  lemma {:induction false} TreeOkFrame(t: Tree, a: map<nat, MenuNode>, b: map<nat, MenuNode>)
    requires TreeOk(t, a) && SameItems(a, b)
    ensures TreeOk(t, b)
    decreases t
  {
    hide InTree, Below;
    forall i | 0 <= i < |t.kids|
      ensures TreeOk(t.kids[i], b)
    {
      TreeOkFrame(t.kids[i], a, b);
    }
  }

  ghost predicate SameItems(a: map<nat, MenuNode>, b: map<nat, MenuNode>) {
    a.Keys == b.Keys && forall id :: id in a ==> a[id].item == b[id].item && a[id].visibility == b[id].visibility
  }

  /** The nodes in `done` have been treated by the loop of `_propagate_deps`. */
  function PushedMap(a: map<nat, MenuNode>, done: set<nat>, basedep: Expr, visibleIf: Expr): map<nat, MenuNode> {
    map id | id in a :: if id in done then Pushed(a[id], basedep, visibleIf) else a[id]
  }

  function KidIds(t: Tree, k: nat): set<nat>
    requires k <= |t.kids|
  {
    set i | 0 <= i < k :: t.kids[i].id
  }

  function BaseDep(n: MenuNode): Expr { if n.item.ChoiceItem? then Ref(C(n.item.choice)) else n.dep }

  /** The first `k` children are finished with all below them; below the others nothing
      has happened yet. */
  ghost predicate DoneUpTo(t: Tree, node0: map<nat, MenuNode>, node: map<nat, MenuNode>, k: nat, base: seq<Expr>, vis: seq<Expr>)
    requires TreeOk(t, node0) && k <= |t.kids|
  {
    && SameItems(node0, node)
    && (forall i :: 0 <= i < |t.kids| ==> TreeOk(t.kids[i], node0) && Right(node0[t.kids[i].id], node[t.kids[i].id], base, vis))
    && (forall i :: 0 <= i < k ==> Done(t.kids[i], node0, node, [node0[t.kids[i].id].dep] + base, vis))
    && (forall i, id :: k <= i < |t.kids| && Below(t.kids[i], id) && id in node0 ==> node[id] == node0[id])
    && (forall id :: id in node0 && !Below(t, id) ==> node[id] == node0[id])
  }

  class Menus {
    var node: map<nat, MenuNode>

    constructor (node: map<nat, MenuNode>)
      ensures this.node == node
    {
      this.node := node;
    }

    /** `_propagate_deps`. */
    method PropagateDeps(t: Tree, visibleIf: Expr)
      requires TreeOk(t, node)
      modifies this
      ensures node == PushedMap(old(node), KidIds(t, |t.kids|), BaseDep(old(node)[t.id]), visibleIf)
    {
      var basedep := BaseDep(node[t.id]);
      KidsDiffer(t, node);
      for k := 0 to |t.kids|
        invariant node == PushedMap(old(node), KidIds(t, k), basedep, visibleIf)
      {
        hide Pushed, TreeOk, Below, InTree;
        var id := t.kids[k].id;
        assert id !in KidIds(t, k) && KidIds(t, k + 1) == KidIds(t, k) + {id};
        node := node[id := Pushed(node[id], basedep, visibleIf)];
      }
    }

    /** The whole tree, from the top node. */
    method FinalizeAll(t: Tree)
      requires TreeOk(t, node)
      modifies this
      ensures SameItems(old(node), node) && node[t.id] == old(node)[t.id]
      ensures Done(t, old(node), node, [old(node)[t.id].dep], [])
    {
      MeansItself(node[t.id].dep);
      FinalizeNode(t, Lit(2), [node[t.id].dep], []);
    }

    /** `_finalize_node`, as far as conditions go.  The node itself already carries what
        holds there. */
    method FinalizeNode(t: Tree, visibleIf: Expr, ghost deps: seq<Expr>, ghost vis: seq<Expr>)
      requires TreeOk(t, node) && Means(node[t.id].dep, deps) && Means(visibleIf, vis)
      modifies this
      ensures SameItems(old(node), node)
      ensures Done(t, old(node), node, deps, vis)
      ensures forall id :: id in node && !Below(t, id) ==> node[id] == old(node)[id]
      decreases t
    {
      hide Means, MakeAnd, Right, PushedMap, InTree, Below, Pushed;
      ghost var n0 := node;
      var n := node[t.id];
      if n.item.SymItem? {
        return;
      }
      var within := if n.item == MenuMark then MakeAnd(visibleIf, n.visibility) else visibleIf;
      ghost var base, vis' := Passed(n.item, deps), Around(n, vis);
      PassedMeans(n, visibleIf, deps, vis);
      PropagateDeps(t, within);
      FirstPushed(t, n0, node, within, base, vis');
      for k := 0 to |t.kids|
        invariant DoneUpTo(t, n0, node, k, base, vis')
      {
        hide DoneUpTo, Done, TreeOk;
        ghost var before := node;
        ReadyFor(t, n0, node, k, base, vis');
        FinalizeNode(t.kids[k], within, [n0[t.kids[k].id].dep] + base, vis');
        DoneOneMore(t, n0, before, node, k, base, vis');
      }
    }
  }

  // ---------------------------------------------------------------- in one view

  /** A way down the tree. */
  ghost predicate Path(t: Tree, p: seq<Tree>) {
    p != [] && p[0] == t && forall i :: 0 <= i < |p| - 1 ==> p[i + 1] in p[i].kids
  }

  /** Which `depends on` conditions count at the end of a path: the node's own, those of
      every node around it out to the innermost enclosing choice, and that choice's mode. */
  ghost predicate Counts(p: seq<Tree>, node: map<nat, MenuNode>, e: Expr)
    requires p != [] && forall i :: 0 <= i < |p| ==> p[i].id in node
  {
    exists j :: 0 <= j < |p| && CountsAt(p, node, e, j)
  }

  ghost predicate CountsAt(p: seq<Tree>, node: map<nat, MenuNode>, e: Expr, j: nat)
    requires j < |p| && forall i :: 0 <= i < |p| ==> p[i].id in node
  {
    && (forall i :: j < i < |p| - 1 ==> !node[p[i].id].item.ChoiceItem?)
    && if j < |p| - 1 && node[p[j].id].item.ChoiceItem? then e == Ref(C(node[p[j].id].item.choice))
       else e == node[p[j].id].dep
  }

  /** `visible if` conditions of the menus a path leads through. */
  ghost predicate Hides(p: seq<Tree>, node: map<nat, MenuNode>, e: Expr)
    requires p != [] && forall i :: 0 <= i < |p| ==> p[i].id in node
  {
    exists j :: 0 <= j < |p| - 1 && node[p[j].id].item == MenuMark && e == node[p[j].id].visibility
  }

  function Deps(p: seq<Tree>, node: map<nat, MenuNode>): seq<Expr>
    requires p != [] && forall i :: 0 <= i < |p| ==> p[i].id in node
  {
    var n := |p| - 1;
    if n == 0 then [node[p[0].id].dep]
    else [node[p[n].id].dep] + Passed(node[p[n - 1].id].item, Deps(p[..n], node))
  }

  function Visible(p: seq<Tree>, node: map<nat, MenuNode>): seq<Expr>
    requires p != [] && forall i :: 0 <= i < |p| ==> p[i].id in node
  {
    var n := |p| - 1;
    if n == 0 then [] else Around(node[p[n - 1].id], Visible(p[..n], node))
  }

  lemma {:induction false} DepsAreWhatCounts(p: seq<Tree>, node: map<nat, MenuNode>, e: Expr)
    requires p != [] && forall i :: 0 <= i < |p| ==> p[i].id in node
    ensures e in Deps(p, node) <==> Counts(p, node, e)
    decreases |p|
  {
    var n := |p| - 1;
    if n == 0 {
      assert CountsAt(p, node, node[p[0].id].dep, 0);
    } else {
      var q, m := p[..n], node[p[n - 1].id];
      DepsAreWhatCounts(q, node, e);
      assert CountsAt(p, node, node[p[n].id].dep, n);
      if m.item.ChoiceItem? {
        assert CountsAt(p, node, Ref(C(m.item.choice)), n - 1);
      } else if e != node[p[n].id].dep {
        CountsAbove(p, node, e);
      }
    }
  }

  lemma CountsAbove(p: seq<Tree>, node: map<nat, MenuNode>, e: Expr)
    requires |p| > 1 && (forall i :: 0 <= i < |p| ==> p[i].id in node)
    requires !node[p[|p| - 2].id].item.ChoiceItem? && e != node[p[|p| - 1].id].dep
    ensures Counts(p[..|p| - 1], node, e) <==> Counts(p, node, e)
  {
    var n := |p| - 1;
    var q := p[..n];
    forall j | 0 <= j < n
      ensures CountsAt(q, node, e, j) <==> CountsAt(p, node, e, j)
    {
      assert forall i :: 0 <= i < n ==> q[i] == p[i];
    }
  }

  lemma {:induction false} VisibleIsWhatHides(p: seq<Tree>, node: map<nat, MenuNode>, e: Expr)
    requires p != [] && forall i :: 0 <= i < |p| ==> p[i].id in node
    ensures e in Visible(p, node) <==> Hides(p, node, e)
    decreases |p|
  {
    var n := |p| - 1;
    if n > 0 {
      var q := p[..n];
      assert forall i :: 0 <= i < n ==> q[i] == p[i];
      VisibleIsWhatHides(q, node, e);
    }
  }

  /** `Least` is a minimum: no greater than any, and equal to one (or y). */
  lemma {:induction false} LeastIsMinimum(es: seq<Expr>, v: Item -> Tri)
    ensures forall e :: e in es ==> Least(es, v) <= Value(e, v)
    ensures Least(es, v) == 2 || exists e :: e in es && Least(es, v) == Value(e, v)
  {
    if es != [] {
      LeastIsMinimum(es[1..], v);
      assert es == [es[0]] + es[1..];
      if Least(es, v) == Value(es[0], v) {
        assert es[0] in es;
      } else if Least(es[1..], v) != 2 {
        var e :| e in es[1..] && Least(es[1..], v) == Value(e, v);
        assert e in es;
      }
    }
  }

  lemma {:induction false} PathNodes(t: Tree, node: map<nat, MenuNode>, p: seq<Tree>, k: nat)
    requires TreeOk(t, node) && Path(t, p) && k < |p|
    ensures TreeOk(p[k], node)
  {
    hide Below, InTree;
    if k > 0 {
      PathNodes(t, node, p, k - 1);
    }
  }

  lemma {:induction false} DoneOnPath(t: Tree, node0: map<nat, MenuNode>, node: map<nat, MenuNode>, p: seq<Tree>)
    requires TreeOk(t, node0) && node.Keys == node0.Keys && Done(t, node0, node, [node0[t.id].dep], []) && Path(t, p)
    ensures forall i :: 0 <= i < |p| ==> TreeOk(p[i], node0) && p[i].id in node0
    ensures Done(p[|p| - 1], node0, node, Deps(p, node0), Visible(p, node0))
    ensures |p| > 1 ==> var last, up := p[|p| - 1].id, p[..|p| - 1];
      Right(node0[last], node[last], Passed(node0[p[|p| - 2].id].item, Deps(up, node0)), Visible(p, node0))
    decreases |p|
  {
    hide Right, Below, InTree;
    forall i | 0 <= i < |p|
      ensures TreeOk(p[i], node0) && p[i].id in node0
    {
      PathNodes(t, node0, p, i);
    }
    if |p| > 1 {
      var up := p[..|p| - 1];
      DoneOnPath(t, node0, node, up);
      assert up[|up| - 1] == p[|p| - 2] && p[|p| - 2 + 1] in p[|p| - 2].kids;
      var i :| 0 <= i < |up[|up| - 1].kids| && up[|up| - 1].kids[i] == p[|p| - 1];
    }
  }

  /** The final prompt condition of a symbol or choice, under every assignment: the least of
      its own condition, the `visible if`s around it, and the dependencies that count. */
  lemma PromptCondition(t: Tree, node0: map<nat, MenuNode>, node: map<nat, MenuNode>, p: seq<Tree>, v: Item -> Tri)
    requires TreeOk(t, node0) && node.Keys == node0.Keys && Done(t, node0, node, [node0[t.id].dep], [])
    requires Path(t, p) && |p| > 1 && (forall i :: 0 <= i < |p| ==> p[i].id in node0)
    requires node0[p[|p| - 1].id].prompt.Some? && IsSymbolOrChoice(node0[p[|p| - 1].id].item)
    ensures var n0, n := node0[p[|p| - 1].id], node[p[|p| - 1].id];
      n.prompt.Some? && Value(n.prompt.value, v) ==
        Min(Value(n0.prompt.value, v), Min(Least(Visible(p, node0), v), Least(Deps(p, node0), v)))
  {
    var n0, vis, deps := node0[p[|p| - 1].id], Visible(p, node0), Deps(p, node0);
    var own := n0.prompt.value;
    DoneOnPath(t, node0, node, p);
    hide Done, TreeOk, Path, Deps, Visible, Guarded;
    assert [own] + vis + [n0.dep] + Passed(node0[p[|p| - 2].id].item, Deps(p[..|p| - 1], node0)) == [own] + (vis + deps) by {
      DepsUnfold(p, node0);
    }
    LeastConcat([own], vis + deps, v);
    LeastConcat(vis, deps, v);
    MeansItself(own);
  }

  /** So under every assignment the prompt of a symbol is bounded by the mode of the innermost
      choice around it. */
  lemma ChoiceBoundsPrompt(t: Tree, node0: map<nat, MenuNode>, node: map<nat, MenuNode>, p: seq<Tree>, j: nat, v: Item -> Tri)
    requires TreeOk(t, node0) && node.Keys == node0.Keys && Done(t, node0, node, [node0[t.id].dep], [])
    requires Path(t, p) && j < |p| - 1 && (forall i :: 0 <= i < |p| ==> p[i].id in node0)
    requires node0[p[|p| - 1].id].prompt.Some? && IsSymbolOrChoice(node0[p[|p| - 1].id].item)
    requires node0[p[j].id].item.ChoiceItem? && forall i :: j < i < |p| - 1 ==> !node0[p[i].id].item.ChoiceItem?
    ensures var n := node[p[|p| - 1].id];
      n.prompt.Some? && Value(n.prompt.value, v) <= v(C(node0[p[j].id].item.choice))
  {
    hide TreeOk, Done, Path, Deps, Visible, Least;
    var mode := Ref(C(node0[p[j].id].item.choice));
    PromptCondition(t, node0, node, p, v);
    DepsAreWhatCounts(p, node0, mode);
    assert CountsAt(p, node0, mode, j);
    LeastIsMinimum(Deps(p, node0), v);
  }

  lemma DepsUnfold(p: seq<Tree>, node: map<nat, MenuNode>)
    requires |p| > 1 && forall i :: 0 <= i < |p| ==> p[i].id in node
    ensures Deps(p, node) == [node[p[|p| - 1].id].dep] + Passed(node[p[|p| - 2].id].item, Deps(p[..|p| - 1], node))
  {
  }

  // --------------------------------------------------- the steps of the method

  lemma PassedMeans(n: MenuNode, visibleIf: Expr, deps: seq<Expr>, vis: seq<Expr>)
    requires Means(n.dep, deps) && Means(visibleIf, vis)
    ensures Means(BaseDep(n), Passed(n.item, deps))
    ensures Means(if n.item == MenuMark then MakeAnd(visibleIf, n.visibility) else visibleIf, Around(n, vis))
  {
    hide Means, MakeAnd;
    MeansItself(BaseDep(n));
    MeansItself(n.visibility);
    MeansBoth(visibleIf, vis, n.visibility, [n.visibility]);
  }

  lemma FirstPushed(t: Tree, n0: map<nat, MenuNode>, n1: map<nat, MenuNode>, within: Expr, base: seq<Expr>, vis: seq<Expr>)
    requires TreeOk(t, n0) && n1 == PushedMap(n0, KidIds(t, |t.kids|), BaseDep(n0[t.id]), within)
    requires Means(BaseDep(n0[t.id]), base) && Means(within, vis)
    ensures DoneUpTo(t, n0, n1, 0, base, vis)
  {
    hide Means, Right, Pushed;
    KidsDiffer(t, n0);
    PushedItems(n0, KidIds(t, |t.kids|), BaseDep(n0[t.id]), within);
    forall i | 0 <= i < |t.kids|
      ensures Right(n0[t.kids[i].id], n1[t.kids[i].id], base, vis)
    {
      PushedIsRight(n0[t.kids[i].id], BaseDep(n0[t.id]), within, base, vis);
    }
    forall i, id | 0 <= i < |t.kids| && Below(t.kids[i], id) && id in n0
      ensures n1[id] == n0[id]
    {
      BelowIsNoKid(t, n0, i, id);
    }
    forall id | id in n0 && !Below(t, id)
      ensures n1[id] == n0[id]
    {
      forall i | 0 <= i < |t.kids|
        ensures t.kids[i].id != id
      {
        assert InTree(t.kids[i], t.kids[i].id);
      }
    }
  }

  lemma BelowIsNoKid(t: Tree, n0: map<nat, MenuNode>, i: nat, id: nat)
    requires TreeOk(t, n0) && i < |t.kids| && Below(t.kids[i], id)
    ensures forall j :: 0 <= j < |t.kids| ==> t.kids[j].id != id
  {
    assert TreeOk(t.kids[i], n0) && InTree(t.kids[i], id);
    forall j | 0 <= j < |t.kids| && t.kids[j].id == id
      ensures false
    {
      assert InTree(t.kids[j], id);
    }
  }

  lemma ReadyFor(t: Tree, n0: map<nat, MenuNode>, n: map<nat, MenuNode>, k: nat, base: seq<Expr>, vis: seq<Expr>)
    requires TreeOk(t, n0) && k < |t.kids| && DoneUpTo(t, n0, n, k, base, vis)
    ensures TreeOk(t.kids[k], n) && t.kids[k].id in n0 && Means(n[t.kids[k].id].dep, [n0[t.kids[k].id].dep] + base)
  {
    hide Means, Done, Guarded;
    assert TreeOk(t.kids[k], n0);
    TreeOkFrame(t.kids[k], n0, n);
  }

  lemma DoneOneMore(t: Tree, n0: map<nat, MenuNode>, n1: map<nat, MenuNode>, n2: map<nat, MenuNode>, k: nat, base: seq<Expr>, vis: seq<Expr>)
    requires TreeOk(t, n0) && k < |t.kids| && DoneUpTo(t, n0, n1, k, base, vis)
    requires SameItems(n1, n2) && TreeOk(t.kids[k], n1) && t.kids[k].id in n0
    requires Done(t.kids[k], n1, n2, [n0[t.kids[k].id].dep] + base, vis)
    requires forall id :: id in n2 && !Below(t.kids[k], id) ==> n2[id] == n1[id]
    ensures DoneUpTo(t, n0, n2, k + 1, base, vis)
  {
    hide TreeOk, Right, Done, Below, InTree;
    TreeOkKids(t, n0);
    DoneFrame(t.kids[k], n1, n2, n0, n2, [n0[t.kids[k].id].dep] + base, vis);
    forall i | 0 <= i < |t.kids|
      ensures n2[t.kids[i].id] == n1[t.kids[i].id]
      ensures i < k ==> Done(t.kids[i], n0, n2, [n0[t.kids[i].id].dep] + base, vis)
      ensures i > k ==> forall id :: Below(t.kids[i], id) && id in n0 ==> n2[id] == n0[id]
    {
      Apart(t, n0, k, i);
      if i < k {
        DoneFrame(t.kids[i], n0, n1, n0, n2, [n0[t.kids[i].id].dep] + base, vis);
      }
    }
    forall id | id in n0 && !Below(t, id)
      ensures n2[id] == n0[id]
    {
      BelowKid(t, k, id);
    }
  }

  lemma TreeOkKids(t: Tree, n0: map<nat, MenuNode>)
    requires TreeOk(t, n0)
    ensures forall i :: 0 <= i < |t.kids| ==> TreeOk(t.kids[i], n0) && t.kids[i].id in n0
  {
  }

  lemma BelowKid(t: Tree, k: nat, id: nat)
    requires k < |t.kids|
    ensures Below(t.kids[k], id) ==> Below(t, id)
  {
    assert Below(t.kids[k], id) ==> InTree(t.kids[k], id);
  }

  lemma Apart(t: Tree, n0: map<nat, MenuNode>, k: nat, i: nat)
    requires TreeOk(t, n0) && k < |t.kids| && i < |t.kids|
    ensures !Below(t.kids[k], t.kids[i].id)
    ensures i != k ==> forall id :: Below(t.kids[i], id) ==> !Below(t.kids[k], id)
  {
    assert TreeOk(t.kids[k], n0);
    assert InTree(t.kids[i], t.kids[i].id);
    forall id | Below(t.kids[k], id)
      ensures InTree(t.kids[k], id)
    {
    }
  }

  lemma PushedItems(a: map<nat, MenuNode>, done: set<nat>, basedep: Expr, visibleIf: Expr)
    ensures SameItems(a, PushedMap(a, done, basedep, visibleIf))
  {
    hide MakeAnd, Guard, Pushed;
    forall id | id in a
      ensures Pushed(a[id], basedep, visibleIf).item == a[id].item && Pushed(a[id], basedep, visibleIf).visibility == a[id].visibility
    {
      PushedItem(a[id], basedep, visibleIf);
    }
  }

  lemma PushedItem(n: MenuNode, basedep: Expr, visibleIf: Expr)
    ensures Pushed(n, basedep, visibleIf).item == n.item && Pushed(n, basedep, visibleIf).visibility == n.visibility
  {
    hide MakeAnd, Guard;
  }

  lemma KidsDiffer(t: Tree, node: map<nat, MenuNode>)
    requires TreeOk(t, node)
    ensures forall i :: 0 <= i < |t.kids| ==> t.kids[i].id in node && t.kids[i].id != t.id
    ensures forall i, j :: 0 <= i < j < |t.kids| ==> t.kids[i].id != t.kids[j].id
  {
    forall i | 0 <= i < |t.kids|
      ensures t.kids[i].id in node && t.kids[i].id != t.id
    {
      assert TreeOk(t.kids[i], node);
      assert InTree(t.kids[i], t.kids[i].id) && Below(t, t.kids[i].id);
    }
    forall i, j | 0 <= i < j < |t.kids|
      ensures t.kids[i].id != t.kids[j].id
    {
      assert InTree(t.kids[i], t.kids[i].id) && InTree(t.kids[j], t.kids[j].id);
    }
  }
}
