/** In-place surgery on the linked menu tree: promptless nodes are spliced up, `if` nodes
    dropped, siblings that depend on a symbol made its children, and an iterator walks the
    result. */
module KconfigMenu {
  import opened Options
  import opened KconfigShape
  import opened KconfigLinks
  import opened KconfigFinish

  class Menu {
    const p: Rules
    var m: Links

    constructor (m: Links, p: Rules)
      ensures this.m == m && this.p == p
    {
      this.m, this.p := m, p;
    }

    /** The inner loop of `_flatten`: the children get their grandparent as parent. */
    method Adopt(node: nat, ghost kids: seq<Tree>) returns (last: nat)
      requires kids != [] && Linked(m, kids, List(m, node), Some(node), None)
      requires NoDup(Preorder(kids)) && node !in Preorder(kids)
      modifies this
      ensures Linked(m, kids, List(old(m), node), Parent(old(m), node), None)
      ensures last == kids[|kids| - 1].id && Elsewhere(old(m), m, Preorder(kids))
    {
      hide Linked, NoDup, Preorder, Elsewhere, Next, List, Parent, SetParent;
      ghost var m0, up, head := m, Parent(m, node), List(m, node);
      LinkedHead(m, kids, head, Some(node), None);
      last := List(m, node).value;
      ghost var a: seq<Tree>, b: seq<Tree> := [], kids;
      assert a + b == kids;
      LinkedNone(m, head, up);
      FlattenStart(m, kids, head, up, p.splice);
      while true
        invariant kids == a + b && b != [] && last == b[0].id
        invariant Linked(m, a, head, up, Some(last)) && Linked(m, b, Some(last), Some(node), None)
        invariant Elsewhere(m0, m, Preorder(kids))
        decreases |b|
      {
        AdoptOne(m, a, b, head, up, Some(node));
        ElsewhereAt(m0, m, Preorder(kids), node);
        ghost var m1 := m;
        m := SetParent(m, last, Parent(m, node));
        ElsewhereMore(m0, m1, m, Preorder(kids), Preorder(kids));
        LinkedHead(m, b[1..], Next(m, last), Some(node), None);
        assert a + b == a + [b[0]] + b[1..];
        a, b := a + [b[0]], b[1..];
        if Next(m, last).None? {
          assert a == kids;
          return;
        }
        last := Next(m, last).value;
      }
    }

    /** `_flatten` on a list of siblings. */
    method Flatten(head: Option<nat>, ghost ts: seq<Tree>, ghost up: Option<nat>)
      requires Linked(m, ts, head, up, None) && NoDup(Preorder(ts))
      modifies this
      ensures Linked(m, Flat(ts, p.splice), head, up, None)
      ensures Elsewhere(old(m), m, Preorder(ts))
    {
      hide Linked, NoDup, Elsewhere, Preorder, Flat, Next, List, Parent, SetNext, SetList;
      var node := head;
      ghost var d: seq<Tree>, r: seq<Tree> := [], ts;
      ghost var m0 := m;
      FlattenStart(m, ts, head, up, p.splice);
      while node.Some?
        invariant Linked(m, d, head, up, node) && Linked(m, r, node, up, None)
        invariant Preorder(d + r) == Preorder(ts) && d + Flat(r, p.splice) == Flat(ts, p.splice)
        invariant Elsewhere(m0, m, Preorder(ts))
        decreases |Preorder(r)|
      {
        LinkedHead(m, r, node, up, None);
        ghost var m1, t := m, r[0];
        LinkedFirst(m, r, node, up, None);
        AheadOf(m, d, r);
        if List(m, node.value).Some? && p.splice(node.value) {
          var last := Adopt(node.value, t.kids);
          Spliced(m1, m, d, r, head, up);
          ElsewhereAt(m1, m, Preorder(t.kids), node.value);
          WriteElsewhere(m, last, Next(m, node.value));
          NextUnaffected(m, last, Next(m, node.value), node.value);
          m := SetNext(m, last, Next(m, node.value));
          m := SetNext(m, node.value, List(m, node.value));
          m := SetList(m, node.value, None);
          ElsewhereMore(m0, m1, m, Preorder(ts), Preorder(ts));
          FlatSplice(d, r, p.splice);
          d, r := d + [Tree(t.id, [])], t.kids + r[1..];
        } else {
          PassOne(m, d, r, head, up);
          FlatPass(d, r, p.splice);
          d, r := d + [t], r[1..];
        }
        node := Next(m, node.value);
      }
      LinkedHead(m, r, node, up, None);
      FlattenEnd(d, p.splice);
    }

    /** The inner loops of `_remove_ifs`: on to the next node that is no `if`. */
    method SkipIfs(start: Option<nat>, ghost r: seq<Tree>, ghost up: Option<nat>) returns (cur: Option<nat>, ghost k: nat)
      requires Linked(m, r, start, up, None)
      ensures k <= |r| && Linked(m, r[k..], cur, up, None) && Kept(r[k..], p.isIf) == Kept(r, p.isIf)
      ensures k < |r| ==> !p.isIf(r[k].id)
    {
      cur, k := start, 0;
      while cur.Some? && p.isIf(cur.value)
        invariant k <= |r| && Linked(m, r[k..], cur, up, None) && Kept(r[k..], p.isIf) == Kept(r, p.isIf)
        decreases |r| - k
      {
        LinkedHead(m, r[k..], cur, up, None);
        assert r[k..][1..] == r[k + 1..];
        cur, k := Next(m, cur.value), k + 1;
      }
      LinkedHead(m, r[k..], cur, up, None);
    }

    /** `_remove_ifs` on the children of a node. */
    method RemoveIfs(node: nat, ghost kids: seq<Tree>)
      requires Linked(m, kids, List(m, node), Some(node), None) && NoDup(Preorder(kids)) && node !in Preorder(kids)
      modifies this
      ensures Linked(m, Kept(kids, p.isIf), List(m, node), Some(node), None)
      ensures Elsewhere(old(m), m, [node] + Preorder(kids))
      ensures Next(m, node) == Next(old(m), node) && Parent(m, node) == Parent(old(m), node)
    {
      hide Linked, NoDup, Elsewhere, Preorder, Kept, Next, List, Parent, SetNext, SetList;
      ghost var m0, up, all := m, Some(node), [node] + Preorder(kids);
      var cur, k := SkipIfs(List(m, node), kids, up);
      ghost var d: seq<Tree>, r: seq<Tree> := [], kids[k..];
      assert [] + kids == kids;
      Shorter([], kids, k);
      WriteElsewhere(m, node, cur);
      m := SetList(m, node, cur);
      ElsewhereFrame(m0, m, [node], r, cur, up, None);
      ghost var head := cur;
      LinkedNone(m, head, up);
      ElsewhereWider(m0, m, [node], all);
      KeptStart(kids, k, p.isIf);
      while cur.Some?
        invariant Linked(m, d, head, up, cur) && Linked(m, r, cur, up, None) && List(m, node) == head
        invariant r != [] ==> !p.isIf(r[0].id)
        invariant d + Kept(r, p.isIf) == Kept(kids, p.isIf)
        invariant NoDup(Preorder(d + r)) && forall x :: x in Preorder(d + r) ==> x in Preorder(kids)
        invariant Elsewhere(m0, m, all) && Next(m, node) == Next(m0, node) && Parent(m, node) == Parent(m0, node)
        decreases |r|
      {
        LinkedHead(m, r, cur, up, None);
        LinkedFirst(m, r, cur, up, None);
        var next, j := SkipIfs(Next(m, cur.value), r[1..], up);
        KeptOne(d, r, j, p.isIf);
        CursorInside(d, r);
        Shorter(d + [r[0]], r[1..], j);
        Bridge(m, d, r, j, head, up, next);
        WriteElsewhere(m, cur.value, next);
        ElsewhereAt(m, SetNext(m, cur.value, next), [cur.value], node);
        ElsewhereMore(m0, m, SetNext(m, cur.value, next), all, [cur.value]);
        m := SetNext(m, cur.value, next);
        d, r := d + [r[0]], r[1..][j..];
        cur := next;
      }
      LinkedHead(m, r, cur, up, None);
      KeptEnd(d, p.isIf);
    }

    /** `_finalize_node`, as far as the shape of the tree goes: a symbol first takes the
        siblings that depend on it, anything else finishes its children; then `_flatten`
        and `_remove_ifs`. */
    method FinishNode(node: nat, ghost r: seq<Tree>, ghost up: Option<nat>)
      requires r != [] && r[0].id == node && Linked(m, r, Some(node), up, None)
      requires NoDup(Preorder(r)) && Leafy(r, p) && RulesOk(p)
      modifies this
      ensures var f := KconfigShape.FinishNode(r, p); Linked(m, [f.t] + f.rest, Some(node), up, None)
      ensures Elsewhere(old(m), m, Preorder(r))
      decreases |Preorder(r)|, 1
    {
      hide Linked, NoDup, Elsewhere, Preorder, Next, List, Parent, Flat, Kept, Leafy, Absorb, FinishAll, NoMore;
      ghost var m0 := m;
      ghost var kids, rest := OpenedKids(r, p), OpenedRest(r, p);
      OpenedIs(r, p);
      if p.isSym(node) {
        AbsorbSiblings(node, r, up);
      } else {
        LinkedFirst(m, r, Some(node), up, None);
        FinishKids(node, r[0].kids);
        KidsFinished(m0, m, r, up);
      }
      ghost var m1 := m;
      OpenedSplit(r, kids, rest, node);
      if List(m, node).Some? {
        Flatten(List(m, node), kids, Some(node));
        FlatKeepsOrder(kids, p.splice);
        ElsewhereAt(m1, m, Preorder(kids), node);
        ghost var m2 := m;
        RemoveIfs(node, Flat(kids, p.splice));
        Tidied(m0, m1, m2, m, r, kids, rest, node, up, p);
      } else {
        Childless(m, node, kids);
        NothingToTidy(m, r, rest, node, up, p);
      }
    }

    /** The symbol branch: siblings that depend on the node become its children. */
    method AbsorbSiblings(node: nat, ghost r: seq<Tree>, ghost up: Option<nat>)
      requires r != [] && r[0].id == node && p.isSym(node) && Linked(m, r, Some(node), up, None)
      requires NoDup(Preorder(r)) && Leafy(r, p) && RulesOk(p)
      modifies this
      ensures var a := Absorb(node, r[1..], p);
        && Linked(m, a.kids, List(m, node), Some(node), None) && Parent(m, node) == up && Linked(m, a.rest, Next(m, node), up, None)
      ensures Elsewhere(old(m), m, Preorder(r))
      decreases |Preorder(r)|, 0
    {
      hide Linked, NoDup, Elsewhere, Preorder, Next, List, Parent, Leafy, Absorb, SetList, SetNext, SetParent, NoMore;
      ghost var m0, kids, rest := m, [], r[1..];
      AbsorbStart(m, r, up, p);
      var cur := node;
      while Next(m, cur).Some? && p.under(node, Next(m, cur).value)
        invariant Absorbing(m0, m, r, kids, rest, cur, node, up, p)
        decreases |rest|
      {
        var next := Next(m, cur).value;
        AbsorbNext(m0, m, r, kids, rest, cur, node, up, p);
        ghost var m1 := m;
        FinishNode(next, rest, up);
        AbsorbOne(m0, m1, m, r, kids, rest, cur, node, up, p);
        cur := next;
        m := SetParent(m, cur, Some(node));
        ghost var f := KconfigShape.FinishNode(rest, p);
        kids, rest := kids + [f.t], f.rest;
      }
      AbsorbEnd(m0, m, r, kids, rest, cur, node, up, p);
      if cur == node {
        NoneTaken(m0, m, r, kids, rest, node, up, p);
      } else {
        SomeTaken(m0, m, r, kids, rest, cur, node, up, p);
        m := SetList(m, node, Next(m, node));
        m := SetNext(m, node, Next(m, cur));
        m := SetNext(m, cur, None);
      }
    }

    /** The other branch: the children, one after the other. */
    method FinishKids(node: nat, ghost ts: seq<Tree>)
      requires Linked(m, ts, List(m, node), Some(node), None)
      requires NoDup(Preorder(ts)) && Leafy(ts, p) && RulesOk(p) && node !in Preorder(ts)
      modifies this
      ensures Linked(m, FinishAll(ts, p), List(old(m), node), Some(node), None)
      ensures Elsewhere(old(m), m, Preorder(ts))
      decreases |Preorder(ts)|, 2
    {
      hide Linked, NoDup, Elsewhere, Preorder, Next, List, Parent, Leafy, FinishAll, NoMore;
      ghost var m0, head, d, rest := m, List(m, node), [], ts;
      var cur := List(m, node);
      KidsStart(m, ts, head, Some(node), p);
      while cur.Some?
        invariant Finishing(m0, m, ts, d, rest, head, cur, Some(node), p)
        decreases |rest|
      {
        KidsNext(m0, m, ts, d, rest, head, cur, Some(node), p);
        ghost var m1 := m;
        FinishNode(cur.value, rest, Some(node));
        KidsOne(m0, m1, m, ts, d, rest, head, cur, Some(node), p);
        ghost var f := KconfigShape.FinishNode(rest, p);
        d, rest := d + [f.t], f.rest;
        cur := Next(m, cur.value);
      }
      KidsEnd(m0, m, ts, d, rest, head, Some(node), p);
    }

    /** Finishing the tree and walking it gives the nodes of the original tree that are no
        `if`, in their original order. */
    method FinishAndIterate(top: nat, ghost kids: seq<Tree>) returns (out: seq<nat>)
      requires Linked(m, [Tree(top, kids)], Some(top), None, None) && NoDup(Preorder([Tree(top, kids)]))
      requires !p.isSym(top) && Leafy(kids, p) && RulesOk(p)
      modifies this
      ensures out == Filter(Preorder(kids), p.isIf)
    {
      hide Linked, NoDup, Elsewhere, Preorder, Next, List, Parent, Filter, Leafy;
      TopIs(top, kids, p);
      FinishNode(top, [Tree(top, kids)], None);
      ghost var f := KconfigShape.FinishNode([Tree(top, kids)], p);
      TopFinished(m, top, kids, p);
      out := NodeIter(top, f.t.kids);
    }

    /** `node_iter`: the nodes below `top`, in the order in which they are yielded. */
    method NodeIter(top: nat, ghost kids: seq<Tree>) returns (out: seq<nat>)
      requires Linked(m, kids, List(m, top), Some(top), None) && Parent(m, top) == None && Next(m, top) == None
      ensures out == Preorder(kids)
    {
      hide Linked, Standing, Preorder, Pending;
      out := [];
      var node := top;
      ghost var below: seq<Tree> := kids;
      ghost var right: seq<seq<Tree>> := [];
      ghost var ups: seq<nat> := [];
      StandingTop(m, top);
      while true
        invariant Linked(m, below, List(m, node), Some(node), None) && Standing(m, node, right, ups)
        invariant out + (Preorder(below) + Pending(right)) == Preorder(kids)
        decreases |Preorder(below) + Pending(right)|
      {
        if List(m, node).Some? {
          StepDown(m, node, below, right, ups);
          right, ups := [below[1..]] + right, [node] + ups;
          node := List(m, node).value;
          Visit(out, node, Preorder(below[0].kids), Pending(right));
          below := below[0].kids;
        } else {
          Childless(m, node, below);
          while Next(m, node).None?
            invariant Standing(m, node, right, ups)
            invariant out + Pending(right) == Preorder(kids) && |Pending(right)| <= |Preorder(below) + Pending(right)|
            decreases |ups|
          {
            StepUp(m, node, right, ups);
            if Parent(m, node).None? {
              PendingNone();
              return;
            }
            right, ups := right[1..], ups[1..];
            node := Parent(m, node).value;
          }
          StepRight(m, node, right, ups);
          node := Next(m, node).value;
          below, right := right[0][0].kids, [right[0][1..]] + right[1..];
          Visit(out, node, Preorder(below), Pending(right));
        }
        out := out + [node];
      }
    }
  }

}
