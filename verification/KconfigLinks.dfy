/** The menu tree as linked nodes: what it means that next, list and parent pointers spell
    out a tree, which writes leave it alone, and how an iterator walks it. */
module KconfigLinks {
  import opened Options
  import opened KconfigShape

  /** The pointers of the nodes. */
  datatype Links = Links(next: map<nat, Option<nat>>, list: map<nat, Option<nat>>, parent: map<nat, Option<nat>>)

  function Next(m: Links, id: nat): Option<nat> { if id in m.next then m.next[id] else None }
  function List(m: Links, id: nat): Option<nat> { if id in m.list then m.list[id] else None }
  function Parent(m: Links, id: nat): Option<nat> { if id in m.parent then m.parent[id] else None }

  function HeadOr(ts: seq<Tree>, tail: Option<nat>): Option<nat> { if ts == [] then tail else Some(ts[0].id) }

  /** From `head`, the pointers spell out the trees `ts` as children of `up`, and the last
      of them points on to `tail`. */
  ghost predicate Linked(m: Links, ts: seq<Tree>, head: Option<nat>, up: Option<nat>, tail: Option<nat>) {
    if ts == [] then head == tail
    else
      && head == Some(ts[0].id) && Parent(m, ts[0].id) == up
      && Linked(m, ts[0].kids, List(m, ts[0].id), Some(ts[0].id), None)
      && Linked(m, ts[1..], Next(m, ts[0].id), up, tail)
  }

  lemma LinkedHead(m: Links, ts: seq<Tree>, head: Option<nat>, up: Option<nat>, tail: Option<nat>)
    requires Linked(m, ts, head, up, tail)
    ensures head == HeadOr(ts, tail)
  {
  }

  lemma LinkedNone(m: Links, head: Option<nat>, up: Option<nat>)
    ensures Linked(m, [], head, up, head)
  {
  }

  lemma LinkedFirst(m: Links, ts: seq<Tree>, head: Option<nat>, up: Option<nat>, tail: Option<nat>)
    requires ts != [] && Linked(m, ts, head, up, tail)
    ensures head == Some(ts[0].id) && Parent(m, ts[0].id) == up
    ensures Linked(m, ts[0].kids, List(m, ts[0].id), Some(ts[0].id), None)
    ensures Linked(m, ts[1..], Next(m, ts[0].id), up, tail)
  {
  }

  lemma SingleLinked(m: Links, t: Tree, up: Option<nat>)
    requires Parent(m, t.id) == up && Linked(m, t.kids, List(m, t.id), Some(t.id), None)
    ensures Linked(m, [t], Some(t.id), up, Next(m, t.id))
  {
    assert [t][1..] == [];
  }

  lemma {:induction false} LinkedConcat(m: Links, a: seq<Tree>, b: seq<Tree>, head: Option<nat>, up: Option<nat>, tail: Option<nat>)
    ensures Linked(m, a + b, head, up, tail) <==> Linked(m, a, head, up, HeadOr(b, tail)) && Linked(m, b, HeadOr(b, tail), up, tail)
    decreases a
  {
    if a == [] {
      assert a + b == b;
      if Linked(m, b, head, up, tail) {
        LinkedHead(m, b, head, up, tail);
      }
    } else {
      assert (a + b)[0] == a[0] && (a + b)[1..] == a[1..] + b;
      LinkedConcat(m, a[1..], b, Next(m, a[0].id), up, tail);
    }
  }

  // -------------------------------------------------------------- single writes

  /** Only the nodes of the trees themselves matter. */
  ghost predicate SameAt(m: Links, m': Links, id: nat) {
    Next(m, id) == Next(m', id) && List(m, id) == List(m', id) && Parent(m, id) == Parent(m', id)
  }

  lemma {:induction false} LinkedFrame(m: Links, m': Links, ts: seq<Tree>, head: Option<nat>, up: Option<nat>, tail: Option<nat>)
    requires Linked(m, ts, head, up, tail) && forall id :: id in Preorder(ts) ==> SameAt(m, m', id)
    ensures Linked(m', ts, head, up, tail)
    decreases ts
  {
    hide SameAt;
    if ts != [] {
      assert forall id :: id in Preorder(ts[0].kids) ==> id in Preorder(ts);
      assert forall id :: id in Preorder(ts[1..]) ==> id in Preorder(ts);
      LinkedFrame(m, m', ts[0].kids, List(m, ts[0].id), Some(ts[0].id), None);
      LinkedFrame(m, m', ts[1..], Next(m, ts[0].id), up, tail);
      assert ts[0].id in Preorder(ts);
      SameMeans(m, m', ts[0].id);
    }
  }

  lemma SameMeans(m: Links, m': Links, id: nat)
    requires SameAt(m, m', id)
    ensures Next(m, id) == Next(m', id) && List(m, id) == List(m', id) && Parent(m, id) == Parent(m', id)
  {
  }

  function SetNext(m: Links, id: nat, x: Option<nat>): Links { m.(next := m.next[id := x]) }
  function SetList(m: Links, id: nat, x: Option<nat>): Links { m.(list := m.list[id := x]) }
  function SetParent(m: Links, id: nat, x: Option<nat>): Links { m.(parent := m.parent[id := x]) }

  /** The pointers agree except at the given nodes. */
  ghost predicate Elsewhere(m: Links, m': Links, ids: seq<nat>) {
    forall id :: id !in ids ==> SameAt(m, m', id)
  }

  lemma ElsewhereFrame(m: Links, m': Links, ids: seq<nat>, ts: seq<Tree>, head: Option<nat>, up: Option<nat>, tail: Option<nat>)
    requires Linked(m, ts, head, up, tail) && Elsewhere(m, m', ids) && forall x :: x in Preorder(ts) ==> x !in ids
    ensures Linked(m', ts, head, up, tail)
  {
    hide SameAt, Linked;
    LinkedFrame(m, m', ts, head, up, tail);
  }

  lemma ElsewhereMore(m: Links, m': Links, m'': Links, ids: seq<nat>, ids': seq<nat>)
    requires Elsewhere(m, m', ids) && Elsewhere(m', m'', ids') && forall x :: x in ids' ==> x in ids
    ensures Elsewhere(m, m'', ids)
  {
  }

  lemma ElsewhereWider(m: Links, m': Links, ids: seq<nat>, all: seq<nat>)
    requires Elsewhere(m, m', ids) && forall x :: x in ids ==> x in all
    ensures Elsewhere(m, m', all)
  {
  }

  lemma ElsewhereAt(m: Links, m': Links, ids: seq<nat>, id: nat)
    requires Elsewhere(m, m', ids) && id !in ids
    ensures Next(m, id) == Next(m', id) && List(m, id) == List(m', id) && Parent(m, id) == Parent(m', id)
  {
  }

  lemma WriteElsewhere(m: Links, id: nat, x: Option<nat>)
    ensures Elsewhere(m, SetNext(m, id, x), [id]) && Elsewhere(m, SetList(m, id, x), [id]) && Elsewhere(m, SetParent(m, id, x), [id])
    ensures Next(SetNext(m, id, x), id) == x && List(SetNext(m, id, x), id) == List(m, id) && Parent(SetNext(m, id, x), id) == Parent(m, id)
    ensures List(SetList(m, id, x), id) == x && Next(SetList(m, id, x), id) == Next(m, id) && Parent(SetList(m, id, x), id) == Parent(m, id)
    ensures Parent(SetParent(m, id, x), id) == x && Next(SetParent(m, id, x), id) == Next(m, id) && List(SetParent(m, id, x), id) == List(m, id)
  {
  }

  lemma NextUnaffected(m: Links, last: nat, x: Option<nat>, id: nat)
    ensures List(SetNext(m, last, x), id) == List(m, id)
  {
  }

  /** Redirecting the last node of a list. */
  lemma {:induction false} Relast(m: Links, ts: seq<Tree>, head: Option<nat>, up: Option<nat>, tail: Option<nat>, tail': Option<nat>)
    requires ts != [] && Linked(m, ts, head, up, tail) && NoDup(Preorder(ts))
    ensures Linked(SetNext(m, ts[|ts| - 1].id, tail'), ts, head, up, tail')
    decreases ts
  {
    var t, last := ts[0], ts[|ts| - 1].id;
    var m' := SetNext(m, last, tail');
    ForestSplit(ts);
    WriteElsewhere(m, last, tail');
    if |ts| == 1 {
      ElsewhereFrame(m, m', [last], t.kids, List(m, t.id), Some(t.id), None);
    } else {
      LastIsInside(ts[1..]);
      assert last in Preorder(ts[1..]);
      ElsewhereFrame(m, m', [last], t.kids, List(m, t.id), Some(t.id), None);
      SameMeans(m, m', t.id);
      Relast(m, ts[1..], Next(m, t.id), up, tail, tail');
    }
  }

  // ------------------------------------------------------------------ flatten

  /** One node changes parents. */
  lemma AdoptOne(m: Links, a: seq<Tree>, b: seq<Tree>, head: Option<nat>, up: Option<nat>, was: Option<nat>)
    requires b != [] && NoDup(Preorder(a + b))
    requires Linked(m, a, head, up, Some(b[0].id)) && Linked(m, b, Some(b[0].id), was, None)
    ensures var m' := SetParent(m, b[0].id, up);
      && Linked(m', a + [b[0]], head, up, Next(m, b[0].id)) && Linked(m', b[1..], Next(m, b[0].id), was, None)
      && Elsewhere(m, m', Preorder(a + b)) && Next(m', b[0].id) == Next(m, b[0].id)
  {
    var t := b[0];
    var m' := SetParent(m, t.id, up);
    ForestApart(a, b);
    FirstInside(b);
    ForestSplit(b);
    WriteElsewhere(m, t.id, up);
    hide NoDup;
    ElsewhereFrame(m, m', [t.id], a, head, up, Some(t.id));
    ElsewhereFrame(m, m', [t.id], t.kids, List(m, t.id), Some(t.id), None);
    ElsewhereFrame(m, m', [t.id], b[1..], Next(m, t.id), was, None);
    SingleLinked(m', t, up);
    LinkedConcat(m', a, [t], head, up, Next(m, t.id));
    assert Elsewhere(m, m', Preorder(a + b));
  }

  /** The children, adopted in `m1`, take the place after the node they came from. */
  lemma Spliced(m: Links, m1: Links, d: seq<Tree>, r: seq<Tree>, head: Option<nat>, up: Option<nat>)
    requires r != [] && r[0].kids != [] && NoDup(Preorder(d + r))
    requires Linked(m, d, head, up, Some(r[0].id)) && Linked(m, r, Some(r[0].id), up, None)
    requires Elsewhere(m, m1, Preorder(r[0].kids)) && Linked(m1, r[0].kids, List(m, r[0].id), up, None)
    ensures var t := r[0];
      var m2 := SetNext(m1, t.kids[|t.kids| - 1].id, Next(m, t.id));
      var m4 := SetList(SetNext(m2, t.id, List(m, t.id)), t.id, None);
      && Linked(m4, d + [Tree(t.id, [])], head, up, List(m, t.id)) && Linked(m4, t.kids + r[1..], List(m, t.id), up, None)
      && Elsewhere(m, m4, Preorder(d + r)) && Next(m4, t.id) == List(m, t.id)
  {
    hide Linked, NoDup, Elsewhere, Preorder, Next, List, Parent, SetNext, SetList;
    var t, kids, rest := r[0], r[0].kids, r[1..];
    var last := kids[|kids| - 1].id;
    var m2 := SetNext(m1, last, Next(m, t.id));
    var m3 := SetNext(m2, t.id, List(m, t.id));
    var m4 := SetList(m3, t.id, None);
    LinkedFirst(m, r, Some(t.id), up, None);
    ForestApart(d, r);
    ForestSplit(r);
    LastIsInside(kids);
    WriteElsewhere(m1, last, Next(m, t.id));
    WriteElsewhere(m2, t.id, List(m, t.id));
    WriteElsewhere(m3, t.id, None);
    LinkedHead(m, rest, Next(m, t.id), up, None);
    LinkedHead(m, kids, List(m, t.id), Some(t.id), None);
    Relast(m1, kids, List(m, t.id), up, None, Next(m, t.id));
    ElsewhereMore(m2, m3, m4, [t.id], [t.id]);
    ElsewhereMore(m, m1, m2, Preorder(kids), [last]);
    SpliceFrame(m, m2, m4, d, r, head, up);
    LinkedNone(m4, None, Some(t.id));
    SingleLinked(m4, Tree(t.id, []), up);
    LinkedConcat(m4, d, [Tree(t.id, [])], head, up, List(m, t.id));
    LinkedConcat(m4, kids, rest, List(m, t.id), up, None);
  }

  /** What the splice leaves alone. */
  lemma SpliceFrame(m: Links, m2: Links, m4: Links, d: seq<Tree>, r: seq<Tree>, head: Option<nat>, up: Option<nat>)
    requires r != [] && r[0].kids != [] && NoDup(Preorder(d + r))
    requires Elsewhere(m, m2, Preorder(r[0].kids)) && Elsewhere(m2, m4, [r[0].id])
    requires Linked(m, d, head, up, Some(r[0].id)) && Linked(m, r[1..], Next(m, r[0].id), up, None)
    requires Linked(m2, r[0].kids, List(m, r[0].id), up, Next(m, r[0].id))
    ensures Linked(m4, d, head, up, Some(r[0].id)) && Linked(m4, r[1..], Next(m, r[0].id), up, None)
    ensures Linked(m4, r[0].kids, List(m, r[0].id), up, Next(m, r[0].id))
    ensures Elsewhere(m, m4, Preorder(d + r))
    ensures Parent(m2, r[0].id) == Parent(m, r[0].id)
  {
    hide Linked;
    var t := r[0];
    ForestApart(d, r);
    FirstInside(r);
    ForestSplit(r);
    hide NoDup;
    ElsewhereFrame(m, m2, Preorder(t.kids), d, head, up, Some(t.id));
    ElsewhereFrame(m2, m4, [t.id], d, head, up, Some(t.id));
    ElsewhereFrame(m, m2, Preorder(t.kids), r[1..], Next(m, t.id), up, None);
    ElsewhereFrame(m2, m4, [t.id], r[1..], Next(m, t.id), up, None);
    ElsewhereFrame(m2, m4, [t.id], t.kids, List(m, t.id), up, Next(m, t.id));
    SameMeans(m, m2, t.id);
  }

  lemma FlattenStart(m: Links, ts: seq<Tree>, head: Option<nat>, up: Option<nat>, splice: nat -> bool)
    ensures Linked(m, [], head, up, head) && [] + ts == ts && [] + Flat(ts, splice) == Flat(ts, splice)
    ensures Elsewhere(m, m, Preorder(ts))
  {
  }

  /** The node at the cursor, its children and the pointers out of it. */
  lemma AheadOf(m: Links, d: seq<Tree>, r: seq<Tree>)
    requires r != [] && NoDup(Preorder(d + r)) && Linked(m, r, Some(r[0].id), Parent(m, r[0].id), None)
    ensures NoDup(Preorder(r[0].kids)) && r[0].id !in Preorder(r[0].kids)
    ensures Linked(m, r[0].kids, List(m, r[0].id), Some(r[0].id), None)
    ensures List(m, r[0].id).Some? <==> r[0].kids != []
  {
    ForestApart(d, r);
    ForestSplit(r);
    LinkedHead(m, r[0].kids, List(m, r[0].id), Some(r[0].id), None);
  }

  lemma PassOne(m: Links, d: seq<Tree>, r: seq<Tree>, head: Option<nat>, up: Option<nat>)
    requires r != [] && Linked(m, d, head, up, Some(r[0].id)) && Linked(m, r, Some(r[0].id), up, None)
    ensures Linked(m, d + [r[0]], head, up, Next(m, r[0].id)) && Linked(m, r[1..], Next(m, r[0].id), up, None)
  {
    SingleLinked(m, r[0], up);
    LinkedConcat(m, d, [r[0]], head, up, Next(m, r[0].id));
  }

  // ---------------------------------------------------------------- remove ifs

  /** The kept node is linked on to the next one that is kept. */
  lemma Bridge(m: Links, d: seq<Tree>, r: seq<Tree>, j: nat, head: Option<nat>, up: Option<nat>, next: Option<nat>)
    requires r != [] && j <= |r[1..]| && NoDup(Preorder(d + r))
    requires Linked(m, d, head, up, Some(r[0].id)) && Linked(m, r, Some(r[0].id), up, None) && Linked(m, r[1..][j..], next, up, None)
    ensures var m' := SetNext(m, r[0].id, next);
      Linked(m', d + [r[0]], head, up, next) && Linked(m', r[1..][j..], next, up, None)
  {
    hide Linked, NoDup, Elsewhere, Preorder, Next, List, Parent, SetNext;
    var t, rest := r[0], r[1..];
    var m' := SetNext(m, t.id, next);
    LinkedFirst(m, r, Some(t.id), up, None);
    ForestApart(d, r);
    CursorInside([], r);
    assert [] + r == r;
    ForestSplit(r);
    WriteElsewhere(m, t.id, next);
    ElsewhereFrame(m, m', [t.id], d, head, up, Some(t.id));
    ElsewhereFrame(m, m', [t.id], t.kids, List(m, t.id), Some(t.id), None);
    assert [] + rest == rest && [] + rest[j..] == rest[j..];
    Shorter([], rest, j);
    ElsewhereFrame(m, m', [t.id], rest[j..], next, up, None);
    SingleLinked(m', t, up);
    LinkedConcat(m', d, [t], head, up, next);
  }

  // ------------------------------------------------------------------ iterator

  /** The forest still to be visited once everything below the current node is done: the
      later siblings of the node, of its parent, and so on up. */
  ghost predicate Standing(m: Links, node: nat, right: seq<seq<Tree>>, ups: seq<nat>)
    decreases |ups|
  {
    && |right| == |ups|
    && (if ups == [] then Parent(m, node) == None && Next(m, node) == None
        else
          && Parent(m, node) == Some(ups[0])
          && Linked(m, right[0], Next(m, node), Some(ups[0]), None)
          && Standing(m, ups[0], right[1..], ups[1..]))
  }

  function Pending(right: seq<seq<Tree>>): seq<nat> {
    if right == [] then [] else Preorder(right[0]) + Pending(right[1..])
  }

  lemma StepDown(m: Links, node: nat, below: seq<Tree>, right: seq<seq<Tree>>, ups: seq<nat>)
    requires Linked(m, below, List(m, node), Some(node), None) && Standing(m, node, right, ups) && List(m, node).Some?
    ensures below != [] && List(m, node).value == below[0].id
    ensures Linked(m, below[0].kids, List(m, below[0].id), Some(below[0].id), None)
    ensures Standing(m, below[0].id, [below[1..]] + right, [node] + ups)
    ensures Preorder(below) + Pending(right) == [below[0].id] + Preorder(below[0].kids) + Pending([below[1..]] + right)
  {
    assert ([below[1..]] + right)[1..] == right && ([node] + ups)[1..] == ups;
    Associate([below[0].id] + Preorder(below[0].kids), Preorder(below[1..]), Pending(right));
  }

  lemma StepRight(m: Links, node: nat, right: seq<seq<Tree>>, ups: seq<nat>)
    requires Standing(m, node, right, ups) && Next(m, node).Some?
    ensures ups != [] && right[0] != [] && Next(m, node).value == right[0][0].id
    ensures var t := right[0][0]; var right' := [right[0][1..]] + right[1..];
      && Linked(m, t.kids, List(m, t.id), Some(t.id), None) && Standing(m, t.id, right', ups)
      && Pending(right) == [t.id] + Preorder(t.kids) + Pending(right')
  {
    var t, right' := right[0][0], [right[0][1..]] + right[1..];
    assert right'[1..] == right[1..];
    Associate([t.id] + Preorder(t.kids), Preorder(right[0][1..]), Pending(right[1..]));
  }

  lemma StepUp(m: Links, node: nat, right: seq<seq<Tree>>, ups: seq<nat>)
    requires Standing(m, node, right, ups) && Next(m, node).None?
    ensures Parent(m, node).None? ==> ups == [] && right == []
    ensures Parent(m, node).Some? ==> ups != [] && Parent(m, node) == Some(ups[0]) && Standing(m, ups[0], right[1..], ups[1..])
    ensures Parent(m, node).Some? ==> right != [] && Pending(right) == Pending(right[1..])
  {
    if ups != [] {
      LinkedHead(m, right[0], Next(m, node), Some(ups[0]), None);
    }
  }

  lemma StandingTop(m: Links, top: nat)
    requires Parent(m, top) == None && Next(m, top) == None
    ensures Standing(m, top, [], []) && Pending([]) == []
  {
  }

  lemma PendingNone()
    ensures Pending([]) == []
  {
  }

  lemma Childless(m: Links, node: nat, below: seq<Tree>)
    requires Linked(m, below, List(m, node), Some(node), None) && List(m, node).None?
    ensures below == [] && Preorder(below) == []
  {
    LinkedHead(m, below, List(m, node), Some(node), None);
  }

  lemma Visit(out: seq<nat>, node: nat, x: seq<nat>, y: seq<nat>)
    ensures out + ([node] + x + y) == out + [node] + (x + y)
    ensures |x + y| < |[node] + x + y|
  {
  }
}
