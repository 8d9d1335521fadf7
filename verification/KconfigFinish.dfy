/** The steps by which a node of the linked menu tree is finished. */
module KconfigFinish {
  import opened Options
  import opened KconfigShape
  import opened KconfigLinks

  /** The children a node has when it comes to `_flatten`, and the siblings left after it. */
  function OpenedKids(r: seq<Tree>, p: Rules): seq<Tree>
    requires r != []
  {
    if p.isSym(r[0].id) then Absorb(r[0].id, r[1..], p).kids else FinishAll(r[0].kids, p)
  }

  function OpenedRest(r: seq<Tree>, p: Rules): seq<Tree>
    requires r != []
  {
    if p.isSym(r[0].id) then Absorb(r[0].id, r[1..], p).rest else r[1..]
  }

  lemma OpenedIs(r: seq<Tree>, p: Rules)
    requires r != [] && RulesOk(p) && Leafy(r, p) && NoDup(Preorder(r))
    ensures FinishNode(r, p) == Taken(Tree(r[0].id, Tidy(OpenedKids(r, p), p)), OpenedRest(r, p))
    ensures var kids, rest := OpenedKids(r, p), OpenedRest(r, p);
      NoMore([r[0].id] + (Preorder(kids) + Preorder(rest)), Preorder(r))
    ensures Leafy(r[0].kids, p) && NoDup(Preorder(r[0].kids)) && r[0].id !in Preorder(r[0].kids)
    ensures |Preorder(r[0].kids)| < |Preorder(r)|
  {
    LeafyParts(r, p);
    ForestSplit(r);
    assert Preorder(r) == [r[0].id] + Preorder(r[0].kids) + Preorder(r[1..]);
    hide Preorder, Leafy, NoDup;
    if p.isSym(r[0].id) {
      AbsorbAddsNone(r[0].id, r[1..], p);
      PreorderConcat(OpenedKids(r, p), OpenedRest(r, p));
    } else {
      AllAddsNone(r[0].kids, p);
    }
  }

  /** The node, its children and what follows are apart, and nothing is new. */
  lemma OpenedSplit(r: seq<Tree>, kids: seq<Tree>, rest: seq<Tree>, node: nat)
    requires NoDup(Preorder(r)) && NoMore([node] + (Preorder(kids) + Preorder(rest)), Preorder(r))
    ensures NoDup(Preorder(kids)) && NoDup(Preorder(rest)) && node !in Preorder(kids) && node !in Preorder(rest)
    ensures forall x :: x in Preorder(kids) ==> x !in Preorder(rest)
    ensures node in Preorder(r) && forall x :: x in Preorder(kids) || x in Preorder(rest) ==> x in Preorder(r)
  {
    hide Preorder, NoDup, NoMore;
    var all := [node] + (Preorder(kids) + Preorder(rest));
    NoMoreNoDup(all, Preorder(r));
    NoDupSplit([node], Preorder(kids) + Preorder(rest));
    NoDupSplit(Preorder(kids), Preorder(rest));
    assert node in [node] && node in all;
    assert forall x :: x in Preorder(kids) || x in Preorder(rest) ==> x in Preorder(kids) + Preorder(rest);
  }

  /** Node, tidied children and remaining siblings, put together. */
  lemma Tidied(m0: Links, m1: Links, m2: Links, m3: Links, r: seq<Tree>, kids: seq<Tree>, rest: seq<Tree>, node: nat, up: Option<nat>, p: Rules)
    requires r != [] && FinishNode(r, p) == Taken(Tree(node, Tidy(kids, p)), rest)
    requires NoDup(Preorder(r)) && NoMore([node] + (Preorder(kids) + Preorder(rest)), Preorder(r))
    requires Linked(m1, rest, Next(m1, node), up, None) && Parent(m1, node) == up
    requires Elsewhere(m0, m1, Preorder(r)) && Elsewhere(m1, m2, Preorder(kids)) && Elsewhere(m2, m3, [node] + Preorder(kids))
    requires Linked(m3, Tidy(kids, p), List(m3, node), Some(node), None)
    requires Next(m3, node) == Next(m2, node) && Parent(m3, node) == Parent(m2, node)
    ensures var f := FinishNode(r, p); Linked(m3, [f.t] + f.rest, Some(node), up, None) && Elsewhere(m0, m3, Preorder(r))
  {
    hide Linked, NoDup, Elsewhere, Preorder, Next, List, Parent, Tidy, FinishNode, NoMore;
    OpenedSplit(r, kids, rest, node);
    ElsewhereAt(m1, m2, Preorder(kids), node);
    ElsewhereFrame(m1, m2, Preorder(kids), rest, Next(m1, node), up, None);
    ElsewhereFrame(m2, m3, [node] + Preorder(kids), rest, Next(m1, node), up, None);
    ElsewhereMore(m0, m1, m2, Preorder(r), Preorder(kids));
    ElsewhereMore(m0, m2, m3, Preorder(r), [node] + Preorder(kids));
    var t := Tree(node, Tidy(kids, p));
    SingleLinked(m3, t, up);
    LinkedHead(m3, rest, Next(m3, node), up, None);
    LinkedConcat(m3, [t], rest, Some(node), up, None);
  }

  lemma NothingToTidy(m: Links, r: seq<Tree>, rest: seq<Tree>, node: nat, up: Option<nat>, p: Rules)
    requires r != [] && FinishNode(r, p) == Taken(Tree(node, Tidy([], p)), rest)
    requires Linked(m, rest, Next(m, node), up, None) && Parent(m, node) == up && List(m, node) == None
    ensures var f := FinishNode(r, p); Linked(m, [f.t] + f.rest, Some(node), up, None)
  {
    assert Tidy([], p) == [];
    hide Linked, Next, List, Parent, Tidy, FinishNode;
    var t := Tree(node, []);
    LinkedNone(m, None, Some(node));
    SingleLinked(m, t, up);
    LinkedHead(m, rest, Next(m, node), up, None);
    LinkedConcat(m, [t], rest, Some(node), up, None);
  }

  // -------------------------------------------------------------- the children

  lemma KidsFinished(m0: Links, m: Links, r: seq<Tree>, up: Option<nat>)
    requires r != [] && NoDup(Preorder(r)) && Linked(m0, r, Some(r[0].id), up, None) && Elsewhere(m0, m, Preorder(r[0].kids))
    ensures List(m, r[0].id) == List(m0, r[0].id) && Parent(m, r[0].id) == up
    ensures Linked(m, r[1..], Next(m, r[0].id), up, None) && Elsewhere(m0, m, Preorder(r))
  {
    hide Linked, NoDup, Elsewhere, Next, List, Parent;
    LinkedFirst(m0, r, Some(r[0].id), up, None);
    ForestSplit(r);
    FirstInside(r);
    ElsewhereAt(m0, m, Preorder(r[0].kids), r[0].id);
    ElsewhereFrame(m0, m, Preorder(r[0].kids), r[1..], Next(m0, r[0].id), up, None);
    ElsewhereWider(m0, m, Preorder(r[0].kids), Preorder(r));
  }

  /** Children finished so far, and those still to come. */
  ghost predicate Finishing(m0: Links, m: Links, ts: seq<Tree>, d: seq<Tree>, rest: seq<Tree>, head: Option<nat>, cur: Option<nat>, up: Option<nat>, p: Rules) {
    && Linked(m, d, head, up, cur) && Linked(m, rest, cur, up, None)
    && FinishAll(ts, p) == d + FinishAll(rest, p)
    && Elsewhere(m0, m, Preorder(ts)) && Leafy(rest, p)
    && NoMore(Preorder(d) + Preorder(rest), Preorder(ts)) && |Preorder(rest)| <= |Preorder(ts)|
  }

  lemma KidsStart(m: Links, ts: seq<Tree>, head: Option<nat>, up: Option<nat>, p: Rules)
    requires Linked(m, ts, head, up, None) && Leafy(ts, p)
    ensures Finishing(m, m, ts, [], ts, head, head, up, p)
  {
    assert [] + FinishAll(ts, p) == FinishAll(ts, p) && [] + Preorder(ts) == Preorder(ts);
  }

  lemma KidsNext(m0: Links, m: Links, ts: seq<Tree>, d: seq<Tree>, rest: seq<Tree>, head: Option<nat>, cur: Option<nat>, up: Option<nat>, p: Rules)
    requires Finishing(m0, m, ts, d, rest, head, cur, up, p) && cur.Some? && NoDup(Preorder(ts))
    ensures rest != [] && rest[0].id == cur.value && Linked(m, rest, cur, up, None)
    ensures NoDup(Preorder(rest)) && Leafy(rest, p) && |Preorder(rest)| <= |Preorder(ts)|
  {
    hide NoDup, Preorder, Linked, NoMore;
    LinkedHead(m, rest, cur, up, None);
    NoMoreNoDup(Preorder(d) + Preorder(rest), Preorder(ts));
    NoDupSplit(Preorder(d), Preorder(rest));
  }

  lemma KidsOne(m0: Links, m1: Links, m: Links, ts: seq<Tree>, d: seq<Tree>, rest: seq<Tree>, head: Option<nat>, cur: Option<nat>, up: Option<nat>, p: Rules)
    requires Finishing(m0, m1, ts, d, rest, head, cur, up, p) && NoDup(Preorder(ts)) && RulesOk(p)
    requires rest != [] && cur == Some(rest[0].id)
    requires var f := FinishNode(rest, p); Linked(m, [f.t] + f.rest, cur, up, None)
    requires Elsewhere(m1, m, Preorder(rest))
    ensures var f := FinishNode(rest, p);
      Finishing(m0, m, ts, d + [f.t], f.rest, head, Next(m, rest[0].id), up, p)
  {
    var f := FinishNode(rest, p);
    assert f.t.id == rest[0].id && FinishAll(rest, p) == [f.t] + FinishAll(f.rest, p);
    SuffixIsLighter(f.rest, rest);
    LeafySuffix(f.rest, rest, p);
    NodeAddsNone(rest, p);
    hide NoDup, Preorder, Linked, Leafy, FinishNode, FinishAll, Elsewhere, Next, NoMore, RulesOk;
    KidsApart(d, rest, ts);
    NoMoreStep(d, f.t, f.rest, rest, ts);
    ElsewhereFrame(m1, m, Preorder(rest), d, head, up, cur);
    assert ([f.t] + f.rest)[0] == f.t && ([f.t] + f.rest)[1..] == f.rest;
    LinkedFirst(m, [f.t] + f.rest, cur, up, None);
    PassOne(m, d, [f.t] + f.rest, head, up);
    ElsewhereMore(m0, m1, m, Preorder(ts), Preorder(rest));
    Associate(d, [f.t], FinishAll(f.rest, p));
  }

  lemma NoMoreStep(d: seq<Tree>, t: Tree, rest': seq<Tree>, rest: seq<Tree>, ts: seq<Tree>)
    requires NoMore(Preorder(d) + Preorder(rest), Preorder(ts)) && NoMore(Preorder([t] + rest'), Preorder(rest))
    ensures NoMore(Preorder(d + [t]) + Preorder(rest'), Preorder(ts))
  {
    hide Preorder;
    PreorderConcat(d, [t]);
    PreorderConcat([t], rest');
  }

  lemma KidsApart(d: seq<Tree>, rest: seq<Tree>, ts: seq<Tree>)
    requires NoMore(Preorder(d) + Preorder(rest), Preorder(ts)) && NoDup(Preorder(ts))
    ensures forall x :: x in Preorder(d) ==> x !in Preorder(rest)
    ensures forall x :: x in Preorder(rest) ==> x in Preorder(ts)
  {
    hide NoDup, Preorder, NoMore;
    NoMoreNoDup(Preorder(d) + Preorder(rest), Preorder(ts));
    NoDupSplit(Preorder(d), Preorder(rest));
  }

  lemma KidsEnd(m0: Links, m: Links, ts: seq<Tree>, d: seq<Tree>, rest: seq<Tree>, head: Option<nat>, up: Option<nat>, p: Rules)
    requires Finishing(m0, m, ts, d, rest, head, None, up, p)
    ensures Linked(m, FinishAll(ts, p), head, up, None) && Elsewhere(m0, m, Preorder(ts))
  {
    LinkedHead(m, rest, None, up, None);
    assert d + FinishAll([], p) == d;
  }

  // -------------------------------------------------------------- the siblings

  /** Siblings taken so far as children of the node, and those still to be looked at. */
  ghost predicate Absorbing(m0: Links, m: Links, r: seq<Tree>, kids: seq<Tree>, rest: seq<Tree>, cur: nat, node: nat, up: Option<nat>, p: Rules) {
    && r != [] && r[0].id == node
    && Linked(m, kids, Next(m, node), Some(node), Next(m, cur)) && Linked(m, rest, Next(m, cur), up, None)
    && cur == (if kids == [] then node else kids[|kids| - 1].id)
    && List(m, node) == None && Parent(m, node) == up
    && Absorb(node, r[1..], p) == Absorbed(kids + Absorb(node, rest, p).kids, Absorb(node, rest, p).rest)
    && Elsewhere(m0, m, Preorder(r)) && Leafy(rest, p)
    && NoMore([node] + (Preorder(kids) + Preorder(rest)), Preorder(r)) && |Preorder(rest)| < |Preorder(r)|
  }

  lemma AbsorbStart(m: Links, r: seq<Tree>, up: Option<nat>, p: Rules)
    requires r != [] && p.isSym(r[0].id) && Linked(m, r, Some(r[0].id), up, None) && Leafy(r, p)
    ensures Absorbing(m, m, r, [], r[1..], r[0].id, r[0].id, up, p)
  {
    hide Absorb, Linked, Preorder, Leafy, Next, List, Parent, Elsewhere, FinishNode;
    var a := Absorb(r[0].id, r[1..], p);
    assert [] + a.kids == a.kids;
    LeafyParts(r, p);
    LinkedFirst(m, r, Some(r[0].id), up, None);
    LinkedHead(m, r[0].kids, List(m, r[0].id), Some(r[0].id), None);
    LinkedNone(m, Next(m, r[0].id), Some(r[0].id));
    FlattenStart(m, r, None, up, p.splice);
    OrderParts(r);
  }

  lemma OrderParts(r: seq<Tree>)
    requires r != []
    ensures Preorder([]) == [] && Preorder(r) == [r[0].id] + (Preorder(r[0].kids) + Preorder(r[1..]))
  {
    Associate([r[0].id], Preorder(r[0].kids), Preorder(r[1..]));
  }

  lemma AbsorbNext(m0: Links, m: Links, r: seq<Tree>, kids: seq<Tree>, rest: seq<Tree>, cur: nat, node: nat, up: Option<nat>, p: Rules)
    requires Absorbing(m0, m, r, kids, rest, cur, node, up, p) && Next(m, cur).Some? && NoDup(Preorder(r))
    ensures rest != [] && Next(m, cur) == Some(rest[0].id) && Linked(m, rest, Some(rest[0].id), up, None)
    ensures NoDup(Preorder(rest)) && Leafy(rest, p) && |Preorder(rest)| < |Preorder(r)|
  {
    hide NoDup, Preorder, Linked, NoMore, Absorb;
    LinkedHead(m, rest, Next(m, cur), up, None);
    OpenedSplit(r, kids, rest, node);
  }

  /** One more sibling, finished and given the node as parent. */
  lemma AbsorbOne(m0: Links, m1: Links, m2: Links, r: seq<Tree>, kids: seq<Tree>, rest: seq<Tree>, cur: nat, node: nat, up: Option<nat>, p: Rules)
    requires Absorbing(m0, m1, r, kids, rest, cur, node, up, p) && NoDup(Preorder(r)) && RulesOk(p)
    requires rest != [] && Next(m1, cur) == Some(rest[0].id) && p.under(node, rest[0].id)
    requires var f := FinishNode(rest, p); Linked(m2, [f.t] + f.rest, Some(rest[0].id), up, None)
    requires Elsewhere(m1, m2, Preorder(rest))
    ensures var f := FinishNode(rest, p);
      Absorbing(m0, SetParent(m2, rest[0].id, Some(node)), r, kids + [f.t], f.rest, rest[0].id, node, up, p)
  {
    var f, next := FinishNode(rest, p), rest[0].id;
    assert f.t.id == next;
    AbsorbUnfold(node, r, kids, rest, p);
    SuffixIsLighter(f.rest, rest);
    LeafySuffix(f.rest, rest, p);
    NodeAddsNone(rest, p);
    hide NoDup, Preorder, Linked, Leafy, FinishNode, Absorb, Elsewhere, Next, List, Parent, NoMore, RulesOk, SetParent;
    var m3, b, h := SetParent(m2, next, Some(node)), [f.t] + f.rest, Next(m1, node);
    OpenedSplit(r, kids, rest, node);
    AbsorbNoMore(r, kids, f.t, f.rest, rest, node);
    OpenedSplit(r, kids, b, node);
    OpenedJoin(r, kids, b, node);
    ElsewhereFrame(m1, m2, Preorder(rest), kids, h, Some(node), Some(next));
    assert b[0] == f.t && b[1..] == f.rest;
    AdoptOne(m2, kids, b, h, Some(node), up);
    ElsewhereAt(m1, m2, Preorder(rest), node);
    ElsewhereAt(m2, m3, Preorder(kids + b), node);
    ElsewhereMore(m0, m1, m2, Preorder(r), Preorder(rest));
    ElsewhereMore(m0, m2, m3, Preorder(r), Preorder(kids + b));
  }

  lemma AbsorbUnfold(node: nat, r: seq<Tree>, kids: seq<Tree>, rest: seq<Tree>, p: Rules)
    requires r != [] && rest != [] && p.under(node, rest[0].id)
    requires Absorb(node, r[1..], p) == Absorbed(kids + Absorb(node, rest, p).kids, Absorb(node, rest, p).rest)
    ensures var f := FinishNode(rest, p);
      Absorb(node, r[1..], p) == Absorbed(kids + [f.t] + Absorb(node, f.rest, p).kids, Absorb(node, f.rest, p).rest)
  {
    var f := FinishNode(rest, p);
    assert Absorb(node, rest, p) == Absorbed([f.t] + Absorb(node, f.rest, p).kids, Absorb(node, f.rest, p).rest);
    Associate(kids, [f.t], Absorb(node, f.rest, p).kids);
  }

  lemma AbsorbNoMore(r: seq<Tree>, kids: seq<Tree>, t: Tree, rest': seq<Tree>, rest: seq<Tree>, node: nat)
    requires NoMore([node] + (Preorder(kids) + Preorder(rest)), Preorder(r)) && NoMore(Preorder([t] + rest'), Preorder(rest))
    ensures NoMore([node] + (Preorder(kids + [t]) + Preorder(rest')), Preorder(r))
    ensures NoMore([node] + (Preorder(kids) + Preorder([t] + rest')), Preorder(r))
  {
    hide Preorder;
    PreorderConcat(kids, [t]);
    PreorderConcat([t], rest');
  }

  lemma OpenedJoin(r: seq<Tree>, kids: seq<Tree>, rest: seq<Tree>, node: nat)
    requires NoDup(Preorder(r)) && NoMore([node] + (Preorder(kids) + Preorder(rest)), Preorder(r))
    ensures NoDup(Preorder(kids + rest)) && node !in Preorder(kids + rest)
    ensures forall x :: x in Preorder(kids + rest) ==> x in Preorder(r)
  {
    hide Preorder, NoDup, NoMore;
    PreorderConcat(kids, rest);
    OpenedSplit(r, kids, rest, node);
    NoMoreNoDup([node] + (Preorder(kids) + Preorder(rest)), Preorder(r));
    NoDupSplit([node], Preorder(kids) + Preorder(rest));
  }

  /** The last sibling that depends on the node has been taken. */
  lemma AbsorbEnd(m0: Links, m: Links, r: seq<Tree>, kids: seq<Tree>, rest: seq<Tree>, cur: nat, node: nat, up: Option<nat>, p: Rules)
    requires Absorbing(m0, m, r, kids, rest, cur, node, up, p)
    requires !(Next(m, cur).Some? && p.under(node, Next(m, cur).value))
    ensures Absorb(node, r[1..], p) == Absorbed(kids, rest)
  {
    hide Preorder, Linked, Leafy, FinishNode, Absorb, Elsewhere, Next, List, Parent, NoMore;
    LinkedHead(m, rest, Next(m, cur), up, None);
    AbsorbStops(node, rest, p);
    assert kids + [] == kids;
  }

  lemma NoneTaken(m0: Links, m: Links, r: seq<Tree>, kids: seq<Tree>, rest: seq<Tree>, node: nat, up: Option<nat>, p: Rules)
    requires Absorbing(m0, m, r, kids, rest, node, node, up, p) && NoDup(Preorder(r))
    ensures Linked(m, kids, List(m, node), Some(node), None) && Parent(m, node) == up && Linked(m, rest, Next(m, node), up, None)
    ensures Elsewhere(m0, m, Preorder(r))
  {
    hide NoDup, Preorder, Linked, Leafy, FinishNode, Absorb, Elsewhere, Next, List, Parent, NoMore;
    LinkedNone(m, None, Some(node));
    if kids != [] {
      LastIsInside(kids);
      OpenedSplit(r, kids, rest, node);
    }
  }

  /** The taken siblings are cut out of their list and become the node's children. */
  lemma SomeTaken(m0: Links, m: Links, r: seq<Tree>, kids: seq<Tree>, rest: seq<Tree>, cur: nat, node: nat, up: Option<nat>, p: Rules)
    requires Absorbing(m0, m, r, kids, rest, cur, node, up, p) && NoDup(Preorder(r)) && cur != node
    ensures var m1 := SetList(m, node, Next(m, node));
      var m2 := SetNext(m1, node, Next(m1, cur));
      var m3 := SetNext(m2, cur, None);
      && Linked(m3, kids, List(m3, node), Some(node), None) && Parent(m3, node) == up && Linked(m3, rest, Next(m3, node), up, None)
      && Elsewhere(m0, m3, Preorder(r))
  {
    hide NoDup, Preorder, Linked, Leafy, FinishNode, Absorb, Elsewhere, Next, List, Parent, NoMore, SetNext, SetList;
    LastIsInside(kids);
    OpenedSplit(r, kids, rest, node);
    CutOut(m0, m, r, kids, rest, cur, node, up);
  }

  lemma CutOut(m0: Links, m: Links, r: seq<Tree>, kids: seq<Tree>, rest: seq<Tree>, cur: nat, node: nat, up: Option<nat>)
    requires kids != [] && cur == kids[|kids| - 1].id && cur != node && Parent(m, node) == up && NoDup(Preorder(kids))
    requires Linked(m, kids, Next(m, node), Some(node), Next(m, cur)) && Linked(m, rest, Next(m, cur), up, None)
    requires cur in Preorder(kids) && node !in Preorder(kids) && node !in Preorder(rest)
    requires forall x :: x in Preorder(kids) ==> x !in Preorder(rest)
    requires Elsewhere(m0, m, Preorder(r)) && node in Preorder(r) && cur in Preorder(r)
    ensures var m1 := SetList(m, node, Next(m, node));
      var m2 := SetNext(m1, node, Next(m1, cur));
      var m3 := SetNext(m2, cur, None);
      && Linked(m3, kids, List(m3, node), Some(node), None) && Parent(m3, node) == up && Linked(m3, rest, Next(m3, node), up, None)
      && Elsewhere(m0, m3, Preorder(r))
  {
    hide NoDup, Preorder, Linked, Elsewhere, Next, List, Parent, SetNext, SetList;
    var m1 := SetList(m, node, Next(m, node));
    var m2 := SetNext(m1, node, Next(m1, cur));
    var m3 := SetNext(m2, cur, None);
    WriteElsewhere(m, node, Next(m, node));
    WriteElsewhere(m1, node, Next(m1, cur));
    WriteElsewhere(m2, cur, None);
    ElsewhereAt(m, m1, [node], cur);
    ElsewhereAt(m2, m3, [cur], node);
    ElsewhereMore(m, m1, m2, [node], [node]);
    ElsewhereFrame(m, m2, [node], kids, Next(m, node), Some(node), Next(m, cur));
    Relast(m2, kids, Next(m, node), Some(node), Next(m, cur), None);
    ElsewhereFrame(m, m2, [node], rest, Next(m, cur), up, None);
    ElsewhereFrame(m2, m3, [cur], rest, Next(m, cur), up, None);
    ElsewhereMore(m0, m, m2, Preorder(r), [node]);
    ElsewhereMore(m0, m2, m3, Preorder(r), [cur]);
  }

  lemma AbsorbStops(node: nat, rest: seq<Tree>, p: Rules)
    requires rest == [] || !p.under(node, rest[0].id)
    ensures Absorb(node, rest, p) == Absorbed([], rest)
  {
  }

  // -------------------------------------------------------------- the top node

  lemma TopIs(top: nat, kids: seq<Tree>, p: Rules)
    requires Leafy(kids, p) && !p.isSym(top)
    ensures Leafy([Tree(top, kids)], p)
  {
    assert [Tree(top, kids)][1..] == [];
  }

  lemma TopFinished(m: Links, top: nat, kids: seq<Tree>, p: Rules)
    requires Leafy([Tree(top, kids)], p) && RulesOk(p) && !p.isSym(top)
    requires var f := FinishNode([Tree(top, kids)], p); Linked(m, [f.t] + f.rest, Some(top), None, None)
    ensures var f := FinishNode([Tree(top, kids)], p);
      && Linked(m, f.t.kids, List(m, top), Some(top), None) && Parent(m, top) == None && Next(m, top) == None
      && Preorder(f.t.kids) == Filter(Preorder(kids), p.isIf)
  {
    var r := [Tree(top, kids)];
    var f := FinishNode(r, p);
    assert r[1..] == [] && f.rest == [] && [f.t] + f.rest == [f.t] && [f.t][1..] == [] && f.t.id == top;
    LinkedFirst(m, [f.t], Some(top), None, None);
    LinkedHead(m, [], Next(m, top), None, None);
    NodeKeepsOrder(r, p);
    FirstOrder(f.t, []);
    FirstOrder(r[0], []);
    hide FinishNode, Leafy, Linked, Filter;
    assert [r[0]] + [] == r;
    FilterNothing(p.isIf);
    FilterThree(top, Preorder(f.t.kids), [], p.isIf);
    FilterThree(top, Preorder(kids), [], p.isIf);
    FilterNone(Preorder(f.t.kids), p.isIf);
    Cancel(Filter([top], p.isIf), Preorder(f.t.kids), Filter(Preorder(kids), p.isIf));
  }

  lemma Cancel(a: seq<nat>, x: seq<nat>, y: seq<nat>)
    requires a + x + [] == a + y + []
    ensures x == y
  {
    assert a + x + [] == a + x && a + y + [] == a + y;
    assert (a + x)[|a|..] == x && (a + y)[|a|..] == y;
  }
}
