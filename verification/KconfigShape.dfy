/** The shape of the menu tree: its preorder, and what splicing promptless nodes up, dropping
    `if` nodes and making implicit menus do to it. */
module KconfigShape {

  datatype Tree = Tree(id: nat, kids: seq<Tree>)

  /** Each node before its children, the children before the next node. */
  function Preorder(ts: seq<Tree>): seq<nat> {
    if ts == [] then [] else [ts[0].id] + Preorder(ts[0].kids) + Preorder(ts[1..])
  }

  lemma {:induction false} PreorderConcat(a: seq<Tree>, b: seq<Tree>)
    ensures Preorder(a + b) == Preorder(a) + Preorder(b)
  {
    if a == [] {
      assert a + b == b;
    } else {
      PreorderConcat(a[1..], b);
      assert (a + b)[1..] == a[1..] + b;
      Associate([a[0].id] + Preorder(a[0].kids), Preorder(a[1..]), Preorder(b));
    }
  }

  lemma Associate<T>(x: seq<T>, y: seq<T>, z: seq<T>)
    ensures x + (y + z) == x + y + z
  {
  }

  lemma FirstOrder(t: Tree, ts: seq<Tree>)
    ensures Preorder([t] + ts) == [t.id] + Preorder(t.kids) + Preorder(ts)
  {
    assert ([t] + ts)[1..] == ts;
  }

  // ------------------------------------------------------------------ flatten

  /** Nodes for which `splice` holds hand their children over to the list they are in. */
  function Flat(ts: seq<Tree>, splice: nat -> bool): seq<Tree>
    decreases |Preorder(ts)|, |ts|
  {
    if ts == [] then []
    else if ts[0].kids != [] && splice(ts[0].id) then
      PreorderConcat(ts[0].kids, ts[1..]);
      [Tree(ts[0].id, [])] + Flat(ts[0].kids + ts[1..], splice)
    else [ts[0]] + Flat(ts[1..], splice)
  }

  /** Splicing keeps the order of all nodes. */
  lemma {:induction false} FlatKeepsOrder(ts: seq<Tree>, splice: nat -> bool)
    ensures Preorder(Flat(ts, splice)) == Preorder(ts)
    decreases |Preorder(ts)|, |ts|
  {
    if ts != [] {
      PreorderConcat(ts[0].kids, ts[1..]);
      if ts[0].kids != [] && splice(ts[0].id) {
        FlatKeepsOrder(ts[0].kids + ts[1..], splice);
        FirstOrder(Tree(ts[0].id, []), Flat(ts[0].kids + ts[1..], splice));
        Associate([ts[0].id], Preorder(ts[0].kids), Preorder(ts[1..]));
      } else {
        FlatKeepsOrder(ts[1..], splice);
        FirstOrder(ts[0], Flat(ts[1..], splice));
      }
    }
  }

  /** Afterwards no spliceable node of the list has children. */
  lemma {:induction false} FlatIsFlat(ts: seq<Tree>, splice: nat -> bool)
    ensures forall i :: 0 <= i < |Flat(ts, splice)| && splice(Flat(ts, splice)[i].id) ==> Flat(ts, splice)[i].kids == []
    decreases |Preorder(ts)|, |ts|
  {
    if ts != [] {
      PreorderConcat(ts[0].kids, ts[1..]);
      if ts[0].kids != [] && splice(ts[0].id) {
        FlatIsFlat(ts[0].kids + ts[1..], splice);
      } else {
        FlatIsFlat(ts[1..], splice);
      }
    }
  }

  /** The trees a list shows once everything spliceable has been spliced: those of the list, and
      those below a spliceable one that is shown. */
  predicate Exposed(ts: seq<Tree>, splice: nat -> bool, t: Tree)
    decreases ts
  {
    exists i :: 0 <= i < |ts| && (ts[i] == t || (splice(ts[i].id) && Exposed(ts[i].kids, splice, t)))
  }

  lemma {:induction false} ExposedConcat(a: seq<Tree>, b: seq<Tree>, splice: nat -> bool, t: Tree)
    ensures Exposed(a + b, splice, t) <==> Exposed(a, splice, t) || Exposed(b, splice, t)
  {
    var ab := a + b;
    if i :| 0 <= i < |a| && (a[i] == t || (splice(a[i].id) && Exposed(a[i].kids, splice, t))) {
      assert ab[i] == a[i];
    }
    if i :| 0 <= i < |b| && (b[i] == t || (splice(b[i].id) && Exposed(b[i].kids, splice, t))) {
      assert ab[|a| + i] == b[i];
    }
    if i :| 0 <= i < |ab| && (ab[i] == t || (splice(ab[i].id) && Exposed(ab[i].kids, splice, t))) {
      assert ab[i] == if i < |a| then a[i] else b[i - |a|];
    }
  }

  lemma {:induction false} ExposedFirst(ts: seq<Tree>, splice: nat -> bool, t: Tree)
    requires ts != []
    ensures Exposed(ts, splice, t) <==>
      ts[0] == t || (splice(ts[0].id) && Exposed(ts[0].kids, splice, t)) || Exposed(ts[1..], splice, t)
  {
    assert ts == [ts[0]] + ts[1..];
    ExposedConcat([ts[0]], ts[1..], splice, t);
  }

  /** Nothing else is taken apart: a node that is not spliceable is in the result with all its
      children, if it is shown, and not otherwise. */
  lemma {:induction false} FlatKeepsTrees(ts: seq<Tree>, splice: nat -> bool, t: Tree)
    requires !splice(t.id)
    ensures t in Flat(ts, splice) <==> Exposed(ts, splice, t)
    decreases |Preorder(ts)|, |ts|
  {
    if ts != [] {
      PreorderConcat(ts[0].kids, ts[1..]);
      ExposedFirst(ts, splice, t);
      if ts[0].kids != [] && splice(ts[0].id) {
        FlatKeepsTrees(ts[0].kids + ts[1..], splice, t);
        ExposedConcat(ts[0].kids, ts[1..], splice, t);
      } else {
        FlatKeepsTrees(ts[1..], splice, t);
      }
    }
  }

  lemma FlatSplice(d: seq<Tree>, r: seq<Tree>, splice: nat -> bool)
    requires r != [] && r[0].kids != [] && splice(r[0].id)
    ensures var d', r' := d + [Tree(r[0].id, [])], r[0].kids + r[1..];
      d' + Flat(r', splice) == d + Flat(r, splice) && Preorder(d' + r') == Preorder(d + r) && |Preorder(r')| < |Preorder(r)|
  {
    var t, rest := r[0], r[1..];
    var one, r' := [Tree(t.id, [])], t.kids + rest;
    PreorderConcat(t.kids, rest);
    Associate([t.id], Preorder(t.kids), Preorder(rest));
    assert Preorder(r) == [t.id] + Preorder(r') && Flat(r, splice) == one + Flat(r', splice);
    hide Flat;
    FirstOrder(Tree(t.id, []), r');
    assert Preorder(one + r') == Preorder(r);
    hide Preorder;
    Associate(d, one, r');
    Associate(d, one, Flat(r', splice));
    PreorderConcat(d, r);
    PreorderConcat(d, one + r');
  }

  lemma FlatPass(d: seq<Tree>, r: seq<Tree>, splice: nat -> bool)
    requires r != [] && !(r[0].kids != [] && splice(r[0].id))
    ensures var d', r' := d + [r[0]], r[1..];
      d' + Flat(r', splice) == d + Flat(r, splice) && d' + r' == d + r && |Preorder(r')| < |Preorder(r)|
  {
    Associate(d, [r[0]], r[1..]);
    assert [r[0]] + r[1..] == r;
    Associate(d, [r[0]], Flat(r[1..], splice));
  }

  lemma FlattenEnd(d: seq<Tree>, splice: nat -> bool)
    ensures d + Flat([], splice) == d
  {
  }

  // ---------------------------------------------------------------- remove ifs

  function Kept(ts: seq<Tree>, isIf: nat -> bool): seq<Tree> {
    if ts == [] then [] else if isIf(ts[0].id) then Kept(ts[1..], isIf) else [ts[0]] + Kept(ts[1..], isIf)
  }

  function Filter(ids: seq<nat>, isIf: nat -> bool): seq<nat> {
    if ids == [] then [] else if isIf(ids[0]) then Filter(ids[1..], isIf) else [ids[0]] + Filter(ids[1..], isIf)
  }

  lemma {:induction false} FilterConcat(a: seq<nat>, b: seq<nat>, isIf: nat -> bool)
    ensures Filter(a + b, isIf) == Filter(a, isIf) + Filter(b, isIf)
  {
    if a == [] {
      assert a + b == b;
    } else {
      FilterConcat(a[1..], b, isIf);
      assert (a + b)[1..] == a[1..] + b && (a + b)[0] == a[0];
      Associate([a[0]], Filter(a[1..], isIf), Filter(b, isIf));
    }
  }

  /** Filtering drops exactly the `if` nodes. */
  lemma {:induction false} FilterCounts(ids: seq<nat>, isIf: nat -> bool, x: nat)
    ensures multiset(Filter(ids, isIf))[x] == if isIf(x) then 0 else multiset(ids)[x]
  {
    if ids != [] {
      assert ids == [ids[0]] + ids[1..];
      FilterCounts(ids[1..], isIf, x);
    }
  }

  /** So does dropping them from a list of trees, and what is kept is kept whole. */
  lemma {:induction false} KeptCounts(ts: seq<Tree>, isIf: nat -> bool, t: Tree)
    ensures multiset(Kept(ts, isIf))[t] == if isIf(t.id) then 0 else multiset(ts)[t]
  {
    if ts != [] {
      assert ts == [ts[0]] + ts[1..];
      KeptCounts(ts[1..], isIf, t);
    }
  }

  predicate NoIfs(ids: seq<nat>, isIf: nat -> bool) { forall i :: 0 <= i < |ids| ==> !isIf(ids[i]) }

  lemma {:induction false} FilterNone(a: seq<nat>, isIf: nat -> bool)
    requires NoIfs(a, isIf)
    ensures Filter(a, isIf) == a
  {
    if a != [] {
      FilterNone(a[1..], isIf);
    }
  }

  /** Dropping childless `if` nodes leaves all other nodes in order, provided that no `if`
      is left further down. */
  lemma {:induction false} KeptKeepsOrder(ts: seq<Tree>, isIf: nat -> bool)
    requires forall i :: 0 <= i < |ts| && isIf(ts[i].id) ==> ts[i].kids == []
    requires forall i :: 0 <= i < |ts| ==> NoIfs(Preorder(ts[i].kids), isIf)
    ensures Preorder(Kept(ts, isIf)) == Filter(Preorder(ts), isIf)
  {
    if ts != [] {
      var t := ts[0];
      assert forall i :: 0 <= i < |ts[1..]| ==> ts[1..][i] == ts[i + 1];
      KeptKeepsOrder(ts[1..], isIf);
      FilterNone(Preorder(t.kids), isIf);
      FilterConcat([t.id] + Preorder(t.kids), Preorder(ts[1..]), isIf);
      FilterConcat([t.id], Preorder(t.kids), isIf);
      assert Filter([t.id], isIf) == if isIf(t.id) then [] else [t.id];
      if !isIf(t.id) {
        FirstOrder(t, Kept(ts[1..], isIf));
      }
    }
  }

  lemma KeptStart(kids: seq<Tree>, k: nat, isIf: nat -> bool)
    requires k <= |kids|
    ensures [] + Kept(kids[k..], isIf) == Kept(kids[k..], isIf) && [] + kids[k..] == kids[k..]
  {
  }

  lemma KeptEnd(d: seq<Tree>, isIf: nat -> bool)
    ensures d + Kept([], isIf) == d
  {
  }

  lemma KeptOne(d: seq<Tree>, r: seq<Tree>, j: nat, isIf: nat -> bool)
    requires r != [] && !isIf(r[0].id) && j <= |r[1..]| && Kept(r[1..][j..], isIf) == Kept(r[1..], isIf)
    ensures d + [r[0]] + Kept(r[1..][j..], isIf) == d + Kept(r, isIf) && d + [r[0]] + r[1..] == d + r
  {
    Associate(d, [r[0]], Kept(r[1..], isIf));
    Associate(d, [r[0]], r[1..]);
    assert [r[0]] + r[1..] == r;
  }

  // ----------------------------------------------------------- one level at a time

  lemma {:induction false} FilterIsClean(ids: seq<nat>, isIf: nat -> bool)
    ensures NoIfs(Filter(ids, isIf), isIf)
  {
    if ids != [] {
      FilterIsClean(ids[1..], isIf);
    }
  }

  /** Below each tree of a list there is no `if` left. */
  ghost predicate CleanBelow(ts: seq<Tree>, isIf: nat -> bool) {
    forall i :: 0 <= i < |ts| ==> NoIfs(Preorder(ts[i].kids), isIf)
  }

  lemma {:induction false} CleanInside(ts: seq<Tree>, isIf: nat -> bool)
    requires NoIfs(Preorder(ts), isIf)
    ensures CleanBelow(ts, isIf)
  {
    if ts != [] {
      var t := ts[0];
      CleanSplit([t.id] + Preorder(t.kids), Preorder(ts[1..]), isIf);
      CleanSplit([t.id], Preorder(t.kids), isIf);
      CleanInside(ts[1..], isIf);
      assert forall i :: 1 <= i < |ts| ==> ts[i] == ts[1..][i - 1];
    }
  }

  lemma CleanSplit(a: seq<nat>, b: seq<nat>, isIf: nat -> bool)
    requires NoIfs(a + b, isIf)
    ensures NoIfs(a, isIf) && NoIfs(b, isIf)
  {
    assert forall i :: 0 <= i < |a| ==> (a + b)[i] == a[i];
    assert forall j {:trigger b[j]} :: 0 <= j < |b| ==> (a + b)[|a| + j] == b[j];
  }

  lemma {:induction false} FlatStaysClean(ts: seq<Tree>, splice: nat -> bool, isIf: nat -> bool)
    requires CleanBelow(ts, isIf)
    ensures CleanBelow(Flat(ts, splice), isIf)
    decreases |Preorder(ts)|, |ts|
  {
    if ts != [] {
      PreorderConcat(ts[0].kids, ts[1..]);
      if ts[0].kids != [] && splice(ts[0].id) {
        CleanInside(ts[0].kids, isIf);
        FlatStaysClean(ts[0].kids + ts[1..], splice, isIf);
      } else {
        FlatStaysClean(ts[1..], splice, isIf);
      }
    }
  }

  /** One finished level holds all nodes that are no `if`, in the order they were in. */
  lemma LevelKeepsOrder(ts: seq<Tree>, splice: nat -> bool, isIf: nat -> bool)
    requires CleanBelow(ts, isIf) && forall id :: isIf(id) ==> splice(id)
    ensures Preorder(Kept(Flat(ts, splice), isIf)) == Filter(Preorder(ts), isIf)
  {
    FlatKeepsOrder(ts, splice);
    FlatIsFlat(ts, splice);
    FlatStaysClean(ts, splice, isIf);
    KeptKeepsOrder(Flat(ts, splice), isIf);
  }

  lemma FilterThree(id: nat, x: seq<nat>, y: seq<nat>, isIf: nat -> bool)
    ensures Filter([id] + x + y, isIf) == Filter([id], isIf) + Filter(x, isIf) + Filter(y, isIf)
  {
    FilterConcat([id] + x, y, isIf);
    FilterConcat([id], x, isIf);
  }

  // -------------------------------------------------------------- every node once

  predicate NoDup(s: seq<nat>) { forall i, j :: 0 <= i < j < |s| ==> s[i] != s[j] }

  lemma NoDupSplit(a: seq<nat>, b: seq<nat>)
    requires NoDup(a + b)
    ensures NoDup(a) && NoDup(b) && forall x :: x in a ==> x !in b
  {
    forall i, j | 0 <= i < |a| && 0 <= j < |b|
      ensures a[i] != b[j]
    {
      assert (a + b)[i] == a[i] && (a + b)[|a| + j] == b[j];
    }
    assert forall i :: 0 <= i < |a| ==> (a + b)[i] == a[i];
    assert forall j {:trigger b[j]} :: 0 <= j < |b| ==> (a + b)[|a| + j] == b[j];
  }

  /** A node, what is below it and what follows are apart. */
  lemma ForestSplit(ts: seq<Tree>)
    requires ts != [] && NoDup(Preorder(ts))
    ensures var t := ts[0];
      && NoDup(Preorder(t.kids)) && NoDup(Preorder(ts[1..]))
      && t.id !in Preorder(t.kids) && t.id !in Preorder(ts[1..])
      && (forall x :: x in Preorder(t.kids) ==> x !in Preorder(ts[1..]))
  {
    var t := ts[0];
    Associate([t.id], Preorder(t.kids), Preorder(ts[1..]));
    NoDupSplit([t.id], Preorder(t.kids) + Preorder(ts[1..]));
    NoDupSplit(Preorder(t.kids), Preorder(ts[1..]));
    assert t.id in [t.id];
  }

  lemma {:induction false} LastIsInside(ts: seq<Tree>)
    requires ts != []
    ensures ts[|ts| - 1].id in Preorder(ts)
  {
    if |ts| > 1 {
      LastIsInside(ts[1..]);
    }
  }

  /** Prefix, middle and rest of a list of trees are apart. */
  lemma ForestApart(d: seq<Tree>, r: seq<Tree>)
    requires NoDup(Preorder(d + r))
    ensures NoDup(Preorder(d)) && NoDup(Preorder(r)) && Preorder(d + r) == Preorder(d) + Preorder(r)
    ensures forall x :: x in Preorder(d) ==> x !in Preorder(r)
    ensures forall x :: x in Preorder(d + r) <==> x in Preorder(d) || x in Preorder(r)
  {
    PreorderConcat(d, r);
    NoDupSplit(Preorder(d), Preorder(r));
  }

  lemma FirstInside(ts: seq<Tree>)
    requires ts != []
    ensures ts[0].id in Preorder(ts)
    ensures forall x :: x in Preorder(ts) <==> x == ts[0].id || x in Preorder(ts[0].kids) || x in Preorder(ts[1..])
  {
  }

  lemma NoDupMiddle(a: seq<nat>, b: seq<nat>, c: seq<nat>)
    requires NoDup(a + (b + c))
    ensures NoDup(a + c)
  {
    NoDupSplit(a, b + c);
    NoDupSplit(b, c);
    forall i, j | 0 <= i < j < |a + c|
      ensures (a + c)[i] != (a + c)[j]
    {
      if i < |a| <= j {
        assert a[i] in a && c[j - |a|] in b + c;
      }
    }
  }

  /** Leaving out the first nodes of the second part. */
  lemma Shorter(d: seq<Tree>, r: seq<Tree>, k: nat)
    requires k <= |r| && NoDup(Preorder(d + r))
    ensures NoDup(Preorder(d + r[k..])) && forall x :: x in Preorder(d + r[k..]) ==> x in Preorder(d + r)
    ensures d == [] ==> d + r[k..] == r[k..] && d + r == r
  {
    assert r == r[..k] + r[k..];
    PreorderConcat(d, r);
    PreorderConcat(r[..k], r[k..]);
    PreorderConcat(d, r[k..]);
    NoDupMiddle(Preorder(d), Preorder(r[..k]), Preorder(r[k..]));
  }

  lemma CursorInside(d: seq<Tree>, r: seq<Tree>)
    requires r != []
    ensures r[0].id in Preorder(d + r)
  {
    PreorderConcat(d, r);
    FirstInside(r);
  }

  // --------------------------------------------------------------- a whole tree

  /** What the surgery goes by: nodes without prompt that are no choice, `if` nodes, symbol
      nodes, and whether a node depends on a symbol node before it. */
  datatype Rules = Rules(splice: nat -> bool, isIf: nat -> bool, isSym: nat -> bool, under: (nat, nat) -> bool)

  ghost predicate RulesOk(p: Rules) { forall id :: p.isIf(id) ==> p.splice(id) }

  /** Symbols have no children until implicit menus are made. */
  predicate Leafy(ts: seq<Tree>, p: Rules) {
    ts == [] || ((p.isSym(ts[0].id) ==> ts[0].kids == []) && Leafy(ts[0].kids, p) && Leafy(ts[1..], p))
  }

  function Tidy(kids: seq<Tree>, p: Rules): seq<Tree> { Kept(Flat(kids, p.splice), p.isIf) }

  /** Of the children of a finished node none is an `if`, and none without prompt has children. */
  lemma TidyIsFlat(kids: seq<Tree>, p: Rules)
    ensures forall t :: t in Tidy(kids, p) ==> !p.isIf(t.id) && (p.splice(t.id) ==> t.kids == [])
  {
    FlatIsFlat(kids, p.splice);
    forall t | t in Tidy(kids, p)
      ensures !p.isIf(t.id) && t in Flat(kids, p.splice)
    {
      KeptCounts(Flat(kids, p.splice), p.isIf, t);
      assert t in multiset(Tidy(kids, p));
    }
  }

  /** A finished node, and the siblings after it that it has not taken as children. */
  datatype Taken = Taken(t: Tree, rest: seq<Tree>)
  datatype Absorbed = Absorbed(kids: seq<Tree>, rest: seq<Tree>)

  predicate IsSuffix(a: seq<Tree>, b: seq<Tree>) { |a| <= |b| && a == b[|b| - |a|..] }

  lemma {:induction false} SuffixIsLighter(a: seq<Tree>, b: seq<Tree>)
    requires IsSuffix(a, b)
    ensures |Preorder(a)| <= |Preorder(b)| && (|a| < |b| ==> |Preorder(a)| < |Preorder(b)|)
    decreases |b|
  {
    if |a| < |b| {
      SuffixIsLighter(a, b[1..]);
    }
  }

  /** The first of some siblings.  A symbol takes the siblings that depend on it, each of them
      finished first; anything else keeps the children it has. */
  function FinishNode(r: seq<Tree>, p: Rules): (f: Taken)
    requires r != []
    ensures IsSuffix(f.rest, r) && |f.rest| < |r|
    decreases |Preorder(r)|, 1
  {
    var t, rest := r[0], r[1..];
    if p.isSym(t.id) then
      var a := Absorb(t.id, rest, p);
      Taken(Tree(t.id, Tidy(a.kids, p)), a.rest)
    else Taken(Tree(t.id, Tidy(FinishAll(t.kids, p), p)), rest)
  }

  function Absorb(id: nat, r: seq<Tree>, p: Rules): (a: Absorbed)
    ensures IsSuffix(a.rest, r)
    decreases |Preorder(r)|, 2
  {
    if r == [] || !p.under(id, r[0].id) then Absorbed([], r)
    else
      var f := FinishNode(r, p);
      SuffixIsLighter(f.rest, r);
      var a := Absorb(id, f.rest, p);
      Absorbed([f.t] + a.kids, a.rest)
  }

  function FinishAll(r: seq<Tree>, p: Rules): seq<Tree>
    decreases |Preorder(r)|, 3
  {
    if r == [] then []
    else
      var f := FinishNode(r, p);
      SuffixIsLighter(f.rest, r);
      [f.t] + FinishAll(f.rest, p)
  }

  /** A symbol takes exactly the run of following siblings that depend on it: each one taken
      does, and the first one left does not. */
  lemma {:induction false} AbsorbsDependents(id: nat, r: seq<Tree>, p: Rules)
    ensures var a := Absorb(id, r, p);
      && (a.rest == [] || !p.under(id, a.rest[0].id))
      && (forall i :: 0 <= i < |a.kids| ==> p.under(id, a.kids[i].id))
      && (r != [] && p.under(id, r[0].id) ==> a.kids != [] && a.kids[0].id == r[0].id)
    decreases |Preorder(r)|, 2
  {
    if r != [] && p.under(id, r[0].id) {
      var f := FinishNode(r, p);
      SuffixIsLighter(f.rest, r);
      AbsorbsDependents(id, f.rest, p);
    }
  }

  /** A finished symbol has left no sibling behind it that depends on it; any other node leaves
      all its siblings. */
  lemma NodeTakes(r: seq<Tree>, p: Rules)
    requires r != []
    ensures var f := FinishNode(r, p);
      && f.t.id == r[0].id
      && (p.isSym(r[0].id) ==> f.rest == [] || !p.under(r[0].id, f.rest[0].id))
      && (p.isSym(r[0].id) && |r| > 1 && p.under(r[0].id, r[1].id) ==> f.rest != r[1..])
      && (!p.isSym(r[0].id) || (|r| > 1 && !p.under(r[0].id, r[1].id)) ==> f.rest == r[1..])
  {
    hide Tidy, FinishAll, Preorder;
    AbsorbsDependents(r[0].id, r[1..], p);
  }

  lemma {:induction false} LeafySuffix(a: seq<Tree>, b: seq<Tree>, p: Rules)
    requires IsSuffix(a, b) && Leafy(b, p)
    ensures Leafy(a, p)
    decreases |b|
  {
    if |a| < |b| {
      LeafySuffix(a, b[1..], p);
    }
  }

  /** Same nodes, `if` nodes aside, in the same order. */
  ghost predicate SameOrder(a: seq<Tree>, b: seq<Tree>, p: Rules) {
    Filter(Preorder(a), p.isIf) == Filter(Preorder(b), p.isIf)
  }

  lemma TidyKeeps(id: nat, kids: seq<Tree>, rest: seq<Tree>, p: Rules)
    requires RulesOk(p) && CleanBelow(kids, p.isIf)
    ensures Preorder(Tidy(kids, p)) == Filter(Preorder(kids), p.isIf) && NoIfs(Preorder(Tidy(kids, p)), p.isIf)
    ensures Filter(Preorder([Tree(id, Tidy(kids, p))] + rest), p.isIf) == Filter([id], p.isIf) + Filter(Preorder(kids + rest), p.isIf)
  {
    LevelKeepsOrder(kids, p.splice, p.isIf);
    FilterIsClean(Preorder(kids), p.isIf);
    hide Tidy, Filter, Preorder;
    FilterNone(Preorder(Tidy(kids, p)), p.isIf);
    FirstOrder(Tree(id, Tidy(kids, p)), rest);
    FilterThree(id, Preorder(Tidy(kids, p)), Preorder(rest), p.isIf);
    PreorderConcat(kids, rest);
    FilterConcat(Preorder(kids), Preorder(rest), p.isIf);
    Associate(Filter([id], p.isIf), Filter(Preorder(kids), p.isIf), Filter(Preorder(rest), p.isIf));
  }

  /** Finishing keeps the order of everything that is no `if`. */
  lemma {:induction false} NodeKeepsOrder(r: seq<Tree>, p: Rules)
    requires r != [] && RulesOk(p) && Leafy(r, p)
    ensures var f := FinishNode(r, p);
      SameOrder([f.t] + f.rest, r, p) && NoIfs(Preorder(f.t.kids), p.isIf) && f.t.id == r[0].id
    decreases |Preorder(r)|, 1
  {
    hide Filter, Tidy, Leafy, FinishAll, Absorb;
    var t, rest := r[0], r[1..];
    LeafyParts(r, p);
    FilterThree(t.id, Preorder(t.kids), Preorder(rest), p.isIf);
    FilterNothing(p.isIf);
    if p.isSym(t.id) {
      var a := Absorb(t.id, rest, p);
      AbsorbKeepsOrder(t.id, rest, p);
      TidyKeeps(t.id, a.kids, a.rest, p);
    } else {
      var kids := FinishAll(t.kids, p);
      AllKeepsOrder(t.kids, p);
      TidyKeeps(t.id, kids, rest, p);
      PreorderConcat(kids, rest);
      FilterConcat(Preorder(kids), Preorder(rest), p.isIf);
      Associate(Filter([t.id], p.isIf), Filter(Preorder(t.kids), p.isIf), Filter(Preorder(rest), p.isIf));
    }
  }

  lemma LeafyParts(r: seq<Tree>, p: Rules)
    requires r != [] && Leafy(r, p)
    ensures Leafy(r[0].kids, p) && Leafy(r[1..], p)
    ensures p.isSym(r[0].id) ==> r[0].kids == [] && Preorder(r[0].kids) == []
  {
  }

  lemma FilterNothing(isIf: nat -> bool)
    ensures Filter([], isIf) == []
  {
  }

  lemma {:induction false} AbsorbKeepsOrder(id: nat, r: seq<Tree>, p: Rules)
    requires RulesOk(p) && Leafy(r, p)
    ensures var a := Absorb(id, r, p); SameOrder(a.kids + a.rest, r, p) && CleanBelow(a.kids, p.isIf)
    decreases |Preorder(r)|, 2
  {
    hide Filter, FinishNode, Leafy, Preorder, NoIfs, RulesOk;
    if r == [] || !p.under(id, r[0].id) {
      assert [] + r == r;
    } else {
      var f := FinishNode(r, p);
      SuffixIsLighter(f.rest, r);
      LeafySuffix(f.rest, r, p);
      NodeKeepsOrder(r, p);
      AbsorbKeepsOrder(id, f.rest, p);
      var a := Absorb(id, f.rest, p);
      SameAfter(f.t, a.kids + a.rest, f.rest, p);
      Associate([f.t], a.kids, a.rest);
    }
  }

  lemma {:induction false} AllKeepsOrder(r: seq<Tree>, p: Rules)
    requires RulesOk(p) && Leafy(r, p)
    ensures SameOrder(FinishAll(r, p), r, p) && CleanBelow(FinishAll(r, p), p.isIf)
    decreases |Preorder(r)|, 3
  {
    hide Filter, FinishNode, Leafy, Preorder, NoIfs, RulesOk;
    if r != [] {
      var f := FinishNode(r, p);
      SuffixIsLighter(f.rest, r);
      LeafySuffix(f.rest, r, p);
      NodeKeepsOrder(r, p);
      AllKeepsOrder(f.rest, p);
      SameAfter(f.t, FinishAll(f.rest, p), f.rest, p);
    }
  }

  lemma SameAfter(t: Tree, a: seq<Tree>, b: seq<Tree>, p: Rules)
    requires SameOrder(a, b, p)
    ensures SameOrder([t] + a, [t] + b, p)
  {
    hide Filter;
    PreorderConcat([t], a);
    PreorderConcat([t], b);
    FilterConcat(Preorder([t]), Preorder(a), p.isIf);
    FilterConcat(Preorder([t]), Preorder(b), p.isIf);
  }

  // ------------------------------------------------------------- no node twice

  /** No node more often in `a` than in `b`. */
  ghost predicate NoMore(a: seq<nat>, b: seq<nat>) { multiset(a) <= multiset(b) }

  lemma {:induction false} NoDupCount(s: seq<nat>, x: nat)
    requires NoDup(s)
    ensures multiset(s)[x] <= 1
  {
    if s != [] {
      var n := |s| - 1;
      assert s == s[..n] + [s[n]];
      NoDupCount(s[..n], x);
      if multiset(s[..n])[x] > 0 {
        assert x in s[..n];
      }
    }
  }

  lemma {:induction false} CountNoDup(s: seq<nat>)
    requires forall x :: multiset(s)[x] <= 1
    ensures NoDup(s)
  {
    forall i, j | 0 <= i < j < |s|
      ensures s[i] != s[j]
    {
      assert s == s[..j] + s[j..];
      assert multiset(s)[s[i]] == multiset(s[..j])[s[i]] + multiset(s[j..])[s[i]];
      assert s[..j][i] in multiset(s[..j]) && s[j..][0] in multiset(s[j..]);
    }
  }

  lemma NoMoreNoDup(a: seq<nat>, b: seq<nat>)
    requires NoMore(a, b) && NoDup(b)
    ensures NoDup(a) && forall x :: x in a ==> x in b
  {
    forall x
      ensures multiset(a)[x] <= 1
    {
      NoDupCount(b, x);
    }
    CountNoDup(a);
    forall x | x in a
      ensures x in b
    {
      assert x in multiset(a);
    }
  }

  lemma {:induction false} FilterNoMore(a: seq<nat>, isIf: nat -> bool)
    ensures NoMore(Filter(a, isIf), a)
  {
    if a != [] {
      assert a == [a[0]] + a[1..];
      FilterNoMore(a[1..], isIf);
    }
  }

  lemma {:induction false} NodeAddsNone(r: seq<Tree>, p: Rules)
    requires r != [] && RulesOk(p) && Leafy(r, p)
    ensures var f := FinishNode(r, p); NoMore(Preorder([f.t] + f.rest), Preorder(r))
    decreases |Preorder(r)|, 1
  {
    hide Filter, Tidy, Leafy, FinishAll, Absorb;
    var t, rest := r[0], r[1..];
    LeafyParts(r, p);
    if p.isSym(t.id) {
      var a := Absorb(t.id, rest, p);
      AbsorbKeepsOrder(t.id, rest, p);
      AbsorbAddsNone(t.id, rest, p);
      TidyAddsNone(t.id, a.kids, a.rest, p);
    } else {
      var kids := FinishAll(t.kids, p);
      AllKeepsOrder(t.kids, p);
      AllAddsNone(t.kids, p);
      TidyAddsNone(t.id, kids, rest, p);
      PreorderConcat(kids, rest);
    }
  }

  lemma TidyAddsNone(id: nat, kids: seq<Tree>, rest: seq<Tree>, p: Rules)
    requires RulesOk(p) && CleanBelow(kids, p.isIf)
    ensures NoMore(Preorder([Tree(id, Tidy(kids, p))] + rest), [id] + Preorder(kids + rest))
  {
    TidyKeeps(id, kids, rest, p);
    hide Filter, Tidy, Preorder;
    FilterNoMore(Preorder(kids), p.isIf);
    FirstOrder(Tree(id, Tidy(kids, p)), rest);
    PreorderConcat(kids, rest);
  }

  lemma {:induction false} AbsorbAddsNone(id: nat, r: seq<Tree>, p: Rules)
    requires RulesOk(p) && Leafy(r, p)
    ensures var a := Absorb(id, r, p); NoMore(Preorder(a.kids + a.rest), Preorder(r))
    decreases |Preorder(r)|, 2
  {
    hide Filter, FinishNode, Leafy;
    if r == [] || !p.under(id, r[0].id) {
      assert [] + r == r;
    } else {
      var f := FinishNode(r, p);
      SuffixIsLighter(f.rest, r);
      LeafySuffix(f.rest, r, p);
      NodeAddsNone(r, p);
      AbsorbAddsNone(id, f.rest, p);
      var a := Absorb(id, f.rest, p);
      Associate([f.t], a.kids, a.rest);
      PreorderConcat([f.t], a.kids + a.rest);
      PreorderConcat([f.t], f.rest);
    }
  }

  lemma {:induction false} AllAddsNone(r: seq<Tree>, p: Rules)
    requires RulesOk(p) && Leafy(r, p)
    ensures NoMore(Preorder(FinishAll(r, p)), Preorder(r))
    decreases |Preorder(r)|, 3
  {
    hide Filter, FinishNode, Leafy;
    if r != [] {
      var f := FinishNode(r, p);
      SuffixIsLighter(f.rest, r);
      LeafySuffix(f.rest, r, p);
      NodeAddsNone(r, p);
      AllAddsNone(f.rest, p);
      PreorderConcat([f.t], FinishAll(f.rest, p));
      PreorderConcat([f.t], f.rest);
    }
  }
}
