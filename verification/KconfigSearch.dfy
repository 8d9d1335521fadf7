/** The depth-first search for dependency loops, as a function of the colours: what it leaves
    behind when it finds nothing, and what it reports when it finds something. */
module KconfigSearch {
  import opened Options
  import opened KconfigEval
  import opened KconfigNet

  /** Nothing found; a loop being collected on the way back; the error raised. */
  datatype Outcome = NoLoop | Unwinding(loop: seq<Item>) | Raised(loop: seq<Item>)

  /** 0 unvisited, 1 being visited, 2 done; and what is done, in the order in which it was. */
  datatype Search = Search(visited: map<Item, nat>, order: seq<Item>)
  {
    function Enter(x: Item): Search { this.(visited := visited[x := 1]) }
    function Leave(x: Item): Search { Search(visited[x := 2], order + [x]) }
  }

  datatype Out = Out(st: Search, r: Outcome)

  function Unvisited(st: Search): set<Item> { set x | x in st.visited && st.visited[x] == 0 }

  /** Nothing becomes unvisited. */
  predicate Later(st: Search, st': Search) {
    st'.visited.Keys == st.visited.Keys && Unvisited(st') <= Unvisited(st)
  }

  /** `_found_dep_loop`. */
  function FoundLoop(r: Outcome, cur: Item): Outcome {
    match r
    case Unwinding(loop) => if loop != [] && loop[0] == cur then Raised(loop) else Unwinding(loop + [cur])
    case _ => r
  }

  lemma Fewer(a: set<Item>, b: set<Item>)
    ensures a <= b ==> |a| <= |b|
    ensures a < b ==> |a| < |b|
  {
    if a <= b {
      assert b == a + (b - a);
    }
  }

  lemma EnterLess(st: Search, x: Item)
    requires x in st.visited && st.visited[x] == 0
    ensures Unvisited(st.Enter(x)) < Unvisited(st) && st.Enter(x).visited.Keys == st.visited.Keys
    ensures |Unvisited(st.Enter(x))| < |Unvisited(st)|
  {
    assert x in Unvisited(st) && x !in Unvisited(st.Enter(x));
    Fewer(Unvisited(st.Enter(x)), Unvisited(st));
  }

  lemma LeaveLater(st: Search, x: Item)
    requires x in st.visited
    ensures Later(st, st.Leave(x))
  {
  }

  /** All that a symbol or choice leads to has a colour. */
  ghost predicate Known(g: Net, st: Search) { Closed(g, st.visited.Keys) }

  /** `_check_dep_loop_sym`. */
  ghost function SymRun(g: Net, st: Search, s: nat, ignore: bool): (o: Out)
    requires Known(g, st) && S(s) in st.visited
    ensures Later(st, o.st)
    decreases |Unvisited(st)|, 0, 0
  {
    if st.visited[S(s)] == 0 then
      EnterLess(st, S(s));
      var o := DepsRun(g, st.Enter(S(s)), s, 0);
      if !o.r.NoLoop? then Out(o.st, FoundLoop(o.r, S(s)))
      else
        var q := if g.choice(s).Some? && !ignore then
            assert Tie(g, S(s), C(g.choice(s).value));
            Fewer(Unvisited(o.st), Unvisited(st.Enter(S(s))));
            ChoiceRun(g, o.st, g.choice(s).value, Some(s))
          else o;
        if !q.r.NoLoop? then Out(q.st, FoundLoop(q.r, S(s)))
        else
          LeaveLater(q.st, S(s));
          Out(q.st.Leave(S(s)), NoLoop)
    else if st.visited[S(s)] == 2 then Out(st, NoLoop)
    else Out(st, Unwinding([S(s)]))
  }

  /** The dependents from the `k`-th on. */
  ghost function DepsRun(g: Net, st: Search, s: nat, k: nat): (o: Out)
    requires Known(g, st) && S(s) in st.visited && k <= |g.deps(s)|
    ensures Later(st, o.st)
    decreases |Unvisited(st)|, 1, |g.deps(s)| - k
  {
    if k == |g.deps(s)| then Out(st, NoLoop)
    else
      var o := ItemRun(g, st, s, k);
      if !o.r.NoLoop? then o
      else
        Fewer(Unvisited(o.st), Unvisited(st));
        DepsRun(g, o.st, s, k + 1)
  }

  ghost function ItemRun(g: Net, st: Search, s: nat, k: nat): (o: Out)
    requires Known(g, st) && S(s) in st.visited && k < |g.deps(s)|
    ensures Later(st, o.st)
    decreases |Unvisited(st)|, 1, 0
  {
    var d := g.deps(s)[k];
    assert Dep(g, S(s), d);
    if d.C? then ChoiceRun(g, st, d.choice, None) else SymRun(g, st, d.sym, false)
  }

  /** `_check_dep_loop_choice`. */
  ghost function ChoiceRun(g: Net, st: Search, c: nat, skip: Option<nat>): (o: Out)
    requires Known(g, st) && C(c) in st.visited
    ensures Later(st, o.st)
    decreases |Unvisited(st)|, 0, 0
  {
    if st.visited[C(c)] == 0 then
      EnterLess(st, C(c));
      var o := MembersRun(g, st.Enter(C(c)), c, skip, 0);
      if !o.r.NoLoop? then Out(o.st, FoundLoop(o.r, C(c)))
      else
        LeaveLater(o.st, C(c));
        Out(o.st.Leave(C(c)), NoLoop)
    else if st.visited[C(c)] == 2 then Out(st, NoLoop)
    else Out(st, Unwinding([C(c)]))
  }

  /** The choice's symbols from the `k`-th on. */
  ghost function MembersRun(g: Net, st: Search, c: nat, skip: Option<nat>, k: nat): (o: Out)
    requires Known(g, st) && C(c) in st.visited && k <= |g.syms(c)|
    ensures Later(st, o.st)
    decreases |Unvisited(st)|, 1, |g.syms(c)| - k
  {
    if k == |g.syms(c)| then Out(st, NoLoop)
    else if skip == Some(g.syms(c)[k]) then MembersRun(g, st, c, skip, k + 1)
    else
      assert Tie(g, C(c), S(g.syms(c)[k]));
      var o := SymRun(g, st, g.syms(c)[k], true);
      if !o.r.NoLoop? then o
      else
        Fewer(Unvisited(o.st), Unvisited(st));
        MembersRun(g, o.st, c, skip, k + 1)
  }

  // ----------------------------------------------------------- what the colours mean

  /** 1 for what is on the call stack, 2 for what is done.  A symbol is done only when its
      choice has been entered; and with a choice its symbols are done, except for the one it
      was entered by. */
  ghost predicate Marks(g: Net, st: Search, path: seq<Item>, entry: Option<nat>) {
    && Ties(g) && Known(g, st) && Sorted(g, st.order)
    && (forall x :: x in st.visited ==> st.visited[x] <= 2)
    && (forall x :: x in path <==> x in st.visited && st.visited[x] == 1)
    && (forall x :: x in st.order <==> x in st.visited && st.visited[x] == 2)
    && (forall s: nat, c: nat :: S(s) in st.order && g.choice(s) == Some(c) ==> C(c) in path || C(c) in st.order)
    && (forall s: nat, c: nat :: C(c) in st.order && s in g.syms(c) ==> S(s) in st.order || Some(s) == entry)
  }

  /** Symbols of a choice that is being visited are done only by the choice itself. */
  ghost predicate Spares(g: Net, st: Search, st': Search, but: Option<nat>) {
    && Later(st, st') && st.order <= st'.order
    && forall s: nat, c: nat :: S(s) in st'.order && S(s) !in st.order && g.choice(s) == Some(c) && C(c) in st.visited && st.visited[C(c)] == 1 ==>
         Some(s) == but
  }

  /** A loop under collection: it was closed at an item still being visited, and holds what
      has been left since, the last of it `x`. */
  predicate Collected(g: Net, path: seq<Item>, loop: seq<Item>, x: Item) {
    && loop != [] && loop[0] in path && loop[|loop| - 1] == x
    && (forall i :: 1 <= i < |loop| ==> loop[i] !in path)
    && Distinct(loop) && Chain(g, loop)
  }

  predicate Distinct(s: seq<Item>) {
    forall i, j :: 0 <= i < j < |s| ==> s[i] != s[j]
  }

  predicate Colored(st: Search, loop: seq<Item>) {
    forall i :: 0 <= i < |loop| ==> loop[i] in st.visited
  }

  /** One more item on the way back. */
  lemma CollectOne(g: Net, path: seq<Item>, loop: seq<Item>, cur: Item, x: Item)
    requires Collected(g, path + [cur], loop, x) && Edge(g, cur, x) && cur !in path
    ensures cur != loop[0] ==> Collected(g, path, loop + [cur], cur)
    ensures Dep(g, cur, x) ==> HasDep(g, loop + [cur])
    ensures HasDep(g, loop) ==> HasDep(g, loop + [cur])
    ensures cur == loop[0] && (HasDep(g, loop) || Dep(g, cur, x)) ==> Cycle(g, loop) && Distinct(loop)
  {
    forall y | y in path
      ensures y in path + [cur]
    {
    }
    assert (path + [cur])[|path|] == cur && cur in path + [cur];
    var more := loop + [cur];
    assert more[|loop|] == cur && more[|loop| - 1] == x;
    if HasDep(g, loop) {
      var i :| 0 <= i < |loop| - 1 && Dep(g, loop[i + 1], loop[i]);
      assert Dep(g, more[i + 1], more[i]);
    }
  }

  // ------------------------------------------------------------ entering and leaving

  lemma EnterMarks(g: Net, st: Search, path: seq<Item>, x: Item)
    requires Marks(g, st, path, None) && x in st.visited && st.visited[x] == 0
    ensures Marks(g, st.Enter(x), path + [x], None) && x !in path && x !in st.order
  {
    hide Sorted;
    assert st.Enter(x).visited.Keys == st.visited.Keys;
    forall y
      ensures y in path + [x] <==> y in path || y == x
    {
      assert (path + [x])[|path|] == x;
    }
  }

  lemma SortedSnoc(g: Net, order: seq<Item>, x: Item)
    requires Sorted(g, order) && ItemDone(g, order, x)
    ensures Sorted(g, order + [x])
  {
    hide ItemDone;
    var more := order + [x];
    forall i | 0 <= i < |more|
      ensures ItemDone(g, more[..i], more[i])
    {
      assert more[..i] == order[..i];
      assert i == |order| ==> more[..i] == order;
    }
  }

  lemma LeaveSym(g: Net, st: Search, path: seq<Item>, s: nat)
    requires Marks(g, st, path + [S(s)], Some(s)) && S(s) !in path
    requires forall d :: d in g.deps(s) ==> d in st.order
    requires g.choice(s).Some? ==> C(g.choice(s).value) in path || C(g.choice(s).value) in st.order
    ensures Marks(g, st.Leave(S(s)), path, None) && S(s) in st.visited && S(s) !in st.order
  {
    hide Sorted;
    OnTop(path, S(s));
    SortedSnoc(g, st.order, S(s));
    OnTop(st.order, S(s));
    assert st.Leave(S(s)).visited.Keys == st.visited.Keys;
  }

  lemma OnTop(path: seq<Item>, x: Item)
    ensures forall y :: y in path + [x] <==> y in path || y == x
  {
    assert (path + [x])[|path|] == x;
  }

  // --------------------------------------------------------------- clean cuts

  /** A choice left since was not begun before. */
  lemma NewIsApart(g: Net, st: Search, st': Search, path: seq<Item>, d: nat)
    requires Marks(g, st, path, None) && Marks(g, st', path, None) && Later(st, st')
    requires C(d) in st'.order && C(d) !in st.order
    ensures Apart(g, st.order, d)
  {
    hide Sorted;
    assert C(d) in st'.visited && st'.visited[C(d)] == 2;
    assert C(d) !in path;
  }

  lemma CleanGrows(g: Net, st: Search, st': Search, path: seq<Item>, j: nat)
    requires Marks(g, st, path, None) && Marks(g, st', path, None) && Later(st, st') && st.order <= st'.order
    requires j <= |st.order| && Clean(g, st.order, j)
    ensures Clean(g, st'.order, j)
  {
    hide Marks, Whole;
    assert st'.order[..j] == st.order[..j];
    forall d: nat | C(d) in st'.order
      ensures Whole(g, st'.order[..j], d) || Apart(g, st'.order[..j], d)
    {
      if C(d) !in st.order {
        NewIsApart(g, st, st', path, d);
      }
    }
  }

  /** All choices that are done are wholly done. */
  lemma CleanEnd(g: Net, st: Search, path: seq<Item>)
    requires Marks(g, st, path, None)
    ensures Clean(g, st.order, |st.order|)
  {
    hide Sorted;
    assert st.order[..|st.order|] == st.order;
  }

  /** So they are in front of a symbol of a choice that is being visited. */
  lemma CleanLast(g: Net, st: Search, path: seq<Item>, c: nat, y: nat)
    requires Marks(g, st, path, None) && C(c) in path && y in g.syms(c) && st.order != [] && st.order[|st.order| - 1] == S(y)
    ensures Place(st.order, S(y)) == |st.order| - 1 && Clean(g, st.order, |st.order| - 1)
  {
    hide Sorted, Known;
    var m := |st.order| - 1;
    SortedLast(g, st.order);
    PlaceIn(st.order, S(y), m);
    assert st.order[..m] + [S(y)] == st.order;
    OnTop(st.order[..m], S(y));
  }

  lemma SortedLast(g: Net, order: seq<Item>)
    requires Sorted(g, order) && order != [] && order[|order| - 1].S?
    ensures order[|order| - 1] !in order[..|order| - 1]
  {
    var m := |order| - 1;
    assert ItemDone(g, order[..m], order[m]);
  }

  // --------------------------------------------------------- the symbols of a choice

  /** Between two symbols of a choice that was entered when `start` items were done: those
      before the `k`-th are done, in order and each at a clean cut, and no others. */
  ghost predicate MembersInv(g: Net, st: Search, path: seq<Item>, c: nat, skip: Option<nat>, start: nat, k: nat) {
    && Marks(g, st, path, None) && C(c) in path && k <= |g.syms(c)|
    && start <= |st.order| && Clean(g, st.order, start)
    && (skip.Some? ==> S(skip.value) in path && forall d :: d in g.deps(skip.value) ==> d in st.order[..start])
    && (forall y :: y in g.syms(c) && Some(y) != skip && Place(g.syms(c), y) < k ==> MemberDone(g, st.order, start, y))
    && (forall y :: y in g.syms(c) && (Some(y) == skip || Place(g.syms(c), y) >= k) ==> S(y) !in st.order)
    && (forall y, z :: y in g.syms(c) && z in g.syms(c) && Some(y) != skip && Some(z) != skip && Place(g.syms(c), y) < Place(g.syms(c), z) < k ==>
          Place(st.order, S(y)) < Place(st.order, S(z)))
  }

  ghost predicate MemberDone(g: Net, order: seq<Item>, start: nat, y: nat) {
    && S(y) in order && start <= |order| && S(y) !in order[..start]
    && Place(order, S(y)) <= |order| && Clean(g, order, Place(order, S(y)))
  }

  lemma MembersStart(g: Net, st: Search, path: seq<Item>, c: nat, skip: Option<nat>)
    requires Marks(g, st, path, None) && C(c) in st.visited && st.visited[C(c)] == 0
    requires skip.Some? ==> S(skip.value) in path && forall d :: d in g.deps(skip.value) ==> d in st.order
    ensures MembersInv(g, st.Enter(C(c)), path + [C(c)], c, skip, |st.order|, 0)
    ensures C(c) !in path && C(c) !in st.order
  {
    hide Sorted, Clean;
    EnterMarks(g, st, path, C(c));
    CleanEnd(g, st, path);
    OnTop(path, C(c));
    assert st.order[..|st.order|] == st.order;
  }

  lemma MembersSkip(g: Net, st: Search, path: seq<Item>, c: nat, skip: Option<nat>, start: nat, k: nat)
    requires MembersInv(g, st, path, c, skip, start, k) && k < |g.syms(c)| && skip == Some(g.syms(c)[k])
    ensures MembersInv(g, st, path, c, skip, start, k + 1)
  {
    hide Marks, Clean, MemberDone;
    OnlyThis(g.syms(c), k);
  }

  /** Nothing but the `k`-th is first there. */
  lemma OnlyThis(ss: seq<nat>, k: nat)
    requires k < |ss|
    ensures Place(ss, ss[k]) <= k && forall y :: y in ss && Place(ss, y) == k ==> y == ss[k]
  {
    PlaceLeast(ss, ss[k], k);
  }

  lemma DoneStays(g: Net, st: Search, st': Search, path: seq<Item>, start: nat, y: nat)
    requires Marks(g, st, path, None) && Marks(g, st', path, None) && Later(st, st') && st.order <= st'.order
    requires MemberDone(g, st.order, start, y)
    ensures MemberDone(g, st'.order, start, y) && Place(st'.order, S(y)) == Place(st.order, S(y))
  {
    hide Marks, Clean;
    assert st'.order[..|st.order|] == st.order;
    PlaceIn(st'.order, S(y), |st.order|);
    CleanGrows(g, st, st', path, Place(st.order, S(y)));
    assert st'.order[..start] == st.order[..start];
  }

  lemma DoneNow(g: Net, st: Search, st': Search, path: seq<Item>, c: nat, start: nat, y: nat)
    requires Marks(g, st, path, None) && Marks(g, st', path, None) && Later(st, st') && st.order <= st'.order
    requires C(c) in path && y in g.syms(c) && start <= |st.order| && S(y) !in st.order
    requires st'.order != [] && st'.order[|st'.order| - 1] == S(y)
    ensures MemberDone(g, st'.order, start, y) && Place(st'.order, S(y)) >= |st.order|
  {
    hide Marks, Clean;
    CleanLast(g, st', path, c, y);
    assert st'.order[..|st.order|] == st.order;
    PlaceIn(st'.order, S(y), |st.order|);
    PlaceIn(st'.order, S(y), start);
  }

  lemma MembersStep(g: Net, st: Search, st': Search, path: seq<Item>, c: nat, skip: Option<nat>, start: nat, k: nat)
    requires MembersInv(g, st, path, c, skip, start, k) && k < |g.syms(c)| && skip != Some(g.syms(c)[k])
    requires Marks(g, st', path, None) && Spares(g, st, st', Some(g.syms(c)[k]))
    requires S(g.syms(c)[k]) in st'.order
    requires S(g.syms(c)[k]) in st.order || st'.order[|st'.order| - 1] == S(g.syms(c)[k])
    ensures MembersInv(g, st', path, c, skip, start, k + 1)
  {
    hide Marks, Clean, MemberDone, Later;
    var ss, y := g.syms(c), g.syms(c)[k];
    OnlyThis(ss, k);
    CleanGrows(g, st, st', path, start);
    assert st'.order[..start] == st.order[..start];
    forall z | z in ss && Some(z) != skip && Place(ss, z) < k + 1
      ensures MemberDone(g, st'.order, start, z)
      ensures Place(ss, z) < k ==> Place(st'.order, S(z)) == Place(st.order, S(z)) < |st.order|
      ensures Place(ss, z) == k ==> Place(st'.order, S(z)) >= |st.order|
    {
      if Place(ss, z) < k {
        DoneStays(g, st, st', path, start, z);
        DoneIsIn(g, st.order, start, z);
      } else {
        DoneNow(g, st, st', path, c, start, y);
      }
    }
    forall z | z in ss && (Some(z) == skip || Place(ss, z) >= k + 1)
      ensures S(z) !in st'.order
    {
      NotYet(g, st, st', path, c, z, y);
    }
  }

  lemma DoneIsIn(g: Net, order: seq<Item>, start: nat, y: nat)
    requires MemberDone(g, order, start, y)
    ensures Place(order, S(y)) < |order|
  {
  }

  lemma NotYet(g: Net, st: Search, st': Search, path: seq<Item>, c: nat, z: nat, y: nat)
    requires Marks(g, st, path, None) && Spares(g, st, st', Some(y)) && C(c) in path && z in g.syms(c) && z != y && S(z) !in st.order
    ensures S(z) !in st'.order
  {
    hide Sorted;
  }

  lemma LeaveChoice(g: Net, st: Search, path: seq<Item>, c: nat, skip: Option<nat>, start: nat)
    requires MembersInv(g, st, path + [C(c)], c, skip, start, |g.syms(c)|) && C(c) !in path
    ensures C(c) in st.visited && Marks(g, st.Leave(C(c)), path, skip)
  {
    hide Marks, MembersInv, ChoiceDone;
    MembersComplete(g, st, path + [C(c)], c, skip, start);
    CloseChoice(g, st, path, c, skip, start);
  }

  lemma MembersComplete(g: Net, st: Search, path: seq<Item>, c: nat, skip: Option<nat>, start: nat)
    requires MembersInv(g, st, path, c, skip, start, |g.syms(c)|)
    ensures Marks(g, st, path, None) && ChoiceDone(g, st.order, c, start, skip)
    ensures forall y :: y in g.syms(c) ==> S(y) in st.order || Some(y) == skip
  {
    hide Marks, Clean;
    assert forall y :: y in g.syms(c) ==> Place(g.syms(c), y) < |g.syms(c)|;
    OnStack(g, st, path, C(c));
    if skip.Some? {
      OnStack(g, st, path, S(skip.value));
    }
  }

  lemma OnStack(g: Net, st: Search, path: seq<Item>, x: Item)
    requires Marks(g, st, path, None) && x in path
    ensures x !in st.order
  {
    hide Sorted;
  }

  lemma CloseChoice(g: Net, st: Search, path: seq<Item>, c: nat, skip: Option<nat>, start: nat)
    requires Marks(g, st, path + [C(c)], None) && C(c) !in path && ChoiceDone(g, st.order, c, start, skip)
    requires forall y :: y in g.syms(c) ==> S(y) in st.order || Some(y) == skip
    ensures C(c) in st.visited && Marks(g, st.Leave(C(c)), path, skip)
  {
    hide Sorted, ChoiceDone;
    OnTop(path, C(c));
    OnTop(st.order, C(c));
    SortedSnoc(g, st.order, C(c));
    assert st.Leave(C(c)).visited.Keys == st.visited.Keys;
  }

  // ------------------------------------------------------------ what a run comes to

  /** A loop that is raised is one. */
  ghost predicate RaisedOk(g: Net, o: Out) {
    o.r.Raised? ==> Cycle(g, o.r.loop) && Distinct(o.r.loop) && Colored(o.st, o.r.loop)
  }

  ghost predicate SymGood(g: Net, st: Search, path: seq<Item>, s: nat, ignore: bool, o: Out) {
    && RaisedOk(g, o)
    && (o.r.NoLoop? ==>
          && Marks(g, o.st, path, None) && Spares(g, st, o.st, if ignore then Some(s) else None) && S(s) in o.st.order
          && (S(s) in st.order || o.st.order[|o.st.order| - 1] == S(s)))
    && (o.r.Unwinding? ==>
          && Collected(g, path, o.r.loop, S(s)) && Colored(o.st, o.r.loop)
          && (ignore ==> |o.r.loop| == 1 || HasDep(g, o.r.loop)))
  }

  ghost predicate ChoiceGood(g: Net, st: Search, path: seq<Item>, c: nat, skip: Option<nat>, o: Out) {
    && RaisedOk(g, o)
    && (o.r.NoLoop? ==> Marks(g, o.st, path, skip) && Spares(g, st, o.st, None) && C(c) in o.st.order)
    && (o.r.Unwinding? ==>
          && Collected(g, path, o.r.loop, C(c)) && Colored(o.st, o.r.loop)
          && (skip.Some? && o.r.loop[0] == S(skip.value) ==> HasDep(g, o.r.loop)))
  }

  ghost predicate DepsGood(g: Net, st: Search, path: seq<Item>, s: nat, o: Out) {
    && RaisedOk(g, o)
    && (o.r.NoLoop? ==> Marks(g, o.st, path, None) && Spares(g, st, o.st, None) && forall d :: d in g.deps(s) ==> d in o.st.order)
    && (o.r.Unwinding? ==>
          && o.r.loop != [] && Colored(o.st, o.r.loop)
          && var x := o.r.loop[|o.r.loop| - 1]; Collected(g, path, o.r.loop, x) && Dep(g, S(s), x))
  }

  ghost predicate MembersGood(g: Net, st: Search, path: seq<Item>, c: nat, skip: Option<nat>, start: nat, o: Out) {
    && RaisedOk(g, o)
    && (o.r.NoLoop? ==> MembersInv(g, o.st, path, c, skip, start, |g.syms(c)|) && SparesBut(g, st, o.st, c))
    && (o.r.Unwinding? ==>
          && o.r.loop != [] && Colored(o.st, o.r.loop) && (|o.r.loop| == 1 || HasDep(g, o.r.loop))
          && var x := o.r.loop[|o.r.loop| - 1];
          Collected(g, path, o.r.loop, x) && x.S? && x.sym in g.syms(c) && Some(x.sym) != skip)
  }

  /** As `Spares`, but for the symbols of one choice. */
  ghost predicate SparesBut(g: Net, st: Search, st': Search, c: nat) {
    && Later(st, st') && st.order <= st'.order
    && forall s: nat, d: nat :: S(s) in st'.order && S(s) !in st.order && g.choice(s) == Some(d) && C(d) in st.visited && st.visited[C(d)] == 1 ==>
         d == c
  }

  lemma SparesTrans(g: Net, st: Search, a: Search, b: Search, path: seq<Item>)
    requires Marks(g, st, path, None) && Marks(g, a, path, None)
    requires Spares(g, st, a, None) && Spares(g, a, b, None)
    ensures Spares(g, st, b, None)
  {
    hide Sorted;
  }

  lemma SparesButTrans(g: Net, st: Search, a: Search, b: Search, path: seq<Item>, c: nat, y: nat)
    requires Marks(g, st, path, None) && Marks(g, a, path, None) && y in g.syms(c)
    requires Spares(g, st, a, Some(y)) && SparesBut(g, a, b, c)
    ensures SparesBut(g, st, b, c)
  {
    hide Sorted;
  }

  lemma {:induction false} SymRunGood(g: Net, st: Search, path: seq<Item>, s: nat, ignore: bool)
    requires Marks(g, st, path, None) && S(s) in st.visited
    requires ignore ==> g.choice(s).Some? && C(g.choice(s).value) in path
    ensures SymGood(g, st, path, s, ignore, SymRun(g, st, s, ignore))
    decreases |Unvisited(st)|, 0, 0
  {
    hide Marks, Spares, Cycle, Collected, HasDep, Distinct, Colored, SymGood, ChoiceGood, RaisedOk, Unvisited;
    MarksKnown(g, st, path);
    if st.visited[S(s)] == 0 {
      EnterMarks(g, st, path, S(s));
      EnterLess(st, S(s));
      DepsRunGood(g, st.Enter(S(s)), path + [S(s)], s, 0);
      var o := DepsRun(g, st.Enter(S(s)), s, 0);
      if !o.r.NoLoop? {
        BackFromDep(g, st, path, s, ignore, o);
      } else if g.choice(s).Some? && !ignore {
        var c := g.choice(s).value;
        Fewer(Unvisited(o.st), Unvisited(st.Enter(S(s))));
        OnTop(path, S(s));
        ChoiceKnown(g, o.st, path + [S(s)], s);
        ChoiceRunGood(g, o.st, path + [S(s)], c, Some(s));
        BackFromChoice(g, st, path, s, o.st, ChoiceRun(g, o.st, c, Some(s)));
      } else {
        Alone(g, st, path, s, ignore, o);
      }
    } else {
      Seen(g, st, path, s, ignore);
    }
  }

  lemma ChoiceKnown(g: Net, st: Search, path: seq<Item>, s: nat)
    requires Marks(g, st, path, None) && S(s) in st.visited
    ensures g.choice(s).Some? ==> C(g.choice(s).value) in st.visited
  {
    hide Sorted;
    assert g.choice(s).Some? ==> Tie(g, S(s), C(g.choice(s).value));
  }

  lemma Seen(g: Net, st: Search, path: seq<Item>, s: nat, ignore: bool)
    requires Marks(g, st, path, None) && S(s) in st.visited && st.visited[S(s)] != 0
    ensures SymGood(g, st, path, s, ignore, if st.visited[S(s)] == 2 then Out(st, NoLoop) else Out(st, Unwinding([S(s)])))
  {
    hide Sorted;
  }

  lemma BackFromDep(g: Net, st: Search, path: seq<Item>, s: nat, ignore: bool, o: Out)
    requires DepsGood(g, st.Enter(S(s)), path + [S(s)], s, o) && !o.r.NoLoop? && S(s) !in path && S(s) in o.st.visited
    ensures SymGood(g, st, path, s, ignore, Out(o.st, FoundLoop(o.r, S(s))))
  {
    hide Marks, Spares, Cycle, Collected, HasDep, Distinct, Chain;
    if o.r.Unwinding? {
      CollectOne(g, path, o.r.loop, S(s), o.r.loop[|o.r.loop| - 1]);
    }
  }

  lemma BackFromChoice(g: Net, st: Search, path: seq<Item>, s: nat, mid: Search, q: Out)
    requires Marks(g, st, path, None) && S(s) in st.visited && st.visited[S(s)] == 0 && S(s) !in path
    requires g.choice(s).Some? && Spares(g, st.Enter(S(s)), mid, None) && Marks(g, mid, path + [S(s)], None)
    requires (forall d :: d in g.deps(s) ==> d in mid.order) && Later(mid, q.st)
    requires ChoiceGood(g, mid, path + [S(s)], g.choice(s).value, Some(s), q)
    ensures SymGood(g, st, path, s, false, if q.r.NoLoop? then Out(q.st.Leave(S(s)), NoLoop) else Out(q.st, FoundLoop(q.r, S(s))))
  {
    hide Marks, Cycle, Collected, HasDep, Distinct, Chain, Spares, Later;
    var c := g.choice(s).value;
    SparesPrefix(g, st.Enter(S(s)), mid, None);
    StillThere(st, mid, q.st, S(s));
    if q.r.NoLoop? {
      SparesPrefix(g, mid, q.st, None);
      LeaveSym(g, q.st, path, s);
      OnTop(q.st.order, S(s));
      NotBoth(g, q.st, path + [S(s)], Some(s), C(c));
      OnTop(path, S(s));
      LeaveSpares(g, st, mid, q.st, path, s, None);
    } else if q.r.Unwinding? {
      assert Edge(g, S(s), C(c));
      CollectOne(g, path, q.r.loop, S(s), C(c));
      Nonempty(g, path + [S(s)], q.r.loop, C(c));
    }
  }

  lemma Nonempty(g: Net, path: seq<Item>, loop: seq<Item>, x: Item)
    requires Collected(g, path, loop, x)
    ensures loop != []
  {
  }

  lemma StillThere(st: Search, mid: Search, end: Search, x: Item)
    requires x in st.visited && Later(st.Enter(x), mid) && Later(mid, end)
    ensures x in end.visited
  {
  }

  lemma SparesPrefix(g: Net, st: Search, st': Search, but: Option<nat>)
    requires Spares(g, st, st', but)
    ensures st.order <= st'.order && Later(st, st') && forall d :: d in st.order ==> d in st'.order
  {
  }

  lemma NotBoth(g: Net, st: Search, path: seq<Item>, entry: Option<nat>, x: Item)
    requires Marks(g, st, path, entry) && x in st.order
    ensures x !in path
  {
    hide Sorted;
  }

  lemma LeaveSpares(g: Net, st: Search, mid: Search, end: Search, path: seq<Item>, s: nat, but: Option<nat>)
    requires Marks(g, st, path, None) && Marks(g, mid, path + [S(s)], None) && S(s) in st.visited
    requires Spares(g, st.Enter(S(s)), mid, None) && Spares(g, mid, end, None)
    requires g.choice(s).Some? && C(g.choice(s).value) in path ==> but == Some(s)
    ensures Spares(g, st, end.Leave(S(s)), but)
  {
    hide Sorted, Known, Ties;
    OnTop(path, S(s));
    OnTop(end.order, S(s));
    assert st.Enter(S(s)).visited.Keys == st.visited.Keys;
    assert end.Leave(S(s)).visited.Keys == end.visited.Keys;
    assert Unvisited(end.Leave(S(s))) <= Unvisited(end);
    assert Unvisited(st.Enter(S(s))) <= Unvisited(st);
  }

  lemma SparesSelf(g: Net, st: Search)
    ensures Spares(g, st, st, None) && forall c: nat :: SparesBut(g, st, st, c)
  {
  }

  lemma Alone(g: Net, st: Search, path: seq<Item>, s: nat, ignore: bool, o: Out)
    requires Marks(g, st, path, None) && S(s) in st.visited && st.visited[S(s)] == 0 && S(s) !in path
    requires DepsGood(g, st.Enter(S(s)), path + [S(s)], s, o) && o.r.NoLoop?
    requires g.choice(s).Some? ==> ignore && C(g.choice(s).value) in path
    ensures SymGood(g, st, path, s, ignore, Out(o.st.Leave(S(s)), NoLoop))
  {
    hide Marks, Spares;
    SparesSelf(g, o.st);
    AnyEntry(g, o.st, path + [S(s)], s);
    LeaveSym(g, o.st, path, s);
    OnTop(o.st.order, S(s));
    LeaveSpares(g, st, o.st, o.st, path, s, if ignore then Some(s) else None);
  }

  lemma AnyEntry(g: Net, st: Search, path: seq<Item>, s: nat)
    requires Marks(g, st, path, None)
    ensures Marks(g, st, path, Some(s))
  {
  }

  ghost predicate ItemGood(g: Net, st: Search, path: seq<Item>, x: Item, o: Out) {
    && RaisedOk(g, o)
    && (o.r.NoLoop? ==> Marks(g, o.st, path, None) && Spares(g, st, o.st, None) && x in o.st.order)
    && (o.r.Unwinding? ==> Collected(g, path, o.r.loop, x) && Colored(o.st, o.r.loop))
  }

  lemma {:induction false} DepsRunGood(g: Net, st: Search, path: seq<Item>, s: nat, k: nat)
    requires Marks(g, st, path, None) && S(s) in st.visited && k <= |g.deps(s)|
    requires forall i :: 0 <= i < k ==> g.deps(s)[i] in st.order
    ensures DepsGood(g, st, path, s, DepsRun(g, st, s, k))
    decreases |Unvisited(st)|, 1, |g.deps(s)| - k
  {
    hide Marks, Spares, Cycle, Collected, Colored, Distinct, Later;
    SparesSelf(g, st);
    MarksKnown(g, st, path);
    if k < |g.deps(s)| {
      var d, o := g.deps(s)[k], ItemRun(g, st, s, k);
      assert Dep(g, S(s), d);
      if d.C? {
        ChoiceRunGood(g, st, path, d.choice, None);
      } else {
        SymRunGood(g, st, path, d.sym, false);
      }
      assert ItemGood(g, st, path, d, o);
      if o.r.NoLoop? {
        SparesPrefix(g, st, o.st, None);
        Shrinks(st, o.st, S(s));
        DepsRunGood(g, o.st, path, s, k + 1);
        if DepsRun(g, o.st, s, k + 1).r.NoLoop? {
          SparesTrans(g, st, o.st, DepsRun(g, o.st, s, k + 1).st, path);
        }
      } else if o.r.Unwinding? {
        LastIs(g, path, o.r.loop, d);
      }
    }
  }

  lemma LastIs(g: Net, path: seq<Item>, loop: seq<Item>, x: Item)
    requires Collected(g, path, loop, x)
    ensures loop != [] && loop[|loop| - 1] == x
  {
  }

  lemma MarksKnown(g: Net, st: Search, path: seq<Item>)
    requires Marks(g, st, path, None)
    ensures Known(g, st) && Ties(g)
  {
  }

  lemma Shrinks(st: Search, st': Search, x: Item)
    requires Later(st, st') && x in st.visited
    ensures |Unvisited(st')| <= |Unvisited(st)| && x in st'.visited
  {
    Fewer(Unvisited(st'), Unvisited(st));
  }

  lemma {:induction false} ChoiceRunGood(g: Net, st: Search, path: seq<Item>, c: nat, skip: Option<nat>)
    requires Marks(g, st, path, None) && C(c) in st.visited
    requires skip.Some? ==> S(skip.value) in path && forall d :: d in g.deps(skip.value) ==> d in st.order
    ensures ChoiceGood(g, st, path, c, skip, ChoiceRun(g, st, c, skip))
    decreases |Unvisited(st)|, 0, 0
  {
    if st.visited[C(c)] == 0 {
      EnterLess(st, C(c));
      MembersStart(g, st, path, c, skip);
      MembersRunGood(g, st.Enter(C(c)), path + [C(c)], c, skip, |st.order|, 0);
      var o := MembersRun(g, st.Enter(C(c)), c, skip, 0);
      MembersDone(g, st, path, c, skip, o);
    } else {
      SeenChoice(g, st, path, c, skip);
    }
  }

  lemma SeenChoice(g: Net, st: Search, path: seq<Item>, c: nat, skip: Option<nat>)
    requires Marks(g, st, path, None) && C(c) in st.visited && st.visited[C(c)] != 0
    ensures ChoiceGood(g, st, path, c, skip, if st.visited[C(c)] == 2 then Out(st, NoLoop) else Out(st, Unwinding([C(c)])))
  {
    hide Sorted;
    SparesSelf(g, st);
  }

  lemma MembersDone(g: Net, st: Search, path: seq<Item>, c: nat, skip: Option<nat>, o: Out)
    requires C(c) in st.visited && st.visited[C(c)] == 0 && C(c) !in path && Later(st.Enter(C(c)), o.st)
    requires MembersGood(g, st.Enter(C(c)), path + [C(c)], c, skip, |st.order|, o)
    ensures ChoiceGood(g, st, path, c, skip, if o.r.NoLoop? then Out(o.st.Leave(C(c)), NoLoop) else Out(o.st, FoundLoop(o.r, C(c))))
  {
    hide Marks, Cycle, Collected, HasDep, Distinct, Chain, MembersInv, SparesBut, Spares;
    if o.r.NoLoop? {
      LeaveChoice(g, o.st, path, c, skip, |st.order|);
      OnTop(o.st.order, C(c));
      ChoiceSpares(g, st, o.st, c);
    } else if o.r.Unwinding? {
      var x := o.r.loop[|o.r.loop| - 1];
      assert Edge(g, C(c), x);
      CollectOne(g, path, o.r.loop, C(c), x);
      assert Colored(o.st, o.r.loop + [C(c)]);
    }
  }

  lemma ChoiceSpares(g: Net, st: Search, end: Search, c: nat)
    requires C(c) in st.visited && st.visited[C(c)] == 0 && SparesBut(g, st.Enter(C(c)), end, c)
    ensures Spares(g, st, end.Leave(C(c)), None)
  {
    OnTop(end.order, C(c));
    assert st.Enter(C(c)).visited.Keys == st.visited.Keys;
    assert end.Leave(C(c)).visited.Keys == end.visited.Keys;
    assert Unvisited(end.Leave(C(c))) <= Unvisited(end);
    assert Unvisited(st.Enter(C(c))) <= Unvisited(st);
  }

  lemma {:induction false} MembersRunGood(g: Net, st: Search, path: seq<Item>, c: nat, skip: Option<nat>, start: nat, k: nat)
    requires MembersInv(g, st, path, c, skip, start, k) && C(c) in st.visited
    ensures MembersGood(g, st, path, c, skip, start, MembersRun(g, st, c, skip, k))
    decreases |Unvisited(st)|, 1, |g.syms(c)| - k
  {
    hide Marks, Spares, SparesBut, Cycle, Collected, Colored, Distinct, Later, HasDep, MembersInv;
    SparesSelf(g, st);
    MembersMarks(g, st, path, c, skip, start, k);
    if k < |g.syms(c)| {
      var y := g.syms(c)[k];
      if skip == Some(y) {
        MembersSkip(g, st, path, c, skip, start, k);
        MembersRunGood(g, st, path, c, skip, start, k + 1);
      } else {
        assert Tie(g, C(c), S(y));
        SymRunGood(g, st, path, y, true);
        var o := SymRun(g, st, y, true);
        if o.r.NoLoop? {
          SparesPrefix(g, st, o.st, Some(y));
          Shrinks(st, o.st, C(c));
          MembersStep(g, st, o.st, path, c, skip, start, k);
          MembersRunGood(g, o.st, path, c, skip, start, k + 1);
          var q := MembersRun(g, o.st, c, skip, k + 1);
          if q.r.NoLoop? {
            SparesButTrans(g, st, o.st, q.st, path, c, y);
          }
        } else if o.r.Unwinding? {
          LastIs(g, path, o.r.loop, S(y));
        }
      }
    }
  }

  lemma MembersMarks(g: Net, st: Search, path: seq<Item>, c: nat, skip: Option<nat>, start: nat, k: nat)
    requires MembersInv(g, st, path, c, skip, start, k)
    ensures Marks(g, st, path, None) && Known(g, st) && C(c) in path && k <= |g.syms(c)|
    ensures forall y :: y in g.syms(c) ==> g.choice(y) == Some(c)
  {
  }
}
