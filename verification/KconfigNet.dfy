/** What the loop check searches: symbols and choices, what depends on what, and which symbols
    share a choice.  The order in which a search leaves them rules loops out. */
module KconfigNet {
  import opened Options
  import opened KconfigEval

  /** The dependents of each symbol, the symbols of each choice, and the choice of each symbol. */
  datatype Net = Net(deps: nat -> seq<Item>, syms: nat -> seq<nat>, choice: nat -> Option<nat>)

  ghost predicate Ties(g: Net) {
    forall s: nat, c: nat :: s in g.syms(c) <==> g.choice(s) == Some(c)
  }

  /** `y` is a dependent of `x`. */
  predicate Dep(g: Net, x: Item, y: Item) { x.S? && y in g.deps(x.sym) }

  /** A choice and one of its symbols, either way round. */
  predicate Tie(g: Net, x: Item, y: Item) {
    || (x.S? && y.C? && g.choice(x.sym) == Some(y.choice))
    || (x.C? && y.S? && y.sym in g.syms(x.choice))
  }

  predicate Edge(g: Net, x: Item, y: Item) { Dep(g, x, y) || Tie(g, x, y) }

  // -------------------------------------------------------------------- cycles

  /** Each item depends on the next. */
  predicate Chain(g: Net, loop: seq<Item>) {
    forall i :: 0 <= i < |loop| - 1 ==> Edge(g, loop[i + 1], loop[i])
  }

  predicate HasDep(g: Net, loop: seq<Item>) {
    exists i :: 0 <= i < |loop| - 1 && Dep(g, loop[i + 1], loop[i])
  }

  /** A dependency loop: the last item depends on the first again, and not all that holds the
      loop together is that symbols share choices. */
  predicate Cycle(g: Net, loop: seq<Item>) {
    && loop != [] && Chain(g, loop)
    && Edge(g, loop[0], loop[|loop| - 1])
    && (HasDep(g, loop) || Dep(g, loop[0], loop[|loop| - 1]))
  }

  ghost predicate Closed(g: Net, items: set<Item>) {
    forall x, y :: x in items && Edge(g, x, y) ==> y in items
  }

  ghost predicate Acyclic(g: Net, items: set<Item>) {
    forall loop :: Cycle(g, loop) ==> exists i :: 0 <= i < |loop| && loop[i] !in items
  }

  /** From item to dependent to dependent of that. */
  predicate Walk(g: Net, w: seq<Item>) {
    forall i :: 0 <= i < |w| - 1 ==> Edge(g, w[i], w[i + 1])
  }

  /** Where `x` first occurs. */
  function Place<T(==)>(s: seq<T>, x: T): (i: nat)
    ensures i <= |s| && (i < |s| ==> s[i] == x) && x !in s[..i]
    ensures x in s ==> i < |s|
  {
    if s == [] || s[0] == x then 0 else
      var r := Place(s[1..], x);
      assert s[..r + 1] == [s[0]] + s[1..][..r];
      r + 1
  }

  lemma PlaceLeast<T>(s: seq<T>, x: T, k: nat)
    requires k < |s| && s[k] == x
    ensures Place(s, x) <= k
  {
    var j := Place(s, x);
    assert forall i :: 0 <= i < j ==> s[..j][i] in s[..j];
  }

  lemma PlaceIn<T>(s: seq<T>, x: T, k: nat)
    requires k <= |s|
    ensures x in s[..k] <==> Place(s, x) < k
    ensures x in s[..k] ==> Place(s[..k], x) == Place(s, x)
  {
    if x in s[..k] {
      var i :| 0 <= i < k && s[..k][i] == x;
      PlaceLeast(s, x, i);
      var p, q := Place(s[..k], x), Place(s, x);
      PlaceLeast(s, x, p);
      PlaceLeast(s[..k], x, q);
    }
    assert Place(s, x) < k ==> s[..k][Place(s, x)] == x;
  }

  /** A symbol leads to an earlier symbol of its own choice, by a dependent of its own. */
  predicate BackWalk(g: Net, c: nat, w: seq<Item>) {
    && |w| >= 2 && Walk(g, w) && Dep(g, w[0], w[1]) && w[0].S? && w[|w| - 1].S?
    && w[0].sym in g.syms(c) && w[|w| - 1].sym in g.syms(c)
    && Place(g.syms(c), w[|w| - 1].sym) < Place(g.syms(c), w[0].sym)
  }

  ghost predicate NoBack(g: Net, items: set<Item>) {
    forall c: nat, w: seq<Item> :: BackWalk(g, c, w) ==> w[0] !in items
  }

  // ------------------------------------------------------------- sorted orders

  predicate InGroup(g: Net, c: nat, x: Item) {
    match x case S(s) => s in g.syms(c) case C(d) => d == c
  }

  ghost predicate Whole(g: Net, s: seq<Item>, c: nat) { forall x :: InGroup(g, c, x) ==> x in s }
  ghost predicate Apart(g: Net, s: seq<Item>, c: nat) { forall x :: InGroup(g, c, x) ==> x !in s }

  /** No choice among the items so far has its symbols on both sides of `j`. */
  ghost predicate Clean(g: Net, front: seq<Item>, j: nat)
    requires j <= |front|
  {
    forall c: nat :: C(c) in front ==> Whole(g, front[..j], c) || Apart(g, front[..j], c)
  }

  /** What precedes a choice.  It was entered when the first `start` items were done, through
      its symbol `entry` or otherwise: then its other symbols were done, in their order. */
  ghost predicate ChoiceDone(g: Net, front: seq<Item>, c: nat, start: nat, entry: Option<nat>) {
    && start <= |front| && C(c) !in front && Clean(g, front, start)
    && (entry.Some? ==> S(entry.value) !in front && forall d :: d in g.deps(entry.value) ==> d in front[..start])
    && (forall y :: y in g.syms(c) && Some(y) != entry ==> S(y) in front && S(y) !in front[..start])
    && (forall y :: y in g.syms(c) && Some(y) != entry ==> Place(front, S(y)) <= |front| && Clean(g, front, Place(front, S(y))))
    && (forall y, z :: y in g.syms(c) && z in g.syms(c) && Some(y) != entry && Some(z) != entry && Place(g.syms(c), y) < Place(g.syms(c), z) ==>
          Place(front, S(y)) < Place(front, S(z)))
  }

  ghost predicate ItemDone(g: Net, front: seq<Item>, x: Item) {
    match x
    case S(s) => S(s) !in front && forall d :: d in g.deps(s) ==> d in front
    case C(c) => exists start: nat, entry: Option<nat> :: ChoiceDone(g, front, c, start, entry)
  }

  /** Every item comes behind what has to be done before it. */
  ghost predicate Sorted(g: Net, order: seq<Item>) {
    forall i :: 0 <= i < |order| ==> ItemDone(g, order[..i], order[i])
  }

  // ------------------------------------------------------- round and round a loop

  /** Going round a loop of `n`, from each item to a dependent: where one is after `t` steps. */
  function Index(n: nat, t: nat): (i: nat)
    requires n > 0
    ensures i < n
  {
    if t == 0 || Index(n, t - 1) == 0 then n - 1 else Index(n, t - 1) - 1
  }

  function At(loop: seq<Item>, t: nat): Item
    requires loop != []
  {
    loop[Index(|loop|, t)]
  }

  lemma AtStep(g: Net, loop: seq<Item>, t: nat)
    requires Cycle(g, loop)
    ensures Edge(g, At(loop, t), At(loop, t + 1))
  {
  }

  lemma {:induction false} IndexFalls(n: nat, t: nat, k: nat)
    requires n > 0 && k <= Index(n, t)
    ensures Index(n, t + k) == Index(n, t) - k
  {
    if k > 0 {
      IndexFalls(n, t, k - 1);
    }
  }

  /** Whatever is met once is met again, as late as one likes. */
  lemma MetAgain(loop: seq<Item>, i: nat, t: nat) returns (u: nat)
    requires loop != [] && i < |loop|
    ensures u >= t && Index(|loop|, u) == i
  {
    var n := |loop|;
    var j := Index(n, t);
    if i <= j {
      u := t + (j - i);
      IndexFalls(n, t, j - i);
    } else {
      IndexFalls(n, t, j);
      var v := t + j + 1;
      assert Index(n, v) == n - 1;
      u := v + (n - 1 - i);
      IndexFalls(n, v, n - 1 - i);
    }
  }

  lemma DepAgain(g: Net, loop: seq<Item>, t: nat) returns (u: nat)
    requires Cycle(g, loop)
    ensures u >= t && Dep(g, At(loop, u), At(loop, u + 1))
  {
    if HasDep(g, loop) {
      var i :| 0 <= i < |loop| - 1 && Dep(g, loop[i + 1], loop[i]);
      u := MetAgain(loop, i + 1, t);
    } else {
      u := MetAgain(loop, 0, t);
    }
  }

  // ------------------------------------------------------------- no loop is left

  /** What a finished search leaves behind. */
  ghost predicate Swept(g: Net, order: seq<Item>, items: set<Item>) {
    && Ties(g) && Closed(g, items) && Sorted(g, order)
    && (forall s: nat :: S(s) in items ==> S(s) in order)
    && (forall s: nat, c: nat :: S(s) in order && g.choice(s) == Some(c) ==> C(c) in order)
  }

  ghost predicate Inside(loop: seq<Item>, items: set<Item>) {
    forall i :: 0 <= i < |loop| ==> loop[i] in items
  }

  lemma AllLeft(g: Net, order: seq<Item>, items: set<Item>, loop: seq<Item>, t: nat)
    requires Swept(g, order, items) && Cycle(g, loop) && Inside(loop, items)
    ensures At(loop, t) in order
  {
    hide Sorted;
    var x := At(loop, t);
    if x.C? {
      AtStep(g, loop, t);
      var y := At(loop, t + 1);
      assert y in items && y in order;
    }
  }

  /** A done symbol comes behind its dependents. */
  lemma DependentsFirst(g: Net, order: seq<Item>, x: Item, y: Item)
    requires Sorted(g, order) && x in order && Dep(g, x, y)
    ensures y in order && Place(order, y) < Place(order, x)
  {
    var i := Place(order, x);
    assert ItemDone(g, order[..i], order[i]);
    PlaceIn(order, y, i);
  }

  /** The dependents of what comes before `j` come before `j`. */
  lemma DepStays(g: Net, order: seq<Item>, j: nat, x: Item, y: Item)
    requires Sorted(g, order) && j <= |order| && x in order[..j] && Dep(g, x, y)
    ensures y in order[..j]
  {
    PlaceIn(order, x, j);
    DependentsFirst(g, order, x, y);
    PlaceIn(order, y, j);
  }

  /** And so do, at a clean cut, the symbols of the choices that are done by then. */
  lemma TieStays(g: Net, front: seq<Item>, j: nat, x: Item, y: Item)
    requires Ties(g) && j <= |front| && Clean(g, front, j) && x in front[..j] && Tie(g, x, y)
    requires (if x.C? then x else y) in front
    ensures y in front[..j]
  {
    var c := if x.C? then x.choice else y.choice;
    assert InGroup(g, c, x) && InGroup(g, c, y);
  }

  // ------------------------------------------ the last choice on the way round

  /** The choice that was left last, of those on the loop up to `n`. */
  lemma {:induction false} LastChoice(order: seq<Item>, loop: seq<Item>, n: nat) returns (c: nat, none: bool)
    requires n <= |loop|
    ensures none ==> forall i :: 0 <= i < n ==> loop[i].S?
    ensures !none ==> C(c) in loop && forall i :: 0 <= i < n && loop[i].C? ==> Place(order, loop[i]) <= Place(order, C(c))
  {
    if n == 0 {
      c, none := 0, true;
    } else {
      c, none := LastChoice(order, loop, n - 1);
      var x := loop[n - 1];
      if x.C? && (none || Place(order, x) > Place(order, C(c))) {
        c, none := x.choice, false;
      }
    }
  }

  /** Between symbols and one choice alone there is no way out without a dependent. */
  lemma {:induction false} LeavesByDep(g: Net, loop: seq<Item>, c: nat, t: nat, u: nat) returns (v: nat)
    requires Ties(g) && Cycle(g, loop) && t <= u && InGroup(g, c, At(loop, t)) && Dep(g, At(loop, u), At(loop, u + 1))
    ensures t <= v && InGroup(g, c, At(loop, v)) && Dep(g, At(loop, v), At(loop, v + 1))
    decreases u - t
  {
    if Dep(g, At(loop, t), At(loop, t + 1)) {
      v := t;
    } else {
      AtStep(g, loop, t);
      assert InGroup(g, c, At(loop, t + 1));
      v := LeavesByDep(g, loop, c, t + 1, u);
    }
  }

  /** The way from `t` on, up to the next item of the group. */
  lemma {:induction false} FirstReturn(g: Net, loop: seq<Item>, c: nat, t: nat, u: nat) returns (k: nat)
    requires loop != [] && t <= u && InGroup(g, c, At(loop, u))
    ensures t <= k && InGroup(g, c, At(loop, k)) && forall i :: t <= i < k ==> !InGroup(g, c, At(loop, i))
    decreases u - t
  {
    if InGroup(g, c, At(loop, t)) {
      k := t;
    } else {
      k := FirstReturn(g, loop, c, t + 1, u);
    }
  }

  /** What stays in front of a clean cut as long as it meets no symbol of the last choice. */
  lemma {:induction false} StaysInFront(g: Net, order: seq<Item>, loop: seq<Item>, c: nat, p: nat, j: nat, t: nat, k: nat)
    requires Ties(g) && Sorted(g, order) && Cycle(g, loop) && t <= k && j <= p <= |order| && p == Place(order, C(c))
    requires Clean(g, order[..p], j) && At(loop, t) in order[..j]
    requires forall i :: t <= i < k ==> !InGroup(g, c, At(loop, i))
    requires forall d: nat :: C(d) in loop ==> C(d) in order && Place(order, C(d)) <= p
    ensures At(loop, k) in order[..j]
    decreases k - t
  {
    hide Sorted, Clean, Ties, Cycle, Place, InGroup;
    NotEmpty(g, loop);
    if t < k {
      OneStep(g, order, loop, c, p, j, t);
      StaysInFront(g, order, loop, c, p, j, t + 1, k);
    }
  }

  lemma OneStep(g: Net, order: seq<Item>, loop: seq<Item>, c: nat, p: nat, j: nat, t: nat)
    requires Ties(g) && Sorted(g, order) && Cycle(g, loop) && j <= p <= |order| && p == Place(order, C(c))
    requires Clean(g, order[..p], j) && At(loop, t) in order[..j] && !InGroup(g, c, At(loop, t))
    requires forall d: nat :: C(d) in loop ==> C(d) in order && Place(order, C(d)) <= p
    ensures At(loop, t + 1) in order[..j]
  {
    hide Sorted, Clean, Cycle, Ties, Place, At, Tie, InGroup, Dep;
    NotEmpty(g, loop);
    var x, y := At(loop, t), At(loop, t + 1);
    AtStep(g, loop, t);
    OnLoop(loop, t);
    OnLoop(loop, t + 1);
    if Dep(g, x, y) {
      DepStays(g, order, j, x, y);
    } else {
      var d := TieChoice(g, x, y);
      TieStep(g, order, c, p, j, x, y, d);
    }
  }

  lemma OnLoop(loop: seq<Item>, t: nat)
    requires loop != []
    ensures At(loop, t) in loop
  {
  }

  lemma TieChoice(g: Net, x: Item, y: Item) returns (d: nat)
    requires Ties(g) && Tie(g, x, y)
    ensures InGroup(g, d, x) && InGroup(g, d, y) && (x == C(d) || y == C(d))
  {
    d := if x.C? then x.choice else y.choice;
  }

  lemma TieStep(g: Net, order: seq<Item>, c: nat, p: nat, j: nat, x: Item, y: Item, d: nat)
    requires Ties(g) && j <= p <= |order| && p == Place(order, C(c)) && Clean(g, order[..p], j)
    requires Tie(g, x, y) && InGroup(g, d, x) && !InGroup(g, c, x) && (x == C(d) || y == C(d))
    requires x in order[..j] && C(d) in order && Place(order, C(d)) <= p
    ensures y in order[..j]
  {
    hide Clean;
    PlaceIn(order, C(d), p);
    SamePlace(order, C(d), C(c));
    assert order[..p][..j] == order[..j];
    TieStays(g, order[..p], j, x, y);
  }

  /** Without choices, every step goes further to the front. */
  lemma {:induction false} OnlyDown(g: Net, order: seq<Item>, items: set<Item>, loop: seq<Item>, t: nat)
    requires Swept(g, order, items) && Cycle(g, loop) && Inside(loop, items) && forall i :: 0 <= i < |loop| ==> loop[i].S?
    ensures Place(order, At(loop, t)) + t <= |order|
  {
    hide Sorted;
    if t > 0 {
      OnlyDown(g, order, items, loop, t - 1);
      AtStep(g, loop, t - 1);
      AllLeft(g, order, items, loop, t - 1);
      DependentsFirst(g, order, At(loop, t - 1), At(loop, t));
    }
  }

  /** Where the cut is: at the start for the symbol the choice was entered by, and at the
      symbol itself for the others. */
  function CutAt(front: seq<Item>, v: nat, start: nat, entry: Option<nat>): nat {
    if entry == Some(v) then start else Place(front, S(v))
  }

  lemma CutHolds(g: Net, order: seq<Item>, c: nat, p: nat, v: nat, start: nat, entry: Option<nat>, x: Item)
    requires Sorted(g, order) && p <= |order| && ChoiceDone(g, order[..p], c, start, entry) && v in g.syms(c) && Dep(g, S(v), x)
    ensures var j := CutAt(order[..p], v, start, entry);
      j <= p && Clean(g, order[..p], j) && x in order[..j]
  {
    hide Clean;
    var front := order[..p];
    if entry == Some(v) {
      assert front[..start] == order[..start];
    } else {
      var j := Place(front, S(v));
      PlaceIn(order, S(v), p);
      assert order[j] == S(v) && ItemDone(g, order[..j], order[j]);
    }
  }

  /** What is in front of the cut is an earlier symbol of the choice. */
  lemma InFrontIsEarlier(g: Net, front: seq<Item>, c: nat, v: nat, start: nat, entry: Option<nat>, y: Item)
    requires ChoiceDone(g, front, c, start, entry) && v in g.syms(c) && InGroup(g, c, y)
    requires CutAt(front, v, start, entry) <= |front| && y in front[..CutAt(front, v, start, entry)]
    ensures y.S? && y.sym in g.syms(c) && Place(g.syms(c), y.sym) < Place(g.syms(c), v)
  {
    hide Clean;
    var j := CutAt(front, v, start, entry);
    PlaceIn(front, y, j);
    assert y in front;
    if y.S? {
      SamePlace(g.syms(c), v, y.sym);
    }
  }

  lemma SamePlace<T>(s: seq<T>, x: T, y: T)
    requires x in s
    ensures Place(s, x) == Place(s, y) ==> x == y
  {
  }

  /** A loop that such an order leaves over leads from a symbol back to an earlier one of its
      choice. */
  lemma LoopGoesBack(g: Net, order: seq<Item>, items: set<Item>, loop: seq<Item>) returns (c: nat, w: seq<Item>)
    requires Swept(g, order, items) && Cycle(g, loop) && Inside(loop, items)
    ensures BackWalk(g, c, w) && w[0] in items
  {
    hide Swept, Cycle, BackWalk, Inside, Place;
    NotEmpty(g, loop);
    var none;
    c, none := LastChoice(order, loop, |loop|);
    if none {
      OnlyDown(g, order, items, loop, |order| + 1);
      assert false;
    } else {
      ChoicesUpTo(order, loop, c);
      w := BackFrom(g, order, items, loop, c);
    }
  }

  lemma ChoicesUpTo(order: seq<Item>, loop: seq<Item>, c: nat)
    requires forall i :: 0 <= i < |loop| && loop[i].C? ==> Place(order, loop[i]) <= Place(order, C(c))
    ensures forall d: nat :: C(d) in loop ==> Place(order, C(d)) <= Place(order, C(c))
  {
  }

  /** From the last choice on the loop: out by a dependent, and round to the next of its symbols. */
  lemma BackFrom(g: Net, order: seq<Item>, items: set<Item>, loop: seq<Item>, c: nat) returns (w: seq<Item>)
    requires Swept(g, order, items) && Cycle(g, loop) && Inside(loop, items) && C(c) in loop
    requires forall d: nat :: C(d) in loop ==> Place(order, C(d)) <= Place(order, C(c))
    ensures BackWalk(g, c, w) && w[0] in items
  {
    hide Sorted, Cycle, Edge;
    NotEmpty(g, loop);
    var i0 := Place(loop, C(c));
    var t := MetAgain(loop, i0, 0);
    var u := DepAgain(g, loop, t);
    var i := LeavesByDep(g, loop, c, t, u);
    var u' := MetAgain(loop, i0, i + 1);
    var k := FirstReturn(g, loop, c, i + 1, u');
    LoopChoicesLeft(g, order, items, loop);
    Returns(g, order, loop, c, i, k);
    w := Stretch(g, loop, i, k);
  }

  lemma Stretch(g: Net, loop: seq<Item>, i: nat, k: nat) returns (w: seq<Item>)
    requires Cycle(g, loop) && i < k
    ensures |w| == k - i + 1 && Walk(g, w) && loop != []
    ensures w[0] == At(loop, i) && w[1] == At(loop, i + 1) && w[|w| - 1] == At(loop, k)
  {
    w := seq(k - i + 1, n requires 0 <= n < k - i + 1 => At(loop, i + n));
    forall n | 0 <= n < |w| - 1
      ensures Edge(g, w[n], w[n + 1])
    {
      AtStep(g, loop, i + n);
    }
  }

  lemma NotEmpty(g: Net, loop: seq<Item>)
    requires Cycle(g, loop)
    ensures loop != []
  {
  }

  lemma LoopChoicesLeft(g: Net, order: seq<Item>, items: set<Item>, loop: seq<Item>)
    requires Swept(g, order, items) && Cycle(g, loop) && Inside(loop, items)
    ensures forall d: nat :: C(d) in loop ==> C(d) in order
  {
    forall d: nat | C(d) in loop
      ensures C(d) in order
    {
      var t := MetAgain(loop, Place(loop, C(d)), 0);
      AllLeft(g, order, items, loop, t);
    }
  }

  lemma Returns(g: Net, order: seq<Item>, loop: seq<Item>, c: nat, i: nat, k: nat)
    requires Ties(g) && Sorted(g, order) && Cycle(g, loop) && C(c) in order && i < k
    requires InGroup(g, c, At(loop, i)) && Dep(g, At(loop, i), At(loop, i + 1)) && InGroup(g, c, At(loop, k))
    requires forall n :: i + 1 <= n < k ==> !InGroup(g, c, At(loop, n))
    requires forall d: nat :: C(d) in loop ==> C(d) in order && Place(order, C(d)) <= Place(order, C(c))
    ensures At(loop, k).S? && At(loop, k).sym in g.syms(c)
    ensures Place(g.syms(c), At(loop, k).sym) < Place(g.syms(c), At(loop, i).sym)
  {
    hide ChoiceDone, Clean, Cycle, InGroup;
    var p := Place(order, C(c));
    assert ItemDone(g, order[..p], order[p]);
    var start: nat, entry: Option<nat> :| ChoiceDone(g, order[..p], c, start, entry);
    var v := At(loop, i).sym;
    InGroupSym(g, c, v);
    CutHolds(g, order, c, p, v, start, entry, At(loop, i + 1));
    var j := CutAt(order[..p], v, start, entry);
    StaysInFront(g, order, loop, c, p, j, i + 1, k);
    assert order[..p][..j] == order[..j];
    InFrontIsEarlier(g, order[..p], c, v, start, entry, At(loop, k));
  }

  lemma InGroupSym(g: Net, c: nat, v: nat)
    requires InGroup(g, c, S(v))
    ensures v in g.syms(c)
  {
  }

  /** So without such a walk there is no loop; and such a walk makes a loop. */
  lemma SweptIsAcyclic(g: Net, order: seq<Item>, items: set<Item>)
    requires Swept(g, order, items) && NoBack(g, items)
    ensures Acyclic(g, items)
  {
    hide Swept, BackWalk, Cycle;
    forall loop | Cycle(g, loop)
      ensures exists i :: 0 <= i < |loop| && loop[i] !in items
    {
      if Inside(loop, items) {
        var c, w := LoopGoesBack(g, order, items, loop);
      }
    }
  }

  lemma AcyclicGoesNotBack(g: Net, items: set<Item>)
    requires Ties(g) && Closed(g, items) && Acyclic(g, items)
    ensures NoBack(g, items)
  {
    forall c: nat, w: seq<Item> | BackWalk(g, c, w)
      ensures w[0] !in items
    {
      if w[0] in items {
        var loop := WalkLoop(g, c, w);
        StaysInside(g, items, w, |w| - 1);
        assert Edge(g, w[|w| - 1], C(c));
        forall i | 0 <= i < |loop|
          ensures loop[i] in items
        {
          if i > 0 {
            StaysInside(g, items, w, |loop| - 1 - i);
          }
        }
      }
    }
  }

  lemma {:induction false} StaysInside(g: Net, items: set<Item>, w: seq<Item>, i: nat)
    requires Closed(g, items) && Walk(g, w) && i < |w| && w[0] in items
    ensures w[i] in items
  {
    if i > 0 {
      StaysInside(g, items, w, i - 1);
    }
  }

  lemma WalkLoop(g: Net, c: nat, w: seq<Item>) returns (loop: seq<Item>)
    requires Ties(g) && BackWalk(g, c, w)
    ensures Cycle(g, loop) && |loop| == |w| + 1 && loop[0] == C(c) && forall i :: 1 <= i < |loop| ==> loop[i] == w[|loop| - 1 - i]
  {
    var n := |w| + 1;
    loop := seq(n, i requires 0 <= i < n => if i == 0 then C(c) else w[n - 1 - i]);
    forall i | 0 <= i < n - 1
      ensures Edge(g, loop[i + 1], loop[i])
    {
      if i == 0 {
        assert loop[1] == w[|w| - 1] && Tie(g, w[|w| - 1], C(c));
      } else {
        var k := n - 2 - i;
        assert Edge(g, w[k], w[k + 1]);
      }
    }
    assert Dep(g, loop[n - 1], loop[n - 2]);
    assert HasDep(g, loop);
    assert Tie(g, loop[0], loop[n - 1]);
  }
}
