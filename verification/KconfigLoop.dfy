/** Dependency loop detection, choices included. */
module KconfigLoop {
  import opened Options
  import opened KconfigEval
  import opened KconfigNet
  import opened KconfigSearch

  /** The check over the defined symbols from the `k`-th on. */
  ghost function AllRun(g: Net, st: Search, all: seq<nat>, k: nat): (o: Out)
    requires Known(g, st) && k <= |all| && forall s :: s in all ==> S(s) in st.visited
    ensures Later(st, o.st)
    decreases |all| - k
  {
    if k == |all| then Out(st, NoLoop)
    else
      var o := SymRun(g, st, all[k], false);
      if !o.r.NoLoop? then o else AllRun(g, o.st, all, k + 1)
  }

  /** Nothing visited yet. */
  function Start(items: set<Item>): Search { Search(map x | x in items :: 0, []) }

  lemma StartMarks(g: Net, items: set<Item>)
    requires Ties(g) && Closed(g, items)
    ensures Marks(g, Start(items), [], None) && Start(items).visited.Keys == items
  {
    assert Start(items).visited.Keys == items;
  }

  ghost predicate AllGood(g: Net, st: Search, all: seq<nat>, o: Out) {
    && RaisedOk(g, o) && !o.r.Unwinding?
    && (o.r.NoLoop? ==> Marks(g, o.st, [], None) && Later(st, o.st) && forall s :: s in all ==> S(s) in o.st.order)
  }

  lemma {:induction false} AllRunGood(g: Net, st: Search, all: seq<nat>, k: nat)
    requires Marks(g, st, [], None) && k <= |all| && forall s :: s in all ==> S(s) in st.visited
    requires forall i :: 0 <= i < k ==> S(all[i]) in st.order
    ensures AllGood(g, st, all, AllRun(g, st, all, k))
    decreases |all| - k
  {
    hide Marks, Cycle, Distinct, Colored;
    MarksKnown(g, st, []);
    if k < |all| {
      SymRunGood(g, st, [], all[k], false);
      var o := SymRun(g, st, all[k], false);
      if o.r.NoLoop? {
        SparesPrefix(g, st, o.st, None);
        AllRunGood(g, o.st, all, k + 1);
      }
    }
  }

  lemma PassSweeps(g: Net, st: Search, items: set<Item>)
    requires Marks(g, st, [], None) && st.visited.Keys == items && forall s: nat :: S(s) in items ==> S(s) in st.order
    ensures Swept(g, st.order, items)
  {
  }

  /** What the check is worth.  A loop it raises is one, so without loops it passes; and what it
      passes has a loop only if some choice symbol leads back to an earlier one of its choice. */
  lemma CheckDecides(g: Net, items: set<Item>, all: seq<nat>)
    requires Ties(g) && Closed(g, items) && forall s: nat :: s in all <==> S(s) in items
    ensures Known(g, Start(items)) && forall s :: s in all ==> S(s) in Start(items).visited
    ensures var o := AllRun(g, Start(items), all, 0);
      && AllGood(g, Start(items), all, o) && (o.r.NoLoop? ==> Swept(g, o.st.order, items))
      && (o.r.NoLoop? && NoBack(g, items) <==> Acyclic(g, items))
  {
    hide Marks, Swept, NoBack, Cycle, Closed, Distinct;
    StartMarks(g, items);
    MarksKnown(g, Start(items), []);
    AllRunGood(g, Start(items), all, 0);
    var o := AllRun(g, Start(items), all, 0);
    if o.r.NoLoop? {
      PassSweeps(g, o.st, items);
      if NoBack(g, items) {
        SweptIsAcyclic(g, o.st.order, items);
      }
    }
    if Acyclic(g, items) {
      AcyclicGoesNotBack(g, items);
    }
  }

  class LoopChecker {
    const g: Net
    /** 0 unvisited, 1 being visited, 2 known not to be part of a loop. */
    var visited: map<Item, nat>
    /** The items of colour 2, in the order in which they got it. */
    ghost var order: seq<Item>

    ghost function St(): Search
      reads this
    {
      Search(visited, order)
    }

    constructor (g: Net, items: set<Item>)
      ensures this.g == g && St() == Start(items)
    {
      this.g := g;
      visited := map x | x in items :: 0;
      order := [];
    }

    /** `_check_dep_loop_sym`. */
    method CheckSym(sym: nat, ignoreChoice: bool) returns (r: Outcome)
      requires Known(g, St()) && S(sym) in visited
      modifies this`visited, this`order
      ensures Out(St(), r) == SymRun(g, old(St()), sym, ignoreChoice)
      decreases |Unvisited(St())|, 1
    {
      if visited[S(sym)] == 0 {
        r := VisitSym(sym, ignoreChoice);
        return;
      }
      if visited[S(sym)] == 2 {
        return NoLoop;
      }
      return Unwinding([S(sym)]);
    }

    method VisitSym(sym: nat, ignoreChoice: bool) returns (r: Outcome)
      requires Known(g, St()) && S(sym) in visited && visited[S(sym)] == 0
      modifies this`visited, this`order
      ensures Out(St(), r) == SymRun(g, old(St()), sym, ignoreChoice)
      decreases |Unvisited(St())|, 0
    {
      hide Unvisited, FoundLoop, Known, ChoiceRun, DepsRun, SymRun;
      ghost var st0 := St();
      EnterLess(st0, S(sym));
      SymUnfold(g, st0, sym, ignoreChoice);
      visited := visited[S(sym) := 1];
      ghost var st1 := St();
      var todo := g.deps(sym);
      for k := 0 to |todo|
        invariant Later(st1, St()) && Known(g, St()) && DepsRun(g, St(), sym, k) == DepsRun(g, st1, sym, 0)
      {
        DepsUnfold(g, St(), sym, k);
        var d := todo[k];
        ghost var st := St();
        DepKnown(g, st, sym, k);
        Fewer(Unvisited(st), Unvisited(st1));
        if d.C? {
          r := CheckChoice(d.choice, None);
        } else {
          r := CheckSym(d.sym, false);
        }
        assert Out(St(), r) == ItemRun(g, st, sym, k);
        if !r.NoLoop? {
          r := Found(r, S(sym));
          return;
        }
      }
      DepsUnfold(g, St(), sym, |todo|);
      if g.choice(sym).Some? && !ignoreChoice {
        OwnChoiceKnown(g, St(), sym);
        Fewer(Unvisited(St()), Unvisited(st1));
        r := CheckChoice(g.choice(sym).value, Some(sym));
        if !r.NoLoop? {
          r := Found(r, S(sym));
          return;
        }
      }
      visited := visited[S(sym) := 2];
      order := order + [S(sym)];
      return NoLoop;
    }

    /** `_check_dep_loop_choice`. */
    method CheckChoice(c: nat, skip: Option<nat>) returns (r: Outcome)
      requires Known(g, St()) && C(c) in visited
      modifies this`visited, this`order
      ensures Out(St(), r) == ChoiceRun(g, old(St()), c, skip)
      decreases |Unvisited(St())|, 1
    {
      if visited[C(c)] == 0 {
        r := VisitChoice(c, skip);
        return;
      }
      if visited[C(c)] == 2 {
        return NoLoop;
      }
      return Unwinding([C(c)]);
    }

    method VisitChoice(c: nat, skip: Option<nat>) returns (r: Outcome)
      requires Known(g, St()) && C(c) in visited && visited[C(c)] == 0
      modifies this`visited, this`order
      ensures Out(St(), r) == ChoiceRun(g, old(St()), c, skip)
      decreases |Unvisited(St())|, 0
    {
      hide Unvisited, FoundLoop, Known, ChoiceRun, MembersRun, SymRun;
      ghost var st0 := St();
      EnterLess(st0, C(c));
      ChoiceUnfold(g, st0, c, skip);
      visited := visited[C(c) := 1];
      ghost var st1 := St();
      var syms := g.syms(c);
      for k := 0 to |syms|
        invariant Later(st1, St()) && Known(g, St()) && MembersRun(g, St(), c, skip, k) == MembersRun(g, st1, c, skip, 0)
      {
        MembersUnfold(g, St(), c, skip, k);
        if skip != Some(syms[k]) {
          MemberKnown(g, St(), c, k);
          Fewer(Unvisited(St()), Unvisited(st1));
          r := CheckSym(syms[k], true);
          if !r.NoLoop? {
            r := Found(r, C(c));
            return;
          }
        }
      }
      MembersUnfold(g, St(), c, skip, |syms|);
      visited := visited[C(c) := 2];
      order := order + [C(c)];
      return NoLoop;
    }

    /** `_found_dep_loop`. */
    method Found(found: Outcome, cur: Item) returns (r: Outcome)
      ensures r == FoundLoop(found, cur)
    {
      match found
      case Unwinding(loop) =>
        if loop != [] && loop[0] == cur {
          return Raised(loop);
        }
        return Unwinding(loop + [cur]);
      case _ => return found;
    }

    /** The check over all defined symbols. */
    method CheckAll(all: seq<nat>) returns (r: Outcome)
      requires Ties(g) && Closed(g, visited.Keys) && St() == Start(visited.Keys) && forall s: nat :: s in all <==> S(s) in visited
      modifies this`visited, this`order
      ensures visited.Keys == old(visited.Keys) && (r.NoLoop? || r.Raised?)
      ensures r.NoLoop? && NoBack(g, visited.Keys) <==> Acyclic(g, visited.Keys)
      ensures r.NoLoop? ==> Swept(g, order, visited.Keys)
      ensures r.Raised? ==> Cycle(g, r.loop) && Distinct(r.loop) && Colored(St(), r.loop)
      ensures Known(g, old(St())) && Out(St(), r) == AllRun(g, old(St()), all, 0)
    {
      hide SymRun, Acyclic, NoBack, Swept, Cycle, Start, Distinct, Closed;
      ghost var st0, items := St(), visited.Keys;
      CheckDecides(g, items, all);
      for k := 0 to |all|
        invariant Later(st0, St()) && AllRun(g, St(), all, k) == AllRun(g, st0, all, 0)
      {
        r := CheckSym(all[k], false);
        if !r.NoLoop? {
          return;
        }
      }
      return NoLoop;
    }
  }

  // -------------------------------------------------- the search, step by step

  lemma SymUnfold(g: Net, st: Search, s: nat, ignore: bool)
    requires Known(g, st) && S(s) in st.visited && st.visited[S(s)] == 0
    ensures Known(g, st.Enter(S(s))) && S(s) in st.Enter(S(s)).visited
    ensures var o := DepsRun(g, st.Enter(S(s)), s, 0);
      && Known(g, o.st) && S(s) in o.st.visited && (g.choice(s).Some? ==> C(g.choice(s).value) in o.st.visited)
      && SymRun(g, st, s, ignore) ==
         if !o.r.NoLoop? then Out(o.st, FoundLoop(o.r, S(s)))
         else
           var q := if g.choice(s).Some? && !ignore then ChoiceRun(g, o.st, g.choice(s).value, Some(s)) else o;
           if q.r.NoLoop? then Out(q.st.Leave(S(s)), NoLoop) else Out(q.st, FoundLoop(q.r, S(s)))
  {
    EnterLess(st, S(s));
    OwnChoiceKnown(g, st, s);
  }

  lemma DepsUnfold(g: Net, st: Search, s: nat, k: nat)
    requires Known(g, st) && S(s) in st.visited && k <= |g.deps(s)|
    ensures k == |g.deps(s)| ==> DepsRun(g, st, s, k) == Out(st, NoLoop)
    ensures k < |g.deps(s)| ==>
      var o := ItemRun(g, st, s, k);
      && Known(g, o.st)
      && DepsRun(g, st, s, k) == if o.r.NoLoop? then DepsRun(g, o.st, s, k + 1) else o
  {
  }

  lemma ChoiceUnfold(g: Net, st: Search, c: nat, skip: Option<nat>)
    requires Known(g, st) && C(c) in st.visited && st.visited[C(c)] == 0
    ensures Known(g, st.Enter(C(c))) && C(c) in st.Enter(C(c)).visited
    ensures var o := MembersRun(g, st.Enter(C(c)), c, skip, 0);
      ChoiceRun(g, st, c, skip) == if o.r.NoLoop? then Out(o.st.Leave(C(c)), NoLoop) else Out(o.st, FoundLoop(o.r, C(c)))
  {
    EnterLess(st, C(c));
  }

  lemma MembersUnfold(g: Net, st: Search, c: nat, skip: Option<nat>, k: nat)
    requires Known(g, st) && C(c) in st.visited && k <= |g.syms(c)|
    ensures k == |g.syms(c)| ==> MembersRun(g, st, c, skip, k) == Out(st, NoLoop)
    ensures k < |g.syms(c)| && skip == Some(g.syms(c)[k]) ==> MembersRun(g, st, c, skip, k) == MembersRun(g, st, c, skip, k + 1)
    ensures k < |g.syms(c)| && skip != Some(g.syms(c)[k]) ==>
      && S(g.syms(c)[k]) in st.visited
      && var o := SymRun(g, st, g.syms(c)[k], true);
      && Known(g, o.st)
      && MembersRun(g, st, c, skip, k) == if o.r.NoLoop? then MembersRun(g, o.st, c, skip, k + 1) else o
  {
    if k < |g.syms(c)| {
      MemberKnown(g, st, c, k);
    }
  }

  lemma DepKnown(g: Net, st: Search, s: nat, k: nat)
    requires Known(g, st) && S(s) in st.visited && k < |g.deps(s)|
    ensures g.deps(s)[k] in st.visited
  {
    assert Dep(g, S(s), g.deps(s)[k]);
  }

  lemma OwnChoiceKnown(g: Net, st: Search, s: nat)
    requires Known(g, st) && S(s) in st.visited
    ensures g.choice(s).Some? ==> C(g.choice(s).value) in st.visited
  {
    assert g.choice(s).Some? ==> Tie(g, S(s), C(g.choice(s).value));
  }

  lemma MemberKnown(g: Net, st: Search, c: nat, k: nat)
    requires Known(g, st) && C(c) in st.visited && k < |g.syms(c)|
    ensures S(g.syms(c)[k]) in st.visited
  {
    assert Tie(g, C(c), S(g.syms(c)[k]));
  }
}
