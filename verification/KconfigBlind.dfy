/** A dependency loop that the check does not see: it runs from one symbol of a choice to an
    earlier one, and the choice was entered by a third. */
module KconfigBlind {
  import opened Options
  import opened KconfigEval
  import opened KconfigNet
  import opened KconfigSearch
  import opened KconfigLoop
  import opened KconfigRank

  /** A choice of symbols 0, 1 and 2; symbol 3 depends on 2, and 1 on 3. */
  function Blind(): Config {
    var other := SymDef(Other, [], [], Lit(0), Lit(0), Lit(2), None);
    var plain := SymDef(Bool, [Ref(C(0))], [], Lit(0), Lit(0), Ref(C(0)), Some(0));
    var behind := SymDef(Bool, [And(Ref(C(0)), Ref(S(3)))], [], Lit(0), Lit(0), Ref(C(0)), Some(0));
    var between := SymDef(Bool, [Ref(S(2))], [], Lit(0), Lit(0), Ref(S(2)), None);
    Config(s => if s == 0 || s == 2 then plain else if s == 1 then behind else if s == 3 then between else other,
           c => if c == 0 then ChoiceDef(Bool, false, [Lit(2)], [], [0, 1, 2]) else ChoiceDef(Other, false, [], [], []),
           {S(0), S(1), S(2), S(3), C(0)}, 4, _ => 0)
  }

  function BlindNet(): Net {
    Net(s => if s == 2 then [S(3)] else if s == 3 then [S(1)] else [],
        c => if c == 0 then [0, 1, 2] else [],
        s => if s <= 2 then Some(0) else None)
  }

  lemma BlindRefers(x: Item, s: nat)
    ensures Refers(Blind(), x, S(s)) <==> (s == 2 && x == S(3)) || (s == 3 && x == S(1))
  {
    var cfg := Blind();
    if x.S? {
      var d := cfg.sym(x.sym);
      if x.sym == 1 {
        assert d.prompts[0] == And(Ref(C(0)), Ref(S(3)));
        assert S(3) in ExprItems(d.prompts[0]) && InSome(d.prompts, S(3));
      } else if x.sym == 3 {
        assert d.prompts[0] == Ref(S(2)) && InSome(d.prompts, S(2));
      } else if x.sym == 0 || x.sym == 2 {
        assert d.prompts[0] == Ref(C(0));
      }
    } else if x.choice == 0 {
      assert cfg.choice(0).prompts[0] == Lit(2);
    }
  }

  lemma BlindDescribed()
    ensures Describes(Blind(), BlindNet()) && Membership(Blind()) && Ties(BlindNet())
  {
    hide Refers;
    forall s: nat, x: Item
      ensures x in BlindNet().deps(s) <==> Refers(Blind(), x, S(s))
    {
      BlindRefers(x, s);
    }
  }

  lemma BlindClosed()
    ensures Closed(BlindNet(), Blind().items)
  {
  }

  /** Evaluation cannot be ranked: the selection needs the visibility of symbol 1, that the
      value of 3, that the value of 2, and that the selection. */
  lemma BlindIsUnranked(rank: Node -> nat)
    ensures !Ranks(Blind(), rank)
  {
    hide RankedSym, RankedChoice, Mentions, Listed;
    var cfg := Blind().(rank := rank);
    BlindSyms(cfg);
    BlindChoice(cfg);
    assert !(RankedSym(cfg, 1) && RankedSym(cfg, 2) && RankedSym(cfg, 3) && RankedChoice(cfg, 0));
  }

  lemma BlindSyms(cfg: Config)
    requires cfg == Blind().(rank := cfg.rank)
    ensures RankedSym(cfg, 1) ==> cfg.rank(TriN(3)) < cfg.rank(Vis(S(1)))
    ensures RankedSym(cfg, 2) ==> cfg.rank(Sel(0)) < cfg.rank(TriN(2))
    ensures RankedSym(cfg, 3) ==> cfg.rank(TriN(2)) < cfg.rank(TriN(3))
  {
    var p, q := cfg.sym(1).prompts, cfg.sym(3).prompts;
    assert p[0] == And(Ref(C(0)), Ref(S(3))) && ExprRank(cfg, p[0]) >= ExprRank(cfg, Ref(S(3))) == cfg.rank(TriN(3)) + 1;
    assert q[0] == Ref(S(2)) && ExprRank(cfg, q[0]) == cfg.rank(TriN(2)) + 1;
  }

  lemma BlindChoice(cfg: Config)
    requires cfg == Blind().(rank := cfg.rank)
    ensures RankedChoice(cfg, 0) ==> cfg.rank(Vis(S(1))) < cfg.rank(Sel(0))
  {
    assert cfg.choice(0).syms[1] == 1;
  }

  lemma BlindHasLoop()
    ensures Cycle(BlindNet(), [C(0), S(1), S(3), S(2)])
  {
    var g, loop := BlindNet(), [C(0), S(1), S(3), S(2)];
    assert Tie(g, loop[1], loop[0]) && Dep(g, loop[2], loop[1]) && Dep(g, loop[3], loop[2]) && Tie(g, loop[0], loop[3]);
    assert HasDep(g, loop);
  }

  /** A symbol without dependents, entered from its choice. */
  lemma Bare(g: Net, st: Search, s: nat)
    requires Known(g, st) && S(s) in st.visited && st.visited[S(s)] == 0 && g.deps(s) == []
    ensures SymRun(g, st, s, true) == Out(st.Enter(S(s)).Leave(S(s)), NoLoop)
  {
    SymUnfold(g, st, s, true);
    DepsUnfold(g, st.Enter(S(s)), s, 0);
  }

  /** A symbol with one dependent, which is done. */
  lemma OneDone(g: Net, st: Search, s: nat, d: nat)
    requires Known(g, st) && S(s) in st.visited && st.visited[S(s)] == 0 && g.deps(s) == [S(d)] && g.choice(s).None?
    requires s != d && S(d) in st.visited && st.visited[S(d)] == 2
    ensures SymRun(g, st, s, false) == Out(st.Enter(S(s)).Leave(S(s)), NoLoop)
  {
    var st1 := st.Enter(S(s));
    SymUnfold(g, st, s, false);
    DepsUnfold(g, st1, s, 0);
    DepsUnfold(g, st1, s, 1);
    assert g.deps(s)[0] == S(d);
  }

  /** A symbol entered from its choice, with one dependent that comes to nothing. */
  lemma OneFine(g: Net, st: Search, s: nat, d: nat, st': Search)
    requires Known(g, st) && S(s) in st.visited && st.visited[S(s)] == 0 && g.deps(s) == [S(d)] && S(d) in st.visited
    requires Known(g, st.Enter(S(s))) && S(d) in st.Enter(S(s)).visited && SymRun(g, st.Enter(S(s)), d, false) == Out(st', NoLoop)
    ensures SymRun(g, st, s, true) == Out(st'.Leave(S(s)), NoLoop)
  {
    var st1 := st.Enter(S(s));
    SymUnfold(g, st, s, true);
    DepsUnfold(g, st1, s, 0);
    assert g.deps(s)[0] == S(d);
    DepsUnfold(g, st', s, 1);
  }

  /** The symbols of the choice, entered by symbol 0. */
  lemma BlindMembers(st: Search)
    requires st.visited.Keys == {S(0), S(1), S(2), S(3), C(0)} && st.visited[S(1)] == st.visited[S(2)] == st.visited[S(3)] == 0
    ensures Known(BlindNet(), st)
    ensures var o := MembersRun(BlindNet(), st, 0, Some(0), 0);
      o.r == NoLoop && o.st.visited == st.visited[S(1) := 2][S(3) := 2][S(2) := 2]
  {
    hide SymRun, DepsRun, MembersRun, Known;
    var g := BlindNet();
    BlindKnown(st);
    MembersUnfold(g, st, 0, Some(0), 0);
    MembersUnfold(g, st, 0, Some(0), 1);
    Bare(g, st, 1);
    var st3 := st.Enter(S(1)).Leave(S(1));
    BlindKnown(st3);
    MembersUnfold(g, st3, 0, Some(0), 2);
    var st4 := st3.Enter(S(2));
    BlindKnown(st4);
    OneDone(g, st4, 3, 1);
    var st5 := st4.Enter(S(3)).Leave(S(3));
    OneFine(g, st3, 2, 3, st5);
    BlindKnown(st5.Leave(S(2)));
    MembersUnfold(g, st5.Leave(S(2)), 0, Some(0), 3);
    assert st5.Leave(S(2)).visited == st.visited[S(1) := 2][S(3) := 2][S(2) := 2];
  }

  /** The search from symbol 0 leaves all of them without an objection. */
  lemma BlindFromFirst(st: Search)
    requires st == Start({S(0), S(1), S(2), S(3), C(0)})
    ensures Known(BlindNet(), st) && S(0) in st.visited
    ensures var o := SymRun(BlindNet(), st, 0, false);
      o.r == NoLoop && forall x :: x in st.visited ==> x in o.st.visited && o.st.visited[x] == 2
  {
    hide SymRun, DepsRun, ChoiceRun, MembersRun, Known;
    var g := BlindNet();
    BlindKnown(st);
    SymUnfold(g, st, 0, false);
    var st1 := st.Enter(S(0));
    DepsUnfold(g, st1, 0, 0);
    ChoiceUnfold(g, st1, 0, Some(0));
    BlindMembers(st1.Enter(C(0)));
  }

  lemma BlindKnown(st: Search)
    requires st.visited.Keys == {S(0), S(1), S(2), S(3), C(0)}
    ensures Known(BlindNet(), st)
  {
    BlindClosed();
  }

  /** The check passes, there is a loop, and evaluation cannot be ranked. */
  lemma LoopIsNotSeen()
    ensures var cfg, g := Blind(), BlindNet();
      && Describes(cfg, g) && Membership(cfg) && Known(g, Start(cfg.items))
      && (forall s :: s in [0, 1, 2, 3] ==> S(s) in Start(cfg.items).visited)
      && AllRun(g, Start(cfg.items), [0, 1, 2, 3], 0).r == NoLoop
      && Cycle(g, [C(0), S(1), S(3), S(2)]) && forall rank :: !Ranks(cfg, rank)
  {
    hide SymRun, Known, Ranks, Cycle, Describes, Membership, Blind, BlindNet;
    var cfg, g := Blind(), BlindNet();
    BlindDescribed();
    BlindHasLoop();
    BlindItems();
    BlindFromFirst(Start(cfg.items));
    forall rank
      ensures !Ranks(cfg, rank)
    {
      BlindIsUnranked(rank);
    }
    var o, all := SymRun(g, Start(cfg.items), 0, false), [0, 1, 2, 3];
    KeysKnown(g, Start(cfg.items), o.st);
    AllDone(g, o.st, all, 1);
  }

  lemma KeysKnown(g: Net, st: Search, st': Search)
    requires Known(g, st) && Later(st, st')
    ensures Known(g, st')
  {
  }

  lemma BlindItems()
    ensures Blind().items == {S(0), S(1), S(2), S(3), C(0)}
  {
  }

  lemma {:induction false} AllDone(g: Net, st: Search, all: seq<nat>, k: nat)
    requires Known(g, st) && k <= |all| && forall s :: s in all ==> S(s) in st.visited && st.visited[S(s)] == 2
    ensures AllRun(g, st, all, k) == Out(st, NoLoop)
    decreases |all| - k
  {
    if k < |all| {
      AllDone(g, st, all, k + 1);
    }
  }
}
