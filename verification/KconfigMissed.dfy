/** Configurations that only get a warning and on which the cache can go wrong: a choice default
    outside the choice, and a choice symbol prompted outside it.  Nothing refers to what they
    read, so an assignment that changes it does not reach them. */
module KconfigMissed {
  import opened Options
  import opened KconfigEval
  import opened KconfigStable
  import opened KconfigInvalidate

  // ---------------------------------------------------------------- in general

  /** Where nothing can be reached from `x` but the items of a closed set. */
  ghost predicate OutOfReach(cfg: Config, k: Caches, x: Item, items: set<Item>, i: Item) {
    x in items && Closed(cfg, k, items) && S(cfg.modules) !in items && i !in items
  }

  lemma NotReached(cfg: Config, k: Caches, x: Item, items: set<Item>, i: Item)
    requires OutOfReach(cfg, k, x, items, i)
    ensures !Reached(cfg, k, x, i)
  {
    hide Closed;
  }

  /** A changed value that is cached and not reached is answered wrongly from then on. */
  lemma Missed(cfg: Config, u: User, u': User, k: Caches, k': Caches, x: Item, items: set<Item>, nd: Node)
    requires WellFormed(cfg) && CacheOk(cfg, u, k) && Invalidated(cfg, k, k', x) && Contained(cfg, k, k', x)
    requires Has(k, nd) && Differs(cfg, u, u', nd) && OutOfReach(cfg, k, x, items, ItemOf(nd))
    ensures Has(k', nd) && !Agrees(cfg, u', k', nd)
  {
    hide WellFormed, Needed, VisEv, TriEv, SelEv, Closed, Contained, Invalidated, Reached;
    NotReached(cfg, k, x, items, ItemOf(nd));
    LostIsReached(cfg, k, k', x, nd);
    InvalidatedWithin(cfg, k, k', x);
    assert Agrees(cfg, u, k, nd);
  }

  lemma InvalidatedWithin(cfg: Config, k: Caches, k': Caches, x: Item)
    requires Invalidated(cfg, k, k', x)
    ensures Within(k', k)
  {
  }

  // ------------------------------------------------------------ outside defaults

  /** Defaults before the `j`-th do not apply. */
  ghost predicate Reaches(cfg: Config, u: User, c: nat, j: nat)
    requires WellFormed(cfg)
  {
    && j < |cfg.choice(c).defaults|
    && forall i :: 0 <= i < j ==> SkipsDefault(cfg, u, c, i)
  }

  ghost predicate SkipsDefault(cfg: Config, u: User, c: nat, i: nat)
    requires WellFormed(cfg) && i < |cfg.choice(c).defaults|
  {
    DefaultsRanked(cfg, c);
    !TryDefaultEv(cfg, u, c, cfg.choice(c).defaults[i]).v
  }

  lemma {:induction false} PickIsVisible(cfg: Config, u: User, c: nat, ds: seq<ChoiceDefault>)
    requires WellFormed(cfg)
    requires forall i :: 0 <= i < |ds| ==>
      ExprRank(cfg, ds[i].cond) <= cfg.rank(Sel(c)) && cfg.rank(Vis(S(ds[i].sym))) < cfg.rank(Sel(c))
    ensures var r := VisibleDefaultEv(cfg, u, c, ds).v; r.Some? ==> VisEv(cfg, u, S(r.value)).v != 0
    decreases |ds|
  {
    hide WellFormed, VisEv, ExprEv, ExprRank;
    if ds != [] && !TryDefaultEv(cfg, u, c, ds[0]).v {
      PickIsVisible(cfg, u, c, ds[1..]);
    }
  }

  lemma {:induction false} FirstIsVisible(cfg: Config, u: User, c: nat, ss: seq<nat>)
    requires WellFormed(cfg)
    requires forall i :: 0 <= i < |ss| ==> cfg.rank(Vis(S(ss[i]))) < cfg.rank(Sel(c))
    ensures var r := FirstVisibleEv(cfg, u, c, ss).v; r.Some? ==> VisEv(cfg, u, S(r.value)).v != 0
    decreases |ss|
  {
    hide WellFormed, VisEv;
    if ss != [] && VisEv(cfg, u, S(ss[0])).v == 0 {
      FirstIsVisible(cfg, u, c, ss[1..]);
    }
  }

  /** What is selected is visible. */
  lemma SelectionIsVisible(cfg: Config, u: User, c: nat)
    requires WellFormed(cfg)
    ensures var r := SelEv(cfg, u, c).v; r.Some? ==> VisEv(cfg, u, S(r.value)).v != 0
  {
    hide VisibleDefaultEv, FirstVisibleEv, VisEv, ModeEv, ExprRank;
    assert RankedChoice(cfg, c);
    DefaultsRanked(cfg, c);
    PickIsVisible(cfg, u, c, cfg.choice(c).defaults);
    FirstIsVisible(cfg, u, c, cfg.choice(c).syms);
  }

  lemma {:induction false} PicksFirst(cfg: Config, u: User, c: nat, ds: seq<ChoiceDefault>, j: nat)
    requires WellFormed(cfg) && j < |ds|
    requires forall i :: 0 <= i < |ds| ==>
      ExprRank(cfg, ds[i].cond) <= cfg.rank(Sel(c)) && cfg.rank(Vis(S(ds[i].sym))) < cfg.rank(Sel(c))
    requires (forall i :: 0 <= i < j ==> !TryDefaultEv(cfg, u, c, ds[i]).v) && TryDefaultEv(cfg, u, c, ds[j]).v
    ensures VisibleDefaultEv(cfg, u, c, ds).v == Some(ds[j].sym)
    decreases |ds|
  {
    hide WellFormed, TryDefaultEv, ExprRank;
    if j > 0 {
      PicksFirst(cfg, u, c, ds[1..], j - 1);
    }
  }

  /** In y mode and without a selection of the user's, the first default that applies is selected. */
  lemma DefaultIsSelected(cfg: Config, u: User, c: nat, j: nat)
    requires WellFormed(cfg) && Reaches(cfg, u, c, j) && ModeEv(cfg, u, c).v == 2 && c !in u.sel
    requires var d := cfg.choice(c).defaults[j]; ExprEv(cfg, u, d.cond).v != 0 && VisEv(cfg, u, S(d.sym)).v != 0
    ensures SelEv(cfg, u, c).v == Some(cfg.choice(c).defaults[j].sym)
  {
    hide VisibleDefaultEv, FirstVisibleEv, VisEv, ModeEv, ExprRank, ExprEv;
    DefaultsRanked(cfg, c);
    var ds := cfg.choice(c).defaults;
    forall i | 0 <= i < j
      ensures !TryDefaultEv(cfg, u, c, ds[i]).v
    {
      assert SkipsDefault(cfg, u, c, i);
    }
    PicksFirst(cfg, u, c, ds, j);
  }

  /** A choice in y mode comes down to a default whose symbol an assignment makes invisible, and
      the assignment reaches the choice by no reference: the selection stays as it was cached,
      which is wrong. */
  lemma DefaultIsMissed(cfg: Config, u: User, u': User, k: Caches, k': Caches, x: Item, items: set<Item>, c: nat, j: nat)
    requires WellFormed(cfg) && CacheOk(cfg, u, k) && Invalidated(cfg, k, k', x) && Contained(cfg, k, k', x) && Has(k, Sel(c))
    requires Reaches(cfg, u, c, j) && ModeEv(cfg, u, c).v == 2 && c !in u.sel
    requires var d := cfg.choice(c).defaults[j];
      ExprEv(cfg, u, d.cond).v != 0 && VisEv(cfg, u, S(d.sym)).v != 0 && VisEv(cfg, u', S(d.sym)).v == 0
    requires OutOfReach(cfg, k, x, items, C(c))
    ensures Has(k', Sel(c)) && k'.sel[c] == Some(cfg.choice(c).defaults[j].sym) != SelEv(cfg, u', c).v
  {
    hide WellFormed, Needed, VisEv, TriEv, SelEv, ModeEv, ExprEv, Closed, Contained, Invalidated, Reached;
    DefaultIsSelected(cfg, u, c, j);
    SelectionIsVisible(cfg, u', c);
    Missed(cfg, u, u', k, k', x, items, Sel(c));
    InvalidatedWithin(cfg, k, k', x);
    assert Agrees(cfg, u, k, Sel(c));
  }

  // ------------------------------------------------- symbols prompted elsewhere

  /** A selected choice symbol is cached, the selection goes to another, and the symbol is
      reached by no reference: it stays y. */
  lemma ChoiceSymbolIsMissed(cfg: Config, u: User, u': User, k: Caches, k': Caches, x: Item, items: set<Item>, s: nat, c: nat)
    requires WellFormed(cfg) && CacheOk(cfg, u, k) && Invalidated(cfg, k, k', x) && Contained(cfg, k, k', x) && Has(k, TriN(s))
    requires cfg.sym(s).kind != Other && cfg.sym(s).choice == Some(c)
    requires VisEv(cfg, u, S(s)).v == 2 && SelEv(cfg, u, c).v == Some(s) != SelEv(cfg, u', c).v
    requires OutOfReach(cfg, k, x, items, S(s))
    ensures Has(k', TriN(s)) && k'.tri[s] == 2 != TriEv(cfg, u', s).v
  {
    hide WellFormed, Needed, VisEv, SelEv, ModeEv, ExprEv, Closed, Contained, Invalidated, Reached;
    Missed(cfg, u, u', k, k', x, items, TriN(s));
    InvalidatedWithin(cfg, k, k', x);
    assert Agrees(cfg, u, k, TriN(s));
  }

  // ----------------------------------------------- the first input: an outside default

  const NOTHING := SymDef(Other, [], [], Lit(0), Lit(0), Lit(2), None)
  const PLAIN := SymDef(Bool, [Lit(2)], [], Lit(0), Lit(0), Lit(2), None)
  const INSIDE := SymDef(Bool, [Ref(C(0))], [], Lit(0), Lit(0), Ref(C(0)), Some(0))

  function NoChoice(): ChoiceDef { ChoiceDef(Other, false, [], [], []) }

  /** Symbols read before the choice, the choice, its symbols, its selection, their values. */
  function RankOf(nd: Node): nat {
    match nd
    case Vis(S(s)) => if s == 0 || s == 3 then 0 else if s == 2 then 2 else 5
    case TriN(s) => if s == 0 || s == 3 then 1 else if s == 2 then 3 else 7
    case Vis(C(_)) => 4
    case Sel(_) => 6
  }

  /** A choice of symbol 1 alone, with a default to symbol 2 outside it, whose prompt depends on
      symbol 3. */
  function OutsideDefault(): Config {
    Config(s => if s == 0 || s == 3 then PLAIN
                else if s == 1 then INSIDE
                else if s == 2 then PLAIN.(prompts := [Ref(S(3))])
                else NOTHING,
           c => if c == 0 then ChoiceDef(Bool, false, [Lit(2)], [ChoiceDefault(2, Lit(2))], [1]) else NoChoice(),
           {S(0), S(1), S(2), S(3), C(0)}, 0, RankOf)
  }

  lemma OutsideDefaultSym(s: nat)
    ensures RankedSym(OutsideDefault(), s) && Listed(OutsideDefault(), s)
    ensures OutsideDefault().sym(s).kind != Other ==> S(s) in OutsideDefault().items
  {
  }

  lemma OutsideDefaultChoice(c: nat)
    ensures RankedChoice(OutsideDefault(), c)
    ensures OutsideDefault().choice(c).kind != Other ==> C(c) in OutsideDefault().items
  {
    var d := OutsideDefault().choice(c);
    if c == 0 {
      assert d.prompts[0] == Lit(2) && d.defaults[0] == ChoiceDefault(2, Lit(2)) && d.syms[0] == 1;
    } else {
      assert d == NoChoice();
    }
  }

  lemma OutsideDefaultItems(x: Item, y: Item)
    ensures Mentions(OutsideDefault(), x, y) <==>
      (x == S(1) && y == C(0)) || (x == S(2) && y == S(3)) || (x == C(0) && y == S(1))
  {
    var cfg := OutsideDefault();
    match x {
      case S(s) =>
        var d := cfg.sym(s);
        if s == 1 {
          assert d == INSIDE && d.prompts[0] == Ref(C(0));
        } else if s == 2 {
          assert d.prompts[0] == Ref(S(3)) && d.directDep == Lit(2);
          assert InSome(d.prompts, S(3));
        } else if s == 0 || s == 3 {
          assert d == PLAIN && d.prompts[0] == Lit(2);
        } else {
          assert d == NOTHING;
        }
      case C(c) =>
        var d := cfg.choice(c);
        if c == 0 {
          assert d.prompts[0] == Lit(2) && d.defaults[0].cond == Lit(2) && d.syms[0] == 1;
        } else {
          assert d == NoChoice();
        }
    }
  }

  lemma OutsideDefaultIsAccepted()
    ensures WellFormed(OutsideDefault()) && !Covered(OutsideDefault())
  {
    hide RankedSym, RankedChoice, Listed, Mentions;
    var cfg := OutsideDefault();
    forall x: Item, y: Item
      ensures Mentions(cfg, x, y) ==> x in cfg.items
    {
      OutsideDefaultItems(x, y);
    }
    forall s: nat
      ensures RankedSym(cfg, s) && Listed(cfg, s) && (cfg.sym(s).kind != Other ==> S(s) in cfg.items)
    {
      OutsideDefaultSym(s);
    }
    forall c: nat
      ensures RankedChoice(cfg, c) && (cfg.choice(c).kind != Other ==> C(c) in cfg.items)
    {
      OutsideDefaultChoice(c);
    }
    OutsideDefaultItems(C(0), S(2));
    assert cfg.choice(0).defaults[0].sym == 2;
    assert !ChoiceCovered(cfg, 0);
  }

  lemma PlainVisibility(cfg: Config, u: User, s: nat)
    requires WellFormed(cfg) && cfg.sym(s) == PLAIN
    ensures VisEv(cfg, u, S(s)) == Res(2, {})
  {
    assert PLAIN.prompts[0] == Lit(2);
    assert PromptsEv(cfg, u, PLAIN.prompts, 0, cfg.rank(Vis(S(s)))) == Res(0, {});
    assert PromptsEv(cfg, u, PLAIN.prompts, 1, cfg.rank(Vis(S(s)))) == Res(2, {});
  }

  lemma PlainValue(cfg: Config, u: User, s: nat)
    requires WellFormed(cfg) && cfg.sym(s) == PLAIN && s in u.val && u.val[s] != 1
    ensures TriEv(cfg, u, s) == Res(u.val[s], {Vis(S(s))})
  {
    PlainVisibility(cfg, u, s);
    hide VisEv;
    assert BaseEv(cfg, u, s, 2) == Res(u.val[s], {});
    assert SelectedEv(cfg, u, s, u.val[s]) == Res(u.val[s], {});
    assert FinalEv(cfg, u, s, u.val[s]) == Res(u.val[s], {});
  }

  lemma PlainChoice(cfg: Config, u: User, c: nat)
    requires WellFormed(cfg) && cfg.choice(c).kind == Bool && !cfg.choice(c).optional && cfg.choice(c).prompts == [Lit(2)] && c !in u.mode
    ensures VisEv(cfg, u, C(c)) == Res(2, {}) && ModeEv(cfg, u, c) == Res(2, {Vis(C(c))})
  {
    var ps, r := cfg.choice(c).prompts, cfg.rank(Vis(C(c)));
    assert RankedChoice(cfg, c);
    assert PromptsEv(cfg, u, ps, 0, r) == Res(0, {});
    assert PromptsEv(cfg, u, ps, 1, r) == Res(2, {});
  }

  /** A prompt that is a single reference, to a symbol or to the choice. */
  lemma OnePrompt(cfg: Config, u: User, s: nat, e: Expr)
    requires WellFormed(cfg) && cfg.sym(s).prompts == [e] && cfg.sym(s).kind == Bool
    requires cfg.sym(s).choice.Some? ==> cfg.choice(cfg.sym(s).choice.value).kind == Bool
    requires ExprEv(cfg, u, e).v != 1
    ensures VisEv(cfg, u, S(s)) == ExprEv(cfg, u, e)
  {
    hide ExprEv;
    assert RankedSym(cfg, s);
    var ps, r := cfg.sym(s).prompts, cfg.rank(Vis(S(s)));
    assert ExprRank(cfg, ps[0]) <= r;
    assert PromptsEv(cfg, u, ps, 0, r) == Res(0, {});
    assert PromptsEv(cfg, u, ps, 1, r) == Res(Max(0, ExprEv(cfg, u, e).v), {} + ExprEv(cfg, u, e).seen);
    assert {} + ExprEv(cfg, u, e).seen == ExprEv(cfg, u, e).seen;
  }

  /** Symbol 3 on: the outside default is selected.  Symbol 3 off: the choice's own symbol. */
  lemma OutsideDefaultValues(u: User)
    requires WellFormed(OutsideDefault()) && 3 in u.val && u.val[3] != 1 && u.mode == map[] && u.sel == map[]
    ensures var cfg := OutsideDefault();
      && VisEv(cfg, u, S(3)) == Res(2, {}) && TriEv(cfg, u, 3) == Res(u.val[3], {Vis(S(3))})
      && VisEv(cfg, u, S(2)) == Res(u.val[3], {TriN(3)})
      && VisEv(cfg, u, C(0)) == Res(2, {}) && VisEv(cfg, u, S(1)).v == 2
      && SelEv(cfg, u, 0).v == Some(if u.val[3] == 2 then 2 else 1)
      && (u.val[3] == 2 ==> SelEv(cfg, u, 0).seen == {Vis(C(0)), Vis(S(2))})
  {
    var cfg := OutsideDefault();
    PlainVisibility(cfg, u, 3);
    PlainValue(cfg, u, 3);
    PlainChoice(cfg, u, 0);
    assert ExprEv(cfg, u, Ref(S(3))) == Res(u.val[3], {TriN(3)});
    OnePrompt(cfg, u, 2, Ref(S(3)));
    assert ExprEv(cfg, u, Ref(C(0))) == ModeEv(cfg, u, 0);
    OnePrompt(cfg, u, 1, Ref(C(0)));
    hide VisEv, TriEv, ModeEv, PromptsEv;
    OutsideDefaultSelection(u);
  }

  lemma OutsideDefaultSelection(u: User)
    requires WellFormed(OutsideDefault()) && 3 in u.val && u.val[3] != 1 && u.sel == map[]
    requires var cfg := OutsideDefault();
      VisEv(cfg, u, S(2)).v == u.val[3] && VisEv(cfg, u, S(1)).v == 2 && ModeEv(cfg, u, 0) == Res(2, {Vis(C(0))})
    ensures var cfg := OutsideDefault();
      && SelEv(cfg, u, 0).v == Some(if u.val[3] == 2 then 2 else 1)
      && (u.val[3] == 2 ==> SelEv(cfg, u, 0).seen == {Vis(C(0)), Vis(S(2))})
  {
    hide VisEv, TriEv, ModeEv, PromptsEv;
    var cfg, d := OutsideDefault(), ChoiceDefault(2, Lit(2));
    DefaultsRanked(cfg, 0);
    assert RankedChoice(cfg, 0);
    var ds, ss := cfg.choice(0).defaults, cfg.choice(0).syms;
    assert ds == [d] && ss == [1] && ds[1..] == [];
    assert ds[0] == d && ss[0] == 1;
    assert ExprEv(cfg, u, d.cond) == Res(2, {});
    assert TryDefaultEv(cfg, u, 0, d) == Res(u.val[3] != 0, {} + {Vis(S(2))});
    if u.val[3] == 2 {
      assert VisibleDefaultEv(cfg, u, 0, ds) == Res(Some(2), {Vis(S(2))});
      assert {Vis(C(0))} + {Vis(S(2))} == {Vis(C(0)), Vis(S(2))};
    } else {
      assert VisibleDefaultEv(cfg, u, 0, ds[1..]) == Res(None, {});
      assert VisibleDefaultEv(cfg, u, 0, ds).v == None;
      assert FirstVisibleEv(cfg, u, 0, ss).v == Some(1);
    }
  }

  /** The cache after reading the selection with symbol 3 on, and what switching symbol 3 off
      leaves of it: a selection that is wrong. */
  lemma OutsideDefaultIsMissed()
    ensures var cfg := OutsideDefault();
      var u, u' := User(map[3 := 2], map[], map[]), User(map[3 := 0], map[], map[]);
      var k := Caches(map[C(0) := 2, S(2) := 2, S(3) := 2], map[3 := 2], map[0 := Some(2)]);
      var k' := Caches(map[C(0) := 2], map[], map[0 := Some(2)]);
      && WellFormed(cfg) && u' == AfterSet(cfg, u, 3, 0) && Touched(cfg, u, 3, 0) == Some(S(3))
      && CacheOk(cfg, u, k) && Invalidated(cfg, k, k', S(3)) && Contained(cfg, k, k', S(3))
      && SelEv(cfg, u', 0).v == Some(1) && !AllRight(cfg, u', k') && !CacheOk(cfg, u', k')
  {
    hide WellFormed, VisEv, TriEv, SelEv, Invalidated, Contained, OutsideDefault, Needed, AfterSet, Touched;
    var cfg := OutsideDefault();
    var u, u' := User(map[3 := 2], map[], map[]), User(map[3 := 0], map[], map[]);
    var k := Caches(map[C(0) := 2, S(2) := 2, S(3) := 2], map[3 := 2], map[0 := Some(2)]);
    var k' := Caches(map[C(0) := 2], map[], map[0 := Some(2)]);
    OutsideDefaultIsAccepted();
    OutsideDefaultValues(u');
    OutsideDefaultCaches(k, k');
    OutsideDefaultOk(u, k);
    OutsideDefaultSet(u, u');
    assert Has(k', Sel(0)) && !Agrees(cfg, u', k', Sel(0));
  }

  lemma OutsideDefaultSet(u: User, u': User)
    requires u == User(map[3 := 2], map[], map[]) && u' == User(map[3 := 0], map[], map[])
    ensures u' == AfterSet(OutsideDefault(), u, 3, 0) && Touched(OutsideDefault(), u, 3, 0) == Some(S(3))
  {
    assert u.val[3 := 0] == u'.val;
  }

  lemma OutsideDefaultOk(u: User, k: Caches)
    requires WellFormed(OutsideDefault()) && u == User(map[3 := 2], map[], map[])
    requires k == Caches(map[C(0) := 2, S(2) := 2, S(3) := 2], map[3 := 2], map[0 := Some(2)])
    ensures CacheOk(OutsideDefault(), u, k)
  {
    hide WellFormed, VisEv, TriEv, SelEv;
    var cfg := OutsideDefault();
    OutsideDefaultValues(u);
    forall nd | Has(k, nd)
      ensures Agrees(cfg, u, k, nd) && AllHas(k, Needed(cfg, u, nd))
    {
      assert nd == Vis(C(0)) || nd == Vis(S(2)) || nd == Vis(S(3)) || nd == TriN(3) || nd == Sel(0);
      assert !Constant(cfg, ItemOf(nd));
    }
  }

  lemma OutsideDefaultDependents(j: Item)
    ensures Dependents(OutsideDefault(), j) ==
      if j == C(0) then {S(1)} else if j == S(3) then {S(2)} else if j == S(1) then {C(0)} else {}
  {
    hide Mentions;
    forall d: Item
      ensures d in Dependents(OutsideDefault(), j) <==>
        (d == S(1) && j == C(0)) || (d == S(2) && j == S(3)) || (d == C(0) && j == S(1))
    {
      OutsideDefaultItems(d, j);
    }
  }

  lemma OutsideDefaultCaches(k: Caches, k': Caches)
    requires k == Caches(map[C(0) := 2, S(2) := 2, S(3) := 2], map[3 := 2], map[0 := Some(2)])
    requires k' == Caches(map[C(0) := 2], map[], map[0 := Some(2)])
    ensures Invalidated(OutsideDefault(), k, k', S(3)) && Contained(OutsideDefault(), k, k', S(3))
  {
    hide Dependents, OutsideDefault;
    var cfg := OutsideDefault();
    OutsideDefaultModules();
    forall items: set<Item> | S(3) in items && Closed(cfg, k, items)
      ensures LostWithin(cfg, k, k', items)
    {
      OutsideDefaultDependents(S(3));
      assert S(2) in items;
      assert forall r :: Has(k, r) && !Has(k', r) ==> ItemOf(r) == S(2) || ItemOf(r) == S(3);
    }
    OutsideDefaultLost(k, k');
  }

  lemma OutsideDefaultLost(k: Caches, k': Caches)
    requires k == Caches(map[C(0) := 2, S(2) := 2, S(3) := 2], map[3 := 2], map[0 := Some(2)])
    requires k' == Caches(map[C(0) := 2], map[], map[0 := Some(2)])
    ensures Invalidated(OutsideDefault(), k, k', S(3))
  {
    hide Dependents, OutsideDefault;
    OutsideDefaultModules();
    OutsideDefaultDependents(S(3));
    OutsideDefaultDependents(S(2));
    assert forall j :: j in k.vis && j !in k'.vis ==> j == S(2) || j == S(3);
  }

  lemma OutsideDefaultModules()
    ensures OutsideDefault().modules == 0
  {
  }

  // -------------------------------------------------- the second: a prompt elsewhere

  /** A choice of symbols 1 and 4, where 1 has no prompt inside the choice and one outside. */
  function OutsidePrompt(): Config {
    Config(s => if s == 0 then PLAIN
                else if s == 1 then PLAIN.(choice := Some(0))
                else if s == 4 then INSIDE
                else NOTHING,
           c => if c == 0 then ChoiceDef(Bool, false, [Lit(2)], [], [1, 4]) else NoChoice(),
           {S(0), S(1), S(4), C(0)}, 0, RankOf)
  }

  lemma OutsidePromptSym(s: nat)
    ensures RankedSym(OutsidePrompt(), s) && Listed(OutsidePrompt(), s)
    ensures OutsidePrompt().sym(s).kind != Other ==> S(s) in OutsidePrompt().items
  {
  }

  lemma OutsidePromptChoice(c: nat)
    ensures RankedChoice(OutsidePrompt(), c)
    ensures OutsidePrompt().choice(c).kind != Other ==> C(c) in OutsidePrompt().items
  {
    var d := OutsidePrompt().choice(c);
    if c == 0 {
      assert d.prompts[0] == Lit(2) && d.syms[0] == 1 && d.syms[1] == 4;
    } else {
      assert d == NoChoice();
    }
  }

  lemma OutsidePromptItems(x: Item, y: Item)
    ensures Mentions(OutsidePrompt(), x, y) <==> (x == S(4) && y == C(0)) || (x == C(0) && (y == S(1) || y == S(4)))
  {
    var cfg := OutsidePrompt();
    match x {
      case S(s) =>
        var d := cfg.sym(s);
        if s == 4 {
          assert d == INSIDE && d.prompts[0] == Ref(C(0));
        } else if s == 0 || s == 1 {
          assert d.prompts[0] == Lit(2) && d.directDep == Lit(2);
        } else {
          assert d == NOTHING;
        }
      case C(c) =>
        var d := cfg.choice(c);
        if c == 0 {
          assert d.prompts[0] == Lit(2) && d.syms[0] == 1 && d.syms[1] == 4;
        } else {
          assert d == NoChoice();
        }
    }
  }

  lemma OutsidePromptIsAccepted()
    ensures WellFormed(OutsidePrompt()) && !Covered(OutsidePrompt())
  {
    hide RankedSym, RankedChoice, Listed, Mentions;
    var cfg := OutsidePrompt();
    forall x: Item, y: Item
      ensures Mentions(cfg, x, y) ==> x in cfg.items
    {
      OutsidePromptItems(x, y);
    }
    forall s: nat
      ensures RankedSym(cfg, s) && Listed(cfg, s) && (cfg.sym(s).kind != Other ==> S(s) in cfg.items)
    {
      OutsidePromptSym(s);
    }
    forall c: nat
      ensures RankedChoice(cfg, c) && (cfg.choice(c).kind != Other ==> C(c) in cfg.items)
    {
      OutsidePromptChoice(c);
    }
    OutsidePromptItems(S(1), C(0));
    assert !SymCovered(cfg, 1);
  }

  /** Whatever the selection, both symbols are visible. */
  lemma OutsidePromptVisible(u: User)
    requires WellFormed(OutsidePrompt()) && u.mode == map[]
    ensures var cfg := OutsidePrompt();
      && VisEv(cfg, u, S(1)) == Res(2, {}) && VisEv(cfg, u, S(4)).v == 2
      && VisEv(cfg, u, C(0)) == Res(2, {}) && ModeEv(cfg, u, 0) == Res(2, {Vis(C(0))})
  {
    var cfg := OutsidePrompt();
    PlainChoice(cfg, u, 0);
    assert ExprEv(cfg, u, Lit(2)) == Res(2, {});
    OnePrompt(cfg, u, 1, Lit(2));
    assert ExprEv(cfg, u, Ref(C(0))) == ModeEv(cfg, u, 0);
    OnePrompt(cfg, u, 4, Ref(C(0)));
  }

  lemma OutsidePromptValues(u: User)
    requires WellFormed(OutsidePrompt()) && u.mode == map[] && (u.sel == map[] || u.sel == map[0 := 4])
    ensures var cfg := OutsidePrompt();
      && SelEv(cfg, u, 0).v == Some(if u.sel == map[] then 1 else 4)
      && (u.sel == map[] ==> SelEv(cfg, u, 0).seen == {Vis(C(0)), Vis(S(1))})
      && TriEv(cfg, u, 1) == Res(if u.sel == map[] then 2 else 0, {Vis(S(1)), Sel(0)})
  {
    hide VisEv, ModeEv;
    var cfg := OutsidePrompt();
    OutsidePromptVisible(u);
    DefaultsRanked(cfg, 0);
    assert RankedChoice(cfg, 0);
    var ss := cfg.choice(0).syms;
    assert ss == [1, 4] && ss[0] == 1 && ss[1] == 4;
    if u.sel == map[] {
      assert VisibleDefaultEv(cfg, u, 0, cfg.choice(0).defaults) == Res(None, {});
      assert FirstVisibleEv(cfg, u, 0, ss) == Res(Some(1), {Vis(S(1))});
      assert {} + {Vis(S(1))} == {Vis(S(1))};
      assert {Vis(C(0))} + {Vis(S(1))} == {Vis(C(0)), Vis(S(1))};
    }
  }

  /** The cache after reading symbol 1, and what assigning y to symbol 4 leaves of it: two
      symbols of one choice that are y. */
  lemma OutsidePromptIsMissed()
    ensures var cfg := OutsidePrompt();
      var u, u' := User(map[], map[], map[]), User(map[4 := 2], map[], map[0 := 4]);
      var k := Caches(map[C(0) := 2, S(1) := 2], map[1 := 2], map[0 := Some(1)]);
      var k' := Caches(map[S(1) := 2], map[1 := 2], map[]);
      && WellFormed(cfg) && u' == AfterSet(cfg, u, 4, 2) && Touched(cfg, u, 4, 2) == Some(C(0))
      && CacheOk(cfg, u, k) && Invalidated(cfg, k, k', C(0)) && Contained(cfg, k, k', C(0))
      && TriEv(cfg, u', 1).v == 0 && !AllRight(cfg, u', k') && !CacheOk(cfg, u', k')
  {
    hide WellFormed, VisEv, TriEv, SelEv, Invalidated, Contained, OutsidePrompt, Needed, AfterSet, Touched;
    var cfg := OutsidePrompt();
    var u, u' := User(map[], map[], map[]), User(map[4 := 2], map[], map[0 := 4]);
    var k := Caches(map[C(0) := 2, S(1) := 2], map[1 := 2], map[0 := Some(1)]);
    var k' := Caches(map[S(1) := 2], map[1 := 2], map[]);
    assert 0 in u'.sel;
    OutsidePromptIsAccepted();
    OutsidePromptValues(u');
    OutsidePromptCaches(k, k');
    OutsidePromptOk(u, k);
    OutsidePromptSet(u, u');
    assert Has(k', TriN(1)) && !Agrees(cfg, u', k', TriN(1));
  }

  lemma OutsidePromptSet(u: User, u': User)
    requires u == User(map[], map[], map[]) && u' == User(map[4 := 2], map[], map[0 := 4])
    ensures u' == AfterSet(OutsidePrompt(), u, 4, 2) && Touched(OutsidePrompt(), u, 4, 2) == Some(C(0))
  {
    assert u.val[4 := 2] == u'.val && u.sel[0 := 4] == u'.sel;
  }

  lemma OutsidePromptOk(u: User, k: Caches)
    requires WellFormed(OutsidePrompt()) && u == User(map[], map[], map[])
    requires k == Caches(map[C(0) := 2, S(1) := 2], map[1 := 2], map[0 := Some(1)])
    ensures CacheOk(OutsidePrompt(), u, k)
  {
    hide WellFormed, VisEv, TriEv, SelEv;
    var cfg := OutsidePrompt();
    OutsidePromptVisible(u);
    OutsidePromptValues(u);
    forall nd | Has(k, nd)
      ensures Agrees(cfg, u, k, nd) && AllHas(k, Needed(cfg, u, nd))
    {
      assert nd == Vis(C(0)) || nd == Vis(S(1)) || nd == TriN(1) || nd == Sel(0);
      assert !Constant(cfg, ItemOf(nd));
    }
  }

  lemma OutsidePromptCaches(k: Caches, k': Caches)
    requires k == Caches(map[C(0) := 2, S(1) := 2], map[1 := 2], map[0 := Some(1)])
    requires k' == Caches(map[S(1) := 2], map[1 := 2], map[])
    ensures Invalidated(OutsidePrompt(), k, k', C(0)) && Contained(OutsidePrompt(), k, k', C(0))
  {
    hide Mentions;
    var cfg := OutsidePrompt();
    forall j: Item, d: Item
      ensures d in Dependents(cfg, j) <==> (d == S(4) && j == C(0)) || (d == C(0) && (j == S(1) || j == S(4)))
    {
      OutsidePromptItems(d, j);
    }
  }
}
