/** What uncached evaluation makes of a configuration: the value of a symbol, visibilities, the
    mode and the selection of a choice, by the values of the expressions they are given by. */
module KconfigValue {
  import opened Options
  import opened KconfigEval
  import opened KconfigDeps

  /** Every item as it stands: symbols by their value, choices by their mode. */
  ghost function Now(cfg: Config, u: User): Item -> Tri
    requires WellFormed(cfg)
  {
    (i: Item) => match i case S(s) => TriEv(cfg, u, s).v case C(c) => ModeEv(cfg, u, c).v
  }

  ghost function Val(cfg: Config, u: User, e: Expr): Tri
    requires WellFormed(cfg)
  {
    Value(e, Now(cfg, u))
  }

  lemma ValIs(cfg: Config, u: User, e: Expr)
    requires WellFormed(cfg)
    ensures ExprEv(cfg, u, e).v == Val(cfg, u, e)
  {
    hide TriEv, ModeEv, ExprEv, WellFormed;
    EvaluationAgrees(cfg, u, e, Now(cfg, u));
  }

  ghost function SymVis(cfg: Config, u: User, s: nat): Tri
    requires WellFormed(cfg)
  {
    VisEv(cfg, u, S(s)).v
  }

  ghost predicate ModulesOn(cfg: Config, u: User)
    requires WellFormed(cfg)
  {
    TriEv(cfg, u, cfg.modules).v != 0
  }

  /** The symbol is tristate at the moment: with modules, and outside choices in y mode. */
  ghost predicate IsTristate(cfg: Config, u: User, s: nat)
    requires WellFormed(cfg)
  {
    var d := cfg.sym(s);
    && d.kind == Tristate && ModulesOn(cfg, u)
    && (d.choice.Some? ==> ModeEv(cfg, u, d.choice.value).v != 2)
  }

  lemma TypeMeans(cfg: Config, u: User, s: nat)
    requires WellFormed(cfg) && cfg.sym(s).kind != Other
    ensures TypeIsBoolEv(cfg, u, s).v <==> !IsTristate(cfg, u, s)
  {
    hide TriEv, ModeEv, WellFormed;
  }

  // ----------------------------------------------------------- symbols, no choice

  /** A bool or tristate symbol outside choices. */
  predicate Plain(cfg: Config, s: nat) { cfg.sym(s).kind != Other && cfg.sym(s).choice.None? }

  /** m is y for anything but a tristate that is not implied to y. */
  ghost function Settled(cfg: Config, u: User, s: nat, raw: Tri): Tri
    requires WellFormed(cfg)
  {
    if raw == 1 && !(IsTristate(cfg, u, s) && Val(cfg, u, cfg.sym(s).weakRevDep) < 2) then 2 else raw
  }

  /** Default `k` is the first whose condition is not n. */
  ghost predicate Applies(cfg: Config, u: User, ds: seq<Default>, k: nat)
    requires WellFormed(cfg)
  {
    k < |ds| && Val(cfg, u, ds[k].cond) != 0 && forall j :: 0 <= j < k ==> Val(cfg, u, ds[j].cond) == 0
  }

  ghost predicate NoneApplies(cfg: Config, u: User, ds: seq<Default>)
    requires WellFormed(cfg)
  {
    forall j :: 0 <= j < |ds| ==> Val(cfg, u, ds[j].cond) == 0
  }

  ghost predicate Implied(cfg: Config, u: User, s: nat)
    requires WellFormed(cfg)
  {
    Val(cfg, u, cfg.sym(s).directDep) != 0
  }

  lemma {:induction false} DefaultsMean(cfg: Config, u: User, ds: seq<Default>, bound: nat, k: nat)
    requires WellFormed(cfg)
    requires forall i :: 0 <= i < |ds| ==> ExprRank(cfg, ds[i].value) <= bound && ExprRank(cfg, ds[i].cond) <= bound
    ensures NoneApplies(cfg, u, ds) ==> DefaultsEv(cfg, u, ds, bound).v == 0
    ensures Applies(cfg, u, ds, k) ==>
      DefaultsEv(cfg, u, ds, bound).v == Min(Val(cfg, u, ds[k].value), Val(cfg, u, ds[k].cond))
    decreases |ds|
  {
    hide ExprEv, Val, ExprRank, WellFormed;
    if ds != [] {
      ValIs(cfg, u, ds[0].cond);
      ValIs(cfg, u, ds[0].value);
      if Val(cfg, u, ds[0].cond) == 0 {
        assert forall j :: 0 <= j < |ds| - 1 ==> ds[1..][j] == ds[j + 1];
        if k > 0 {
          DefaultsMean(cfg, u, ds[1..], bound, k - 1);
          assert Applies(cfg, u, ds, k) ==> Applies(cfg, u, ds[1..], k - 1);
        } else {
          DefaultsMean(cfg, u, ds[1..], bound, 0);
        }
      }
    }
  }

  /** From the value a symbol has of its own to its value: selects, then promotion. */
  ghost function Raised(cfg: Config, u: User, s: nat, own: Tri): Tri
    requires WellFormed(cfg)
  {
    Settled(cfg, u, s, Max(Val(cfg, u, cfg.sym(s).revDep), own))
  }

  /** What defaults and implies give together. */
  ghost function Given(cfg: Config, u: User, s: nat, base: Tri): Tri
    requires WellFormed(cfg)
  {
    if Implied(cfg, u, s) then Max(Val(cfg, u, cfg.sym(s).weakRevDep), base) else base
  }

  lemma ValueIs(cfg: Config, u: User, s: nat)
    requires WellFormed(cfg) && Plain(cfg, s)
    ensures TriEv(cfg, u, s).v == Raised(cfg, u, s, BaseEv(cfg, u, s, SymVis(cfg, u, s)).v)
  {
    hide ExprEv, Val, ExprRank, VisEv, BaseEv, TypeIsBoolEv, IsTristate;
    assert RankedSym(cfg, s);
    TypeMeans(cfg, u, s);
    ValIs(cfg, u, cfg.sym(s).revDep);
    ValIs(cfg, u, cfg.sym(s).weakRevDep);
  }

  /** A value assigned to a visible symbol counts, limited by the visibility and raised by
      selects. */
  lemma UserValueCounts(cfg: Config, u: User, s: nat)
    requires WellFormed(cfg) && Plain(cfg, s) && SymVis(cfg, u, s) != 0 && s in u.val
    ensures TriEv(cfg, u, s).v == Raised(cfg, u, s, Min(u.val[s], SymVis(cfg, u, s)))
  {
    hide VisEv, Raised, TriEv;
    ValueIs(cfg, u, s);
  }

  /** Otherwise the first default whose condition is not n counts, limited by that condition,
      and raised by implies if the symbol's direct dependencies are met. */
  lemma DefaultCounts(cfg: Config, u: User, s: nat, k: nat)
    requires WellFormed(cfg) && Plain(cfg, s) && (SymVis(cfg, u, s) == 0 || s !in u.val)
    requires Applies(cfg, u, cfg.sym(s).defaults, k)
    ensures var d := cfg.sym(s).defaults[k];
      TriEv(cfg, u, s).v == Raised(cfg, u, s, Given(cfg, u, s, Min(Val(cfg, u, d.value), Val(cfg, u, d.cond))))
  {
    hide VisEv, Raised, TriEv, Val, ExprEv, DefaultsEv, ExprRank, Applies;
    assert RankedSym(cfg, s);
    ValueIs(cfg, u, s);
    DefaultsMean(cfg, u, cfg.sym(s).defaults, cfg.rank(TriN(s)), k);
    ImpliesMean(cfg, u, s);
  }

  /** And without such a default, implies alone. */
  lemma NoDefaultCounts(cfg: Config, u: User, s: nat)
    requires WellFormed(cfg) && Plain(cfg, s) && (SymVis(cfg, u, s) == 0 || s !in u.val)
    requires NoneApplies(cfg, u, cfg.sym(s).defaults)
    ensures TriEv(cfg, u, s).v == Raised(cfg, u, s, Given(cfg, u, s, 0))
  {
    hide VisEv, Raised, TriEv, Val, ExprEv, DefaultsEv, ExprRank, NoneApplies;
    assert RankedSym(cfg, s);
    ValueIs(cfg, u, s);
    DefaultsMean(cfg, u, cfg.sym(s).defaults, cfg.rank(TriN(s)), 0);
    ImpliesMean(cfg, u, s);
  }

  lemma ImpliesMean(cfg: Config, u: User, s: nat)
    requires WellFormed(cfg)
    ensures ExprEv(cfg, u, cfg.sym(s).weakRevDep).v == Val(cfg, u, cfg.sym(s).weakRevDep)
    ensures ExprEv(cfg, u, cfg.sym(s).directDep).v != 0 <==> Implied(cfg, u, s)
  {
    hide Val, ExprEv, WellFormed;
    ValIs(cfg, u, cfg.sym(s).weakRevDep);
    ValIs(cfg, u, cfg.sym(s).directDep);
  }

  /** Some default is the first to apply, or none is. */
  lemma {:induction false} FirstApplies(cfg: Config, u: User, ds: seq<Default>) returns (k: nat)
    requires WellFormed(cfg)
    ensures Applies(cfg, u, ds, k) || NoneApplies(cfg, u, ds)
  {
    hide Val, WellFormed;
    k := 0;
    while k < |ds| && Val(cfg, u, ds[k].cond) == 0
      invariant k <= |ds| && forall j :: 0 <= j < k ==> Val(cfg, u, ds[j].cond) == 0
    {
      k := k + 1;
    }
  }

  /** Whatever else holds, a symbol is never below its selects, a user value or default of a
      symbol never keeps it from an imply that is met, and m is left to tristates that are not
      implied to y. */
  lemma SelectsCount(cfg: Config, u: User, s: nat)
    requires WellFormed(cfg) && Plain(cfg, s)
    ensures TriEv(cfg, u, s).v >= Val(cfg, u, cfg.sym(s).revDep)
    ensures Implied(cfg, u, s) && (SymVis(cfg, u, s) == 0 || s !in u.val) ==>
      TriEv(cfg, u, s).v >= Val(cfg, u, cfg.sym(s).weakRevDep)
    ensures TriEv(cfg, u, s).v == 1 ==> IsTristate(cfg, u, s) && Val(cfg, u, cfg.sym(s).weakRevDep) < 2
  {
    hide VisEv, TriEv, Val, IsTristate, Implied, WellFormed;
    if SymVis(cfg, u, s) != 0 && s in u.val {
      UserValueCounts(cfg, u, s);
    } else {
      var k := FirstApplies(cfg, u, cfg.sym(s).defaults);
      if Applies(cfg, u, cfg.sym(s).defaults, k) {
        DefaultCounts(cfg, u, s, k);
      } else {
        NoDefaultCounts(cfg, u, s);
      }
    }
  }

  // ------------------------------------------------------------------ visibility

  /** The greatest value among prompt conditions, n if there is no prompt. */
  ghost predicate Greatest(cfg: Config, u: User, ps: seq<Expr>, p: Tri)
    requires WellFormed(cfg)
  {
    && (forall k :: 0 <= k < |ps| ==> Val(cfg, u, ps[k]) <= p)
    && (p == 0 || exists k :: 0 <= k < |ps| && Val(cfg, u, ps[k]) == p)
  }

  lemma {:induction false} PromptsMean(cfg: Config, u: User, ps: seq<Expr>, k: nat, bound: nat)
    requires WellFormed(cfg) && k <= |ps|
    requires forall i :: 0 <= i < |ps| ==> ExprRank(cfg, ps[i]) <= bound
    ensures Greatest(cfg, u, ps[..k], PromptsEv(cfg, u, ps, k, bound).v)
  {
    hide Val, ExprEv, WellFormed, ExprRank;
    if k > 0 {
      PromptsMean(cfg, u, ps, k - 1, bound);
      ValIs(cfg, u, ps[k - 1]);
      assert forall i :: 0 <= i < k - 1 ==> ps[..k][i] == ps[..k - 1][i];
      assert ps[..k][k - 1] == ps[k - 1];
    }
  }

  lemma GreatestIsOne(cfg: Config, u: User, ps: seq<Expr>, p: Tri, q: Tri)
    requires WellFormed(cfg) && Greatest(cfg, u, ps, p) && Greatest(cfg, u, ps, q)
    ensures p == q
  {
    hide Val, WellFormed;
  }

  lemma PromptsAre(cfg: Config, u: User, ps: seq<Expr>, bound: nat, p: Tri)
    requires WellFormed(cfg) && Greatest(cfg, u, ps, p)
    requires forall i :: 0 <= i < |ps| ==> ExprRank(cfg, ps[i]) <= bound
    ensures PromptsEv(cfg, u, ps, |ps|, bound).v == p
  {
    hide PromptsEv, Greatest, ExprRank, WellFormed;
    PromptsMean(cfg, u, ps, |ps|, bound);
    assert ps[..|ps|] == ps;
    GreatestIsOne(cfg, u, ps, p, PromptsEv(cfg, u, ps, |ps|, bound).v);
  }

  /** A symbol outside choices is as visible as its best prompt, m meaning y unless it is
      tristate at the moment. */
  lemma VisibilityOfSymbol(cfg: Config, u: User, s: nat, p: Tri)
    requires WellFormed(cfg) && cfg.sym(s).choice.None? && Greatest(cfg, u, cfg.sym(s).prompts, p)
    ensures VisEv(cfg, u, S(s)).v == if p == 1 && !IsTristate(cfg, u, s) then 2 else p
  {
    hide Greatest, PromptsEv, ExprRank, IsTristate, TypeIsBoolEv;
    assert RankedSym(cfg, s);
    PromptsAre(cfg, u, cfg.sym(s).prompts, cfg.rank(Vis(S(s))), p);
    if cfg.sym(s).kind != Other {
      TypeMeans(cfg, u, s);
    }
    OnlyTristates(cfg, u, s);
  }

  lemma OnlyTristates(cfg: Config, u: User, s: nat)
    requires WellFormed(cfg)
    ensures IsTristate(cfg, u, s) ==> cfg.sym(s).kind == Tristate
  {
  }

  /** A symbol of a choice besides disappears with m in y mode, and, if it is no tristate, from a
      tristate choice in any other mode. */
  lemma VisibilityInChoice(cfg: Config, u: User, s: nat, c: nat, p: Tri)
    requires WellFormed(cfg) && cfg.sym(s).choice == Some(c) && Greatest(cfg, u, cfg.sym(s).prompts, p)
    ensures var tristate, mode := cfg.sym(s).kind == Tristate, ModeEv(cfg, u, c).v;
      VisEv(cfg, u, S(s)).v ==
        if !tristate && cfg.choice(c).kind == Tristate && mode < 2 then 0
        else if tristate && p == 1 && mode == 2 then 0
        else if p == 1 && !IsTristate(cfg, u, s) then 2
        else p
  {
    hide Greatest, PromptsEv, ExprRank, IsTristate, TypeIsBoolEv, ModeEv;
    assert RankedSym(cfg, s);
    PromptsAre(cfg, u, cfg.sym(s).prompts, cfg.rank(Vis(S(s))), p);
    if cfg.sym(s).kind != Other {
      TypeMeans(cfg, u, s);
    }
    OnlyTristates(cfg, u, s);
  }

  /** The choice is bool, or tristate without modules. */
  ghost predicate ChoiceIsBool(cfg: Config, u: User, c: nat)
    requires WellFormed(cfg)
  {
    cfg.choice(c).kind == Bool || (cfg.choice(c).kind == Tristate && !ModulesOn(cfg, u))
  }

  /** A choice is as visible as its best prompt, m meaning y unless it is tristate at the moment. */
  lemma VisibilityOfChoice(cfg: Config, u: User, c: nat, p: Tri)
    requires WellFormed(cfg) && Greatest(cfg, u, cfg.choice(c).prompts, p)
    ensures VisEv(cfg, u, C(c)).v == if p == 1 && !(cfg.choice(c).kind == Tristate && ModulesOn(cfg, u)) then 2 else p
  {
    hide Greatest, PromptsEv, ExprRank, TriEv;
    assert RankedChoice(cfg, c);
    PromptsAre(cfg, u, cfg.choice(c).prompts, cfg.rank(Vis(C(c))), p);
  }

  // --------------------------------------------------------------------- choices

  /** The mode the user asks for, n if none. */
  function Asked(u: User, c: nat): Tri { if c in u.mode then u.mode[c] else 0 }

  /** The mode of a choice never exceeds its visibility.  It is n exactly for an invisible choice
      and an optional one that is not asked for, and y exactly for a visible one that is asked
      for y, or is not n and cannot be m. */
  lemma ModeMeans(cfg: Config, u: User, c: nat)
    requires WellFormed(cfg)
    ensures var mode, vis, n := ModeEv(cfg, u, c).v, VisEv(cfg, u, C(c)).v, cfg.choice(c).optional && Asked(u, c) == 0;
      && mode <= vis
      && (mode == 0 <==> vis == 0 || n)
      && (mode == 2 <==> vis == 2 && (Asked(u, c) == 2 || (!n && ChoiceIsBool(cfg, u, c))))
  {
    hide ExprRank, VisEv, TriEv;
    MVisibleIsTristate(cfg, u, c);
  }

  lemma MVisibleIsTristate(cfg: Config, u: User, c: nat)
    requires WellFormed(cfg)
    ensures VisEv(cfg, u, C(c)).v == 1 ==> cfg.choice(c).kind == Tristate && ModulesOn(cfg, u)
  {
    hide PromptsEv, ExprRank, ModulesEv;
    ModulesMean(cfg, u);
  }

  lemma ModulesMean(cfg: Config, u: User)
    requires WellFormed(cfg)
    ensures ModulesEv(cfg, u).v <==> ModulesOn(cfg, u)
  {
  }

  /** In y mode no symbol of the choice is visible with m. */
  lemma NeverMInYMode(cfg: Config, u: User, s: nat, c: nat)
    requires WellFormed(cfg) && cfg.sym(s).choice == Some(c) && ModeEv(cfg, u, c).v == 2
    ensures SymVis(cfg, u, s) != 1
  {
    hide ModeEv, VisEv;
    var p := BestPrompt(cfg, u, cfg.sym(s).prompts, cfg.rank(Vis(S(s))), s);
    VisibilityInChoice(cfg, u, s, c, p);
  }

  lemma BestPrompt(cfg: Config, u: User, ps: seq<Expr>, bound: nat, s: nat) returns (p: Tri)
    requires WellFormed(cfg) && ps == cfg.sym(s).prompts && bound == cfg.rank(Vis(S(s)))
    ensures Greatest(cfg, u, ps, p)
  {
    assert RankedSym(cfg, s);
    hide ExprRank, WellFormed, PromptsEv, Greatest;
    p := PromptsEv(cfg, u, ps, |ps|, bound).v;
    PromptsMean(cfg, u, ps, |ps|, bound);
    assert ps[..|ps|] == ps;
  }

  /** The symbol the user chose counts while it is visible. */
  ghost predicate UserChoiceCounts(cfg: Config, u: User, c: nat)
    requires WellFormed(cfg)
  {
    c in u.sel && u.sel[c] in cfg.choice(c).syms && SymVis(cfg, u, u.sel[c]) != 0
  }

  ghost predicate DefaultHolds(cfg: Config, u: User, d: ChoiceDefault)
    requires WellFormed(cfg)
  {
    Val(cfg, u, d.cond) != 0 && SymVis(cfg, u, d.sym) != 0
  }

  lemma {:induction false} VisibleDefaultMeans(cfg: Config, u: User, c: nat, ds: seq<ChoiceDefault>)
    requires WellFormed(cfg)
    requires forall i :: 0 <= i < |ds| ==>
      ExprRank(cfg, ds[i].cond) <= cfg.rank(Sel(c)) && cfg.rank(Vis(S(ds[i].sym))) < cfg.rank(Sel(c))
    ensures match VisibleDefaultEv(cfg, u, c, ds).v
      case None => forall j :: 0 <= j < |ds| ==> !DefaultHolds(cfg, u, ds[j])
      case Some(x) => exists k :: 0 <= k < |ds| && x == ds[k].sym && DefaultHolds(cfg, u, ds[k])
                                  && forall j :: 0 <= j < k ==> !DefaultHolds(cfg, u, ds[j])
    decreases |ds|
  {
    hide ExprEv, VisEv, Val, ExprRank, WellFormed;
    if ds != [] {
      ValIs(cfg, u, ds[0].cond);
      if TryDefaultEv(cfg, u, c, ds[0]).v {
        assert DefaultHolds(cfg, u, ds[0]);
      } else {
        var rest := ds[1..];
        assert forall j :: 0 <= j < |rest| ==> rest[j] == ds[j + 1];
        VisibleDefaultMeans(cfg, u, c, rest);
        if VisibleDefaultEv(cfg, u, c, rest).v.Some? {
          var k :| 0 <= k < |rest| && VisibleDefaultEv(cfg, u, c, rest).v == Some(rest[k].sym) && DefaultHolds(cfg, u, rest[k])
                   && forall j :: 0 <= j < k ==> !DefaultHolds(cfg, u, rest[j]);
          assert DefaultHolds(cfg, u, ds[k + 1]);
          assert forall j :: 0 < j < k + 1 ==> ds[j] == rest[j - 1];
        } else {
          assert forall j :: 0 < j < |ds| ==> ds[j] == rest[j - 1];
        }
      }
    }
  }

  lemma {:induction false} FirstVisibleMeans(cfg: Config, u: User, c: nat, ss: seq<nat>)
    requires WellFormed(cfg)
    requires forall i :: 0 <= i < |ss| ==> cfg.rank(Vis(S(ss[i]))) < cfg.rank(Sel(c))
    ensures match FirstVisibleEv(cfg, u, c, ss).v
      case None => forall j :: 0 <= j < |ss| ==> SymVis(cfg, u, ss[j]) == 0
      case Some(x) => exists k :: 0 <= k < |ss| && x == ss[k] && SymVis(cfg, u, ss[k]) != 0
                                  && forall j :: 0 <= j < k ==> SymVis(cfg, u, ss[j]) == 0
    decreases |ss|
  {
    hide VisEv, WellFormed;
    if ss != [] {
      if SymVis(cfg, u, ss[0]) == 0 {
        var rest := ss[1..];
        assert forall j :: 0 <= j < |rest| ==> rest[j] == ss[j + 1];
        FirstVisibleMeans(cfg, u, c, rest);
        if FirstVisibleEv(cfg, u, c, rest).v.Some? {
          var k :| 0 <= k < |rest| && FirstVisibleEv(cfg, u, c, rest).v == Some(rest[k]) && SymVis(cfg, u, rest[k]) != 0
                   && forall j :: 0 <= j < k ==> SymVis(cfg, u, rest[j]) == 0;
          assert SymVis(cfg, u, ss[k + 1]) != 0;
          assert forall j :: 0 < j < k + 1 ==> ss[j] == rest[j - 1];
        } else {
          assert forall j :: 0 < j < |ss| ==> ss[j] == rest[j - 1];
        }
      }
    }
  }

  /** The symbol of the first default that holds, or else the first visible symbol. */
  ghost predicate ByDefault(cfg: Config, u: User, c: nat, r: Option<nat>)
    requires WellFormed(cfg)
  {
    var ds, ss := cfg.choice(c).defaults, cfg.choice(c).syms;
    if exists j :: 0 <= j < |ds| && DefaultHolds(cfg, u, ds[j]) then
      exists k :: 0 <= k < |ds| && r == Some(ds[k].sym) && DefaultHolds(cfg, u, ds[k])
                  && forall j :: 0 <= j < k ==> !DefaultHolds(cfg, u, ds[j])
    else if exists j :: 0 <= j < |ss| && SymVis(cfg, u, ss[j]) != 0 then
      exists k :: 0 <= k < |ss| && r == Some(ss[k]) && SymVis(cfg, u, ss[k]) != 0
                  && forall j :: 0 <= j < k ==> SymVis(cfg, u, ss[j]) == 0
    else r == None
  }

  /** The selection of a choice: none unless it is in y mode, the user's symbol while that is
      visible, and otherwise the one found by default. */
  lemma SelectionMeans(cfg: Config, u: User, c: nat)
    requires WellFormed(cfg)
    ensures var r := SelEv(cfg, u, c).v;
      if ModeEv(cfg, u, c).v != 2 then r == None
      else if UserChoiceCounts(cfg, u, c) then r == Some(u.sel[c])
      else ByDefault(cfg, u, c, r)
  {
    hide ModeEv, VisEv, VisibleDefaultEv, FirstVisibleEv, ExprRank, DefaultHolds;
    assert RankedChoice(cfg, c);
    DefaultsRanked(cfg, c);
    VisibleDefaultMeans(cfg, u, c, cfg.choice(c).defaults);
    FirstVisibleMeans(cfg, u, c, cfg.choice(c).syms);
  }

  lemma SelectedIsVisible(cfg: Config, u: User, c: nat)
    requires WellFormed(cfg)
    ensures SelEv(cfg, u, c).v.Some? ==> ModeEv(cfg, u, c).v == 2 && SymVis(cfg, u, SelEv(cfg, u, c).v.value) != 0
  {
    hide ModeEv, VisEv, SelEv, WellFormed, Val;
    SelectionMeans(cfg, u, c);
  }

  /** Of the symbols of a choice exactly the selection is y; m is left to those visible with m
      that the user has set. */
  lemma ValueInChoice(cfg: Config, u: User, s: nat, c: nat)
    requires WellFormed(cfg) && cfg.sym(s).choice == Some(c) && cfg.sym(s).kind != Other
    ensures TriEv(cfg, u, s).v == 2 <==> SelEv(cfg, u, c).v == Some(s)
    ensures TriEv(cfg, u, s).v == 1 <==> SymVis(cfg, u, s) == 1 && s in u.val && u.val[s] != 0
  {
    hide ModeEv, VisEv, SelEv;
    SelectedIsVisible(cfg, u, c);
    if SelEv(cfg, u, c).v == Some(s) {
      NeverMInYMode(cfg, u, s, c);
    }
  }

  /** The mode bounds a choice: no symbol of it is visible above it or has a value above it, if
      the mode bounds the prompts, as propagating the choice to them makes sure. */
  lemma ModeBounds(cfg: Config, u: User, s: nat, c: nat)
    requires WellFormed(cfg) && cfg.sym(s).choice == Some(c) && cfg.choice(c).kind != Other
    requires forall k :: 0 <= k < |cfg.sym(s).prompts| ==> Val(cfg, u, cfg.sym(s).prompts[k]) <= ModeEv(cfg, u, c).v
    ensures SymVis(cfg, u, s) <= ModeEv(cfg, u, c).v && TriEv(cfg, u, s).v <= ModeEv(cfg, u, c).v
  {
    hide ModeEv, VisEv, TriEv, SelEv, Val;
    var p := BestPrompt(cfg, u, cfg.sym(s).prompts, cfg.rank(Vis(S(s))), s);
    VisibilityInChoice(cfg, u, s, c, p);
    ModeMeans(cfg, u, c);
    MVisibleIsTristate(cfg, u, c);
    if cfg.sym(s).kind != Other {
      ValueInChoice(cfg, u, s, c);
      SelectedIsVisible(cfg, u, c);
    } else {
      OtherIsN(cfg, u, s);
    }
  }

  lemma OtherIsN(cfg: Config, u: User, s: nat)
    requires WellFormed(cfg) && cfg.sym(s).kind == Other
    ensures TriEv(cfg, u, s).v == 0
  {
  }
}
