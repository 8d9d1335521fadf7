/** What an assignment does to what it assigns: the value set is the value read, as far as the
    configuration lets it. */
module KconfigAssign {
  import opened Options
  import opened KconfigEval
  import opened KconfigDeps
  import opened KconfigStable
  import opened KconfigInvalidate
  import opened KconfigValue

  // ------------------------------------------------ what ranks lower is unaffected

  /** The user input that a node reads itself is the same. */
  predicate Fixed(cfg: Config, u: User, u': User, nd: Node) {
    match nd
    case Vis(S(_)) => true
    case Vis(C(c)) => SameMode(u, u', c)
    case TriN(s) => SameUser(cfg, u, u', S(s))
    case Sel(c) => SameUser(cfg, u, u', C(c))
  }

  ghost predicate FixedBelow(cfg: Config, u: User, u': User, bound: nat) {
    forall nd :: cfg.rank(nd) < bound ==> Fixed(cfg, u, u', nd)
  }

  lemma {:induction false} LowerSame(cfg: Config, u: User, u': User, bound: nat, nd: Node)
    requires WellFormed(cfg) && FixedBelow(cfg, u, u', bound) && cfg.rank(nd) < bound
    ensures SameNode(cfg, u, u', nd)
    decreases cfg.rank(nd)
  {
    hide WellFormed, SameUser, Seen, VisEv, TriEv, SelEv, SameNode;
    assert Fixed(cfg, u, u', nd);
    LowerReads(cfg, u, u', bound, nd);
    NodeSame(cfg, u, u', nd);
  }

  lemma {:induction false} LowerReads(cfg: Config, u: User, u': User, bound: nat, nd: Node)
    requires WellFormed(cfg) && FixedBelow(cfg, u, u', bound) && cfg.rank(nd) <= bound
    ensures AllSame(cfg, u, u', Seen(cfg, u, nd))
    decreases cfg.rank(nd), 0
  {
    hide WellFormed, SameUser, Seen, SameNode;
    SeenIsAllowed(cfg, u, nd);
    forall r | r in Seen(cfg, u, nd)
      ensures SameNode(cfg, u, u', r)
    {
      assert MayRead(cfg, nd, r);
      LowerSame(cfg, u, u', bound, r);
    }
  }

  lemma NodeSame(cfg: Config, u: User, u': User, nd: Node)
    requires WellFormed(cfg) && Fixed(cfg, u, u', nd) && AllSame(cfg, u, u', Seen(cfg, u, nd))
    ensures SameNode(cfg, u, u', nd)
  {
    match nd {
      case Vis(i) => VisStable(cfg, u, u', i);
      case TriN(s) => TriStable(cfg, u, u', s);
      case Sel(c) => SelStable(cfg, u, u', c);
    }
  }

  lemma VisSame(cfg: Config, u: User, u': User, i: Item)
    requires WellFormed(cfg) && FixedBelow(cfg, u, u', cfg.rank(Vis(i)))
    ensures VisEv(cfg, u', i).v == VisEv(cfg, u, i).v
  {
    hide WellFormed, SameNode, FixedBelow;
    LowerReads(cfg, u, u', cfg.rank(Vis(i)), Vis(i));
    VisStable(cfg, u, u', i);
  }

  lemma ModulesSame(cfg: Config, u: User, u': User, bound: nat)
    requires WellFormed(cfg) && FixedBelow(cfg, u, u', bound) && cfg.rank(TriN(cfg.modules)) < bound
    ensures ModulesOn(cfg, u') <==> ModulesOn(cfg, u)
  {
    hide WellFormed, FixedBelow;
    LowerSame(cfg, u, u', bound, TriN(cfg.modules));
  }

  lemma ModeSame(cfg: Config, u: User, u': User, bound: nat, c: nat)
    requires WellFormed(cfg) && FixedBelow(cfg, u, u', bound) && cfg.rank(Vis(C(c))) < bound
    ensures ModeEv(cfg, u', c).v == ModeEv(cfg, u, c).v
  {
    hide FixedBelow, VisEv, TriEv;
    assert RankedChoice(cfg, c);
    LowerSame(cfg, u, u', bound, Vis(C(c)));
    if cfg.choice(c).kind == Tristate {
      ModulesSame(cfg, u, u', bound);
      ModulesMean(cfg, u);
      ModulesMean(cfg, u');
    }
  }

  /** Expressions over what ranks lower keep their value. */
  lemma {:induction false} ExprSame(cfg: Config, u: User, u': User, bound: nat, e: Expr)
    requires WellFormed(cfg) && FixedBelow(cfg, u, u', bound) && ExprRank(cfg, e) <= bound
    ensures Val(cfg, u', e) == Val(cfg, u, e)
    decreases e
  {
    hide WellFormed, FixedBelow, TriEv, ModeEv, VisEv, SelEv;
    match e {
      case Lit(_) =>
      case Ref(S(s)) => LowerSame(cfg, u, u', bound, TriN(s));
      case Ref(C(c)) => ModeSame(cfg, u, u', bound, c);
      case And(a, b) => ExprSame(cfg, u, u', bound, a); ExprSame(cfg, u, u', bound, b);
      case Or(a, b) => ExprSame(cfg, u, u', bound, a); ExprSame(cfg, u, u', bound, b);
      case Not(a) => ExprSame(cfg, u, u', bound, a);
      case Cmp(_, a, b) => ExprSame(cfg, u, u', bound, a); ExprSame(cfg, u, u', bound, b);
    }
  }

  // ----------------------------------------------------------------- symbol values

  /** Only the value assigned to `s` differs. */
  ghost predicate OnlyValue(u: User, u': User, s: nat) {
    && u'.mode == u.mode && u'.sel == u.sel
    && forall t :: t != s ==> (t in u.val <==> t in u'.val) && (t in u.val ==> u.val[t] == u'.val[t])
  }

  lemma ValueFixesBelow(cfg: Config, u: User, u': User, s: nat)
    requires OnlyValue(u, u', s)
    ensures FixedBelow(cfg, u, u', cfg.rank(TriN(s)))
  {
  }

  lemma FewerFixed(cfg: Config, u: User, u': User, bound: nat, less: nat)
    requires FixedBelow(cfg, u, u', bound) && less <= bound
    ensures FixedBelow(cfg, u, u', less)
  {
  }

  /** All that the value of a symbol is made of but the assigned value stays as it was. */
  lemma RestStays(cfg: Config, u: User, u': User, s: nat, own: Tri)
    requires WellFormed(cfg) && Plain(cfg, s) && OnlyValue(u, u', s)
    ensures SymVis(cfg, u', s) == SymVis(cfg, u, s)
    ensures Raised(cfg, u', s, own) == Raised(cfg, u, s, own) && Given(cfg, u', s, own) == Given(cfg, u, s, own)
  {
    hide VisEv, TriEv, ModeEv, Val, FixedBelow, ExprRank, OnlyValue;
    assert RankedSym(cfg, s);
    var d, q := cfg.sym(s), cfg.rank(TriN(s));
    ValueFixesBelow(cfg, u, u', s);
    FewerFixed(cfg, u, u', q, cfg.rank(Vis(S(s))));
    VisSame(cfg, u, u', S(s));
    ExprSame(cfg, u, u', q, d.revDep);
    ExprSame(cfg, u, u', q, d.weakRevDep);
    ExprSame(cfg, u, u', q, d.directDep);
    if d.kind == Tristate {
      ModulesSame(cfg, u, u', q);
    }
  }

  lemma DefaultStays(cfg: Config, u: User, u': User, s: nat, k: nat)
    requires WellFormed(cfg) && OnlyValue(u, u', s) && k < |cfg.sym(s).defaults|
    ensures var d := cfg.sym(s).defaults[k];
      Val(cfg, u', d.value) == Val(cfg, u, d.value) && Val(cfg, u', d.cond) == Val(cfg, u, d.cond)
  {
    hide Val, FixedBelow, ExprRank, OnlyValue;
    assert RankedSym(cfg, s);
    ValueFixesBelow(cfg, u, u', s);
    ExprSame(cfg, u, u', cfg.rank(TriN(s)), cfg.sym(s).defaults[k].value);
    ExprSame(cfg, u, u', cfg.rank(TriN(s)), cfg.sym(s).defaults[k].cond);
  }

  /** What is set is read, limited by the visibility and raised by selects as they were. */
  lemma SetThenRead(cfg: Config, u: User, s: nat, v: Tri)
    requires WellFormed(cfg) && Plain(cfg, s) && Accepts(cfg.sym(s).kind, v) && SymVis(cfg, u, s) != 0
    ensures TriEv(cfg, AfterSet(cfg, u, s, v), s).v == Raised(cfg, u, s, Min(v, SymVis(cfg, u, s)))
  {
    hide SymVis, Raised, TriEv, WellFormed, Given;
    var u' := AfterSet(cfg, u, s, v);
    RestStays(cfg, u, u', s, Min(v, SymVis(cfg, u, s)));
    UserValueCounts(cfg, u', s);
  }

  /** Without selects it is read as set if and only if it is within the visibility, m being only
      set on a tristate that is not implied to y, or is a y that m is promoted to. */
  lemma SetIsRead(cfg: Config, u: User, s: nat, v: Tri)
    requires WellFormed(cfg) && Plain(cfg, s) && Accepts(cfg.sym(s).kind, v) && SymVis(cfg, u, s) != 0
    requires Val(cfg, u, cfg.sym(s).revDep) == 0
    ensures TriEv(cfg, AfterSet(cfg, u, s, v), s).v == v <==>
      || (v <= SymVis(cfg, u, s) && (v == 1 ==> IsTristate(cfg, u, s) && Val(cfg, u, cfg.sym(s).weakRevDep) < 2))
      || (v == 2 && SymVis(cfg, u, s) == 1 && !(IsTristate(cfg, u, s) && Val(cfg, u, cfg.sym(s).weakRevDep) < 2))
  {
    hide SymVis, TriEv, WellFormed, IsTristate, Val, AfterSet;
    SetThenRead(cfg, u, s, v);
  }

  /** Once the assigned value is taken back, the first default that applies counts, as before. */
  lemma UnsetThenDefault(cfg: Config, u: User, s: nat, k: nat)
    requires WellFormed(cfg) && Plain(cfg, s) && Applies(cfg, u, cfg.sym(s).defaults, k)
    ensures var d := cfg.sym(s).defaults[k];
      TriEv(cfg, AfterUnset(u, s), s).v == Raised(cfg, u, s, Given(cfg, u, s, Min(Val(cfg, u, d.value), Val(cfg, u, d.cond))))
  {
    hide SymVis, Raised, TriEv, WellFormed, Given, Val;
    var u', ds := AfterUnset(u, s), cfg.sym(s).defaults;
    forall j | 0 <= j < |ds|
      ensures Val(cfg, u', ds[j].value) == Val(cfg, u, ds[j].value) && Val(cfg, u', ds[j].cond) == Val(cfg, u, ds[j].cond)
    {
      DefaultStays(cfg, u, u', s, j);
    }
    var base := Min(Val(cfg, u, ds[k].value), Val(cfg, u, ds[k].cond));
    RestStays(cfg, u, u', s, base);
    RestStays(cfg, u, u', s, Given(cfg, u, s, base));
    DefaultCounts(cfg, u', s, k);
  }

  lemma UnsetThenNone(cfg: Config, u: User, s: nat)
    requires WellFormed(cfg) && Plain(cfg, s) && NoneApplies(cfg, u, cfg.sym(s).defaults)
    ensures TriEv(cfg, AfterUnset(u, s), s).v == Raised(cfg, u, s, Given(cfg, u, s, 0))
  {
    hide SymVis, Raised, TriEv, WellFormed, Given, Val;
    var u', ds := AfterUnset(u, s), cfg.sym(s).defaults;
    forall j | 0 <= j < |ds|
      ensures Val(cfg, u', ds[j].cond) == Val(cfg, u, ds[j].cond)
    {
      DefaultStays(cfg, u, u', s, j);
    }
    RestStays(cfg, u, u', s, 0);
    RestStays(cfg, u, u', s, Given(cfg, u, s, 0));
    NoDefaultCounts(cfg, u', s);
  }

  // ----------------------------------------------------------------------- choices

  /** Setting a symbol of a choice in y mode to y, if it is visible, makes it the selection and
      the one symbol of the choice that is y. */
  lemma SetThenSelected(cfg: Config, u: User, s: nat, c: nat)
    requires WellFormed(cfg) && cfg.sym(s).choice == Some(c) && cfg.sym(s).kind != Other
    requires ModeEv(cfg, u, c).v == 2 && SymVis(cfg, u, s) != 0
    ensures var u' := AfterSet(cfg, u, s, 2);
      && ModeEv(cfg, u', c).v == 2 && SelEv(cfg, u', c).v == Some(s)
      && forall t :: cfg.sym(t).choice == Some(c) && cfg.sym(t).kind != Other ==> (TriEv(cfg, u', t).v == 2 <==> t == s)
  {
    hide VisEv, TriEv, ModeEv, SelEv, Val, FixedBelow, ExprRank;
    var u' := AfterSet(cfg, u, s, 2);
    assert RankedSym(cfg, s) && RankedChoice(cfg, c) && Listed(cfg, s);
    ChoiceFixesBelow(cfg, u, u', s, c);
    ModeSame(cfg, u, u', cfg.rank(Sel(c)), c);
    FewerFixed(cfg, u, u', cfg.rank(Sel(c)), cfg.rank(Vis(S(s))));
    VisSame(cfg, u, u', S(s));
    SelectionMeans(cfg, u', c);
    forall t | cfg.sym(t).choice == Some(c) && cfg.sym(t).kind != Other
      ensures TriEv(cfg, u', t).v == 2 <==> t == s
    {
      ValueInChoice(cfg, u', t, c);
    }
  }

  lemma ChoiceFixesBelow(cfg: Config, u: User, u': User, s: nat, c: nat)
    requires WellFormed(cfg) && cfg.sym(s).choice == Some(c) && cfg.sym(s).kind != Other && u' == AfterSet(cfg, u, s, 2)
    ensures FixedBelow(cfg, u, u', cfg.rank(Sel(c)))
  {
    hide RankedChoice;
    assert RankedSym(cfg, s);
  }

  /** The mode set on a choice is the mode it has, within its visibility: n if it is optional, m
      if it can be m, and otherwise y. */
  lemma SetModeThenRead(cfg: Config, u: User, c: nat, v: Tri)
    requires WellFormed(cfg) && Accepts(cfg.choice(c).kind, v)
    ensures var mode, vis := ModeEv(cfg, AfterSetMode(cfg, u, c, v), c).v, VisEv(cfg, u, C(c)).v;
      var n := cfg.choice(c).optional && v == 0;
      && mode <= vis
      && (mode == 0 <==> vis == 0 || n)
      && (mode == 2 <==> vis == 2 && (v == 2 || (!n && ChoiceIsBool(cfg, u, c))))
  {
    hide VisEv, TriEv, ModeEv, FixedBelow, RankedSym;
    var u' := AfterSetMode(cfg, u, c, v);
    ModeStays(cfg, u, u', c);
    ModeMeans(cfg, u', c);
  }

  /** Taken back, nothing is asked for: an optional choice is off, and the selection is the one
      by default. */
  lemma UnsetModeThenRead(cfg: Config, u: User, c: nat)
    requires WellFormed(cfg)
    ensures var u' := AfterUnsetMode(u, c);
      var mode, vis := ModeEv(cfg, u', c).v, VisEv(cfg, u, C(c)).v;
      && mode <= vis
      && (mode == 0 <==> vis == 0 || cfg.choice(c).optional)
      && (mode == 2 <==> vis == 2 && !cfg.choice(c).optional && ChoiceIsBool(cfg, u, c))
      && (mode == 2 ==> ByDefault(cfg, u', c, SelEv(cfg, u', c).v))
  {
    hide VisEv, TriEv, ModeEv, SelEv, FixedBelow, RankedSym, ByDefault;
    var u' := AfterUnsetMode(u, c);
    ModeStays(cfg, u, u', c);
    ModeMeans(cfg, u', c);
    SelectionMeans(cfg, u', c);
  }

  /** What the mode asked for is limited by does not depend on it. */
  lemma ModeStays(cfg: Config, u: User, u': User, c: nat)
    requires WellFormed(cfg) && u'.val == u.val
    requires forall e :: e != c ==> SameUser(cfg, u, u', C(e))
    ensures VisEv(cfg, u', C(c)).v == VisEv(cfg, u, C(c)).v && (ChoiceIsBool(cfg, u', c) <==> ChoiceIsBool(cfg, u, c))
  {
    assert RankedChoice(cfg, c);
    hide VisEv, TriEv, WellFormed;
    var r := cfg.rank(Vis(C(c)));
    ModeFixesBelow(cfg, u, u', c);
    hide FixedBelow;
    VisSame(cfg, u, u', C(c));
    if cfg.choice(c).kind == Tristate {
      ModulesSame(cfg, u, u', r);
    }
  }

  lemma ModeFixesBelow(cfg: Config, u: User, u': User, c: nat)
    requires WellFormed(cfg) && u'.val == u.val
    requires forall e :: e != c ==> SameUser(cfg, u, u', C(e))
    ensures FixedBelow(cfg, u, u', cfg.rank(Vis(C(c))))
  {
    hide RankedSym;
    assert RankedChoice(cfg, c);
  }

  /** No other symbol's assigned value and no other choice's mode or selection is touched. */
  lemma OthersKeep(cfg: Config, u: User, s: nat, v: Tri, c: nat, t: nat, e: nat)
    ensures var d := cfg.sym(s);
      && (t != s ==> SameUser(cfg, u, AfterSet(cfg, u, s, v), S(t)) && SameUser(cfg, u, AfterUnset(u, s), S(t)))
      && (d.choice != Some(e) || v < 2 ==> SameUser(cfg, u, AfterSet(cfg, u, s, v), C(e)))
      && SameUser(cfg, u, AfterUnset(u, s), C(e))
      && SameUser(cfg, u, AfterSetMode(cfg, u, c, v), S(t)) && SameUser(cfg, u, AfterUnsetMode(u, c), S(t))
      && (e != c ==> SameUser(cfg, u, AfterSetMode(cfg, u, c, v), C(e)) && SameUser(cfg, u, AfterUnsetMode(u, c), C(e)))
  {
  }
}
