/** Two facts about evaluation: it consults only items the symbol or choice refers to
    (or MODULES), and its outcome is fixed by what it consults. */
module KconfigStable {
  import opened Options
  import opened KconfigEval

  // --------------------------------------------------- what can be consulted

  /** Node `nd` may consult `r`: it ranks lower, and belongs to the same item, to one that
      item refers to, is MODULES and the item is defined, or is read without being referred to. */
  predicate MayRead(cfg: Config, nd: Node, r: Node) {
    && cfg.rank(r) < cfg.rank(nd)
    && (|| ItemOf(r) == ItemOf(nd) || Mentions(cfg, ItemOf(nd), ItemOf(r))
        || (r == TriN(cfg.modules) && ItemOf(nd) in cfg.items) || Implicit(cfg, nd, r))
  }

  /** A choice symbol consults its choice, and a selection the symbols of its defaults. */
  predicate Implicit(cfg: Config, nd: Node, r: Node) {
    || (ItemOf(nd).S? && cfg.sym(ItemOf(nd).sym).choice.Some? && ItemOf(r) == C(cfg.sym(ItemOf(nd).sym).choice.value))
    || (nd.Sel? && exists k :: 0 <= k < |cfg.choice(nd.choice).defaults| && r == Vis(S(cfg.choice(nd.choice).defaults[k].sym)))
  }

  ghost predicate AllMayRead(cfg: Config, nd: Node, rs: set<Node>) {
    forall r :: r in rs ==> MayRead(cfg, nd, r)
  }

  lemma ModeReads(cfg: Config, u: User, nd: Node, c: nat)
    requires WellFormed(cfg)
    requires C(c) == ItemOf(nd) || Mentions(cfg, ItemOf(nd), C(c)) || (ItemOf(nd).S? && cfg.sym(ItemOf(nd).sym).choice == Some(c))
    requires cfg.rank(Vis(C(c))) < cfg.rank(nd)
    ensures AllMayRead(cfg, nd, ModeEv(cfg, u, c).seen)
  {
    assert RankedChoice(cfg, c);
    assert ItemOf(nd).S? ==> Listed(cfg, ItemOf(nd).sym);
  }

  lemma {:induction false} ExprReads(cfg: Config, u: User, nd: Node, e: Expr)
    requires WellFormed(cfg)
    requires ExprRank(cfg, e) <= cfg.rank(nd)
    requires forall i :: i in ExprItems(e) ==> Mentions(cfg, ItemOf(nd), i)
    ensures AllMayRead(cfg, nd, ExprEv(cfg, u, e).seen)
    decreases e
  {
    hide Mentions, ModeEv, TriEv, WellFormed;
    match e {
      case Lit(_) =>
      case Ref(S(s)) => assert Mentions(cfg, ItemOf(nd), S(s));
      case Ref(C(c)) => ModeReads(cfg, u, nd, c);
      case And(a, b) => ExprReads(cfg, u, nd, a); ExprReads(cfg, u, nd, b);
      case Or(a, b) => ExprReads(cfg, u, nd, a); ExprReads(cfg, u, nd, b);
      case Not(a) => ExprReads(cfg, u, nd, a);
      case Cmp(_, a, b) => ExprReads(cfg, u, nd, a); ExprReads(cfg, u, nd, b);
    }
  }

  lemma {:induction false} PromptsRead(cfg: Config, u: User, nd: Node, ps: seq<Expr>, k: nat, bound: nat)
    requires WellFormed(cfg) && k <= |ps|
    requires forall i :: 0 <= i < |ps| ==> ExprRank(cfg, ps[i]) <= bound
    requires bound <= cfg.rank(nd)
    requires forall i :: InSome(ps, i) ==> Mentions(cfg, ItemOf(nd), i)
    ensures AllMayRead(cfg, nd, PromptsEv(cfg, u, ps, k, bound).seen)
  {
    hide Mentions, ExprEv, WellFormed, ExprRank;
    if k > 0 {
      PromptsRead(cfg, u, nd, ps, k - 1, bound);
      forall i | i in ExprItems(ps[k - 1])
        ensures Mentions(cfg, ItemOf(nd), i)
      {
        assert InSome(ps, i);
      }
      ExprReads(cfg, u, nd, ps[k - 1]);
    }
  }

  lemma TypeReads(cfg: Config, u: User, nd: Node, s: nat)
    requires WellFormed(cfg) && ItemOf(nd) == S(s) && cfg.rank(Vis(S(s))) <= cfg.rank(nd)
    ensures AllMayRead(cfg, nd, TypeIsBoolEv(cfg, u, s).seen)
  {
    assert RankedSym(cfg, s);
    var d := cfg.sym(s);
    if d.choice.Some? {
      ModeReads(cfg, u, nd, d.choice.value);
    }
  }

  lemma VisReads(cfg: Config, u: User, i: Item)
    requires WellFormed(cfg)
    ensures AllMayRead(cfg, Vis(i), VisEv(cfg, u, i).seen)
  {
    hide PromptsEv, ModeEv, TypeIsBoolEv, ModulesEv, ExprRank;
    match i {
      case S(s) =>
        assert RankedSym(cfg, s);
        var d := cfg.sym(s);
        PromptsRead(cfg, u, Vis(i), d.prompts, |d.prompts|, cfg.rank(Vis(i)));
        TypeReads(cfg, u, Vis(i), s);
        if d.choice.Some? {
          ModeReads(cfg, u, Vis(i), d.choice.value);
        }
      case C(c) =>
        assert RankedChoice(cfg, c);
        var d := cfg.choice(c);
        PromptsRead(cfg, u, Vis(i), d.prompts, |d.prompts|, cfg.rank(Vis(i)));
        ModulesSeen(cfg, u);
    }
  }

  lemma ModulesSeen(cfg: Config, u: User)
    requires WellFormed(cfg)
    ensures ModulesEv(cfg, u).seen == {TriN(cfg.modules)}
  {
  }

  lemma {:induction false} DefaultsRead(cfg: Config, u: User, nd: Node, ds: seq<Default>, bound: nat)
    requires WellFormed(cfg)
    requires forall i :: 0 <= i < |ds| ==> ExprRank(cfg, ds[i].value) <= bound && ExprRank(cfg, ds[i].cond) <= bound
    requires bound <= cfg.rank(nd)
    requires forall i :: InDefaults(ds, i) ==> Mentions(cfg, ItemOf(nd), i)
    ensures AllMayRead(cfg, nd, DefaultsEv(cfg, u, ds, bound).seen)
    decreases |ds|
  {
    hide Mentions, ExprEv, WellFormed, ExprRank;
    if ds != [] {
      forall i | i in ExprItems(ds[0].value) || i in ExprItems(ds[0].cond)
        ensures Mentions(cfg, ItemOf(nd), i)
      {
        assert InDefaults(ds, i);
      }
      ExprReads(cfg, u, nd, ds[0].cond);
      ExprReads(cfg, u, nd, ds[0].value);
      forall i | InDefaults(ds[1..], i)
        ensures Mentions(cfg, ItemOf(nd), i)
      {
        var k :| 0 <= k < |ds[1..]| && (i in ExprItems(ds[1..][k].value) || i in ExprItems(ds[1..][k].cond));
        assert ds[k + 1] == ds[1..][k];
        assert InDefaults(ds, i);
      }
      DefaultsRead(cfg, u, nd, ds[1..], bound);
    }
  }

  lemma TriReads(cfg: Config, u: User, s: nat)
    requires WellFormed(cfg)
    ensures AllMayRead(cfg, TriN(s), TriEv(cfg, u, s).seen)
  {
    hide ExprEv, DefaultsEv, TypeIsBoolEv, VisEv, SelEv, ExprRank;
    var d, nd := cfg.sym(s), TriN(s);
    assert RankedSym(cfg, s);
    if d.choice.None? {
      DefaultsRead(cfg, u, nd, d.defaults, cfg.rank(nd));
      ExprReads(cfg, u, nd, d.weakRevDep);
      ExprReads(cfg, u, nd, d.directDep);
      ExprReads(cfg, u, nd, d.revDep);
      TypeReads(cfg, u, nd, s);
    }
  }

  lemma {:induction false} VisibleDefaultReads(cfg: Config, u: User, c: nat, ds: seq<ChoiceDefault>)
    requires WellFormed(cfg)
    requires forall i :: 0 <= i < |ds| ==>
      ExprRank(cfg, ds[i].cond) <= cfg.rank(Sel(c)) && cfg.rank(Vis(S(ds[i].sym))) < cfg.rank(Sel(c))
    requires forall i :: InConds(ds, i) ==> Mentions(cfg, C(c), i)
    requires forall i :: 0 <= i < |ds| ==> ds[i] in cfg.choice(c).defaults
    ensures AllMayRead(cfg, Sel(c), VisibleDefaultEv(cfg, u, c, ds).seen)
    decreases |ds|
  {
    hide ExprEv, VisEv, WellFormed, ExprRank;
    if ds != [] {
      assert forall i :: i in ExprItems(ds[0].cond) ==> InConds(ds, i);
      ExprReads(cfg, u, Sel(c), ds[0].cond);
      var k :| 0 <= k < |cfg.choice(c).defaults| && cfg.choice(c).defaults[k] == ds[0];
      assert Implicit(cfg, Sel(c), Vis(S(ds[0].sym)));
      forall i | InConds(ds[1..], i)
        ensures InConds(ds, i)
      {
        var k :| 0 <= k < |ds[1..]| && i in ExprItems(ds[1..][k].cond);
        assert ds[k + 1] == ds[1..][k];
      }
      VisibleDefaultReads(cfg, u, c, ds[1..]);
    }
  }

  lemma {:induction false} FirstVisibleReads(cfg: Config, u: User, c: nat, ss: seq<nat>)
    requires WellFormed(cfg)
    requires forall i :: 0 <= i < |ss| ==> cfg.rank(Vis(S(ss[i]))) < cfg.rank(Sel(c)) && ss[i] in cfg.choice(c).syms
    ensures AllMayRead(cfg, Sel(c), FirstVisibleEv(cfg, u, c, ss).seen)
    decreases |ss|
  {
    hide VisEv, WellFormed;
    if ss != [] {
      assert Mentions(cfg, C(c), S(ss[0]));
      FirstVisibleReads(cfg, u, c, ss[1..]);
    }
  }

  lemma SelReads(cfg: Config, u: User, c: nat)
    requires WellFormed(cfg)
    ensures AllMayRead(cfg, Sel(c), SelEv(cfg, u, c).seen)
  {
    hide ModeEv, VisEv, VisibleDefaultEv, FirstVisibleEv, ExprRank;
    var d := cfg.choice(c);
    assert RankedChoice(cfg, c);
    DefaultsRanked(cfg, c);
    ModeReads(cfg, u, Sel(c), c);
    VisibleDefaultReads(cfg, u, c, d.defaults);
    FirstVisibleReads(cfg, u, c, d.syms);
    if c in u.sel && u.sel[c] in d.syms {
      assert Mentions(cfg, C(c), S(u.sel[c]));
    }
  }

  // ------------------------------------------------------ what decides it all

  /** User input that matters to an item agrees.  A symbol without prompts has none. */
  predicate SameUser(cfg: Config, u: User, u': User, i: Item) {
    match i
    case S(s) =>
      cfg.sym(s).prompts == [] || ((s in u.val <==> s in u'.val) && (s in u.val ==> u.val[s] == u'.val[s]))
    case C(c) =>
      && SameMode(u, u', c)
      && (c in u.sel <==> c in u'.sel) && (c in u.sel ==> u.sel[c] == u'.sel[c])
  }

  predicate SameMode(u: User, u': User, c: nat) {
    (c in u.mode <==> c in u'.mode) && (c in u.mode ==> u.mode[c] == u'.mode[c])
  }

  /** The node has the same value, and a choice the same mode asked for. */
  ghost predicate SameNode(cfg: Config, u: User, u': User, nd: Node)
    requires WellFormed(cfg)
  {
    (ItemOf(nd).C? ==> SameMode(u, u', ItemOf(nd).choice)) &&
    match nd
    case Vis(i) => VisEv(cfg, u, i).v == VisEv(cfg, u', i).v
    case TriN(s) => TriEv(cfg, u, s).v == TriEv(cfg, u', s).v
    case Sel(c) => SelEv(cfg, u, c).v == SelEv(cfg, u', c).v
  }

  ghost predicate AllSame(cfg: Config, u: User, u': User, rs: set<Node>)
    requires WellFormed(cfg)
  {
    forall r :: r in rs ==> SameNode(cfg, u, u', r)
  }

  lemma ModulesStable(cfg: Config, u: User, u': User)
    requires WellFormed(cfg) && AllSame(cfg, u, u', ModulesEv(cfg, u).seen)
    ensures ModulesEv(cfg, u') == ModulesEv(cfg, u)
  {
    assert TriN(cfg.modules) in ModulesEv(cfg, u).seen;
  }

  lemma ModeStable(cfg: Config, u: User, u': User, c: nat)
    requires WellFormed(cfg) && AllSame(cfg, u, u', ModeEv(cfg, u, c).seen)
    ensures ModeEv(cfg, u', c) == ModeEv(cfg, u, c)
  {
    hide VisEv;
    assert Vis(C(c)) in ModeEv(cfg, u, c).seen;
    assert SameNode(cfg, u, u', Vis(C(c)));
    if ModulesEv(cfg, u).seen <= ModeEv(cfg, u, c).seen {
      ModulesStable(cfg, u, u');
    }
  }

  lemma {:induction false} ExprStable(cfg: Config, u: User, u': User, e: Expr)
    requires WellFormed(cfg) && AllSame(cfg, u, u', ExprEv(cfg, u, e).seen)
    ensures ExprEv(cfg, u', e) == ExprEv(cfg, u, e)
    decreases e
  {
    hide ModeEv, TriEv, VisEv, SelEv, WellFormed;
    match e {
      case Lit(_) =>
      case Ref(S(s)) => assert SameNode(cfg, u, u', TriN(s));
      case Ref(C(c)) => ModeStable(cfg, u, u', c);
      case And(a, b) =>
        ExprStable(cfg, u, u', a);
        if ExprEv(cfg, u, a).v != 0 {
          ExprStable(cfg, u, u', b);
        }
      case Or(a, b) =>
        ExprStable(cfg, u, u', a);
        if ExprEv(cfg, u, a).v != 2 {
          ExprStable(cfg, u, u', b);
        }
      case Not(a) => ExprStable(cfg, u, u', a);
      case Cmp(_, a, b) => ExprStable(cfg, u, u', a); ExprStable(cfg, u, u', b);
    }
  }

  lemma {:induction false} PromptsStable(cfg: Config, u: User, u': User, ps: seq<Expr>, k: nat, bound: nat)
    requires WellFormed(cfg) && k <= |ps|
    requires forall i :: 0 <= i < |ps| ==> ExprRank(cfg, ps[i]) <= bound
    requires AllSame(cfg, u, u', PromptsEv(cfg, u, ps, k, bound).seen)
    ensures PromptsEv(cfg, u', ps, k, bound) == PromptsEv(cfg, u, ps, k, bound)
  {
    hide ExprEv, SameNode, WellFormed, ExprRank;
    if k > 0 {
      PromptsStable(cfg, u, u', ps, k - 1, bound);
      ExprStable(cfg, u, u', ps[k - 1]);
    }
  }

  lemma TypeStable(cfg: Config, u: User, u': User, s: nat)
    requires WellFormed(cfg) && AllSame(cfg, u, u', TypeIsBoolEv(cfg, u, s).seen)
    ensures TypeIsBoolEv(cfg, u', s) == TypeIsBoolEv(cfg, u, s)
  {
    hide ModeEv, ModulesEv, SameNode;
    var d := cfg.sym(s);
    if d.kind == Tristate {
      if d.choice.Some? {
        ModeStable(cfg, u, u', d.choice.value);
      }
      if !(d.choice.Some? && ModeEv(cfg, u, d.choice.value).v == 2) {
        ModulesStable(cfg, u, u');
      }
    }
  }

  lemma PromoteStable(cfg: Config, u: User, u': User, s: nat, v: Tri)
    requires WellFormed(cfg) && AllSame(cfg, u, u', PromoteEv(cfg, u, s, v).seen)
    ensures PromoteEv(cfg, u', s, v) == PromoteEv(cfg, u, s, v)
  {
    hide TypeIsBoolEv, SameNode;
    if v == 1 && cfg.sym(s).kind == Tristate {
      TypeStable(cfg, u, u', s);
    }
  }

  lemma VisStable(cfg: Config, u: User, u': User, i: Item)
    requires WellFormed(cfg) && AllSame(cfg, u, u', VisEv(cfg, u, i).seen)
    ensures VisEv(cfg, u', i) == VisEv(cfg, u, i)
  {
    hide PromptsEv, ModeEv, PromoteEv, ModulesEv, SameNode, ExprRank;
    match i {
      case S(s) =>
        assert RankedSym(cfg, s);
        var d := cfg.sym(s);
        var p := PromptsEv(cfg, u, d.prompts, |d.prompts|, cfg.rank(Vis(i)));
        assert p.seen <= VisEv(cfg, u, i).seen;
        PromptsStable(cfg, u, u', d.prompts, |d.prompts|, cfg.rank(Vis(i)));
        if d.choice.Some? && ModeEv(cfg, u, d.choice.value).seen <= VisEv(cfg, u, i).seen {
          ModeStable(cfg, u, u', d.choice.value);
        }
        if PromoteEv(cfg, u, s, p.v).seen <= VisEv(cfg, u, i).seen {
          PromoteStable(cfg, u, u', s, p.v);
        }
      case C(c) =>
        assert RankedChoice(cfg, c);
        var d := cfg.choice(c);
        assert PromptsEv(cfg, u, d.prompts, |d.prompts|, cfg.rank(Vis(i))).seen <= VisEv(cfg, u, i).seen;
        PromptsStable(cfg, u, u', d.prompts, |d.prompts|, cfg.rank(Vis(i)));
        if ModulesEv(cfg, u).seen <= VisEv(cfg, u, i).seen {
          ModulesStable(cfg, u, u');
        }
    }
  }

  lemma {:induction false} DefaultsStable(cfg: Config, u: User, u': User, ds: seq<Default>, bound: nat)
    requires WellFormed(cfg)
    requires forall i :: 0 <= i < |ds| ==> ExprRank(cfg, ds[i].value) <= bound && ExprRank(cfg, ds[i].cond) <= bound
    requires AllSame(cfg, u, u', DefaultsEv(cfg, u, ds, bound).seen)
    ensures DefaultsEv(cfg, u', ds, bound) == DefaultsEv(cfg, u, ds, bound)
    decreases |ds|
  {
    hide ExprEv, SameNode, WellFormed, ExprRank;
    if ds != [] {
      ExprStable(cfg, u, u', ds[0].cond);
      if ExprEv(cfg, u, ds[0].cond).v == 0 {
        DefaultsStable(cfg, u, u', ds[1..], bound);
      } else {
        ExprStable(cfg, u, u', ds[0].value);
      }
    }
  }

  lemma BaseStable(cfg: Config, u: User, u': User, s: nat, vis: Tri)
    requires WellFormed(cfg) && SameUser(cfg, u, u', S(s)) && (cfg.sym(s).prompts == [] ==> vis == 0)
    requires AllSame(cfg, u, u', BaseEv(cfg, u, s, vis).seen)
    ensures BaseEv(cfg, u', s, vis) == BaseEv(cfg, u, s, vis)
  {
    hide ExprEv, DefaultsEv, SameNode, ExprRank;
    assert RankedSym(cfg, s);
    var d := cfg.sym(s);
    if !(vis != 0 && s in u.val) {
      DefaultsStable(cfg, u, u', d.defaults, cfg.rank(TriN(s)));
      ExprStable(cfg, u, u', d.weakRevDep);
      if ExprEv(cfg, u, d.weakRevDep).v != 0 {
        ExprStable(cfg, u, u', d.directDep);
      }
    }
  }

  lemma SelectedStable(cfg: Config, u: User, u': User, s: nat, val: Tri)
    requires WellFormed(cfg) && AllSame(cfg, u, u', SelectedEv(cfg, u, s, val).seen)
    ensures SelectedEv(cfg, u', s, val) == SelectedEv(cfg, u, s, val)
  {
    hide ExprEv, SameNode, ExprRank;
    ExprStable(cfg, u, u', cfg.sym(s).revDep);
    if ExprEv(cfg, u, cfg.sym(s).revDep).v != 0 {
      ExprStable(cfg, u, u', cfg.sym(s).directDep);
    }
  }

  lemma FinalStable(cfg: Config, u: User, u': User, s: nat, val: Tri)
    requires WellFormed(cfg) && AllSame(cfg, u, u', FinalEv(cfg, u, s, val).seen)
    ensures FinalEv(cfg, u', s, val) == FinalEv(cfg, u, s, val)
  {
    hide ExprEv, TypeIsBoolEv, SameNode, ExprRank;
    if val == 1 {
      TypeStable(cfg, u, u', s);
      if !TypeIsBoolEv(cfg, u, s).v {
        ExprStable(cfg, u, u', cfg.sym(s).weakRevDep);
      }
    }
  }

  lemma NoPromptInvisible(cfg: Config, u: User, s: nat)
    requires WellFormed(cfg) && cfg.sym(s).prompts == []
    ensures VisEv(cfg, u, S(s)).v == 0
  {
  }

  lemma TriStable(cfg: Config, u: User, u': User, s: nat)
    requires WellFormed(cfg) && SameUser(cfg, u, u', S(s)) && AllSame(cfg, u, u', TriEv(cfg, u, s).seen)
    ensures TriEv(cfg, u', s) == TriEv(cfg, u, s)
  {
    hide BaseEv, SelectedEv, FinalEv, VisEv, SelEv, ExprRank, WellFormed;
    var d := cfg.sym(s);
    if d.kind != Other {
      assert SameNode(cfg, u, u', Vis(S(s)));
      var vis := VisEv(cfg, u, S(s)).v;
      if d.prompts == [] {
        NoPromptInvisible(cfg, u, s);
      }
      match d.choice {
        case None =>
          var x := BaseEv(cfg, u, s, vis);
          BaseStable(cfg, u, u', s, vis);
          var y := SelectedEv(cfg, u, s, x.v);
          SelectedStable(cfg, u, u', s, x.v);
          FinalStable(cfg, u, u', s, y.v);
        case Some(c) =>
          if vis == 2 {
            assert SameNode(cfg, u, u', Sel(c));
          }
      }
    }
  }

  lemma {:induction false} VisibleDefaultStable(cfg: Config, u: User, u': User, c: nat, ds: seq<ChoiceDefault>)
    requires WellFormed(cfg)
    requires forall i :: 0 <= i < |ds| ==>
      ExprRank(cfg, ds[i].cond) <= cfg.rank(Sel(c)) && cfg.rank(Vis(S(ds[i].sym))) < cfg.rank(Sel(c))
    requires AllSame(cfg, u, u', VisibleDefaultEv(cfg, u, c, ds).seen)
    ensures VisibleDefaultEv(cfg, u', c, ds) == VisibleDefaultEv(cfg, u, c, ds)
    decreases |ds|
  {
    hide TryDefaultEv, VisEv, TriEv, SelEv, WellFormed, ExprRank;
    if ds != [] {
      TryDefaultStable(cfg, u, u', c, ds[0]);
      if !TryDefaultEv(cfg, u, c, ds[0]).v {
        VisibleDefaultStable(cfg, u, u', c, ds[1..]);
      }
    }
  }

  lemma TryDefaultStable(cfg: Config, u: User, u': User, c: nat, d: ChoiceDefault)
    requires WellFormed(cfg)
    requires ExprRank(cfg, d.cond) <= cfg.rank(Sel(c)) && cfg.rank(Vis(S(d.sym))) < cfg.rank(Sel(c))
    requires AllSame(cfg, u, u', TryDefaultEv(cfg, u, c, d).seen)
    ensures TryDefaultEv(cfg, u', c, d) == TryDefaultEv(cfg, u, c, d)
  {
    hide ExprEv, VisEv, TriEv, SelEv, WellFormed, ExprRank;
    ExprStable(cfg, u, u', d.cond);
    if ExprEv(cfg, u, d.cond).v != 0 {
      assert SameNode(cfg, u, u', Vis(S(d.sym)));
    }
  }

  lemma {:induction false} FirstVisibleStable(cfg: Config, u: User, u': User, c: nat, ss: seq<nat>)
    requires WellFormed(cfg)
    requires forall i :: 0 <= i < |ss| ==> cfg.rank(Vis(S(ss[i]))) < cfg.rank(Sel(c))
    requires AllSame(cfg, u, u', FirstVisibleEv(cfg, u, c, ss).seen)
    ensures FirstVisibleEv(cfg, u', c, ss) == FirstVisibleEv(cfg, u, c, ss)
    decreases |ss|
  {
    hide VisEv, TriEv, SelEv, WellFormed;
    if ss != [] {
      assert SameNode(cfg, u, u', Vis(S(ss[0])));
      if VisEv(cfg, u, S(ss[0])).v == 0 {
        FirstVisibleStable(cfg, u, u', c, ss[1..]);
      }
    }
  }

  lemma SelDefaultStable(cfg: Config, u: User, u': User, c: nat)
    requires WellFormed(cfg) && AllSame(cfg, u, u', SelDefaultEv(cfg, u, c).seen)
    ensures SelDefaultEv(cfg, u', c) == SelDefaultEv(cfg, u, c)
  {
    hide VisibleDefaultEv, FirstVisibleEv, SameNode, ExprRank;
    assert RankedChoice(cfg, c);
    DefaultsRanked(cfg, c);
    VisibleDefaultStable(cfg, u, u', c, cfg.choice(c).defaults);
    if VisibleDefaultEv(cfg, u, c, cfg.choice(c).defaults).v.None? {
      FirstVisibleStable(cfg, u, u', c, cfg.choice(c).syms);
    }
  }

  lemma SelStable(cfg: Config, u: User, u': User, c: nat)
    requires WellFormed(cfg) && SameUser(cfg, u, u', C(c)) && AllSame(cfg, u, u', SelEv(cfg, u, c).seen)
    ensures SelEv(cfg, u', c) == SelEv(cfg, u, c)
  {
    hide ModeEv, VisEv, TriEv, SelDefaultEv, ExprRank, WellFormed;
    ModeStable(cfg, u, u', c);
    if ModeEv(cfg, u, c).v == 2 {
      if c in u.sel && u.sel[c] in cfg.choice(c).syms {
        assert SameNode(cfg, u, u', Vis(S(u.sel[c])));
        if VisEv(cfg, u, S(u.sel[c])).v == 0 {
          SelDefaultStable(cfg, u, u', c);
        }
      } else {
        SelDefaultStable(cfg, u, u', c);
      }
    }
  }
}
