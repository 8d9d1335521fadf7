/** What the loop check buys the evaluator: a rank by which evaluation only ever goes down. */
module KconfigRank {
  import opened Options
  import opened KconfigEval
  import opened KconfigNet
  import opened KconfigSearch
  import opened KconfigLoop

  /** As `Mentions`, without the dependencies of choices on their symbols, which are added
      when the check is over. */
  predicate Refers(cfg: Config, x: Item, y: Item) {
    match x
    case S(_) => Mentions(cfg, x, y)
    case C(c) => InSome(cfg.choice(c).prompts, y) || InConds(cfg.choice(c).defaults, y)
  }

  /** The dependents as `_build_dep` lists them, and who is in which choice. */
  ghost predicate Describes(cfg: Config, g: Net) {
    && (forall s: nat, x: Item :: x in g.deps(s) <==> Refers(cfg, x, S(s)))
    && (forall c: nat :: g.syms(c) == cfg.choice(c).syms)
    && (forall s: nat :: g.choice(s) == cfg.sym(s).choice)
  }

  /** Only defined items have a type or refer to anything. */
  ghost predicate Defined(cfg: Config) {
    && (forall x: Item, y: Item :: Mentions(cfg, x, y) ==> x in cfg.items)
    && (forall s: nat :: cfg.sym(s).kind != Other || cfg.sym(s).choice.Some? ==> S(s) in cfg.items)
    && (forall c: nat :: cfg.choice(c).kind != Other ==> C(c) in cfg.items)
  }

  /** A choice is referred to by its own symbols, and its defaults are among them. */
  ghost predicate Tidy(cfg: Config) {
    && (forall x: Item, c: nat :: Mentions(cfg, x, C(c)) ==> x.S? && x.sym in cfg.choice(c).syms)
    && (forall c: nat, k: nat :: k < |cfg.choice(c).defaults| ==> cfg.choice(c).defaults[k].sym in cfg.choice(c).syms)
  }

  /** MODULES is read by every tristate item without being mentioned, so nothing it depends on
      may be tristate. */
  ghost predicate SettledBy(cfg: Config, g: Net, low: Item -> bool) {
    && low(S(cfg.modules))
    && (forall x: Item, y: Item :: low(y) && Edge(g, x, y) ==> low(x))
    && (forall s: nat :: low(S(s)) ==> cfg.sym(s).kind != Tristate)
    && (forall c: nat :: low(C(c)) ==> cfg.choice(c).kind != Tristate)
  }

  ghost predicate Settled(cfg: Config, g: Net) {
    exists low :: SettledBy(cfg, g, low)
  }

  ghost predicate Ranks(cfg: Config, rank: Node -> nat) {
    WellFormed(cfg.(rank := rank))
  }

  // ---------------------------------------------------------- what lies upstream

  /** A way from `y` to `x` with at least one dependency on it. */
  predicate Way(g: Net, w: seq<Item>, y: Item, x: Item) {
    && |w| >= 2 && w[0] == y && w[|w| - 1] == x && Walk(g, w)
    && exists i :: 0 <= i < |w| - 1 && Dep(g, w[i], w[i + 1])
  }

  ghost predicate Reach(g: Net, y: Item, x: Item) { exists w :: Way(g, w, y, x) }

  lemma ReachDep(g: Net, x: Item, z: Item)
    requires Dep(g, x, z)
    ensures Reach(g, x, z)
  {
    var w := [x, z];
    assert Dep(g, w[0], w[0 + 1]);
    assert Way(g, w, x, z);
  }

  lemma ReachEdge(g: Net, y: Item, x: Item, z: Item)
    requires Reach(g, y, x) && Edge(g, x, z)
    ensures Reach(g, y, z)
  {
    var w :| Way(g, w, y, x);
    var v := w + [z];
    var i :| 0 <= i < |w| - 1 && Dep(g, w[i], w[i + 1]);
    assert Dep(g, v[i], v[i + 1]);
    forall k | 0 <= k < |v| - 1
      ensures Edge(g, v[k], v[k + 1])
    {
      assert k < |w| - 1 ==> Edge(g, w[k], w[k + 1]);
    }
    assert Way(g, v, y, z);
  }

  lemma NotUpstream(g: Net, items: set<Item>, x: Item)
    requires Closed(g, items) && Acyclic(g, items) && x in items
    ensures !Reach(g, x, x)
  {
    if Reach(g, x, x) {
      var w :| Way(g, w, x, x);
      var loop := Round(g, w, x);
      forall i | 0 <= i < |loop|
        ensures loop[i] in items
      {
        StaysInside(g, items, w, |loop| - 1 - i);
      }
      assert false;
    }
  }

  lemma Round(g: Net, w: seq<Item>, x: Item) returns (loop: seq<Item>)
    requires Way(g, w, x, x)
    ensures Cycle(g, loop) && |loop| == |w| - 1 && forall i :: 0 <= i < |loop| ==> loop[i] == w[|loop| - 1 - i]
  {
    var n := |w| - 1;
    loop := seq(n, i requires 0 <= i < n => w[n - 1 - i]);
    forall i | 0 <= i < n - 1
      ensures Edge(g, loop[i + 1], loop[i])
    {
      var k := n - 2 - i;
      assert Edge(g, w[k], w[k + 1]);
    }
    assert Edge(g, w[n - 1], w[n]);
    var i :| 0 <= i < n && Dep(g, w[i], w[i + 1]);
    if i < n - 1 {
      var k := n - 2 - i;
      assert Dep(g, loop[k + 1], loop[k]);
      assert HasDep(g, loop);
    }
  }

  ghost function Upstream(g: Net, items: set<Item>, x: Item): set<Item> {
    set y | y in items && Reach(g, y, x)
  }

  /** How much lies upstream; nothing of what is not defined. */
  ghost function Level(g: Net, items: set<Item>, low: Item -> bool, x: Item): nat {
    (if x in items then 1 + |Upstream(g, items, x)| else 0) + if low(x) then 0 else |items| + 2
  }

  lemma FewerItems(a: set<Item>, b: set<Item>)
    ensures a <= b ==> |a| <= |b|
    ensures a < b ==> |a| < |b|
  {
    Fewer(a, b);
  }

  lemma LevelBound(g: Net, items: set<Item>, low: Item -> bool, x: Item)
    ensures low(x) ==> Level(g, items, low, x) < |items| + 2
    ensures !low(x) ==> Level(g, items, low, x) >= |items| + 2
  {
    FewerItems(Upstream(g, items, x), items);
  }

  /** A dependent is above what it depends on. */
  lemma LevelDep(cfg: Config, g: Net, low: Item -> bool, x: Item, z: Item)
    requires Closed(g, cfg.items) && Acyclic(g, cfg.items) && SettledBy(cfg, g, low) && z in cfg.items && Dep(g, x, z)
    ensures Level(g, cfg.items, low, x) < Level(g, cfg.items, low, z)
  {
    hide Reach, Acyclic, Closed;
    var items := cfg.items;
    assert Edge(g, x, z);
    if x in items {
      forall y | Reach(g, y, x)
        ensures Reach(g, y, z)
      {
        ReachEdge(g, y, x, z);
      }
      ReachDep(g, x, z);
      NotUpstream(g, items, x);
      assert x in Upstream(g, items, z) && x !in Upstream(g, items, x);
      FewerItems(Upstream(g, items, x), Upstream(g, items, z));
    }
    LevelBound(g, items, low, x);
    LevelBound(g, items, low, z);
  }

  /** A choice and its symbols are on one level. */
  lemma LevelTie(cfg: Config, g: Net, low: Item -> bool, x: Item, z: Item)
    requires SettledBy(cfg, g, low) && x in cfg.items && z in cfg.items && Tie(g, x, z) && Tie(g, z, x)
    ensures Level(g, cfg.items, low, x) == Level(g, cfg.items, low, z)
  {
    hide Reach;
    var items := cfg.items;
    forall y
      ensures Reach(g, y, x) <==> Reach(g, y, z)
    {
      if Reach(g, y, x) {
        ReachEdge(g, y, x, z);
      }
      if Reach(g, y, z) {
        ReachEdge(g, y, z, x);
      }
    }
    assert Upstream(g, items, x) == Upstream(g, items, z);
    assert Edge(g, x, z) && Edge(g, z, x);
  }

  // ------------------------------------------------------ from levels to a rank

  /** On each level: the mode of the choice, visibilities, the selection, values. */
  ghost function RankBy(level: Item -> nat): Node -> nat {
    (nd: Node) =>
      match nd
      case Vis(C(c)) => 4 * level(C(c))
      case Vis(S(s)) => 4 * level(S(s)) + 1
      case Sel(c) => 4 * level(C(c)) + 2
      case TriN(s) => 4 * level(S(s)) + 3
  }

  lemma {:induction false} ExprIsLower(cfg: Config, level: Item -> nat, e: Expr, here: nat, bound: nat)
    requires cfg.rank == RankBy(level) && 4 * here <= bound
    requires forall i :: i in ExprItems(e) ==> if i.S? then level(i) < here else level(i) == here && bound > 4 * here
    ensures ExprRank(cfg, e) <= bound
  {
    match e {
      case Lit(_) =>
      case Ref(i) => assert i in ExprItems(e);
      case And(a, b) => ExprIsLower(cfg, level, a, here, bound); ExprIsLower(cfg, level, b, here, bound);
      case Or(a, b) => ExprIsLower(cfg, level, a, here, bound); ExprIsLower(cfg, level, b, here, bound);
      case Not(a) => ExprIsLower(cfg, level, a, here, bound);
      case Cmp(_, a, b) => ExprIsLower(cfg, level, a, here, bound); ExprIsLower(cfg, level, b, here, bound);
    }
  }

  /** What the levels have to do. */
  ghost predicate Leveled(cfg: Config, level: Item -> nat) {
    && (forall x: Item, s: nat :: Refers(cfg, x, S(s)) ==> level(S(s)) < level(x))
    && (forall s: nat, c: nat :: s in cfg.choice(c).syms ==> level(S(s)) == level(C(c)))
    && (forall s: nat :: cfg.sym(s).kind == Tristate ==> level(S(cfg.modules)) < level(S(s)))
    && (forall c: nat :: cfg.choice(c).kind == Tristate ==> level(S(cfg.modules)) < level(C(c)))
  }

  ghost predicate Membership(cfg: Config) {
    forall s: nat, c: nat :: s in cfg.choice(c).syms <==> cfg.sym(s).choice == Some(c)
  }

  lemma SymIsRanked(cfg: Config, level: Item -> nat, s: nat)
    requires Tidy(cfg) && Membership(cfg) && Leveled(cfg, level) && cfg.rank == RankBy(level)
    ensures RankedSym(cfg, s)
  {
    hide ExprRank, ExprItems, InSome, InDefaults;
    var d, here := cfg.sym(s), level(S(s));
    forall k | 0 <= k < |d.prompts|
      ensures ExprRank(cfg, d.prompts[k]) <= 4 * here + 1
    {
      SymPart(cfg, level, s, d.prompts[k], 4 * here + 1);
    }
    forall k | 0 <= k < |d.defaults|
      ensures ExprRank(cfg, d.defaults[k].value) <= 4 * here + 3 && ExprRank(cfg, d.defaults[k].cond) <= 4 * here + 3
    {
      SymPart(cfg, level, s, d.defaults[k].value, 4 * here + 3);
      SymPart(cfg, level, s, d.defaults[k].cond, 4 * here + 3);
    }
    SymPart(cfg, level, s, d.revDep, 4 * here + 3);
    SymPart(cfg, level, s, d.weakRevDep, 4 * here + 3);
    SymPart(cfg, level, s, d.directDep, 4 * here + 3);
  }

  /** The expressions of a symbol. */
  predicate PartOf(d: SymDef, e: Expr) {
    e in d.prompts || e == d.revDep || e == d.weakRevDep || e == d.directDep
    || exists k :: 0 <= k < |d.defaults| && (e == d.defaults[k].value || e == d.defaults[k].cond)
  }

  lemma PartMentions(cfg: Config, s: nat, e: Expr, i: Item)
    requires PartOf(cfg.sym(s), e) && i in ExprItems(e)
    ensures Mentions(cfg, S(s), i)
  {
    var d := cfg.sym(s);
    if e in d.prompts {
      var k :| 0 <= k < |d.prompts| && d.prompts[k] == e;
      assert InSome(d.prompts, i);
    } else if exists k :: 0 <= k < |d.defaults| && (e == d.defaults[k].value || e == d.defaults[k].cond) {
      assert InDefaults(d.defaults, i);
    }
  }

  lemma SymPart(cfg: Config, level: Item -> nat, s: nat, e: Expr, bound: nat)
    requires Tidy(cfg) && Leveled(cfg, level) && cfg.rank == RankBy(level) && bound > 4 * level(S(s)) && PartOf(cfg.sym(s), e)
    ensures ExprRank(cfg, e) <= bound
  {
    hide Mentions, ExprItems, PartOf, RankBy;
    forall i | i in ExprItems(e)
      ensures if i.S? then level(i) < level(S(s)) else level(i) == level(S(s))
    {
      PartMentions(cfg, s, e, i);
      assert i.S? ==> Refers(cfg, S(s), S(i.sym));
    }
    ExprIsLower(cfg, level, e, level(S(s)), bound);
  }

  lemma ChoicePart(cfg: Config, level: Item -> nat, c: nat, e: Expr, bound: nat)
    requires Tidy(cfg) && Leveled(cfg, level) && cfg.rank == RankBy(level) && bound >= 4 * level(C(c))
    requires forall i :: i in ExprItems(e) ==> InSome(cfg.choice(c).prompts, i) || InConds(cfg.choice(c).defaults, i)
    ensures ExprRank(cfg, e) <= bound
  {
    hide ExprItems, InSome, InConds, RankBy;
    forall i | i in ExprItems(e)
      ensures i.S? && level(i) < level(C(c))
    {
      assert Mentions(cfg, C(c), i);
      assert i.S? ==> Refers(cfg, C(c), S(i.sym));
    }
    ExprIsLower(cfg, level, e, level(C(c)), bound);
  }

  lemma ChoiceIsRanked(cfg: Config, level: Item -> nat, c: nat)
    requires Tidy(cfg) && Leveled(cfg, level) && cfg.rank == RankBy(level)
    ensures RankedChoice(cfg, c)
  {
    hide ExprRank, ExprItems, Mentions;
    var d, here := cfg.choice(c), level(C(c));
    forall k | 0 <= k < |d.prompts|
      ensures ExprRank(cfg, d.prompts[k]) <= 4 * here
    {
      assert forall i :: i in ExprItems(d.prompts[k]) ==> InSome(d.prompts, i);
      ChoicePart(cfg, level, c, d.prompts[k], 4 * here);
    }
    forall k | 0 <= k < |d.defaults|
      ensures ExprRank(cfg, d.defaults[k].cond) <= 4 * here + 2
    {
      assert forall i :: i in ExprItems(d.defaults[k].cond) ==> InConds(d.defaults, i);
      ChoicePart(cfg, level, c, d.defaults[k].cond, 4 * here + 2);
    }
  }

  lemma LevelsRank(cfg: Config, level: Item -> nat)
    requires Tidy(cfg) && Membership(cfg) && Defined(cfg) && Leveled(cfg, level)
    ensures Ranks(cfg, RankBy(level))
  {
    hide RankedSym, RankedChoice, RankBy;
    var cfg' := cfg.(rank := RankBy(level));
    SameMentions(cfg, cfg');
    forall s: nat
      ensures RankedSym(cfg', s) && Listed(cfg', s)
    {
      assert Leveled(cfg', level) && Tidy(cfg') && Membership(cfg');
      SymIsRanked(cfg', level, s);
    }
    forall c: nat
      ensures RankedChoice(cfg', c)
    {
      assert Leveled(cfg', level) && Tidy(cfg');
      ChoiceIsRanked(cfg', level, c);
    }
  }

  lemma SameMentions(cfg: Config, cfg': Config)
    requires cfg' == cfg.(rank := cfg'.rank)
    ensures forall x, y :: (Mentions(cfg', x, y) <==> Mentions(cfg, x, y)) && (Refers(cfg', x, y) <==> Refers(cfg, x, y))
  {
  }

  // -------------------------------------------------------- no loop, so a rank

  lemma NetIsTied(cfg: Config, g: Net)
    requires Describes(cfg, g) && Membership(cfg)
    ensures Ties(g)
  {
    hide Refers;
  }

  lemma NetIsClosed(cfg: Config, g: Net)
    requires Describes(cfg, g) && Membership(cfg) && Defined(cfg)
    ensures Closed(g, cfg.items)
  {
    hide Mentions;
    forall x, y | x in cfg.items && Edge(g, x, y)
      ensures y in cfg.items
    {
      if Dep(g, x, y) {
        RefersMentions(cfg, y, x);
      } else if y.C? {
        ListsMentions(cfg, y.choice, x.sym);
      }
    }
  }

  lemma RefersMentions(cfg: Config, x: Item, y: Item)
    ensures Refers(cfg, x, y) ==> Mentions(cfg, x, y)
  {
  }

  lemma ListsMentions(cfg: Config, c: nat, s: nat)
    ensures s in cfg.choice(c).syms ==> Mentions(cfg, C(c), S(s))
  {
  }

  /** Without a dependency loop, and with MODULES settled, evaluation is well founded. */
  lemma AcyclicRanks(cfg: Config, g: Net, low: Item -> bool)
    requires Describes(cfg, g) && Membership(cfg) && Defined(cfg) && Tidy(cfg)
    requires Acyclic(g, cfg.items) && SettledBy(cfg, g, low)
    ensures exists rank :: Ranks(cfg, rank)
  {
    hide Mentions, Level, Refers, Acyclic, Closed;
    NetIsClosed(cfg, g);
    var items := cfg.items;
    var level := (x: Item) => Level(g, items, low, x);
    forall x: Item, s: nat | Refers(cfg, x, S(s))
      ensures level(S(s)) < level(x)
    {
      RefersMentions(cfg, x, S(s));
      assert Dep(g, S(s), x);
      LevelDep(cfg, g, low, S(s), x);
    }
    forall s: nat, c: nat | s in cfg.choice(c).syms
      ensures level(S(s)) == level(C(c))
    {
      ListsMentions(cfg, c, s);
      LevelTie(cfg, g, low, S(s), C(c));
    }
    LevelsSettled(cfg, g, low);
    assert Leveled(cfg, level);
    LevelsRank(cfg, level);
  }

  lemma LevelsSettled(cfg: Config, g: Net, low: Item -> bool)
    requires SettledBy(cfg, g, low)
    ensures forall s: nat :: cfg.sym(s).kind == Tristate ==> Level(g, cfg.items, low, S(cfg.modules)) < Level(g, cfg.items, low, S(s))
    ensures forall c: nat :: cfg.choice(c).kind == Tristate ==> Level(g, cfg.items, low, S(cfg.modules)) < Level(g, cfg.items, low, C(c))
  {
    hide Level;
    forall x: Item {
      LevelBound(g, cfg.items, low, x);
    }
  }

  // ------------------------------------------ without choices, a rank, so no loop

  lemma {:induction false} ItemIsLower(cfg: Config, e: Expr, y: nat)
    requires S(y) in ExprItems(e)
    ensures cfg.rank(TriN(y)) < ExprRank(cfg, e)
  {
    match e {
      case Lit(_) =>
      case Ref(i) =>
      case And(a, b) => if S(y) in ExprItems(a) { ItemIsLower(cfg, a, y); } else { ItemIsLower(cfg, b, y); }
      case Or(a, b) => if S(y) in ExprItems(a) { ItemIsLower(cfg, a, y); } else { ItemIsLower(cfg, b, y); }
      case Not(a) => ItemIsLower(cfg, a, y);
      case Cmp(_, a, b) => if S(y) in ExprItems(a) { ItemIsLower(cfg, a, y); } else { ItemIsLower(cfg, b, y); }
    }
  }

  lemma MentionDescends(cfg: Config, x: nat, y: nat)
    requires RankedSym(cfg, x) && Mentions(cfg, S(x), S(y))
    ensures cfg.rank(TriN(y)) < cfg.rank(TriN(x))
  {
    hide ExprRank, ExprItems;
    var d := cfg.sym(x);
    if InSome(d.prompts, S(y)) {
      var k :| 0 <= k < |d.prompts| && S(y) in ExprItems(d.prompts[k]);
      ItemIsLower(cfg, d.prompts[k], y);
    } else if InDefaults(d.defaults, S(y)) {
      var k :| 0 <= k < |d.defaults| && (S(y) in ExprItems(d.defaults[k].value) || S(y) in ExprItems(d.defaults[k].cond));
      if S(y) in ExprItems(d.defaults[k].value) {
        ItemIsLower(cfg, d.defaults[k].value, y);
      } else {
        ItemIsLower(cfg, d.defaults[k].cond, y);
      }
    } else if S(y) in ExprItems(d.revDep) {
      ItemIsLower(cfg, d.revDep, y);
    } else if S(y) in ExprItems(d.weakRevDep) {
      ItemIsLower(cfg, d.weakRevDep, y);
    } else {
      ItemIsLower(cfg, d.directDep, y);
    }
  }

  ghost predicate ChoiceFree(cfg: Config) {
    && (forall s: nat :: cfg.sym(s).choice.None?)
    && (forall s: nat, y: Item :: Mentions(cfg, S(s), y) ==> y.S?)
    && (forall c: nat :: cfg.choice(c) == ChoiceDef(Other, false, [], [], []))
  }

  lemma FreeEdge(cfg: Config, g: Net, x: Item, y: Item)
    requires ChoiceFree(cfg) && Describes(cfg, g) && Edge(g, x, y)
    ensures x.S? && y.S? && Mentions(cfg, y, x)
  {
    hide Mentions;
    RefersMentions(cfg, y, x);
    if y.C? && Dep(g, x, y) {
      NothingRefers(cfg, y.choice, x);
    }
  }

  lemma NothingRefers(cfg: Config, c: nat, x: Item)
    requires ChoiceFree(cfg)
    ensures !Refers(cfg, C(c), x)
  {
    assert cfg.choice(c) == ChoiceDef(Other, false, [], [], []);
  }

  lemma {:induction false} CycleClimbs(cfg: Config, g: Net, loop: seq<Item>, k: nat)
    requires WellFormed(cfg) && ChoiceFree(cfg) && Describes(cfg, g) && Cycle(g, loop) && k < |loop|
    ensures loop[0].S? && loop[k].S? && cfg.rank(TriN(loop[k].sym)) <= cfg.rank(TriN(loop[0].sym))
  {
    hide Mentions, RankedSym, ChoiceFree, Describes, Edge;
    if k > 0 {
      CycleClimbs(cfg, g, loop, k - 1);
      assert Edge(g, loop[k], loop[k - 1]);
      FreeEdge(cfg, g, loop[k], loop[k - 1]);
      assert RankedSym(cfg, loop[k - 1].sym);
      MentionDescends(cfg, loop[k - 1].sym, loop[k].sym);
    } else {
      FreeEdge(cfg, g, loop[0], loop[|loop| - 1]);
    }
  }

  lemma RankedIsAcyclic(cfg: Config, g: Net)
    requires WellFormed(cfg) && ChoiceFree(cfg) && Describes(cfg, g)
    ensures Acyclic(g, cfg.items) && Settled(cfg, g)
  {
    hide Mentions, RankedSym, Describes, ChoiceFree;
    forall loop: seq<Item> | Cycle(g, loop)
      ensures false
    {
      var n := |loop| - 1;
      CycleClimbs(cfg, g, loop, n);
      FreeEdge(cfg, g, loop[0], loop[n]);
      assert RankedSym(cfg, loop[n].sym);
      MentionDescends(cfg, loop[n].sym, loop[0].sym);
    }
    RankedSettles(cfg, g);
  }

  lemma RankedSettles(cfg: Config, g: Net)
    requires WellFormed(cfg) && ChoiceFree(cfg) && Describes(cfg, g)
    ensures Settled(cfg, g)
  {
    hide Mentions, Describes, ChoiceFree, Edge;
    var low := (x: Item) => x.S? && cfg.rank(TriN(x.sym)) <= cfg.rank(TriN(cfg.modules));
    forall x: Item, y: Item | low(y) && Edge(g, x, y)
      ensures low(x)
    {
      FreeEdge(cfg, g, x, y);
      assert RankedSym(cfg, y.sym);
      MentionDescends(cfg, y.sym, x.sym);
    }
    forall s: nat | low(S(s))
      ensures cfg.sym(s).kind != Tristate
    {
      assert RankedSym(cfg, s);
    }
    assert SettledBy(cfg, g, low);
  }

  lemma FreeGoesNotBack(cfg: Config, g: Net, items: set<Item>)
    requires ChoiceFree(cfg) && Describes(cfg, g)
    ensures NoBack(g, items)
  {
    hide Mentions, Refers, Walk;
    forall c: nat
      ensures g.syms(c) == []
    {
      assert cfg.choice(c).syms == [];
    }
  }

  lemma SameNet(cfg: Config, g: Net, rank: Node -> nat)
    requires Describes(cfg, g) && ChoiceFree(cfg)
    ensures var cfg' := cfg.(rank := rank);
      Describes(cfg', g) && ChoiceFree(cfg') && (Settled(cfg', g) ==> Settled(cfg, g))
  {
    var cfg' := cfg.(rank := rank);
    SameMentions(cfg, cfg');
    if Settled(cfg', g) {
      var low :| SettledBy(cfg', g, low);
      assert SettledBy(cfg, g, low);
    }
  }

  /** The check over a configuration.  If it passes, no choice symbol leads back to an earlier
      one of its choice, and MODULES is settled, then evaluation is well founded.  Without
      choices the second condition is void and the converse holds as well. */
  method CheckConfig(ghost cfg: Config, g: Net, items: set<Item>, all: seq<nat>) returns (r: Outcome)
    requires Describes(cfg, g) && Membership(cfg) && Defined(cfg) && Tidy(cfg) && items == cfg.items
    requires forall s: nat :: s in all <==> S(s) in items
    ensures r.NoLoop? && NoBack(g, items) && Settled(cfg, g) ==> exists rank :: Ranks(cfg, rank)
    ensures ChoiceFree(cfg) ==> (r.NoLoop? && Settled(cfg, g) <==> exists rank :: Ranks(cfg, rank))
    ensures r.NoLoop? || (r.Raised? && Cycle(g, r.loop) && Distinct(r.loop))
  {
    hide Mentions, WellFormed, Describes, Membership, Defined, Tidy, NoBack, Acyclic, Closed, Cycle, ChoiceFree, Distinct, Known, AllRun;
    NetIsTied(cfg, g);
    NetIsClosed(cfg, g);
    var checker := new LoopChecker(g, items);
    assert checker.visited.Keys == items;
    r := checker.CheckAll(all);
    if r.NoLoop? && NoBack(g, items) && Settled(cfg, g) {
      ghost var low :| SettledBy(cfg, g, low);
      AcyclicRanks(cfg, g, low);
    }
    if ChoiceFree(cfg) {
      FreeGoesNotBack(cfg, g, items);
      if exists rank :: Ranks(cfg, rank) {
        ghost var rank :| Ranks(cfg, rank);
        SameNet(cfg, g, rank);
        RankedIsAcyclic(cfg.(rank := rank), g);
      }
    }
  }

  // -------------------------------------------------- a choice can be ranked too

  /** MODULES and a tristate choice between symbols 1 and 2. */
  function WithChoice(): Config {
    var other := SymDef(Other, [], [], Lit(0), Lit(0), Lit(2), None);
    var modules := SymDef(Bool, [Lit(2)], [], Lit(0), Lit(0), Lit(2), None);
    var chosen := SymDef(Tristate, [Ref(C(0))], [], Lit(0), Lit(0), Ref(C(0)), Some(0));
    Config(s => if s == 0 then modules else if s <= 2 then chosen else other,
           c => if c == 0 then ChoiceDef(Tristate, false, [Lit(2)], [ChoiceDefault(2, Lit(2))], [1, 2])
                else ChoiceDef(Other, false, [], [], []),
           {S(0), S(1), S(2), C(0)}, 0,
           (nd: Node) =>
             match nd
             case Vis(S(s)) => if s == 0 then 0 else 3
             case TriN(s) => if s == 0 then 1 else 5
             case Vis(C(_)) => 2
             case Sel(_) => 4)
  }

  lemma WithChoiceSym(s: nat)
    ensures RankedSym(WithChoice(), s) && Listed(WithChoice(), s) && SymCovered(WithChoice(), s)
  {
    var cfg := WithChoice();
    if 1 <= s <= 2 {
      assert C(0) in ExprItems(cfg.sym(s).prompts[0]);
      assert InSome(cfg.sym(s).prompts, C(0));
    }
  }

  lemma WithChoiceItems(x: Item, y: Item)
    ensures Mentions(WithChoice(), x, y) ==> x in WithChoice().items
  {
  }

  lemma WithChoiceChoice(c: nat)
    ensures RankedChoice(WithChoice(), c) && ChoiceCovered(WithChoice(), c)
  {
  }

  /** A choice's mode ranks below its symbols, they below its selection, and that below
      their values; and all that is read is referred to. */
  lemma ChoicesCanBeRanked()
    ensures WellFormed(WithChoice()) && Covered(WithChoice())
  {
    hide RankedSym, RankedChoice, Listed, Mentions, SymCovered, ChoiceCovered;
    var cfg := WithChoice();
    forall x: Item, y: Item
      ensures Mentions(cfg, x, y) ==> x in cfg.items
    {
      WithChoiceItems(x, y);
    }
    forall s: nat
      ensures RankedSym(cfg, s) && Listed(cfg, s) && SymCovered(cfg, s)
    {
      WithChoiceSym(s);
    }
    forall c: nat
      ensures RankedChoice(cfg, c) && ChoiceCovered(cfg, c)
    {
      WithChoiceChoice(c);
    }
  }
}
