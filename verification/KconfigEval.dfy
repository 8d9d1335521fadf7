/** Uncached evaluation of symbols and choices, together with what it consults.
    Evaluation short-circuits, so what is consulted depends on the values met. */
module KconfigEval {
  import opened Options

  /** n, m, y. */
  type Tri = t: nat | t <= 2

  function Min(a: Tri, b: Tri): (r: Tri)
    ensures r <= a && r <= b && (r == a || r == b)
  {
    if a <= b then a else b
  }

  function Max(a: Tri, b: Tri): (r: Tri)
    ensures r >= a && r >= b && (r == a || r == b)
  {
    if a >= b then a else b
  }

  datatype Item = S(sym: nat) | C(choice: nat)

  datatype Rel = Equal | Unequal | Less | LessEqual | Greater | GreaterEqual

  function Compare(rel: Rel, a: Tri, b: Tri): Tri {
    var comp := a as int - b as int;
    var holds := match rel
      case Equal => comp == 0
      case Unequal => comp != 0
      case Less => comp < 0
      case LessEqual => comp <= 0
      case Greater => comp > 0
      case GreaterEqual => comp >= 0;
    if holds then 2 else 0
  }

  datatype Expr =
    | Lit(v: Tri)
    | Ref(item: Item)
    | And(a: Expr, b: Expr)
    | Or(a: Expr, b: Expr)
    | Not(a: Expr)
    | Cmp(rel: Rel, a: Expr, b: Expr)

  /** The value of an expression under an assignment, without short-circuiting. */
  function Value(e: Expr, v: Item -> Tri): Tri {
    match e
    case Lit(t) => t
    case Ref(i) => v(i)
    case And(a, b) => Min(Value(a, v), Value(b, v))
    case Or(a, b) => Max(Value(a, v), Value(b, v))
    case Not(a) => 2 - Value(a, v)
    case Cmp(rel, a, b) => Compare(rel, Value(a, v), Value(b, v))
  }

  datatype Kind = Bool | Tristate | Other

  datatype Default = Default(value: Expr, cond: Expr)

  datatype SymDef = SymDef(kind: Kind, prompts: seq<Expr>, defaults: seq<Default>,
                           revDep: Expr, weakRevDep: Expr, directDep: Expr, choice: Option<nat>)

  datatype ChoiceDefault = ChoiceDefault(sym: nat, cond: Expr)

  datatype ChoiceDef = ChoiceDef(kind: Kind, optional: bool, prompts: seq<Expr>,
                                 defaults: seq<ChoiceDefault>, syms: seq<nat>)

  /** What gets a cache slot: an item's visibility, a symbol's value, a choice's selection. */
  datatype Node = Vis(item: Item) | TriN(sym: nat) | Sel(choice: nat)

  function ItemOf(nd: Node): Item {
    match nd
    case Vis(i) => i
    case TriN(s) => S(s)
    case Sel(c) => C(c)
  }

  /** A finished configuration.  `rank` orders the nodes so that evaluation only goes down. */
  datatype Config = Config(sym: nat -> SymDef, choice: nat -> ChoiceDef, items: set<Item>, modules: nat,
                           rank: Node -> nat)

  // ---------------------------------------------------------- static structure

  function ExprRank(cfg: Config, e: Expr): nat {
    match e
    case Lit(_) => 0
    case Ref(S(s)) => cfg.rank(TriN(s)) + 1
    case Ref(C(c)) => cfg.rank(Vis(C(c))) + 1
    case And(a, b) => MaxNat(ExprRank(cfg, a), ExprRank(cfg, b))
    case Or(a, b) => MaxNat(ExprRank(cfg, a), ExprRank(cfg, b))
    case Not(a) => ExprRank(cfg, a)
    case Cmp(_, a, b) => MaxNat(ExprRank(cfg, a), ExprRank(cfg, b))
  }

  function MaxNat(a: nat, b: nat): nat { if a >= b then a else b }

  function ExprItems(e: Expr): set<Item> {
    match e
    case Lit(_) => {}
    case Ref(i) => {i}
    case And(a, b) => ExprItems(a) + ExprItems(b)
    case Or(a, b) => ExprItems(a) + ExprItems(b)
    case Not(a) => ExprItems(a)
    case Cmp(_, a, b) => ExprItems(a) + ExprItems(b)
  }

  predicate InSome(es: seq<Expr>, i: Item) { exists k :: 0 <= k < |es| && i in ExprItems(es[k]) }

  predicate InDefaults(ds: seq<Default>, i: Item) {
    exists k :: 0 <= k < |ds| && (i in ExprItems(ds[k].value) || i in ExprItems(ds[k].cond))
  }

  predicate InConds(ds: seq<ChoiceDefault>, i: Item) {
    exists k :: 0 <= k < |ds| && i in ExprItems(ds[k].cond)
  }

  /** Does item `x` refer to item `y`?  `_build_dep` and `_add_choice_deps` make `x` a
      dependent of `y` in exactly these cases. */
  predicate Mentions(cfg: Config, x: Item, y: Item) {
    match x
    case S(s) =>
      var d := cfg.sym(s);
      || InSome(d.prompts, y) || InDefaults(d.defaults, y)
      || y in ExprItems(d.revDep) || y in ExprItems(d.weakRevDep) || y in ExprItems(d.directDep)
    case C(c) =>
      var d := cfg.choice(c);
      InSome(d.prompts, y) || InConds(d.defaults, y) || (y.S? && y.sym in d.syms)
  }

  function Dependents(cfg: Config, y: Item): set<Item> {
    set x | x in cfg.items && Mentions(cfg, x, y)
  }

  predicate RankedSym(cfg: Config, s: nat) {
    var d, r, q := cfg.sym(s), cfg.rank(Vis(S(s))), cfg.rank(TriN(s));
    && r < q
    && (forall k :: 0 <= k < |d.prompts| ==> ExprRank(cfg, d.prompts[k]) <= r)
    && (d.choice.Some? ==> cfg.rank(Vis(C(d.choice.value))) < r && cfg.rank(Sel(d.choice.value)) < q)
    && (d.kind == Tristate ==> cfg.rank(TriN(cfg.modules)) < r)
    && (forall k :: 0 <= k < |d.defaults| ==>
          ExprRank(cfg, d.defaults[k].value) <= q && ExprRank(cfg, d.defaults[k].cond) <= q)
    && ExprRank(cfg, d.revDep) <= q && ExprRank(cfg, d.weakRevDep) <= q && ExprRank(cfg, d.directDep) <= q
  }

  predicate RankedChoice(cfg: Config, c: nat) {
    var d, r, q := cfg.choice(c), cfg.rank(Vis(C(c))), cfg.rank(Sel(c));
    && r < q
    && (forall k :: 0 <= k < |d.prompts| ==> ExprRank(cfg, d.prompts[k]) <= r)
    && (d.kind == Tristate ==> cfg.rank(TriN(cfg.modules)) < r)
    && (forall k :: 0 <= k < |d.defaults| ==>
          ExprRank(cfg, d.defaults[k].cond) <= q && cfg.rank(Vis(S(d.defaults[k].sym))) < q)
    && (forall k :: 0 <= k < |d.syms| ==> cfg.rank(Vis(S(d.syms[k]))) < q)
  }

  /** No dependency loops, a choice lists its symbols, and only what is defined has a type or
      refers to anything. */
  ghost predicate WellFormed(cfg: Config) {
    && (forall s: nat :: RankedSym(cfg, s))
    && (forall c: nat :: RankedChoice(cfg, c))
    && (forall s: nat :: Listed(cfg, s))
    && (forall x: Item, y: Item :: Mentions(cfg, x, y) ==> x in cfg.items)
    && (forall s: nat :: cfg.sym(s).kind != Other ==> S(s) in cfg.items)
    && (forall c: nat :: cfg.choice(c).kind != Other ==> C(c) in cfg.items)
  }

  predicate Listed(cfg: Config, s: nat) {
    var d := cfg.sym(s);
    d.choice.Some? ==> s in cfg.choice(d.choice.value).syms && S(s) in cfg.items
  }

  /** What is read without being an operand of any expression is a dependency all the same:
      a choice symbol that can be visible refers to its choice, and a choice to the symbols
      of its defaults (its own symbols count).  Nothing enforces this: a default outside the
      choice and a choice symbol prompted elsewhere only get a warning. */
  ghost predicate Covered(cfg: Config) {
    (forall s: nat :: SymCovered(cfg, s)) && (forall c: nat :: ChoiceCovered(cfg, c))
  }

  predicate SymCovered(cfg: Config, s: nat) {
    var d := cfg.sym(s);
    d.choice.Some? && d.prompts != [] ==> Mentions(cfg, S(s), C(d.choice.value))
  }

  predicate ChoiceCovered(cfg: Config, c: nat) {
    var d := cfg.choice(c);
    forall k :: 0 <= k < |d.defaults| ==> Mentions(cfg, C(c), S(d.defaults[k].sym))
  }

  // ------------------------------------------------------------------- values

  /** What the user assigned: symbol values, choice modes, choice selections. */
  datatype User = User(val: map<nat, Tri>, mode: map<nat, Tri>, sel: map<nat, nat>)

  /** Only values of the right form are ever stored. */
  ghost predicate UserOk(cfg: Config, u: User) {
    && (forall s :: s in u.val ==> Accepts(cfg.sym(s).kind, u.val[s]))
    && (forall c :: c in u.mode ==> Accepts(cfg.choice(c).kind, u.mode[c]))
    && (forall c :: c in u.sel ==> u.sel[c] in cfg.choice(c).syms)
  }

  predicate Accepts(kind: Kind, v: Tri) {
    kind == Tristate || (kind == Bool && v != 1)
  }

  /** What assigning `v` to symbol `s` does to the user's input: setting a choice symbol to
      y also makes it the user's selection. */
  function AfterSet(cfg: Config, u: User, s: nat, v: Tri): User {
    var d := cfg.sym(s);
    if !Accepts(d.kind, v) then u
    else if d.choice.Some? && v == 2 then u.(val := u.val[s := v], sel := u.sel[d.choice.value := s])
    else u.(val := u.val[s := v])
  }

  function AfterUnset(u: User, s: nat): User { u.(val := u.val - {s}) }

  function AfterSetMode(cfg: Config, u: User, c: nat, v: Tri): User {
    if Accepts(cfg.choice(c).kind, v) then u.(mode := u.mode[c := v]) else u
  }

  function AfterUnsetMode(u: User, c: nat): User { u.(mode := u.mode - {c}, sel := u.sel - {c}) }

  /** A value and the nodes consulted directly to get it. */
  datatype Res<+T> = Res(v: T, seen: set<Node>)

  ghost function ExprEv(cfg: Config, u: User, e: Expr): Res<Tri>
    requires WellFormed(cfg)
    decreases ExprRank(cfg, e), 0, e
  {
    match e
    case Lit(v) => Res(v, {})
    case Ref(S(s)) => Res(TriEv(cfg, u, s).v, {TriN(s)})
    case Ref(C(c)) => ModeEv(cfg, u, c)
    case And(a, b) =>
      var x := ExprEv(cfg, u, a);
      if x.v == 0 then x
      else var y := ExprEv(cfg, u, b); Res(Min(x.v, y.v), x.seen + y.seen)
    case Or(a, b) =>
      var x := ExprEv(cfg, u, a);
      if x.v == 2 then x
      else var y := ExprEv(cfg, u, b); Res(Max(x.v, y.v), x.seen + y.seen)
    case Not(a) =>
      var x := ExprEv(cfg, u, a);
      Res(2 - x.v, x.seen)
    case Cmp(rel, a, b) =>
      var x, y := ExprEv(cfg, u, a), ExprEv(cfg, u, b);
      Res(Compare(rel, x.v, y.v), x.seen + y.seen)
  }

  /** Best of the first `k` prompts. */
  ghost function PromptsEv(cfg: Config, u: User, ps: seq<Expr>, k: nat, bound: nat): Res<Tri>
    requires WellFormed(cfg) && k <= |ps|
    requires forall i :: 0 <= i < |ps| ==> ExprRank(cfg, ps[i]) <= bound
    decreases bound, 1, k
  {
    if k == 0 then Res(0, {})
    else
      var x, y := PromptsEv(cfg, u, ps, k - 1, bound), ExprEv(cfg, u, ps[k - 1]);
      Res(Max(x.v, y.v), x.seen + y.seen)
  }

  /** Is MODULES on?  Only asked for tristate items. */
  ghost function ModulesEv(cfg: Config, u: User): Res<bool>
    requires WellFormed(cfg)
    decreases cfg.rank(TriN(cfg.modules)), 4
  {
    Res(TriEv(cfg, u, cfg.modules).v != 0, {TriN(cfg.modules)})
  }

  /** `Choice.tri_value`, which is not cached itself. */
  ghost function ModeEv(cfg: Config, u: User, c: nat): Res<Tri>
    requires WellFormed(cfg)
    decreases cfg.rank(Vis(C(c))), 4
  {
    assert RankedChoice(cfg, c);
    var d, x := cfg.choice(c), VisEv(cfg, u, C(c));
    var v0: Tri := if d.optional then 0 else 1;
    var v1 := if c in u.mode then Max(v0, u.mode[c]) else v0;
    var v := Min(v1, x.v);
    if v == 1 && d.kind == Bool then Res(2, {Vis(C(c))})
    else if v == 1 && d.kind == Tristate then
      var m := ModulesEv(cfg, u);
      Res(if m.v then 1 else 2, {Vis(C(c))} + m.seen)
    else Res(v, {Vis(C(c))})
  }

  /** `Symbol.type is BOOL`. */
  ghost function TypeIsBoolEv(cfg: Config, u: User, s: nat): Res<bool>
    requires WellFormed(cfg)
    decreases cfg.rank(Vis(S(s))), 1
  {
    assert RankedSym(cfg, s);
    var d := cfg.sym(s);
    if d.kind != Tristate then Res(d.kind == Bool, {})
    else
      var x := if d.choice.Some? then ModeEv(cfg, u, d.choice.value) else Res(0, {});
      if d.choice.Some? && x.v == 2 then Res(true, x.seen)
      else var m := ModulesEv(cfg, u); Res(!m.v, x.seen + m.seen)
  }

  /** Promotion of m visibility to y unless the item is tristate at the moment. */
  ghost function PromoteEv(cfg: Config, u: User, s: nat, v: Tri): Res<Tri>
    requires WellFormed(cfg)
    decreases cfg.rank(Vis(S(s))), 2
  {
    if v != 1 then Res(v, {})
    else if cfg.sym(s).kind != Tristate then Res(2, {})
    else var t := TypeIsBoolEv(cfg, u, s); Res(if t.v then 2 else 1, t.seen)
  }

  /** `_visibility`. */
  ghost function VisEv(cfg: Config, u: User, i: Item): Res<Tri>
    requires WellFormed(cfg)
    decreases cfg.rank(Vis(i)), 3
  {
    match i
    case S(s) =>
      assert RankedSym(cfg, s);
      var d := cfg.sym(s);
      var p := PromptsEv(cfg, u, d.prompts, |d.prompts|, cfg.rank(Vis(i)));
      if d.choice.None? then
        var q := PromoteEv(cfg, u, s, p.v);
        Res(q.v, p.seen + q.seen)
      else if cfg.choice(d.choice.value).kind == Tristate && d.kind != Tristate then
        var m := ModeEv(cfg, u, d.choice.value);
        if m.v != 2 then Res(0, p.seen + m.seen)
        else var q := PromoteEv(cfg, u, s, p.v); Res(q.v, p.seen + m.seen + q.seen)
      else if d.kind == Tristate && p.v == 1 then
        var m := ModeEv(cfg, u, d.choice.value);
        if m.v == 2 then Res(0, p.seen + m.seen)
        else var q := PromoteEv(cfg, u, s, p.v); Res(q.v, p.seen + m.seen + q.seen)
      else
        var q := PromoteEv(cfg, u, s, p.v);
        Res(q.v, p.seen + q.seen)
    case C(c) =>
      assert RankedChoice(cfg, c);
      var d := cfg.choice(c);
      var p := PromptsEv(cfg, u, d.prompts, |d.prompts|, cfg.rank(Vis(i)));
      if p.v != 1 then p
      else if d.kind != Tristate then Res(2, p.seen)
      else var m := ModulesEv(cfg, u); Res(if m.v then 1 else 2, p.seen + m.seen)
  }

  /** The first default whose condition is not n. */
  ghost function DefaultsEv(cfg: Config, u: User, ds: seq<Default>, bound: nat): Res<Tri>
    requires WellFormed(cfg)
    requires forall i :: 0 <= i < |ds| ==> ExprRank(cfg, ds[i].value) <= bound && ExprRank(cfg, ds[i].cond) <= bound
    decreases bound, 1, |ds|
  {
    if ds == [] then Res(0, {})
    else
      var c := ExprEv(cfg, u, ds[0].cond);
      if c.v == 0 then var r := DefaultsEv(cfg, u, ds[1..], bound); Res(r.v, c.seen + r.seen)
      else var v := ExprEv(cfg, u, ds[0].value); Res(Min(v.v, c.v), c.seen + v.seen)
  }

  /** The value before selects: the user's, or default and imply. */
  ghost function BaseEv(cfg: Config, u: User, s: nat, vis: Tri): Res<Tri>
    requires WellFormed(cfg)
    decreases cfg.rank(TriN(s)), 2
  {
    assert RankedSym(cfg, s);
    var d := cfg.sym(s);
    if vis != 0 && s in u.val then Res(Min(u.val[s], vis), {})
    else
      var x := DefaultsEv(cfg, u, d.defaults, cfg.rank(TriN(s)));
      var w := ExprEv(cfg, u, d.weakRevDep);
      if w.v == 0 then Res(x.v, x.seen + w.seen)
      else
        var dd := ExprEv(cfg, u, d.directDep);
        Res(if dd.v != 0 then Max(w.v, x.v) else x.v, x.seen + w.seen + dd.seen)
  }

  /** Selects take precedence. */
  ghost function SelectedEv(cfg: Config, u: User, s: nat, val: Tri): Res<Tri>
    requires WellFormed(cfg)
    decreases cfg.rank(TriN(s)), 2
  {
    assert RankedSym(cfg, s);
    var d := cfg.sym(s);
    var r := ExprEv(cfg, u, d.revDep);
    if r.v == 0 then Res(val, r.seen)
    else var dd := ExprEv(cfg, u, d.directDep); Res(Max(r.v, val), r.seen + dd.seen)
  }

  /** m becomes y for bools and for symbols implied to y. */
  ghost function FinalEv(cfg: Config, u: User, s: nat, val: Tri): Res<Tri>
    requires WellFormed(cfg)
    decreases cfg.rank(TriN(s)), 2
  {
    assert RankedSym(cfg, s);
    if val != 1 then Res(val, {})
    else
      var t := TypeIsBoolEv(cfg, u, s);
      if t.v then Res(2, t.seen)
      else
        var w := ExprEv(cfg, u, cfg.sym(s).weakRevDep);
        Res(if w.v == 2 then 2 else 1, t.seen + w.seen)
  }

  /** `Symbol.tri_value`. */
  ghost function TriEv(cfg: Config, u: User, s: nat): Res<Tri>
    requires WellFormed(cfg)
    decreases cfg.rank(TriN(s)), 3
  {
    assert RankedSym(cfg, s);
    var d := cfg.sym(s);
    if d.kind == Other then Res(0, {})
    else
      var vis := VisEv(cfg, u, S(s)).v;
      match d.choice
      case None =>
        var x := BaseEv(cfg, u, s, vis);
        var y := SelectedEv(cfg, u, s, x.v);
        var z := FinalEv(cfg, u, s, y.v);
        Res(z.v, {Vis(S(s))} + x.seen + y.seen + z.seen)
      case Some(c) =>
        if vis == 2 then Res(if SelEv(cfg, u, c).v == Some(s) then 2 else 0, {Vis(S(s)), Sel(c)})
        else if vis != 0 && s in u.val && u.val[s] != 0 then Res(1, {Vis(S(s))})
        else Res(0, {Vis(S(s))})
  }

  /** Does this default apply: condition not n, symbol visible? */
  ghost function TryDefaultEv(cfg: Config, u: User, c: nat, d: ChoiceDefault): Res<bool>
    requires WellFormed(cfg)
    requires ExprRank(cfg, d.cond) <= cfg.rank(Sel(c)) && cfg.rank(Vis(S(d.sym))) < cfg.rank(Sel(c))
    decreases cfg.rank(Sel(c)), 1
  {
    var x := ExprEv(cfg, u, d.cond);
    if x.v == 0 then Res(false, x.seen)
    else Res(VisEv(cfg, u, S(d.sym)).v != 0, x.seen + {Vis(S(d.sym))})
  }

  ghost function VisibleDefaultEv(cfg: Config, u: User, c: nat, ds: seq<ChoiceDefault>): Res<Option<nat>>
    requires WellFormed(cfg)
    requires forall i :: 0 <= i < |ds| ==>
      ExprRank(cfg, ds[i].cond) <= cfg.rank(Sel(c)) && cfg.rank(Vis(S(ds[i].sym))) < cfg.rank(Sel(c))
    decreases cfg.rank(Sel(c)), 2, |ds|
  {
    if ds == [] then Res(None, {})
    else
      var t := TryDefaultEv(cfg, u, c, ds[0]);
      if t.v then Res(Some(ds[0].sym), t.seen)
      else var r := VisibleDefaultEv(cfg, u, c, ds[1..]); Res(r.v, t.seen + r.seen)
  }

  ghost function FirstVisibleEv(cfg: Config, u: User, c: nat, ss: seq<nat>): Res<Option<nat>>
    requires WellFormed(cfg)
    requires forall i :: 0 <= i < |ss| ==> cfg.rank(Vis(S(ss[i]))) < cfg.rank(Sel(c))
    decreases cfg.rank(Sel(c)), 2, |ss|
  {
    if ss == [] then Res(None, {})
    else if VisEv(cfg, u, S(ss[0])).v != 0 then Res(Some(ss[0]), {Vis(S(ss[0]))})
    else
      var r := FirstVisibleEv(cfg, u, c, ss[1..]);
      Res(r.v, {Vis(S(ss[0]))} + r.seen)
  }

  lemma DefaultsRanked(cfg: Config, c: nat)
    requires WellFormed(cfg)
    ensures var ds := cfg.choice(c).defaults;
      forall i :: 0 <= i < |ds| ==>
        ExprRank(cfg, ds[i].cond) <= cfg.rank(Sel(c)) && cfg.rank(Vis(S(ds[i].sym))) < cfg.rank(Sel(c))
  {
    assert RankedChoice(cfg, c);
  }

  /** `_selection_from_defaults`. */
  ghost function SelDefaultEv(cfg: Config, u: User, c: nat): Res<Option<nat>>
    requires WellFormed(cfg)
    decreases cfg.rank(Sel(c)), 3
  {
    assert RankedChoice(cfg, c);
    DefaultsRanked(cfg, c);
    var d := VisibleDefaultEv(cfg, u, c, cfg.choice(c).defaults);
    if d.v.Some? then d
    else var f := FirstVisibleEv(cfg, u, c, cfg.choice(c).syms); Res(f.v, d.seen + f.seen)
  }

  /** `Choice.selection`.  A selection outside the choice's symbols is never made. */
  ghost function SelEv(cfg: Config, u: User, c: nat): Res<Option<nat>>
    requires WellFormed(cfg)
    decreases cfg.rank(Sel(c)), 4
  {
    assert RankedChoice(cfg, c);
    var m := ModeEv(cfg, u, c);
    if m.v != 2 then Res(None, m.seen)
    else if c in u.sel && u.sel[c] in cfg.choice(c).syms then
      if VisEv(cfg, u, S(u.sel[c])).v != 0 then Res(Some(u.sel[c]), m.seen + {Vis(S(u.sel[c]))})
      else
        var x := SelDefaultEv(cfg, u, c);
        Res(x.v, m.seen + {Vis(S(u.sel[c]))} + x.seen)
    else
      var x := SelDefaultEv(cfg, u, c);
      Res(x.v, m.seen + x.seen)
  }
}
