/** The lazy value cache: symbols and choices remember visibilities, values and
    selections, and an assignment invalidates dependents, stopping at items that have
    nothing cached. */
module KconfigCache {
  import opened Options
  import opened KconfigEval
  import opened KconfigStable
  import opened KconfigInvalidate

  class Evaluator {
    const cfg: Config
    var user: User
    var vis: map<Item, Tri>
    var tri: map<nat, Tri>
    var sel: map<nat, Option<nat>>

    function K(): Caches
      reads this
    {
      Caches(vis, tri, sel)
    }

    ghost predicate Valid()
      reads this
    {
      WellFormed(cfg) && UserOk(cfg, user) && CacheOk(cfg, user, K())
    }

    /** Reading a value only adds cache entries. */
    twostate predicate Grew()
      reads this
    {
      Valid() && user == old(user) && Within(old(K()), K())
    }

    constructor (cfg: Config)
      requires WellFormed(cfg)
      ensures Valid() && this.cfg == cfg && user == User(map[], map[], map[]) && K() == Caches(map[], map[], map[])
    {
      this.cfg := cfg;
      user := User(map[], map[], map[]);
      vis, tri, sel := map[], map[], map[];
    }

    // ------------------------------------------------------------------ reading

    /** `expr_value`. */
    method ExprValue(e: Expr) returns (v: Tri)
      requires Valid()
      modifies this`vis, this`tri, this`sel
      ensures Grew() && v == ExprEv(cfg, user, e).v && AllHas(K(), ExprEv(cfg, user, e).seen)
      decreases ExprRank(cfg, e), 0, e
    {
      hide WellFormed, CacheOk, UserOk, TriEv, ModeEv, Within, AllHas, Has, Compare;
      ghost var k0 := K();
      HasSimple(k0, TriN(0));
      match e {
        case Lit(x) =>
          v := x;
        case Ref(S(s)) =>
          v := TriValue(s);
          HasSimple(K(), TriN(s));
        case Ref(C(c)) =>
          v := Mode(c);
        case And(a, b) =>
          v := ExprValue(a);
          if v != 0 {
            ghost var k1 := K();
            var w := ExprValue(b);
            Grow(k0, k1, K(), ExprEv(cfg, user, a).seen);
            HasBoth(K(), ExprEv(cfg, user, a).seen, ExprEv(cfg, user, b).seen);
            v := Min(v, w);
          }
        case Or(a, b) =>
          v := ExprValue(a);
          if v != 2 {
            ghost var k1 := K();
            var w := ExprValue(b);
            Grow(k0, k1, K(), ExprEv(cfg, user, a).seen);
            HasBoth(K(), ExprEv(cfg, user, a).seen, ExprEv(cfg, user, b).seen);
            v := Max(v, w);
          }
        case Not(a) =>
          v := ExprValue(a);
          v := 2 - v;
        case Cmp(rel, a, b) =>
          v := ExprValue(a);
          ghost var k1 := K();
          var w := ExprValue(b);
          Grow(k0, k1, K(), ExprEv(cfg, user, a).seen);
          HasBoth(K(), ExprEv(cfg, user, a).seen, ExprEv(cfg, user, b).seen);
          v := Compare(rel, v, w);
      }
    }

    method ModulesOn() returns (on: bool)
      requires Valid()
      modifies this`vis, this`tri, this`sel
      ensures Grew() && on == ModulesEv(cfg, user).v && AllHas(K(), ModulesEv(cfg, user).seen)
      decreases cfg.rank(TriN(cfg.modules)), 5
    {
      var v := TriValue(cfg.modules);
      on := v != 0;
    }

    /** `Choice.tri_value`. */
    method Mode(c: nat) returns (v: Tri)
      requires Valid()
      modifies this`vis, this`tri, this`sel
      ensures Grew() && v == ModeEv(cfg, user, c).v && AllHas(K(), ModeEv(cfg, user, c).seen)
      decreases cfg.rank(Vis(C(c))), 5
    {
      hide CacheOk, VisEv, UserOk;
      assert RankedChoice(cfg, c);
      var d := cfg.choice(c);
      v := if d.optional then 0 else 1;
      if c in user.mode {
        v := Max(v, user.mode[c]);
      }
      var x := Visibility(C(c));
      v := Min(v, x);
      if v == 1 {
        if d.kind == Bool {
          v := 2;
        } else if d.kind == Tristate {
          var on := ModulesOn();
          v := if on then 1 else 2;
        }
      }
    }

    /** `Symbol.type is BOOL`. */
    method TypeIsBool(s: nat) returns (r: bool)
      requires Valid()
      modifies this`vis, this`tri, this`sel
      ensures Grew() && r == TypeIsBoolEv(cfg, user, s).v && AllHas(K(), TypeIsBoolEv(cfg, user, s).seen)
      decreases cfg.rank(Vis(S(s))), 1
    {
      hide CacheOk, ModeEv, UserOk;
      assert RankedSym(cfg, s);
      var d := cfg.sym(s);
      if d.kind != Tristate {
        return d.kind == Bool;
      }
      if d.choice.Some? {
        var m := Mode(d.choice.value);
        if m == 2 {
          return true;
        }
      }
      var on := ModulesOn();
      return !on;
    }

    method Promote(s: nat, p: Tri) returns (v: Tri)
      requires Valid()
      modifies this`vis, this`tri, this`sel
      ensures Grew() && v == PromoteEv(cfg, user, s, p).v && AllHas(K(), PromoteEv(cfg, user, s, p).seen)
      decreases cfg.rank(Vis(S(s))), 2
    {
      hide CacheOk, TypeIsBoolEv, UserOk, WellFormed;
      v := p;
      if p == 1 {
        if cfg.sym(s).kind != Tristate {
          v := 2;
        } else {
          var b := TypeIsBool(s);
          v := if b then 2 else 1;
        }
      }
    }

    /** The prompt loop of `_visibility`. */
    method Prompts(ps: seq<Expr>, ghost bound: nat) returns (v: Tri)
      requires Valid()
      requires forall i :: 0 <= i < |ps| ==> ExprRank(cfg, ps[i]) <= bound
      modifies this`vis, this`tri, this`sel
      ensures Grew() && v == PromptsEv(cfg, user, ps, |ps|, bound).v
      ensures AllHas(K(), PromptsEv(cfg, user, ps, |ps|, bound).seen)
      decreases bound, 1
    {
      hide CacheOk, ExprEv, UserOk, WellFormed, ExprRank;
      v := 0;
      for k := 0 to |ps|
        invariant Grew() && v == PromptsEv(cfg, user, ps, k, bound).v
        invariant AllHas(K(), PromptsEv(cfg, user, ps, k, bound).seen)
      {
        var w := ExprValue(ps[k]);
        v := Max(v, w);
      }
    }

    /** `Symbol.visibility` and `Choice.visibility`. */
    method Visibility(i: Item) returns (v: Tri)
      requires Valid()
      modifies this`vis, this`tri, this`sel
      ensures Grew() && v == VisEv(cfg, user, i).v && Has(K(), Vis(i))
      decreases cfg.rank(Vis(i)), 4
    {
      if i in vis {
        CachedIsRight(cfg, user, K(), Vis(i));
        return vis[i];
      }
      hide CacheOk, WellFormed, VisEv, UserOk;
      match i {
        case S(s) => v := SymVisibility(s);
        case C(c) => v := ChoiceVisibility(c);
      }
      AddOk(cfg, user, K(), Caches(vis[i := v], tri, sel), Vis(i));
      vis := vis[i := v];
    }

    method SymVisibility(s: nat) returns (v: Tri)
      requires Valid()
      modifies this`vis, this`tri, this`sel
      ensures Grew() && v == VisEv(cfg, user, S(s)).v && AllHas(K(), VisEv(cfg, user, S(s)).seen)
      decreases cfg.rank(Vis(S(s))), 3
    {
      hide CacheOk, PromptsEv, PromoteEv, ModeEv, UserOk, ExprRank, Within, AllHas;
      assert RankedSym(cfg, s);
      var d := cfg.sym(s);
      ghost var k0 := K();
      var p := Prompts(d.prompts, cfg.rank(Vis(S(s))));
      ghost var k1, seen := K(), PromptsEv(cfg, user, d.prompts, |d.prompts|, cfg.rank(Vis(S(s)))).seen;
      if d.choice.Some? {
        var c := d.choice.value;
        if (cfg.choice(c).kind == Tristate && d.kind != Tristate) || (d.kind == Tristate && p == 1) {
          var m := Mode(c);
          Grow(k0, k1, K(), seen);
          HasBoth(K(), seen, ModeEv(cfg, user, c).seen);
          k1, seen := K(), seen + ModeEv(cfg, user, c).seen;
          if d.kind != Tristate && m != 2 {
            return 0;
          }
          if d.kind == Tristate && m == 2 {
            return 0;
          }
        }
      }
      v := Promote(s, p);
      Grow(k0, k1, K(), seen);
      HasBoth(K(), seen, PromoteEv(cfg, user, s, p).seen);
    }

    method ChoiceVisibility(c: nat) returns (v: Tri)
      requires Valid()
      modifies this`vis, this`tri, this`sel
      ensures Grew() && v == VisEv(cfg, user, C(c)).v && AllHas(K(), VisEv(cfg, user, C(c)).seen)
      decreases cfg.rank(Vis(C(c))), 3
    {
      hide CacheOk, PromptsEv, ModulesEv, UserOk, ExprRank;
      assert RankedChoice(cfg, c);
      var d := cfg.choice(c);
      v := Prompts(d.prompts, cfg.rank(Vis(C(c))));
      if v == 1 {
        if d.kind != Tristate {
          v := 2;
        } else {
          var on := ModulesOn();
          v := if on then 1 else 2;
        }
      }
    }

    /** The default loop of `tri_value`. */
    method Defaults(ds: seq<Default>, ghost bound: nat) returns (v: Tri)
      requires Valid()
      requires forall i :: 0 <= i < |ds| ==> ExprRank(cfg, ds[i].value) <= bound && ExprRank(cfg, ds[i].cond) <= bound
      modifies this`vis, this`tri, this`sel
      ensures Grew() && v == DefaultsEv(cfg, user, ds, bound).v && AllHas(K(), DefaultsEv(cfg, user, ds, bound).seen)
      decreases bound, 1
    {
      hide CacheOk, ExprEv, UserOk, WellFormed, ExprRank, Within, AllHas;
      v := 0;
      ghost var got, k0 := {}, K();
      HasSimple(k0, TriN(0));
      for k := 0 to |ds|
        invariant Grew() && AllHas(K(), got)
        invariant DefaultsEv(cfg, user, ds, bound).v == DefaultsEv(cfg, user, ds[k..], bound).v
        invariant DefaultsEv(cfg, user, ds, bound).seen == got + DefaultsEv(cfg, user, ds[k..], bound).seen
      {
        assert ds[k..][0] == ds[k] && ds[k..][1..] == ds[k + 1..];
        ghost var k1 := K();
        var c := ExprValue(ds[k].cond);
        Grow(k0, k1, K(), got);
        HasBoth(K(), got, ExprEv(cfg, user, ds[k].cond).seen);
        got := got + ExprEv(cfg, user, ds[k].cond).seen;
        if c != 0 {
          k1 := K();
          var x := ExprValue(ds[k].value);
          Grow(k0, k1, K(), got);
          HasBoth(K(), got, ExprEv(cfg, user, ds[k].value).seen);
          assert DefaultsEv(cfg, user, ds, bound).seen == got + ExprEv(cfg, user, ds[k].value).seen;
          return Min(x, c);
        }
      }
    }

    method Base(s: nat, vs: Tri) returns (v: Tri)
      requires Valid()
      modifies this`vis, this`tri, this`sel
      ensures Grew() && v == BaseEv(cfg, user, s, vs).v && AllHas(K(), BaseEv(cfg, user, s, vs).seen)
      decreases cfg.rank(TriN(s)), 2
    {
      hide CacheOk, ExprEv, DefaultsEv, UserOk, ExprRank, Within, AllHas;
      assert RankedSym(cfg, s);
      var d := cfg.sym(s);
      ghost var k0 := K();
      HasSimple(k0, TriN(s));
      if vs != 0 && s in user.val {
        return Min(user.val[s], vs);
      }
      v := Defaults(d.defaults, cfg.rank(TriN(s)));
      ghost var k1, seen := K(), DefaultsEv(cfg, user, d.defaults, cfg.rank(TriN(s))).seen;
      var w := ExprValue(d.weakRevDep);
      Grow(k0, k1, K(), seen);
      HasBoth(K(), seen, ExprEv(cfg, user, d.weakRevDep).seen);
      k1, seen := K(), seen + ExprEv(cfg, user, d.weakRevDep).seen;
      if w != 0 {
        var dd := ExprValue(d.directDep);
        Grow(k0, k1, K(), seen);
        HasBoth(K(), seen, ExprEv(cfg, user, d.directDep).seen);
        if dd != 0 {
          v := Max(w, v);
        }
      }
    }

    /** Selects. */
    method Selected(s: nat, val: Tri) returns (v: Tri)
      requires Valid()
      modifies this`vis, this`tri, this`sel
      ensures Grew() && v == SelectedEv(cfg, user, s, val).v && AllHas(K(), SelectedEv(cfg, user, s, val).seen)
      decreases cfg.rank(TriN(s)), 2
    {
      hide CacheOk, ExprEv, UserOk, ExprRank;
      assert RankedSym(cfg, s);
      var d := cfg.sym(s);
      v := val;
      var r := ExprValue(d.revDep);
      if r != 0 {
        var dd := ExprValue(d.directDep);
        v := Max(r, v);
      }
    }

    /** The promotion of m at the end of `tri_value`. */
    method Final(s: nat, val: Tri) returns (v: Tri)
      requires Valid()
      modifies this`vis, this`tri, this`sel
      ensures Grew() && v == FinalEv(cfg, user, s, val).v && AllHas(K(), FinalEv(cfg, user, s, val).seen)
      decreases cfg.rank(TriN(s)), 2
    {
      hide CacheOk, ExprEv, TypeIsBoolEv, UserOk, ExprRank;
      assert RankedSym(cfg, s);
      v := val;
      if v == 1 {
        var b := TypeIsBool(s);
        if b {
          v := 2;
        } else {
          var w := ExprValue(cfg.sym(s).weakRevDep);
          if w == 2 {
            v := 2;
          }
        }
      }
    }

    /** `Symbol.tri_value`. */
    method TriValue(s: nat) returns (v: Tri)
      requires Valid()
      modifies this`vis, this`tri, this`sel
      ensures Grew() && v == TriEv(cfg, user, s).v && Has(K(), TriN(s))
      decreases cfg.rank(TriN(s)), 4
    {
      if s in tri {
        CachedIsRight(cfg, user, K(), TriN(s));
        return tri[s];
      }
      hide CacheOk, WellFormed, TriEv, UserOk;
      v := CalcTri(s);
      AddOk(cfg, user, K(), Caches(vis, tri[s := v], sel), TriN(s));
      tri := tri[s := v];
    }

    method CalcTri(s: nat) returns (v: Tri)
      requires Valid()
      modifies this`vis, this`tri, this`sel
      ensures Grew() && v == TriEv(cfg, user, s).v && AllHas(K(), TriEv(cfg, user, s).seen)
      decreases cfg.rank(TriN(s)), 3
    {
      hide CacheOk, BaseEv, SelectedEv, FinalEv, VisEv, SelEv, UserOk, ExprRank, Within, AllHas, Has;
      assert RankedSym(cfg, s);
      var d := cfg.sym(s);
      v := 0;
      ghost var k0 := K();
      HasSimple(k0, TriN(s));
      if d.kind == Other {
        return 0;
      }
      var vs := Visibility(S(s));
      ghost var k1, seen := K(), {Vis(S(s))};
      HasSimple(k1, Vis(S(s)));
      match d.choice {
        case None =>
          v := Base(s, vs);
          Grow(k0, k1, K(), seen);
          HasBoth(K(), seen, BaseEv(cfg, user, s, vs).seen);
          k1, seen := K(), seen + BaseEv(cfg, user, s, vs).seen;
          ghost var x := v;
          v := Selected(s, v);
          Grow(k0, k1, K(), seen);
          HasBoth(K(), seen, SelectedEv(cfg, user, s, x).seen);
          k1, seen := K(), seen + SelectedEv(cfg, user, s, x).seen;
          ghost var y := v;
          v := Final(s, v);
          Grow(k0, k1, K(), seen);
          HasBoth(K(), seen, FinalEv(cfg, user, s, y).seen);
        case Some(c) =>
          if vs == 2 {
            var chosen := Selection(c);
            Grow(k0, k1, K(), seen);
            HasSimple(K(), Sel(c));
            HasBoth(K(), seen, {Sel(c)});
            assert seen + {Sel(c)} == {Vis(S(s)), Sel(c)};
            v := if chosen == Some(s) then 2 else 0;
          } else if vs != 0 && s in user.val && user.val[s] != 0 {
            v := 1;
          }
      }
    }

    /** `Choice.selection`. */
    method Selection(c: nat) returns (r: Option<nat>)
      requires Valid()
      modifies this`vis, this`tri, this`sel
      ensures Grew() && r == SelEv(cfg, user, c).v && Has(K(), Sel(c))
      decreases cfg.rank(Sel(c)), 5
    {
      if c in sel {
        CachedIsRight(cfg, user, K(), Sel(c));
        return sel[c];
      }
      hide CacheOk, WellFormed, SelEv, UserOk;
      r := CalcSelection(c);
      AddOk(cfg, user, K(), Caches(vis, tri, sel[c := r]), Sel(c));
      sel := sel[c := r];
    }

    method CalcSelection(c: nat) returns (r: Option<nat>)
      requires Valid()
      modifies this`vis, this`tri, this`sel
      ensures Grew() && r == SelEv(cfg, user, c).v && AllHas(K(), SelEv(cfg, user, c).seen)
      decreases cfg.rank(Sel(c)), 4
    {
      hide CacheOk, ModeEv, VisEv, SelDefaultEv, ExprRank, Within, AllHas, Has;
      assert RankedChoice(cfg, c);
      ghost var k0 := K();
      var m := Mode(c);
      if m != 2 {
        return None;
      }
      ghost var k1, seen := K(), ModeEv(cfg, user, c).seen;
      if c in user.sel {
        var w := Visibility(S(user.sel[c]));
        Grow(k0, k1, K(), seen);
        HasSimple(K(), Vis(S(user.sel[c])));
        HasBoth(K(), seen, {Vis(S(user.sel[c]))});
        k1, seen := K(), seen + {Vis(S(user.sel[c]))};
        if w != 0 {
          return Some(user.sel[c]);
        }
      }
      r := SelectionFromDefaults(c);
      Grow(k0, k1, K(), seen);
      HasBoth(K(), seen, SelDefaultEv(cfg, user, c).seen);
    }

    /** `_selection_from_defaults`. */
    method SelectionFromDefaults(c: nat) returns (r: Option<nat>)
      requires Valid()
      modifies this`vis, this`tri, this`sel
      ensures Grew() && r == SelDefaultEv(cfg, user, c).v && AllHas(K(), SelDefaultEv(cfg, user, c).seen)
      decreases cfg.rank(Sel(c)), 3
    {
      hide CacheOk, ExprEv, VisEv, UserOk, ExprRank, VisibleDefaultEv, FirstVisibleEv;
      assert RankedChoice(cfg, c);
      DefaultsRanked(cfg, c);
      r := VisibleDefault(c, cfg.choice(c).defaults);
      if r.None? {
        r := FirstVisible(c, cfg.choice(c).syms);
      }
    }

    method VisibleDefault(c: nat, ds: seq<ChoiceDefault>) returns (r: Option<nat>)
      requires Valid()
      requires forall i :: 0 <= i < |ds| ==>
        ExprRank(cfg, ds[i].cond) <= cfg.rank(Sel(c)) && cfg.rank(Vis(S(ds[i].sym))) < cfg.rank(Sel(c))
      modifies this`vis, this`tri, this`sel
      ensures Grew() && r == VisibleDefaultEv(cfg, user, c, ds).v && AllHas(K(), VisibleDefaultEv(cfg, user, c, ds).seen)
      decreases cfg.rank(Sel(c)), 2
    {
      hide CacheOk, TryDefaultEv, UserOk, WellFormed, ExprRank, Within, AllHas;
      ghost var got, k0 := {}, K();
      HasSimple(k0, TriN(0));
      for k := 0 to |ds|
        invariant Grew() && AllHas(K(), got)
        invariant VisibleDefaultEv(cfg, user, c, ds).v == VisibleDefaultEv(cfg, user, c, ds[k..]).v
        invariant VisibleDefaultEv(cfg, user, c, ds).seen == got + VisibleDefaultEv(cfg, user, c, ds[k..]).seen
      {
        assert ds[k..][0] == ds[k] && ds[k..][1..] == ds[k + 1..];
        ghost var k1 := K();
        var hit := TryDefault(c, ds[k]);
        Grow(k0, k1, K(), got);
        HasBoth(K(), got, TryDefaultEv(cfg, user, c, ds[k]).seen);
        got := got + TryDefaultEv(cfg, user, c, ds[k]).seen;
        if hit {
          return Some(ds[k].sym);
        }
      }
      return None;
    }

    method TryDefault(c: nat, d: ChoiceDefault) returns (hit: bool)
      requires Valid()
      requires ExprRank(cfg, d.cond) <= cfg.rank(Sel(c)) && cfg.rank(Vis(S(d.sym))) < cfg.rank(Sel(c))
      modifies this`vis, this`tri, this`sel
      ensures Grew() && hit == TryDefaultEv(cfg, user, c, d).v && AllHas(K(), TryDefaultEv(cfg, user, c, d).seen)
      decreases cfg.rank(Sel(c)), 1
    {
      hide CacheOk, ExprEv, VisEv, UserOk, WellFormed, ExprRank;
      var x := ExprValue(d.cond);
      if x == 0 {
        return false;
      }
      var w := Visibility(S(d.sym));
      return w != 0;
    }

    method FirstVisible(c: nat, ss: seq<nat>) returns (r: Option<nat>)
      requires Valid()
      requires forall i :: 0 <= i < |ss| ==> cfg.rank(Vis(S(ss[i]))) < cfg.rank(Sel(c))
      modifies this`vis, this`tri, this`sel
      ensures Grew() && r == FirstVisibleEv(cfg, user, c, ss).v && AllHas(K(), FirstVisibleEv(cfg, user, c, ss).seen)
      decreases cfg.rank(Sel(c)), 2
    {
      hide CacheOk, VisEv, UserOk, WellFormed, Within, AllHas, Has;
      ghost var got, k0 := {}, K();
      HasSimple(k0, TriN(0));
      for k := 0 to |ss|
        invariant Grew() && AllHas(K(), got)
        invariant FirstVisibleEv(cfg, user, c, ss).v == FirstVisibleEv(cfg, user, c, ss[k..]).v
        invariant FirstVisibleEv(cfg, user, c, ss).seen == got + FirstVisibleEv(cfg, user, c, ss[k..]).seen
      {
        assert ss[k..][0] == ss[k] && ss[k..][1..] == ss[k + 1..];
        ghost var k1 := K();
        var w := Visibility(S(ss[k]));
        Grow(k0, k1, K(), got);
        HasSimple(K(), Vis(S(ss[k])));
        HasBoth(K(), got, {Vis(S(ss[k]))});
        got := got + {Vis(S(ss[k]))};
        if w != 0 {
          return Some(ss[k]);
        }
      }
      return None;
    }

    // ------------------------------------------------------------- invalidation

    /** `Symbol._invalidate` and `Choice._invalidate`. */
    method Invalidate(i: Item)
      modifies this`vis, this`tri, this`sel
      ensures Within(K(), old(K())) && Gone(K(), i)
      ensures forall r :: ItemOf(r) != i ==> (Has(old(K()), r) <==> Has(K(), r))
    {
      vis := vis - {i};
      match i {
        case S(s) => tri := tri - {s};
        case C(c) => sel := sel - {c};
      }
    }

    /** `_invalidate_all`. */
    method InvalidateAll()
      modifies this`vis, this`tri, this`sel
      ensures Within(K(), old(K())) && AllGone(cfg, K())
      ensures forall r :: ItemOf(r) !in cfg.items ==> (Has(old(K()), r) <==> Has(K(), r))
    {
      var todo := cfg.items;
      while todo != {}
        invariant todo <= cfg.items
        invariant Within(K(), old(K()))
        invariant forall i :: i in cfg.items && i !in todo ==> Gone(K(), i)
        invariant forall r :: ItemOf(r) !in cfg.items ==> (Has(old(K()), r) <==> Has(K(), r))
      {
        var i :| i in todo;
        Invalidate(i);
        todo := todo - {i};
      }
    }

    /** `_rec_invalidate`: stops at dependents that have no visibility cached, and
        terminates because every visited item loses its own. */
    method RecInvalidate(x: Item)
      requires x == S(cfg.modules) ==> x in cfg.items
      modifies this`vis, this`tri, this`sel
      ensures Invalidated(cfg, old(K()), K(), x) && Contained(cfg, old(K()), K(), x)
      decreases |vis.Keys + {x}|
    {
      ghost var k := K();
      if x == S(cfg.modules) {
        InvalidateAll();
        AllInvalidated(cfg, k, K(), x);
      } else {
        Invalidate(x);
        var todo := Dependents(cfg, x);
        FirstInvalidated(cfg, k, K(), x);
        while todo != {}
          invariant todo <= Dependents(cfg, x)
          invariant Invalidating(cfg, k, K(), x, todo) && Contained(cfg, k, K(), x)
        {
          hide Contained, Invalidating, Dependents, Gone, AllGone, Lost;
          var d :| d in todo;
          DependentDefined(cfg, x, d);
          if d in vis {
            Fewer(cfg, k, K(), x, todo, d);
            ghost var k1 := K();
            RecInvalidate(d);
            InvalidatingWithin(cfg, k, k1, x, todo);
            ContainedStep(cfg, k, k1, K(), x, d);
            InvalidateStep(cfg, k, k1, K(), x, todo, d);
          } else {
            SkipStep(cfg, k, K(), x, todo, d);
          }
          todo := todo - {d};
        }
      }
    }

    // --------------------------------------------------------------- assignment

    /** After an assignment that invalidates `x`, if anything.  What is cached is right if and
        only if all that changed was reached, and it always is if the configuration is covered. */
    twostate predicate Assigned(x: Option<Item>)
      reads this
    {
      && WellFormed(cfg) && UserOk(cfg, user) && Effect(cfg, old(user), user, old(K()), K(), x)
      && (Covered(cfg) ==> Valid())
    }

    /** `Symbol.set_value` for bool and tristate symbols. */
    method SetValue(s: nat, v: Tri) returns (ok: bool)
      requires Valid()
      modifies this
      ensures user == AfterSet(cfg, old(user), s, v) && ok == Accepts(cfg.sym(s).kind, v)
      ensures ok <==> cfg.sym(s).kind == Tristate || (cfg.sym(s).kind == Bool && (v == 0 || v == 2))
      ensures Assigned(Touched(cfg, old(user), s, v))
    {
      hide CacheOk, Invalidated, Contained, SameUser, WellFormed, UserOk, Effect, Covered, Accepts, Dependents;
      var d := cfg.sym(s);
      AcceptsMeans(d.kind, v);
      ghost var u, k := user, K();
      if s in user.val && user.val[s] == v && d.choice.None? {
        assert user.val == user.val[s := v];
        StoredIsAccepted(cfg, u, s);
        EffectOf(cfg, u, u, k, K(), None);
        return true;
      }
      if !((d.kind == Bool && v != 1) || d.kind == Tristate) {
        EffectOf(cfg, u, u, k, K(), None);
        return false;
      }
      SetKeepsForm(cfg, u, s, v);
      user := user.(val := user.val[s := v]);
      if d.choice.Some? && v == 2 {
        var c := d.choice.value;
        user := user.(sel := user.sel[c := s]);
        RecInvalidateChosen(s, c, u);
      } else {
        SetTouches(cfg, u, s, v);
        RecInvalidateIfHasPrompt(s, u);
      }
      return true;
    }

    /** Invalidating the choice, after `s` has been made the user's selection. */
    method RecInvalidateChosen(s: nat, c: nat, ghost u: User)
      requires WellFormed(cfg) && UserOk(cfg, user) && CacheOk(cfg, u, K()) && user == AfterSet(cfg, u, s, 2)
      requires cfg.sym(s).choice == Some(c) && cfg.sym(s).kind != Other
      modifies this`vis, this`tri, this`sel
      ensures Covered(cfg) ==> Valid()
      ensures Effect(cfg, u, user, old(K()), K(), Some(C(c)))
    {
      hide WellFormed, CacheOk, UserOk, Invalidated, Contained, Effect, Covered, AfterSet;
      RecInvalidate(C(c));
      if Covered(cfg) {
        SelectedAgain(cfg, u, old(K()), K(), s, c);
      }
      EffectOf(cfg, u, user, old(K()), K(), Some(C(c)));
    }

    /** `_rec_invalidate_if_has_prompt`, after `s` alone has been given or has lost a value. */
    method RecInvalidateIfHasPrompt(s: nat, ghost u: User)
      requires WellFormed(cfg) && UserOk(cfg, user) && CacheOk(cfg, u, K())
      requires S(s) in cfg.items
      requires forall i :: i != S(s) ==> SameUser(cfg, u, user, i)
      modifies this`vis, this`tri, this`sel
      ensures Covered(cfg) ==> Valid()
      ensures Effect(cfg, u, user, old(K()), K(), if cfg.sym(s).prompts != [] then Some(S(s)) else None)
    {
      hide WellFormed, CacheOk, UserOk, Invalidated, Contained, Effect, Covered;
      if cfg.sym(s).prompts != [] {
        RecInvalidate(S(s));
        if Covered(cfg) {
          Reassigned(cfg, u, user, old(K()), K(), S(s));
        }
        EffectOf(cfg, u, user, old(K()), K(), Some(S(s)));
      } else {
        Untouched(cfg, u, user, K());
        EffectOf(cfg, u, user, old(K()), K(), None);
      }
    }

    /** `Symbol.unset_value`. */
    method UnsetValue(s: nat)
      requires Valid()
      modifies this
      ensures user == AfterUnset(old(user), s)
      ensures Assigned(if s in old(user).val && cfg.sym(s).prompts != [] then Some(S(s)) else None)
    {
      hide CacheOk, RankedSym, RankedChoice, Effect, Covered;
      if s in user.val {
        user := user.(val := user.val - {s});
        RecInvalidateIfHasPrompt(s, old(user));
      } else {
        assert user.val - {s} == user.val;
        EffectOf(cfg, user, user, K(), K(), None);
      }
    }

    /** `Choice.set_value`. */
    method SetMode(c: nat, v: Tri) returns (ok: bool)
      requires Valid()
      modifies this
      ensures user == AfterSetMode(cfg, old(user), c, v) && ok == Accepts(cfg.choice(c).kind, v)
      ensures ok <==> cfg.choice(c).kind == Tristate || (cfg.choice(c).kind == Bool && (v == 0 || v == 2))
      ensures Assigned(if ok && !(c in old(user).mode && old(user).mode[c] == v) then Some(C(c)) else None)
    {
      hide CacheOk, WellFormed, Invalidated, Contained, Effect, Covered;
      if c in user.mode && user.mode[c] == v {
        assert user.mode == user.mode[c := v];
        EffectOf(cfg, user, user, K(), K(), None);
        return true;
      }
      if !((cfg.choice(c).kind == Bool && v != 1) || cfg.choice(c).kind == Tristate) {
        EffectOf(cfg, user, user, K(), K(), None);
        return false;
      }
      user := user.(mode := user.mode[c := v]);
      RecInvalidate(C(c));
      if Covered(cfg) {
        Reassigned(cfg, old(user), user, old(K()), K(), C(c));
      }
      EffectOf(cfg, old(user), user, old(K()), K(), Some(C(c)));
      return true;
    }

    /** `Choice.unset_value`. */
    method UnsetMode(c: nat)
      requires Valid()
      modifies this
      ensures user == AfterUnsetMode(old(user), c)
      ensures Assigned(if c in old(user).mode || c in old(user).sel then Some(C(c)) else None)
    {
      hide CacheOk, WellFormed, Invalidated, Contained, Effect, Covered;
      if c in user.mode || c in user.sel {
        user := user.(mode := user.mode - {c}, sel := user.sel - {c});
        RecInvalidate(C(c));
        if Covered(cfg) {
          Reassigned(cfg, old(user), user, old(K()), K(), C(c));
        }
        EffectOf(cfg, old(user), user, old(K()), K(), Some(C(c)));
      } else {
        assert user.mode - {c} == user.mode && user.sel - {c} == user.sel;
        EffectOf(cfg, user, user, K(), K(), None);
      }
    }

    /** `Kconfig.unset_values`: unsetting every defined symbol and choice leaves nothing. */
    method UnsetValues()
      requires Valid() && Covered(cfg)
      modifies this
      ensures Valid() && user == User(map[], map[], map[])
    {
      hide CacheOk, WellFormed, UserOk, Without, AfterUnset, AfterUnsetMode, Effect, Covered;
      ghost var u := user;
      AllUnset(cfg, u);
      var todo := cfg.items;
      while todo != {}
        invariant Valid() && todo <= cfg.items
        invariant user == Without(u, cfg.items - todo)
      {
        var i :| i in todo;
        UnsetOne(u, cfg.items - todo, i);
        match i {
          case S(s) => UnsetValue(s);
          case C(c) => UnsetMode(c);
        }
        assert cfg.items - todo + {i} == cfg.items - (todo - {i});
        todo := todo - {i};
      }
      assert cfg.items - {} == cfg.items;
    }

    // --------------------------------------------------------------- whole runs

    /** Any sequence of assignments and reads answers as if nothing were ever cached. */
    method Perform(cmds: seq<Cmd>) returns (answers: seq<Answer>)
      requires Valid() && Covered(cfg)
      modifies this
      ensures Valid()
      ensures answers == Uncached(cfg, old(user), cmds)
    {
      hide CacheOk, WellFormed, UserOk, Covered;
      answers := [];
      for k := 0 to |cmds|
        invariant Valid()
        invariant Uncached(cfg, old(user), cmds) == answers + Uncached(cfg, user, cmds[k..])
      {
        hide AfterSet, AfterUnset, AfterSetMode, AfterUnsetMode, VisEv, TriEv, SelEv, ModeEv;
        assert cmds[k..][0] == cmds[k] && cmds[k..][1..] == cmds[k + 1..];
        ghost var u := user;
        var a := Act(cmds[k]);
        assert Uncached(cfg, u, cmds[k..]) == [a] + Uncached(cfg, user, cmds[k + 1..]);
        answers := answers + [a];
      }
    }

    method Act(cmd: Cmd) returns (a: Answer)
      requires Valid() && Covered(cfg)
      modifies this
      ensures Valid() && user == UserAfter(cfg, old(user), cmd) && a == AnswerTo(cfg, old(user), cmd)
    {
      hide CacheOk, WellFormed, UserOk, AfterSet, AfterUnset, AfterSetMode, AfterUnsetMode, VisEv, TriEv, SelEv, ModeEv, Effect, Covered;
      match cmd {
        case SetSymbol(s, v) => var ok := SetValue(s, v); a := Accepted(ok);
        case UnsetSymbol(s) => UnsetValue(s); a := Done;
        case SetChoice(c, v) => var ok := SetMode(c, v); a := Accepted(ok);
        case UnsetChoice(c) => UnsetMode(c); a := Done;
        case ReadSymbol(s) => var v := TriValue(s); a := Value(v);
        case ReadVisibility(i) => var v := Visibility(i); a := Value(v);
        case ReadMode(c) => var v := Mode(c); a := Value(v);
        case ReadSelection(c) => var r := Selection(c); a := Chosen(r);
      }
    }
  }

  lemma AcceptsMeans(kind: Kind, v: Tri)
    ensures Accepts(kind, v) <==> kind == Tristate || (kind == Bool && (v == 0 || v == 2))
  {
  }

  datatype Cmd =
    | SetSymbol(s: nat, v: Tri) | UnsetSymbol(s: nat) | SetChoice(c: nat, v: Tri) | UnsetChoice(c: nat)
    | ReadSymbol(s: nat) | ReadVisibility(i: Item) | ReadMode(c: nat) | ReadSelection(c: nat)

  datatype Answer = Done | Accepted(ok: bool) | Value(v: Tri) | Chosen(sel: Option<nat>)

  function UserAfter(cfg: Config, u: User, cmd: Cmd): User {
    match cmd
    case SetSymbol(s, v) => AfterSet(cfg, u, s, v)
    case UnsetSymbol(s) => AfterUnset(u, s)
    case SetChoice(c, v) => AfterSetMode(cfg, u, c, v)
    case UnsetChoice(c) => AfterUnsetMode(u, c)
    case _ => u
  }

  ghost function AnswerTo(cfg: Config, u: User, cmd: Cmd): Answer
    requires WellFormed(cfg)
  {
    match cmd
    case SetSymbol(s, v) => Accepted(Accepts(cfg.sym(s).kind, v))
    case UnsetSymbol(_) => Done
    case SetChoice(c, v) => Accepted(Accepts(cfg.choice(c).kind, v))
    case UnsetChoice(_) => Done
    case ReadSymbol(s) => Value(TriEv(cfg, u, s).v)
    case ReadVisibility(i) => Value(VisEv(cfg, u, i).v)
    case ReadMode(c) => Value(ModeEv(cfg, u, c).v)
    case ReadSelection(c) => Chosen(SelEv(cfg, u, c).v)
  }

  /** What the run would answer if every value were recomputed from scratch. */
  ghost function Uncached(cfg: Config, u: User, cmds: seq<Cmd>): seq<Answer>
    requires WellFormed(cfg)
    decreases |cmds|
  {
    if cmds == [] then []
    else [AnswerTo(cfg, u, cmds[0])] + Uncached(cfg, UserAfter(cfg, u, cmds[0]), cmds[1..])
  }
}
