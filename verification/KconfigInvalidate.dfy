/** What a recursive invalidation that stops at items without a cached visibility leaves of a
    cache, and when what is left is right. */
module KconfigInvalidate {
  import opened Options
  import opened KconfigEval
  import opened KconfigStable

  datatype Caches = Caches(vis: map<Item, Tri>, tri: map<nat, Tri>, sel: map<nat, Option<nat>>)

  predicate Has(k: Caches, nd: Node) {
    match nd
    case Vis(i) => i in k.vis
    case TriN(s) => s in k.tri
    case Sel(c) => c in k.sel
  }

  ghost predicate AllHas(k: Caches, rs: set<Node>) {
    forall r :: r in rs ==> Has(k, r)
  }

  ghost function Seen(cfg: Config, u: User, nd: Node): set<Node>
    requires WellFormed(cfg)
  {
    match nd
    case Vis(i) => VisEv(cfg, u, i).seen
    case TriN(s) => TriEv(cfg, u, s).seen
    case Sel(c) => SelEv(cfg, u, c).seen
  }

  /** The cached entry is what uncached evaluation would give. */
  ghost predicate Agrees(cfg: Config, u: User, k: Caches, nd: Node)
    requires WellFormed(cfg) && Has(k, nd)
  {
    match nd
    case Vis(i) => k.vis[i] == VisEv(cfg, u, i).v
    case TriN(s) => k.tri[s] == TriEv(cfg, u, s).v
    case Sel(c) => k.sel[c] == SelEv(cfg, u, c).v
  }

  /** A choice symbol without prompts is never visible, whatever it consults. */
  predicate Constant(cfg: Config, i: Item) {
    i.S? && cfg.sym(i.sym).choice.Some? && cfg.sym(i.sym).prompts == []
  }

  /** What an entry stands or falls with. */
  ghost function Needed(cfg: Config, u: User, nd: Node): set<Node>
    requires WellFormed(cfg)
  {
    if Constant(cfg, ItemOf(nd)) then set r | r in Seen(cfg, u, nd) && ItemOf(r) == ItemOf(nd) else Seen(cfg, u, nd)
  }

  /** Every cached entry is right, and everything it stands or falls with is cached too. */
  ghost predicate CacheOk(cfg: Config, u: User, k: Caches)
    requires WellFormed(cfg)
  {
    forall nd :: Has(k, nd) ==> Agrees(cfg, u, k, nd) && AllHas(k, Needed(cfg, u, nd))
  }

  /** Every cached entry is right. */
  ghost predicate AllRight(cfg: Config, u: User, k: Caches)
    requires WellFormed(cfg)
  {
    forall nd :: Has(k, nd) ==> Agrees(cfg, u, k, nd)
  }

  /** `k` is `k'` with some entries gone. */
  ghost predicate Within(k: Caches, k': Caches) {
    && (forall i :: i in k.vis ==> i in k'.vis && k.vis[i] == k'.vis[i])
    && (forall s :: s in k.tri ==> s in k'.tri && k.tri[s] == k'.tri[s])
    && (forall c :: c in k.sel ==> c in k'.sel && k.sel[c] == k'.sel[c])
  }

  /** Growing twice, and keeping what was there. */
  lemma Grow(k0: Caches, k1: Caches, k2: Caches, rs: set<Node>)
    requires Within(k0, k1) && Within(k1, k2) && AllHas(k1, rs)
    ensures Within(k0, k2) && AllHas(k2, rs)
  {
  }

  lemma HasBoth(k: Caches, rs: set<Node>, qs: set<Node>)
    ensures AllHas(k, rs) && AllHas(k, qs) ==> AllHas(k, rs + qs)
  {
  }

  lemma HasSimple(k: Caches, nd: Node)
    ensures Within(k, k) && AllHas(k, {}) && (Has(k, nd) ==> AllHas(k, {nd}))
  {
  }

  lemma SeenIsAllowed(cfg: Config, u: User, nd: Node)
    requires WellFormed(cfg)
    ensures AllMayRead(cfg, nd, Seen(cfg, u, nd))
  {
    match nd {
      case Vis(i) => VisReads(cfg, u, i);
      case TriN(s) => TriReads(cfg, u, s);
      case Sel(c) => SelReads(cfg, u, c);
    }
  }

  lemma NodeStable(cfg: Config, u: User, u': User, nd: Node)
    requires WellFormed(cfg) && SameUser(cfg, u, u', ItemOf(nd)) && AllSame(cfg, u, u', Needed(cfg, u, nd))
    ensures SameNode(cfg, u, u', nd) && Needed(cfg, u', nd) == Needed(cfg, u, nd)
  {
    if Constant(cfg, ItemOf(nd)) {
      ConstantStable(cfg, u, u', nd);
    } else {
      match nd {
        case Vis(i) => VisStable(cfg, u, u', i);
        case TriN(s) => TriStable(cfg, u, u', s);
        case Sel(c) => SelStable(cfg, u, u', c);
      }
    }
  }

  lemma ConstantStable(cfg: Config, u: User, u': User, nd: Node)
    requires WellFormed(cfg) && Constant(cfg, ItemOf(nd))
    ensures SameNode(cfg, u, u', nd) && Needed(cfg, u', nd) == Needed(cfg, u, nd)
  {
    var s := ItemOf(nd).sym;
    NoPromptInvisible(cfg, u, s);
    NoPromptInvisible(cfg, u', s);
    if nd.Vis? {
      OwnVisReads(cfg, u, s);
      OwnVisReads(cfg, u', s);
      assert Needed(cfg, u, nd) == {} && Needed(cfg, u', nd) == {};
    }
  }

  /** A visibility is computed from other items. */
  lemma OwnVisReads(cfg: Config, u: User, s: nat)
    requires WellFormed(cfg)
    ensures forall r :: r in Seen(cfg, u, Vis(S(s))) ==> ItemOf(r) != S(s)
  {
    assert RankedSym(cfg, s);
    VisReads(cfg, u, S(s));
    forall r | r in Seen(cfg, u, Vis(S(s)))
      ensures ItemOf(r) != S(s)
    {
      assert MayRead(cfg, Vis(S(s)), r);
    }
  }

  /** What survives the invalidation: entries of items the user's change does not touch,
      together with everything they stand or fall with. */
  ghost predicate Survives(cfg: Config, u: User, u': User, k: Caches)
    requires WellFormed(cfg)
  {
    forall nd :: Has(k, nd) ==> SameUser(cfg, u, u', ItemOf(nd)) && AllHas(k, Needed(cfg, u, nd))
  }

  lemma {:induction false} SurvivorStable(cfg: Config, u: User, u': User, k: Caches, nd: Node)
    requires WellFormed(cfg) && Survives(cfg, u, u', k) && Has(k, nd)
    ensures SameNode(cfg, u, u', nd) && Needed(cfg, u', nd) == Needed(cfg, u, nd)
    decreases cfg.rank(nd)
  {
    hide Seen, SameNode, WellFormed, SameUser;
    SeenIsAllowed(cfg, u, nd);
    forall r | r in Needed(cfg, u, nd)
      ensures SameNode(cfg, u, u', r)
    {
      assert MayRead(cfg, nd, r);
      SurvivorStable(cfg, u, u', k, r);
    }
    NodeStable(cfg, u, u', nd);
  }

  /** Surviving entries stay right under the new user values. */
  lemma SurvivorsOk(cfg: Config, u: User, u': User, k: Caches, k': Caches)
    requires WellFormed(cfg) && CacheOk(cfg, u, k) && Within(k', k) && Survives(cfg, u, u', k')
    ensures CacheOk(cfg, u', k')
  {
    hide WellFormed, Needed, SameUser, VisEv, TriEv, SelEv;
    forall nd | Has(k', nd)
      ensures Agrees(cfg, u', k', nd) && AllHas(k', Needed(cfg, u', nd))
    {
      SurvivorStable(cfg, u, u', k', nd);
      assert Has(k, nd) && Agrees(cfg, u, k, nd);
    }
  }

  // -------------------------------------------------------------- invalidation

  /** Nothing is cached for the item any more. */
  predicate Gone(k: Caches, i: Item) {
    && i !in k.vis
    && (i.S? ==> i.sym !in k.tri)
    && (i.C? ==> i.choice !in k.sel)
  }

  predicate AllGone(cfg: Config, k: Caches) {
    forall i :: i in cfg.items ==> Gone(k, i)
  }

  /** What a recursive invalidation of `x` leaves, the dependents in `todo` still to be
      visited: `x` is gone; every item that lost its visibility is gone and none of its
      dependents has one; losing MODULES empties everything. */
  ghost predicate Invalidating(cfg: Config, k: Caches, k': Caches, x: Item, todo: set<Item>) {
    && Within(k', k)
    && Gone(k', x)
    && (forall j :: j in k.vis && j !in k'.vis ==> Gone(k', j))
    && (forall d :: d in Dependents(cfg, x) && d !in todo ==> d !in k'.vis)
    && (forall j, d :: j != x && j in k.vis && j !in k'.vis && d in Dependents(cfg, j) ==> d !in k'.vis)
    && ((x == S(cfg.modules) || (S(cfg.modules) in k.vis && S(cfg.modules) !in k'.vis)) ==> AllGone(cfg, k'))
    && (forall r :: Has(k, r) && !Has(k', r) ==> Lost(cfg, k, k', x, ItemOf(r)))
  }

  ghost predicate Invalidated(cfg: Config, k: Caches, k': Caches, x: Item) {
    Invalidating(cfg, k, k', x, {})
  }

  /** Visiting a dependent that has something cached. */
  lemma InvalidateStep(cfg: Config, k: Caches, k1: Caches, k2: Caches, x: Item, todo: set<Item>, d: Item)
    requires Invalidating(cfg, k, k1, x, todo) && d in k1.vis && Invalidated(cfg, k1, k2, d)
    ensures Invalidating(cfg, k, k2, x, todo - {d})
  {
    hide Dependents;
    forall r | Has(k, r) && !Has(k2, r)
      ensures Lost(cfg, k, k2, x, ItemOf(r))
    {
      if Has(k1, r) {
        assert Lost(cfg, k1, k2, d, ItemOf(r));
      } else {
        assert Lost(cfg, k, k1, x, ItemOf(r));
      }
    }
  }

  /** An item loses entries only as a whole. */
  predicate Lost(cfg: Config, k: Caches, k': Caches, x: Item, j: Item) {
    j == x || (j in k.vis && j !in k'.vis) || (AllGone(cfg, k') && j in cfg.items)
  }

  // ------------------------------------------------------- how far it reaches

  /** With an item, every dependent that has a visibility cached. */
  ghost predicate Closed(cfg: Config, k: Caches, items: set<Item>) {
    forall j, d :: j in items && d in Dependents(cfg, j) && d in k.vis ==> d in items
  }

  /** Nothing is lost outside a closed set around `x`, unless MODULES is in it. */
  ghost predicate Contained(cfg: Config, k: Caches, k': Caches, x: Item) {
    forall items: set<Item> :: x in items && Closed(cfg, k, items) ==> LostWithin(cfg, k, k', items)
  }

  ghost predicate LostWithin(cfg: Config, k: Caches, k': Caches, items: set<Item>) {
    forall r :: Has(k, r) && !Has(k', r) ==> ItemOf(r) in items || (S(cfg.modules) in items && ItemOf(r) in cfg.items)
  }

  lemma ContainedStep(cfg: Config, k: Caches, k1: Caches, k2: Caches, x: Item, d: Item)
    requires Within(k1, k) && Contained(cfg, k, k1, x) && d in Dependents(cfg, x) && d in k1.vis && Contained(cfg, k1, k2, d)
    ensures Contained(cfg, k, k2, x)
  {
    hide Dependents;
    forall items: set<Item> | x in items && Closed(cfg, k, items)
      ensures LostWithin(cfg, k, k2, items)
    {
      assert Closed(cfg, k1, items) && d in items;
      assert LostWithin(cfg, k, k1, items) && LostWithin(cfg, k1, k2, items);
    }
  }

  /** The item is in every closed set around `x`, or MODULES is and the item is defined. */
  ghost predicate Reached(cfg: Config, k: Caches, x: Item, i: Item) {
    || (forall items: set<Item> :: x in items && Closed(cfg, k, items) ==> i in items)
    || (i in cfg.items && forall items: set<Item> :: x in items && Closed(cfg, k, items) ==> S(cfg.modules) in items)
  }

  /** An invalidation takes exactly the entries of what it reaches. */
  lemma LostIsReached(cfg: Config, k: Caches, k': Caches, x: Item, r: Node)
    requires Invalidated(cfg, k, k', x) && Contained(cfg, k, k', x) && Has(k, r)
    ensures !Has(k', r) <==> Reached(cfg, k, x, ItemOf(r))
  {
    if Reached(cfg, k, x, ItemOf(r)) {
      ReachedIsLost(cfg, k, k', x, r);
    }
    if !Has(k', r) {
      LostWasReached(cfg, k, k', x, ItemOf(r), r);
    }
  }

  lemma ReachedIsLost(cfg: Config, k: Caches, k': Caches, x: Item, r: Node)
    requires Invalidated(cfg, k, k', x) && Reached(cfg, k, x, ItemOf(r))
    ensures !Has(k', r)
  {
    hide Dependents;
    var items := (set j | j in k.vis && j !in k'.vis) + {x};
    assert Closed(cfg, k, items);
    assert ItemOf(r) in items || (S(cfg.modules) in items && ItemOf(r) in cfg.items);
    assert Gone(k', ItemOf(r));
  }

  lemma LostWasReached(cfg: Config, k: Caches, k': Caches, x: Item, i: Item, r: Node)
    requires Contained(cfg, k, k', x) && Has(k, r) && !Has(k', r) && i == ItemOf(r)
    ensures Reached(cfg, k, x, i)
  {
    hide Dependents;
    if i in cfg.items && !(forall items: set<Item> :: x in items && Closed(cfg, k, items) ==> S(cfg.modules) in items) {
      var some: set<Item> :| x in some && Closed(cfg, k, some) && S(cfg.modules) !in some;
      forall items: set<Item> | x in items && Closed(cfg, k, items)
        ensures i in items
      {
        assert Closed(cfg, k, items * some) && x in items * some;
        assert LostWithin(cfg, k, k', items * some);
      }
    } else if i !in cfg.items {
      forall items: set<Item> | x in items && Closed(cfg, k, items)
        ensures i in items
      {
        assert LostWithin(cfg, k, k', items);
      }
    }
  }

  ghost predicate Differs(cfg: Config, u: User, u': User, nd: Node)
    requires WellFormed(cfg)
  {
    match nd
    case Vis(i) => VisEv(cfg, u, i).v != VisEv(cfg, u', i).v
    case TriN(s) => TriEv(cfg, u, s).v != TriEv(cfg, u', s).v
    case Sel(c) => SelEv(cfg, u, c).v != SelEv(cfg, u', c).v
  }

  /** Whatever the configuration: after new user values and the invalidation of `x`, all that
      is cached is right if and only if every cached entry whose value changed was reached. */
  lemma RightIfReached(cfg: Config, u: User, u': User, k: Caches, k': Caches, x: Item)
    requires WellFormed(cfg) && AllRight(cfg, u, k) && Invalidated(cfg, k, k', x) && Contained(cfg, k, k', x)
    ensures AllRight(cfg, u', k') <==> forall nd :: Has(k, nd) && Differs(cfg, u, u', nd) ==> Reached(cfg, k, x, ItemOf(nd))
  {
    hide WellFormed, VisEv, TriEv, SelEv, Reached, Contained;
    forall nd | Has(k, nd)
      ensures !Has(k', nd) <==> Reached(cfg, k, x, ItemOf(nd))
      ensures Has(k', nd) ==> (Agrees(cfg, u', k', nd) <==> !Differs(cfg, u, u', nd))
    {
      LostIsReached(cfg, k, k', x, nd);
      assert Agrees(cfg, u, k, nd);
    }
    assert forall nd :: Has(k', nd) ==> Has(k, nd);
  }

  /** Every cached entry whose value changes is one the invalidation of `x`, if any, reaches. */
  ghost predicate AllReached(cfg: Config, u: User, u': User, k: Caches, x: Option<Item>)
    requires WellFormed(cfg)
  {
    forall nd :: Has(k, nd) && Differs(cfg, u, u', nd) ==> x.Some? && Reached(cfg, k, x.value, ItemOf(nd))
  }

  /** What an assignment that invalidates `x`, if anything, does to a cache. */
  ghost predicate Effect(cfg: Config, u: User, u': User, k: Caches, k': Caches, x: Option<Item>)
    requires WellFormed(cfg)
  {
    && (if x.Some? then Invalidated(cfg, k, k', x.value) && Contained(cfg, k, k', x.value) else k' == k)
    && (AllRight(cfg, u', k') <==> AllReached(cfg, u, u', k, x))
  }

  lemma EffectOf(cfg: Config, u: User, u': User, k: Caches, k': Caches, x: Option<Item>)
    requires WellFormed(cfg) && CacheOk(cfg, u, k)
    requires if x.Some? then Invalidated(cfg, k, k', x.value) && Contained(cfg, k, k', x.value) else k' == k
    ensures Effect(cfg, u, u', k, k', x)
  {
    hide WellFormed, VisEv, TriEv, SelEv, Reached, Contained, Invalidated, Needed;
    if x.Some? {
      RightIfReached(cfg, u, u', k, k', x.value);
    } else {
      forall nd | Has(k, nd)
        ensures Agrees(cfg, u', k, nd) <==> !Differs(cfg, u, u', nd)
      {
        assert Agrees(cfg, u, k, nd);
      }
    }
  }

  /** What assigning `v` to symbol `s` invalidates. */
  function Touched(cfg: Config, u: User, s: nat, v: Tri): Option<Item> {
    var d := cfg.sym(s);
    if !Accepts(d.kind, v) || (s in u.val && u.val[s] == v && d.choice.None?) then None
    else if d.choice.Some? && v == 2 then Some(C(d.choice.value))
    else if d.prompts != [] then Some(S(s))
    else None
  }

  // ------------------------------------------------------------ the early stop

  /** Entries of items with something other than a constant cached have the visibility
      cached: it doubles as the flag the invalidation looks at. */
  lemma VisibilityIsFlag(cfg: Config, u: User, k: Caches, nd: Node)
    requires WellFormed(cfg) && CacheOk(cfg, u, k) && Has(k, nd) && Seen(cfg, u, nd) != {}
    ensures ItemOf(nd) in k.vis
  {
    match nd {
      case Vis(i) =>
      case TriN(s) =>
        assert Vis(S(s)) in Seen(cfg, u, nd);
        assert Vis(S(s)) in Needed(cfg, u, nd);
        assert Has(k, Vis(S(s)));
      case Sel(c) =>
        assert Vis(C(c)) in ModeEv(cfg, u, c).seen;
        assert Vis(C(c)) in Seen(cfg, u, nd);
        assert Has(k, Vis(C(c)));
    }
  }

  /** The early stop is safe if all that is read is referred to: after invalidating `x`,
      whatever a surviving entry stands or falls with has survived as well. */
  lemma ReadsSurvive(cfg: Config, u: User, k: Caches, k': Caches, x: Item, nd: Node, r: Node)
    requires WellFormed(cfg) && Covered(cfg) && CacheOk(cfg, u, k) && Invalidated(cfg, k, k', x)
    requires Has(k', nd) && r in Needed(cfg, u, nd)
    ensures Has(k', r)
  {
    hide WellFormed, CacheOk, Covered;
    var i, j := ItemOf(nd), ItemOf(r);
    assert Has(k, nd);
    CachedReads(cfg, u, k, nd, r);
    VisibilityIsFlag(cfg, u, k, nd);
    SeenIsAllowed(cfg, u, nd);
    assert MayRead(cfg, nd, r);
    ImplicitIsMentioned(cfg, nd, r);
    MentionerIsDefined(cfg, i, j);
    assert Mentions(cfg, i, j) ==> i in Dependents(cfg, j);
    assert !Has(k', r) ==> Lost(cfg, k, k', x, j);
  }

  lemma ImplicitIsMentioned(cfg: Config, nd: Node, r: Node)
    requires Covered(cfg)
    ensures Implicit(cfg, nd, r) && !Constant(cfg, ItemOf(nd)) ==> Mentions(cfg, ItemOf(nd), ItemOf(r))
  {
    hide Mentions;
    if ItemOf(nd).S? {
      assert SymCovered(cfg, ItemOf(nd).sym);
    } else {
      assert ChoiceCovered(cfg, ItemOf(nd).choice);
    }
  }

  lemma CachedReads(cfg: Config, u: User, k: Caches, nd: Node, r: Node)
    requires WellFormed(cfg) && CacheOk(cfg, u, k) && Has(k, nd) && r in Needed(cfg, u, nd)
    ensures Has(k, r)
  {
  }

  lemma MentionerIsDefined(cfg: Config, i: Item, j: Item)
    requires WellFormed(cfg)
    ensures Mentions(cfg, i, j) ==> i in cfg.items
  {
  }

  function Without(u: User, items: set<Item>): User {
    User(map s | s in u.val && S(s) !in items :: u.val[s],
         map c | c in u.mode && C(c) !in items :: u.mode[c],
         map c | c in u.sel && C(c) !in items :: u.sel[c])
  }

  lemma UnsetOne(u: User, gone: set<Item>, i: Item)
    ensures var u', u'' := Without(u, gone), Without(u, gone + {i});
      match i case S(s) => AfterUnset(u', s) == u'' case C(c) => AfterUnsetMode(u', c) == u''
  {
    match i {
      case S(s) => assert Without(u, gone).val - {s} == Without(u, gone + {i}).val;
      case C(c) =>
        assert Without(u, gone).mode - {c} == Without(u, gone + {i}).mode;
        assert Without(u, gone).sel - {c} == Without(u, gone + {i}).sel;
    }
  }

  /** Only defined symbols and choices ever hold user values. */
  lemma AllUnset(cfg: Config, u: User)
    requires WellFormed(cfg) && UserOk(cfg, u)
    ensures Without(u, {}) == u && Without(u, cfg.items) == User(map[], map[], map[])
    ensures cfg.items - cfg.items == {}
  {
    hide RankedSym, RankedChoice;
    forall c | c in u.sel
      ensures C(c) in cfg.items
    {
      assert Mentions(cfg, C(c), S(u.sel[c]));
    }
    assert Without(u, {}).val == u.val && Without(u, {}).mode == u.mode && Without(u, {}).sel == u.sel;
    assert forall s :: s in u.val ==> S(s) in cfg.items;
    assert forall c :: c in u.mode ==> C(c) in cfg.items;
  }

  lemma AllInvalidated(cfg: Config, k: Caches, k': Caches, x: Item)
    requires x == S(cfg.modules) && x in cfg.items && Within(k', k) && AllGone(cfg, k')
    requires forall r :: ItemOf(r) !in cfg.items ==> (Has(k, r) <==> Has(k', r))
    ensures Invalidated(cfg, k, k', x) && Contained(cfg, k, k', x)
  {
    forall j | j in k.vis && j !in k'.vis
      ensures j in cfg.items
    {
      assert ItemOf(Vis(j)) == j && Has(k, Vis(j)) && !Has(k', Vis(j));
    }
  }

  lemma FirstInvalidated(cfg: Config, k: Caches, k': Caches, x: Item)
    requires x != S(cfg.modules) && Within(k', k) && Gone(k', x)
    requires forall r :: ItemOf(r) != x ==> (Has(k, r) <==> Has(k', r))
    ensures Invalidating(cfg, k, k', x, Dependents(cfg, x)) && Contained(cfg, k, k', x)
  {
    hide Dependents;
    forall j | j in k.vis && j !in k'.vis
      ensures j == x
    {
      assert ItemOf(Vis(j)) == j && Has(k, Vis(j)) && !Has(k', Vis(j));
    }
  }

  lemma InvalidatingWithin(cfg: Config, k: Caches, k': Caches, x: Item, todo: set<Item>)
    requires Invalidating(cfg, k, k', x, todo)
    ensures Within(k', k)
  {
  }

  /** A dependent with nothing cached is passed over. */
  lemma SkipStep(cfg: Config, k: Caches, k': Caches, x: Item, todo: set<Item>, d: Item)
    requires Invalidating(cfg, k, k', x, todo) && d !in k'.vis
    ensures Invalidating(cfg, k, k', x, todo - {d})
  {
    hide Dependents;
  }

  lemma Fewer(cfg: Config, k: Caches, k': Caches, x: Item, todo: set<Item>, d: Item)
    requires Invalidating(cfg, k, k', x, todo) && d in k'.vis
    ensures |k'.vis.Keys + {d}| < |k.vis.Keys + {x}|
  {
    hide Dependents;
    assert k'.vis.Keys + {d} == k'.vis.Keys;
    SmallerSet(k'.vis.Keys, k.vis.Keys + {x});
  }

  lemma SmallerSet<T>(a: set<T>, b: set<T>)
    requires a < b
    ensures |a| < |b|
    decreases a
  {
    if a != {} {
      var x :| x in a;
      SmallerSet(a - {x}, b - {x});
    } else {
      var y :| y in b;
    }
  }

  /** What is cached after `x` was invalidated is right for the new user values, if those
      differ at `x` only (as far as items with something left are concerned). */
  lemma Reassigned(cfg: Config, u: User, u': User, k: Caches, k': Caches, x: Item)
    requires WellFormed(cfg) && Covered(cfg) && CacheOk(cfg, u, k) && Invalidated(cfg, k, k', x)
    requires forall nd :: Has(k', nd) && ItemOf(nd) != x ==> SameUser(cfg, u, u', ItemOf(nd))
    ensures CacheOk(cfg, u', k')
  {
    hide WellFormed, CacheOk, Needed, SameUser, Covered;
    forall nd | Has(k', nd)
      ensures SameUser(cfg, u, u', ItemOf(nd)) && AllHas(k', Needed(cfg, u, nd))
    {
      forall r | r in Needed(cfg, u, nd)
        ensures Has(k', r)
      {
        ReadsSurvive(cfg, u, k, k', x, nd, r);
      }
    }
    SurvivorsOk(cfg, u, u', k, k');
  }

  lemma Untouched(cfg: Config, u: User, u': User, k: Caches)
    requires WellFormed(cfg) && CacheOk(cfg, u, k)
    requires forall i :: SameUser(cfg, u, u', i)
    ensures CacheOk(cfg, u', k)
  {
    hide WellFormed, SameUser, Needed;
    SurvivorsOk(cfg, u, u', k, k);
  }

  lemma StoredIsAccepted(cfg: Config, u: User, s: nat)
    requires UserOk(cfg, u) && s in u.val
    ensures Accepts(cfg.sym(s).kind, u.val[s])
  {
  }

  lemma SetKeepsForm(cfg: Config, u: User, s: nat, v: Tri)
    requires WellFormed(cfg) && UserOk(cfg, u)
    ensures UserOk(cfg, AfterSet(cfg, u, s, v)) && (Accepts(cfg.sym(s).kind, v) ==> S(s) in cfg.items)
  {
    hide RankedSym, RankedChoice;
    assert Listed(cfg, s);
  }

  lemma SetTouches(cfg: Config, u: User, s: nat, v: Tri)
    ensures var u' := u.(val := u.val[s := v]);
      forall i :: i != S(s) ==> SameUser(cfg, u, u', i)
  {
  }

  /** A choice symbol set to y depends on its choice, so invalidating the choice takes the
      symbol's own entries along, if it can have any that matter. */
  lemma SelectedAgain(cfg: Config, u: User, k: Caches, k': Caches, s: nat, c: nat)
    requires WellFormed(cfg) && Covered(cfg) && CacheOk(cfg, u, k) && Invalidated(cfg, k, k', C(c))
    requires cfg.sym(s).choice == Some(c) && cfg.sym(s).kind != Other
    ensures CacheOk(cfg, AfterSet(cfg, u, s, 2), k')
  {
    hide CacheOk, Needed, WellFormed, SameUser, AfterSet, Covered, Invalidated;
    SelectTouches(cfg, u, s, c);
    forall nd | Has(k', nd) && ItemOf(nd) != C(c)
      ensures SameUser(cfg, u, AfterSet(cfg, u, s, 2), ItemOf(nd))
    {
      if cfg.sym(s).prompts != [] {
        ChosenIsGone(cfg, u, k, k', s, c, nd);
      }
    }
    Reassigned(cfg, u, AfterSet(cfg, u, s, 2), k, k', C(c));
  }

  lemma SelectTouches(cfg: Config, u: User, s: nat, c: nat)
    requires cfg.sym(s).choice == Some(c) && cfg.sym(s).kind != Other
    ensures var u' := AfterSet(cfg, u, s, 2);
      forall i :: i != C(c) && (i != S(s) || cfg.sym(s).prompts == []) ==> SameUser(cfg, u, u', i)
  {
  }

  lemma ChosenIsGone(cfg: Config, u: User, k: Caches, k': Caches, s: nat, c: nat, nd: Node)
    requires WellFormed(cfg) && Covered(cfg) && CacheOk(cfg, u, k) && Invalidated(cfg, k, k', C(c)) && Has(k', nd)
    requires cfg.sym(s).choice == Some(c) && cfg.sym(s).kind != Other && cfg.sym(s).prompts != []
    ensures ItemOf(nd) != S(s)
  {
    hide CacheOk, Needed, RankedSym, RankedChoice, Mentions;
    assert SymCovered(cfg, s);
    MentionerIsDefined(cfg, S(s), C(c));
    assert S(s) in Dependents(cfg, C(c)) && S(s) !in k'.vis;
    if s in k'.tri {
      ReadsOwnVisibility(cfg, u, s);
      ReadsSurvive(cfg, u, k, k', C(c), TriN(s), Vis(S(s)));
    }
  }

  lemma ReadsOwnVisibility(cfg: Config, u: User, s: nat)
    requires WellFormed(cfg) && cfg.sym(s).kind != Other
    ensures Vis(S(s)) in Needed(cfg, u, TriN(s))
  {
  }

  lemma DependentDefined(cfg: Config, x: Item, d: Item)
    requires d in Dependents(cfg, x)
    ensures d in cfg.items
  {
  }

  lemma CachedIsRight(cfg: Config, u: User, k: Caches, nd: Node)
    requires WellFormed(cfg) && CacheOk(cfg, u, k) && Has(k, nd)
    ensures Agrees(cfg, u, k, nd)
  {
  }

  /** One entry more, or the same again. */
  predicate Added(k: Caches, k': Caches, nd: Node) {
    match nd
    case Vis(i) => i in k'.vis && k' == k.(vis := k.vis[i := k'.vis[i]])
    case TriN(s) => s in k'.tri && k' == k.(tri := k.tri[s := k'.tri[s]])
    case Sel(c) => c in k'.sel && k' == k.(sel := k.sel[c := k'.sel[c]])
  }

  /** Adding a right entry whose consulted nodes are all cached keeps the cache right. */
  lemma AddOk(cfg: Config, u: User, k: Caches, k': Caches, nd: Node)
    requires WellFormed(cfg) && CacheOk(cfg, u, k) && Added(k, k', nd) && Agrees(cfg, u, k', nd)
    requires AllHas(k, Seen(cfg, u, nd))
    ensures CacheOk(cfg, u, k') && Within(k, k')
  {
    hide WellFormed, Seen, VisEv, TriEv, SelEv;
    assert Has(k, nd) ==> Agrees(cfg, u, k, nd);
    assert Within(k, k');
    forall r | Has(k', r)
      ensures Agrees(cfg, u, k', r) && AllHas(k', Needed(cfg, u, r))
    {
      if r != nd {
        assert Has(k, r);
        assert Agrees(cfg, u, k, r) && AllHas(k, Needed(cfg, u, r));
      }
    }
  }
}
