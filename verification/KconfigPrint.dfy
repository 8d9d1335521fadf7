/** The expression printer, and what parsing its output gives back. */
module KconfigPrint {
  import opened Options
  import opened KconfigEval
  import opened KconfigParse

  /** Expressions over symbols: relations compare symbols, and no choice appears. */
  predicate Printable(e: Expr) {
    match e
    case Lit(_) => true
    case Ref(i) => i.S?
    case And(a, b) => Printable(a) && Printable(b)
    case Or(a, b) => Printable(a) && Printable(b)
    case Not(a) => Printable(a)
    case Cmp(_, a, b) => IsLeaf(a) && IsLeaf(b)
  }

  /** `expr_str`, as the tokens of its text. */
  function Tokens(e: Expr): seq<Token>
    requires Printable(e)
    decreases e, 0
  {
    match e
    case Lit(_) => [Name(e)]
    case Ref(_) => [Name(e)]
    case And(a, b) => Parenthesize(a, a.Or?) + [TAnd] + Parenthesize(b, b.Or?)
    case Or(a, b) => Parenthesize(a, a.And?) + [TOr] + Parenthesize(b, b.And?)
    case Not(a) => [TNot] + Parenthesize(a, !IsLeaf(a))
    case Cmp(rel, a, b) => [Name(a), TRel(rel), Name(b)]
  }

  function Parenthesize(e: Expr, yes: bool): seq<Token>
    requires Printable(e)
    decreases e, 1
  {
    if yes then [Open] + Tokens(e) + [Close] else Tokens(e)
  }

  /** A symbol, a relation, or a negated symbol. */
  predicate Simple(e: Expr) { IsLeaf(e) || e.Cmp? || (e.Not? && IsLeaf(e.a)) }

  predicate AndChain(e: Expr) { if e.And? then AndChain(e.a) && AndChain(e.b) else Simple(e) }
  predicate OrChain(e: Expr) { if e.Or? then OrChain(e.a) && OrChain(e.b) else Simple(e) }

  /** Parentheses are printed exactly where && and || meet and behind ! in front of anything but
      a symbol: expressions that are one chain of simple operands have none, all others have. */
  lemma {:induction false} NoParentheses(e: Expr)
    requires Printable(e)
    ensures Open !in Tokens(e) && !e.Or? <==> AndChain(e)
    ensures Open !in Tokens(e) && !e.And? <==> OrChain(e)
    ensures Open !in Tokens(e) <==> AndChain(e) || OrChain(e)
  {
    match e {
      case Lit(_) =>
      case Ref(_) =>
      case And(a, b) => NoParentheses(a); NoParentheses(b);
      case Or(a, b) => NoParentheses(a); NoParentheses(b);
      case Not(a) => NoParentheses(a);
      case Cmp(_, a, b) =>
    }
  }

  // -------------------------------------------------------------- normal form

  function FoldAnd(es: seq<Expr>): Expr {
    if es == [] then Lit(2) else if |es| == 1 then es[0] else And(es[0], FoldAnd(es[1..]))
  }

  function FoldOr(es: seq<Expr>): Expr {
    if es == [] then Lit(0) else if |es| == 1 then es[0] else Or(es[0], FoldOr(es[1..]))
  }

  /** The operands of a chain of && (or of ||), each in normal form. */
  function AndList(e: Expr): (es: seq<Expr>)
    ensures es != []
    decreases e, if e.And? then 0 else 2
  {
    if e.And? then AndList(e.a) + AndList(e.b) else [Norm(e)]
  }

  function OrList(e: Expr): (es: seq<Expr>)
    ensures es != []
    decreases e, if e.Or? then 0 else 2
  {
    if e.Or? then OrList(e.a) + OrList(e.b) else [Norm(e)]
  }

  /** Chains re-associated to the right. */
  function Norm(e: Expr): Expr
    decreases e, 1
  {
    match e
    case And(_, _) => FoldAnd(AndList(e))
    case Or(_, _) => FoldOr(OrList(e))
    case Not(a) => Not(Norm(a))
    case _ => e
  }

  /** A plain m rewritten to m && MODULES, as conditions are read. */
  function Rewritten(e: Expr, mod: Option<nat>): Expr {
    match e
    case And(a, b) => And(Rewritten(a, mod), Rewritten(b, mod))
    case Or(a, b) => Or(Rewritten(a, mod), Rewritten(b, mod))
    case Not(a) => Not(Rewritten(a, mod))
    case Lit(_) => PlainSymbol(e, mod)
    case _ => e
  }

  // ------------------------------------------------ the tree behind the output

  function AppendE(x: ExprT, y: ExprT): ExprT {
    match x case OneE(a) => OrE(a, y) case OrE(a, rest) => OrE(a, AppendE(rest, y))
  }

  function AppendA(x: AndT, y: AndT): AndT {
    match x case OneA(f) => AndA(f, y) case AndA(f, rest) => AndA(f, AppendA(rest, y))
  }

  function TreeE(e: Expr): ExprT
    requires Printable(e)
    decreases e, if e.Or? then 0 else 3
  {
    if e.Or? then AppendE(Side(e.a), Side(e.b)) else OneE(TreeA(e))
  }

  /** An operand of ||. */
  function Side(e: Expr): ExprT
    requires Printable(e)
    decreases e, 4
  {
    if e.And? then OneE(OneA(ParenF(TreeE(e)))) else TreeE(e)
  }

  function TreeA(e: Expr): AndT
    requires Printable(e)
    decreases e, 2
  {
    if e.And? then AppendA(TreeA(e.a), TreeA(e.b))
    else if e.Or? then OneA(ParenF(TreeE(e)))
    else OneA(TreeF(e))
  }

  function TreeF(e: Expr): FactT
    requires Printable(e) && !e.And? && !e.Or?
    decreases e, 1
  {
    match e
    case Not(a) => NotF(if IsLeaf(a) then Plain(a) else ParenF(TreeE(a)))
    case Cmp(rel, a, b) => RelF(a, rel, b)
    case Lit(_) => Plain(e)
    case Ref(_) => Plain(e)
  }

  lemma {:induction false} AppendYieldsE(x: ExprT, y: ExprT)
    ensures YieldE(AppendE(x, y)) == YieldE(x) + [TOr] + YieldE(y)
  {
    if x.OrE? {
      AppendYieldsE(x.rest, y);
      assert YieldA(x.a) + [TOr] + (YieldE(x.rest) + [TOr] + YieldE(y)) == YieldE(x) + [TOr] + YieldE(y);
    }
  }

  lemma {:induction false} AppendYieldsA(x: AndT, y: AndT)
    ensures YieldA(AppendA(x, y)) == YieldA(x) + [TAnd] + YieldA(y)
  {
    if x.AndA? {
      AppendYieldsA(x.rest, y);
      assert YieldF(x.f) + [TAnd] + (YieldA(x.rest) + [TAnd] + YieldA(y)) == YieldA(x) + [TAnd] + YieldA(y);
    }
  }

  lemma Single(f: FactT)
    ensures YieldE(OneE(OneA(f))) == YieldF(f)
  {
  }

  lemma SingleDenotes(f: FactT, mod: Option<nat>)
    ensures DenoteE(OneE(OneA(f)), mod) == DenoteF(f, mod)
    ensures OperandsE(OneE(OneA(f)), mod) == OperandsA(OneA(f), mod) == [DenoteF(f, mod)]
  {
  }

  lemma ParenDenotes(t: ExprT, mod: Option<nat>)
    ensures DenoteF(ParenF(t), mod) == DenoteE(t, mod)
  {
  }

  /** The tree yields the printed tokens. */
  lemma {:induction false} TreeYields(e: Expr)
    requires Printable(e)
    ensures YieldE(TreeE(e)) == Tokens(e)
    ensures YieldE(Side(e)) == Parenthesize(e, e.And?)
    ensures YieldA(TreeA(e)) == Parenthesize(e, e.Or?)
    decreases e
  {
    match e {
      case And(a, b) =>
        TreeYields(a);
        TreeYields(b);
        AppendYieldsA(TreeA(a), TreeA(b));
        Single(ParenF(TreeE(e)));
      case Or(a, b) =>
        TreeYields(a);
        TreeYields(b);
        AppendYieldsE(Side(a), Side(b));
      case Not(a) =>
        TreeYields(a);
        Single(TreeF(e));
      case _ =>
        Single(TreeF(e));
    }
  }

  // ------------------------------------------------- what the tree denotes

  function OperandsE(t: ExprT, mod: Option<nat>): seq<Expr> {
    match t case OneE(a) => [DenoteA(a, mod)] case OrE(a, rest) => [DenoteA(a, mod)] + OperandsE(rest, mod)
  }

  function OperandsA(t: AndT, mod: Option<nat>): seq<Expr> {
    match t case OneA(f) => [DenoteF(f, mod)] case AndA(f, rest) => [DenoteF(f, mod)] + OperandsA(rest, mod)
  }

  lemma {:induction false} DenoteFoldsE(t: ExprT, mod: Option<nat>)
    ensures OperandsE(t, mod) != [] && DenoteE(t, mod) == FoldOr(OperandsE(t, mod))
  {
    if t.OrE? {
      DenoteFoldsE(t.rest, mod);
      assert OperandsE(t, mod)[1..] == OperandsE(t.rest, mod);
    }
  }

  lemma {:induction false} DenoteFoldsA(t: AndT, mod: Option<nat>)
    ensures OperandsA(t, mod) != [] && DenoteA(t, mod) == FoldAnd(OperandsA(t, mod))
  {
    if t.AndA? {
      DenoteFoldsA(t.rest, mod);
      assert OperandsA(t, mod)[1..] == OperandsA(t.rest, mod);
    }
  }

  lemma {:induction false} AppendOperandsE(x: ExprT, y: ExprT, mod: Option<nat>)
    ensures OperandsE(AppendE(x, y), mod) == OperandsE(x, mod) + OperandsE(y, mod)
  {
    if x.OrE? {
      AppendOperandsE(x.rest, y, mod);
    }
  }

  lemma {:induction false} AppendOperandsA(x: AndT, y: AndT, mod: Option<nat>)
    ensures OperandsA(AppendA(x, y), mod) == OperandsA(x, mod) + OperandsA(y, mod)
  {
    if x.AndA? {
      AppendOperandsA(x.rest, y, mod);
    }
  }

  function RewrittenAll(es: seq<Expr>, mod: Option<nat>): seq<Expr> {
    seq(|es|, i requires 0 <= i < |es| => Rewritten(es[i], mod))
  }

  lemma RewrittenConcat(xs: seq<Expr>, ys: seq<Expr>, mod: Option<nat>)
    ensures RewrittenAll(xs + ys, mod) == RewrittenAll(xs, mod) + RewrittenAll(ys, mod)
  {
  }

  lemma {:induction false} RewrittenFolds(es: seq<Expr>, mod: Option<nat>)
    requires es != []
    ensures Rewritten(FoldAnd(es), mod) == FoldAnd(RewrittenAll(es, mod))
    ensures Rewritten(FoldOr(es), mod) == FoldOr(RewrittenAll(es, mod))
  {
    if |es| > 1 {
      RewrittenFolds(es[1..], mod);
      assert RewrittenAll(es, mod)[1..] == RewrittenAll(es[1..], mod);
    }
  }

  lemma NotDenotes(a: Expr, mod: Option<nat>)
    requires Printable(a) && DenoteE(TreeE(a), mod) == Rewritten(Norm(a), mod)
    ensures DenoteF(TreeF(Not(a)), mod) == Rewritten(Norm(Not(a)), mod)
  {
    if IsLeaf(a) {
      assert DenoteF(Plain(a), mod) == Rewritten(a, mod);
    } else {
      ParenDenotes(TreeE(a), mod);
    }
  }

  lemma {:induction false} TreeDenotes(e: Expr, mod: Option<nat>)
    requires Printable(e)
    ensures DenoteE(TreeE(e), mod) == Rewritten(Norm(e), mod)
    ensures OperandsE(Side(e), mod) == RewrittenAll(OrList(e), mod)
    ensures OperandsA(TreeA(e), mod) == RewrittenAll(AndList(e), mod)
    decreases e
  {
    match e {
      case And(a, b) =>
        TreeDenotes(a, mod);
        TreeDenotes(b, mod);
        SingleDenotes(ParenF(TreeE(e)), mod);
        ParenDenotes(TreeE(e), mod);
        AppendOperandsA(TreeA(a), TreeA(b), mod);
        RewrittenConcat(AndList(a), AndList(b), mod);
        DenoteFoldsA(TreeA(e), mod);
        RewrittenFolds(AndList(e), mod);
      case Or(a, b) =>
        TreeDenotes(a, mod);
        TreeDenotes(b, mod);
        SingleDenotes(ParenF(TreeE(e)), mod);
        ParenDenotes(TreeE(e), mod);
        AppendOperandsE(Side(a), Side(b), mod);
        RewrittenConcat(OrList(a), OrList(b), mod);
        DenoteFoldsE(TreeE(e), mod);
        RewrittenFolds(OrList(e), mod);
      case Not(a) =>
        TreeDenotes(a, mod);
        ParenDenotes(TreeE(a), mod);
        NotDenotes(a, mod);
        SingleDenotes(TreeF(e), mod);
      case _ =>
        SingleDenotes(TreeF(e), mod);
    }
  }

  // ------------------------------------------------------------ the round trip

  /** Parsing what was printed gives the expression back, chains re-associated, with m
      rewritten exactly where the parser is asked to. */
  lemma RoundTrip(e: Expr, mod: Option<nat>)
    requires Printable(e)
    ensures ParseLine(Tokens(e) + [End], mod) == Some(Rewritten(Norm(e), mod))
  {
    TreeYields(e);
    TreeDenotes(e, mod);
    CompleteE(TreeE(e), mod, [End]);
  }

  lemma {:induction false} RewrittenNone(e: Expr)
    ensures Rewritten(e, None) == e
  {
    match e {
      case And(a, b) => RewrittenNone(a); RewrittenNone(b);
      case Or(a, b) => RewrittenNone(a); RewrittenNone(b);
      case Not(a) => RewrittenNone(a);
      case _ =>
    }
  }

  // ------------------------------------------------------- one pass is enough

  predicate Settled(e: Expr) { Norm(e) == e && Printable(e) }

  lemma {:induction false} ListOfFold(es: seq<Expr>)
    requires es != [] && forall i :: 0 <= i < |es| ==> Settled(es[i])
    ensures (forall i :: 0 <= i < |es| ==> !es[i].And?) ==> AndList(FoldAnd(es)) == es && Printable(FoldAnd(es))
    ensures (forall i :: 0 <= i < |es| ==> !es[i].Or?) ==> OrList(FoldOr(es)) == es && Printable(FoldOr(es))
  {
    if |es| > 1 {
      ListOfFold(es[1..]);
      assert es == [es[0]] + es[1..];
    }
  }

  /** A normal form is its own normal form, so after one pass printing and parsing are
      inverse to each other. */
  lemma {:induction false} NormIsNormal(e: Expr)
    requires Printable(e)
    ensures Settled(Norm(e))
    ensures forall i :: 0 <= i < |AndList(e)| ==> Settled(AndList(e)[i]) && !AndList(e)[i].And?
    ensures forall i :: 0 <= i < |OrList(e)| ==> Settled(OrList(e)[i]) && !OrList(e)[i].Or?
    decreases e
  {
    match e {
      case And(a, b) =>
        NormIsNormal(a);
        NormIsNormal(b);
        ListOfFold(AndList(e));
      case Or(a, b) =>
        NormIsNormal(a);
        NormIsNormal(b);
        ListOfFold(OrList(e));
      case Not(a) =>
        NormIsNormal(a);
      case _ =>
    }
  }

  lemma SecondPassIsExact(e: Expr)
    requires Printable(e)
    ensures Printable(Norm(e)) && ParseLine(Tokens(Norm(e)) + [End], None) == Some(Norm(e))
  {
    NormIsNormal(e);
    RoundTrip(Norm(e), None);
    RewrittenNone(Norm(e));
  }

  // ------------------------------------------------------------- same meaning

  ghost predicate Same(cfg: Config, u: User, e: Expr, e': Expr)
    requires WellFormed(cfg)
  {
    ExprEv(cfg, u, e) == ExprEv(cfg, u, e')
  }

  lemma Associative(cfg: Config, u: User, a: Expr, b: Expr, c: Expr)
    requires WellFormed(cfg)
    ensures Same(cfg, u, And(a, And(b, c)), And(And(a, b), c))
    ensures Same(cfg, u, Or(a, Or(b, c)), Or(Or(a, b), c))
  {
    hide WellFormed;
    var x, y, z := ExprEv(cfg, u, a).seen, ExprEv(cfg, u, b).seen, ExprEv(cfg, u, c).seen;
    assert x + (y + z) == (x + y) + z;
    var p, q, r, t := ExprEv(cfg, u, And(b, c)), ExprEv(cfg, u, And(a, b)), ExprEv(cfg, u, Or(b, c)), ExprEv(cfg, u, Or(a, b));
  }

  lemma {:induction false} FoldAndSplits(cfg: Config, u: User, xs: seq<Expr>, ys: seq<Expr>)
    requires WellFormed(cfg) && xs != [] && ys != []
    ensures Same(cfg, u, FoldAnd(xs + ys), And(FoldAnd(xs), FoldAnd(ys)))
    decreases |xs|
  {
    hide WellFormed;
    assert (xs + ys)[1..] == xs[1..] + ys;
    if |xs| > 1 {
      FoldAndSplits(cfg, u, xs[1..], ys);
      Associative(cfg, u, xs[0], FoldAnd(xs[1..]), FoldAnd(ys));
    }
  }

  lemma {:induction false} FoldOrSplits(cfg: Config, u: User, xs: seq<Expr>, ys: seq<Expr>)
    requires WellFormed(cfg) && xs != [] && ys != []
    ensures Same(cfg, u, FoldOr(xs + ys), Or(FoldOr(xs), FoldOr(ys)))
    decreases |xs|
  {
    hide WellFormed;
    assert (xs + ys)[1..] == xs[1..] + ys;
    if |xs| > 1 {
      FoldOrSplits(cfg, u, xs[1..], ys);
      Associative(cfg, u, xs[0], FoldOr(xs[1..]), FoldOr(ys));
    }
  }

  /** Re-association changes neither the value, whatever the symbols' values, nor even what
      short-circuiting evaluation consults. */
  lemma {:induction false} NormMeansTheSame(cfg: Config, u: User, e: Expr)
    requires WellFormed(cfg)
    ensures Same(cfg, u, Norm(e), e)
    ensures Same(cfg, u, FoldAnd(AndList(e)), e) && Same(cfg, u, FoldOr(OrList(e)), e)
    decreases e
  {
    hide WellFormed;
    match e {
      case And(a, b) =>
        NormMeansTheSame(cfg, u, a);
        NormMeansTheSame(cfg, u, b);
        FoldAndSplits(cfg, u, AndList(a), AndList(b));
      case Or(a, b) =>
        NormMeansTheSame(cfg, u, a);
        NormMeansTheSame(cfg, u, b);
        FoldOrSplits(cfg, u, OrList(a), OrList(b));
      case Not(a) =>
        NormMeansTheSame(cfg, u, a);
      case _ =>
    }
  }

  /** Printing and parsing back preserves the value under every assignment. */
  lemma PrintThenParseMeansTheSame(cfg: Config, u: User, e: Expr)
    requires WellFormed(cfg) && Printable(e)
    ensures ParseLine(Tokens(e) + [End], None).Some?
    ensures ExprEv(cfg, u, ParseLine(Tokens(e) + [End], None).value) == ExprEv(cfg, u, e)
  {
    hide WellFormed;
    RoundTrip(e, None);
    RewrittenNone(Norm(e));
    NormMeansTheSame(cfg, u, e);
  }
}
