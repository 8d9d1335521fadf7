/** The recursive-descent expression parser, against its grammar given as concrete syntax
    trees: the parser accepts exactly what some tree yields, and returns what the tree
    denotes. */
module KconfigParse {
  import opened Options
  import opened KconfigEval

  predicate IsLeaf(e: Expr) { e.Lit? || (e.Ref? && e.item.S?) }

  /** A symbol; n, m and y are constant symbols. */
  type Leaf = e: Expr | IsLeaf(e) witness Lit(0)

  datatype Token = Name(leaf: Leaf) | TRel(rel: Rel) | TNot | TAnd | TOr | Open | Close | End

  // ------------------------------------------------------------------- grammar

  datatype ExprT = OneE(a: AndT) | OrE(a: AndT, rest: ExprT)
  datatype AndT = OneA(f: FactT) | AndA(f: FactT, rest: AndT)
  datatype FactT = Plain(l: Leaf) | RelF(l: Leaf, rel: Rel, r: Leaf) | NotF(f: FactT) | ParenF(e: ExprT)

  function YieldE(t: ExprT): seq<Token> {
    match t case OneE(a) => YieldA(a) case OrE(a, rest) => YieldA(a) + [TOr] + YieldE(rest)
  }

  function YieldA(t: AndT): seq<Token> {
    match t case OneA(f) => YieldF(f) case AndA(f, rest) => YieldF(f) + [TAnd] + YieldA(rest)
  }

  function YieldF(t: FactT): seq<Token> {
    match t
    case Plain(l) => [Name(l)]
    case RelF(l, rel, r) => [Name(l), TRel(rel), Name(r)]
    case NotF(f) => [TNot] + YieldF(f)
    case ParenF(e) => [Open] + YieldE(e) + [Close]
  }

  /** What a tree denotes.  With `mod` given, a plain m means m && MODULES. */
  function DenoteE(t: ExprT, mod: Option<nat>): Expr {
    match t case OneE(a) => DenoteA(a, mod) case OrE(a, rest) => Or(DenoteA(a, mod), DenoteE(rest, mod))
  }

  function DenoteA(t: AndT, mod: Option<nat>): Expr {
    match t case OneA(f) => DenoteF(f, mod) case AndA(f, rest) => And(DenoteF(f, mod), DenoteA(rest, mod))
  }

  function DenoteF(t: FactT, mod: Option<nat>): Expr {
    match t
    case Plain(l) => PlainSymbol(l, mod)
    case RelF(l, rel, r) => Cmp(rel, l, r)
    case NotF(f) => Not(DenoteF(f, mod))
    case ParenF(e) => DenoteE(e, mod)
  }

  function PlainSymbol(l: Leaf, mod: Option<nat>): Expr {
    if mod.Some? && l == Lit(1) then And(Lit(1), Ref(S(mod.value))) else l
  }

  /** What a tree is worth as it is written: && the lesser, || the greater, ! the complement,
      and a plain m no more than MODULES is. */
  function WorthE(t: ExprT, modules: Option<nat>, v: Item -> Tri): Tri {
    match t case OneE(a) => WorthA(a, modules, v) case OrE(a, rest) => Max(WorthA(a, modules, v), WorthE(rest, modules, v))
  }

  function WorthA(t: AndT, modules: Option<nat>, v: Item -> Tri): Tri {
    match t case OneA(f) => WorthF(f, modules, v) case AndA(f, rest) => Min(WorthF(f, modules, v), WorthA(rest, modules, v))
  }

  function WorthF(t: FactT, modules: Option<nat>, v: Item -> Tri): Tri {
    match t
    case Plain(l) =>
      if l.Ref? then v(l.item)
      else if l.v == 1 && modules.Some? then (if v(S(modules.value)) == 0 then 0 else 1)
      else l.v
    case RelF(l, rel, r) => Value(Cmp(rel, l, r), v)
    case NotF(f) => 2 - WorthF(f, modules, v)
    case ParenF(e) => WorthE(e, modules, v)
  }

  /** What a tree denotes evaluates to that, under every assignment. */
  lemma {:induction false} DenotesItsWorth(t: ExprT, modules: Option<nat>, v: Item -> Tri)
    ensures Value(DenoteE(t, modules), v) == WorthE(t, modules, v)
    decreases t
  {
    AndIsWorth(t.a, modules, v);
    if t.OrE? {
      DenotesItsWorth(t.rest, modules, v);
    }
  }

  lemma {:induction false} AndIsWorth(t: AndT, modules: Option<nat>, v: Item -> Tri)
    ensures Value(DenoteA(t, modules), v) == WorthA(t, modules, v)
    decreases t
  {
    FactIsWorth(t.f, modules, v);
    if t.AndA? {
      AndIsWorth(t.rest, modules, v);
    }
  }

  lemma {:induction false} FactIsWorth(t: FactT, modules: Option<nat>, v: Item -> Tri)
    ensures Value(DenoteF(t, modules), v) == WorthF(t, modules, v)
    decreases t
  {
    match t {
      case Plain(l) =>
      case RelF(l, rel, r) =>
      case NotF(f) => FactIsWorth(f, modules, v);
      case ParenF(e) => DenotesItsWorth(e, modules, v);
    }
  }

  // -------------------------------------------------------------------- parser

  datatype Parsed = Malformed | Parsed(e: Expr, rest: seq<Token>)

  /** `_parse_expr`, from the token `ts` starts with. */
  function ParseE(ts: seq<Token>, mod: Option<nat>): (r: Parsed)
    ensures r.Parsed? ==> |r.rest| < |ts|
    decreases |ts|, 2
  {
    var a := ParseA(ts, mod);
    if a.Malformed? || a.rest == [] || a.rest[0] != TOr then a
    else
      var b := ParseE(a.rest[1..], mod);
      if b.Malformed? then Malformed else Parsed(Or(a.e, b.e), b.rest)
  }

  /** `_parse_and_expr`. */
  function ParseA(ts: seq<Token>, mod: Option<nat>): (r: Parsed)
    ensures r.Parsed? ==> |r.rest| < |ts|
    decreases |ts|, 1
  {
    var a := ParseF(ts, mod);
    if a.Malformed? || a.rest == [] || a.rest[0] != TAnd then a
    else
      var b := ParseA(a.rest[1..], mod);
      if b.Malformed? then Malformed else Parsed(And(a.e, b.e), b.rest)
  }

  /** `_parse_factor`. */
  function ParseF(ts: seq<Token>, mod: Option<nat>): (r: Parsed)
    ensures r.Parsed? ==> |r.rest| < |ts|
    decreases |ts|, 0
  {
    if ts == [] then Malformed
    else
      match ts[0]
      case Name(l) =>
        if |ts| == 1 || !ts[1].TRel? then Parsed(PlainSymbol(l, mod), ts[1..])
        else if |ts| == 2 || !ts[2].Name? then Malformed
        else Parsed(Cmp(ts[1].rel, l, ts[2].leaf), ts[3..])
      case TNot =>
        var f := ParseF(ts[1..], mod);
        if f.Malformed? then Malformed else Parsed(Not(f.e), f.rest)
      case Open =>
        var e := ParseE(ts[1..], mod);
        if e.Malformed? || e.rest == [] || e.rest[0] != Close then Malformed else Parsed(e.e, e.rest[1..])
      case _ => Malformed
  }

  // ------------------------------------------------------------------ complete

  predicate Follows(t: Token) { t.Close? || t.End? }

  lemma {:induction false} CompleteE(t: ExprT, mod: Option<nat>, rest: seq<Token>)
    requires rest != [] && Follows(rest[0])
    ensures ParseE(YieldE(t) + rest, mod) == Parsed(DenoteE(t, mod), rest)
    decreases t
  {
    hide YieldA, YieldF, DenoteA, DenoteF, ParseA, ParseF;
    match t {
      case OneE(a) =>
        CompleteA(a, mod, rest);
      case OrE(a, more) =>
        var tail := [TOr] + YieldE(more) + rest;
        assert YieldE(t) + rest == YieldA(a) + tail;
        CompleteA(a, mod, tail);
        assert tail[1..] == YieldE(more) + rest;
        CompleteE(more, mod, rest);
    }
  }

  lemma {:induction false} CompleteA(t: AndT, mod: Option<nat>, rest: seq<Token>)
    requires rest != [] && (Follows(rest[0]) || rest[0] == TOr)
    ensures ParseA(YieldA(t) + rest, mod) == Parsed(DenoteA(t, mod), rest)
    decreases t
  {
    hide YieldE, YieldF, DenoteE, DenoteF, ParseE, ParseF;
    match t {
      case OneA(f) =>
        CompleteF(f, mod, rest);
      case AndA(f, more) =>
        var tail := [TAnd] + YieldA(more) + rest;
        assert YieldA(t) + rest == YieldF(f) + tail;
        CompleteF(f, mod, tail);
        assert tail[1..] == YieldA(more) + rest;
        CompleteA(more, mod, rest);
    }
  }

  lemma {:induction false} CompleteF(t: FactT, mod: Option<nat>, rest: seq<Token>)
    requires rest != [] && !rest[0].TRel?
    ensures ParseF(YieldF(t) + rest, mod) == Parsed(DenoteF(t, mod), rest)
    decreases t
  {
    hide YieldE, YieldA, DenoteE, DenoteA, ParseE, ParseA;
    var ts := YieldF(t) + rest;
    match t {
      case Plain(l) =>
        assert ts[1..] == rest;
      case RelF(l, rel, r) =>
        assert ts[3..] == rest;
      case NotF(f) =>
        assert ts == [TNot] + (YieldF(f) + rest);
        assert ts[1..] == YieldF(f) + rest;
        CompleteF(f, mod, rest);
      case ParenF(e) =>
        var tail := [Close] + rest;
        assert ts == [Open] + (YieldE(e) + tail);
        assert ts[1..] == YieldE(e) + tail;
        CompleteE(e, mod, tail);
        assert tail[1..] == rest;
    }
  }

  // --------------------------------------------------------------------- sound

  lemma {:induction false} SoundE(ts: seq<Token>, mod: Option<nat>) returns (t: ExprT)
    requires ParseE(ts, mod).Parsed?
    ensures ts == YieldE(t) + ParseE(ts, mod).rest && DenoteE(t, mod) == ParseE(ts, mod).e
    decreases |ts|, 2
  {
    hide YieldA, YieldF, DenoteA, DenoteF, ParseA, ParseF;
    var a := ParseA(ts, mod);
    var ta := SoundA(ts, mod);
    t := OneE(ta);
    if a.rest != [] && a.rest[0] == TOr {
      var tb := SoundE(a.rest[1..], mod);
      t := OrE(ta, tb);
      assert a.rest == [TOr] + a.rest[1..];
    }
  }

  lemma {:induction false} SoundA(ts: seq<Token>, mod: Option<nat>) returns (t: AndT)
    requires ParseA(ts, mod).Parsed?
    ensures ts == YieldA(t) + ParseA(ts, mod).rest && DenoteA(t, mod) == ParseA(ts, mod).e
    decreases |ts|, 1
  {
    hide YieldE, YieldF, DenoteE, DenoteF, ParseE, ParseF;
    var a := ParseF(ts, mod);
    var ta := SoundF(ts, mod);
    t := OneA(ta);
    if a.rest != [] && a.rest[0] == TAnd {
      var tb := SoundA(a.rest[1..], mod);
      t := AndA(ta, tb);
      assert a.rest == [TAnd] + a.rest[1..];
    }
  }

  lemma {:induction false} SoundF(ts: seq<Token>, mod: Option<nat>) returns (t: FactT)
    requires ParseF(ts, mod).Parsed?
    ensures ts == YieldF(t) + ParseF(ts, mod).rest && DenoteF(t, mod) == ParseF(ts, mod).e
    decreases |ts|, 0
  {
    hide YieldE, YieldA, DenoteE, DenoteA, ParseE, ParseA;
    match ts[0] {
      case Name(l) =>
        t := SoundName(ts, mod);
      case TNot =>
        hide PlainSymbol;
        var f := SoundF(ts[1..], mod);
        t := NotF(f);
        assert ts == [TNot] + ts[1..];
      case Open =>
        hide PlainSymbol;
        var e := SoundE(ts[1..], mod);
        t := ParenF(e);
        var after := ParseE(ts[1..], mod).rest;
        Enclosed(ts, YieldE(e), after);
    }
  }

  lemma Enclosed(ts: seq<Token>, inner: seq<Token>, after: seq<Token>)
    requires ts != [] && ts[0] == Open && ts[1..] == inner + after && after != [] && after[0] == Close
    ensures ts == [Open] + inner + [Close] + after[1..]
  {
    assert ts == [Open] + ts[1..];
    assert after == [Close] + after[1..];
  }

  lemma SoundName(ts: seq<Token>, mod: Option<nat>) returns (t: FactT)
    requires ts != [] && ts[0].Name? && ParseF(ts, mod).Parsed?
    ensures ts == YieldF(t) + ParseF(ts, mod).rest && DenoteF(t, mod) == ParseF(ts, mod).e
  {
    hide YieldE, YieldA, DenoteE, DenoteA, ParseE, ParseA;
    var l := ts[0].leaf;
    if |ts| == 1 || !ts[1].TRel? {
      t := Plain(l);
      assert ts == [ts[0]] + ts[1..];
    } else {
      t := RelF(l, ts[1].rel, ts[2].leaf);
      assert ts == [ts[0], ts[1], ts[2]] + ts[3..];
    }
  }

  // --------------------------------------------------------------- whole lines

  /** `_expect_expr_and_eol`: the expression must take up the rest of the line. */
  function ParseLine(ts: seq<Token>, mod: Option<nat>): Option<Expr> {
    var r := ParseE(ts, mod);
    if r.Parsed? && r.rest != [] && r.rest[0] == End then Some(r.e) else None
  }

  /** A line is accepted if and only if a tree yields it, as what that tree denotes. */
  lemma ParsesTheGrammar(ts: seq<Token>, mod: Option<nat>, e: Expr)
    requires End !in ts
    ensures ParseLine(ts + [End], mod) == Some(e) <==> exists t :: YieldE(t) == ts && DenoteE(t, mod) == e
  {
    var line := ts + [End];
    if ParseLine(line, mod) == Some(e) {
      var t := SoundE(line, mod);
      var y, rest := YieldE(t), ParseE(line, mod).rest;
      assert line[|y|] == rest[0] == End;
      assert forall k :: 0 <= k < |ts| ==> line[k] in ts;
      assert y == line[..|y|] == ts;
    }
    forall t | YieldE(t) == ts && DenoteE(t, mod) == e
      ensures ParseLine(line, mod) == Some(e)
    {
      CompleteE(t, mod, [End]);
    }
  }

  /** An accepted line is what some tree yields, and evaluates to what any tree that yields it is
      worth, a plain m counting no more than MODULES. */
  lemma LineMeans(ts: seq<Token>, modules: Option<nat>)
    requires End !in ts
    ensures ParseLine(ts + [End], modules).Some? <==> exists t :: YieldE(t) == ts
    ensures ParseLine(ts + [End], modules).Some? ==> forall t, v: Item -> Tri :: YieldE(t) == ts ==>
      Value(ParseLine(ts + [End], modules).value, v) == WorthE(t, modules, v)
  {
    hide YieldE, DenoteE, ParseLine, WorthE, Value;
    var r := ParseLine(ts + [End], modules);
    if r.Some? {
      ParsesTheGrammar(ts, modules, r.value);
    }
    forall t | YieldE(t) == ts
      ensures r == Some(DenoteE(t, modules))
    {
      ParsesTheGrammar(ts, modules, DenoteE(t, modules));
    }
    forall t, v: Item -> Tri | YieldE(t) == ts
      ensures Value(r.value, v) == WorthE(t, modules, v)
    {
      DenotesItsWorth(t, modules, v);
    }
  }

  /** Every tree of a line denotes the same expression. */
  lemma Unambiguous(t: ExprT, t': ExprT, mod: Option<nat>)
    requires YieldE(t) == YieldE(t')
    ensures DenoteE(t, mod) == DenoteE(t', mod)
  {
    CompleteE(t, mod, [End]);
    CompleteE(t', mod, [End]);
  }

  // ----------------------------------------------------------- the token index

  /** The parser state: a None-terminated token list and an index into it. */
  class Parser {
    const tokens: seq<Token>
    const modules: nat
    var i: nat

    ghost predicate Valid()
      reads this
    {
      i < |tokens| && tokens[|tokens| - 1] == End && forall k :: 0 <= k < |tokens| - 1 ==> tokens[k] != End
    }

    constructor (tokens: seq<Token>, modules: nat, start: nat)
      requires start < |tokens| && tokens[|tokens| - 1] == End && forall k :: 0 <= k < |tokens| - 1 ==> tokens[k] != End
      ensures Valid() && this.tokens == tokens && this.modules == modules && i == start
    {
      this.tokens, this.modules, i := tokens, modules, start;
    }

    ghost function Mod(transformM: bool): Option<nat> { if transformM then Some(modules) else None }

    /** The outcome is the one of the parsing function from here, and on success the index
        has moved past what was parsed. */
    ghost predicate Follow(start: nat, p: Parsed, r: Option<Expr>)
      reads this
    {
      match p
      case Malformed => r == None
      case Parsed(e, rest) => Valid() && start < i && r == Some(e) && tokens[i..] == rest
    }

    method CheckToken(t: Token) returns (hit: bool)
      requires Valid() && t != End
      modifies this`i
      ensures Valid() && hit == (tokens[old(i)] == t) && i == old(i) + if hit then 1 else 0
    {
      hit := tokens[i] == t;
      if hit {
        i := i + 1;
      }
    }

    method ParseExpr(transformM: bool) returns (r: Option<Expr>)
      requires Valid()
      modifies this`i
      ensures Follow(old(i), ParseE(tokens[old(i)..], Mod(transformM)), r)
      decreases |tokens| - i, 2
    {
      r := ParseAndExpr(transformM);
      if r.Some? {
        var hit := CheckToken(TOr);
        if hit {
          assert tokens[i - 1..][1..] == tokens[i..];
          var right := ParseExpr(transformM);
          r := if right.Some? then Some(Or(r.value, right.value)) else None;
        }
      }
    }

    method ParseAndExpr(transformM: bool) returns (r: Option<Expr>)
      requires Valid()
      modifies this`i
      ensures Follow(old(i), ParseA(tokens[old(i)..], Mod(transformM)), r)
      decreases |tokens| - i, 1
    {
      r := ParseFactor(transformM);
      if r.Some? {
        var hit := CheckToken(TAnd);
        if hit {
          assert tokens[i - 1..][1..] == tokens[i..];
          var right := ParseAndExpr(transformM);
          r := if right.Some? then Some(And(r.value, right.value)) else None;
        }
      }
    }

    method ParseFactor(transformM: bool) returns (r: Option<Expr>)
      requires Valid()
      modifies this`i
      ensures Follow(old(i), ParseF(tokens[old(i)..], Mod(transformM)), r)
      decreases |tokens| - i, 0
    {
      hide ParseE, ParseA;
      ghost var ts := tokens[i..];
      var token := tokens[i];
      i := i + 1;
      match token {
        case Name(l) =>
          if !tokens[i].TRel? {
            if transformM && l == Lit(1) {
              return Some(And(Lit(1), Ref(S(modules))));
            }
            return Some(l);
          }
          i := i + 1;
          var rel, right := tokens[i - 1].rel, tokens[i];
          i := i + 1;
          if !right.Name? {
            return None;
          }
          assert ts[3..] == tokens[i..];
          return Some(Cmp(rel, l, right.leaf));
        case TNot =>
          assert ts[1..] == tokens[i..];
          r := ParseFactor(transformM);
          r := if r.Some? then Some(Not(r.value)) else None;
        case Open =>
          assert ts[1..] == tokens[i..];
          r := ParseExpr(transformM);
          if r.Some? {
            var hit := CheckToken(Close);
            if !hit {
              return None;
            }
            assert tokens[i - 1..][1..] == tokens[i..];
          }
        case _ =>
          return None;
      }
    }

    method ExpectExprAndEol() returns (r: Option<Expr>)
      requires Valid()
      modifies this`i
      ensures r == ParseLine(tokens[old(i)..], Some(modules))
      ensures var line := tokens[old(i)..|tokens| - 1];
        && (r.Some? <==> exists t :: YieldE(t) == line)
        && (r.Some? ==> forall t, v: Item -> Tri :: YieldE(t) == line ==> Value(r.value, v) == WorthE(t, Some(modules), v))
    {
      LineMeans(tokens[i..|tokens| - 1], Some(modules));
      assert tokens[i..] == tokens[i..|tokens| - 1] + [End];
      r := ParseExpr(true);
      if r.Some? && tokens[i] != End {
        r := None;
      }
    }
  }
}
