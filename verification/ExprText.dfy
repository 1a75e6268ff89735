/** Printing and parsing expressions, at the level of tokens.

    The printer drops the grouping of && and || chains; the parser nests them to the right. Parsing what was printed
    therefore gives the right-nested form of an expression, which has the same value. */
module ExprText {
  import opened Wrappers
  import opened KconfigTree

  /** `End` stands for the None after the last token; `ChoiceText` is what a choice is printed as, which is no token
      the parser accepts. */
  datatype Token =
    | Symbol(leaf: Leaf)
    | Relation(op: RelOp)
    | AndSign | OrSign | NotSign | Open | Close
    | ChoiceText(choice: ChoiceId)
    | End

  type Tokens = seq<Token>

  // ----- Printing -----

  function Enclosed(ts: Tokens): Tokens { [Open] + ts + [Close] }

  /** `expr_str` */
  function Print(e: Expr): Tokens {
    match e
    case Ref(leaf) => [Symbol(leaf)]
    case Mode(c) => [ChoiceText(c)]
    case And(l, r) =>
      (if l.Or? then Enclosed(Print(l)) else Print(l)) + [AndSign] + (if r.Or? then Enclosed(Print(r)) else Print(r))
    case Or(l, r) =>
      (if l.And? then Enclosed(Print(l)) else Print(l)) + [OrSign] + (if r.And? then Enclosed(Print(r)) else Print(r))
    case Not(x) => [NotSign] + (if x.Ref? || x.Mode? then Print(x) else Enclosed(Print(x)))
    case Rel(op, a, b) => [Symbol(a), Relation(op), Symbol(b)]
  }

  /** An operand of &&, and one of || */
  function AndOperand(e: Expr): Tokens { if e.Or? then Enclosed(Print(e)) else Print(e) }
  function OrOperand(e: Expr): Tokens { if e.And? then Enclosed(Print(e)) else Print(e) }

  lemma AndPrinted(e: Expr)
    requires e.And?
    ensures Print(e) == AndOperand(e) == AndOperand(e.l) + [AndSign] + AndOperand(e.r)
    ensures |Print(e)| == |AndOperand(e.l)| + 1 + |AndOperand(e.r)|
  {
  }

  lemma OrPrinted(e: Expr)
    requires e.Or?
    ensures Print(e) == OrOperand(e) == OrOperand(e.l) + [OrSign] + OrOperand(e.r)
    ensures |Print(e)| == |OrOperand(e.l)| + 1 + |OrOperand(e.r)|
  {
  }

  // ----- Parsing -----

  function At(ts: Tokens, i: nat): Token { if i < |ts| then ts[i] else End }

  const M: Expr := Ref(Const("m"))
  const MODULES: Expr := Ref(Sym("MODULES"))

  /** A parsed expression and the index of the next token, or None for a syntax error */
  type Parsed = Option<(Expr, nat)>

  function ParseExpr(ts: Tokens, i: nat, tm: bool): (r: Parsed)
    requires i <= |ts|
    ensures r.Some? ==> i < r.value.1 <= |ts|
    decreases |ts| - i, 2
  {
    var (l, j) :- ParseAndExpr(ts, i, tm);
    if At(ts, j) != OrSign then Some((l, j))
    else
      var (r, k) :- ParseExpr(ts, j + 1, tm);
      Some((Or(l, r), k))
  }

  function ParseAndExpr(ts: Tokens, i: nat, tm: bool): (r: Parsed)
    requires i <= |ts|
    ensures r.Some? ==> i < r.value.1 <= |ts|
    decreases |ts| - i, 1
  {
    var (l, j) :- ParseFactor(ts, i, tm);
    if At(ts, j) != AndSign then Some((l, j))
    else
      var (r, k) :- ParseAndExpr(ts, j + 1, tm);
      Some((And(l, r), k))
  }

  function ParseFactor(ts: Tokens, i: nat, tm: bool): (r: Parsed)
    requires i <= |ts|
    ensures r.Some? ==> i < r.value.1 <= |ts|
    decreases |ts| - i, 0
  {
    match At(ts, i)
    case Symbol(a) =>
      if !At(ts, i + 1).Relation? then Some((if tm && Ref(a) == M then And(M, MODULES) else Ref(a), i + 1))
      else if At(ts, i + 2).Symbol? then Some((Rel(ts[i + 1].op, a, ts[i + 2].leaf), i + 3))
      else None
    case NotSign =>
      var (x, k) :- ParseFactor(ts, i + 1, tm);
      Some((Not(x), k))
    case Open =>
      var (x, k) :- ParseExpr(ts, i + 1, tm);
      if At(ts, k) == Close then Some((x, k + 1)) else None
    case _ => None
  }

  /** The parser, with its position in the token list */
  class Parser {
    const tokens: Tokens
    var tokensI: nat

    constructor (tokens: Tokens)
      ensures this.tokens == tokens && tokensI == 0
    {
      this.tokens := tokens;
      tokensI := 0;
    }

    ghost predicate Result(r: Parsed, e: Option<Expr>)
      reads this
    {
      if r.None? then e == None else e == Some(r.value.0) && tokensI == r.value.1
    }

    /** `_check_token`: steps over the token if it is next. */
    method CheckToken(token: Token) returns (found: bool)
      requires tokensI <= |tokens| && token != End
      modifies this`tokensI
      ensures found == (At(tokens, old(tokensI)) == token)
      ensures tokensI == (if found then old(tokensI) + 1 else old(tokensI)) <= |tokens|
    {
      found := At(tokens, tokensI) == token;
      if found { tokensI := tokensI + 1; }
    }

    method Expression(transformM: bool) returns (e: Option<Expr>)
      requires tokensI <= |tokens|
      modifies this`tokensI
      ensures Result(ParseExpr(tokens, old(tokensI), transformM), e)
      decreases |tokens| - tokensI, 2
    {
      var l := AndExpression(transformM);
      if l.None? { return None; }
      var more := CheckToken(OrSign);
      if !more { return l; }
      var r := Expression(transformM);
      e := if r.None? then None else Some(Or(l.value, r.value));
    }

    method AndExpression(transformM: bool) returns (e: Option<Expr>)
      requires tokensI <= |tokens|
      modifies this`tokensI
      ensures Result(ParseAndExpr(tokens, old(tokensI), transformM), e)
      decreases |tokens| - tokensI, 1
    {
      var l := Factor(transformM);
      if l.None? { return None; }
      var more := CheckToken(AndSign);
      if !more { return l; }
      var r := AndExpression(transformM);
      e := if r.None? then None else Some(And(l.value, r.value));
    }

    method Factor(transformM: bool) returns (e: Option<Expr>)
      requires tokensI <= |tokens|
      modifies this`tokensI
      ensures Result(ParseFactor(tokens, old(tokensI), transformM), e)
      decreases |tokens| - tokensI, 0
    {
      var token := At(tokens, tokensI);
      if token == End { return None; }
      tokensI := tokensI + 1;
      if token.Symbol? {
        if !At(tokens, tokensI).Relation? {
          return Some(if transformM && Ref(token.leaf) == M then And(M, MODULES) else Ref(token.leaf));
        }
        var op := tokens[tokensI].op;
        tokensI := tokensI + 1;
        var right := At(tokens, tokensI);
        if !right.Symbol? { return None; }
        tokensI := tokensI + 1;
        return Some(Rel(op, token.leaf, right.leaf));
      }
      if token == NotSign {
        var x := Factor(transformM);
        return if x.None? then None else Some(Not(x.value));
      }
      if token == Open {
        var x := Expression(transformM);
        if x.None? { return None; }
        var closed := CheckToken(Close);
        return if closed then x else None;
      }
      e := None;
    }
  }

  // ----- The right-nested form -----

  predicate ChoiceFree(e: Expr) {
    match e
    case Ref(_) => true
    case Mode(_) => false
    case And(l, r) => ChoiceFree(l) && ChoiceFree(r)
    case Or(l, r) => ChoiceFree(l) && ChoiceFree(r)
    case Not(x) => ChoiceFree(x)
    case Rel(_, _, _) => true
  }

  function AndChain(l: Expr, r: Expr): Expr { if l.And? then And(l.l, AndChain(l.r, r)) else And(l, r) }

  function OrChain(l: Expr, r: Expr): Expr { if l.Or? then Or(l.l, OrChain(l.r, r)) else Or(l, r) }

  function RightForm(e: Expr): Expr {
    match e
    case And(l, r) => AndChain(RightForm(l), RightForm(r))
    case Or(l, r) => OrChain(RightForm(l), RightForm(r))
    case Not(x) => Not(RightForm(x))
    case _ => e
  }

  predicate RightNested(e: Expr) {
    match e
    case And(l, r) => !l.And? && RightNested(l) && RightNested(r)
    case Or(l, r) => !l.Or? && RightNested(l) && RightNested(r)
    case Not(x) => RightNested(x)
    case _ => true
  }

  /** What `transform_m` does: a plain m becomes m && MODULES. */
  function Transform(tm: bool, e: Expr): Expr {
    match e
    case Ref(_) => if tm && e == M then And(M, MODULES) else e
    case And(l, r) => And(Transform(tm, l), Transform(tm, r))
    case Or(l, r) => Or(Transform(tm, l), Transform(tm, r))
    case Not(x) => Not(Transform(tm, x))
    case _ => e
  }

  lemma RightFormKind(e: Expr)
    ensures RightForm(e).And? == e.And? && RightForm(e).Or? == e.Or?
  {
  }

  lemma {:induction false} AndChainAssoc(a: Expr, b: Expr, c: Expr)
    ensures AndChain(AndChain(a, b), c) == AndChain(a, AndChain(b, c))
  {
    if a.And? { AndChainAssoc(a.r, b, c); }
  }

  lemma {:induction false} OrChainAssoc(a: Expr, b: Expr, c: Expr)
    ensures OrChain(OrChain(a, b), c) == OrChain(a, OrChain(b, c))
  {
    if a.Or? { OrChainAssoc(a.r, b, c); }
  }

  // ----- Parsing what was printed -----

  /** `xs` stands in `ts` at position i. */
  predicate Stands(ts: Tokens, i: nat, xs: Tokens) {
    i + |xs| <= |ts| && forall k :: 0 <= k < |xs| ==> ts[i + k] == xs[k]
  }

  lemma StandsConcat(ts: Tokens, i: nat, x: Tokens, y: Tokens)
    requires Stands(ts, i, x + y)
    ensures Stands(ts, i, x) && Stands(ts, i + |x|, y)
  {
    forall k | 0 <= k < |x| ensures ts[i + k] == x[k] { assert (x + y)[k] == x[k]; }
    forall k | 0 <= k < |y| ensures ts[i + |x| + k] == y[k] { assert (x + y)[|x| + k] == y[k]; }
  }

  lemma StandsOne(ts: Tokens, i: nat, x: Token)
    requires Stands(ts, i, [x])
    ensures At(ts, i) == x
  {
    assert [x][0] == x;
  }

  lemma StandsEnclosed(ts: Tokens, i: nat, xs: Tokens)
    requires Stands(ts, i, Enclosed(xs))
    ensures At(ts, i) == Open && Stands(ts, i + 1, xs) && At(ts, i + 1 + |xs|) == Close
  {
    StandsConcat(ts, i, [Open] + xs, [Close]);
    StandsConcat(ts, i, [Open], xs);
    StandsOne(ts, i, Open);
    StandsOne(ts, i + 1 + |xs|, Close);
  }

  lemma StandsBinary(ts: Tokens, i: nat, x: Tokens, sign: Token, y: Tokens)
    requires Stands(ts, i, x + [sign] + y)
    ensures Stands(ts, i, x) && At(ts, i + |x|) == sign && Stands(ts, i + |x| + 1, y)
  {
    StandsConcat(ts, i, x + [sign], y);
    StandsConcat(ts, i, x, [sign]);
    StandsOne(ts, i + |x|, sign);
  }

  // ----- Single steps of the parser -----

  lemma NotStep(ts: Tokens, i: nat, tm: bool, x: Expr, k: nat)
    requires i < |ts| && ts[i] == NotSign && ParseFactor(ts, i + 1, tm) == Some((x, k))
    ensures ParseFactor(ts, i, tm) == Some((Not(x), k))
  {
  }

  lemma OpenStep(ts: Tokens, i: nat, tm: bool, x: Expr, k: nat)
    requires i < |ts| && ts[i] == Open && ParseExpr(ts, i + 1, tm) == Some((x, k)) && At(ts, k) == Close
    ensures ParseFactor(ts, i, tm) == Some((x, k + 1))
  {
  }

  /** A factor that no && follows is a whole && expression. */
  lemma AndStep(ts: Tokens, i: nat, tm: bool)
    requires i <= |ts| && ParseFactor(ts, i, tm).Some? && At(ts, ParseFactor(ts, i, tm).value.1) != AndSign
    ensures ParseAndExpr(ts, i, tm) == ParseFactor(ts, i, tm)
  {
  }

  lemma AndMore(ts: Tokens, i: nat, tm: bool, l: Expr, j: nat, r: Expr, k: nat)
    requires i <= |ts| && ParseFactor(ts, i, tm) == Some((l, j)) && At(ts, j) == AndSign
    requires ParseAndExpr(ts, j + 1, tm) == Some((r, k))
    ensures ParseAndExpr(ts, i, tm) == Some((And(l, r), k))
  {
  }

  /** An && expression that no || follows is a whole expression. */
  lemma OrStep(ts: Tokens, i: nat, tm: bool)
    requires i <= |ts| && ParseAndExpr(ts, i, tm).Some? && At(ts, ParseAndExpr(ts, i, tm).value.1) != OrSign
    ensures ParseExpr(ts, i, tm) == ParseAndExpr(ts, i, tm)
  {
  }

  lemma OrMore(ts: Tokens, i: nat, tm: bool, l: Expr, j: nat, r: Expr, k: nat)
    requires i <= |ts| && ParseAndExpr(ts, i, tm) == Some((l, j)) && At(ts, j) == OrSign
    requires ParseExpr(ts, j + 1, tm) == Some((r, k))
    ensures ParseExpr(ts, i, tm) == Some((Or(l, r), k))
  {
  }

  // ----- All of them together -----

  /** The result of parsing `e`, printed as `xs` at position i */
  function Expected(tm: bool, e: Expr, i: nat, xs: Tokens): Parsed { Some((Transform(tm, RightForm(e)), i + |xs|)) }

  lemma {:induction false} EnclosedParsed(ts: Tokens, i: nat, tm: bool, e: Expr)
    requires ChoiceFree(e) && Stands(ts, i, Enclosed(Print(e)))
    ensures ParseFactor(ts, i, tm) == Expected(tm, e, i, Enclosed(Print(e)))
    decreases e, 6
  {
    StandsEnclosed(ts, i, Print(e));
    ExprParsed(ts, i + 1, tm, e);
    OpenStep(ts, i, tm, Transform(tm, RightForm(e)), i + 1 + |Print(e)|);
  }

  lemma {:induction false} FactorParsed(ts: Tokens, i: nat, tm: bool, e: Expr)
    requires ChoiceFree(e) && !e.And? && !e.Or? && Stands(ts, i, Print(e)) && !At(ts, i + |Print(e)|).Relation?
    ensures ParseFactor(ts, i, tm) == Expected(tm, e, i, Print(e))
    decreases e, 0
  {
    match e {
      case Ref(a) => { StandsOne(ts, i, Symbol(a)); }
      case Rel(op, a, b) => {
        assert Print(e) == [Symbol(a)] + [Relation(op)] + [Symbol(b)];
        StandsBinary(ts, i, [Symbol(a)], Relation(op), [Symbol(b)]);
        StandsOne(ts, i, Symbol(a));
        StandsOne(ts, i + 2, Symbol(b));
      }
      case Not(x) => { NotParsed(ts, i, tm, x); }
    }
  }

  lemma {:induction false} NotParsed(ts: Tokens, i: nat, tm: bool, x: Expr)
    requires ChoiceFree(x) && Stands(ts, i, Print(Not(x))) && !At(ts, i + |Print(Not(x))|).Relation?
    ensures ParseFactor(ts, i, tm) == Expected(tm, Not(x), i, Print(Not(x)))
    decreases x, 10
  {
    var k := i + |Print(Not(x))|;
    NotStands(ts, i, x, k);
    NotOperandParsed(ts, i + 1, tm, x, k);
    NotStep(ts, i, tm, Transform(tm, RightForm(x)), k);
    NotTransformed(tm, x);
  }

  lemma NotTransformed(tm: bool, x: Expr)
    ensures Transform(tm, RightForm(Not(x))) == Not(Transform(tm, RightForm(x)))
  {
  }

  function NotOperand(x: Expr): Tokens { if x.Ref? then Print(x) else Enclosed(Print(x)) }

  lemma NotStands(ts: Tokens, i: nat, x: Expr, k: nat)
    requires ChoiceFree(x) && Stands(ts, i, Print(Not(x))) && k == i + |Print(Not(x))|
    ensures i < |ts| && ts[i] == NotSign && Stands(ts, i + 1, NotOperand(x)) && k == i + 1 + |NotOperand(x)|
  {
    NotPrinted(x);
    StandsConcat(ts, i, [NotSign], NotOperand(x));
    StandsOne(ts, i, NotSign);
  }

  lemma {:induction false} NotOperandParsed(ts: Tokens, i: nat, tm: bool, x: Expr, k: nat)
    requires ChoiceFree(x) && Stands(ts, i, NotOperand(x)) && k == i + |NotOperand(x)| && !At(ts, k).Relation?
    ensures ParseFactor(ts, i, tm) == Some((Transform(tm, RightForm(x)), k))
    decreases x, 9
  {
    if x.Ref? { FactorParsed(ts, i, tm, x); } else { EnclosedParsed(ts, i, tm, x); }
  }

  lemma NotPrinted(x: Expr)
    ensures Print(Not(x)) == [NotSign] + (if x.Ref? || x.Mode? then Print(x) else Enclosed(Print(x)))
  {
  }

  /** An operand of && that is no chain itself is a factor. */
  lemma {:induction false} AndFactorParsed(ts: Tokens, i: nat, tm: bool, e: Expr)
    requires ChoiceFree(e) && !e.And? && Stands(ts, i, AndOperand(e)) && !At(ts, i + |AndOperand(e)|).Relation?
    ensures ParseFactor(ts, i, tm) == Expected(tm, e, i, AndOperand(e))
    decreases e, 7
  {
    if e.Or? { EnclosedParsed(ts, i, tm, e); } else { FactorParsed(ts, i, tm, e); }
  }

  /** If the tokens after `l &&` parse as y, then from the start of l they parse as the chain of l and y. */
  lemma AndRegrouped(tm: bool, l: Expr, y: Expr)
    requires l.And?
    ensures Transform(tm, AndChain(RightForm(l.l), AndChain(RightForm(l.r), y))) == Transform(tm, AndChain(RightForm(l), y))
  {
    AndChainAssoc(RightForm(l.l), RightForm(l.r), y);
  }

  lemma AndStands(ts: Tokens, i: nat, l: Expr, j: nat) returns (m: nat)
    requires l.And? && Stands(ts, i, AndOperand(l)) && j == i + |AndOperand(l)|
    ensures m == i + |AndOperand(l.l)| && j == m + 1 + |AndOperand(l.r)| && At(ts, m) == AndSign
    ensures Stands(ts, i, AndOperand(l.l)) && Stands(ts, m + 1, AndOperand(l.r))
  {
    m := i + |AndOperand(l.l)|;
    AndPrinted(l);
    StandsBinary(ts, i, AndOperand(l.l), AndSign, AndOperand(l.r));
  }

  lemma {:induction false} AndBegun(ts: Tokens, i: nat, tm: bool, l: Expr, j: nat, y: Expr, k: nat)
    requires !l.And? && ChoiceFree(l) && Stands(ts, i, AndOperand(l)) && j == i + |AndOperand(l)| && At(ts, j) == AndSign
    requires ParseAndExpr(ts, j + 1, tm) == Some((Transform(tm, y), k))
    ensures ParseAndExpr(ts, i, tm) == Some((Transform(tm, AndChain(RightForm(l), y)), k))
    decreases l, 8
  {
    AndFactorParsed(ts, i, tm, l);
    RightFormKind(l);
    AndMore(ts, i, tm, Transform(tm, RightForm(l)), j, Transform(tm, y), k);
  }

  lemma {:induction false} AndContinued(ts: Tokens, i: nat, tm: bool, l: Expr, j: nat, y: Expr, k: nat)
    requires ChoiceFree(l) && Stands(ts, i, AndOperand(l)) && j == i + |AndOperand(l)| && At(ts, j) == AndSign
    requires ParseAndExpr(ts, j + 1, tm) == Some((Transform(tm, y), k))
    ensures ParseAndExpr(ts, i, tm) == Some((Transform(tm, AndChain(RightForm(l), y)), k))
    decreases l, 9
  {
    if l.And? {
      var m := AndStands(ts, i, l, j);
      AndContinued(ts, m + 1, tm, l.r, j, y, k);
      AndBefore(ts, i, tm, l, m, y, k);
    } else {
      AndBegun(ts, i, tm, l, j, y, k);
    }
  }

  /** The left operand of a chain whose right operand, with what follows, ends at k */
  lemma {:induction false} AndBefore(ts: Tokens, i: nat, tm: bool, l: Expr, m: nat, y: Expr, k: nat)
    requires l.And? && ChoiceFree(l) && Stands(ts, i, AndOperand(l.l))
    requires m == i + |AndOperand(l.l)| && At(ts, m) == AndSign
    requires ParseAndExpr(ts, m + 1, tm) == Some((Transform(tm, AndChain(RightForm(l.r), y)), k))
    ensures ParseAndExpr(ts, i, tm) == Some((Transform(tm, AndChain(RightForm(l), y)), k))
    decreases l, 8
  {
    AndContinued(ts, i, tm, l.l, m, AndChain(RightForm(l.r), y), k);
    AndRegrouped(tm, l, y);
  }

  lemma {:induction false} AndChainParsed(ts: Tokens, i: nat, tm: bool, e: Expr)
    requires ChoiceFree(e) && e.And? && Stands(ts, i, Print(e))
    requires var next := At(ts, i + |Print(e)|); !next.Relation? && next != AndSign
    ensures ParseAndExpr(ts, i, tm) == Expected(tm, e, i, Print(e))
    decreases e, 2
  {
    var end := i + |Print(e)|;
    var m := AndStands(ts, i, e, end);
    AndExprParsed(ts, m + 1, tm, e.r);
    AndContinued(ts, i, tm, e.l, m, RightForm(e.r), end);
  }

  lemma {:induction false} AndExprParsed(ts: Tokens, i: nat, tm: bool, e: Expr)
    requires ChoiceFree(e) && Stands(ts, i, AndOperand(e))
    requires var next := At(ts, i + |AndOperand(e)|); !next.Relation? && next != AndSign
    ensures ParseAndExpr(ts, i, tm) == Expected(tm, e, i, AndOperand(e))
    decreases e, 9
  {
    if e.And? {
      AndChainParsed(ts, i, tm, e);
    } else {
      AndFactorParsed(ts, i, tm, e);
      AndStep(ts, i, tm);
    }
  }

  /** The same for an operand of ||: enclosed if it is a chain of &&. */
  lemma {:induction false} OrFactorParsed(ts: Tokens, i: nat, tm: bool, e: Expr)
    requires ChoiceFree(e) && !e.Or? && Stands(ts, i, OrOperand(e))
    requires var next := At(ts, i + |OrOperand(e)|); !next.Relation? && next != AndSign
    ensures ParseAndExpr(ts, i, tm) == Expected(tm, e, i, OrOperand(e))
    decreases e, 7
  {
    if e.And? { EnclosedParsed(ts, i, tm, e); } else { FactorParsed(ts, i, tm, e); }
    AndStep(ts, i, tm);
  }

  lemma OrRegrouped(tm: bool, l: Expr, y: Expr)
    requires l.Or?
    ensures Transform(tm, OrChain(RightForm(l.l), OrChain(RightForm(l.r), y))) == Transform(tm, OrChain(RightForm(l), y))
  {
    OrChainAssoc(RightForm(l.l), RightForm(l.r), y);
  }

  lemma OrStands(ts: Tokens, i: nat, l: Expr, j: nat) returns (m: nat)
    requires l.Or? && Stands(ts, i, OrOperand(l)) && j == i + |OrOperand(l)|
    ensures m == i + |OrOperand(l.l)| && j == m + 1 + |OrOperand(l.r)| && At(ts, m) == OrSign
    ensures Stands(ts, i, OrOperand(l.l)) && Stands(ts, m + 1, OrOperand(l.r))
  {
    m := i + |OrOperand(l.l)|;
    OrPrinted(l);
    StandsBinary(ts, i, OrOperand(l.l), OrSign, OrOperand(l.r));
  }

  lemma {:induction false} OrBegun(ts: Tokens, i: nat, tm: bool, l: Expr, j: nat, y: Expr, k: nat)
    requires !l.Or? && ChoiceFree(l) && Stands(ts, i, OrOperand(l)) && j == i + |OrOperand(l)| && At(ts, j) == OrSign
    requires ParseExpr(ts, j + 1, tm) == Some((Transform(tm, y), k))
    ensures ParseExpr(ts, i, tm) == Some((Transform(tm, OrChain(RightForm(l), y)), k))
    decreases l, 8
  {
    OrFactorParsed(ts, i, tm, l);
    RightFormKind(l);
    OrMore(ts, i, tm, Transform(tm, RightForm(l)), j, Transform(tm, y), k);
  }

  lemma {:induction false} OrContinued(ts: Tokens, i: nat, tm: bool, l: Expr, j: nat, y: Expr, k: nat)
    requires ChoiceFree(l) && Stands(ts, i, OrOperand(l)) && j == i + |OrOperand(l)| && At(ts, j) == OrSign
    requires ParseExpr(ts, j + 1, tm) == Some((Transform(tm, y), k))
    ensures ParseExpr(ts, i, tm) == Some((Transform(tm, OrChain(RightForm(l), y)), k))
    decreases l, 9
  {
    if l.Or? {
      var m := OrStands(ts, i, l, j);
      OrContinued(ts, m + 1, tm, l.r, j, y, k);
      OrBefore(ts, i, tm, l, m, y, k);
    } else {
      OrBegun(ts, i, tm, l, j, y, k);
    }
  }

  /** The left operand of a chain whose right operand, with what follows, ends at k */
  lemma {:induction false} OrBefore(ts: Tokens, i: nat, tm: bool, l: Expr, m: nat, y: Expr, k: nat)
    requires l.Or? && ChoiceFree(l) && Stands(ts, i, OrOperand(l.l)) && m == i + |OrOperand(l.l)| && At(ts, m) == OrSign
    requires ParseExpr(ts, m + 1, tm) == Some((Transform(tm, OrChain(RightForm(l.r), y)), k))
    ensures ParseExpr(ts, i, tm) == Some((Transform(tm, OrChain(RightForm(l), y)), k))
    decreases l, 8
  {
    OrContinued(ts, i, tm, l.l, m, OrChain(RightForm(l.r), y), k);
    OrRegrouped(tm, l, y);
  }

  /** The last operand of an || chain */
  lemma {:induction false} OrOperandParsed(ts: Tokens, i: nat, tm: bool, e: Expr)
    requires ChoiceFree(e) && Stands(ts, i, OrOperand(e))
    requires var next := At(ts, i + |OrOperand(e)|); !next.Relation? && next != AndSign && next != OrSign
    ensures ParseExpr(ts, i, tm) == Expected(tm, e, i, OrOperand(e))
    decreases e, 8
  {
    if e.Or? {
      OrParsed(ts, i, tm, e);
    } else {
      OrFactorParsed(ts, i, tm, e);
      OrStep(ts, i, tm);
    }
  }

  lemma {:induction false} OrParsed(ts: Tokens, i: nat, tm: bool, e: Expr)
    requires ChoiceFree(e) && e.Or? && Stands(ts, i, Print(e))
    requires var next := At(ts, i + |Print(e)|); !next.Relation? && next != AndSign && next != OrSign
    ensures ParseExpr(ts, i, tm) == Expected(tm, e, i, Print(e))
    decreases e, 2
  {
    var end := i + |Print(e)|;
    var m := OrStands(ts, i, e, end);
    OrOperandParsed(ts, m + 1, tm, e.r);
    OrContinued(ts, i, tm, e.l, m, RightForm(e.r), end);
  }

  /** A whole expression, wherever it stands before a token that cannot continue it */
  lemma {:induction false} ExprParsed(ts: Tokens, i: nat, tm: bool, e: Expr)
    requires ChoiceFree(e) && Stands(ts, i, Print(e))
    requires var next := At(ts, i + |Print(e)|); !next.Relation? && next != AndSign && next != OrSign
    ensures ParseExpr(ts, i, tm) == Expected(tm, e, i, Print(e))
    decreases e, 5
  {
    if e.Or? {
      OrParsed(ts, i, tm, e);
    } else {
      if e.And? {
        AndChainParsed(ts, i, tm, e);
      } else {
        FactorParsed(ts, i, tm, e);
        AndStep(ts, i, tm);
      }
      OrStep(ts, i, tm);
    }
  }

  /** Parsing the printed tokens of a choice-free expression takes all of them and gives its right-nested form. */
  lemma PrintedParsed(e: Expr, tm: bool)
    requires ChoiceFree(e)
    ensures ParseExpr(Print(e), 0, tm) == Some((Transform(tm, RightForm(e)), |Print(e)|))
  {
    ExprParsed(Print(e), 0, tm, e);
  }

  lemma {:induction false} TransformNothing(e: Expr)
    ensures Transform(false, e) == e
  {
    match e
    case And(l, r) => { TransformNothing(l); TransformNothing(r); }
    case Or(l, r) => { TransformNothing(l); TransformNothing(r); }
    case Not(x) => { TransformNothing(x); }
    case _ => {}
  }

  // ----- Meaning -----

  lemma {:induction false} AndChainValue(t: Tree, u: Users, m: Answers, l: Expr, r: Expr)
    ensures ExprVal(t, u, m, AndChain(l, r)) == ExprVal(t, u, m, And(l, r))
  {
    if l.And? { AndChainValue(t, u, m, l.r, r); }
  }

  lemma {:induction false} OrChainValue(t: Tree, u: Users, m: Answers, l: Expr, r: Expr)
    ensures ExprVal(t, u, m, OrChain(l, r)) == ExprVal(t, u, m, Or(l, r))
  {
    if l.Or? { OrChainValue(t, u, m, l.r, r); }
  }

  /** The right-nested form has the same value whatever values are recorded, and where an evaluation fails because a
      value it needs is not recorded, so does the other. */
  lemma {:induction false} RightFormValue(t: Tree, u: Users, m: Answers, e: Expr)
    ensures ExprVal(t, u, m, RightForm(e)) == ExprVal(t, u, m, e)
  {
    match e
    case And(l, r) => {
      RightFormValue(t, u, m, l);
      RightFormValue(t, u, m, r);
      AndChainValue(t, u, m, RightForm(l), RightForm(r));
    }
    case Or(l, r) => {
      RightFormValue(t, u, m, l);
      RightFormValue(t, u, m, r);
      OrChainValue(t, u, m, RightForm(l), RightForm(r));
    }
    case Not(x) => { RightFormValue(t, u, m, x); }
    case _ => {}
  }

  lemma {:induction false} AndChainNested(l: Expr, r: Expr)
    requires RightNested(l) && RightNested(r)
    ensures RightNested(AndChain(l, r))
  {
    if l.And? { AndChainNested(l.r, r); }
  }

  lemma {:induction false} OrChainNested(l: Expr, r: Expr)
    requires RightNested(l) && RightNested(r)
    ensures RightNested(OrChain(l, r))
  {
    if l.Or? { OrChainNested(l.r, r); }
  }

  lemma {:induction false} RightFormNested(e: Expr)
    ensures RightNested(RightForm(e)) && (RightNested(e) ==> RightForm(e) == e)
  {
    match e
    case And(l, r) => {
      RightFormNested(l);
      RightFormNested(r);
      AndChainNested(RightForm(l), RightForm(r));
    }
    case Or(l, r) => {
      RightFormNested(l);
      RightFormNested(r);
      OrChainNested(RightForm(l), RightForm(r));
    }
    case Not(x) => { RightFormNested(x); }
    case _ => {}
  }

  // ----- Printing forgets the nesting, and nothing else -----

  lemma Regrouped(a: Tokens, sign: Token, b: Tokens, c: Tokens)
    ensures a + [sign] + (b + [sign] + c) == (a + [sign] + b) + [sign] + c
  {
  }

  lemma {:induction false} AndChainPrinted(l: Expr, r: Expr)
    ensures Print(AndChain(l, r)) == Print(And(l, r))
  {
    if l.And? {
      AndChainPrinted(l.r, r);
      Regrouped(AndOperand(l.l), AndSign, AndOperand(l.r), AndOperand(r));
      AndPrinted(l);
      AndPrinted(And(l, r));
      AndPrinted(And(l.r, r));
      AndPrinted(And(l.l, AndChain(l.r, r)));
    }
  }

  lemma {:induction false} OrChainPrinted(l: Expr, r: Expr)
    ensures Print(OrChain(l, r)) == Print(Or(l, r))
  {
    if l.Or? {
      OrChainPrinted(l.r, r);
      Regrouped(OrOperand(l.l), OrSign, OrOperand(l.r), OrOperand(r));
      OrPrinted(l);
      OrPrinted(Or(l, r));
      OrPrinted(Or(l.r, r));
      OrPrinted(Or(l.l, OrChain(l.r, r)));
    }
  }

  lemma {:induction false} RightFormPrinted(e: Expr)
    ensures Print(RightForm(e)) == Print(e)
  {
    match e
    case And(l, r) => {
      RightFormPrinted(l);
      RightFormPrinted(r);
      RightFormKind(l);
      RightFormKind(r);
      AndChainPrinted(RightForm(l), RightForm(r));
      AndPrinted(e);
      AndPrinted(And(RightForm(l), RightForm(r)));
    }
    case Or(l, r) => {
      RightFormPrinted(l);
      RightFormPrinted(r);
      RightFormKind(l);
      RightFormKind(r);
      OrChainPrinted(RightForm(l), RightForm(r));
      OrPrinted(e);
      OrPrinted(Or(RightForm(l), RightForm(r)));
    }
    case Not(x) => { RightFormPrinted(x); }
    case _ => {}
  }

  /** Two choice-free expressions print the same exactly when they differ only in how their chains are nested. */
  lemma SamePrint(a: Expr, b: Expr)
    requires ChoiceFree(a) && ChoiceFree(b)
    ensures Print(a) == Print(b) <==> RightForm(a) == RightForm(b)
  {
    PrintedParsed(a, false);
    PrintedParsed(b, false);
    TransformNothing(RightForm(a));
    TransformNothing(RightForm(b));
    RightFormPrinted(a);
    RightFormPrinted(b);
  }

  /** Printing, parsing (without the treatment of m) and evaluating: the value is the same under every valuation, and
      the tree is the same exactly when its chains are nested to the right. */
  lemma RoundTrip(e: Expr)
    requires ChoiceFree(e)
    ensures ParseExpr(Print(e), 0, false) == Some((RightForm(e), |Print(e)|))
    ensures forall t, u, m :: ExprVal(t, u, m, RightForm(e)) == ExprVal(t, u, m, e)
    ensures RightForm(e) == e <==> RightNested(e)
  {
    PrintedParsed(e, false);
    TransformNothing(RightForm(e));
    forall t, u, m ensures ExprVal(t, u, m, RightForm(e)) == ExprVal(t, u, m, e) { RightFormValue(t, u, m, e); }
    RightFormNested(e);
  }
}
