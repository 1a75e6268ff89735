/** The grammar of expressions, and that the parser accepts exactly its sentences, with their meaning. */
module ExprGrammar {
  import opened Wrappers
  import opened KconfigTree
  import opened ExprText

  /** A sentence of the grammar, as it is written: with its parentheses, and operands side by side */
  datatype Syntax =
    | Atom(leaf: Leaf)
    | Compare(left: Leaf, op: RelOp, right: Leaf)
    | Bang(x: Syntax)
    | Parens(x: Syntax)
    | Both(l: Syntax, r: Syntax)
    | Either(l: Syntax, r: Syntax)

  predicate IsFactor(x: Syntax) { !x.Both? && !x.Either? }

  /** expr: and_expr ['||' expr], and_expr: factor ['&&' and_expr], factor: symbol [relation symbol] | '!' factor |
      '(' expr ')' */
  predicate Grammatical(x: Syntax) {
    match x
    case Atom(_) => true
    case Compare(_, _, _) => true
    case Bang(y) => IsFactor(y) && Grammatical(y)
    case Parens(y) => Grammatical(y)
    case Both(l, r) => IsFactor(l) && !r.Either? && Grammatical(l) && Grammatical(r)
    case Either(l, r) => !l.Either? && Grammatical(l) && Grammatical(r)
  }

  function Written(x: Syntax): (ts: Tokens)
    ensures ts != []
  {
    match x
    case Atom(leaf) => [Symbol(leaf)]
    case Compare(a, op, b) => [Symbol(a), Relation(op), Symbol(b)]
    case Bang(y) => [NotSign] + Written(y)
    case Parens(y) => [Open] + Written(y) + [Close]
    case Both(l, r) => Written(l) + [AndSign] + Written(r)
    case Either(l, r) => Written(l) + [OrSign] + Written(r)
  }

  /** The expression that a sentence stands for; where `tm` is set, a plain m stands for m && MODULES. */
  function Meant(x: Syntax, tm: bool): Expr {
    match x
    case Atom(leaf) => if tm && leaf == Const("m") then And(Ref(leaf), Ref(Sym("MODULES"))) else Ref(leaf)
    case Compare(a, op, b) => Rel(op, a, b)
    case Bang(y) => Not(Meant(y, tm))
    case Parens(y) => Meant(y, tm)
    case Both(l, r) => And(Meant(l, tm), Meant(r, tm))
    case Either(l, r) => Or(Meant(l, tm), Meant(r, tm))
  }

  // ----- Sentences are accepted -----

  lemma {:induction false} FactorAccepted(ts: Tokens, i: nat, tm: bool, x: Syntax)
    requires Grammatical(x) && IsFactor(x) && Stands(ts, i, Written(x)) && !At(ts, i + |Written(x)|).Relation?
    ensures ParseFactor(ts, i, tm) == Some((Meant(x, tm), i + |Written(x)|))
    decreases x, 0
  {
    match x {
      case Atom(leaf) => { StandsOne(ts, i, Symbol(leaf)); }
      case Compare(_, _, _) => { CompareAccepted(ts, i, tm, x); }
      case Bang(y) => {
        StandsConcat(ts, i, [NotSign], Written(y));
        StandsOne(ts, i, NotSign);
        FactorAccepted(ts, i + 1, tm, y);
        NotStep(ts, i, tm, Meant(y, tm), i + 1 + |Written(y)|);
      }
      case Parens(y) => {
        ParensStand(ts, i, y);
        ExprAccepted(ts, i + 1, tm, y);
        OpenStep(ts, i, tm, Meant(y, tm), i + 1 + |Written(y)|);
      }
    }
  }

  lemma CompareAccepted(ts: Tokens, i: nat, tm: bool, x: Syntax)
    requires x.Compare? && Stands(ts, i, Written(x))
    ensures ParseFactor(ts, i, tm) == Some((Meant(x, tm), i + |Written(x)|))
  {
    assert Written(x) == [Symbol(x.left)] + [Relation(x.op)] + [Symbol(x.right)];
    StandsBinary(ts, i, [Symbol(x.left)], Relation(x.op), [Symbol(x.right)]);
    StandsOne(ts, i, Symbol(x.left));
    StandsOne(ts, i + 2, Symbol(x.right));
  }

  lemma ParensStand(ts: Tokens, i: nat, y: Syntax)
    requires Stands(ts, i, Written(Parens(y)))
    ensures i < |ts| && ts[i] == Open && Stands(ts, i + 1, Written(y)) && At(ts, i + 1 + |Written(y)|) == Close
    ensures |Written(Parens(y))| == |Written(y)| + 2
  {
    assert Written(Parens(y)) == Enclosed(Written(y));
    StandsEnclosed(ts, i, Written(y));
  }

  lemma {:induction false} AndAccepted(ts: Tokens, i: nat, tm: bool, x: Syntax)
    requires Grammatical(x) && !x.Either? && Stands(ts, i, Written(x))
    requires var next := At(ts, i + |Written(x)|); !next.Relation? && next != AndSign
    ensures ParseAndExpr(ts, i, tm) == Some((Meant(x, tm), i + |Written(x)|))
    decreases x, 1
  {
    if x.Both? {
      StandsBinary(ts, i, Written(x.l), AndSign, Written(x.r));
      var j := i + |Written(x.l)|;
      FactorAccepted(ts, i, tm, x.l);
      AndAccepted(ts, j + 1, tm, x.r);
      AndMore(ts, i, tm, Meant(x.l, tm), j, Meant(x.r, tm), i + |Written(x)|);
    } else {
      FactorAccepted(ts, i, tm, x);
      AndStep(ts, i, tm);
    }
  }

  lemma {:induction false} ExprAccepted(ts: Tokens, i: nat, tm: bool, x: Syntax)
    requires Grammatical(x) && Stands(ts, i, Written(x))
    requires var next := At(ts, i + |Written(x)|); !next.Relation? && next != AndSign && next != OrSign
    ensures ParseExpr(ts, i, tm) == Some((Meant(x, tm), i + |Written(x)|))
    decreases x, 2
  {
    if x.Either? {
      StandsBinary(ts, i, Written(x.l), OrSign, Written(x.r));
      var j := i + |Written(x.l)|;
      AndAccepted(ts, i, tm, x.l);
      ExprAccepted(ts, j + 1, tm, x.r);
      OrMore(ts, i, tm, Meant(x.l, tm), j, Meant(x.r, tm), i + |Written(x)|);
    } else {
      AndAccepted(ts, i, tm, x);
      OrStep(ts, i, tm);
    }
  }

  // ----- Nothing else is -----

  /** The tokens from i to k are the sentence. */
  predicate Spans(ts: Tokens, i: nat, k: nat, x: Syntax) { i <= k <= |ts| && ts[i..k] == Written(x) }

  lemma SpansBinary(ts: Tokens, i: nat, j: nat, k: nat, l: Syntax, sign: Token, r: Syntax)
    requires Spans(ts, i, j, l) && j < |ts| && ts[j] == sign && Spans(ts, j + 1, k, r)
    ensures ts[i..k] == Written(l) + [sign] + Written(r)
  {
    assert ts[i..k] == ts[i..j] + [ts[j]] + ts[j + 1..k];
  }

  /** The sentence is what the parser takes from position i. */
  predicate Sentence(ts: Tokens, i: nat, tm: bool, r: Parsed, x: Syntax) {
    r.Some? && Grammatical(x) && Spans(ts, i, r.value.1, x) && r.value.0 == Meant(x, tm)
  }

  lemma SymbolSentence(ts: Tokens, i: nat, tm: bool) returns (x: Syntax)
    requires i <= |ts| && ParseFactor(ts, i, tm).Some? && At(ts, i).Symbol?
    ensures Sentence(ts, i, tm, ParseFactor(ts, i, tm), x) && IsFactor(x)
  {
    var a := ts[i].leaf;
    if At(ts, i + 1).Relation? {
      x := Compare(a, ts[i + 1].op, ts[i + 2].leaf);
      assert ts[i..i + 3] == [ts[i], ts[i + 1], ts[i + 2]];
    } else {
      x := Atom(a);
      assert ts[i..i + 1] == [ts[i]];
    }
  }

  lemma BangSentence(ts: Tokens, i: nat, tm: bool, y: Syntax)
    requires i < |ts| && ts[i] == NotSign && Sentence(ts, i + 1, tm, ParseFactor(ts, i + 1, tm), y) && IsFactor(y)
    ensures Sentence(ts, i, tm, ParseFactor(ts, i, tm), Bang(y))
  {
    var k := ParseFactor(ts, i + 1, tm).value.1;
    assert ts[i..k] == [ts[i]] + ts[i + 1..k];
  }

  lemma ParensSentence(ts: Tokens, i: nat, tm: bool, y: Syntax)
    requires i < |ts| && ts[i] == Open && Sentence(ts, i + 1, tm, ParseExpr(ts, i + 1, tm), y)
    requires At(ts, ParseExpr(ts, i + 1, tm).value.1) == Close
    ensures Sentence(ts, i, tm, ParseFactor(ts, i, tm), Parens(y))
  {
    var k := ParseExpr(ts, i + 1, tm).value.1;
    Ends(ts, i, k);
  }

  lemma Ends(ts: Tokens, i: nat, k: nat)
    requires i < k < |ts|
    ensures ts[i..k + 1] == [ts[i]] + ts[i + 1..k] + [ts[k]]
  {
    assert ts[i..k + 1] == ts[i..k] + [ts[k]] && ts[i..k] == [ts[i]] + ts[i + 1..k];
  }

  lemma {:induction false} FactorSentence(ts: Tokens, i: nat, tm: bool) returns (x: Syntax)
    requires i <= |ts| && ParseFactor(ts, i, tm).Some?
    ensures Sentence(ts, i, tm, ParseFactor(ts, i, tm), x) && IsFactor(x)
    decreases |ts| - i, 0
  {
    match At(ts, i) {
      case Symbol(_) => { x := SymbolSentence(ts, i, tm); }
      case NotSign => {
        var y := FactorSentence(ts, i + 1, tm);
        BangSentence(ts, i, tm, y);
        x := Bang(y);
      }
      case Open => {
        var y := ExprSentence(ts, i + 1, tm);
        ParensSentence(ts, i, tm, y);
        x := Parens(y);
      }
    }
  }

  lemma BothSentence(ts: Tokens, i: nat, tm: bool, j: nat, l: Syntax, r: Syntax)
    requires i <= |ts| && Sentence(ts, i, tm, ParseFactor(ts, i, tm), l) && IsFactor(l) && !r.Either?
    requires j == ParseFactor(ts, i, tm).value.1 && At(ts, j) == AndSign
    requires j < |ts| && Sentence(ts, j + 1, tm, ParseAndExpr(ts, j + 1, tm), r)
    ensures Sentence(ts, i, tm, ParseAndExpr(ts, i, tm), Both(l, r))
  {
    var k := ParseAndExpr(ts, j + 1, tm).value.1;
    AndMore(ts, i, tm, Meant(l, tm), j, Meant(r, tm), k);
    SpansBinary(ts, i, j, k, l, AndSign, r);
  }

  lemma EitherSentence(ts: Tokens, i: nat, tm: bool, j: nat, l: Syntax, r: Syntax)
    requires i <= |ts| && Sentence(ts, i, tm, ParseAndExpr(ts, i, tm), l) && !l.Either?
    requires j == ParseAndExpr(ts, i, tm).value.1 && At(ts, j) == OrSign
    requires j < |ts| && Sentence(ts, j + 1, tm, ParseExpr(ts, j + 1, tm), r)
    ensures Sentence(ts, i, tm, ParseExpr(ts, i, tm), Either(l, r))
  {
    var k := ParseExpr(ts, j + 1, tm).value.1;
    OrMore(ts, i, tm, Meant(l, tm), j, Meant(r, tm), k);
    SpansBinary(ts, i, j, k, l, OrSign, r);
  }

  lemma {:induction false} AndSentence(ts: Tokens, i: nat, tm: bool) returns (x: Syntax)
    requires i <= |ts| && ParseAndExpr(ts, i, tm).Some?
    ensures Sentence(ts, i, tm, ParseAndExpr(ts, i, tm), x) && !x.Either?
    decreases |ts| - i, 1
  {
    x := FactorSentence(ts, i, tm);
    var j := ParseFactor(ts, i, tm).value.1;
    if At(ts, j) == AndSign {
      var r := AndSentence(ts, j + 1, tm);
      BothSentence(ts, i, tm, j, x, r);
      x := Both(x, r);
    }
  }

  lemma {:induction false} ExprSentence(ts: Tokens, i: nat, tm: bool) returns (x: Syntax)
    requires i <= |ts| && ParseExpr(ts, i, tm).Some?
    ensures Sentence(ts, i, tm, ParseExpr(ts, i, tm), x)
    decreases |ts| - i, 2
  {
    x := AndSentence(ts, i, tm);
    var j := ParseAndExpr(ts, i, tm).value.1;
    if At(ts, j) == OrSign {
      var r := ExprSentence(ts, j + 1, tm);
      EitherSentence(ts, i, tm, j, x, r);
      x := Either(x, r);
    }
  }

  /** Parsing takes all of the tokens and gives the expression exactly if they are a sentence of the grammar that stands
      for it. */
  lemma AcceptedIff(ts: Tokens, tm: bool, e: Expr)
    ensures ParseExpr(ts, 0, tm) == Some((e, |ts|)) <==>
      exists x :: Grammatical(x) && ts == Written(x) && e == Meant(x, tm)
  {
    if ParseExpr(ts, 0, tm) == Some((e, |ts|)) {
      var x := ExprSentence(ts, 0, tm);
      WholeSentence(ts, x);
    }
    if x :| Grammatical(x) && ts == Written(x) && e == Meant(x, tm) { WholeAccepted(ts, tm, x); }
  }

  lemma WholeSentence(ts: Tokens, x: Syntax)
    requires Spans(ts, 0, |ts|, x)
    ensures ts == Written(x)
  {
    assert ts[0..|ts|] == ts;
  }

  lemma WholeAccepted(ts: Tokens, tm: bool, x: Syntax)
    requires Grammatical(x) && ts == Written(x)
    ensures ParseExpr(ts, 0, tm) == Some((Meant(x, tm), |ts|))
  {
    ExprAccepted(ts, 0, tm, x);
  }

  /** Tokens have one meaning, whichever sentence they are read as. */
  lemma Unambiguous(x: Syntax, y: Syntax, tm: bool)
    requires Grammatical(x) && Grammatical(y) && Written(x) == Written(y)
    ensures Meant(x, tm) == Meant(y, tm)
  {
    WholeAccepted(Written(x), tm, x);
    WholeAccepted(Written(x), tm, y);
  }
}
