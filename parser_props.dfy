/** What the grammar of src/parser.rs guarantees: how signs and parentheses
    are read, where the binary levels stop, and that parsing inverts a fully
    parenthesised printer of trees. */
module ParserProps {
  import opened Lexer
  import opened Bintree
  import opened Parser

  /** A leaf holding `v`. */
  function Num(v: i32): Ast {
    NewNodeNum(v)
  }

  function Bin(op: NodeBinOperator, l: Ast, r: Ast): Ast {
    NewNode(BinOperator(op), l, r)
  }

  // ---------------------------------------------------------------------
  // Single rules

  /** `unary`: a leading `+` is dropped without adding a node. */
  lemma UnaryPlus(toks: seq<Token>, pos: nat)
    requires pos < |toks| && toks[pos].kind == Reserved("+")
    ensures UnaryAt(toks, pos) == UnaryAt(toks, pos + 1)
  {
  }

  /** `unary`: a leading `-` makes `Minus` over the leaf `0` and the operand. */
  lemma UnaryMinus(toks: seq<Token>, pos: nat)
    requires pos < |toks| && toks[pos].kind == Reserved("-")
    ensures UnaryAt(toks, pos).Ok? <==> UnaryAt(toks, pos + 1).Ok?
    ensures UnaryAt(toks, pos).Ok? ==>
              UnaryAt(toks, pos).value
                == Parsed(Bin(Minus, Num(0), UnaryAt(toks, pos + 1).value.tree), UnaryAt(toks, pos + 1).value.next)
    ensures UnaryAt(toks, pos).Err? ==> UnaryAt(toks, pos).error == UnaryAt(toks, pos + 1).error
  {
  }

  /** An integer token is a primary, and so a unary, on its own. */
  lemma Number(toks: seq<Token>, pos: nat)
    requires pos < |toks| && toks[pos].kind.Integer?
    ensures PrimaryAt(toks, pos) == Ok(Parsed(Num(toks[pos].kind.value), pos + 1))
    ensures UnaryAt(toks, pos) == PrimaryAt(toks, pos)
  {
  }

  /** `primary`: a parenthesised expression is the inner tree, and a missing
      `)` is a `TokenErr` carrying the token found instead. */
  lemma Parenthesised(toks: seq<Token>, pos: nat)
    requires pos < |toks| && toks[pos].kind == Reserved("(")
    ensures ExprAt(toks, pos + 1).Err? ==> PrimaryAt(toks, pos) == ExprAt(toks, pos + 1)
    ensures ExprAt(toks, pos + 1).Ok? ==>
              var e := ExprAt(toks, pos + 1).value;
              && (e.next < |toks| && toks[e.next].kind == Reserved(")") ==>
                    PrimaryAt(toks, pos) == Ok(Parsed(e.tree, e.next + 1)))
              && (e.next < |toks| && toks[e.next].kind != Reserved(")") ==>
                    PrimaryAt(toks, pos) == Err(TokenErr("unexpected", toks[e.next])))
    ensures UnaryAt(toks, pos) == PrimaryAt(toks, pos)
  {
  }

  /** `primary`: an expression between `(` and `)` is a unary. */
  lemma Enclosed(toks: seq<Token>, pos: nat, t: Ast, e: nat)
    requires pos < |toks| && toks[pos].kind == Reserved("(")
    requires ExprAt(toks, pos + 1) == Ok(Parsed(t, e))
    requires e < |toks| && toks[e].kind == Reserved(")")
    ensures UnaryAt(toks, pos) == Ok(Parsed(t, e + 1))
  {
    Parenthesised(toks, pos);
  }

  /** `primary`: a token that is neither `(` nor an integer where an operand
      is expected is a `TokenErr` carrying that token. */
  lemma NotAnOperand(toks: seq<Token>, pos: nat)
    requires pos < |toks| && toks[pos].kind != Reserved("(") && !toks[pos].kind.Integer?
    ensures PrimaryAt(toks, pos) == Err(TokenErr("unexpected", toks[pos]))
  {
  }

  // ---------------------------------------------------------------------
  // Where the loops of the binary levels stop

  predicate MulSymbol(k: TokenKind) {
    k == Reserved("*") || k == Reserved("/")
  }

  predicate AddSymbol(k: TokenKind) {
    k == Reserved("+") || k == Reserved("-")
  }

  predicate RelationalSymbol(k: TokenKind) {
    k == Reserved("<") || k == Reserved("<=") || k == Reserved(">") || k == Reserved(">=")
  }

  predicate EqualitySymbol(k: TokenKind) {
    k == Reserved("==") || k == Reserved("!=")
  }

  /** A token that ends an expression at every level. */
  predicate Closing(k: TokenKind) {
    !MulSymbol(k) && !AddSymbol(k) && !RelationalSymbol(k) && !EqualitySymbol(k)
  }

  lemma MulStops(toks: seq<Token>, l: Ast, pos: nat)
    requires pos < |toks| && WellFormed(l) && !MulSymbol(toks[pos].kind)
    ensures MulLoop(toks, l, pos) == Ok(Parsed(l, pos))
  {
    assert MulOp(toks, pos) == Ok(None);
  }

  lemma AddStops(toks: seq<Token>, l: Ast, pos: nat)
    requires pos < |toks| && WellFormed(l) && !AddSymbol(toks[pos].kind)
    ensures AddLoop(toks, l, pos) == Ok(Parsed(l, pos))
  {
    assert AddOp(toks, pos) == Ok(None);
  }

  lemma RelationalStops(toks: seq<Token>, l: Ast, pos: nat)
    requires pos < |toks| && WellFormed(l) && !RelationalSymbol(toks[pos].kind)
    ensures RelationalLoop(toks, l, pos) == Ok(Parsed(l, pos))
  {
    assert RelationalOp(toks, pos) == Ok(None);
  }

  lemma EqualityStops(toks: seq<Token>, l: Ast, pos: nat)
    requires pos < |toks| && WellFormed(l) && !EqualitySymbol(toks[pos].kind)
    ensures EqualityLoop(toks, l, pos) == Ok(Parsed(l, pos))
  {
    assert EqualityOp(toks, pos) == Ok(None);
  }

  /** A rule's result is the next rule's when the loop of the next level
      finds none of its operators after it. */
  lemma MulOfUnary(toks: seq<Token>, pos: nat, a: Ast, e: nat)
    requires pos <= |toks| && UnaryAt(toks, pos) == Ok(Parsed(a, e))
    requires e < |toks| && !MulSymbol(toks[e].kind)
    ensures MulAt(toks, pos) == Ok(Parsed(a, e))
  {
    MulStops(toks, a, e);
  }

  lemma AddOfMul(toks: seq<Token>, pos: nat, a: Ast, e: nat)
    requires pos <= |toks| && MulAt(toks, pos) == Ok(Parsed(a, e))
    requires e < |toks| && !AddSymbol(toks[e].kind)
    ensures AddAt(toks, pos) == Ok(Parsed(a, e))
  {
    AddStops(toks, a, e);
  }

  lemma RelationalOfAdd(toks: seq<Token>, pos: nat, a: Ast, e: nat)
    requires pos <= |toks| && AddAt(toks, pos) == Ok(Parsed(a, e))
    requires e < |toks| && !RelationalSymbol(toks[e].kind)
    ensures RelationalAt(toks, pos) == Ok(Parsed(a, e))
  {
    RelationalStops(toks, a, e);
  }

  lemma ExprOfRelational(toks: seq<Token>, pos: nat, a: Ast, e: nat)
    requires pos <= |toks| && RelationalAt(toks, pos) == Ok(Parsed(a, e))
    requires e < |toks| && !EqualitySymbol(toks[e].kind)
    ensures ExprAt(toks, pos) == Ok(Parsed(a, e))
  {
    EqualityStops(toks, a, e);
    assert EqualityAt(toks, pos) == Ok(Parsed(a, e));
  }

  /** A unary followed by a closing token is a whole expression. */
  lemma ExprOfUnary(toks: seq<Token>, pos: nat, a: Ast, e: nat)
    requires pos <= |toks| && UnaryAt(toks, pos) == Ok(Parsed(a, e))
    requires e < |toks| && Closing(toks[e].kind)
    ensures MulAt(toks, pos) == Ok(Parsed(a, e))
    ensures AddAt(toks, pos) == Ok(Parsed(a, e))
    ensures RelationalAt(toks, pos) == Ok(Parsed(a, e))
    ensures ExprAt(toks, pos) == Ok(Parsed(a, e))
  {
    MulOfUnary(toks, pos, a, e);
    AddOfMul(toks, pos, a, e);
    RelationalOfAdd(toks, pos, a, e);
    ExprOfRelational(toks, pos, a, e);
  }

  /** Each binary level consumes one of its operators, parses the next
      operand one level down, and loops on with the accumulator as the left
      child; `>` and `>=` put it on the right instead. */
  lemma MulTurn(toks: seq<Token>, l: Ast, pos: nat, r: Ast, e: nat)
    requires pos < |toks| && WellFormed(l) && MulSymbol(toks[pos].kind)
    requires UnaryAt(toks, pos + 1) == Ok(Parsed(r, e))
    ensures toks[pos].kind == Reserved("*") ==> MulLoop(toks, l, pos) == MulLoop(toks, Bin(Mul, l, r), e)
    ensures toks[pos].kind == Reserved("/") ==> MulLoop(toks, l, pos) == MulLoop(toks, Bin(Div, l, r), e)
  {
  }

  lemma AddTurn(toks: seq<Token>, l: Ast, pos: nat, r: Ast, e: nat)
    requires pos < |toks| && WellFormed(l) && AddSymbol(toks[pos].kind)
    requires MulAt(toks, pos + 1) == Ok(Parsed(r, e))
    ensures toks[pos].kind == Reserved("+") ==> AddLoop(toks, l, pos) == AddLoop(toks, Bin(Plus, l, r), e)
    ensures toks[pos].kind == Reserved("-") ==> AddLoop(toks, l, pos) == AddLoop(toks, Bin(Minus, l, r), e)
  {
  }

  lemma RelationalTurn(toks: seq<Token>, l: Ast, pos: nat, r: Ast, e: nat)
    requires pos < |toks| && WellFormed(l) && RelationalSymbol(toks[pos].kind)
    requires AddAt(toks, pos + 1) == Ok(Parsed(r, e))
    ensures toks[pos].kind == Reserved("<") ==>
              RelationalLoop(toks, l, pos) == RelationalLoop(toks, Bin(LessThan, l, r), e)
    ensures toks[pos].kind == Reserved("<=") ==>
              RelationalLoop(toks, l, pos) == RelationalLoop(toks, Bin(LessEq, l, r), e)
    ensures toks[pos].kind == Reserved(">") ==>
              RelationalLoop(toks, l, pos) == RelationalLoop(toks, Bin(LessThan, r, l), e)
    ensures toks[pos].kind == Reserved(">=") ==>
              RelationalLoop(toks, l, pos) == RelationalLoop(toks, Bin(LessEq, r, l), e)
  {
  }

  lemma EqualityTurn(toks: seq<Token>, l: Ast, pos: nat, r: Ast, e: nat)
    requires pos < |toks| && WellFormed(l) && EqualitySymbol(toks[pos].kind)
    requires RelationalAt(toks, pos + 1) == Ok(Parsed(r, e))
    ensures toks[pos].kind == Reserved("==") ==> EqualityLoop(toks, l, pos) == EqualityLoop(toks, Bin(Eq, l, r), e)
    ensures toks[pos].kind == Reserved("!=") ==> EqualityLoop(toks, l, pos) == EqualityLoop(toks, Bin(Neq, l, r), e)
  {
  }

  // ---------------------------------------------------------------------
  // Parsing inverts a fully parenthesised printer

  /** The symbol the lexer produces for each operator (`>` and `>=` are never
      printed: the parser turns them into `<` and `<=`). */
  function OpSymbol(op: NodeBinOperator): string {
    match op
    case Plus => "+"
    case Minus => "-"
    case Mul => "*"
    case Div => "/"
    case Eq => "=="
    case Neq => "!="
    case LessThan => "<"
    case LessEq => "<="
  }

  /** The tokens of `t` with every operator node in parentheses. */
  function Print(t: Ast): seq<TokenKind> {
    match t
    case Nil => []
    case Node(Operand(Integer(v)), _, _) => [TokenKind.Integer(v)]
    case Node(BinOperator(op), l, r) =>
      [Reserved("(")] + Print(l) + [Reserved(OpSymbol(op))] + Print(r) + [Reserved(")")]
  }

  /** The kinds of `toks` from `pos` on begin with `ks`. */
  predicate KindsAt(toks: seq<Token>, pos: nat, ks: seq<TokenKind>) {
    pos + |ks| <= |toks| && forall i :: 0 <= i < |ks| ==> toks[pos + i].kind == ks[i]
  }

  lemma KindsAtOne(toks: seq<Token>, pos: nat, k: TokenKind)
    requires KindsAt(toks, pos, [k])
    ensures pos < |toks| && toks[pos].kind == k
  {
    assert toks[pos + 0].kind == [k][0];
  }

  /** Kinds that begin with `a + b` begin with `a`, and `b` follows. */
  lemma KindsAtAppend(toks: seq<Token>, pos: nat, a: seq<TokenKind>, b: seq<TokenKind>)
    requires KindsAt(toks, pos, a + b)
    ensures KindsAt(toks, pos, a) && KindsAt(toks, pos + |a|, b)
  {
    forall i | 0 <= i < |a|
      ensures toks[pos + i].kind == a[i]
    {
      assert (a + b)[i] == a[i];
    }
    forall i | 0 <= i < |b|
      ensures toks[pos + |a| + i].kind == b[i]
    {
      assert toks[pos + (|a| + i)].kind == (a + b)[|a| + i];
    }
  }

  /** `l op r` for each level's operators: with `l` and `r` already parsed
      as unaries, `op`'s symbol between them and a closing token after them,
      it is one `op` node at every level. */
  lemma MulNode(toks: seq<Token>, pos: nat, op: NodeBinOperator, l: Ast, e1: nat, r: Ast, e2: nat)
    requires op == Mul || op == Div
    requires pos <= |toks| && WellFormed(l) && UnaryAt(toks, pos) == Ok(Parsed(l, e1))
    requires e1 < |toks| && toks[e1].kind == Reserved(OpSymbol(op))
    requires UnaryAt(toks, e1 + 1) == Ok(Parsed(r, e2))
    requires e2 < |toks| && Closing(toks[e2].kind)
    ensures ExprAt(toks, pos) == Ok(Parsed(Bin(op, l, r), e2))
  {
    MulOpSymbol(op);
    var t := Bin(op, l, r);
    MulTurn(toks, l, e1, r, e2);
    MulStops(toks, t, e2);
    assert MulAt(toks, pos) == Ok(Parsed(t, e2));
    AddOfMul(toks, pos, t, e2);
    RelationalOfAdd(toks, pos, t, e2);
    ExprOfRelational(toks, pos, t, e2);
  }

  /** Which level's operator each printed symbol is. */
  lemma MulOpSymbol(op: NodeBinOperator)
    requires op == Mul || op == Div
    ensures MulSymbol(Reserved(OpSymbol(op)))
  {
  }

  lemma AddOpSymbol(op: NodeBinOperator)
    requires op == Plus || op == Minus
    ensures !MulSymbol(Reserved(OpSymbol(op))) && AddSymbol(Reserved(OpSymbol(op)))
  {
  }

  lemma RelationalOpSymbol(op: NodeBinOperator)
    requires op == LessThan || op == LessEq
    ensures var k := Reserved(OpSymbol(op));
      !MulSymbol(k) && !AddSymbol(k) && RelationalSymbol(k)
  {
  }

  lemma EqualityOpSymbol(op: NodeBinOperator)
    requires op == Eq || op == Neq
    ensures var k := Reserved(OpSymbol(op));
      !MulSymbol(k) && !AddSymbol(k) && !RelationalSymbol(k) && EqualitySymbol(k)
  {
  }

  /** Two operands of one level joined by one of the next level's
      operators, with a token after them that ends that level. */
  lemma AddPair(toks: seq<Token>, pos: nat, op: NodeBinOperator, l: Ast, e1: nat, r: Ast, e2: nat)
    requires op == Plus || op == Minus
    requires pos <= |toks| && WellFormed(l) && MulAt(toks, pos) == Ok(Parsed(l, e1))
    requires e1 < |toks| && toks[e1].kind == Reserved(OpSymbol(op))
    requires MulAt(toks, e1 + 1) == Ok(Parsed(r, e2))
    requires e2 < |toks| && !AddSymbol(toks[e2].kind)
    ensures AddAt(toks, pos) == Ok(Parsed(Bin(op, l, r), e2))
  {
    AddTurn(toks, l, e1, r, e2);
    AddStops(toks, Bin(op, l, r), e2);
  }

  lemma RelationalPair(toks: seq<Token>, pos: nat, op: NodeBinOperator, l: Ast, e1: nat, r: Ast, e2: nat)
    requires op == LessThan || op == LessEq
    requires pos <= |toks| && WellFormed(l) && AddAt(toks, pos) == Ok(Parsed(l, e1))
    requires e1 < |toks| && toks[e1].kind == Reserved(OpSymbol(op))
    requires AddAt(toks, e1 + 1) == Ok(Parsed(r, e2))
    requires e2 < |toks| && !RelationalSymbol(toks[e2].kind)
    ensures RelationalAt(toks, pos) == Ok(Parsed(Bin(op, l, r), e2))
  {
    RelationalTurn(toks, l, e1, r, e2);
    RelationalStops(toks, Bin(op, l, r), e2);
  }

  lemma EqualityPair(toks: seq<Token>, pos: nat, op: NodeBinOperator, l: Ast, e1: nat, r: Ast, e2: nat)
    requires op == Eq || op == Neq
    requires pos <= |toks| && WellFormed(l) && RelationalAt(toks, pos) == Ok(Parsed(l, e1))
    requires e1 < |toks| && toks[e1].kind == Reserved(OpSymbol(op))
    requires RelationalAt(toks, e1 + 1) == Ok(Parsed(r, e2))
    requires e2 < |toks| && !EqualitySymbol(toks[e2].kind)
    ensures ExprAt(toks, pos) == Ok(Parsed(Bin(op, l, r), e2))
  {
    EqualityTurn(toks, l, e1, r, e2);
    EqualityStops(toks, Bin(op, l, r), e2);
    assert EqualityAt(toks, pos) == Ok(Parsed(Bin(op, l, r), e2));
  }

  /** A unary followed by a token that is no multiplicative or additive
      operator is an additive expression. */
  lemma AddOfUnary(toks: seq<Token>, pos: nat, a: Ast, e: nat)
    requires pos <= |toks| && UnaryAt(toks, pos) == Ok(Parsed(a, e))
    requires e < |toks| && !MulSymbol(toks[e].kind) && !AddSymbol(toks[e].kind)
    ensures AddAt(toks, pos) == Ok(Parsed(a, e))
  {
    MulOfUnary(toks, pos, a, e);
    AddOfMul(toks, pos, a, e);
  }

  /** A unary followed by a token that is no operator below equality is a
      relational expression. */
  lemma RelationalOfUnary(toks: seq<Token>, pos: nat, a: Ast, e: nat)
    requires pos <= |toks| && UnaryAt(toks, pos) == Ok(Parsed(a, e))
    requires e < |toks| && !MulSymbol(toks[e].kind) && !AddSymbol(toks[e].kind)
    requires !RelationalSymbol(toks[e].kind)
    ensures RelationalAt(toks, pos) == Ok(Parsed(a, e))
  {
    AddOfUnary(toks, pos, a, e);
    RelationalOfAdd(toks, pos, a, e);
  }

  lemma AddNode(toks: seq<Token>, pos: nat, op: NodeBinOperator, l: Ast, e1: nat, r: Ast, e2: nat)
    requires op == Plus || op == Minus
    requires pos <= |toks| && WellFormed(l) && UnaryAt(toks, pos) == Ok(Parsed(l, e1))
    requires e1 < |toks| && toks[e1].kind == Reserved(OpSymbol(op))
    requires UnaryAt(toks, e1 + 1) == Ok(Parsed(r, e2))
    requires e2 < |toks| && Closing(toks[e2].kind)
    ensures ExprAt(toks, pos) == Ok(Parsed(Bin(op, l, r), e2))
  {
    AddOpSymbol(op);
    MulOfUnary(toks, pos, l, e1);
    MulOfUnary(toks, e1 + 1, r, e2);
    AddPair(toks, pos, op, l, e1, r, e2);
    RelationalOfAdd(toks, pos, Bin(op, l, r), e2);
    ExprOfRelational(toks, pos, Bin(op, l, r), e2);
  }

  lemma RelationalNode(toks: seq<Token>, pos: nat, op: NodeBinOperator, l: Ast, e1: nat, r: Ast, e2: nat)
    requires op == LessThan || op == LessEq
    requires pos <= |toks| && WellFormed(l) && UnaryAt(toks, pos) == Ok(Parsed(l, e1))
    requires e1 < |toks| && toks[e1].kind == Reserved(OpSymbol(op))
    requires UnaryAt(toks, e1 + 1) == Ok(Parsed(r, e2))
    requires e2 < |toks| && Closing(toks[e2].kind)
    ensures ExprAt(toks, pos) == Ok(Parsed(Bin(op, l, r), e2))
  {
    RelationalOpSymbol(op);
    AddOfUnary(toks, pos, l, e1);
    AddOfUnary(toks, e1 + 1, r, e2);
    RelationalPair(toks, pos, op, l, e1, r, e2);
    ExprOfRelational(toks, pos, Bin(op, l, r), e2);
  }

  lemma EqualityNode(toks: seq<Token>, pos: nat, op: NodeBinOperator, l: Ast, e1: nat, r: Ast, e2: nat)
    requires op == Eq || op == Neq
    requires pos <= |toks| && WellFormed(l) && UnaryAt(toks, pos) == Ok(Parsed(l, e1))
    requires e1 < |toks| && toks[e1].kind == Reserved(OpSymbol(op))
    requires UnaryAt(toks, e1 + 1) == Ok(Parsed(r, e2))
    requires e2 < |toks| && Closing(toks[e2].kind)
    ensures ExprAt(toks, pos) == Ok(Parsed(Bin(op, l, r), e2))
  {
    EqualityOperands(toks, pos, op, l, e1, r, e2);
    EqualityPair(toks, pos, op, l, e1, r, e2);
  }

  lemma EqualityOperands(toks: seq<Token>, pos: nat, op: NodeBinOperator, l: Ast, e1: nat, r: Ast, e2: nat)
    requires op == Eq || op == Neq
    requires pos <= |toks| && UnaryAt(toks, pos) == Ok(Parsed(l, e1))
    requires e1 < |toks| && toks[e1].kind == Reserved(OpSymbol(op))
    requires UnaryAt(toks, e1 + 1) == Ok(Parsed(r, e2))
    requires e2 < |toks| && Closing(toks[e2].kind)
    ensures RelationalAt(toks, pos) == Ok(Parsed(l, e1)) && RelationalAt(toks, e1 + 1) == Ok(Parsed(r, e2))
  {
    EqualityOpSymbol(op);
    RelationalOfUnary(toks, pos, l, e1);
    RelationalOfUnary(toks, e1 + 1, r, e2);
  }

  /** `l op r` followed by `)`, for any operator `op`. */
  lemma ExprOfOperator(toks: seq<Token>, pos: nat, op: NodeBinOperator, l: Ast, e1: nat, r: Ast, e2: nat)
    requires pos <= |toks| && WellFormed(l)
    requires UnaryAt(toks, pos) == Ok(Parsed(l, e1))
    requires e1 < |toks| && toks[e1].kind == Reserved(OpSymbol(op))
    requires UnaryAt(toks, e1 + 1) == Ok(Parsed(r, e2))
    requires e2 < |toks| && toks[e2].kind == Reserved(")")
    ensures ExprAt(toks, pos) == Ok(Parsed(Bin(op, l, r), e2))
  {
    assert Closing(toks[e2].kind);
    match op
    case Mul | Div => MulNode(toks, pos, op, l, e1, r, e2);
    case Plus | Minus => AddNode(toks, pos, op, l, e1, r, e2);
    case LessThan | LessEq => RelationalNode(toks, pos, op, l, e1, r, e2);
    case Eq | Neq => EqualityNode(toks, pos, op, l, e1, r, e2);
  }

  /** Where the parts of `( l op r )` lie among the kinds of `toks`. */
  lemma KindsAtFive(toks: seq<Token>, pos: nat, o: TokenKind, pl: seq<TokenKind>, m: TokenKind,
                    pr: seq<TokenKind>, c: TokenKind, e1: nat, e2: nat)
    requires KindsAt(toks, pos, [o] + pl + [m] + pr + [c])
    requires e1 == pos + 1 + |pl| && e2 == e1 + 1 + |pr|
    ensures pos < |toks| && toks[pos].kind == o && KindsAt(toks, pos + 1, pl)
    ensures e1 < |toks| && toks[e1].kind == m && KindsAt(toks, e1 + 1, pr)
    ensures e2 < |toks| && toks[e2].kind == c
  {
    var a1 := [o] + pl;
    var a2 := a1 + [m];
    var a3 := a2 + pr;
    KindsAtAppend(toks, pos, a3, [c]);
    KindsAtOne(toks, pos + |a3|, c);
    KindsAtAppend(toks, pos, a2, pr);
    KindsAtAppend(toks, pos, a1, [m]);
    KindsAtOne(toks, pos + |a1|, m);
    KindsAtAppend(toks, pos, [o], pl);
    KindsAtOne(toks, pos, o);
  }

  /** The tokens around the operands of `( l op r )`: `(` at `pos`, the
      symbol of `op` at `e1` and `)` at `e2`. */
  predicate Frame(toks: seq<Token>, pos: nat, op: NodeBinOperator, e1: nat, e2: nat) {
    && pos < |toks| && toks[pos].kind == Reserved("(")
    && e1 < |toks| && toks[e1].kind == Reserved(OpSymbol(op))
    && e2 < |toks| && toks[e2].kind == Reserved(")")
  }

  /** The number of tokens `Print` produces for `t`. */
  function Width(t: Ast): nat {
    match t
    case Nil => 0
    case Node(Operand(_), _, _) => 1
    case Node(BinOperator(_), l, r) => Width(l) + Width(r) + 3
  }

  lemma {:induction false} PrintWidth(t: Ast)
    ensures |Print(t)| == Width(t)
  {
    match t
    case Nil =>
    case Node(_, l, r) =>
      PrintWidth(l);
      PrintWidth(r);
  }

  /** `toks` spells `t` fully parenthesised from `pos` on, stated node by
      node. */
  predicate Laid(toks: seq<Token>, pos: nat, t: Ast)
    decreases t
  {
    match t
    case Nil => false
    case Node(Operand(Integer(v)), _, _) => pos < |toks| && toks[pos].kind == TokenKind.Integer(v)
    case Node(BinOperator(op), l, r) =>
      var e1 := pos + 1 + Width(l);
      Frame(toks, pos, op, e1, e1 + 1 + Width(r)) && Laid(toks, pos + 1, l) && Laid(toks, e1 + 1, r)
  }

  /** Tokens whose kinds are `Print(t)` lay out `t` node by node. */
  lemma {:induction false} LaidOfKinds(toks: seq<Token>, pos: nat, t: Ast)
    requires WellFormed(t) && KindsAt(toks, pos, Print(t))
    ensures Laid(toks, pos, t)
    decreases t
  {
    if t.val.Operand? {
      assert toks[pos + 0].kind == Print(t)[0];
    } else {
      PrintedFrame(toks, pos, t);
      LaidOfKinds(toks, pos + 1, t.left);
      LaidOfKinds(toks, pos + 1 + Width(t.left) + 1, t.right);
    }
  }

  /** The frame of a printed operator node, and where its operands are
      printed. */
  lemma PrintedFrame(toks: seq<Token>, pos: nat, t: Ast)
    requires t.Node? && t.val.BinOperator? && KindsAt(toks, pos, Print(t))
    ensures var e1 := pos + 1 + Width(t.left);
      && Frame(toks, pos, t.val.op, e1, e1 + 1 + Width(t.right))
      && KindsAt(toks, pos + 1, Print(t.left)) && KindsAt(toks, e1 + 1, Print(t.right))
  {
    var e1 := pos + 1 + Width(t.left);
    PrintWidth(t.left);
    PrintWidth(t.right);
    KindsAtFive(toks, pos, Reserved("("), Print(t.left), Reserved(OpSymbol(t.val.op)), Print(t.right),
                Reserved(")"), e1, e1 + 1 + Width(t.right));
  }

  /** `( l op r )`, with `l` and `r` already parsed as unaries, is one `op`
      node, and the `)` is consumed. */
  lemma OperatorNode(toks: seq<Token>, pos: nat, op: NodeBinOperator, l: Ast, e1: nat, r: Ast, e2: nat)
    requires Frame(toks, pos, op, e1, e2) && WellFormed(l)
    requires UnaryAt(toks, pos + 1) == Ok(Parsed(l, e1))
    requires UnaryAt(toks, e1 + 1) == Ok(Parsed(r, e2))
    ensures UnaryAt(toks, pos) == Ok(Parsed(Bin(op, l, r), e2 + 1))
  {
    ExprOfOperator(toks, pos + 1, op, l, e1, r, e2);
    Enclosed(toks, pos, Bin(op, l, r), e2);
  }

  /** An operator node laid out from `pos` whose operands parse back parses
      back itself. */
  lemma LaidOperator(toks: seq<Token>, pos: nat, t: Ast)
    requires WellFormed(t) && t.val.BinOperator? && Laid(toks, pos, t)
    requires UnaryAt(toks, pos + 1) == Ok(Parsed(t.left, pos + 1 + Width(t.left)))
    requires UnaryAt(toks, pos + 1 + Width(t.left) + 1)
               == Ok(Parsed(t.right, pos + 1 + Width(t.left) + 1 + Width(t.right)))
    ensures UnaryAt(toks, pos) == Ok(Parsed(t, pos + Width(t)))
  {
    var e1 := pos + 1 + Width(t.left);
    var e2 := e1 + 1 + Width(t.right);
    assert Bin(t.val.op, t.left, t.right) == t;
    OperatorNode(toks, pos, t.val.op, t.left, e1, t.right, e2);
  }

  /** The laid-out tokens of `t` parse back, as a unary, to `t` itself and
      are consumed exactly. */
  lemma {:induction false} PrimaryOfPrint(toks: seq<Token>, pos: nat, t: Ast)
    requires WellFormed(t) && Laid(toks, pos, t)
    ensures UnaryAt(toks, pos) == Ok(Parsed(t, pos + Width(t)))
    decreases t
  {
    if t.val.Operand? {
      Number(toks, pos);
    } else {
      PrimaryOfPrint(toks, pos + 1, t.left);
      PrimaryOfPrint(toks, pos + 1 + Width(t.left) + 1, t.right);
      LaidOperator(toks, pos, t);
    }
  }

  /** Parsing is a left inverse of printing: the printed tokens of any
      well-formed tree, followed by `Eof`, parse to that tree, stopping at
      `Eof`. */
  lemma ParsePrint(t: Ast, toks: seq<Token>)
    requires WellFormed(t)
    requires |toks| == |Print(t)| + 1 && toks[|toks| - 1].kind == Eof
    requires forall i :: 0 <= i < |Print(t)| ==> toks[i].kind == Print(t)[i]
    ensures ExprAt(toks, 0) == Ok(Parsed(t, |Print(t)|))
  {
    LaidOfPrint(t, toks);
    assert Closing(toks[Width(t)].kind) by { assert toks[|Print(t)|].kind == Eof; }
    LaidParses(toks, t);
  }

  /** Tokens that lay `t` out from index 0 and are followed by a token that
      continues no binary level are read back as `t`. */
  lemma LaidParses(toks: seq<Token>, t: Ast)
    requires WellFormed(t) && Laid(toks, 0, t)
    requires Width(t) < |toks| && Closing(toks[Width(t)].kind)
    ensures ExprAt(toks, 0) == Ok(Parsed(t, Width(t)))
  {
    PrimaryOfPrint(toks, 0, t);
    ExprOfUnary(toks, 0, t, Width(t));
  }

  /** The printed tokens of `t` lay it out from index 0. */
  lemma LaidOfPrint(t: Ast, toks: seq<Token>)
    requires WellFormed(t) && |Print(t)| < |toks|
    requires forall i :: 0 <= i < |Print(t)| ==> toks[i].kind == Print(t)[i]
    ensures Laid(toks, 0, t) && Width(t) == |Print(t)|
  {
    forall i | 0 <= i < |Print(t)|
      ensures toks[0 + i].kind == Print(t)[i]
    {
    }
    LaidOfKinds(toks, 0, t);
    PrintWidth(t);
  }

  // ---------------------------------------------------------------------
  // Examples: every token stream of the given shape, as `tokenize` produces
  // for the line in each comment

  /** Precedence: `a + b * c` is `a + (b * c)`. */
  lemma MulBindsTighter(toks: seq<Token>)
    requires |toks| == 6 && toks[0].kind.Integer? && toks[1].kind == Reserved("+") && toks[2].kind.Integer?
    requires toks[3].kind == Reserved("*") && toks[4].kind.Integer? && toks[5].kind == Eof
    ensures var a, b, c := Num(toks[0].kind.value), Num(toks[2].kind.value), Num(toks[4].kind.value);
      ExprAt(toks, 0) == Ok(Parsed(Bin(Plus, a, Bin(NodeBinOperator.Mul, b, c)), 5))
  {
    var a, b, c := Num(toks[0].kind.value), Num(toks[2].kind.value), Num(toks[4].kind.value);
    var m := Bin(NodeBinOperator.Mul, b, c);
    var t := Bin(Plus, a, m);
    Number(toks, 0);
    Number(toks, 2);
    Number(toks, 4);
    MulOfUnary(toks, 0, a, 1);
    MulTurn(toks, b, 3, c, 5);
    MulStops(toks, m, 5);
    assert MulAt(toks, 2) == Ok(Parsed(m, 5));
    AddTurn(toks, a, 1, m, 5);
    AddStops(toks, t, 5);
    assert AddAt(toks, 0) == Ok(Parsed(t, 5));
    RelationalOfAdd(toks, 0, t, 5);
    ExprOfRelational(toks, 0, t, 5);
  }

  /** Left associativity: `a - b - c` is `(a - b) - c`. */
  lemma MinusAssociatesLeft(toks: seq<Token>)
    requires |toks| == 6 && toks[0].kind.Integer? && toks[1].kind == Reserved("-") && toks[2].kind.Integer?
    requires toks[3].kind == Reserved("-") && toks[4].kind.Integer? && toks[5].kind == Eof
    ensures var a, b, c := Num(toks[0].kind.value), Num(toks[2].kind.value), Num(toks[4].kind.value);
      ExprAt(toks, 0) == Ok(Parsed(Bin(Minus, Bin(Minus, a, b), c), 5))
  {
    var a, b, c := Num(toks[0].kind.value), Num(toks[2].kind.value), Num(toks[4].kind.value);
    var d := Bin(Minus, a, b);
    var t := Bin(Minus, d, c);
    Number(toks, 0);
    Number(toks, 2);
    Number(toks, 4);
    MulOfUnary(toks, 0, a, 1);
    MulOfUnary(toks, 2, b, 3);
    MulOfUnary(toks, 4, c, 5);
    AddTurn(toks, a, 1, b, 3);
    AddTurn(toks, d, 3, c, 5);
    AddStops(toks, t, 5);
    assert AddAt(toks, 0) == Ok(Parsed(t, 5));
    RelationalOfAdd(toks, 0, t, 5);
    ExprOfRelational(toks, 0, t, 5);
  }

  /** `a > b` parses to `LessThan(b, a)`, the tree of `b < a`. */
  lemma GreaterSwapsOperands(toks: seq<Token>)
    requires |toks| == 4 && toks[0].kind.Integer? && toks[1].kind == Reserved(">") && toks[2].kind.Integer?
    requires toks[3].kind == Eof
    ensures var a, b := Num(toks[0].kind.value), Num(toks[2].kind.value);
      ExprAt(toks, 0) == Ok(Parsed(Bin(LessThan, b, a), 3))
  {
    var a, b := Num(toks[0].kind.value), Num(toks[2].kind.value);
    var t := Bin(LessThan, b, a);
    Number(toks, 0);
    Number(toks, 2);
    MulOfUnary(toks, 0, a, 1);
    AddOfMul(toks, 0, a, 1);
    ExprOfUnary(toks, 2, b, 3);
    RelationalTurn(toks, a, 1, b, 3);
    RelationalStops(toks, t, 3);
    assert RelationalAt(toks, 0) == Ok(Parsed(t, 3));
    ExprOfRelational(toks, 0, t, 3);
  }

  /** `a < b` parses to `LessThan(a, b)`; with `GreaterSwapsOperands`, `3>2`
      and `2<3` give the same tree. */
  lemma LessKeepsOperands(toks: seq<Token>)
    requires |toks| == 4 && toks[0].kind.Integer? && toks[1].kind == Reserved("<") && toks[2].kind.Integer?
    requires toks[3].kind == Eof
    ensures var a, b := Num(toks[0].kind.value), Num(toks[2].kind.value);
      ExprAt(toks, 0) == Ok(Parsed(Bin(LessThan, a, b), 3))
  {
    var a, b := Num(toks[0].kind.value), Num(toks[2].kind.value);
    var t := Bin(LessThan, a, b);
    Number(toks, 0);
    Number(toks, 2);
    MulOfUnary(toks, 0, a, 1);
    AddOfMul(toks, 0, a, 1);
    ExprOfUnary(toks, 2, b, 3);
    RelationalTurn(toks, a, 1, b, 3);
    RelationalStops(toks, t, 3);
    assert RelationalAt(toks, 0) == Ok(Parsed(t, 3));
    ExprOfRelational(toks, 0, t, 3);
  }

  /** `a +` fails where the second operand is expected, carrying `Eof`. */
  lemma MissingOperand(toks: seq<Token>)
    requires |toks| == 3 && toks[0].kind.Integer? && toks[1].kind == Reserved("+") && toks[2].kind == Eof
    ensures ExprAt(toks, 0) == Err(TokenErr("unexpected", toks[2]))
  {
    var a := Num(toks[0].kind.value);
    Number(toks, 0);
    MulOfUnary(toks, 0, a, 1);
    NotAnOperand(toks, 2);
    var err := Err(TokenErr("unexpected", toks[2]));
    assert UnaryAt(toks, 2) == err;
    assert MulAt(toks, 2) == err;
    assert AddOp(toks, 1) == Ok(Some(Step(Plus, false)));
    assert AddLoop(toks, a, 1) == err;
    assert AddAt(toks, 0) == err;
    assert RelationalAt(toks, 0) == err;
    assert EqualityAt(toks, 0) == err;
  }

  /** `a b` parses to `a` and leaves `b` unconsumed: `parse` does not demand
      `Eof` after the expression. */
  lemma TrailingTokensLeft(toks: seq<Token>)
    requires |toks| == 3 && toks[0].kind.Integer? && toks[1].kind.Integer? && toks[2].kind == Eof
    ensures ExprAt(toks, 0) == Ok(Parsed(Num(toks[0].kind.value), 1))
  {
    Number(toks, 0);
    ExprOfUnary(toks, 0, Num(toks[0].kind.value), 1);
  }
}
