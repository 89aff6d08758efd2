/** The recursive-descent parser (src/parser.rs): one function per grammar
    rule over a token sequence and a cursor index, which is what each rule
    computes, and one method per rule over the `Lexer` cursor, which is how
    the rule computes it.

      expr       = equality
      equality   = relational ("==" relational | "!=" relational)*
      relational = add ("<" add | "<=" add | ">" add | ">=" add)*
      add        = mul ("+" mul | "-" mul)*
      mul        = unary ("*" unary | "/" unary)*
      unary      = "+" unary | "-" unary | primary
      primary    = "(" expr ")" | number

    Each rule function is decreasing in the pair (tokens left, rule level):
    a rule calls a lower rule at the same index or any rule past a consumed
    token.

    Where the source tries several symbols in turn, each `consume_reserved`
    reads the same head token, so only the first of them can fail; the later
    ones keep their error arm as a plain `match`. */
module Parser {
  import opened Lexer
  import opened Bintree

  datatype NodeOperand = Integer(value: i32)

  datatype NodeBinOperator = Plus | Minus | Mul | Div | Eq | Neq | LessThan | LessEq

  datatype NodeKind = Operand(operand: NodeOperand) | BinOperator(op: NodeBinOperator)

  type Ast = BinTree<NodeKind>

  /** A parsed tree and the index of the first token after it. */
  datatype Parsed = Parsed(tree: Ast, next: nat)

  /** The shape every parsed tree has: an operand is a leaf and an operator
      has two well-formed children. */
  predicate WellFormed(t: Ast) {
    match t
    case Nil => false
    case Node(Operand(_), l, r) => l == Nil && r == Nil
    case Node(BinOperator(_), l, r) => WellFormed(l) && WellFormed(r)
  }

  /** No operand of `t` is negative. */
  predicate NonNegative(t: Ast) {
    match t
    case Nil => true
    case Node(k, l, r) => (k.Operand? ==> k.operand.value >= 0) && NonNegative(l) && NonNegative(r)
  }

  /** No integer token is negative, as for every token sequence `tokenize`
      produces. */
  predicate NonNegativeTokens(toks: seq<Token>) {
    forall i :: 0 <= i < |toks| ==> (toks[i].kind.Integer? ==> toks[i].kind.value >= 0)
  }

  /** The token sequence ends with `Eof`, as every `tokenize` output does. */
  predicate EofTerminated(toks: seq<Token>) {
    |toks| > 0 && toks[|toks| - 1].kind.Eof?
  }

  /** What a rule that starts at `pos` and succeeds guarantees: it consumed at
      least one token, built a well-formed tree, copied no negative literal
      from non-negative tokens, and (in an `Eof`-terminated stream) stopped at
      or before `Eof`. On an `Eof`-terminated stream a rule can fail only with
      `TokenErr`: the cursor is never moved past `Eof`, so `head` never fails. */
  predicate RuleResult(toks: seq<Token>, pos: nat, r: Result<Parsed>) {
    && (r.Ok? ==> pos < r.value.next <= |toks| && WellFormed(r.value.tree))
    && (r.Ok? && NonNegativeTokens(toks) ==> NonNegative(r.value.tree))
    && (EofTerminated(toks) && pos < |toks| ==>
          (r.Ok? ==> r.value.next < |toks|) && (r.Err? ==> r.error.TokenErr?))
  }

  /** The same for the loop of a binary level that continues from the
      accumulated tree `l` at `pos`: it may consume nothing. */
  predicate LoopResult(toks: seq<Token>, l: Ast, pos: nat, r: Result<Parsed>) {
    && (r.Ok? ==> pos <= r.value.next <= |toks| && WellFormed(r.value.tree))
    && (r.Ok? && NonNegativeTokens(toks) && NonNegative(l) ==> NonNegative(r.value.tree))
    && (EofTerminated(toks) && pos < |toks| ==>
          (r.Ok? ==> r.value.next < |toks|) && (r.Err? ==> r.error.TokenErr?))
  }

  /** `new_node_num(v)`: a leaf holding the operand `v`. */
  function NewNodeNum(v: i32): (t: Ast)
    ensures WellFormed(t) && Postorder(t) == [Operand(NodeOperand.Integer(v))]
    ensures v >= 0 ==> NonNegative(t)
  {
    NewLeaf(Operand(NodeOperand.Integer(v)))
  }

  /** The operator a binary level found at the head: the node it builds and
      whether the new operand goes on the left. */
  datatype Step = Step(op: NodeBinOperator, swap: bool)

  /** The accumulator `l` joined with the operand `rt` parsed after the
      operator. */
  function Join(s: Step, l: Ast, rt: Ast): (t: Ast)
    ensures t.Node? && t.val == BinOperator(s.op)
    ensures t.left == (if s.swap then rt else l) && t.right == (if s.swap then l else rt)
  {
    if s.swap then NewNode(BinOperator(s.op), rt, l) else NewNode(BinOperator(s.op), l, rt)
  }

  /** The `consume_reserved("==")?` / `consume_reserved("!=")?` tests at the
      head of `equality`'s loop. */
  function EqualityOp(toks: seq<Token>, pos: nat): (r: Result<Option<Step>>)
    ensures r.Ok? <==> pos < |toks|
    ensures r.Err? ==> r.error == InsideErr(InsideMsg)
    ensures r.Ok? ==> (r.value == Some(Step(Eq, false)) <==> toks[pos].kind == Reserved("=="))
    ensures r.Ok? ==> (r.value == Some(Step(Neq, false)) <==> toks[pos].kind == Reserved("!="))
    ensures r.Ok? && r.value.Some? ==> r.value.value in {Step(Eq, false), Step(Neq, false)}
  {
    var eq :- ConsumeAt(toks, pos, "==");
    if eq then Ok(Some(Step(Eq, false)))
    else
      match ConsumeAt(toks, pos, "!=")
      case Err(e) => Err(e)
      case Ok(ne) => if ne then Ok(Some(Step(Neq, false))) else Ok(None)
  }

  /** The four tests at the head of `relational`'s loop: `<` and `<=` keep the
      accumulator on the left, `>` and `>=` build `LessThan` and `LessEq` with
      the operands swapped. */
  function RelationalOp(toks: seq<Token>, pos: nat): (r: Result<Option<Step>>)
    ensures r.Ok? <==> pos < |toks|
    ensures r.Err? ==> r.error == InsideErr(InsideMsg)
    ensures r.Ok? ==> (r.value == Some(Step(LessThan, false)) <==> toks[pos].kind == Reserved("<"))
    ensures r.Ok? ==> (r.value == Some(Step(LessEq, false)) <==> toks[pos].kind == Reserved("<="))
    ensures r.Ok? ==> (r.value == Some(Step(LessThan, true)) <==> toks[pos].kind == Reserved(">"))
    ensures r.Ok? ==> (r.value == Some(Step(LessEq, true)) <==> toks[pos].kind == Reserved(">="))
    ensures r.Ok? && r.value.Some? ==>
              r.value.value in {Step(LessThan, false), Step(LessEq, false), Step(LessThan, true), Step(LessEq, true)}
  {
    var lt :- ConsumeAt(toks, pos, "<");
    if lt then Ok(Some(Step(LessThan, false)))
    else
      match ConsumeAt(toks, pos, "<=")
      case Err(e) => Err(e)
      case Ok(le) =>
        if le then Ok(Some(Step(LessEq, false)))
        else
          match ConsumeAt(toks, pos, ">")
          case Err(e) => Err(e)
          case Ok(gt) =>
            if gt then Ok(Some(Step(LessThan, true)))
            else
              match ConsumeAt(toks, pos, ">=")
              case Err(e) => Err(e)
              case Ok(ge) => if ge then Ok(Some(Step(LessEq, true))) else Ok(None)
  }

  /** The `+` / `-` tests at the head of `add`'s loop. */
  function AddOp(toks: seq<Token>, pos: nat): (r: Result<Option<Step>>)
    ensures r.Ok? <==> pos < |toks|
    ensures r.Err? ==> r.error == InsideErr(InsideMsg)
    ensures r.Ok? ==> (r.value == Some(Step(Plus, false)) <==> toks[pos].kind == Reserved("+"))
    ensures r.Ok? ==> (r.value == Some(Step(Minus, false)) <==> toks[pos].kind == Reserved("-"))
    ensures r.Ok? && r.value.Some? ==> r.value.value in {Step(Plus, false), Step(Minus, false)}
  {
    var plus :- ConsumeAt(toks, pos, "+");
    if plus then Ok(Some(Step(Plus, false)))
    else
      match ConsumeAt(toks, pos, "-")
      case Err(e) => Err(e)
      case Ok(minus) => if minus then Ok(Some(Step(Minus, false))) else Ok(None)
  }

  /** The `*` / `/` tests at the head of `mul`'s loop. */
  function MulOp(toks: seq<Token>, pos: nat): (r: Result<Option<Step>>)
    ensures r.Ok? <==> pos < |toks|
    ensures r.Err? ==> r.error == InsideErr(InsideMsg)
    ensures r.Ok? ==> (r.value == Some(Step(NodeBinOperator.Mul, false)) <==> toks[pos].kind == Reserved("*"))
    ensures r.Ok? ==> (r.value == Some(Step(Div, false)) <==> toks[pos].kind == Reserved("/"))
    ensures r.Ok? && r.value.Some? ==> r.value.value in {Step(NodeBinOperator.Mul, false), Step(Div, false)}
  {
    var times :- ConsumeAt(toks, pos, "*");
    if times then Ok(Some(Step(NodeBinOperator.Mul, false)))
    else
      match ConsumeAt(toks, pos, "/")
      case Err(e) => Err(e)
      case Ok(slash) => if slash then Ok(Some(Step(Div, false))) else Ok(None)
  }

  /** `parse` / `expr`: an equality expression; trailing tokens are left
      alone. */
  function ExprAt(toks: seq<Token>, pos: nat): (r: Result<Parsed>)
    requires pos <= |toks|
    ensures RuleResult(toks, pos, r)
    decreases |toks| - pos, 9
  {
    EqualityAt(toks, pos)
  }

  function EqualityAt(toks: seq<Token>, pos: nat): (r: Result<Parsed>)
    requires pos <= |toks|
    ensures RuleResult(toks, pos, r)
    decreases |toks| - pos, 8
  {
    var l :- RelationalAt(toks, pos);
    EqualityLoop(toks, l.tree, l.next)
  }

  /** The `loop` of `equality` from the accumulator `l` at `pos`: each turn
      consumes an operator, parses the next operand and makes the accumulator
      the left child, until no operator of the level is at the head. */
  function EqualityLoop(toks: seq<Token>, l: Ast, pos: nat): (r: Result<Parsed>)
    requires pos <= |toks| && WellFormed(l)
    ensures LoopResult(toks, l, pos, r)
    decreases |toks| - pos, 8
  {
    var op :- EqualityOp(toks, pos);
    match op
    case None => Ok(Parsed(l, pos))
    case Some(s) =>
      var rt :- RelationalAt(toks, pos + 1);
      EqualityLoop(toks, Join(s, l, rt.tree), rt.next)
  }

  function RelationalAt(toks: seq<Token>, pos: nat): (r: Result<Parsed>)
    requires pos <= |toks|
    ensures RuleResult(toks, pos, r)
    decreases |toks| - pos, 7
  {
    var l :- AddAt(toks, pos);
    RelationalLoop(toks, l.tree, l.next)
  }

  /** The `loop` of `relational`. */
  function RelationalLoop(toks: seq<Token>, l: Ast, pos: nat): (r: Result<Parsed>)
    requires pos <= |toks| && WellFormed(l)
    ensures LoopResult(toks, l, pos, r)
    decreases |toks| - pos, 7
  {
    var op :- RelationalOp(toks, pos);
    match op
    case None => Ok(Parsed(l, pos))
    case Some(s) =>
      var rt :- AddAt(toks, pos + 1);
      RelationalLoop(toks, Join(s, l, rt.tree), rt.next)
  }

  function AddAt(toks: seq<Token>, pos: nat): (r: Result<Parsed>)
    requires pos <= |toks|
    ensures RuleResult(toks, pos, r)
    decreases |toks| - pos, 6
  {
    var l :- MulAt(toks, pos);
    AddLoop(toks, l.tree, l.next)
  }

  /** The `loop` of `add`. */
  function AddLoop(toks: seq<Token>, l: Ast, pos: nat): (r: Result<Parsed>)
    requires pos <= |toks| && WellFormed(l)
    ensures LoopResult(toks, l, pos, r)
    decreases |toks| - pos, 6
  {
    var op :- AddOp(toks, pos);
    match op
    case None => Ok(Parsed(l, pos))
    case Some(s) =>
      var rt :- MulAt(toks, pos + 1);
      AddLoop(toks, Join(s, l, rt.tree), rt.next)
  }

  function MulAt(toks: seq<Token>, pos: nat): (r: Result<Parsed>)
    requires pos <= |toks|
    ensures RuleResult(toks, pos, r)
    decreases |toks| - pos, 5
  {
    var l :- UnaryAt(toks, pos);
    MulLoop(toks, l.tree, l.next)
  }

  /** The `loop` of `mul`. */
  function MulLoop(toks: seq<Token>, l: Ast, pos: nat): (r: Result<Parsed>)
    requires pos <= |toks| && WellFormed(l)
    ensures LoopResult(toks, l, pos, r)
    decreases |toks| - pos, 5
  {
    var op :- MulOp(toks, pos);
    match op
    case None => Ok(Parsed(l, pos))
    case Some(s) =>
      var rt :- UnaryAt(toks, pos + 1);
      MulLoop(toks, Join(s, l, rt.tree), rt.next)
  }

  /** `unary`: a `+` sign adds no node, a `-` sign negates as `0 - x`. */
  function UnaryAt(toks: seq<Token>, pos: nat): (r: Result<Parsed>)
    requires pos <= |toks|
    ensures RuleResult(toks, pos, r)
    decreases |toks| - pos, 4
  {
    var plus :- ConsumeAt(toks, pos, "+");
    if plus then
      UnaryAt(toks, pos + 1)
    else
      match ConsumeAt(toks, pos, "-")
      case Err(e) => Err(e)
      case Ok(minus) =>
        if minus then
          var x :- UnaryAt(toks, pos + 1);
          Ok(Parsed(NewNode(BinOperator(Minus), NewNodeNum(0), x.tree), x.next))
        else
          PrimaryAt(toks, pos)
  }

  /** `primary`: a parenthesised expression or a number. */
  function PrimaryAt(toks: seq<Token>, pos: nat): (r: Result<Parsed>)
    requires pos <= |toks|
    ensures RuleResult(toks, pos, r)
    decreases |toks| - pos, 3
  {
    var open :- ConsumeAt(toks, pos, "(");
    if open then
      var e :- ExprAt(toks, pos + 1);
      var _ :- ExpectReservedAt(toks, e.next, ")");
      Ok(Parsed(e.tree, e.next + 1))
    else
      var v :- ExpectNumberAt(toks, pos);
      Ok(Parsed(NewNodeNum(v), pos + 1))
  }

  /** `r` is what the method returned with the cursor at `position`, and
      `spec` what its rule function answers: the same tree and the cursor on
      the first token after it, or the same error. */
  predicate Agrees(r: Result<Ast>, spec: Result<Parsed>, position: nat) {
    match spec
    case Ok(p) => r == Ok(p.tree) && position == p.next
    case Err(e) => r == Err(e)
  }

  /** `parse`: parse an expression from the cursor on. */
  method Parse(lex: Lexer) returns (r: Result<Ast>)
    requires lex.position <= |lex.tokens|
    modifies lex
    ensures Agrees(r, ExprAt(lex.tokens, old(lex.position)), lex.position)
  {
    r := Expr(lex);
  }

  method Expr(lex: Lexer) returns (r: Result<Ast>)
    requires lex.position <= |lex.tokens|
    modifies lex
    ensures Agrees(r, ExprAt(lex.tokens, old(lex.position)), lex.position)
    decreases |lex.tokens| - lex.position, 9
  {
    r := Equality(lex);
  }

  /** The operator tests at the head of `equality`'s loop, in the source's order;
      a hit consumes the operator. */
  method EqualityOperator(lex: Lexer) returns (r: Result<Option<Step>>)
    modifies lex
    ensures r == EqualityOp(lex.tokens, old(lex.position))
    ensures lex.position == if r.Ok? && r.value.Some? then old(lex.position) + 1 else old(lex.position)
  {
    var eq :- lex.ConsumeReserved("==");
    if eq {
      return Ok(Some(Step(Eq, false)));
    }
    var ne := lex.ConsumeReserved("!=");
    match ne {
      case Err(e) => return Err(e);
      case Ok(_) =>
    }
    if ne.value {
      return Ok(Some(Step(Neq, false)));
    }
    return Ok(None);
  }

  method Equality(lex: Lexer) returns (r: Result<Ast>)
    requires lex.position <= |lex.tokens|
    modifies lex
    ensures Agrees(r, EqualityAt(lex.tokens, old(lex.position)), lex.position)
    decreases |lex.tokens| - lex.position, 8
  {
    var l :- Relational(lex);
    while true
      invariant old(lex.position) < lex.position <= |lex.tokens| && WellFormed(l)
      invariant EqualityAt(lex.tokens, old(lex.position)) == EqualityLoop(lex.tokens, l, lex.position)
      decreases |lex.tokens| - lex.position
    {
      var op :- EqualityOperator(lex);
      if op.None? {
        return Ok(l);
      }
      var rt :- Relational(lex);
      l := Join(op.value, l, rt);
    }
  }

  /** The operator tests at the head of `relational`'s loop, in the source's order;
      a hit consumes the operator. */
  method RelationalOperator(lex: Lexer) returns (r: Result<Option<Step>>)
    modifies lex
    ensures r == RelationalOp(lex.tokens, old(lex.position))
    ensures lex.position == if r.Ok? && r.value.Some? then old(lex.position) + 1 else old(lex.position)
  {
    var lt :- lex.ConsumeReserved("<");
    if lt {
      return Ok(Some(Step(LessThan, false)));
    }
    var le := lex.ConsumeReserved("<=");
    match le {
      case Err(e) => return Err(e);
      case Ok(_) =>
    }
    if le.value {
      return Ok(Some(Step(LessEq, false)));
    }
    var gt := lex.ConsumeReserved(">");
    match gt {
      case Err(e) => return Err(e);
      case Ok(_) =>
    }
    if gt.value {
      return Ok(Some(Step(LessThan, true)));
    }
    var ge := lex.ConsumeReserved(">=");
    match ge {
      case Err(e) => return Err(e);
      case Ok(_) =>
    }
    if ge.value {
      return Ok(Some(Step(LessEq, true)));
    }
    return Ok(None);
  }

  method Relational(lex: Lexer) returns (r: Result<Ast>)
    requires lex.position <= |lex.tokens|
    modifies lex
    ensures Agrees(r, RelationalAt(lex.tokens, old(lex.position)), lex.position)
    decreases |lex.tokens| - lex.position, 7
  {
    var l :- Add(lex);
    while true
      invariant old(lex.position) < lex.position <= |lex.tokens| && WellFormed(l)
      invariant RelationalAt(lex.tokens, old(lex.position)) == RelationalLoop(lex.tokens, l, lex.position)
      decreases |lex.tokens| - lex.position
    {
      var op :- RelationalOperator(lex);
      if op.None? {
        return Ok(l);
      }
      var rt :- Add(lex);
      l := Join(op.value, l, rt);
    }
  }

  /** The operator tests at the head of `add`'s loop, in the source's order;
      a hit consumes the operator. */
  method AddOperator(lex: Lexer) returns (r: Result<Option<Step>>)
    modifies lex
    ensures r == AddOp(lex.tokens, old(lex.position))
    ensures lex.position == if r.Ok? && r.value.Some? then old(lex.position) + 1 else old(lex.position)
  {
    var plus :- lex.ConsumeReserved("+");
    if plus {
      return Ok(Some(Step(Plus, false)));
    }
    var minus := lex.ConsumeReserved("-");
    match minus {
      case Err(e) => return Err(e);
      case Ok(_) =>
    }
    if minus.value {
      return Ok(Some(Step(Minus, false)));
    }
    return Ok(None);
  }

  method Add(lex: Lexer) returns (r: Result<Ast>)
    requires lex.position <= |lex.tokens|
    modifies lex
    ensures Agrees(r, AddAt(lex.tokens, old(lex.position)), lex.position)
    decreases |lex.tokens| - lex.position, 6
  {
    var l :- Mul(lex);
    while true
      invariant old(lex.position) < lex.position <= |lex.tokens| && WellFormed(l)
      invariant AddAt(lex.tokens, old(lex.position)) == AddLoop(lex.tokens, l, lex.position)
      decreases |lex.tokens| - lex.position
    {
      var op :- AddOperator(lex);
      if op.None? {
        return Ok(l);
      }
      var rt :- Mul(lex);
      l := Join(op.value, l, rt);
    }
  }

  /** The operator tests at the head of `mul`'s loop, in the source's order;
      a hit consumes the operator. */
  method MulOperator(lex: Lexer) returns (r: Result<Option<Step>>)
    modifies lex
    ensures r == MulOp(lex.tokens, old(lex.position))
    ensures lex.position == if r.Ok? && r.value.Some? then old(lex.position) + 1 else old(lex.position)
  {
    var times :- lex.ConsumeReserved("*");
    if times {
      return Ok(Some(Step(NodeBinOperator.Mul, false)));
    }
    var slash := lex.ConsumeReserved("/");
    match slash {
      case Err(e) => return Err(e);
      case Ok(_) =>
    }
    if slash.value {
      return Ok(Some(Step(Div, false)));
    }
    return Ok(None);
  }

  method Mul(lex: Lexer) returns (r: Result<Ast>)
    requires lex.position <= |lex.tokens|
    modifies lex
    ensures Agrees(r, MulAt(lex.tokens, old(lex.position)), lex.position)
    decreases |lex.tokens| - lex.position, 5
  {
    var l :- Unary(lex);
    while true
      invariant old(lex.position) < lex.position <= |lex.tokens| && WellFormed(l)
      invariant MulAt(lex.tokens, old(lex.position)) == MulLoop(lex.tokens, l, lex.position)
      decreases |lex.tokens| - lex.position
    {
      var op :- MulOperator(lex);
      if op.None? {
        return Ok(l);
      }
      var rt :- Unary(lex);
      l := Join(op.value, l, rt);
    }
  }

  method Unary(lex: Lexer) returns (r: Result<Ast>)
    requires lex.position <= |lex.tokens|
    modifies lex
    ensures Agrees(r, UnaryAt(lex.tokens, old(lex.position)), lex.position)
    decreases |lex.tokens| - lex.position, 4
  {
    var plus :- lex.ConsumeReserved("+");
    if plus {
      r := Unary(lex);
      return;
    }
    var minus := lex.ConsumeReserved("-");
    match minus {
      case Err(e) => return Err(e);
      case Ok(_) =>
    }
    if minus.value {
      var x :- Unary(lex);
      return Ok(NewNode(BinOperator(Minus), NewNodeNum(0), x));
    }
    r := Primary(lex);
  }

  method Primary(lex: Lexer) returns (r: Result<Ast>)
    requires lex.position <= |lex.tokens|
    modifies lex
    ensures Agrees(r, PrimaryAt(lex.tokens, old(lex.position)), lex.position)
    decreases |lex.tokens| - lex.position, 3
  {
    var open :- lex.ConsumeReserved("(");
    if open {
      var l :- Expr(lex);
      var _ :- lex.ExpectReserved(")");
      return Ok(l);
    }
    var v :- lex.ExpectNumber();
    return Ok(NewNodeNum(v));
  }
}
