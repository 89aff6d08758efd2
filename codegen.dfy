/** Code generation (src/codegen.rs): the assembly lines `gencode` prints for
    a tree, and `run_app`, which wraps them in a fixed preamble and epilogue.

    Each line is modelled as an instruction `Instr` and its exact text
    `Render`. `println!` becomes `Println` on an explicit `Stdout` sink.
    `Disassemble` reads a rendered line back. `Exec` is an abstract stack
    machine over the instructions, and `Eval` is the value the expression
    denotes. */
module Codegen {
  import opened Lexer
  import opened Bintree
  import opened Parser

  /** The condition a `set..` instruction tests. */
  datatype Cond = E | NE | L | LE

  /** One printed line of the body and epilogue. */
  datatype Instr =
    | Push(value: i32)      // push an immediate
    | PopRdi
    | PopRax
    | PushRax
    | AddRax                // rax := rax + rdi
    | SubRax                // rax := rax - rdi
    | ImulRax               // rax := rax * rdi
    | Cqo                   // sign-extend rax into rdx
    | IdivRdi               // rax := rax / rdi
    | CmpRaxRdi             // compare rax with rdi
    | SetAl(cond: Cond)     // al := 1 if the comparison met `cond`, else 0
    | MovzbRaxAl            // rax := al
    | Ret

  /** The decimal digits of `n`, most significant first, without leading
      zeros. */
  function Digits(n: nat): (s: string)
    ensures |s| > 0 && AllDigits(s)
    ensures s[0] == '0' ==> n == 0
    decreases n
  {
    var d := ['0' + (n % 10) as char];
    if n < 10 then d else Digits(n / 10) + d
  }

  /** How `{}` formats an `i32`: a minus sign for a negative value, then the
      digits of its magnitude. */
  function DecimalString(v: i32): (s: string)
    ensures |s| > 0 && (s[0] == '-' || IsAsciiDigit(s[0]))
  {
    if v < 0 then "-" + Digits(-(v as int)) else Digits(v as nat)
  }

  /** The exact text `gencode` and `run_app` print for `i`. The comparison
      lines are printed with a two-space indent and an embedded newline.
      A `push` of an immediate, and only such a line, has a sign or a digit
      right after `    push `. */
  function Render(i: Instr): (s: string)
    ensures i.Push? ==> |s| >= 10 && s[..9] == "    push " && (s[9] == '-' || IsAsciiDigit(s[9]))
    ensures !i.Push? ==> |s| < 10 || (s[9] != '-' && !IsAsciiDigit(s[9]))
  {
    match i
    case Push(v) =>
      var line := "    push " + DecimalString(v);
      assert line[9..] == DecimalString(v);
      line
    case PopRdi => "    pop rdi"
    case PopRax => "    pop rax"
    case PushRax => "    push rax"
    case AddRax => "    add rax, rdi"
    case SubRax => "    sub rax, rdi"
    case ImulRax => "    imul rax, rdi"
    case Cqo => "    cqo"
    case IdivRdi => "    idiv rdi"
    case CmpRaxRdi => "  cmp rax, rdi\n"
    case SetAl(E) => "  sete al\n"
    case SetAl(NE) => "  setne al\n"
    case SetAl(L) => "  setl al\n"
    case SetAl(LE) => "  setle al\n"
    case MovzbRaxAl => "  movzb rax, al\n"
    case Ret => "    ret"
  }

  /** The text of each instruction, in order. */
  function RenderAll(code: seq<Instr>): seq<string> {
    if code == [] then [] else [Render(code[0])] + RenderAll(code[1..])
  }

  /** The lines the operator itself contributes, between the two pops and the
      final push. */
  function OpInstrs(op: NodeBinOperator): (r: seq<Instr>)
    ensures |r| > 0
    ensures forall k :: 0 <= k < |r| ==> !(r[k].Push? || r[k].PopRdi? || r[k].PopRax? || r[k].PushRax? || r[k].Ret?)
  {
    match op
    case Plus => [AddRax]
    case Minus => [SubRax]
    case Mul => [ImulRax]
    case Div => [Cqo, IdivRdi]
    case Eq => [CmpRaxRdi, SetAl(E), MovzbRaxAl]
    case Neq => [CmpRaxRdi, SetAl(NE), MovzbRaxAl]
    case LessThan => [CmpRaxRdi, SetAl(L), MovzbRaxAl]
    case LessEq => [CmpRaxRdi, SetAl(LE), MovzbRaxAl]
  }

  /** What the callback of `gencode` prints for one node. */
  function NodeInstrs(k: NodeKind): (r: seq<Instr>)
    ensures |r| > 0 && (r[|r| - 1].Push? || r[|r| - 1].PushRax?)
    ensures forall j :: 0 <= j < |r| ==> !r[j].Ret?
  {
    match k
    case Operand(Integer(v)) => [Push(v)]
    case BinOperator(op) => [PopRdi, PopRax] + OpInstrs(op) + [PushRax]
  }

  /** The callback's lines for each value, in the order they are visited. */
  function Emit(ks: seq<NodeKind>): seq<Instr> {
    if ks == [] then [] else NodeInstrs(ks[0]) + Emit(ks[1..])
  }

  /** Everything `gencode(t)` prints, as instructions: the callback applied
      along the postorder traversal. */
  function Code(t: Ast): seq<Instr> {
    Emit(Postorder(t))
  }

  /** Everything `gencode(t)` prints. */
  function Listing(t: Ast): seq<string> {
    RenderAll(Code(t))
  }

  /** The three lines `run_app` prints before the body. */
  const Preamble: seq<string> := [".intel_syntax noprefix", ".global main", "main:"]

  /** The instructions `run_app` prints after the body. */
  const Epilogue: seq<Instr> := [PopRax, Ret]

  /** The whole program `run_app` prints for `t`, as instructions. */
  function Program(t: Ast): seq<Instr> {
    Code(t) + Epilogue
  }

  /** The tree `run_app` builds from `input`: `Lexer::new` and then `parse`
      from the first token. */
  function Front(input: string): (r: Result<Ast>)
    ensures r.Ok? ==> WellFormed(r.value)
    ensures r.Err? ==> (r.error.ParseErr? || r.error.TokenErr?) && (r.error.ParseErr? <==> Scan(input, 0).Err?)
  {
    var tokens :- Scan(input, 0);
    var p :- ExprAt(tokens, 0);
    Ok(p.tree)
  }

  /** What `run_app(input)` prints, or the error it returns; on an error
      nothing is printed. */
  function Compile(input: string): (r: Result<seq<string>>)
    ensures r.Ok? <==> Front(input).Ok?
    ensures r.Err? ==> r.error == Front(input).error
    ensures r.Ok? ==> var n := |r.value|;
      n >= |Preamble| + 2 && r.value[..|Preamble|] == Preamble && r.value[n - 2..] == [Render(PopRax), Render(Ret)]
  {
    var t :- Front(input);
    RenderAllAppend(Code(t), Epilogue);
    RenderTwo(PopRax, Ret);
    Ok(Preamble + RenderAll(Program(t)))
  }

  // ---------------------------------------------------------------------
  // Reading the text back

  /** A decimal integer as `DecimalString` writes it, when it fits an `i32`. */
  function ReadInt(s: string): (r: Option<i32>)
    ensures r.Some? ==> |s| > 0
  {
    if |s| > 0 && s[0] == '-' then
      var m := s[1..];
      if |m| > 0 && AllDigits(m) && Decimal(m) <= I32Max + 1 then Some((-(Decimal(m) as int)) as i32) else None
    else if |s| > 0 && AllDigits(s) && Decimal(s) <= I32Max then Some(Decimal(s) as i32)
    else None
  }

  /** The instructions whose text does not depend on an operand. */
  const Fixed: seq<Instr> :=
    [PopRdi, PopRax, PushRax, AddRax, SubRax, ImulRax, Cqo, IdivRdi, CmpRaxRdi,
     SetAl(E), SetAl(NE), SetAl(L), SetAl(LE), MovzbRaxAl, Ret]

  /** The first of `Fixed[k..]` whose text is `line`. */
  function LookupFixed(line: string, k: nat): (r: Option<Instr>)
    requires k <= |Fixed|
    ensures r.Some? ==> Render(r.value) == line
    decreases |Fixed| - k
  {
    if k == |Fixed| then None
    else if Render(Fixed[k]) == line then Some(Fixed[k])
    else LookupFixed(line, k + 1)
  }

  /** The instruction a printed line stands for, if any. */
  function Disassemble(line: string): Option<Instr> {
    var prefix := "    push ";
    match LookupFixed(line, 0)
    case Some(i) => Some(i)
    case None =>
      if |line| > |prefix| && line[..|prefix|] == prefix then
        match ReadInt(line[|prefix|..])
        case Some(v) => Some(Push(v))
        case None => None
      else None
  }

  /** The instructions a listing stands for, if every line stands for one. */
  function DisassembleAll(lines: seq<string>): Option<seq<Instr>> {
    if lines == [] then Some([])
    else
      match (Disassemble(lines[0]), DisassembleAll(lines[1..]))
      case (Some(i), Some(code)) => Some([i] + code)
      case _ => None
  }

  // ---------------------------------------------------------------------
  // An abstract stack machine

  /** The operands of the last `cmp`. */
  datatype Flags = Flags(lhs: int, rhs: int)

  /** The registers and stack the listing uses. Values are unbounded; `al`
      is kept apart from `rax` and `rdx` is not modelled. */
  datatype Machine = Machine(stack: seq<int>, rax: int, rdi: int, al: int, flags: Flags)

  datatype Outcome = Done(after: Machine) | Underflow | DivideError

  /** `idiv`: the quotient rounded toward zero. */
  function TruncDiv(a: int, b: int): (q: int)
    requires b != 0
    ensures var rem := a - q * b;
      && (if rem < 0 then -rem else rem) < (if b < 0 then -b else b)
      && (rem == 0 || (rem < 0) == (a < 0))
  {
    var q := (if a < 0 then -a else a) / (if b < 0 then -b else b);
    if (a < 0) == (b < 0) then q else -q
  }

  function Holds(c: Cond, f: Flags): bool {
    match c
    case E => f.lhs == f.rhs
    case NE => f.lhs != f.rhs
    case L => f.lhs < f.rhs
    case LE => f.lhs <= f.rhs
  }

  /** One instruction. A pop from an empty stack is `Underflow`, a division
      by zero is `DivideError`; `ret` is the end of the program. */
  function Perform(m: Machine, i: Instr): Outcome {
    match i
    case Push(v) => Done(m.(stack := m.stack + [v as int]))
    case PopRdi =>
      if m.stack == [] then Underflow
      else Done(m.(stack := m.stack[..|m.stack| - 1], rdi := m.stack[|m.stack| - 1]))
    case PopRax =>
      if m.stack == [] then Underflow
      else Done(m.(stack := m.stack[..|m.stack| - 1], rax := m.stack[|m.stack| - 1]))
    case PushRax => Done(m.(stack := m.stack + [m.rax]))
    case AddRax => Done(m.(rax := m.rax + m.rdi))
    case SubRax => Done(m.(rax := m.rax - m.rdi))
    case ImulRax => Done(m.(rax := m.rax * m.rdi))
    case Cqo => Done(m)
    case IdivRdi => if m.rdi == 0 then DivideError else Done(m.(rax := TruncDiv(m.rax, m.rdi)))
    case CmpRaxRdi => Done(m.(flags := Flags(m.rax, m.rdi)))
    case SetAl(c) => Done(m.(al := if Holds(c, m.flags) then 1 else 0))
    case MovzbRaxAl => Done(m.(rax := m.al))
    case Ret => Done(m)
  }

  /** The instructions run one after another from `m`. */
  function Exec(code: seq<Instr>, m: Machine): Outcome
    decreases |code|
  {
    if code == [] then Done(m)
    else
      match Perform(m, code[0])
      case Done(m') => Exec(code[1..], m')
      case fault => fault
  }

  /** What the two operands give under `op`, with `rax` holding `a` and `rdi`
      holding `b`; `None` for a division by zero. */
  function Apply(op: NodeBinOperator, a: int, b: int): Option<int> {
    match op
    case Plus => Some(a + b)
    case Minus => Some(a - b)
    case Mul => Some(a * b)
    case Div => if b == 0 then None else Some(TruncDiv(a, b))
    case Eq => Some(if a == b then 1 else 0)
    case Neq => Some(if a != b then 1 else 0)
    case LessThan => Some(if a < b then 1 else 0)
    case LessEq => Some(if a <= b then 1 else 0)
  }

  /** The value of an expression tree, left operand first; `None` when a
      division by zero occurs. */
  function Eval(t: Ast): Option<int> {
    match t
    case Nil => None
    case Node(Operand(Integer(v)), _, _) => Some(v as int)
    case Node(BinOperator(op), l, r) =>
      match (Eval(l), Eval(r))
      case (Some(a), Some(b)) => Apply(op, a, b)
      case _ => None
  }

  // ---------------------------------------------------------------------
  // The printing side

  /** The standard output `println!` writes to, line by line. */
  class Stdout {
    var lines: seq<string>

    constructor ()
      ensures lines == []
    {
      lines := [];
    }

    /** `println!`: one more line. */
    method Println(s: string)
      modifies this
      ensures lines == old(lines) + [s]
    {
      lines := lines + [s];
    }
  }

  /** `println!` of the line for `i`. */
  method Put(i: Instr, out: Stdout)
    modifies out
    ensures out.lines == old(out.lines) + [Render(i)]
  {
    out.Println(Render(i));
  }

  /** The callback `f` of `gencode`: the lines for one node. */
  method EmitNode(k: NodeKind, out: Stdout)
    modifies out
    ensures out.lines == old(out.lines) + RenderAll(NodeInstrs(k))
  {
    match k
    case Operand(Integer(v)) =>
      Put(Push(v), out);
    case BinOperator(op) =>
      ghost var before := out.lines;
      Put(PopRdi, out);
      Put(PopRax, out);
      ghost var popped := out.lines;
      EmitOperator(op, out);
      ghost var computed := out.lines;
      Put(PushRax, out);
      EmitNodeStep(op, before, popped, computed, out.lines);
  }

  /** The inner `match` of the callback: the lines of the operator itself. */
  method EmitOperator(op: NodeBinOperator, out: Stdout)
    modifies out
    ensures out.lines == old(out.lines) + RenderAll(OpInstrs(op))
  {
    match op
    case Plus =>
      Put(AddRax, out);
    case Minus =>
      Put(SubRax, out);
    case Mul =>
      Put(ImulRax, out);
    case Div =>
      Put(Cqo, out);
      Put(IdivRdi, out);
      RenderTwo(Cqo, IdivRdi);
    case Eq =>
      Put(CmpRaxRdi, out);
      Put(SetAl(E), out);
      Put(MovzbRaxAl, out);
      RenderThree(CmpRaxRdi, SetAl(E), MovzbRaxAl);
    case Neq =>
      Put(CmpRaxRdi, out);
      Put(SetAl(NE), out);
      Put(MovzbRaxAl, out);
      RenderThree(CmpRaxRdi, SetAl(NE), MovzbRaxAl);
    case LessThan =>
      Put(CmpRaxRdi, out);
      Put(SetAl(L), out);
      Put(MovzbRaxAl, out);
      RenderThree(CmpRaxRdi, SetAl(L), MovzbRaxAl);
    case LessEq =>
      Put(CmpRaxRdi, out);
      Put(SetAl(LE), out);
      Put(MovzbRaxAl, out);
      RenderThree(CmpRaxRdi, SetAl(LE), MovzbRaxAl);
  }

  /** `postorder_in(t, f)` with the callback of `gencode`: left subtree,
      right subtree, then the node. */
  method GenCode(t: Ast, out: Stdout)
    modifies out
    ensures out.lines == old(out.lines) + Listing(t)
    decreases t
  {
    match t
    case Nil =>
    case Node(v, l, r) =>
      ghost var s0 := out.lines;
      GenCode(l, out);
      ghost var s1 := out.lines;
      GenCode(r, out);
      ghost var s2 := out.lines;
      EmitNode(v, out);
      GenCodeStep(v, l, r, s0, s1, s2, out.lines);
  }

  /** `run_app`: tokenize and parse `input`, then print the preamble, the
      code for the tree and the epilogue; an error is returned before
      anything is printed. */
  method RunApp(input: string, out: Stdout) returns (r: Result<()>)
    modifies out
    ensures Compile(input).Ok? ==> r == Ok(()) && out.lines == old(out.lines) + Compile(input).value
    ensures Compile(input).Err? ==> r == Err(Compile(input).error) && out.lines == old(out.lines)
  {
    var token :- Lexer.New(input);
    var tree :- Parse(token);
    ghost var s0 := out.lines;
    out.Println(".intel_syntax noprefix");
    out.Println(".global main");
    out.Println("main:");
    ghost var s1 := out.lines;
    GenCode(tree, out);
    ghost var s2 := out.lines;
    Put(PopRax, out);
    Put(Ret, out);
    RunAppStep(tree, s0, s1, s2, out.lines);
    return Ok(());
  }

  // ---------------------------------------------------------------------
  // Lemmas the definitions above rely on

  /** Rendering distributes over concatenation. */
  lemma {:induction false} RenderAllAppend(a: seq<Instr>, b: seq<Instr>)
    ensures RenderAll(a + b) == RenderAll(a) + RenderAll(b)
  {
    if a == [] {
      assert a + b == b;
    } else {
      assert (a + b)[1..] == a[1..] + b;
      RenderAllAppend(a[1..], b);
    }
  }

  lemma RenderOne(a: Instr)
    ensures RenderAll([a]) == [Render(a)]
  {
    assert [a][1..] == [];
    assert RenderAll([a]) == [Render(a)] + RenderAll([]);
  }

  lemma RenderTwo(a: Instr, b: Instr)
    ensures RenderAll([a, b]) == [Render(a), Render(b)]
  {
    assert [a, b][1..] == [b];
    RenderOne(b);
  }

  lemma RenderThree(a: Instr, b: Instr, c: Instr)
    ensures RenderAll([a, b, c]) == [Render(a), Render(b), Render(c)]
  {
    assert [a, b, c][1..] == [b, c];
    RenderTwo(b, c);
  }

  /** Emission distributes over concatenation of the visited values. */
  lemma {:induction false} EmitAppend(a: seq<NodeKind>, b: seq<NodeKind>)
    ensures Emit(a + b) == Emit(a) + Emit(b)
  {
    if a == [] {
      assert a + b == b;
    } else {
      assert (a + b)[1..] == a[1..] + b;
      EmitAppend(a[1..], b);
    }
  }

  /** Postorder emission: the code of a node is the code of its left subtree,
      then of its right subtree, then the node's own lines. */
  lemma CodeNode(k: NodeKind, l: Ast, r: Ast)
    ensures Code(Node(k, l, r)) == Code(l) + Code(r) + NodeInstrs(k)
  {
    EmitAppend(Postorder(l), Postorder(r));
    EmitAppend(Postorder(l) + Postorder(r), [k]);
    assert Emit([k]) == NodeInstrs(k) by {
      assert [k][1..] == [];
    }
  }

  /** The two pops, the operator's lines and the push, printed after
      `s0`, are `s0` followed by the node's lines. */
  lemma EmitNodeStep(op: NodeBinOperator, s0: seq<string>, s1: seq<string>, s2: seq<string>, s3: seq<string>)
    requires s1 == s0 + [Render(PopRdi), Render(PopRax)]
    requires s2 == s1 + RenderAll(OpInstrs(op)) && s3 == s2 + [Render(PushRax)]
    ensures s3 == s0 + RenderAll(NodeInstrs(BinOperator(op)))
  {
    RenderAllAppend([PopRdi, PopRax], OpInstrs(op));
    RenderAllAppend([PopRdi, PopRax] + OpInstrs(op), [PushRax]);
  }

  /** The lines printed for the two subtrees and then for the node, after
      `s0`, are `s0` followed by the node's listing. */
  lemma GenCodeStep(v: NodeKind, l: Ast, r: Ast, s0: seq<string>, s1: seq<string>, s2: seq<string>, s3: seq<string>)
    requires s1 == s0 + Listing(l) && s2 == s1 + Listing(r) && s3 == s2 + RenderAll(NodeInstrs(v))
    ensures s3 == s0 + Listing(Node(v, l, r))
  {
    ListingNode(v, l, r);
    ConcatAssoc(s0, Listing(l), Listing(r));
    ConcatAssoc(s0, Listing(l) + Listing(r), RenderAll(NodeInstrs(v)));
  }

  /** The preamble, the body and the epilogue printed after `s0` are `s0`
      followed by what `Compile` promises. */
  lemma RunAppStep(t: Ast, s0: seq<string>, s1: seq<string>, s2: seq<string>, s3: seq<string>)
    requires s1 == s0 + [".intel_syntax noprefix"] + [".global main"] + ["main:"]
    requires s2 == s1 + Listing(t) && s3 == s2 + [Render(PopRax)] + [Render(Ret)]
    ensures s3 == s0 + (Preamble + RenderAll(Program(t)))
  {
    RenderAllAppend(Code(t), Epilogue);
    assert s1 == s0 + Preamble;
    ConcatAssoc(s0, Preamble, Listing(t));
    assert s3 == s0 + Preamble + Listing(t) + RenderAll(Epilogue);
    ConcatAssoc(s0, Preamble + Listing(t), RenderAll(Epilogue));
    ConcatAssoc(Preamble, Listing(t), RenderAll(Epilogue));
  }

  lemma ConcatAssoc<T>(a: seq<T>, b: seq<T>, c: seq<T>)
    ensures a + b + c == a + (b + c)
  {
  }

  /** The same on the printed lines. */
  lemma ListingNode(k: NodeKind, l: Ast, r: Ast)
    ensures Listing(Node(k, l, r)) == Listing(l) + Listing(r) + RenderAll(NodeInstrs(k))
  {
    CodeNode(k, l, r);
    RenderAllAppend(Code(l) + Code(r), NodeInstrs(k));
    RenderAllAppend(Code(l), Code(r));
  }
}
