/** What the assembly `gencode` and `run_app` print means (src/codegen.rs): the
    text reads back as the instructions it was printed from, the lines
    follow the postorder traversal, and the instructions run on a stack
    machine leave the expression's value on the stack. */
module CodegenProps {
  import opened Lexer
  import opened Bintree
  import opened Parser
  import opened Codegen
  import LexerProps

  // ---------------------------------------------------------------------
  // The text

  /** `Digits` is read back by the lexer's own digit reading. */
  lemma {:induction false} DigitsRoundTrip(n: nat)
    ensures Decimal(Digits(n)) == n
    decreases n
  {
    var d := ['0' + (n % 10) as char];
    if n >= 10 {
      DigitsRoundTrip(n / 10);
      var s := Digits(n);
      assert s == Digits(n / 10) + d;
      assert s[..|s| - 1] == Digits(n / 10);
    }
  }

  /** An `i32` printed by `{}` reads back as itself. */
  lemma ReadDecimalString(v: i32)
    ensures ReadInt(DecimalString(v)) == Some(v)
  {
    if v < 0 {
      var s := DecimalString(v);
      DigitsRoundTrip(-(v as int));
      assert s[1..] == Digits(-(v as int));
    } else {
      DigitsRoundTrip(v as nat);
    }
  }

  /** A non-negative literal is printed as its digits, with no sign. */
  lemma PushNonNegative(v: i32)
    requires v >= 0
    ensures Render(Push(v)) == "    push " + Digits(v as nat)
    ensures AllDigits(Render(Push(v))[9..]) && Decimal(Render(Push(v))[9..]) == v as int
  {
    var s := Render(Push(v));
    assert s[9..] == Digits(v as nat);
    DigitsRoundTrip(v as nat);
  }

  /** Where an instruction without an operand sits in `Fixed`. */
  function FixedIndex(i: Instr): (k: nat)
    requires !i.Push?
    ensures k < |Fixed| && Fixed[k] == i
  {
    match i
    case PopRdi => 0 case PopRax => 1 case PushRax => 2 case AddRax => 3
    case SubRax => 4 case ImulRax => 5 case Cqo => 6 case IdivRdi => 7
    case CmpRaxRdi => 8 case SetAl(E) => 9 case SetAl(NE) => 10
    case SetAl(L) => 11 case SetAl(LE) => 12 case MovzbRaxAl => 13 case Ret => 14
  }

  /** No two fixed instructions print the same line. */
  lemma FixedDistinct(j: nat, k: nat)
    requires j < k < |Fixed|
    ensures Render(Fixed[j]) != Render(Fixed[k])
  {
    var a, b := Render(Fixed[j]), Render(Fixed[k]);
    assert |a| != |b| || a[4] != b[4] || a[5] != b[5] || a[6] != b[6] || a[7] != b[7] || a[9] != b[9];
  }

  /** `LookupFixed` finds the instruction at index `k` of `Fixed` from its
      line. */
  lemma {:induction false} LookupFixedAt(j: nat, k: nat)
    requires j <= k < |Fixed|
    ensures LookupFixed(Render(Fixed[k]), j) == Some(Fixed[k])
    decreases k - j
  {
    if j < k {
      FixedDistinct(j, k);
      LookupFixedAt(j + 1, k);
    }
  }

  /** No line of a `push` with an immediate is a fixed instruction's line. */
  lemma {:induction false} LookupPush(v: i32, j: nat)
    requires j <= |Fixed|
    ensures LookupFixed(Render(Push(v)), j) == None
    decreases |Fixed| - j
  {
    if j < |Fixed| {
      LookupPush(v, j + 1);
    }
  }

  /** Every printed instruction reads back as itself: the listing is
      unambiguous. */
  lemma DisassembleRender(i: Instr)
    ensures Disassemble(Render(i)) == Some(i)
  {
    if i.Push? {
      DisassemblePush(i.value);
    } else {
      DisassembleFixed(i);
    }
  }

  /** A `push` line is no fixed instruction's line, and its operand reads
      back. */
  lemma DisassemblePush(v: i32)
    ensures Disassemble(Render(Push(v))) == Some(Push(v))
  {
    var s := Render(Push(v));
    LookupPush(v, 0);
    ReadDecimalString(v);
    assert s[..9] == "    push ";
    assert s[9..] == DecimalString(v);
  }

  /** A fixed instruction's line is found by `LookupFixed` at its own
      index. */
  lemma DisassembleFixed(i: Instr)
    requires !i.Push?
    ensures Disassemble(Render(i)) == Some(i)
  {
    LookupFixedAt(0, FixedIndex(i));
  }

  /** A whole listing reads back as the instructions it was printed from. */
  lemma {:induction false} DisassembleListing(code: seq<Instr>)
    ensures DisassembleAll(RenderAll(code)) == Some(code)
    decreases |code|
  {
    if code != [] {
      var lines := RenderAll(code);
      assert lines[1..] == RenderAll(code[1..]);
      DisassembleListing(code[1..]);
      DisassembleRender(code[0]);
      assert [code[0]] + code[1..] == code;
    }
  }

  // ---------------------------------------------------------------------
  // The order of the lines

  /** An operand prints one `push` of its value. */
  lemma ListingLeaf(v: i32)
    ensures Listing(NewNodeNum(v)) == ["    push " + DecimalString(v)]
  {
    var k := Operand(NodeOperand.Integer(v));
    CodeNode(k, Nil, Nil);
    assert Code(Nil) == [];
    assert Code(NewNodeNum(v)) == [Push(v)];
    assert [Push(v)][1..] == [];
    assert RenderAll([Push(v)]) == [Render(Push(v))] + RenderAll([]);
  }

  /** An operator prints `pop rdi`, `pop rax`, its own lines and
      `push rax`. */
  lemma OperatorLines(op: NodeBinOperator)
    ensures RenderAll(NodeInstrs(BinOperator(op))) ==
              ["    pop rdi", "    pop rax"] + RenderAll(OpInstrs(op)) + ["    push rax"]
  {
    RenderAllAppend([PopRdi, PopRax], OpInstrs(op));
    RenderAllAppend([PopRdi, PopRax] + OpInstrs(op), [PushRax]);
    assert [PopRdi, PopRax][1..] == [PopRax];
    assert [PopRax][1..] == [] && [PushRax][1..] == [];
  }

  /** An operator node prints its left subtree, its right subtree, then
      `pop rdi`, `pop rax`, the operator's own lines and `push rax`. */
  lemma ListingOperator(op: NodeBinOperator, l: Ast, r: Ast)
    ensures Listing(Node(BinOperator(op), l, r)) ==
              Listing(l) + Listing(r) + (["    pop rdi", "    pop rax"] + RenderAll(OpInstrs(op)) + ["    push rax"])
  {
    ListingNode(BinOperator(op), l, r);
    OperatorLines(op);
  }

  /** `8 - 3` prints the two pushes, the pops and a subtraction. */
  lemma ListingMinus()
    ensures Listing(Node(BinOperator(Minus), NewNodeNum(8), NewNodeNum(3))) ==
              ["    push 8", "    push 3", "    pop rdi", "    pop rax", "    sub rax, rdi", "    push rax"]
  {
    assert Listing(NewNodeNum(8)) == ["    push 8"] by {
      ListingLeaf(8);
      assert DecimalString(8) == "8";
      assert "    push " + "8" == "    push 8";
    }
    assert Listing(NewNodeNum(3)) == ["    push 3"] by {
      ListingLeaf(3);
      assert DecimalString(3) == "3";
      assert "    push " + "3" == "    push 3";
    }
    assert RenderAll(OpInstrs(Minus)) == ["    sub rax, rdi"] by {
      RenderOne(SubRax);
    }
    ListingOperator(Minus, NewNodeNum(8), NewNodeNum(3));
    Flatten("    push 8", "    push 3", "    pop rdi", "    pop rax", "    sub rax, rdi", "    push rax");
  }

  lemma Flatten<T>(a: T, b: T, c: T, d: T, e: T, f: T)
    ensures [a] + [b] + ([c, d] + [e] + [f]) == [a, b, c, d, e, f]
  {
  }

  // ---------------------------------------------------------------------
  // Running the instructions

  /** What is left to run after `o`. */
  function Then(o: Outcome, rest: seq<Instr>): Outcome {
    match o
    case Done(m) => Exec(rest, m)
    case fault => fault
  }

  /** Running `a + b` runs `a`, then `b` from where `a` stopped. */
  lemma {:induction false} ExecAppend(a: seq<Instr>, b: seq<Instr>, m: Machine)
    ensures Exec(a + b, m) == Then(Exec(a, m), b)
    decreases |a|
  {
    if a == [] {
      assert a + b == b;
    } else {
      assert (a + b)[0] == a[0];
      assert (a + b)[1..] == a[1..] + b;
      match Perform(m, a[0]) {
        case Done(m') => ExecAppend(a[1..], b, m');
        case Underflow =>
        case DivideError =>
      }
    }
  }

  /** The two pops put the top of the stack in `rdi` and the value below it
      in `rax`. */
  lemma ExecPops(m: Machine)
    requires |m.stack| >= 2
    ensures var n := |m.stack|;
      Exec([PopRdi, PopRax], m) ==
        Done(m.(stack := m.stack[..n - 2], rdi := m.stack[n - 1], rax := m.stack[n - 2]))
  {
    var n := |m.stack|;
    var m1 := m.(stack := m.stack[..n - 1], rdi := m.stack[n - 1]);
    assert Perform(m, PopRdi) == Done(m1);
    assert m1.stack[..n - 2] == m.stack[..n - 2];
    assert [PopRdi, PopRax][1..] == [PopRax];
  }

  /** The operator's own lines leave in `rax` what `Apply` gives for the
      operands in `rax` and `rdi`, or fault on a zero divisor. */
  lemma ExecOperator(op: NodeBinOperator, m: Machine)
    ensures var o := Exec(OpInstrs(op), m);
      && (Apply(op, m.rax, m.rdi).None? ==> o == DivideError)
      && (Apply(op, m.rax, m.rdi).Some? ==>
            o.Done? && o.after.stack == m.stack && o.after.rax == Apply(op, m.rax, m.rdi).value)
  {
    match op
    case Plus =>
    case Minus =>
    case Mul =>
    case Div =>
      assert [Cqo, IdivRdi][1..] == [IdivRdi];
    case Eq =>
      OperatorCompare(E, m);
    case Neq =>
      OperatorCompare(NE, m);
    case LessThan =>
      OperatorCompare(L, m);
    case LessEq =>
      OperatorCompare(LE, m);
  }

  /** One step of `Exec`. */
  lemma ExecFirst(code: seq<Instr>, m: Machine, m': Machine)
    requires code != [] && Perform(m, code[0]) == Done(m')
    ensures Exec(code, m) == Exec(code[1..], m')
  {
  }

  /** `cmp`, `set..` and `movzb` leave 1 in `rax` when the condition holds
      of `rax` against `rdi`, and 0 otherwise. */
  lemma OperatorCompare(c: Cond, m: Machine)
    ensures var o := Exec([CmpRaxRdi, SetAl(c), MovzbRaxAl], m);
      o.Done? && o.after.stack == m.stack &&
      o.after.rax == if Holds(c, Flags(m.rax, m.rdi)) then 1 else 0
  {
    var code := [CmpRaxRdi, SetAl(c), MovzbRaxAl];
    var m1 := m.(flags := Flags(m.rax, m.rdi));
    var m2 := m1.(al := if Holds(c, m1.flags) then 1 else 0);
    var m3 := m2.(rax := m2.al);
    ExecFirst(code, m, m1);
    assert code[1..] == [SetAl(c), MovzbRaxAl];
    ExecFirst(code[1..], m1, m2);
    assert code[1..][1..] == [MovzbRaxAl];
    ExecFirst(code[1..][1..], m2, m3);
    assert code[1..][1..][1..] == [];
  }

  /** The lines of an operator node replace the top two values of the stack
      by `Apply` of them, the lower one on the left. */
  lemma ExecNode(op: NodeBinOperator, m: Machine)
    requires |m.stack| >= 2
    ensures var n := |m.stack|;
      var o := Exec(NodeInstrs(BinOperator(op)), m);
      var x := Apply(op, m.stack[n - 2], m.stack[n - 1]);
      && (x.None? ==> o == DivideError)
      && (x.Some? ==> o.Done? && o.after.stack == m.stack[..n - 2] + [x.value])
  {
    var n := |m.stack|;
    var m1 := m.(stack := m.stack[..n - 2], rdi := m.stack[n - 1], rax := m.stack[n - 2]);
    ExecPops(m);
    ExecAppend([PopRdi, PopRax], OpInstrs(op), m);
    ExecOperator(op, m1);
    ExecAppend([PopRdi, PopRax] + OpInstrs(op), [PushRax], m);
    var o := Exec([PopRdi, PopRax] + OpInstrs(op), m);
    if o.Done? {
      assert Exec([PushRax], o.after) == Done(o.after.(stack := o.after.stack + [o.after.rax]));
    }
  }

  /** Stack balance: the code of a well-formed tree never pops an empty
      stack, faults exactly when evaluating the tree divides by zero, and
      otherwise pushes exactly the tree's value onto the stack it started
      with. */
  lemma {:induction false} ExecCode(t: Ast, m: Machine)
    requires WellFormed(t)
    ensures var o := Exec(Code(t), m);
      && o != Underflow
      && (Eval(t).None? <==> o == DivideError)
      && (Eval(t).Some? ==> o.Done? && o.after.stack == m.stack + [Eval(t).value])
    decreases t
  {
    match t
    case Node(Operand(Integer(v)), l, r) =>
      CodeNode(t.val, Nil, Nil);
      assert Code(t) == [Push(v)];
    case Node(BinOperator(op), l, r) =>
      CodeNode(t.val, l, r);
      ExecAppend(Code(l) + Code(r), NodeInstrs(t.val), m);
      ExecAppend(Code(l), Code(r), m);
      ExecCode(l, m);
      var o1 := Exec(Code(l), m);
      if o1.Done? {
        ExecCode(r, o1.after);
        var o2 := Exec(Code(r), o1.after);
        if o2.Done? {
          ExecNode(op, o2.after);
          var s := o2.after.stack;
          assert s[..|s| - 2] == m.stack;
        }
      }
  }

  /** The whole program of a tree whose evaluation does not divide by zero,
      run from an empty stack, returns with the tree's value in `rax` and an
      empty stack. */
  lemma ProgramResult(t: Ast, m: Machine)
    requires WellFormed(t) && Eval(t).Some? && m.stack == []
    ensures var o := Exec(Program(t), m);
      o.Done? && o.after.rax == Eval(t).value && o.after.stack == []
  {
    ExecCode(t, m);
    ExecAppend(Code(t), Epilogue, m);
    var m1 := Exec(Code(t), m).after;
    assert Epilogue[1..] == [Ret];
    assert m1.stack[..0] == [];
  }

  /** `idiv` rounds toward zero: `7 / (0 - 2)` evaluates to -3, not to the
      Euclidean -4 (the quotient Dafny's own `/` would give). */
  lemma EvalTruncates()
    ensures Eval(Node(BinOperator(Div), NewNodeNum(7), Node(BinOperator(Minus), NewNodeNum(0), NewNodeNum(2)))) == Some(-3)
  {
  }

  // ---------------------------------------------------------------------
  // The whole pipeline

  /** A tree `run_app` builds holds no negative literal. */
  lemma FrontTree(input: string)
    requires Front(input).Ok?
    ensures NonNegative(Front(input).value)
  {
    LexerProps.ScanNonNegative(input, 0);
  }

  /** End to end: the text `run_app` prints starts with the preamble, the
      rest reads back as the program for the tree, and running that program
      from an empty stack leaves the expression's value in `rax`. */
  lemma CompileRuns(input: string, m: Machine)
    requires Compile(input).Ok? && m.stack == []
    ensures var lines := Compile(input).value;
      && |lines| >= |Preamble| && lines[..|Preamble|] == Preamble
      && DisassembleAll(lines[|Preamble|..]) == Some(Program(Front(input).value))
    ensures Eval(Front(input).value).Some? ==>
              var o := Exec(Program(Front(input).value), m);
              o.Done? && o.after.rax == Eval(Front(input).value).value
  {
    var t := Front(input).value;
    var lines := Compile(input).value;
    assert lines[|Preamble|..] == RenderAll(Program(t));
    DisassembleListing(Program(t));
    FrontTree(input);
    if Eval(t).Some? {
      ProgramResult(t, m);
    }
  }
}
