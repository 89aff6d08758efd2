# rucc, modelled in Dafny

rucc is a small compiler from one arithmetic expression to x86-64 assembly
(Intel syntax). Its core is a four-stage pipeline, and this project models
each stage:

- **Lexer** (`lexer.dfy`, src/lexer.rs). `Lexer::tokenize` skips ASCII
  whitespace and reads maximal runs of decimal digits as `i32` literals. It
  reads the reserved symbols `== != <= >= + - * / ( ) < >` in that order,
  the two-character ones first, and ends the stream with `Eof`. The
  imperative `Lexer.Tokenize` is proved equal to the recursive specification
  `Scan`. The cursor the parser moves over the tokens is the class
  `Lexer.Lexer`, with `head`, `consume_reserved`, `expect_reserved` and
  `expect_number`.
- **Error type** (`RuccErr` in `lexer.dfy`, src/ruccerr.rs:3-8). It has
  three variants, with the payloads of the source's enum:
  - `ParseErr`: a character or literal the lexer rejects;
  - `TokenErr`: a token that does not fit the grammar;
  - `InsideErr`: the cursor moved past the last token.
- **Binary tree** (`bintree.dfy`, src/bintree.rs). This is the generic tree,
  `new_leaf`, `new_node` and the postorder traversal. The traversal is
  modelled as the sequence of values it hands to its callback.
- **Parser** (`parser.dfy`, src/parser.rs). A recursive-descent parser for
  the grammar below:

  ```
  expr       = equality
  equality   = relational ("==" relational | "!=" relational)*
  relational = add ("<" add | "<=" add | ">" add | ">=" add)*
  add        = mul ("+" mul | "-" mul)*
  mul        = unary ("*" unary | "/" unary)*
  unary      = "+" unary | "-" unary | primary
  primary    = "(" expr ")" | number
  ```

  A `>` or `>=` builds `<` or `<=` with its operands swapped. A unary `-x`
  becomes `0 - x`. Each rule has two forms: a pure function over the token
  sequence and an index (`ExprAt` … `PrimaryAt`), and a method over the
  `Lexer` cursor (`Parse` … `Primary`). Each method is proved to return what
  its function returns and to leave the cursor where the function says.
- **Code generator** (`codegen.dfy`, src/codegen.rs). `gencode` walks the
  tree in postorder and prints one group of stack-machine lines per node.
  `run_app` chains the stages and wraps the body in a fixed preamble and
  epilogue. Each printed line is an `Instr` together with its exact text,
  `Render`. `println!` writes to an explicit `Stdout` sink.

The proof files hold the properties:

- `lexer_props.dfy`:
  - the token stream ends with the only `Eof`;
  - positions strictly increase;
  - every token spells its text;
  - an error reports the first offending character or literal, with the
    exact message: everything before it lexes cleanly.
- `parser_props.dfy`:
  - each rule's behaviour one case at a time;
  - precedence and associativity;
  - a round trip: a fully parenthesised token rendering of any well-formed
    tree parses back to that tree.
- `codegen_props.dfy`:
  - every printed line reads back as the instruction it was printed from;
  - the lines follow the postorder traversal;
  - an abstract stack machine that runs the printed instructions never
    underflows, faults exactly on a division by zero, and otherwise leaves
    the expression's value in `rax`.

`Disassemble`, `Exec`, `Perform`, `Machine` and `Eval` are not in the
source. They are reference definitions that give the printed text a meaning
against which `gencode` is checked.

## Model

| member | source | states |
|---|---|---|
| Lexer.ParseI32 | src/lexer.rs:95-103 | parsing a run of digits succeeds exactly when its decimal value is at most `i32::MAX`, and then yields that non-negative value |
| Lexer.RunEnd | src/lexer.rs:91-94 | the scan from `i` stops at the end of the maximal run of digits: every character before it is a digit, and the character at it is not |
| Lexer.FirstMatch | src/lexer.rs:122-128 | the symbol found is the first one in the list that the rest of the input starts with; no symbol found means none of them matches |
| Lexer.ReservedAt | src/lexer.rs:120-132 | on success a non-empty reserved-symbol token at the current point; on failure `ParseErr("unexpected c")` at that point, where `c` is the first character |
| Lexer.LexToken | src/lexer.rs:89-110 | a token read at `cur` ends strictly after `cur`, within the input, carries the point `(1, cur)`, and is never `Eof` |
| Lexer.Head | src/lexer.rs:159-165 | succeeds exactly when the cursor is inside the token sequence, returning the token there; otherwise `InsideErr` with the file and line of the call site |
| Lexer.ConsumeAt | src/lexer.rs:134-142 | fails only past the end, with `InsideErr`; otherwise answers true exactly when the head is the reserved symbol `t` |
| Lexer.ExpectReservedAt | src/lexer.rs:144-149 | succeeds exactly when the head is the reserved symbol `t`; a mismatch is `TokenErr("unexpected", head)`, and past the end it is `InsideErr` |
| Lexer.ExpectNumberAt | src/lexer.rs:151-157 | succeeds exactly when the head is an integer, returning its value; a mismatch is `TokenErr("unexpected", head)`, and past the end it is `InsideErr` |
| Lexer.Lexer.New | src/lexer.rs:69-72 | a lexing error is passed on unchanged; otherwise a fresh cursor over the scanned tokens, at position 0 |
| Lexer.Lexer.Tokenize | src/lexer.rs:74-118 | the left-to-right loop returns exactly `Scan(input, 0)`: the same tokens or the same first error |
| Lexer.Lexer.ReadToken | src/lexer.rs:89-110 | the digit-run loop and the symbol fallback return exactly `LexToken` |
| Lexer.Lexer.ParseReserved | src/lexer.rs:120-132 | the loop over the symbol list returns exactly `ReservedAt`, and advances `cur` by the symbol's length only on success |
| Lexer.Lexer.ConsumeReserved | src/lexer.rs:134-142 | answers `ConsumeAt`; the cursor moves one token on exactly when the answer is `Ok(true)` |
| Lexer.Lexer.ExpectReserved | src/lexer.rs:144-149 | answers `ExpectReservedAt`; the cursor moves one token on exactly on success |
| Lexer.Lexer.ExpectNumber | src/lexer.rs:151-157 | answers `ExpectNumberAt`; the cursor moves one token on exactly on success |
| Lexer.Scan | src/lexer.rs:74-117 | a successful scan ends with `Eof` at line 1, position `|input|`; a failed one is a `ParseErr` on line 1 at a character of the input at or after the start |
| Lexer.ScanWhitespace | src/lexer.rs:83-87 | a whitespace character contributes nothing: scanning from it equals scanning from the next character |
| Lexer.ScanToken | src/lexer.rs:89-112 | at a non-blank character, the scan is the token read there followed by the scan from its end, or the token's error |
| Lexer.LexReserved | src/lexer.rs:107-110 | at a character that is not a digit, reading a token is `parse_reserved` on the rest of the input, ending after the symbol |
| LexerProps.ScanEofOnlyLast | src/lexer.rs:80-115 | no token before the last one is `Eof` |
| LexerProps.ScanBounds | src/lexer.rs:80-115 | every token's position lies between the scan's start and the input's end |
| LexerProps.ScanNonNegative | src/lexer.rs:89-106 | no integer token is negative: literals are unsigned digit runs |
| LexerProps.ScanAscending | src/lexer.rs:80-113 | each token starts strictly after the one before it |
| LexerProps.ScanPositions | src/lexer.rs:80-115 | token positions are in range and strictly increasing between any two tokens, not just neighbours |
| LexerProps.ScanSpells | src/lexer.rs:80-113 | only whitespace lies before the first token and between consecutive tokens, and each non-`Eof` token spells the text at its position: a maximal digit run with its value, or the first symbol that matches |
| LexerProps.LexTokenSpells | src/lexer.rs:89-110 | the token read at `cur` spells the text there, and its text ends where the scan continues |
| LexerProps.ScanError | src/lexer.rs:74-131 | a failed scan is always `ParseErr` on line 1 at a character of the input, and everything before that character lexes cleanly (whitespace and tokens read without error that end before it): it is a digit run above `i32::MAX` with the overflow message, or a character no symbol starts, with `unexpected c` |
| LexerProps.ScanOverflow | src/lexer.rs:74-102 | after text that lexes cleanly, an overflowing literal makes the scan fail with the overflow message at the literal's position |
| LexerProps.ScanUnexpected | src/lexer.rs:74-131 | after text that lexes cleanly, a character that starts no symbol makes the scan fail with `unexpected c` at its position |
| LexerProps.ScanAt | src/lexer.rs:129-131 | the input `@` fails with `unexpected @` at position 0 |
| LexerProps.ScanAfterNumber | src/lexer.rs:89-131 | the input `1@` fails with `unexpected @` at position 1, after the literal `1` |
| LexerProps.ScanNumber | src/lexer.rs:89-117 | a digit string that fits `i32` scans to one integer token with its value, followed by `Eof` at its end |
| LexerProps.ReservedAtMatches | src/lexer.rs:122-131 | `parse_reserved` succeeds exactly when some symbol is a prefix of the rest, and the symbol it returns is in the list and is a prefix |
| LexerProps.SymbolsPrefixFree | src/lexer.rs:122 | no symbol in the list is a prefix of a later one, so trying them in order never shadows a later symbol |
| LexerProps.TwoCharSymbolWhole | src/lexer.rs:122-127 | text that starts with `==`, `!=`, `<=` or `>=` is read as that two-character symbol, never as `<`, `>` or a failure |
| LexerProps.ScanSymbol | src/lexer.rs:120-132 | each symbol, alone, scans to its reserved token followed by `Eof` |
| LexerProps.SymbolShape | src/lexer.rs:122 | every symbol has one or two characters and starts with neither whitespace nor a digit |
| Bintree.NewLeaf | src/bintree.rs:27-29 | a node holding `k` with two empty subtrees; its traversal visits only `k` |
| Bintree.NewNode | src/bintree.rs:31-37 | a node with value `k` and the given children; its traversal is the left's, the right's, then `k` |
| Bintree.Postorder | src/bintree.rs:12-25 | the traversal hands over no value exactly when the tree is empty |
| Bintree.PostorderLength | src/bintree.rs:16-25 | the traversal visits every node exactly once: its length is the tree's node count |
| Bintree.PostorderValues | src/bintree.rs:16-25 | the traversal hands over exactly the values stored in the tree, with multiplicity |
| Bintree.PostorderEndsAtRoot | src/bintree.rs:19-23 | the root's value is visited last |
| Parser.NewNodeNum | src/parser.rs:115-119 | a well-formed leaf holding the operand; non-negative when the value is |
| Parser.Join | src/parser.rs:55-62 | a node for the operator found, with the accumulator on the left and the new operand on the right, or the two swapped for `>` and `>=` |
| Parser.EqualityOp | src/parser.rs:42-46 | fails only past the end; otherwise finds `Eq` exactly at `==`, `Neq` exactly at `!=`, and nothing else |
| Parser.RelationalOp | src/parser.rs:55-63 | fails only past the end; otherwise `<` and `<=` keep the operands in order, `>` and `>=` swap them, each exactly at its symbol |
| Parser.AddOp | src/parser.rs:72-76 | fails only past the end; otherwise `Plus` exactly at `+`, `Minus` exactly at `-` |
| Parser.MulOp | src/parser.rs:85-89 | fails only past the end; otherwise `Mul` exactly at `*`, `Div` exactly at `/` |
| Parser.ExprAt | src/parser.rs:31-37 | on success, at least one token consumed and a well-formed tree with no negative literal from non-negative tokens; on an `Eof`-terminated stream, never past `Eof` and the only error is `TokenErr` |
| Parser.EqualityAt | src/parser.rs:39-50 | the same guarantees for `equality` |
| Parser.EqualityLoop | src/parser.rs:41-49 | the loop keeps the tree well-formed and non-negative, never moves the cursor back, and on an `Eof`-terminated stream fails only with `TokenErr` |
| Parser.RelationalAt | src/parser.rs:52-67 | the same guarantees as `ExprAt`, for `relational` |
| Parser.RelationalLoop | src/parser.rs:54-66 | the same guarantees as `EqualityLoop`, for `relational`'s loop |
| Parser.AddAt | src/parser.rs:69-80 | the same guarantees as `ExprAt`, for `add` |
| Parser.AddLoop | src/parser.rs:71-79 | the same guarantees as `EqualityLoop`, for `add`'s loop |
| Parser.MulAt | src/parser.rs:82-93 | the same guarantees as `ExprAt`, for `mul` |
| Parser.MulLoop | src/parser.rs:84-92 | the same guarantees as `EqualityLoop`, for `mul`'s loop |
| Parser.UnaryAt | src/parser.rs:95-103 | the same guarantees as `ExprAt`, for `unary` |
| Parser.PrimaryAt | src/parser.rs:105-113 | the same guarantees as `ExprAt`, for `primary` |
| Parser.Parse | src/parser.rs:31-33 | returns the tree `ExprAt` builds from the cursor and leaves the cursor just after it, or returns its error |
| Parser.Expr | src/parser.rs:35-37 | agrees with `ExprAt` in result and final cursor |
| Parser.EqualityOperator | src/parser.rs:42-46 | returns `EqualityOp`, and consumes the token exactly when an operator was found |
| Parser.Equality | src/parser.rs:39-50 | the `loop` agrees with `EqualityAt` in result and final cursor |
| Parser.RelationalOperator | src/parser.rs:55-63 | returns `RelationalOp`, and consumes the token exactly when an operator was found |
| Parser.Relational | src/parser.rs:52-67 | the `loop` agrees with `RelationalAt` in result and final cursor |
| Parser.AddOperator | src/parser.rs:72-76 | returns `AddOp`, and consumes the token exactly when an operator was found |
| Parser.Add | src/parser.rs:69-80 | the `loop` agrees with `AddAt` in result and final cursor |
| Parser.MulOperator | src/parser.rs:85-89 | returns `MulOp`, and consumes the token exactly when an operator was found |
| Parser.Mul | src/parser.rs:82-93 | the `loop` agrees with `MulAt` in result and final cursor |
| Parser.Unary | src/parser.rs:95-103 | agrees with `UnaryAt` in result and final cursor |
| Parser.Primary | src/parser.rs:105-113 | agrees with `PrimaryAt` in result and final cursor |
| ParserProps.UnaryPlus | src/parser.rs:96-97 | a leading `+` is dropped: `unary` there is `unary` after it |
| ParserProps.UnaryMinus | src/parser.rs:98-99 | a leading `-` succeeds exactly when the operand does, builds `0 - operand`, and otherwise passes the operand's error on |
| ParserProps.Number | src/parser.rs:111 | an integer token is a leaf of its value, one token consumed, at both `primary` and `unary` |
| ParserProps.Parenthesised | src/parser.rs:106-109 | after `(`, an inner error passes through; a `)` after the inner expression closes it; any other token there is `TokenErr("unexpected", token)` |
| ParserProps.Enclosed | src/parser.rs:106-109 | a parenthesised expression is its inner tree, with the cursor after `)` |
| ParserProps.NotAnOperand | src/parser.rs:105-113 | a token that is neither `(` nor an integer is rejected as `TokenErr("unexpected", token)` |
| ParserProps.MulStops | src/parser.rs:89-91 | `mul`'s loop ends at once, unchanged, at a token other than `*` and `/` |
| ParserProps.AddStops | src/parser.rs:76-78 | `add`'s loop ends at once at a token other than `+` and `-` |
| ParserProps.RelationalStops | src/parser.rs:63-65 | `relational`'s loop ends at once at a token that is not a comparison |
| ParserProps.EqualityStops | src/parser.rs:46-48 | `equality`'s loop ends at once at a token other than `==` and `!=` |
| ParserProps.MulOfUnary | src/parser.rs:82-93 | a `unary` not followed by `*` or `/` is the whole `mul` |
| ParserProps.AddOfMul | src/parser.rs:69-80 | a `mul` not followed by `+` or `-` is the whole `add` |
| ParserProps.RelationalOfAdd | src/parser.rs:52-67 | an `add` not followed by a comparison is the whole `relational` |
| ParserProps.ExprOfRelational | src/parser.rs:35-50 | a `relational` not followed by `==` or `!=` is the whole expression |
| ParserProps.ExprOfUnary | src/parser.rs:35-103 | a `unary` followed by a token that is no binary operator is the whole `mul`, `add`, `relational` and expression |
| ParserProps.MulTurn | src/parser.rs:85-88 | one turn of `mul`'s loop: `*` or `/` and the next `unary` make the accumulator the left child |
| ParserProps.AddTurn | src/parser.rs:72-75 | one turn of `add`'s loop, for `+` and `-` |
| ParserProps.RelationalTurn | src/parser.rs:55-62 | one turn of `relational`'s loop: `<` and `<=` put the accumulator on the left, `>` and `>=` on the right |
| ParserProps.EqualityTurn | src/parser.rs:42-45 | one turn of `equality`'s loop, for `==` and `!=` |
| ParserProps.MulNode | src/parser.rs:82-93 | `a * b` or `a / b` followed by a closing token parses, as an expression, to the single operator node |
| ParserProps.AddPair | src/parser.rs:69-80 | `mul + mul` or `mul - mul`, not followed by `+` or `-`, is one `add` node |
| ParserProps.RelationalPair | src/parser.rs:52-67 | `add < add` or `add <= add`, not followed by a comparison, is one `relational` node |
| ParserProps.EqualityPair | src/parser.rs:39-50 | `relational == relational` or `!=`, not followed by another, is one expression node |
| ParserProps.AddNode | src/parser.rs:69-80 | `a + b` or `a - b` of two `unary`s followed by a closing token is one operator node |
| ParserProps.RelationalNode | src/parser.rs:52-67 | `a < b` or `a <= b` of two `unary`s followed by a closing token is one operator node |
| ParserProps.EqualityNode | src/parser.rs:39-50 | `a == b` or `a != b` of two `unary`s followed by a closing token is one operator node |
| ParserProps.EqualityOperands | src/parser.rs:52-67 | each `unary` next to `==` or `!=` is also the whole `relational` there |
| ParserProps.ExprOfOperator | src/parser.rs:35-93 | any binary operator between two `unary`s, followed by `)`, parses to that one operator node |
| ParserProps.OperatorNode | src/parser.rs:106-109 | `( a op b )` at `unary` level is the operator node, with the cursor after `)` |
| ParserProps.LaidOperator | src/parser.rs:105-113 | a parenthesised operator node laid out in the tokens parses back to that node at `unary` level |
| ParserProps.PrimaryOfPrint | src/parser.rs:95-113 | any well-formed tree laid out fully parenthesised parses back, at `unary` level, to itself and consumes exactly its tokens |
| ParserProps.LaidParses | src/parser.rs:31-113 | tokens that lay out a well-formed tree from index 0, followed by a token that continues no binary level, parse as an expression to that tree and stop at that token |
| ParserProps.ParsePrint | src/parser.rs:31-37 | round trip: the fully parenthesised token rendering of any well-formed tree, followed by `Eof`, parses to that tree |
| ParserProps.MulBindsTighter | src/parser.rs:69-93 | `a + b * c` parses as `a + (b * c)` |
| ParserProps.MinusAssociatesLeft | src/parser.rs:69-80 | `a - b - c` parses as `(a - b) - c` |
| ParserProps.GreaterSwapsOperands | src/parser.rs:59-60 | `a > b` parses as `b < a` |
| ParserProps.LessKeepsOperands | src/parser.rs:55-56 | `a < b` parses as `a < b` |
| ParserProps.MissingOperand | src/parser.rs:105-113 | `a +` followed by `Eof` fails with `TokenErr("unexpected", Eof token)` |
| ParserProps.TrailingTokensLeft | src/parser.rs:31-37 | `parse` stops before tokens it cannot use: `1 2` yields the leaf `1` with the cursor on `2`, and no error |
| Codegen.Digits | src/codegen.rs:12 | the decimal text of a natural number is a non-empty digit string with no leading zero other than `0` itself |
| Codegen.DecimalString | src/codegen.rs:12 | how `{}` formats an `i32`: non-empty, starting with `-` or a digit |
| Codegen.Render | src/codegen.rs:7-57 | a `push` of an immediate prints `    push ` followed by a sign or a digit, and no other line has a sign or a digit in that column |
| Codegen.OpInstrs | src/codegen.rs:19-53 | every operator prints at least one line of its own, none of them a push, a pop or `ret` |
| Codegen.NodeInstrs | src/codegen.rs:7-57 | the callback prints at least one line per node, the last of them a push, and never `ret` |
| Codegen.Front | src/codegen.rs:61-65 | a tree built is well-formed; an error is `ParseErr` exactly when the lexer fails, and otherwise `TokenErr`, never `InsideErr` |
| Codegen.Compile | src/codegen.rs:61-77 | succeeds exactly when the front end does, and otherwise returns its error; the output starts with the preamble and ends with `pop rax` and `ret` |
| Codegen.Stdout.Println | src/codegen.rs:12 | `println!` appends exactly one line to the output and changes nothing else |
| Codegen.Put | src/codegen.rs:17-18 | prints the one line of the instruction |
| Codegen.EmitOperator | src/codegen.rs:19-53 | prints exactly the operator's own lines, in order |
| Codegen.EmitNode | src/codegen.rs:7-57 | the callback prints, for an operand, `push` of its value; for an operator, `pop rdi`, `pop rax`, the operator's lines and `push rax` |
| Codegen.GenCode | src/codegen.rs:6-59 | prints exactly `Listing(t)`, the callback's lines along the postorder traversal |
| Codegen.RunApp | src/codegen.rs:61-77 | on success, prints exactly `Compile(input)`: the preamble, the tree's lines, `pop rax` and `ret`; on a lexing or parsing error, returns that error and prints nothing |
| Codegen.CodeNode | src/codegen.rs:58 | a node's code is its left subtree's code, then its right subtree's, then its own lines |
| Codegen.ListingNode | src/codegen.rs:58 | the same for the printed text |
| CodegenProps.DigitsRoundTrip | src/codegen.rs:12 | reading back the printed digits of `n` gives `n` |
| CodegenProps.ReadDecimalString | src/codegen.rs:12 | reading back the printed text of any `i32`, negative values included, gives that value |
| CodegenProps.PushNonNegative | src/codegen.rs:12 | the line for a non-negative literal is `push ` followed by its digits, with no sign |
| CodegenProps.FixedDistinct | src/codegen.rs:17-54 | no two instructions without an operand print the same line |
| CodegenProps.DisassembleRender | src/codegen.rs:7-57 | every printed line reads back as the instruction it was printed from: no two instructions print the same line |
| CodegenProps.DisassembleListing | src/codegen.rs:6-59 | a whole printed listing reads back as the instruction sequence it came from |
| CodegenProps.ListingLeaf | src/codegen.rs:9-14 | an operand leaf prints exactly `    push <value>` |
| CodegenProps.OperatorLines | src/codegen.rs:16-55 | an operator node's own lines are `pop rdi`, `pop rax`, the operator's lines and `push rax` |
| CodegenProps.ListingOperator | src/codegen.rs:16-58 | an operator node prints its left subtree, its right subtree, then its own lines |
| CodegenProps.ListingMinus | src/codegen.rs:6-59 | the tree of `8 - 3` prints the six lines `push 8`, `push 3`, `pop rdi`, `pop rax`, `sub rax, rdi`, `push rax` |
| CodegenProps.ExecPops | src/codegen.rs:17-18 | the two pops put the top of the stack in `rdi` and the value below it in `rax` |
| CodegenProps.ExecOperator | src/codegen.rs:19-53 | the operator's lines leave in `rax` the operator applied to `rax` and `rdi`, keeping the stack, and fault exactly on a zero divisor |
| CodegenProps.OperatorCompare | src/codegen.rs:33-52 | `cmp`, `set..` and `movzb` leave 1 in `rax` when the comparison holds of `rax` against `rdi`, and 0 otherwise |
| CodegenProps.ExecNode | src/codegen.rs:16-55 | an operator node's lines replace the top two stack values by the operator applied to them, the lower one on the left |
| CodegenProps.ExecCode | src/codegen.rs:6-59 | the code of a well-formed tree never pops an empty stack, faults exactly when evaluation divides by zero, and otherwise pushes exactly the tree's value |
| CodegenProps.ProgramResult | src/codegen.rs:72-76 | from an empty stack, the body followed by `pop rax` and `ret` leaves the tree's value in `rax` and an empty stack |
| CodegenProps.FrontTree | src/codegen.rs:63-65 | no tree `run_app` compiles has a negative literal |
| CodegenProps.CompileRuns | src/codegen.rs:61-77 | the output starts with the three preamble lines; the rest reads back as the program's instructions, which leave the expression's value in `rax` when it has one |

## Left out

- src/main.rs is not part of this model: it reads the argument, reports
  errors and sets the exit status.
- The `Display` impls of `Point`, `TokenKind` and `Token`
  (src/lexer.rs:9-13, 28-36, 44-48) and the accessors `get_pos` and
  `get_point` are left out. They only format or expose fields.
- Positions are `nat`, not `usize`; no input is long enough for the
  difference to matter.
- `line` is always 1, as in the source; `Line` is a constant.
- Lexer.IntErrMsg: the message has the fixed text `ParseIntError` displays
  for a positive overflow. A run of ASCII digits cannot fail in any other
  way.
- Lexer.Head: the `file!()` and `line!()` of its message are the literal
  `src/lexer.rs` and `163`.
- Parser.Parse, Parser.Expr, Parser.Equality, Parser.Relational, Parser.Add,
  Parser.Mul, Parser.Unary, Parser.Primary: each requires the cursor not to
  be past the last token. Every `Lexer` the source builds keeps this: it
  starts at 0 and moves only after `head` has succeeded.
- Parser.EqualityOperator, Parser.RelationalOperator, Parser.AddOperator,
  Parser.MulOperator: each is the `if`/`else if` chain of `consume_reserved`
  calls at the head of a rule's loop, factored into a method. The rule's
  method then builds the node with `Join`.
- Bintree.Postorder: `postorder` takes any callback `&dyn Fn(&T)`. The
  model gives the sequence of values it passes to the callback instead.
  `GenCode` recurses as `postorder_in` does, with the callback fixed to
  `gencode`'s closure (`EmitNode`).
- Codegen.Stdout.Println: output is a sequence of lines. Buffering and I/O
  errors are not modelled. A line the source prints with a trailing `\n`
  (the `cmp`, `set..` and `movzb` lines) stays one string containing that
  newline, so the blank line it produces is not a separate line.
- Codegen.Put, Codegen.EmitOperator: `gencode`'s closure is split into a
  method per printed instruction and a method for the operator's own lines.
  The lines printed and their order are unchanged.
- Codegen.Exec, Codegen.Perform, Codegen.Eval, Codegen.Apply: not in the
  source; the machine is an abstraction. Registers and the stack hold
  unbounded integers, so these are not modelled:
  - the 64-bit wrap-around of `add`, `sub` and `imul`;
  - the `idiv` overflow of the most negative value by -1;
  - `rdx` and what `cqo` writes to it;
  - `al` as the low byte of `rax`.

  `cmp` is modelled as keeping the pair it compared.
- Codegen.Disassemble, Codegen.DisassembleAll, Codegen.ReadInt: not in
  the source. They read the printed text back, as an independent check
  that the text determines the instructions.
- CodegenProps.CompileRuns: the value in `rax` is stated only when the
  expression divides by no zero. Otherwise `ExecCode` shows that the run
  faults.
