/** Lexical analysis of one expression line (src/lexer.rs) and the error type
    shared by the whole pipeline (src/ruccerr.rs).

    The input is the line as a sequence of characters; positions are character
    indices. `Scan` is the specification of `Lexer::tokenize`, and the class
    `Lexer` is the token cursor the parser advances. */
module Lexer {

  /** Rust's `i32`. */
  newtype i32 = x: int | -0x8000_0000 <= x < 0x8000_0000

  const I32Max: int := 0x7fff_ffff

  /** The lexer never tracks newlines: every position is on line 1. */
  const Line: nat := 1

  /** Where a token starts or where lexing failed. */
  datatype Point = Point(line: nat, pos: nat)

  datatype TokenKind =
    | Reserved(sym: string)  // one of `Symbols`
    | Integer(value: i32)
    | Eof                    // end of input, always the last token

  datatype Token = Token(kind: TokenKind, point: Point)

  /** `RuccErr`: the three failure kinds of the pipeline. Messages are kept as
      plain strings. */
  datatype RuccErr =
    | ParseErr(msg: string, point: Point)   // bad character or literal
    | TokenErr(msg: string, token: Token)   // token stream does not fit the grammar
    | InsideErr(msg: string)                // cursor past the last token

  datatype Option<+T> = None | Some(value: T)

  /** Rust's `Result<T, RuccErr>`, usable with `:-` as Rust uses `?`. */
  datatype Result<+T> = Ok(value: T) | Err(error: RuccErr) {
    predicate IsFailure() { Err? }
    function PropagateFailure<U>(): Result<U> requires Err? { Err(error) }
    function Extract(): T requires Ok? { value }
  }

  /** The message `head` reports; `file!()` and `line!()` of its call site. */
  const InsideMsg: string := "inside src/lexer.rs 163"

  /** The reserved symbols in the order `parse_reserved` tries them: the
      two-character ones first. */
  const Symbols: seq<string> := ["==", "!=", "<=", ">=", "+", "-", "*", "/", "(", ")", "<", ">"]

  /** `char::is_ascii_whitespace`: space, tab, line feed, form feed and
      carriage return (not vertical tab). */
  predicate IsAsciiWhitespace(c: char) {
    c == ' ' || c == '\t' || c == '\n' || c == 12 as char || c == '\r'
  }

  predicate IsAsciiDigit(c: char) {
    '0' <= c <= '9'
  }

  predicate AllDigits(s: seq<char>) {
    forall i :: 0 <= i < |s| ==> IsAsciiDigit(s[i])
  }

  /** The value of a string of decimal digits, most significant first. */
  function Decimal(s: seq<char>): nat
    requires AllDigits(s)
  {
    if s == [] then 0 else 10 * Decimal(s[..|s| - 1]) + (s[|s| - 1] as int - '0' as int)
  }

  /** `str::parse::<i32>` on a non-empty run of digits: it fails exactly when
      the value does not fit. */
  function ParseI32(digits: seq<char>): (r: Option<i32>)
    requires |digits| > 0 && AllDigits(digits)
    ensures r.Some? <==> Decimal(digits) <= I32Max
    ensures r.Some? ==> r.value as int == Decimal(digits) && r.value >= 0
  {
    var v := Decimal(digits);
    if v <= I32Max then Some(v as i32) else None
  }

  /** The message of a literal that does not fit an `i32`: the digits, then
      how `ParseIntError` displays a positive overflow (the only way a run of
      ASCII digits can fail to parse). */
  function IntErrMsg(digits: seq<char>): string {
    "can't pares " + digits + " number too large to fit in target type"
  }

  /** The end of the maximal run of digits that starts at `i`. */
  function RunEnd(input: seq<char>, i: nat): (e: nat)
    requires i <= |input|
    ensures i <= e <= |input|
    ensures forall k :: i <= k < e ==> IsAsciiDigit(input[k])
    ensures e == |input| || !IsAsciiDigit(input[e])
    decreases |input| - i
  {
    if i < |input| && IsAsciiDigit(input[i]) then RunEnd(input, i + 1) else i
  }

  /** The index of the first symbol of `syms`, from index `k` on, that `rest`
      starts with. */
  function FirstMatch(rest: seq<char>, syms: seq<string>, k: nat): (r: Option<nat>)
    requires k <= |syms|
    ensures r.Some? ==> k <= r.value < |syms| && syms[r.value] <= rest
    ensures r.Some? ==> forall j :: k <= j < r.value ==> !(syms[j] <= rest)
    ensures r.None? ==> forall j :: k <= j < |syms| ==> !(syms[j] <= rest)
    decreases |syms| - k
  {
    if k == |syms| then None
    else if syms[k] <= rest then Some(k)
    else FirstMatch(rest, syms, k + 1)
  }

  /** What `parse_reserved` returns for the remaining input `rest` at `cur`. */
  function ReservedAt(rest: seq<char>, line: nat, cur: nat): (r: Result<Token>)
    requires |rest| > 0
    ensures r.Ok? ==> r.value.point == Point(line, cur) && r.value.kind.Reserved?
                      && 0 < |r.value.kind.sym|
    ensures r.Err? ==> r.error == ParseErr("unexpected " + [rest[0]], Point(line, cur))
  {
    match FirstMatch(rest, Symbols, 0)
    case Some(j) => Ok(Token(Reserved(Symbols[j]), Point(line, cur)))
    case None => Err(ParseErr("unexpected " + [rest[0]], Point(line, cur)))
  }

  /** A token together with the index just past its text. */
  datatype Lexeme = Lexeme(token: Token, end: nat)

  /** The one token whose text starts at `cur`, which is not whitespace: a
      maximal run of digits that must fit an `i32`, or else a reserved symbol. */
  function LexToken(input: seq<char>, cur: nat): (r: Result<Lexeme>)
    requires cur < |input| && !IsAsciiWhitespace(input[cur])
    ensures r.Ok? ==> cur < r.value.end <= |input| && r.value.token.point == Point(Line, cur)
    ensures r.Ok? ==> !r.value.token.kind.Eof?
  {
    if IsAsciiDigit(input[cur]) then
      var tail := RunEnd(input, cur + 1);
      match ParseI32(input[cur..tail])
      case None => Err(ParseErr(IntErrMsg(input[cur..tail]), Point(Line, cur)))
      case Some(v) => Ok(Lexeme(Token(Integer(v), Point(Line, cur)), tail))
    else
      var t :- ReservedAt(input[cur..], Line, cur);
      Ok(Lexeme(t, cur + |t.kind.sym|))
  }

  /** The tokens of `input[cur..]`, or the first lexing error there. This is
      what `tokenize` computes, stated from the end of the input backwards. */
  function Scan(input: seq<char>, cur: nat): (r: Result<seq<Token>>)
    requires cur <= |input|
    ensures r.Ok? ==> |r.value| >= 1 && r.value[|r.value| - 1] == Token(Eof, Point(Line, |input|))
    ensures r.Err? ==> r.error.ParseErr? && r.error.point.line == Line && cur <= r.error.point.pos < |input|
    decreases |input| - cur
  {
    if cur == |input| then Ok([Token(Eof, Point(Line, cur))])
    else if IsAsciiWhitespace(input[cur]) then Scan(input, cur + 1)
    else
      var lx :- LexToken(input, cur);
      var rest :- Scan(input, lx.end);
      assert ([lx.token] + rest)[|rest|] == rest[|rest| - 1];
      Ok([lx.token] + rest)
  }

  /** `prefix` followed by the tokens of a successful result. */
  function Prepend(prefix: seq<Token>, r: Result<seq<Token>>): Result<seq<Token>> {
    match r
    case Ok(ts) => Ok(prefix + ts)
    case Err(e) => Err(e)
  }

  /** `Lexer::head`: the token under the cursor, or `InsideErr` past the end. */
  function Head(tokens: seq<Token>, position: nat): (r: Result<Token>)
    ensures r.Ok? <==> position < |tokens|
    ensures r.Ok? ==> r.value == tokens[position]
    ensures r.Err? ==> r.error == InsideErr(InsideMsg)
  {
    if position < |tokens| then Ok(tokens[position]) else Err(InsideErr(InsideMsg))
  }

  /** What `consume_reserved(t)` answers at `position`; on `Ok(true)` the cursor
      moves one token on. */
  function ConsumeAt(tokens: seq<Token>, position: nat, t: string): (r: Result<bool>)
    ensures r.Ok? <==> position < |tokens|
    ensures r.Ok? ==> (r.value <==> tokens[position].kind == Reserved(t))
    ensures r.Err? ==> r.error == InsideErr(InsideMsg)
  {
    var h :- Head(tokens, position);
    Ok(h.kind.Reserved? && h.kind.sym == t)
  }

  /** What `expect_reserved(t)` answers at `position`; on `Ok` the cursor moves
      one token on. */
  function ExpectReservedAt(tokens: seq<Token>, position: nat, t: string): (r: Result<()>)
    ensures r.Ok? <==> position < |tokens| && tokens[position].kind == Reserved(t)
    ensures position < |tokens| && r.Err? ==> r.error == TokenErr("unexpected", tokens[position])
    ensures position >= |tokens| ==> r == Err(InsideErr(InsideMsg))
  {
    var consumed :- ConsumeAt(tokens, position, t);
    // `consume_reserved` succeeded, so the second `head()` cannot fail
    if consumed then Ok(()) else Err(TokenErr("unexpected", tokens[position]))
  }

  /** What `expect_number` answers at `position`; on `Ok` the cursor moves one
      token on. */
  function ExpectNumberAt(tokens: seq<Token>, position: nat): (r: Result<i32>)
    ensures r.Ok? <==> position < |tokens| && tokens[position].kind.Integer?
    ensures r.Ok? ==> tokens[position].kind == Integer(r.value)
    ensures position < |tokens| && r.Err? ==> r.error == TokenErr("unexpected", tokens[position])
    ensures position >= |tokens| ==> r == Err(InsideErr(InsideMsg))
  {
    var h :- Head(tokens, position);
    if h.kind.Integer? then Ok(h.kind.value) else Err(TokenErr("unexpected", h))
  }

  /** The token sequence and the parser's cursor into it. */
  class Lexer {
    const tokens: seq<Token>
    var position: nat

    constructor (tokens: seq<Token>)
      ensures this.tokens == tokens && position == 0
    {
      this.tokens := tokens;
      position := 0;
    }

    /** `Lexer::new`: tokenize, then put the cursor on the first token. */
    static method New(input: string) returns (r: Result<Lexer>)
      ensures Scan(input, 0).Err? ==> r == Err(Scan(input, 0).error)
      ensures Scan(input, 0).Ok? ==>
                (r.Ok? && fresh(r.value) && r.value.tokens == Scan(input, 0).value && r.value.position == 0)
    {
      var tkn :- Tokenize(input);
      var lex := new Lexer(tkn);
      return Ok(lex);
    }

    /** `Lexer::tokenize`: one left-to-right pass that skips whitespace, reads
        maximal digit runs and reserved symbols, and appends `Eof`. */
    static method Tokenize(input: string) returns (r: Result<seq<Token>>)
      ensures r == Scan(input, 0)
    {
      var tkn: seq<Token> := [];
      var cur: nat := 0;
      PrependNothing(Scan(input, 0));
      while cur < |input|
        invariant cur <= |input|
        invariant Scan(input, 0) == Prepend(tkn, Scan(input, cur))
        decreases |input| - cur
      {
        if IsAsciiWhitespace(input[cur]) {
          ScanWhitespace(input, cur);
          cur := cur + 1;
          continue;
        }
        ScanToken(input, cur);
        var lx :- ReadToken(input, cur);
        PrependTwice(tkn, [lx.token], Scan(input, lx.end));
        tkn, cur := tkn + [lx.token], lx.end;
      }
      tkn := tkn + [Token(Eof, Point(Line, cur))];
      return Ok(tkn);
    }

    /** The step of `tokenize` that reads the token at `cur` (the
        `let t = if c.is_ascii_digit() { .. } else { .. }` block): a maximal
        digit run parsed as an `i32`, or else a reserved symbol. */
    static method ReadToken(input: string, cur: nat) returns (r: Result<Lexeme>)
      requires cur < |input| && !IsAsciiWhitespace(input[cur])
      ensures r == LexToken(input, cur)
    {
      if IsAsciiDigit(input[cur]) {
        var tail := cur + 1;
        while tail < |input| && IsAsciiDigit(input[tail])
          invariant cur + 1 <= tail <= |input|
          invariant RunEnd(input, tail) == RunEnd(input, cur + 1)
          decreases |input| - tail
        {
          tail := tail + 1;
        }
        var v := ParseI32(input[cur..tail]);
        if v.None? {
          return Err(ParseErr(IntErrMsg(input[cur..tail]), Point(Line, cur)));
        }
        return Ok(Lexeme(Token(Integer(v.value), Point(Line, cur)), tail));
      }
      var t, next := ParseReserved(input[cur..], Line, cur);
      var token :- t;
      return Ok(Lexeme(token, next));
    }

    /** `Lexer::parse_reserved`: the first symbol of `Symbols` that `rest`
        starts with; `cur` moves past it. */
    static method ParseReserved(rest: seq<char>, line: nat, cur: nat) returns (r: Result<Token>, cur': nat)
      requires |rest| > 0
      ensures r == ReservedAt(rest, line, cur)
      ensures cur' == if r.Ok? then cur + |r.value.kind.sym| else cur
    {
      for k := 0 to |Symbols|
        invariant FirstMatch(rest, Symbols, k) == FirstMatch(rest, Symbols, 0)
      {
        if Symbols[k] <= rest {
          return Ok(Token(Reserved(Symbols[k]), Point(line, cur))), cur + |Symbols[k]|;
        }
      }
      return Err(ParseErr("unexpected " + [rest[0]], Point(line, cur))), cur;
    }

    /** `consume_reserved(t)`: true, and one token on, iff the head is `t`. */
    method ConsumeReserved(t: string) returns (r: Result<bool>)
      modifies this
      ensures r == ConsumeAt(tokens, old(position), t)
      ensures position == if r == Ok(true) then old(position) + 1 else old(position)
    {
      var h :- Head(tokens, position);
      if h.kind.Reserved? && h.kind.sym == t {
        position := position + 1;
        return Ok(true);
      }
      return Ok(false);
    }

    /** `expect_reserved(t)`: like `consume_reserved`, but a mismatch is a
        `TokenErr` carrying the head token. */
    method ExpectReserved(t: string) returns (r: Result<()>)
      modifies this
      ensures r == ExpectReservedAt(tokens, old(position), t)
      ensures position == if r.Ok? then old(position) + 1 else old(position)
    {
      var consumed :- ConsumeReserved(t);
      if consumed {
        return Ok(());
      }
      return Err(TokenErr("unexpected", tokens[position]));
    }

    /** `expect_number`: the head's value, and one token on, iff the head is
        an integer. */
    method ExpectNumber() returns (r: Result<i32>)
      modifies this
      ensures r == ExpectNumberAt(tokens, old(position))
      ensures position == if r.Ok? then old(position) + 1 else old(position)
    {
      var h :- Head(tokens, position);
      if h.kind.Integer? {
        position := position + 1;
        return Ok(h.kind.value);
      }
      return Err(TokenErr("unexpected", h));
    }
  }

  /** Whitespace is skipped one character at a time. */
  lemma ScanWhitespace(input: seq<char>, cur: nat)
    requires cur < |input| && IsAsciiWhitespace(input[cur])
    ensures Scan(input, cur) == Scan(input, cur + 1)
  {
  }

  /** One step of `Scan` over a token. */
  lemma ScanToken(input: seq<char>, cur: nat)
    requires cur < |input| && !IsAsciiWhitespace(input[cur])
    ensures Scan(input, cur) == match LexToken(input, cur)
                                case Ok(lx) => Prepend([lx.token], Scan(input, lx.end))
                                case Err(e) => Err(e)
  {
  }

  /** `LexToken` on a character that is not a digit is `parse_reserved`. */
  lemma LexReserved(input: seq<char>, cur: nat)
    requires cur < |input| && !IsAsciiWhitespace(input[cur]) && !IsAsciiDigit(input[cur])
    ensures LexToken(input, cur) == match ReservedAt(input[cur..], Line, cur)
                                    case Ok(t) => Ok(Lexeme(t, cur + |t.kind.sym|))
                                    case Err(e) => Err(e)
  {
  }

  lemma PrependNothing(r: Result<seq<Token>>)
    ensures Prepend([], r) == r
  {
    if r.Ok? {
      assert [] + r.value == r.value;
    }
  }

  lemma PrependTwice(a: seq<Token>, b: seq<Token>, r: Result<seq<Token>>)
    ensures Prepend(a, Prepend(b, r)) == Prepend(a + b, r)
  {
    if r.Ok? {
      assert a + (b + r.value) == (a + b) + r.value;
    }
  }
}
