/** What `Lexer::tokenize` guarantees about the tokens it returns and about
    the errors it reports (src/lexer.rs:74-131). */
module LexerProps {
  import opened Lexer

  /** Every character in `[a, b)` is ASCII whitespace. */
  predicate Blank(input: seq<char>, a: nat, b: nat) {
    a <= b <= |input| && forall k :: a <= k < b ==> IsAsciiWhitespace(input[k])
  }

  /** The text `input[cur..p]` lexes without an error and its last token
      (if any) ends by `p`: every character in it is whitespace or part of a
      token `LexToken` reads successfully. */
  predicate Clean(input: seq<char>, cur: nat, p: nat)
    requires cur <= p <= |input|
    decreases p - cur
  {
    || cur == p
    || (IsAsciiWhitespace(input[cur]) && Clean(input, cur + 1, p))
    || (!IsAsciiWhitespace(input[cur]) && LexToken(input, cur).Ok?
        && LexToken(input, cur).value.end <= p && Clean(input, LexToken(input, cur).value.end, p))
  }

  /** The index just past the text of `t` in `input`. */
  function TextEnd(input: seq<char>, t: Token): nat
    requires t.point.pos <= |input|
  {
    match t.kind
    case Integer(_) => RunEnd(input, t.point.pos)
    case Reserved(s) => t.point.pos + |s|
    case Eof => t.point.pos
  }

  /** `t` is what the characters at its position spell: an integer is the value
      of the maximal digit run there, a symbol is the first of `Symbols` the
      input continues with there. */
  predicate Spells(input: seq<char>, t: Token) {
    var p := t.point.pos;
    t.point.line == Line && p < |input| &&
    match t.kind
    case Integer(v) =>
      IsAsciiDigit(input[p]) && v as int == Decimal(input[p..RunEnd(input, p)])
    case Reserved(s) =>
      !IsAsciiWhitespace(input[p]) && !IsAsciiDigit(input[p]) &&
      var m := FirstMatch(input[p..], Symbols, 0);
      m.Some? && Symbols[m.value] == s && p + |s| <= |input|
    case Eof => false
  }

  /** One token step of a successful scan, stated without `Prepend`. */
  lemma ScanStep(input: seq<char>, cur: nat)
    requires cur < |input| && !IsAsciiWhitespace(input[cur]) && Scan(input, cur).Ok?
    ensures LexToken(input, cur).Ok?
    ensures var lx := LexToken(input, cur).value;
      Scan(input, lx.end).Ok? && Scan(input, cur).value == [lx.token] + Scan(input, lx.end).value
  {
    ScanToken(input, cur);
  }

  /** No token of a successful scan but the last is `Eof`. */
  lemma {:induction false} ScanEofOnlyLast(input: seq<char>, cur: nat)
    requires cur <= |input| && Scan(input, cur).Ok?
    ensures var ts := Scan(input, cur).value;
      forall i :: 0 <= i < |ts| - 1 ==> !ts[i].kind.Eof?
    decreases |input| - cur
  {
    if cur == |input| {
    } else if IsAsciiWhitespace(input[cur]) {
      ScanWhitespace(input, cur);
      ScanEofOnlyLast(input, cur + 1);
    } else {
      var lx := LexToken(input, cur).value;
      ScanStep(input, cur);
      ScanEofOnlyLast(input, lx.end);
      var ts, rest := Scan(input, cur).value, Scan(input, lx.end).value;
      forall i | 0 <= i < |ts| - 1
        ensures !ts[i].kind.Eof?
      {
        if i > 0 {
          assert ts[i] == rest[i - 1];
        }
      }
    }
  }

  /** The positions of a successful scan of `input[cur..]` lie in
      `[cur, |input|]`. */
  lemma {:induction false} ScanBounds(input: seq<char>, cur: nat)
    requires cur <= |input| && Scan(input, cur).Ok?
    ensures var ts := Scan(input, cur).value;
      forall i :: 0 <= i < |ts| ==> cur <= ts[i].point.pos <= |input|
    decreases |input| - cur
  {
    if cur == |input| {
    } else if IsAsciiWhitespace(input[cur]) {
      ScanWhitespace(input, cur);
      ScanBounds(input, cur + 1);
    } else {
      var lx := LexToken(input, cur).value;
      ScanStep(input, cur);
      ScanBounds(input, lx.end);
      var ts, rest := Scan(input, cur).value, Scan(input, lx.end).value;
      forall i | 0 <= i < |ts|
        ensures cur <= ts[i].point.pos <= |input|
      {
        if i > 0 {
          assert ts[i] == rest[i - 1];
        }
      }
    }
  }

  /** Every integer token of a successful scan is non-negative: it is the
      value of a run of digits. */
  lemma {:induction false} ScanNonNegative(input: seq<char>, cur: nat)
    requires cur <= |input| && Scan(input, cur).Ok?
    ensures var ts := Scan(input, cur).value;
      forall i :: 0 <= i < |ts| ==> (ts[i].kind.Integer? ==> ts[i].kind.value >= 0)
    decreases |input| - cur
  {
    if cur == |input| {
    } else if IsAsciiWhitespace(input[cur]) {
      ScanWhitespace(input, cur);
      ScanNonNegative(input, cur + 1);
    } else {
      var lx := LexToken(input, cur).value;
      ScanStep(input, cur);
      ScanNonNegative(input, lx.end);
      var ts, rest := Scan(input, cur).value, Scan(input, lx.end).value;
      forall i | 0 <= i < |ts|
        ensures ts[i].kind.Integer? ==> ts[i].kind.value >= 0
      {
        if i > 0 {
          assert ts[i] == rest[i - 1];
        }
      }
    }
  }

  /** Each token of a successful scan starts after the one before it. */
  lemma {:induction false} ScanAscending(input: seq<char>, cur: nat)
    requires cur <= |input| && Scan(input, cur).Ok?
    ensures var ts := Scan(input, cur).value;
      forall i :: 0 <= i < |ts| - 1 ==> ts[i].point.pos < ts[i + 1].point.pos
    decreases |input| - cur
  {
    if cur == |input| {
    } else if IsAsciiWhitespace(input[cur]) {
      ScanWhitespace(input, cur);
      ScanAscending(input, cur + 1);
    } else {
      var lx := LexToken(input, cur).value;
      ScanStep(input, cur);
      ScanAscending(input, lx.end);
      ScanBounds(input, lx.end);
      var rest := Scan(input, lx.end).value;
      assert rest[0].point.pos >= lx.end;
      AscendingCons(lx.token, rest);
    }
  }

  /** A token placed before an ascending sequence whose first position is
      larger keeps it ascending. */
  lemma AscendingCons(t: Token, rest: seq<Token>)
    requires |rest| > 0 && t.point.pos < rest[0].point.pos
    requires forall i :: 0 <= i < |rest| - 1 ==> rest[i].point.pos < rest[i + 1].point.pos
    ensures var ts := [t] + rest;
      forall i :: 0 <= i < |ts| - 1 ==> ts[i].point.pos < ts[i + 1].point.pos
  {
    var ts := [t] + rest;
    forall i | 0 <= i < |ts| - 1
      ensures ts[i].point.pos < ts[i + 1].point.pos
    {
      assert ts[i + 1] == rest[i];
      if i > 0 {
        assert ts[i] == rest[i - 1];
      }
    }
  }

  /** Adjacent order of positions is order of all pairs. */
  lemma {:induction false} AscendingPairs(ts: seq<Token>, i: nat, j: nat)
    requires forall k :: 0 <= k < |ts| - 1 ==> ts[k].point.pos < ts[k + 1].point.pos
    requires i < j < |ts|
    ensures ts[i].point.pos < ts[j].point.pos
    decreases j - i
  {
    if i + 1 < j {
      AscendingPairs(ts, i + 1, j);
    }
  }

  /** The positions of a successful scan of `input[cur..]` lie in
      `[cur, |input|]` and strictly increase. */
  lemma ScanPositions(input: seq<char>, cur: nat)
    requires cur <= |input| && Scan(input, cur).Ok?
    ensures var ts := Scan(input, cur).value;
      && (forall i :: 0 <= i < |ts| ==> cur <= ts[i].point.pos <= |input|)
      && (forall i, j :: 0 <= i < j < |ts| ==> ts[i].point.pos < ts[j].point.pos)
  {
    var ts := Scan(input, cur).value;
    ScanBounds(input, cur);
    ScanAscending(input, cur);
    forall i, j | 0 <= i < j < |ts|
      ensures ts[i].point.pos < ts[j].point.pos
    {
      AscendingPairs(ts, i, j);
    }
  }

  /** Every token of a successful scan of `input[cur..]` but the last is what
      the input spells at its position, and the characters before the first
      token and between consecutive tokens are whitespace. */
  lemma {:induction false} ScanSpells(input: seq<char>, cur: nat)
    requires cur <= |input| && Scan(input, cur).Ok?
    ensures var ts := Scan(input, cur).value;
      && |ts| >= 1
      && Blank(input, cur, ts[0].point.pos)
      && (forall i :: 0 <= i < |ts| - 1 ==> Spells(input, ts[i]))
      && (forall i :: 0 <= i < |ts| - 1 ==>
            ts[i].point.pos <= |input| && Blank(input, TextEnd(input, ts[i]), ts[i + 1].point.pos))
    decreases |input| - cur
  {
    if cur == |input| {
    } else if IsAsciiWhitespace(input[cur]) {
      ScanSpells(input, cur + 1);
    } else {
      var lx := LexToken(input, cur).value;
      var rest := Scan(input, lx.end).value;
      ScanToken(input, cur);
      ScanSpells(input, lx.end);
      LexTokenSpells(input, cur);
      var ts := Scan(input, cur).value;
      assert ts == [lx.token] + rest;
      forall i | 0 <= i < |ts| - 1
        ensures Spells(input, ts[i])
        ensures ts[i].point.pos <= |input| && Blank(input, TextEnd(input, ts[i]), ts[i + 1].point.pos)
      {
        if i > 0 {
          assert ts[i] == rest[i - 1] && ts[i + 1] == rest[i];
        }
      }
    }
  }

  /** The token `LexToken` finds at `cur` is what the input spells there, and
      its text ends where the scan resumes. */
  lemma LexTokenSpells(input: seq<char>, cur: nat)
    requires cur < |input| && !IsAsciiWhitespace(input[cur]) && LexToken(input, cur).Ok?
    ensures var lx := LexToken(input, cur).value;
      Spells(input, lx.token) && TextEnd(input, lx.token) == lx.end
  {
    var lx := LexToken(input, cur).value;
    if IsAsciiDigit(input[cur]) {
      assert RunEnd(input, cur) == RunEnd(input, cur + 1);
    } else {
      LexReserved(input, cur);
    }
  }

  /** A failed scan reports a `ParseErr` at the first offending character:
      everything before it lexes cleanly, and it is either the start of a
      digit run too large for an `i32`, or a character that is neither
      whitespace nor a digit and starts no reserved symbol. */
  lemma {:induction false} ScanError(input: seq<char>, cur: nat)
    requires cur <= |input| && Scan(input, cur).Err?
    ensures Scan(input, cur).error.ParseErr?
    ensures var e := Scan(input, cur).error;
      var p := e.point.pos;
      && e.point.line == Line && cur <= p < |input|
      && Clean(input, cur, p)
      && ((IsAsciiDigit(input[p]) && Decimal(input[p..RunEnd(input, p)]) > I32Max
           && e.msg == IntErrMsg(input[p..RunEnd(input, p)]))
          || (!IsAsciiWhitespace(input[p]) && !IsAsciiDigit(input[p])
              && FirstMatch(input[p..], Symbols, 0).None? && e.msg == "unexpected " + [input[p]]))
    decreases |input| - cur
  {
    if IsAsciiWhitespace(input[cur]) {
      ScanError(input, cur + 1);
    } else if LexToken(input, cur).Ok? {
      ScanError(input, LexToken(input, cur).value.end);
    } else if IsAsciiDigit(input[cur]) {
      assert RunEnd(input, cur) == RunEnd(input, cur + 1);
    } else {
      LexReserved(input, cur);
    }
  }

  /** A digit run too large for an `i32`, reached through text that lexes
      cleanly, makes the scan fail at the run's first index. */
  lemma {:induction false} ScanOverflow(input: seq<char>, cur: nat, p: nat)
    requires cur <= p < |input| && Clean(input, cur, p) && IsAsciiDigit(input[p])
    requires Decimal(input[p..RunEnd(input, p)]) > I32Max
    ensures Scan(input, cur) == Err(ParseErr(IntErrMsg(input[p..RunEnd(input, p)]), Point(Line, p)))
    decreases p - cur
  {
    if cur == p {
      assert RunEnd(input, p) == RunEnd(input, p + 1);
    } else if IsAsciiWhitespace(input[cur]) {
      ScanOverflow(input, cur + 1, p);
    } else {
      ScanToken(input, cur);
      ScanOverflow(input, LexToken(input, cur).value.end, p);
    }
  }

  /** A character that is neither whitespace nor a digit and starts no
      reserved symbol, reached through text that lexes cleanly, makes the scan
      fail there. */
  lemma {:induction false} ScanUnexpected(input: seq<char>, cur: nat, p: nat)
    requires cur <= p < |input| && Clean(input, cur, p)
    requires !IsAsciiWhitespace(input[p]) && !IsAsciiDigit(input[p])
    requires FirstMatch(input[p..], Symbols, 0).None?
    ensures Scan(input, cur) == Err(ParseErr("unexpected " + [input[p]], Point(Line, p)))
    decreases p - cur
  {
    if cur == p {
      LexReserved(input, p);
    } else if IsAsciiWhitespace(input[cur]) {
      ScanUnexpected(input, cur + 1, p);
    } else {
      ScanToken(input, cur);
      ScanUnexpected(input, LexToken(input, cur).value.end, p);
    }
  }

  /** `@` is rejected at index 0. */
  lemma ScanAt()
    ensures Scan("@", 0) == Err(ParseErr("unexpected @", Point(Line, 0)))
  {
    var at := "@";
    assert at[0..] == at;
    forall j | 0 <= j < |Symbols|
      ensures !(Symbols[j] <= at)
    {
      SymbolShape(j);
    }
    ScanUnexpected(at, 0, 0);
  }

  /** In `1@` the literal lexes, and the error is at the `@` after it. */
  lemma ScanAfterNumber()
    ensures Scan("1@", 0) == Err(ParseErr("unexpected @", Point(Line, 1)))
  {
    var input := "1@";
    assert input[0..RunEnd(input, 1)] == "1";
    assert Clean(input, 0, 1);
    assert input[1..] == "@";
    forall j | 0 <= j < |Symbols|
      ensures !(Symbols[j] <= input[1..])
    {
      SymbolShape(j);
    }
    ScanUnexpected(input, 0, 1);
  }

  /** A run of digits whose value fits an `i32` lexes to that one integer and
      `Eof`. */
  lemma ScanNumber(s: seq<char>)
    requires |s| > 0 && AllDigits(s) && Decimal(s) <= I32Max
    ensures Scan(s, 0) == Ok([Token(Integer(Decimal(s) as i32), Point(Line, 0)),
                              Token(Eof, Point(Line, |s|))])
  {
    var e := RunEnd(s, 1);
    assert e == |s|;
    assert s[0..e] == s;
    var t := Token(Integer(Decimal(s) as i32), Point(Line, 0));
    assert LexToken(s, 0) == Ok(Lexeme(t, |s|));
    ScanToken(s, 0);
    assert Scan(s, |s|) == Ok([Token(Eof, Point(Line, |s|))]);
    assert [t] + [Token(Eof, Point(Line, |s|))] == [t, Token(Eof, Point(Line, |s|))];
  }

  /** `parse_reserved` succeeds exactly when `rest` starts with some reserved
      symbol, and then yields a symbol that `rest` starts with. */
  lemma ReservedAtMatches(rest: seq<char>, line: nat, cur: nat)
    requires |rest| > 0
    ensures ReservedAt(rest, line, cur).Ok? <==> exists j :: 0 <= j < |Symbols| && Symbols[j] <= rest
    ensures ReservedAt(rest, line, cur).Ok? ==>
              var s := ReservedAt(rest, line, cur).value.kind.sym;
              s in Symbols && s <= rest
  {
    var m := FirstMatch(rest, Symbols, 0);
    if m.None? {
      assert forall j :: 0 <= j < |Symbols| ==> !(Symbols[j] <= rest);
    } else {
      assert Symbols[m.value] <= rest;
    }
  }

  /** When none of `syms[k..m]` starts `rest` and `syms[m]` does, the first
      match from `k` is `m`. */
  lemma {:induction false} FirstMatchAt(rest: seq<char>, syms: seq<string>, k: nat, m: nat)
    requires k <= m < |syms| && syms[m] <= rest
    requires forall j :: k <= j < m ==> !(syms[j] <= rest)
    ensures FirstMatch(rest, syms, k) == Some(m)
    decreases m - k
  {
    if k < m {
      FirstMatchAt(rest, syms, k + 1, m);
    }
  }

  /** No reserved symbol starts with an earlier one, so each is matched as a
      whole rather than as a shorter symbol tried before it. */
  lemma SymbolsPrefixFree(j: nat, k: nat)
    requires j < k < |Symbols|
    ensures !(Symbols[j] <= Symbols[k])
  {
    assert Symbols[j][0] != Symbols[k][0] || |Symbols[j]| > |Symbols[k]|;
  }

  /** Two-character symbols come first in `Symbols`, so an input that continues
      with `==`, `!=`, `<=` or `>=` yields that whole symbol. */
  lemma TwoCharSymbolWhole(rest: seq<char>, k: nat)
    requires k < 4 && |rest| >= 2 && rest[..2] == Symbols[k]
    ensures FirstMatch(rest, Symbols, 0) == Some(k)
  {
    assert Symbols[k] <= rest;
    forall j | 0 <= j < k
      ensures !(Symbols[j] <= rest)
    {
      assert Symbols[j][0] != Symbols[k][0];
    }
    FirstMatchAt(rest, Symbols, 0, k);
  }

  /** Every reserved symbol on its own lexes to one `Reserved` token and `Eof`:
      none is split into shorter symbols. */
  lemma ScanSymbol(k: nat)
    requires k < |Symbols|
    ensures var s := Symbols[k];
      Scan(s, 0) == Ok([Token(Reserved(s), Point(Line, 0)), Token(Eof, Point(Line, |s|))])
  {
    var s := Symbols[k];
    SymbolShape(k);
    assert s[0..] == s;
    forall j | 0 <= j < k
      ensures !(Symbols[j] <= s)
    {
      SymbolsPrefixFree(j, k);
    }
    FirstMatchAt(s, Symbols, 0, k);
    var t := Token(Reserved(s), Point(Line, 0));
    LexReserved(s, 0);
    assert LexToken(s, 0) == Ok(Lexeme(t, |s|));
    ScanToken(s, 0);
    assert Scan(s, |s|) == Ok([Token(Eof, Point(Line, |s|))]);
    assert [t] + [Token(Eof, Point(Line, |s|))] == [t, Token(Eof, Point(Line, |s|))];
  }

  /** Every reserved symbol is one or two characters long and starts with a
      character that is neither whitespace nor a digit. */
  lemma SymbolShape(k: nat)
    requires k < |Symbols|
    ensures 1 <= |Symbols[k]| <= 2
    ensures !IsAsciiWhitespace(Symbols[k][0]) && !IsAsciiDigit(Symbols[k][0])
    ensures Symbols[k][0] in "=!<>+-*/()"
  {
  }
}
