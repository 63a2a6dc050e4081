/** What the recursive-descent parser of `parser.c` computes, as functions
    of the sequence of results that successive `tokenizer_next_token` calls
    return. Past the end of the sequence the tokenizer keeps returning its
    final `EOF` token. */
module Syntax {
  import opened Common
  import opened Lexer
  import StrView

  /** `AstNode`, for the node kinds `parser.c` builds. */
  datatype Node =
    | NumberLit(value: i32)
    | Ident(name: seq<char>)
    | Assignment(target: Node, expression: Node)
    | BinaryOp(op: TokenType, left: Node, right: Node)

  /** One `tokenizer_next_token` call: success with the new
      `current_token`, or failure at a line and column. A failed scan
      empties the lexeme and keeps the kind of the previous token, except
      that a `!` followed by a character that starts no token has already
      set the kind to `Exclamation` (`bang`). */
  datatype Lexed = Good(token: Token) | Bad(bang: bool, line: nat, column: nat)

  /** The kind a failed scan leaves in `current_token`. */
  function FailedKind(bang: bool, previous: TokenType): TokenType
  {
    if bang then Exclamation else previous
  }

  /** The tokenizer's results end with an `EOF` token, which repeats. */
  predicate Terminated(toks: seq<Lexed>)
  {
    |toks| > 0 && toks[|toks| - 1].Good? && toks[|toks| - 1].token.kind == EOF
  }

  /** The result of call number `i` (counting from 0). */
  function Nth(toks: seq<Lexed>, i: nat): Lexed
    requires Terminated(toks)
  {
    if i < |toks| then toks[i] else toks[|toks| - 1]
  }

  /** The parser's global state: the calls made so far, `current_token`
      and `g_is_valid`. */
  datatype State = State(pos: nat, current: Token, valid: bool)

  /** A tokenizer call's return value and the state after it. */
  datatype Step = Step(ok: bool, st: State)

  /** A parse function's returned node (`None` for `NULL`) and the state
      after it. */
  datatype Parsed = Parsed(node: Option<Node>, st: State)

  /** Twice the results not yet read, plus one while the current token is
      not `EOF`: every read from a non-`EOF` token lowers it. */
  function Measure(toks: seq<Lexed>, st: State): nat
  {
    2 * (if st.pos < |toks| then |toks| - st.pos else 0)
    + (if st.current.kind == EOF then 0 else 1)
  }

  /** `tokenizer_next_token`. */
  function Advance(toks: seq<Lexed>, st: State): (r: Step)
    requires Terminated(toks)
    ensures r.st.valid == st.valid && r.st.pos == st.pos + 1
    ensures Measure(toks, r.st) <= Measure(toks, st)
    ensures st.current.kind != EOF ==> Measure(toks, r.st) < Measure(toks, st)
    ensures r.ok <==> Nth(toks, st.pos).Good?
    ensures r.ok ==> r.st.current == Nth(toks, st.pos).token
    ensures !r.ok ==> r.st.current.lexeme == []
    ensures !r.ok ==> r.st.current.kind == FailedKind(Nth(toks, st.pos).bang, st.current.kind)
  {
    match Nth(toks, st.pos)
    case Good(t) => Step(true, State(st.pos + 1, t, st.valid))
    case Bad(bang, line, column) =>
      Step(false, State(st.pos + 1, Token(FailedKind(bang, st.current.kind), [], line, column), st.valid))
  }

  /** `tokenizer_consume`: read on only when the current token has the
      expected kind; otherwise fail and leave the state alone. */
  function Consume(toks: seq<Lexed>, st: State, expected: TokenType): (r: Step)
    requires Terminated(toks)
    ensures r.st.valid == st.valid
    ensures r.ok ==> st.current.kind == expected
    ensures st.current.kind != expected ==> r.st == st
    ensures Measure(toks, r.st) <= Measure(toks, st)
    ensures st.current.kind == expected != EOF ==> Measure(toks, r.st) < Measure(toks, st)
  {
    if st.current.kind == expected then Advance(toks, st) else Step(false, st)
  }

  /** `set_error`: clear `g_is_valid`. */
  function SetError(st: State): (r: State)
    ensures !r.valid && r.pos == st.pos && r.current == st.current
  {
    st.(valid := false)
  }

  predicate Additive(k: TokenType) { k == Plus || k == Minus }
  predicate Multiplicative(k: TokenType) { k == Multiply || k == Divide }

  /** The number and identifier branches of `parse_factor`: build the
      leaf node and consume its token. A number lexeme that
      `strview_to_int` rejects is an error. */
  function ParseLeaf(toks: seq<Lexed>, st: State): (r: Parsed)
    requires Terminated(toks) && st.valid
    requires st.current.kind == Number || st.current.kind == Identifier
    ensures r.node.Some? <==> r.st.valid
    ensures Measure(toks, r.st) <= Measure(toks, st)
  {
    var k := st.current.kind;
    var value := StrView.SignedDecimal(st.current.lexeme);
    var leaf := if k == Identifier then Some(Ident(st.current.lexeme))
                else if value.Some? then Some(NumberLit(value.value)) else None;
    if leaf.None? then Parsed(None, SetError(st))
    else
      var a := Consume(toks, st, k);
      if !a.ok then Parsed(None, SetError(a.st)) else Parsed(leaf, a.st)
  }

  /** `parse_factor`: a number, an identifier, or a parenthesised
      expression; anything else is an error. */
  function ParseFactor(toks: seq<Lexed>, st: State): (r: Parsed)
    requires Terminated(toks) && st.valid
    ensures r.node.Some? <==> r.st.valid
    ensures Measure(toks, r.st) <= Measure(toks, st)
    decreases Measure(toks, st), 0
  {
    var k := st.current.kind;
    if k == Number || k == Identifier then ParseLeaf(toks, st)
    else if k == LParen then
      var a := Consume(toks, st, LParen);
      if !a.ok then Parsed(None, SetError(a.st))
      else
        var e := ParseExpression(toks, a.st);
        var b := Consume(toks, e.st, RParen);
        if !b.ok then Parsed(None, SetError(b.st)) else Parsed(e.node, b.st)
    else Parsed(None, SetError(st))
  }

  /** The `while` loop of `parse_term`, from the operand `node` parsed so
      far. */
  function TermTail(toks: seq<Lexed>, node: Node, st: State): (r: Parsed)
    requires Terminated(toks) && st.valid
    ensures r.node.Some? <==> r.st.valid
    ensures Measure(toks, r.st) <= Measure(toks, st)
    decreases Measure(toks, st), 1
  {
    var op := st.current.kind;
    if Multiplicative(op) then
      var a := Consume(toks, st, op);
      if !a.ok then Parsed(None, SetError(a.st))
      else
        var right := ParseFactor(toks, a.st);
        if right.node.None? then Parsed(None, right.st)
        else TermTail(toks, BinaryOp(op, node, right.node.value), right.st)
    else Parsed(Some(node), st)
  }

  /** `parse_term`: factors joined by `*` and `/`. */
  function ParseTerm(toks: seq<Lexed>, st: State): (r: Parsed)
    requires Terminated(toks) && st.valid
    ensures r.node.Some? <==> r.st.valid
    ensures Measure(toks, r.st) <= Measure(toks, st)
    decreases Measure(toks, st), 2
  {
    var f := ParseFactor(toks, st);
    if !f.st.valid then Parsed(None, f.st) else TermTail(toks, f.node.value, f.st)
  }

  /** The `while` loop of `parse_expression`, from the operand `node`
      parsed so far. */
  function ExprTail(toks: seq<Lexed>, node: Node, st: State): (r: Parsed)
    requires Terminated(toks) && st.valid
    ensures r.node.Some? <==> r.st.valid
    ensures Measure(toks, r.st) <= Measure(toks, st)
    decreases Measure(toks, st), 3
  {
    var op := st.current.kind;
    if Additive(op) then
      var a := Consume(toks, st, op);
      if !a.ok then Parsed(None, SetError(a.st))
      else
        var right := ParseTerm(toks, a.st);
        if right.node.None? then Parsed(None, right.st)
        else ExprTail(toks, BinaryOp(op, node, right.node.value), right.st)
    else Parsed(Some(node), st)
  }

  /** `parse_expression`: terms joined by `+` and `-`. */
  function ParseExpression(toks: seq<Lexed>, st: State): (r: Parsed)
    requires Terminated(toks) && st.valid
    ensures r.node.Some? <==> r.st.valid
    ensures Measure(toks, r.st) <= Measure(toks, st)
    decreases Measure(toks, st), 4
  {
    var t := ParseTerm(toks, st);
    if !t.st.valid then Parsed(None, t.st) else ExprTail(toks, t.node.value, t.st)
  }

  /** `parse_assignment` as written: after reading past an identifier to
      look for `=`, it puts back only `current_token`, so the token read
      is dropped from the input. */
  function ParseAssignmentAsWritten(toks: seq<Lexed>, st: State): (r: Parsed)
    requires Terminated(toks) && st.valid
    ensures r.node.Some? <==> r.st.valid
  {
    if st.current.kind == Identifier then
      var saved := st.current;
      var a := Advance(toks, st);
      if !a.ok then Parsed(None, SetError(a.st))
      else if a.st.current.kind == Assign then AssignmentRest(toks, saved, a.st)
      else ParseExpression(toks, a.st.(current := saved))
    else ParseExpression(toks, st)
  }

  /** `parse_assignment` with the put-back restoring the whole tokenizer
      state, so that an identifier not followed by `=` is parsed from
      itself onwards. */
  function ParseAssignment(toks: seq<Lexed>, st: State): (r: Parsed)
    requires Terminated(toks) && st.valid
    ensures r.node.Some? <==> r.st.valid
  {
    if st.current.kind == Identifier then
      var a := Advance(toks, st);
      if !a.ok then Parsed(None, SetError(a.st))
      else if a.st.current.kind == Assign then AssignmentRest(toks, st.current, a.st)
      else ParseExpression(toks, st)
    else ParseExpression(toks, st)
  }

  /** The assignment branch of `parse_assignment`, once `=` is current:
      consume it and parse the right-hand side. */
  function AssignmentRest(toks: seq<Lexed>, target: Token, st: State): (r: Parsed)
    requires Terminated(toks) && st.valid
    ensures r.node.Some? <==> r.st.valid
    ensures r.node.Some? ==> r.node.value.Assignment? && r.node.value.target == Ident(target.lexeme)
  {
    var c := Consume(toks, st, Assign);
    if !c.ok then Parsed(None, SetError(c.st))
    else
      var e := ParseExpression(toks, c.st);
      if e.node.None? then Parsed(None, e.st)
      else Parsed(Some(Assignment(Ident(target.lexeme), e.node.value)), e.st)
  }

  /** The state `parser_parse` starts from: `g_is_valid` set and the
      tokenizer's initial empty `EOF` token. */
  function Initial(): State
  {
    State(0, Token(EOF, [], 0, 0), true)
  }

  /** What `parser_parse` does once the first token is current: parse an
      assignment or expression and, when that succeeded, try to consume
      `EOF`, ignoring the result. */
  function ParseFrom(toks: seq<Lexed>, st: State): (r: Parsed)
    requires Terminated(toks) && st.valid
    ensures r.node.Some? <==> r.st.valid
  {
    var root := ParseAssignmentAsWritten(toks, st);
    if root.st.valid then Parsed(root.node, Consume(toks, root.st, EOF).st) else root
  }

  /** `parser_parse` as written: `tokenizer_init` already reads the first
      token, and the extra `tokenizer_next_token` then replaces it with the
      second. */
  function ParserParseAsWritten(toks: seq<Lexed>): (r: Parsed)
    requires Terminated(toks)
    ensures r.node.Some? <==> r.st.valid
  {
    var s1 := Advance(toks, Initial()).st;
    var s2 := Advance(toks, s1).st;
    ParseFrom(toks, s2)
  }

  /** `parser_parse` reading the first token once, through
      `tokenizer_init`, and using the corrected put-back. */
  function ParserParse(toks: seq<Lexed>): (r: Parsed)
    requires Terminated(toks)
    ensures r.node.Some? <==> r.st.valid
  {
    var st := Advance(toks, Initial()).st;
    var root := ParseAssignment(toks, st);
    if root.st.valid then Parsed(root.node, Consume(toks, root.st, EOF).st) else root
  }

  // ---------------------------------------------------------------------
  // Operator chains

  /** The operators a chain joins: `+` and `-` in sums, `*` and `/` in
      products. */
  predicate Joins(sums: bool, k: TokenType)
  {
    if sums then Additive(k) else Multiplicative(k)
  }

  /** The operand read after each operator: a term in sums, a factor in
      products. */
  function Operand(toks: seq<Lexed>, st: State, sums: bool): Parsed
    requires Terminated(toks) && st.valid
  {
    if sums then ParseTerm(toks, st) else ParseFactor(toks, st)
  }

  /** From `st`, the loop of `parse_expression` (`sums`) or of
      `parse_term` reads the operator `ops[i]` and then an operand whose
      node is `operands[i]`, for each `i` in turn, and stops in `end`, on
      a token that is not such an operator. */
  predicate OperatorChain(toks: seq<Lexed>, st: State, sums: bool, ops: seq<TokenType>,
                          operands: seq<Node>, end: State)
    requires Terminated(toks)
    decreases |ops|
  {
    && |ops| == |operands| && st.valid
    && if ops == [] then end == st && !Joins(sums, st.current.kind)
       else
         && st.current.kind == ops[0] && Joins(sums, ops[0])
         && Consume(toks, st, ops[0]).ok
         && Operand(toks, Consume(toks, st, ops[0]).st, sums).node == Some(operands[0])
         && OperatorChain(toks, Operand(toks, Consume(toks, st, ops[0]).st, sums).st, sums,
                          ops[1..], operands[1..], end)
  }

  /** The left fold `(((node ops[0] operands[0]) ops[1] operands[1]) ...)`. */
  function FoldLeft(node: Node, ops: seq<TokenType>, operands: seq<Node>): Node
    requires |ops| == |operands|
    decreases |ops|
  {
    if ops == [] then node
    else FoldLeft(BinaryOp(ops[0], node, operands[0]), ops[1..], operands[1..])
  }

  /** A token of kind `k` at result `i`. */
  predicate KindAt(toks: seq<Lexed>, i: nat, k: TokenType)
  {
    i < |toks| && toks[i].Good? && toks[i].token.kind == k
  }
}

/** Properties of the parse functions: what each grammar rule builds,
    operator associativity and precedence, and how the two defects of
    `parser.c` show. */
module SyntaxLaws {
  import opened Common
  import opened Lexer
  import opened Syntax
  import StrView

  // ---------------------------------------------------------------------
  // Factors

  /** A token that cannot start a factor is an error, and nothing is read. */
  lemma FactorRejects(toks: seq<Lexed>, st: State)
    requires Terminated(toks) && st.valid
    requires st.current.kind !in {Number, Identifier, LParen}
    ensures ParseFactor(toks, st) == Parsed(None, SetError(st))
  {
  }

  /** A number token whose lexeme `strview_to_int` rejects is an error,
      and nothing is read; one it accepts becomes a number node. */
  lemma NumberConverted(toks: seq<Lexed>, st: State)
    requires Terminated(toks) && st.valid && st.current.kind == Number
    ensures StrView.SignedDecimal(st.current.lexeme).None? ==>
      ParseFactor(toks, st) == Parsed(None, SetError(st))
    ensures StrView.SignedDecimal(st.current.lexeme).Some? && Nth(toks, st.pos).Good? ==>
      ParseFactor(toks, st) ==
        Parsed(Some(NumberLit(StrView.SignedDecimal(st.current.lexeme).value)), Advance(toks, st).st)
  {
  }

  /** Parentheses build no node of their own: the factor is the inner
      expression's node once `)` follows it, and an error when another
      token does. */
  lemma ParenthesesAddNoNode(toks: seq<Lexed>, st: State)
    requires Terminated(toks) && st.valid && st.current.kind == LParen
    requires Nth(toks, st.pos).Good?
    ensures var e := ParseExpression(toks, Advance(toks, st).st);
      e.st.current.kind == RParen && Nth(toks, e.st.pos).Good? ==>
        ParseFactor(toks, st) == Parsed(e.node, Advance(toks, e.st).st)
    ensures var e := ParseExpression(toks, Advance(toks, st).st);
      e.st.current.kind != RParen ==> ParseFactor(toks, st) == Parsed(None, SetError(e.st))
  {
  }

  // ---------------------------------------------------------------------
  // Operator chains

  /** An identifier is a complete factor: it is consumed and the next
      result becomes current. */
  lemma IdentFactor(toks: seq<Lexed>, st: State)
    requires Terminated(toks) && st.valid && st.current.kind == Identifier
    requires st.pos < |toks| && toks[st.pos].Good?
    ensures ParseFactor(toks, st) ==
      Parsed(Some(Ident(st.current.lexeme)), State(st.pos + 1, toks[st.pos].token, true))
  {
  }

  /** Left associativity of the fold: the last operator is at the root,
      over the fold of everything before it. */
  lemma {:induction false} FoldLeftLast(node: Node, ops: seq<TokenType>, operands: seq<Node>,
                                         op: TokenType, operand: Node)
    requires |ops| == |operands|
    ensures FoldLeft(node, ops + [op], operands + [operand])
         == BinaryOp(op, FoldLeft(node, ops, operands), operand)
    decreases |ops|
  {
    if ops != [] {
      assert (ops + [op])[1..] == ops[1..] + [op];
      assert (operands + [operand])[1..] == operands[1..] + [operand];
      FoldLeftLast(BinaryOp(ops[0], node, operands[0]), ops[1..], operands[1..], op, operand);
    }
  }

  /** The loop of `parse_term` folds the factors it reads to the left,
      whatever they are: numbers, identifiers or parenthesised
      expressions. */
  lemma {:induction false} TermTailFolds(toks: seq<Lexed>, node: Node, st: State,
                                          ops: seq<TokenType>, operands: seq<Node>, end: State)
    requires Terminated(toks) && st.valid
    requires OperatorChain(toks, st, false, ops, operands, end)
    ensures TermTail(toks, node, st) == Parsed(Some(FoldLeft(node, ops, operands)), end)
    decreases |ops|
  {
    if ops != [] {
      var f := ParseFactor(toks, Consume(toks, st, ops[0]).st);
      TermTailFolds(toks, BinaryOp(ops[0], node, operands[0]), f.st, ops[1..], operands[1..], end);
    }
  }

  /** Conversely, whatever the loop of `parse_term` returns is the left
      fold of the factors it read. */
  lemma {:induction false} TermTailShape(toks: seq<Lexed>, node: Node, st: State)
    requires Terminated(toks) && st.valid && TermTail(toks, node, st).node.Some?
    ensures exists ops, operands ::
      && OperatorChain(toks, st, false, ops, operands, TermTail(toks, node, st).st)
      && TermTail(toks, node, st).node == Some(FoldLeft(node, ops, operands))
    decreases Measure(toks, st)
  {
    var op := st.current.kind;
    var r := TermTail(toks, node, st);
    if Multiplicative(op) {
      var f := ParseFactor(toks, Consume(toks, st, op).st);
      var next := BinaryOp(op, node, f.node.value);
      TermTailShape(toks, next, f.st);
      var ops, operands :| && OperatorChain(toks, f.st, false, ops, operands, r.st)
                           && r.node == Some(FoldLeft(next, ops, operands));
      assert ([op] + ops)[1..] == ops && ([f.node.value] + operands)[1..] == operands;
      assert OperatorChain(toks, st, false, [op] + ops, [f.node.value] + operands, r.st);
      assert r.node == Some(FoldLeft(node, [op] + ops, [f.node.value] + operands));
    } else {
      assert OperatorChain(toks, st, false, [], [], r.st);
      assert r.node == Some(FoldLeft(node, [], []));
    }
  }

  /** The loop of `parse_expression` folds the terms it reads to the
      left, whatever they are. */
  lemma {:induction false} ExprTailFolds(toks: seq<Lexed>, node: Node, st: State,
                                          ops: seq<TokenType>, operands: seq<Node>, end: State)
    requires Terminated(toks) && st.valid
    requires OperatorChain(toks, st, true, ops, operands, end)
    ensures ExprTail(toks, node, st) == Parsed(Some(FoldLeft(node, ops, operands)), end)
    decreases |ops|
  {
    if ops != [] {
      var t := ParseTerm(toks, Consume(toks, st, ops[0]).st);
      ExprTailFolds(toks, BinaryOp(ops[0], node, operands[0]), t.st, ops[1..], operands[1..], end);
    }
  }

  /** Conversely, whatever the loop of `parse_expression` returns is the
      left fold of the terms it read. */
  lemma {:induction false} ExprTailShape(toks: seq<Lexed>, node: Node, st: State)
    requires Terminated(toks) && st.valid && ExprTail(toks, node, st).node.Some?
    ensures exists ops, operands ::
      && OperatorChain(toks, st, true, ops, operands, ExprTail(toks, node, st).st)
      && ExprTail(toks, node, st).node == Some(FoldLeft(node, ops, operands))
    decreases Measure(toks, st)
  {
    var op := st.current.kind;
    var r := ExprTail(toks, node, st);
    if Additive(op) {
      var t := ParseTerm(toks, Consume(toks, st, op).st);
      var next := BinaryOp(op, node, t.node.value);
      ExprTailShape(toks, next, t.st);
      var ops, operands :| && OperatorChain(toks, t.st, true, ops, operands, r.st)
                           && r.node == Some(FoldLeft(next, ops, operands));
      assert ([op] + ops)[1..] == ops && ([t.node.value] + operands)[1..] == operands;
      assert OperatorChain(toks, st, true, [op] + ops, [t.node.value] + operands, r.st);
      assert r.node == Some(FoldLeft(node, [op] + ops, [t.node.value] + operands));
    } else {
      assert OperatorChain(toks, st, true, [], [], r.st);
      assert r.node == Some(FoldLeft(node, [], []));
    }
  }

  /** `f0 * f1 / f2 ...` parses as `((f0 * f1) / f2) ...`: `parse_term`
      is the left fold of its first factor and the chain after it. */
  lemma ProductsAssociateLeft(toks: seq<Lexed>, st: State, ops: seq<TokenType>, operands: seq<Node>,
                              end: State)
    requires Terminated(toks) && st.valid && ParseFactor(toks, st).node.Some?
    requires OperatorChain(toks, ParseFactor(toks, st).st, false, ops, operands, end)
    ensures ParseTerm(toks, st) == Parsed(Some(FoldLeft(ParseFactor(toks, st).node.value, ops, operands)), end)
  {
    var f := ParseFactor(toks, st);
    TermTailFolds(toks, f.node.value, f.st, ops, operands, end);
  }

  /** `t0 - t1 + t2 ...` parses as `((t0 - t1) + t2) ...`:
      `parse_expression` is the left fold of its first term and the chain
      after it. */
  lemma SumsAssociateLeft(toks: seq<Lexed>, st: State, ops: seq<TokenType>, operands: seq<Node>,
                          end: State)
    requires Terminated(toks) && st.valid && ParseTerm(toks, st).node.Some?
    requires OperatorChain(toks, ParseTerm(toks, st).st, true, ops, operands, end)
    ensures ParseExpression(toks, st) == Parsed(Some(FoldLeft(ParseTerm(toks, st).node.value, ops, operands)), end)
  {
    var t := ParseTerm(toks, st);
    ExprTailFolds(toks, t.node.value, t.st, ops, operands, end);
  }

  /** Every term `parse_term` returns is the left fold of the factors it
      read over `*` and `/`. */
  lemma TermShape(toks: seq<Lexed>, st: State)
    requires Terminated(toks) && st.valid && ParseTerm(toks, st).node.Some?
    ensures ParseFactor(toks, st).node.Some?
    ensures exists ops, operands ::
      && OperatorChain(toks, ParseFactor(toks, st).st, false, ops, operands, ParseTerm(toks, st).st)
      && ParseTerm(toks, st).node == Some(FoldLeft(ParseFactor(toks, st).node.value, ops, operands))
  {
    var f := ParseFactor(toks, st);
    TermTailShape(toks, f.node.value, f.st);
  }

  /** Every expression `parse_expression` returns is the left fold over
      `+` and `-` of whole terms, each of them (`TermShape`) a left fold
      over `*` and `/` of factors: products group before sums. */
  lemma ExpressionShape(toks: seq<Lexed>, st: State)
    requires Terminated(toks) && st.valid && ParseExpression(toks, st).node.Some?
    ensures ParseTerm(toks, st).node.Some?
    ensures exists ops, operands ::
      && OperatorChain(toks, ParseTerm(toks, st).st, true, ops, operands, ParseExpression(toks, st).st)
      && ParseExpression(toks, st).node == Some(FoldLeft(ParseTerm(toks, st).node.value, ops, operands))
  {
    var t := ParseTerm(toks, st);
    ExprTailShape(toks, t.node.value, t.st);
  }

  /** A token that continues neither a product nor a sum. */
  predicate Ends(k: TokenType)
  {
    !Additive(k) && !Multiplicative(k)
  }

  /** `*` and `/` bind tighter than `+` and `-`: `a + b * c` parses as
      `a + (b * c)`, for any factors `a`, `b` and `c`. */
  lemma ProductBindsTighter(toks: seq<Lexed>, st: State, op1: TokenType, s2: State,
                            op2: TokenType, s4: State)
    requires Terminated(toks) && st.valid && Additive(op1) && Multiplicative(op2)
    requires ParseFactor(toks, st).node.Some? && ParseFactor(toks, st).st.current.kind == op1
    requires Consume(toks, ParseFactor(toks, st).st, op1) == Step(true, s2)
    requires ParseFactor(toks, s2).node.Some? && ParseFactor(toks, s2).st.current.kind == op2
    requires Consume(toks, ParseFactor(toks, s2).st, op2) == Step(true, s4)
    requires ParseFactor(toks, s4).node.Some? && Ends(ParseFactor(toks, s4).st.current.kind)
    ensures ParseExpression(toks, st) ==
      Parsed(Some(BinaryOp(op1, ParseFactor(toks, st).node.value,
                           BinaryOp(op2, ParseFactor(toks, s2).node.value, ParseFactor(toks, s4).node.value))),
             ParseFactor(toks, s4).st)
  {
    var a := ParseFactor(toks, st);
    var b := ParseFactor(toks, s2);
    var c := ParseFactor(toks, s4);
    var prod := BinaryOp(op2, b.node.value, c.node.value);
    assert OperatorChain(toks, a.st, false, [], [], a.st);
    ProductsAssociateLeft(toks, st, [], [], a.st);
    assert OperatorChain(toks, c.st, false, [], [], c.st);
    assert OperatorChain(toks, b.st, false, [op2], [c.node.value], c.st);
    ProductsAssociateLeft(toks, s2, [op2], [c.node.value], c.st);
    assert OperatorChain(toks, c.st, true, [], [], c.st);
    assert OperatorChain(toks, a.st, true, [op1], [prod], c.st);
    SumsAssociateLeft(toks, st, [op1], [prod], c.st);
  }

  /** `a * b + c` parses as `(a * b) + c`, for any factors `a`, `b` and
      `c`. */
  lemma ProductGroupsFirst(toks: seq<Lexed>, st: State, op1: TokenType, s2: State,
                           op2: TokenType, s4: State)
    requires Terminated(toks) && st.valid && Multiplicative(op1) && Additive(op2)
    requires ParseFactor(toks, st).node.Some? && ParseFactor(toks, st).st.current.kind == op1
    requires Consume(toks, ParseFactor(toks, st).st, op1) == Step(true, s2)
    requires ParseFactor(toks, s2).node.Some? && ParseFactor(toks, s2).st.current.kind == op2
    requires Consume(toks, ParseFactor(toks, s2).st, op2) == Step(true, s4)
    requires ParseFactor(toks, s4).node.Some? && Ends(ParseFactor(toks, s4).st.current.kind)
    ensures ParseExpression(toks, st) ==
      Parsed(Some(BinaryOp(op2, BinaryOp(op1, ParseFactor(toks, st).node.value, ParseFactor(toks, s2).node.value),
                           ParseFactor(toks, s4).node.value)),
             ParseFactor(toks, s4).st)
  {
    var a := ParseFactor(toks, st);
    var b := ParseFactor(toks, s2);
    var c := ParseFactor(toks, s4);
    assert OperatorChain(toks, b.st, false, [], [], b.st);
    assert OperatorChain(toks, a.st, false, [op1], [b.node.value], b.st);
    ProductsAssociateLeft(toks, st, [op1], [b.node.value], b.st);
    assert OperatorChain(toks, c.st, false, [], [], c.st);
    ProductsAssociateLeft(toks, s4, [], [], c.st);
    assert OperatorChain(toks, c.st, true, [], [], c.st);
    assert OperatorChain(toks, b.st, true, [op2], [c.node.value], c.st);
    SumsAssociateLeft(toks, st, [op2], [c.node.value], c.st);
  }

  // ---------------------------------------------------------------------
  // Assignments and the top level

  /** An identifier followed by `=` makes an assignment node: its target
      is the identifier and its value the expression after `=`. Both
      versions of `parse_assignment` agree here. */
  lemma AssignmentBuilt(toks: seq<Lexed>, st: State)
    requires Terminated(toks) && st.valid && st.current.kind == Identifier
    requires KindAt(toks, st.pos, Assign) && st.pos + 1 < |toks| && toks[st.pos + 1].Good?
    ensures var e := ParseExpression(toks, State(st.pos + 2, toks[st.pos + 1].token, true));
      ParseAssignment(toks, st) ==
        if e.node.Some? then Parsed(Some(Assignment(Ident(st.current.lexeme), e.node.value)), e.st) else e
    ensures ParseAssignmentAsWritten(toks, st) == ParseAssignment(toks, st)
  {
    var a := State(st.pos + 1, toks[st.pos].token, true);
    assert Consume(toks, a, Assign) == Step(true, State(st.pos + 2, toks[st.pos + 1].token, true));
  }

  /** The defect of `parse_assignment` as written: when no `=` follows an
      identifier, parsing resumes with the identifier current but past the
      token that followed it, so that token is lost. */
  lemma LookaheadLostAsWritten(toks: seq<Lexed>, st: State)
    requires Terminated(toks) && st.valid && st.current.kind == Identifier
    requires st.pos < |toks| && toks[st.pos].Good? && toks[st.pos].token.kind != Assign
    ensures ParseAssignmentAsWritten(toks, st) == ParseExpression(toks, State(st.pos + 1, st.current, true))
  {
  }

  /** With the put-back restoring the whole state, an identifier that no
      `=` follows starts an ordinary expression. */
  lemma LookaheadRestored(toks: seq<Lexed>, st: State)
    requires Terminated(toks) && st.valid && st.current.kind == Identifier
    requires st.pos < |toks| && toks[st.pos].Good? && toks[st.pos].token.kind != Assign
    ensures ParseAssignment(toks, st) == ParseExpression(toks, st)
  {
  }

  /** The tokens of `x + y`. */
  function SumTokens(): (toks: seq<Lexed>)
    ensures Terminated(toks)
  {
    [Good(Token(Identifier, "x", 1, 1)), Good(Token(Plus, "+", 1, 3)),
     Good(Token(Identifier, "y", 1, 5)), Good(Token(EOF, [], 1, 6))]
  }

  /** With `x` current, the statement `x + y` parses as just `x` as
      written, the `+` having been dropped, and as `x + y` with the
      corrected put-back. */
  lemma SumLostAsWritten()
    ensures var st := State(1, SumTokens()[0].token, true);
      ParseAssignmentAsWritten(SumTokens(), st).node == Some(Ident("x"))
    ensures var st := State(1, SumTokens()[0].token, true);
      ParseAssignment(SumTokens(), st).node == Some(BinaryOp(Plus, Ident("x"), Ident("y")))
  {
    var toks := SumTokens();
    var st := State(1, toks[0].token, true);
    LookaheadLostAsWritten(toks, st);
    var lost := State(2, st.current, true);
    var atY := State(3, toks[2].token, true);
    IdentFactor(toks, lost);
    assert OperatorChain(toks, atY, false, [], [], atY);
    ProductsAssociateLeft(toks, lost, [], [], atY);
    assert OperatorChain(toks, atY, true, [], [], atY);
    SumsAssociateLeft(toks, lost, [], [], atY);
    LookaheadRestored(toks, st);
    var atPlus := State(2, toks[1].token, true);
    var atY2 := State(3, toks[2].token, true);
    var atEnd := State(4, toks[3].token, true);
    IdentFactor(toks, st);
    assert OperatorChain(toks, atPlus, false, [], [], atPlus);
    ProductsAssociateLeft(toks, st, [], [], atPlus);
    IdentFactor(toks, atY2);
    assert OperatorChain(toks, atEnd, false, [], [], atEnd);
    ProductsAssociateLeft(toks, atY2, [], [], atEnd);
    assert OperatorChain(toks, atEnd, true, [], [], atEnd);
    assert OperatorChain(toks, atPlus, true, [Plus], [Ident("y")], atEnd);
    SumsAssociateLeft(toks, st, [Plus], [Ident("y")], atEnd);
  }

  /** The defect of `parser_parse` as written: the result of the first
      `tokenizer_next_token` is overwritten before it is looked at, so
      parsing starts from the second token. */
  lemma FirstTokenSkippedAsWritten(toks: seq<Lexed>)
    requires Terminated(toks) && |toks| > 1 && toks[1].Good?
    ensures ParserParseAsWritten(toks) == ParseFrom(toks, State(2, toks[1].token, true))
  {
  }

  /** Reading the first token once, parsing starts from it; the result is
      whatever `parse_assignment` returned, whether or not `EOF` follows. */
  lemma ParseStartsAtFirstToken(toks: seq<Lexed>)
    requires Terminated(toks) && toks[0].Good?
    ensures ParserParse(toks).node == ParseAssignment(toks, State(1, toks[0].token, true)).node
  {
  }

  /** The tokens of `x = 1`. */
  function AssignTokens(): (toks: seq<Lexed>)
    ensures Terminated(toks)
  {
    [Good(Token(Identifier, "x", 1, 1)), Good(Token(Assign, "=", 1, 3)),
     Good(Token(Number, "1", 1, 5)), Good(Token(EOF, [], 1, 6))]
  }

  /** `x = 1` is rejected as written: parsing starts at `=`, which
      cannot start a factor. */
  lemma AssignmentRejectedAsWritten()
    ensures ParserParseAsWritten(AssignTokens()).node == None
  {
    var toks := AssignTokens();
    FirstTokenSkippedAsWritten(toks);
    FactorRejects(toks, State(2, toks[1].token, true));
  }

  /** `x = 1` parses as the assignment of 1 to `x` when the first token
      is read once. */
  lemma AssignmentParsed()
    ensures ParserParse(AssignTokens()).node == Some(Assignment(Ident("x"), NumberLit(1)))
  {
    var toks := AssignTokens();
    var st := State(1, toks[0].token, true);
    AssignmentBuilt(toks, st);
    var s3 := State(3, toks[2].token, true);
    var s4 := State(4, toks[3].token, true);
    OneIsDecimal();
    assert ParseFactor(toks, s3) == Parsed(Some(NumberLit(1)), s4);
    assert ParseExpression(toks, s3) == Parsed(Some(NumberLit(1)), s4);
  }

  /** `strview_to_int` reads "1" as 1. */
  lemma OneIsDecimal()
    ensures StrView.SignedDecimal("1") == Some(1)
  {
    assert StrView.AllDigits("1"[0..]);
    assert StrView.DecimalValue("1"[0..]) == 1 by {
      assert "1"[0..][..0] == [];
    }
  }

  /** The tokens of `x y`. */
  function TrailingTokens(): (toks: seq<Lexed>)
    ensures Terminated(toks)
  {
    [Good(Token(Identifier, "x", 1, 1)), Good(Token(Identifier, "y", 1, 3)),
     Good(Token(EOF, [], 1, 4))]
  }

  /** Tokens left over after a complete statement are not an error: the
      failing `EOF` check is ignored and `x y` parses as `x`. */
  lemma TrailingTokensAccepted()
    ensures ParserParse(TrailingTokens()) ==
      Parsed(Some(Ident("x")), State(2, TrailingTokens()[1].token, true))
  {
    var toks := TrailingTokens();
    var st := State(1, toks[0].token, true);
    LookaheadRestored(toks, st);
    var atY := State(2, toks[1].token, true);
    IdentFactor(toks, st);
    assert OperatorChain(toks, atY, false, [], [], atY);
    ProductsAssociateLeft(toks, st, [], [], atY);
    assert OperatorChain(toks, atY, true, [], [], atY);
    SumsAssociateLeft(toks, st, [], [], atY);
  }
}

/** The parser of `parser.c` over its globals: `current_token`,
    `g_is_valid`, and how many results the tokenizer has handed out. Each
    parse method is proved to compute its function in `Syntax`. */
module Parser {
  import opened Common
  import opened Lexer
  import opened Syntax
  import StrView

  class Parser {
    /** The results the tokenizer hands out, call by call. */
    const toks: seq<Lexed>
    var pos: nat
    var current: Token
    var isValid: bool

    /** The globals as one value. */
    function Globals(): State
      reads this
    {
      State(pos, current, isValid)
    }

    /** A parser over the tokenizer results `toks`, in the state
        `parser_parse` sets up before `tokenizer_init` reads. */
    constructor (toks: seq<Lexed>)
      requires Terminated(toks)
      ensures this.toks == toks && Globals() == Initial()
    {
      this.toks := toks;
      pos := 0;
      current := Token(EOF, [], 0, 0);
      isValid := true;
    }

    /** `tokenizer_next_token`: take the next result; a failed scan
        empties the lexeme. */
    method NextToken() returns (ok: bool)
      requires Terminated(toks)
      modifies this`pos, this`current
      ensures Step(ok, Globals()) == Advance(toks, old(Globals()))
    {
      var next := if pos < |toks| then toks[pos] else toks[|toks| - 1];
      match next {
        case Good(t) =>
          current := t;
          ok := true;
        case Bad(bang, line, column) =>
          current := Token(FailedKind(bang, current.kind), [], line, column);
          ok := false;
      }
      pos := pos + 1;
    }

    /** `tokenizer_consume`. */
    method Consume(expected: TokenType) returns (ok: bool)
      requires Terminated(toks)
      modifies this`pos, this`current
      ensures Step(ok, Globals()) == Syntax.Consume(toks, old(Globals()), expected)
    {
      if current.kind == expected {
        ok := NextToken();
      } else {
        ok := false;
      }
    }

    /** `parse_factor`. */
    method ParseFactor() returns (node: Option<Node>)
      requires Terminated(toks) && isValid
      modifies this`pos, this`current, this`isValid
      ensures Parsed(node, Globals()) == Syntax.ParseFactor(toks, old(Globals()))
      decreases Measure(toks, Globals()), 0
    {
      if current.kind == Number {
        var lexeme := current.lexeme;
        var ok, value := StrView.ToInt(Some(StrView.View(lexeme, |lexeme|)), 0);
        assert StrView.Text(StrView.View(lexeme, |lexeme|)) == lexeme;
        if !ok {
          isValid := false;
          return None;
        }
        ok := Consume(Number);
        if !ok {
          isValid := false;
          return None;
        }
        return Some(NumberLit(value));
      } else if current.kind == Identifier {
        var leaf := Ident(current.lexeme);
        var ok := Consume(Identifier);
        if !ok {
          isValid := false;
          return None;
        }
        return Some(leaf);
      } else if current.kind == LParen {
        var ok := Consume(LParen);
        if !ok {
          isValid := false;
          return None;
        }
        node := ParseExpression();
        ok := Consume(RParen);
        if !ok {
          isValid := false;
          return None;
        }
        return node;
      }
      isValid := false;
      return None;
    }

    /** `parse_term`. */
    method ParseTerm() returns (node: Option<Node>)
      requires Terminated(toks) && isValid
      modifies this`pos, this`current, this`isValid
      ensures Parsed(node, Globals()) == Syntax.ParseTerm(toks, old(Globals()))
      decreases Measure(toks, Globals()), 1
    {
      node := ParseFactor();
      if !isValid {
        return None;
      }
      var left := node.value;
      ghost var first := left;
      ghost var start := Globals();
      while current.kind == Multiply || current.kind == Divide
        invariant isValid
        invariant Syntax.TermTail(toks, left, Globals()) == Syntax.TermTail(toks, first, start)
        decreases Measure(toks, Globals())
      {
        var op := current.kind;
        var ok := Consume(op);
        if !ok {
          isValid := false;
          return None;
        }
        var right := ParseFactor();
        if right.None? {
          return None;
        }
        left := BinaryOp(op, left, right.value);
      }
      return Some(left);
    }

    /** `parse_expression`. */
    method ParseExpression() returns (node: Option<Node>)
      requires Terminated(toks) && isValid
      modifies this`pos, this`current, this`isValid
      ensures Parsed(node, Globals()) == Syntax.ParseExpression(toks, old(Globals()))
      decreases Measure(toks, Globals()), 2
    {
      node := ParseTerm();
      if !isValid {
        return None;
      }
      var left := node.value;
      ghost var first := left;
      ghost var start := Globals();
      while current.kind == Plus || current.kind == Minus
        invariant isValid
        invariant ExprTail(toks, left, Globals()) == ExprTail(toks, first, start)
        decreases Measure(toks, Globals())
      {
        var op := current.kind;
        var ok := Consume(op);
        if !ok {
          isValid := false;
          return None;
        }
        var right := ParseTerm();
        if right.None? {
          return None;
        }
        left := BinaryOp(op, left, right.value);
      }
      return Some(left);
    }

    /** `parse_assignment`, with the put-back after the look-ahead
        restoring the tokenizer's position as well as `current_token`. */
    method ParseAssignment() returns (node: Option<Node>)
      requires Terminated(toks) && isValid
      modifies this`pos, this`current, this`isValid
      ensures Parsed(node, Globals()) == Syntax.ParseAssignment(toks, old(Globals()))
    {
      if current.kind == Identifier {
        var saved := current;
        var savedPos := pos;
        var ok := NextToken();
        if !ok {
          isValid := false;
          return None;
        }
        if current.kind == Assign {
          ok := Consume(Assign);
          if !ok {
            isValid := false;
            return None;
          }
          var value := ParseExpression();
          if value.None? {
            return None;
          }
          return Some(Assignment(Ident(saved.lexeme), value.value));
        }
        pos, current := savedPos, saved;
      }
      node := ParseExpression();
    }

    /** `parser_parse`, reading the first token once: parse a statement
        and, when that succeeded, try to consume `EOF`, ignoring whether
        it was there. */
    method Parse() returns (root: Option<Node>)
      requires Terminated(toks)
      modifies this`pos, this`current, this`isValid
      ensures Parsed(root, Globals()) == ParserParse(toks)
    {
      isValid := true;
      pos, current := 0, Token(EOF, [], 0, 0);
      var first := NextToken();
      root := ParseAssignment();
      if isValid {
        var atEnd := Consume(EOF);
      }
    }
  }
}
