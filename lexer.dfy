/** What `tokenizer_next_token` computes, as functions of the source text
    and the cursor: the source is a NUL-terminated `char` string, the
    cursor a position with its line and column. */
module Lexer {
  import opened Common

  const NUL: char := '\0'

  /** The token kinds `tokenizer.c` produces. */
  datatype TokenType =
    | EOF | Identifier | Number | String | While
    | Equals | NotEquals | Assign | Exclamation | Semicolon
    | Plus | Minus | Multiply | Divide
    | LParen | RParen | LBrace | RBrace | LBracket | RBracket
    | LessThan | GreaterThan | Comma

  /** `Token`: a kind, the lexeme (a view into the source), and where it
      starts. */
  datatype Token = Token(kind: TokenType, lexeme: seq<char>, line: nat, column: nat)

  /** The tokenizer's position `c` with its `line` and `column`. */
  datatype Cursor = Cursor(pos: nat, line: nat, column: nat)

  /** What one scan leaves: its return value, the cursor, `current_token`. */
  datatype Scanned = Scanned(ok: bool, cursor: Cursor, token: Token)

  // ---------------------------------------------------------------------
  // Character classes

  /** `is_digit`: the ten decimal digits. */
  predicate IsDigit(x: char)
    ensures IsDigit(x) ==> x != NUL && !IsAlpha(x)
  {
    '0' <= x <= '9'
  }

  /** `is_space`: blank, tab, newline and carriage return, none of which
      can start a token or end the source. */
  predicate IsSpace(x: char)
    ensures IsSpace(x) ==> x != NUL && !IsDigit(x) && !IsAlpha(x) && x != '_'
  {
    x == ' ' || x == '\t' || x == '\n' || x == '\r'
  }

  /** `x | 32` for a non-negative `x`. */
  function Or32(x: nat): nat
  {
    if (x / 32) % 2 == 1 then x else x + 32
  }

  /** `is_alpha`: set bit 5 and test for a lower-case letter. A `char`
      above 0x7F is negative in C and stays negative under `| 32`. Setting
      bit 5 accepts exactly the ASCII letters of either case. */
  predicate IsAlpha(x: char)
    ensures IsAlpha(x) <==> 'a' <= x <= 'z' || 'A' <= x <= 'Z'
  {
    x as int < 128 && 'a' as int <= Or32(x as int) <= 'z' as int
  }

  /** `is_alnum`: an ASCII letter or a decimal digit. */
  predicate IsAlnum(x: char)
    ensures IsAlnum(x) <==> 'a' <= x <= 'z' || 'A' <= x <= 'Z' || '0' <= x <= '9'
  {
    IsAlpha(x) || IsDigit(x)
  }

  /** The runs the scanner skips: white space, digits, identifier
      characters. None of them contains NUL. */
  datatype CharClass = Space | Digit | Word

  predicate InClass(k: CharClass, x: char)
  {
    match k
    case Space => IsSpace(x)
    case Digit => IsDigit(x)
    case Word => IsAlnum(x) || x == '_'
  }

  // ---------------------------------------------------------------------
  // Cursor movement

  /** The source ends with its NUL terminator. */
  predicate WellFormed(input: seq<char>)
  {
    |input| > 0 && input[|input| - 1] == NUL
  }

  predicate At(input: seq<char>, cur: Cursor)
  {
    WellFormed(input) && cur.pos < |input|
  }

  /** `next_char`: move past a non-NUL character; arriving on a newline
      starts the next line, with the column then counted from 2. */
  function Step(input: seq<char>, cur: Cursor): (r: Cursor)
    requires At(input, cur) && input[cur.pos] != NUL
    ensures At(input, r) && r.pos == cur.pos + 1
  {
    var p := cur.pos + 1;
    if input[p] == '\n' then Cursor(p, cur.line + 1, 2) else Cursor(p, cur.line, cur.column + 1)
  }

  /** The cursor after `n` calls of `next_char` from the start of the
      text, where `tokenizer_init` puts line 1, column 1. */
  function Walk(input: seq<char>, n: nat): (r: Cursor)
    requires WellFormed(input) && n < |input|
    requires forall i | 0 <= i < n :: input[i] != NUL
    ensures r.pos == n
  {
    if n == 0 then Cursor(0, 1, 1) else Step(input, Walk(input, n - 1))
  }

  /** The number of newlines in `s`. */
  function Newlines(s: seq<char>): nat
  {
    if s == [] then 0 else Newlines(s[..|s| - 1]) + (if s[|s| - 1] == '\n' then 1 else 0)
  }

  /** The position of the last newline the cursor has arrived on by
      position `n`, or 0 when there is none. */
  function LastNewline(input: seq<char>, n: nat): (r: nat)
    requires n < |input|
    ensures r <= n && (r > 0 ==> input[r] == '\n')
    ensures forall i | r < i <= n :: input[i] != '\n'
  {
    if n == 0 then 0 else if input[n] == '\n' then n else LastNewline(input, n - 1)
  }

  /** `line` is 1 plus the newlines the cursor has arrived on; the
      character it starts on is not one of them. */
  lemma {:induction false} WalkLine(input: seq<char>, n: nat)
    requires WellFormed(input) && n < |input|
    requires forall i | 0 <= i < n :: input[i] != NUL
    ensures Walk(input, n).line == 1 + Newlines(input[1..n + 1])
  {
    if n > 0 {
      WalkLine(input, n - 1);
      assert input[1..n + 1][..n - 1] == input[1..n];
    }
  }

  /** `column` counts from 1 on the first line, but from 2 at the newline
      that ends a line: the first character of every later line is at
      column 3. */
  lemma {:induction false} WalkColumn(input: seq<char>, n: nat)
    requires WellFormed(input) && n < |input|
    requires forall i | 0 <= i < n :: input[i] != NUL
    ensures var last := LastNewline(input, n);
            Walk(input, n).column == if last == 0 then n + 1 else n - last + 2
  {
    if n > 0 {
      WalkColumn(input, n - 1);
    }
  }

  /** The cursor after `next_char` over the longest run of class `k`. */
  function SkipRun(input: seq<char>, cur: Cursor, k: CharClass): (r: Cursor)
    requires At(input, cur)
    ensures At(input, r) && cur.pos <= r.pos && !InClass(k, input[r.pos])
    ensures forall i | cur.pos <= i < r.pos :: InClass(k, input[i])
    decreases |input| - cur.pos
  {
    if InClass(k, input[cur.pos]) then SkipRun(input, Step(input, cur), k) else cur
  }

  /** Where `get_string`'s loop stops, starting just after the opening
      quote: at the closing quote, or at a newline or NUL (after a
      backslash too, which makes the character after it literal). */
  function StringStop(input: seq<char>, cur: Cursor): (r: Cursor)
    requires At(input, cur)
    ensures At(input, r) && cur.pos <= r.pos
    ensures input[r.pos] == '"' || input[r.pos] == '\n' || input[r.pos] == NUL
    decreases |input| - cur.pos
  {
    if input[cur.pos] == '"' then cur
    else
      var c1 := if input[cur.pos] == '\\' then Step(input, cur) else cur;
      if input[c1.pos] == '\n' || input[c1.pos] == NUL then c1
      else StringStop(input, Step(input, c1))
  }

  // ---------------------------------------------------------------------
  // One scan

  /** The kind of a one-character punctuation token. */
  function PunctKind(x: char): Option<TokenType>
  {
    match x
    case ';' => Some(Semicolon)
    case '+' => Some(Plus)
    case '-' => Some(Minus)
    case '*' => Some(Multiply)
    case '/' => Some(Divide)
    case '(' => Some(LParen)
    case ')' => Some(RParen)
    case '{' => Some(LBrace)
    case '}' => Some(RBrace)
    case '[' => Some(LBracket)
    case ']' => Some(RBracket)
    case '<' => Some(LessThan)
    case '>' => Some(GreaterThan)
    case ',' => Some(Comma)
    case _ => None
  }

  /** The `switch` on the character under the cursor: `=` or `==`, or one
      punctuation character, whose lexeme is the last character consumed;
      anything else fails, leaving `tok` as it is. */
  function Single(input: seq<char>, c: Cursor, tok: Token): (r: Scanned)
    requires At(input, c)
    ensures r.ok <==> input[c.pos] == '=' || PunctKind(input[c.pos]).Some?
    ensures r.ok ==> && At(input, r.cursor) && c.pos < r.cursor.pos <= c.pos + 2
                     && r.token.lexeme == [input[r.cursor.pos - 1]]
    ensures !r.ok ==> r.cursor == c && r.token == tok
    ensures r.token.line == tok.line && r.token.column == tok.column
  {
    var x := input[c.pos];
    if x == '=' then
      var r := if input[c.pos + 1] == '=' then Step(input, Step(input, c)) else Step(input, c);
      var kind := if input[c.pos + 1] == '=' then Equals else Assign;
      Scanned(true, r, tok.(kind := kind, lexeme := input[r.pos - 1..r.pos]))
    else if PunctKind(x).Some? then
      var r := Step(input, c);
      Scanned(true, r, tok.(kind := PunctKind(x).value, lexeme := input[r.pos - 1..r.pos]))
    else
      Scanned(false, c, tok)
  }

  /** `get_string`, with the cursor on the opening quote. */
  function ScanString(input: seq<char>, c0: Cursor, base: Token): (r: Scanned)
    requires At(input, c0) && input[c0.pos] == '"'
    ensures At(input, r.cursor) && r.cursor.pos > c0.pos
    ensures r.ok ==> && r.token.kind == String && c0.pos + 1 < r.cursor.pos
                     && input[r.cursor.pos - 1] == '"'
                     && r.token.lexeme == input[c0.pos + 1..r.cursor.pos - 1]
    ensures !r.ok ==> r.token == base && (input[r.cursor.pos] == '\n' || input[r.cursor.pos] == NUL)
  {
    var c1 := Step(input, c0);
    var stop := StringStop(input, c1);
    if input[stop.pos] == '"' then
      Scanned(true, Step(input, stop), base.(kind := String, lexeme := input[c1.pos..stop.pos]))
    else
      Scanned(false, stop, base)
  }

  /** A number: the run of digits starting at the cursor. */
  function ScanNumber(input: seq<char>, c0: Cursor, base: Token): (r: Scanned)
    requires At(input, c0) && IsDigit(input[c0.pos])
    ensures && r.ok && r.token.kind == Number && At(input, r.cursor) && c0.pos < r.cursor.pos
            && r.token.lexeme == input[c0.pos..r.cursor.pos]
            && r.token.lexeme != []
            && (forall i | 0 <= i < |r.token.lexeme| :: IsDigit(r.token.lexeme[i]))
            && !IsDigit(input[r.cursor.pos])
  {
    var c1 := SkipRun(input, Step(input, c0), Digit);
    Scanned(true, c1, base.(kind := Number, lexeme := input[c0.pos..c1.pos]))
  }

  /** An identifier or `while`: the run of letters, digits and `_`
      starting at the cursor. */
  function ScanWord(input: seq<char>, c0: Cursor, base: Token): (r: Scanned)
    requires At(input, c0) && (IsAlpha(input[c0.pos]) || input[c0.pos] == '_')
    ensures && r.ok && At(input, r.cursor) && c0.pos < r.cursor.pos
            && r.token.lexeme == input[c0.pos..r.cursor.pos]
            && r.token.lexeme != []
            && (forall i | 0 <= i < |r.token.lexeme| :: InClass(Word, r.token.lexeme[i]))
            && !InClass(Word, input[r.cursor.pos])
            && r.token.kind == (if r.token.lexeme == "while" then While else Identifier)
  {
    var c1 := SkipRun(input, Step(input, c0), Word);
    var lexeme := input[c0.pos..c1.pos];
    Scanned(true, c1, base.(kind := if lexeme == "while" then While else Identifier, lexeme := lexeme))
  }

  /** `!=`, or else a `!` marked as `Exclamation` and then the `switch` on
      the following character. */
  function ScanBang(input: seq<char>, c0: Cursor, base: Token): (r: Scanned)
    requires At(input, c0) && input[c0.pos] == '!'
    ensures input[c0.pos + 1] == '=' ==> r.ok && r.token.kind == NotEquals && r.cursor.pos == c0.pos + 2
    ensures r.ok ==> r.token.kind != Exclamation && r.cursor.pos > c0.pos + 1
    ensures !r.ok ==> r.token == base.(kind := Exclamation) && r.cursor.pos == c0.pos + 1
  {
    var c1 := Step(input, c0);
    if input[c1.pos] == '=' then Scanned(true, Step(input, c1), base.(kind := NotEquals))
    else Single(input, c1, base.(kind := Exclamation))
  }

  /** `tokenizer_next_token`: skip white space, record where the token
      starts and clear the lexeme, then scan by the first character. A
      failure keeps the previous token's kind. */
  function Scan(input: seq<char>, cur: Cursor, prev: Token): (r: Scanned)
    requires At(input, cur)
    ensures r.token.line == SkipRun(input, cur, Space).line
    ensures r.token.column == SkipRun(input, cur, Space).column
    ensures !r.ok ==> && r.token.lexeme == []
                      && r.token.kind == (if FirstChar(input, cur) == '!' then Exclamation else prev.kind)
  {
    var c0 := SkipRun(input, cur, Space);
    var base := Token(prev.kind, [], c0.line, c0.column);
    var x := input[c0.pos];
    if x == NUL then
      Scanned(true, c0, base.(kind := EOF))
    else if IsDigit(x) then
      ScanNumber(input, c0, base)
    else if IsAlpha(x) || x == '_' then
      ScanWord(input, c0, base)
    else if x == '"' then
      ScanString(input, c0, base)
    else if x == '!' then
      ScanBang(input, c0, base)
    else
      Single(input, c0, base)
  }

  /** `tokenizer_init`: the cursor at the start of line 1, column 1, and
      the first scan done (its result is ignored). */
  function Start(input: seq<char>): (r: Scanned)
    requires WellFormed(input)
    ensures At(input, r.cursor)
    ensures !r.ok ==> r.token.kind == (if FirstChar(input, Cursor(0, 1, 1)) == '!' then Exclamation else EOF)
  {
    Scan(input, Cursor(0, 1, 1), Token(EOF, [], 0, 0))
  }

  // ---------------------------------------------------------------------
  // Properties of a scan

  /** The first character of the token: the one after the white space. */
  function FirstChar(input: seq<char>, cur: Cursor): char
    requires At(input, cur)
  {
    input[SkipRun(input, cur, Space).pos]
  }

  /** Every scan leaves the cursor in the source and never moves it back;
      a successful scan of anything but the end moves it forward. */
  lemma ScanAdvances(input: seq<char>, cur: Cursor, prev: Token)
    requires At(input, cur)
    ensures At(input, Scan(input, cur, prev).cursor)
    ensures Scan(input, cur, prev).cursor.pos >= cur.pos
    ensures Scan(input, cur, prev).ok && Scan(input, cur, prev).token.kind != EOF ==>
      Scan(input, cur, prev).cursor.pos > cur.pos
  {
  }

  /** At the terminator the scan succeeds with an empty `EOF` token and
      stays put, so every later scan returns `EOF` again. */
  lemma ScanAtEnd(input: seq<char>, cur: Cursor, prev: Token)
    requires At(input, cur) && FirstChar(input, cur) == NUL
    ensures var s := Scan(input, cur, prev);
      s.ok && s.token.kind == EOF && s.token.lexeme == [] && s.cursor == SkipRun(input, cur, Space)
    ensures var s := Scan(input, cur, prev);
      Scan(input, s.cursor, s.token) == s
  {
    var c0 := SkipRun(input, cur, Space);
    assert SkipRun(input, c0, Space) == c0;
  }

  /** A token starting with a digit is a number whose lexeme is the
      longest run of digits there. */
  lemma NumberIsMaximalRun(input: seq<char>, cur: Cursor, prev: Token)
    requires At(input, cur) && IsDigit(FirstChar(input, cur))
    ensures var s := Scan(input, cur, prev); var start := SkipRun(input, cur, Space).pos;
      && s.ok && s.token.kind == Number
      && s.token.lexeme == input[start..s.cursor.pos]
      && s.token.lexeme != []
      && (forall i | 0 <= i < |s.token.lexeme| :: IsDigit(s.token.lexeme[i]))
      && !IsDigit(input[s.cursor.pos])
  {
    var c0 := SkipRun(input, cur, Space);
    var base := Token(prev.kind, [], c0.line, c0.column);
    assert Scan(input, cur, prev) == ScanNumber(input, c0, base);
  }

  /** A token starting with a letter or `_` is the longest run of letters,
      digits and `_` there; it is `While` exactly when its text is
      `while`, and an `Identifier` otherwise. */
  lemma WordIsMaximalRun(input: seq<char>, cur: Cursor, prev: Token)
    requires At(input, cur)
    requires IsAlpha(FirstChar(input, cur)) || FirstChar(input, cur) == '_'
    ensures var s := Scan(input, cur, prev); var start := SkipRun(input, cur, Space).pos;
      && s.ok
      && s.token.lexeme == input[start..s.cursor.pos]
      && s.token.lexeme != []
      && (forall i | 0 <= i < |s.token.lexeme| :: InClass(Word, s.token.lexeme[i]))
      && !InClass(Word, input[s.cursor.pos])
      && s.token.kind == (if s.token.lexeme == "while" then While else Identifier)
  {
    var c0 := SkipRun(input, cur, Space);
    var base := Token(prev.kind, [], c0.line, c0.column);
    assert !IsDigit(input[c0.pos]);
    assert Scan(input, cur, prev) == ScanWord(input, c0, base);
  }

  /** `==` is one `Equals` token and a lone `=` an `Assign` token; either
      way the lexeme is the last `=` consumed. */
  lemma EqualsSigns(input: seq<char>, cur: Cursor, prev: Token)
    requires At(input, cur) && FirstChar(input, cur) == '='
    ensures var c0 := SkipRun(input, cur, Space); var s := Scan(input, cur, prev);
      && s.ok && s.token.lexeme == "="
      && s.token.kind == (if input[c0.pos + 1] == '=' then Equals else Assign)
      && s.cursor.pos == c0.pos + (if input[c0.pos + 1] == '=' then 2 else 1)
  {
    var c0 := SkipRun(input, cur, Space);
    var base := Token(prev.kind, [], c0.line, c0.column);
    assert Scan(input, cur, prev) == Single(input, c0, base);
  }

  /** `!=` is one `NotEquals` token. */
  lemma NotEqualsSign(input: seq<char>, cur: Cursor, prev: Token)
    requires At(input, cur) && FirstChar(input, cur) == '!'
    requires input[SkipRun(input, cur, Space).pos + 1] == '='
    ensures var c0 := SkipRun(input, cur, Space); var s := Scan(input, cur, prev);
      s.ok && s.token.kind == NotEquals && s.cursor.pos == c0.pos + 2
  {
    ScanIsBang(input, cur, prev);
  }

  /** With `!` first, the scan is the `!` branch. */
  lemma ScanIsBang(input: seq<char>, cur: Cursor, prev: Token)
    requires At(input, cur) && FirstChar(input, cur) == '!'
    ensures var c0 := SkipRun(input, cur, Space);
      Scan(input, cur, prev) == ScanBang(input, c0, Token(prev.kind, [], c0.line, c0.column))
  {
  }

  /** A string token's lexeme is the text strictly between its quotes; the
      scan fails when a newline or NUL comes first, keeping the previous
      kind with an empty lexeme. */
  lemma StringBetweenQuotes(input: seq<char>, cur: Cursor, prev: Token)
    requires At(input, cur) && FirstChar(input, cur) == '"'
    ensures var c0 := SkipRun(input, cur, Space); var s := Scan(input, cur, prev);
      var stop := StringStop(input, Step(input, c0));
      && (s.ok <==> input[stop.pos] == '"')
      && (s.ok ==> s.token.kind == String && s.token.lexeme == input[c0.pos + 1..stop.pos]
                   && s.cursor.pos == stop.pos + 1)
      && (!s.ok ==> s.token.kind == prev.kind && s.token.lexeme == [])
  {
    var c0 := SkipRun(input, cur, Space);
    var base := Token(prev.kind, [], c0.line, c0.column);
    assert Scan(input, cur, prev) == ScanString(input, c0, base);
  }

  /** A backslash makes the next character part of the string, even a
      quote: the loop goes on past it. */
  lemma EscapedQuote(input: seq<char>, cur: Cursor)
    requires At(input, cur) && input[cur.pos] == '\\' && input[cur.pos + 1] == '"'
    ensures StringStop(input, cur).pos > cur.pos + 1
  {
  }

  /** A character that starts no token makes the scan fail. */
  lemma UnexpectedCharacter(input: seq<char>, cur: Cursor, prev: Token)
    requires At(input, cur)
    requires var x := FirstChar(input, cur);
      x != NUL && !IsDigit(x) && !IsAlpha(x) && x != '_' && x != '"' && x != '!' && x != '='
      && PunctKind(x).None?
    ensures !Scan(input, cur, prev).ok
    ensures Scan(input, cur, prev).cursor == SkipRun(input, cur, Space)
  {
  }

  /** A `!` not followed by `=` never yields an `Exclamation` token: the
      scan goes on to the `switch` on the next character, which either
      fails or overwrites the kind, so no successful scan returns
      `Exclamation`. */
  lemma NoExclamationToken(input: seq<char>, cur: Cursor, prev: Token)
    requires At(input, cur)
    ensures Scan(input, cur, prev).ok ==> Scan(input, cur, prev).token.kind != Exclamation
  {
  }

  /** For instance `!;` scans as a `Semicolon` token (the `!` is lost),
      and `!x` fails. */
  lemma LoneBang(input: seq<char>, cur: Cursor, prev: Token)
    requires At(input, cur) && FirstChar(input, cur) == '!'
    ensures var c0 := SkipRun(input, cur, Space); var s := Scan(input, cur, prev);
      input[c0.pos + 1] == ';' ==> s.ok && s.token.kind == Semicolon && s.cursor.pos == c0.pos + 2
    ensures var c0 := SkipRun(input, cur, Space); var s := Scan(input, cur, prev);
      IsAlpha(input[c0.pos + 1]) ==> !s.ok
  {
    ScanIsBang(input, cur, prev);
    var c0 := SkipRun(input, cur, Space);
    var x := input[c0.pos + 1];
    assert IsAlpha(x) ==> x != '=' && PunctKind(x).None?;
  }
}

/** The tokenizer's globals (`input_code`, `c`, `line`, `column`,
    `current_token`) as an object. */
module Tokenizer {
  import opened Lexer

  class Tokenizer {
    const input: seq<char>
    var pos: nat
    var line: nat
    var column: nat
    var current: Token

    function Cur(): Cursor
      reads this
    {
      Cursor(pos, line, column)
    }

    ghost predicate Valid()
      reads this
    {
      At(input, Cur())
    }

    /** `tokenizer_init`: start at line 1, column 1 with an empty `EOF`
        token and scan the first token, ignoring whether that failed. */
    constructor Init(source: seq<char>)
      requires WellFormed(source)
      ensures Valid() && input == source
      ensures Cur() == Start(source).cursor && current == Start(source).token
    {
      input := source;
      pos := 0;
      line := 1;
      column := 1;
      current := Token(EOF, [], 0, 0);
      new;
      var _ := NextToken();
    }

    /** `next_char`. */
    method NextChar()
      requires Valid() && input[pos] != NUL
      modifies this`pos, this`line, this`column
      ensures Cur() == Step(input, old(Cur()))
    {
      pos := pos + 1;
      if input[pos] == '\n' {
        line := line + 1;
        column := 1;
      }
      column := column + 1;
    }

    /** The `while` loops of `skip_whitespace` and of the number and
        identifier scans: step over the run of class `k`. */
    method SkipClass(k: CharClass)
      requires Valid()
      modifies this`pos, this`line, this`column
      ensures Cur() == SkipRun(input, old(Cur()), k)
    {
      while InClass(k, input[pos])
        invariant Valid()
        invariant SkipRun(input, Cur(), k) == SkipRun(input, old(Cur()), k)
        decreases |input| - pos
      {
        NextChar();
      }
    }

    /** `get_string`, with the cursor on the opening quote. */
    method GetString() returns (ok: bool)
      requires Valid() && input[pos] == '"'
      modifies this`pos, this`line, this`column, this`current
      ensures Scanned(ok, Cur(), current) == ScanString(input, old(Cur()), old(current))
    {
      NextChar();
      var start := pos;
      ghost var target := StringStop(input, Cur());
      while input[pos] != '"'
        invariant Valid() && start <= pos
        invariant StringStop(input, Cur()) == target
        invariant current == old(current)
        decreases |input| - pos
      {
        ghost var h := Cur();
        if input[pos] == '\\' {
          NextChar();
        }
        assert Cur() == if input[h.pos] == '\\' then Step(input, h) else h;
        if input[pos] == '\n' || input[pos] == NUL {
          assert StringStop(input, h) == Cur();
          return false;
        }
        NextChar();
      }
      var lexeme := input[start..pos];
      NextChar();
      current := current.(kind := String, lexeme := lexeme);
      return true;
    }

    /** The `switch` on the current character. */
    method ScanSingle() returns (ok: bool)
      requires Valid()
      modifies this`pos, this`line, this`column, this`current
      ensures Scanned(ok, Cur(), current) == Single(input, old(Cur()), old(current))
    {
      var x := input[pos];
      if x == '=' {
        if input[pos + 1] == '=' {
          current := current.(kind := Equals);
          NextChar();
        } else {
          current := current.(kind := Assign);
        }
        NextChar();
      } else if PunctKind(x).Some? {
        current := current.(kind := PunctKind(x).value);
        NextChar();
      } else {
        return false;
      }
      current := current.(lexeme := input[pos - 1..pos]);
      return true;
    }

    /** `tokenizer_next_token`. */
    method NextToken() returns (ok: bool)
      requires Valid()
      modifies this`pos, this`line, this`column, this`current
      ensures Valid()
      ensures Scanned(ok, Cur(), current) == Scan(input, old(Cur()), old(current))
    {
      SkipClass(Space);
      current := Token(current.kind, [], line, column);
      var x := input[pos];
      if x == NUL {
        current := current.(kind := EOF);
        return true;
      }
      if IsDigit(x) {
        var start := pos;
        NextChar();
        SkipClass(Digit);
        current := current.(kind := Number, lexeme := input[start..pos]);
        return true;
      }
      if IsAlpha(x) || x == '_' {
        var start := pos;
        NextChar();
        SkipClass(Word);
        var lexeme := input[start..pos];
        current := current.(kind := if lexeme == "while" then While else Identifier, lexeme := lexeme);
        return true;
      }
      if x == '"' {
        ok := GetString();
        return;
      }
      if x == '!' {
        NextChar();
        if input[pos] == '=' {
          NextChar();
          current := current.(kind := NotEquals);
          return true;
        }
        current := current.(kind := Exclamation);
      }
      ok := ScanSingle();
    }

    /** `tokenizer_consume`: scan on when the current token has the
        expected kind; otherwise fail and change nothing. */
    method Consume(expected: TokenType) returns (ok: bool)
      requires Valid()
      modifies this`pos, this`line, this`column, this`current
      ensures Valid()
      ensures old(current.kind) == expected ==>
        Scanned(ok, Cur(), current) == Scan(input, old(Cur()), old(current))
      ensures old(current.kind) != expected ==>
        !ok && Cur() == old(Cur()) && current == old(current)
    {
      if current.kind == expected {
        ok := NextToken();
        return;
      }
      return false;
    }
  }
}
