# mortar, modelled in Dafny

mortar is a tiny compile-and-run compiler written in C. Its tokenizer turns
source text into tokens. A recursive-descent parser builds an abstract
syntax tree from them. A code generator walks the tree. It appends x86-64
instructions to an executable buffer and lays out variables in a stack
frame. The compiler keeps two registries on an open-addressing hash table:
the built-in types and the lexical scope. The small utilities are string
views, a checked decimal-to-`int32` conversion and a doubling dynamic array.

This project models each of those pieces in Dafny, file by file, and proves
what the code promises about them:

- `common.dfy` holds `Option` and the machine integer ranges.
- `strview.dfy` models string views and `strview_to_int` (module `StrView`).
- `assembler.dfy` models the byte emitter as a class over the 4096-byte
  code buffer, with the encodings of the Intel 64 instruction set reference
  (module `Assembler`).
- `hash_table.dfy` models the hash table as a class over its entry array.
  The table invariant and the rehash are value-level lemmas in
  `HashProbing`, and the class is `HashTab`. `HashResize` holds the resize
  as written, whose mask goes stale.
- `lexical_scope.dfy` and `types.dfy` are the two registries over the
  table.
- `stack_frame.dfy` models the frame allocator as a class over the
  100-item array. The layout it produces is specified by `FrameLayout`.
- `darray.dfy` models the dynamic array.
- `lexer.dfy` specifies the scanner as functions of the source text
  (`Lexer`). The class `Tokenizer` walks the text and is proved to compute
  those functions.
- `parser.dfy` specifies the parser as functions of the sequence of
  tokenizer results (`Syntax`). Grammar laws are in `SyntaxLaws`. The class
  `Parser` holds `current_token`, `g_is_valid` and the read position, and is
  proved to compute the `Syntax` functions.
- `code_gen.dfy` models the generator:
  - `CodeGenSpec` specifies what each `gen_*` function appends, as
    abstract instructions.
  - `CodeGenLaws` proves where the jumps go and how a function is laid
    out.
  - `CodeGen` holds the generator as a class that appends to the code and
    adds slots to a `StackFrame.Frame`. It is proved against `CodeGenSpec`.
  - `CodeGenMeaning` gives the expression instructions a register-machine
    meaning, following the convention stated at code_gen.c:18-20. It
    proves what value the emitted code leaves in RAX.

Fatal errors are failure outcomes rather than process exits. This covers
`FATAL_ERROR`, `DBG_BREAK`, a failed `assert`, and a NULL from
`lscope_get` that is then dereferenced. A generator or allocator method
reports them as `false` or `None`.

The repository's files come from different iterations, and some headers
disagree with the code. The model follows the `.c` files wherever they do:

- `parser.h:18-51` declares a syntax tree with a unary node and no block,
  call, declaration or loop nodes. `parser.c` builds number, identifier,
  assignment and binary nodes; that is `Syntax.Node`. `code_gen.c` walks a
  richer tree; that is `CodeGenSpec.AstNode`.
- `stack_frame.h:8` says `sframe_add_variable` returns an offset.
  `stack_frame.c:33` returns nothing.
- `lexical_scope.h:8-9` declares `lscope_add` without a type and an
  `lscope_contains`. `lexical_scope.c` has `lscope_add(identifier, type)`
  and `lscope_get`.
- `darray.h:18` names the append function `darray_insert`.
  `darray.c:6` defines `darray_append`.
- `assembler.h:27` gives `asm_emit_func_exit` a frame-size argument.
  `code_gen.c:184-187` patches the entry and calls the exit without one.
- `tokenizer.h` lacks several token kinds that `tokenizer.c` produces
  (`TOKEN_WHILE`, `TOKEN_STRING`, `TOKEN_EQUALS` and others).
  `Lexer.TokenType` is the union of both.

Four defects are recorded under "## Findings". In each case the as-written
behaviour is modelled and exhibited by a lemma, and the corrected behaviour
is what the rest of the model uses. Three more behaviours are modelled as
written and stated as lemmas:

- A lone `!` falls into the single-character `switch` and is lost
  (`Lexer.LoneBang`, `Lexer.NoExclamationToken`).
- A repeated declaration is accepted but unreachable
  (`FrameLayout.FirstOffsetKept`, `LexicalScope.Scope.Add`).
- A right operand that is itself a sum overwrites the left operand parked
  in RCX (`CodeGenMeaning.RightSumClobbersRcx`).

## Model

| member | source | states |
|---|---|---|
| StrView.StrLen | strview.h:29 | `strlen`: the count of characters before the first NUL, which is the NUL's index when there is one |
| StrView.MemEqual | strview.h:39 | `memcmp(a, b, n) == 0` exactly when the first `n` characters agree |
| StrView.Create | strview.h:24-26 | the view holds the given pointer and length, and denotes the first `len` characters |
| StrView.CreateFromCString | strview.h:28-30 | the view's length reaches the first NUL and its text holds no NUL |
| StrView.Empty | strview.h:32-34 | the empty view has length 0 and no text |
| StrView.Cmp | strview.h:36-40 | true exactly when both views denote the same text; hence reflexive and symmetric |
| StrView.CmpCStr | strview.c:8-13 | true exactly when the view's text equals the C string up to its NUL |
| StrView.SignedDecimal | strview.c:15-48 | text accepted by the conversion is never empty |
| StrView.DecimalValuePrefix | strview.c:37-43 | a prefix of a digit run has no larger value, so checking range after every digit is the same as checking it at the end |
| StrView.AccumulateDigits | strview.c:33-44 | the digit loop succeeds exactly when every character is a digit and the magnitude fits `int32` for the sign; its value is then the decimal value |
| StrView.ToInt | strview.c:15-48 | succeeds exactly on a non-null view whose text is an optional sign and then decimal digits in `int32` range; the output is that signed value on success and is left unwritten on failure |
| StrView.DigitsOf | strview.c:33-37 | every natural number has a non-empty decimal digit string |
| StrView.DecimalValueOfDigits | strview.c:33-37 | the digits of `n` read back as `n` |
| StrView.FormatRoundTrip | strview.c:15-48 | every `int32` written in decimal converts back to itself |
| Assembler.LittleEndian | assembler.c:76 | `memcpy` of a 64-bit value gives exactly 8 bytes |
| Assembler.LittleEndianRoundTrip | assembler.c:76 | the little-endian bytes of a value below 256^n read back as the value |
| Assembler.Encode | assembler.c:26-91 | each instruction's bytes follow the manual's formulas: `REX.W 83 /5 ib`, `REX.W 83 /0 ib`, `50+rd`, `58+rd`, `REX.W B8+rd io`, `FF /2`, `C3` |
| Assembler.DecodeEncode | assembler.c:26-91 | every encoding decodes back to its own instruction and length, whatever bytes follow it |
| Assembler.PushRdxAsWrittenIsPushRcx | assembler.c:46-54 | as written, push RDX emits the same byte as push RCX, decodes as `push rcx`, and differs from the correct encoding |
| Assembler.PushOpcode | assembler.c:46-54 | the `push` opcode byte is `50+rd` |
| Assembler.PushOpcodeAsWritten | assembler.c:46-54 | as written, the byte differs from `50+rd` exactly for RDX, which gets RCX's byte |
| Assembler.PopOpcode | assembler.c:56-64 | the `pop` opcode byte is `58+rd` |
| Assembler.MovImmOpcode | assembler.c:66-78 | the `mov r64, imm64` opcode byte is `B8+rd` |
| Assembler.CodeBuffer.Init | assembler.c:17-24 | the buffer starts empty over a fresh, zeroed region of 0x1000 bytes |
| Assembler.CodeBuffer.EmitStackAlloc | assembler.c:26-34 | appends `48 83 EC n`; the size grows by 4; bytes beyond the new size are unchanged |
| Assembler.CodeBuffer.EmitStackDealloc | assembler.c:36-44 | appends `48 83 C4 n`; the size grows by 4; bytes beyond the new size are unchanged |
| Assembler.CodeBuffer.EmitPushReg | assembler.c:46-54 | appends the one byte `50+rd` for the register (corrected for RDX); the size grows by 1 |
| Assembler.CodeBuffer.EmitPopReg | assembler.c:56-64 | appends `58`, `59` or `5A` for RAX, RCX or RDX; the size grows by 1 |
| Assembler.CodeBuffer.EmitMovImm64 | assembler.c:66-78 | appends `48`, then `B8+rd`, then the value's 8 bytes in little-endian order; the size grows by 10 |
| Assembler.CodeBuffer.EmitCallRax | assembler.c:80-85 | appends `FF D0`; the size grows by 2 |
| Assembler.CodeBuffer.EmitRet | assembler.c:87-91 | appends `C3`; the size grows by 1 |
| HashProbing.CharBits | hash_table.c:17 | a signed `char` added to the unsigned hash stays below 2^32 |
| HashProbing.Djb2 | hash_table.c:15-17 | djb2 over the key, from 5381 with `h * 33 + c` modulo 2^32, is below 2^32 |
| HashProbing.MaskAnd | hash_table.c:18 | `x & mask` never exceeds the mask |
| HashProbing.StepWraps | hash_table.c:24 | with a `2^k - 1` mask, `(idx + 1) & mask` steps forward and wraps from the mask to 0 |
| HashProbing.Home | hash_table.c:13-18 | the first probed slot lies within the mask |
| HashProbing.ResizeDueExact | hash_table.c:66 | with `capacity * 0.7` taken as the exact product of the capacity and the double nearest 0.7 (which the double-precision product is for every power-of-two capacity, the only kind a table has), the trigger `count >= capacity * 0.7` is exactly `10 * count >= 7 * capacity` for every capacity below 2^32 |
| HashProbing.TableSource | hash_table.c:30-32 | a valid table can serve as the source of a rehash |
| HashProbing.KeysBelowStep | hash_table.c:42-48 | visiting one old slot adds exactly its key, if any, to the keys already re-inserted |
| HashProbing.RehashStart | hash_table.c:36-39 | the rehash starts from an empty table with count 0 |
| HashProbing.RehashReady | hash_table.c:42-45 | before each re-insertion, the new table still has an empty slot and does not yet hold the key |
| HashProbing.RehashAdvance | hash_table.c:42-48 | re-inserting an occupied old slot, or skipping an empty one, keeps the rehash invariant |
| HashProbing.RehashFinish | hash_table.c:42-49 | after the loop the new table holds exactly the old key/value pairs, with count equal to the number of keys |
| HashProbing.EmptyTable | hash_table.c:57-63 | a zeroed power-of-two array is a valid empty table |
| HashProbing.FullMeansManyKeys | hash_table.c:21-25 | a table with every slot occupied holds at least as many keys as slots |
| HashProbing.EmptySlotExists | hash_table.c:21-25 | while fewer keys than slots are stored, some slot is empty, so the probe loop ends |
| HashProbing.ProbeOutcome | hash_table.c:13-28 | a probe that stops at an equal key or an empty slot finds the key's slot if it is stored; otherwise it finds an empty slot ending a full probe path |
| HashProbing.StorePreserves | hash_table.c:78-82 | writing a new key into the empty slot that ends its probe path keeps the table invariant and adds the pair |
| HashProbing.OverwritePreserves | hash_table.c:72-76 | replacing a stored key's value keeps the invariant and changes only that key's value |
| HashTab.HashTable.Create | hash_table.c:57-63 | capacity 16, mask 15, count 0, every slot empty, no contents |
| HashTab.HashTable.HomeSlot | hash_table.c:13-18 | the hash loop computes djb2 of the key ANDed with the mask |
| HashTab.HashTable.Probe | hash_table.c:20-27 | the probe loop stops at the key or at an empty slot, having passed only occupied slots holding other keys |
| HashTab.HashTable.FindSlot | hash_table.c:13-28 | `get_idx` returns the key's slot when the key is stored, and otherwise the empty slot ending its probe path |
| HashTab.HashTable.Store | hash_table.c:78-82 | the new entry is written at `idx`; count grows by 1; the key is added to the contents |
| HashTab.HashTable.Overwrite | hash_table.c:72-76 | only the value at `idx` changes; count and slots are unchanged |
| HashTab.HashTable.Insert | hash_table.c:45-47 | one re-insertion adds the key and its value and increments count |
| HashTab.HashTable.Reset | hash_table.c:31-39 | a fresh zeroed array of the new capacity, with count 0 and no contents |
| HashTab.HashTable.Rehash | hash_table.c:41-49 | the rehash loop re-inserts exactly the old pairs; count ends equal to the number of keys |
| HashTab.HashTable.RehashEntry | hash_table.c:42-48 | one loop iteration advances the rehash invariant by one old slot |
| HashTab.HashTable.Resize | hash_table.c:30-52 | capacity doubles, the mask follows it (corrected), and the contents and count are preserved |
| HashTab.HashTable.Put | hash_table.c:65-83 | after a put the key maps to the value and every other key is unchanged; when the 70% trigger fires the capacity doubles and count is first reset to the number of stored keys (an empty key counted earlier is dropped then); count then grows by 1 exactly when the key was not stored (an empty key included, which is counted but never found) |
| HashTab.HashTable.Get | hash_table.c:85-90 | returns the stored value of a present key and NULL (`None`) for an absent one |
| HashResize.PutNewAsWritten | hash_table.c:30-67 | as written, a put of a new key keeps the mask, counts the key, and doubles the capacity exactly when a resize is due |
| HashResize.PutNew | hash_table.c:30-67 | with the mask recomputed, a put of a new key keeps `mask + 1 == capacity`, counts the key, and doubles the capacity exactly when a resize is due |
| HashResize.PutsAsWritten | hash_table.c:30-67 | as written, any number of new keys leave the mask as created, count each key and never shrink the capacity |
| HashResize.Puts | hash_table.c:65-67 | with the mask kept in step, capacity never shrinks and count grows by one per new key |
| HashResize.FirstTwelveAsWritten | hash_table.c:65-67 | as written, the first 12 new keys leave capacity 16 and mask 15 |
| HashResize.AfterTwelveAsWritten | hash_table.c:30-36 | as written, the 13th to 16th new keys see capacity 32 but mask still 15 |
| HashResize.SixteenPutsAsWritten | hash_table.c:30-36 | as written, 16 new keys give capacity 32, mask 15 and count 16, and no further resize is due |
| HashResize.SlotsFilled | hash_table.c:21-25 | when as many distinct slots as the mask allows are occupied, every slot up to the mask is occupied |
| HashResize.ProbeNeverStops | hash_table.c:21-25 | when every slot up to the mask holds another key, the probe loop finds no stopping slot, however long it runs |
| HashResize.PutNewKeepsRoom | hash_table.c:35 | with the mask recomputed, a put of a new key keeps `mask + 1 == capacity` and an empty slot |
| HashResize.SixteenPuts | hash_table.c:35 | with the mask recomputed, 16 new keys leave capacity 32 and mask 31 |
| HashResize.FirstTwelve | hash_table.c:65-67 | with the mask recomputed, the first 12 new keys leave capacity 16 and mask 15 |
| LexicalScope.Scope.constructor | lexical_scope.c:8 | the zero-initialised global has no table yet |
| LexicalScope.Scope.Init | lexical_scope.c:11-13 | a fresh empty table; every later lookup before an add returns NULL |
| LexicalScope.Scope.Add | lexical_scope.c:15-17 | binds the identifier to the type, replacing any earlier binding silently; other names are unchanged |
| LexicalScope.Scope.Get | lexical_scope.c:19-21 | the bound type, or NULL (`None`) for an unbound name |
| Types.Registry.constructor | types.c:5 | the zero-initialised global has no table yet |
| Types.Registry.Init | types.c:8-20 | a fresh table holding exactly `u8` of 1 byte and `u64` of 8 bytes, with count 2 |
| FrameLayout.Layout | stack_frame.c:33-41 | one item per declaration, in declaration order |
| FrameLayout.LayoutAt | stack_frame.c:37-40 | the i-th item carries the i-th name at the total size of the earlier declarations |
| FrameLayout.FrameSizeGrows | stack_frame.c:40 | a later declaration starts at or after the end of an earlier one |
| FrameLayout.ItemsDisjoint | stack_frame.c:37-40 | the byte ranges of two different items do not overlap |
| FrameLayout.ItemsTile | stack_frame.c:37-40 | the items tile the frame: the first starts at 0, each starts where the previous ends, and the last ends at the frame size |
| FrameLayout.FirstOffset | stack_frame.c:43-52 | the lookup finds nothing exactly when no item has the name; otherwise it finds the earliest item with the name |
| FrameLayout.FirstOffsetKept | stack_frame.c:43-48 | once a name is found, a later item with the same name never changes the lookup: duplicates are accepted and shadowed |
| FrameLayout.LayoutAppend | stack_frame.c:37-40 | one more declaration appends one item at the old frame size and grows the size by its bytes |
| StackFrame.Frame.constructor | stack_frame.c:25 | the static starts with no declarations over a fresh 100-item array |
| StackFrame.Frame.Init | stack_frame.c:28-31 | `num_items` and `current_offset` become 0; the item array is kept |
| StackFrame.Frame.AddVariable | stack_frame.c:33-41 | fails exactly when 100 items are taken, changing nothing; otherwise the new item sits at the old offset, `num_items` grows by 1 and the offset by `num_bytes` |
| StackFrame.Frame.GetVariableOffset | stack_frame.c:43-52 | the offset of the earliest item with the name, or a failure (the fatal error) when none has it |
| StackFrame.Frame.Size | stack_frame.c:54-56 | the sum of the sizes of every declaration since init, which bounds every item's offset |
| StackFrame.FirstSkip | stack_frame.c:44-48 | the scan passes items with other names and returns the first match |
| StackFrame.ItemsBelowSize | stack_frame.c:54-56 | every item starts within the frame |
| DynArray.Grown | darray.c:9-14 | a full array always grows |
| DynArray.DArray.constructor | darray.h:11-15 | a zeroed array: no storage, size and capacity 0 |
| DynArray.DArray.Append | darray.c:6-20 | the element lands at the old size; earlier elements are unchanged; size grows by 1; a full array grows to 2 or doubles, otherwise the storage is kept; `size <= capacity` is kept |
| DynArray.DArray.Free | darray.c:22-26 | data becomes NULL and size and capacity 0 |
| Lexer.IsDigit | tokenizer.c:12 | a digit is neither NUL nor a letter |
| Lexer.IsSpace | tokenizer.c:13 | a space character is neither NUL, a digit, a letter nor `_` |
| Lexer.IsAlpha | tokenizer.c:14 | setting bit 5 and testing for `a`..`z` accepts exactly the ASCII letters of either case |
| Lexer.IsAlnum | tokenizer.c:15 | accepts exactly the ASCII letters and digits |
| Lexer.Step | tokenizer.c:24-32 | `next_char` moves one character forward and stays in the text |
| Lexer.Walk | tokenizer.c:24-32 | `n` calls of `next_char` from the start of the text reach position `n` |
| Lexer.LastNewline | tokenizer.c:27-30 | the last newline at or before a position, after which there is none up to it |
| Lexer.WalkLine | tokenizer.c:27-29 | `line` is 1 plus the number of newlines the cursor has arrived on |
| Lexer.WalkColumn | tokenizer.c:27-31 | `column` is the position plus 1 on the first line and counts from 2 at each newline, so every later line starts at column 3 |
| Lexer.SkipRun | tokenizer.c:34-38 | a skipping loop stops at the first character outside its class, having passed only characters in it |
| Lexer.StringStop | tokenizer.c:54-64 | the string loop stops at a quote, newline or NUL, never moving back |
| Lexer.Single | tokenizer.c:127-159 | the `switch` succeeds exactly on `=` or a punctuation character, consuming it (and a second `=` of `==`) with a one-character lexeme; otherwise it fails where it stands with the token unchanged |
| Lexer.ScanString | tokenizer.c:51-70 | always moves past the opening quote; success means a `String` token whose lexeme is the text strictly between the quotes, ending just after the closing quote; failure leaves the token as it was and stops at a newline or NUL |
| Lexer.ScanNumber | tokenizer.c:85-95 | always succeeds with a `Number` token whose lexeme is the non-empty run of digits from the cursor, which ends before a non-digit |
| Lexer.ScanWord | tokenizer.c:97-111 | always succeeds with the maximal run of letters, digits and `_` as lexeme, of kind `While` or `Identifier` |
| Lexer.ScanBang | tokenizer.c:116-159 | `!=` gives `NotEquals` two characters on; any other success is not `Exclamation` and lies past the `!`; a failure keeps the kind `Exclamation` and stops just after the `!` |
| Lexer.Scan | tokenizer.c:73-160 | the token starts at the line and column after the skipped spaces; a failure leaves an empty lexeme and the previous kind, or `Exclamation` after a `!` |
| Lexer.Start | tokenizer.c:40-49 | `tokenizer_init` scans from the start of the text at line 1, column 1; a failure leaves the kind `EOF`, or `Exclamation` after a first `!` |
| Lexer.ScanAdvances | tokenizer.c:73-160 | a scan keeps the cursor in the text and never moves it back; a successful scan of anything but the end moves it forward |
| Lexer.ScanAtEnd | tokenizer.c:74-83 | at the NUL the scan succeeds with an empty `EOF` token and stays put, so later scans return `EOF` again |
| Lexer.NumberIsMaximalRun | tokenizer.c:85-95 | a token starting with a digit is a number whose lexeme is the longest run of digits there |
| Lexer.WordIsMaximalRun | tokenizer.c:97-111 | a token starting with a letter or `_` is the longest run of letters, digits and `_`; it is `while` exactly when the text is `while`, otherwise an identifier |
| Lexer.EqualsSigns | tokenizer.c:129-138 | `==` is one `Equals` token and a lone `=` one `Assign` token |
| Lexer.NotEqualsSign | tokenizer.c:116-122 | `!=` is one `NotEquals` token of two characters |
| Lexer.ScanIsBang | tokenizer.c:116-125 | with `!` first after the spaces, the scan is the `!` branch from there |
| Lexer.StringBetweenQuotes | tokenizer.c:51-70 | a string's lexeme is the text strictly between its quotes; a newline or NUL first makes the scan fail with an empty lexeme |
| Lexer.EscapedQuote | tokenizer.c:55-57 | a backslash makes the next character, even a quote, part of the string |
| Lexer.UnexpectedCharacter | tokenizer.c:152-155 | a character that starts no token makes the scan fail where it stands |
| Lexer.NoExclamationToken | tokenizer.c:116-127 | no successful scan returns an `Exclamation` token: a lone `!` falls into the `switch` |
| Lexer.LoneBang | tokenizer.c:116-128 | `!;` scans as a `Semicolon` token, losing the `!`, and `!` before a letter fails |
| Tokenizer.Tokenizer.Init | tokenizer.c:40-49 | the cursor starts at line 1, column 1 with an empty `EOF` token, then the first token is scanned |
| Tokenizer.Tokenizer.NextChar | tokenizer.c:24-32 | the cursor, line and column move as `Lexer.Step` says |
| Tokenizer.Tokenizer.SkipClass | tokenizer.c:34-38 | the loop leaves the cursor where `Lexer.SkipRun` stops |
| Tokenizer.Tokenizer.GetString | tokenizer.c:51-70 | result, cursor and token are those of `Lexer.ScanString` |
| Tokenizer.Tokenizer.ScanSingle | tokenizer.c:127-159 | result, cursor and token are those of the single-character `switch`, `Lexer.Single` |
| Tokenizer.Tokenizer.NextToken | tokenizer.c:73-160 | result, cursor and token are those of `Lexer.Scan` |
| Tokenizer.Tokenizer.Consume | tokenizer.c:162-174 | scans on only when the current kind is the expected one; otherwise returns false and changes nothing |
| Syntax.Advance | tokenizer.c:73-83 | one tokenizer call reads the next result: its token on success; on failure an empty lexeme and the previous kind, or `Exclamation` after a `!` |
| Syntax.Consume | tokenizer.c:162-174 | reads on only when the current kind is the expected one; otherwise the state is unchanged |
| Syntax.SetError | parser.c:16-19 | clears `g_is_valid` and nothing else |
| Syntax.ParseLeaf | parser.c:49-60 | a number or identifier factor returns a node exactly when the parse stays valid |
| Syntax.ParseFactor | parser.c:47-72 | a node is returned exactly when `g_is_valid` stays set; the parser never reads backwards |
| Syntax.TermTail | parser.c:77-86 | the `*`/`/` loop returns a node exactly when the parse stays valid |
| Syntax.ParseTerm | parser.c:74-88 | a node is returned exactly when the parse stays valid |
| Syntax.ExprTail | parser.c:93-102 | the `+`/`-` loop returns a node exactly when the parse stays valid |
| Syntax.ParseExpression | parser.c:90-104 | a node is returned exactly when the parse stays valid |
| Syntax.ParseAssignmentAsWritten | parser.c:107-141 | the put-back as written: a node is returned exactly when the parse stays valid |
| Syntax.ParseAssignment | parser.c:107-141 | with the look-ahead put back in full, a node is returned exactly when the parse stays valid |
| Syntax.AssignmentRest | parser.c:113-125 | after `=` the result is an assignment whose target is the identifier read |
| Syntax.ParseFrom | parser.c:147-151 | a statement parse whose root is returned exactly when the parse stays valid |
| Syntax.ParserParseAsWritten | parser.c:143-152 | the driver as written returns a root exactly when `g_is_valid` stays set |
| Syntax.ParserParse | parser.c:143-152 | the driver reading the first token once returns a root exactly when `g_is_valid` stays set |
| SyntaxLaws.FactorRejects | parser.c:66-69 | a token that cannot start a factor gives NULL and clears `g_is_valid`, reading nothing |
| SyntaxLaws.NumberConverted | parser.c:49-55 | a number lexeme that `strview_to_int` rejects is an error; an accepted one becomes a number node of that value |
| SyntaxLaws.ParenthesesAddNoNode | parser.c:61-65 | a parenthesised expression is its inner node, with `)` required after it |
| SyntaxLaws.FoldLeftLast | parser.c:82-85 | in a left fold of operands the last operator is at the root, over the fold of everything before it |
| SyntaxLaws.IdentFactor | parser.c:56-60 | an identifier factor is consumed and becomes an identifier node |
| SyntaxLaws.TermTailFolds | parser.c:77-86 | the term loop over any chain of `*`/`/` and factors (numbers, identifiers or parenthesised expressions) returns their left fold and stops where the chain ends |
| SyntaxLaws.TermTailShape | parser.c:77-86 | conversely, whatever the term loop returns is the left fold of a chain of factors it read, ending where the loop stopped |
| SyntaxLaws.ExprTailFolds | parser.c:93-102 | the expression loop over any chain of `+`/`-` and terms returns their left fold and stops where the chain ends |
| SyntaxLaws.ExprTailShape | parser.c:93-102 | conversely, whatever the expression loop returns is the left fold of a chain of terms it read |
| SyntaxLaws.ProductsAssociateLeft | parser.c:74-88 | `f0 * f1 / f2 ...` over any factors parses as `((f0 * f1) / f2) ...` |
| SyntaxLaws.SumsAssociateLeft | parser.c:90-104 | `t0 - t1 + t2 ...` over any terms parses as `((t0 - t1) + t2) ...` |
| SyntaxLaws.TermShape | parser.c:74-88 | every term parsed is the left fold over `*`/`/` of the factors read, starting with the first factor |
| SyntaxLaws.ExpressionShape | parser.c:90-104 | every expression parsed is the left fold over `+`/`-` of whole terms, starting with the first term |
| SyntaxLaws.ProductBindsTighter | parser.c:41-43 | `a + b * c` parses as `a + (b * c)`, for any factors `a`, `b`, `c` |
| SyntaxLaws.ProductGroupsFirst | parser.c:41-43 | `a * b + c` parses as `(a * b) + c`, for any factors `a`, `b`, `c` |
| SyntaxLaws.AssignmentBuilt | parser.c:107-125 | an identifier followed by `=` gives an assignment node of that name and the parsed expression; the put-back does not matter here |
| SyntaxLaws.LookaheadLostAsWritten | parser.c:126-136 | as written, an identifier not followed by `=` is re-parsed with the tokenizer already past the look-ahead token |
| SyntaxLaws.LookaheadRestored | parser.c:126-136 | with the put-back restoring the read position too, such a statement parses as the plain expression |
| SyntaxLaws.SumTokens | parser.c:126-136 | the tokens of `x + y` end in `EOF` |
| SyntaxLaws.SumLostAsWritten | parser.c:126-136 | as written, `x + y` parses as just `x`; with the put-back fixed it parses as `x + y` |
| SyntaxLaws.FirstTokenSkippedAsWritten | parser.c:145-146 | as written, the parse starts at the second token, since `tokenizer_init` already read the first |
| SyntaxLaws.ParseStartsAtFirstToken | parser.c:145-147 | reading the first token once, the statement parse starts from it |
| SyntaxLaws.AssignTokens | parser.c:106 | the tokens of `x = 1` end in `EOF` |
| SyntaxLaws.AssignmentRejectedAsWritten | parser.c:145-147 | as written, `x = 1` is rejected |
| SyntaxLaws.AssignmentParsed | parser.c:107-125 | `x = 1` parses as the assignment of 1 to `x` |
| SyntaxLaws.OneIsDecimal | parser.c:51 | `strview_to_int` reads `1` as 1 |
| SyntaxLaws.TrailingTokens | parser.c:148-150 | the tokens of `x y` end in `EOF` |
| SyntaxLaws.TrailingTokensAccepted | parser.c:148-151 | the result of the final `EOF` consume is ignored: `x y` yields the root `x` with `g_is_valid` still set |
| Parser.Parser.constructor | parser.c:143-145 | the parser starts valid, with no result read and an empty `EOF` token current |
| Parser.Parser.NextToken | tokenizer.c:73-83 | computes `Syntax.Advance` on the globals |
| Parser.Parser.Consume | tokenizer.c:162-174 | computes `Syntax.Consume` on the globals |
| Parser.Parser.ParseFactor | parser.c:47-72 | returns the node and leaves the globals that `Syntax.ParseFactor` gives |
| Parser.Parser.ParseTerm | parser.c:74-88 | the loop computes `Syntax.ParseTerm` |
| Parser.Parser.ParseExpression | parser.c:90-104 | the loop computes `Syntax.ParseExpression` |
| Parser.Parser.ParseAssignment | parser.c:107-141 | computes `Syntax.ParseAssignment`, with the put-back restoring the read position |
| Parser.Parser.Parse | parser.c:143-152 | computes `Syntax.ParserParse`: the first token read once |
| CodeGenSpec.ToU64 | code_gen.c:144 | an `int` promoted to `u64` keeps its value as a two's-complement number and is below 2^31 exactly when it is non-negative |
| CodeGenSpec.Gen | code_gen.c:141-177 | every node that generates appends exactly its code length and declares exactly its declarations, keeping the earlier code |
| CodeGenSpec.GenIdentifier | code_gen.c:63-71 | succeeds exactly when the name is bound in scope and has a frame slot; then it emits one load of AL or RAX, by the type's width, from that slot |
| CodeGenSpec.GenAssignment | code_gen.c:25-45 | the right side's code first, then a store to the slot of the left side, which must be a bound identifier with a slot |
| CodeGenSpec.Store | code_gen.c:29-44 | succeeds exactly when the left side is an identifier bound in scope with a frame slot; then it emits one store of AL or RAX by its width |
| CodeGenSpec.GenBinaryOp | code_gen.c:47-60 | only `+` generates; it appends its code length and keeps the earlier code |
| CodeGenSpec.GenCompare | code_gen.c:73-78 | appends the comparison's code length and keeps the earlier code |
| CodeGenSpec.GenFunctionCall | code_gen.c:91-116 | at most 4 parameters; their code comes first, and the call ends in shadow-space alloc 32, load of the `puts` address, `call rax`, dealloc 32 |
| CodeGenSpec.GenVariableDeclaration | code_gen.c:118-124 | emits nothing; succeeds exactly when the declaration is an array or the frame has room; only a non-array adds a slot |
| CodeGenSpec.GenWhile | code_gen.c:126-139 | the loop appends its code length and declarations |
| CodeGenSpec.CloseLoop | code_gen.c:131-138 | `je`, body and `jmp` add the body's length plus 2 |
| CodeGenSpec.GenSeq | code_gen.c:80-84 | statements generate one after another, appending their lengths and declarations |
| CodeGenLaws.JumpsPatch | code_gen.c:186 | overwriting a non-jump instruction, like the entry patch, keeps every jump resolved |
| CodeGenLaws.GenJumps | code_gen.c:141-177 | every jump that a node's code contains targets its own code: a `je` forwards to at most its end, a `jmp` back to at least its start |
| CodeGenLaws.AssignmentJumps | code_gen.c:25-45 | an assignment's jumps stay inside its code |
| CodeGenLaws.OperandsJumps | code_gen.c:47-78 | a binary op's or comparison's jumps stay inside its code |
| CodeGenLaws.CallJumps | code_gen.c:91-116 | a call's jumps stay inside its code |
| CodeGenLaws.WhileJumps | code_gen.c:126-139 | the patched `je` targets the end of the loop and the `jmp` the start of the condition, both inside the loop's code |
| CodeGenLaws.GenSeqJumps | code_gen.c:80-84 | a block's jumps stay inside its code |
| CodeGenLaws.WhileLayout | code_gen.c:126-139 | the condition's code from the recorded start, then a `je` patched to the loop's end, the body, and last a `jmp` back to the start |
| CodeGenLaws.LoopClosed | code_gen.c:131-138 | after the condition, the patched `je` targets the end and the `jmp` returns to the recorded start; the condition's code stays |
| CodeGenLaws.OperandsLayout | code_gen.c:47-78 | a binary op or comparison is the left operand's code, `mov rcx, rax`, the right operand's code, then `add rax, rcx` or `cmp rax, rcx` |
| CodeGenLaws.AssignmentLayout | code_gen.c:25-45 | an assignment is the right-hand side's code followed by exactly one store |
| CodeGenLaws.FrameAround | code_gen.c:183-187 | patching the entry with the frame size and appending the exit keeps the earlier code and the body's jumps resolved |
| CodeGenLaws.CodeGenLayout | code_gen.c:179-188 | nothing emitted before survives `asm_init`: the positions below the old size hold the fresh region's zeros; the entry comes next and carries the total size of every slot the tree declares; the exit comes last; every jump resolves inside the function |
| CodeGen.Generator.constructor | code_gen.c:179-181 | the generator holds the frame, the scope bindings and the two addresses |
| CodeGen.Generator.GenNode | code_gen.c:141-177 | the code and the frame afterwards are those of `CodeGenSpec.Gen`, and it fails exactly when `Gen` does |
| CodeGen.Generator.GenIdentifier | code_gen.c:63-71 | computes `CodeGenSpec.GenIdentifier` |
| CodeGen.Generator.GenAssignment | code_gen.c:25-45 | computes `CodeGenSpec.GenAssignment` |
| CodeGen.Generator.Store | code_gen.c:29-44 | computes `CodeGenSpec.Store` |
| CodeGen.Generator.GenOperands | code_gen.c:48-50 | the left code, `mov rcx, rax`, then the right code |
| CodeGen.Generator.GenBinaryOp | code_gen.c:47-60 | computes `CodeGenSpec.GenBinaryOp` |
| CodeGen.Generator.GenCompare | code_gen.c:73-78 | computes `CodeGenSpec.GenCompare` |
| CodeGen.Generator.GenBlock | code_gen.c:80-84 | the loop computes `CodeGenSpec.GenSeq` over the statements |
| CodeGen.Generator.GenFunctionCall | code_gen.c:91-116 | computes `CodeGenSpec.GenFunctionCall` |
| CodeGen.Generator.GenVariableDeclaration | code_gen.c:118-124 | computes `CodeGenSpec.GenVariableDeclaration` through `sframe_add_variable` |
| CodeGen.Generator.GenWhileLoop | code_gen.c:126-139 | computes `CodeGenSpec.GenWhile` |
| CodeGen.Generator.CloseLoop | code_gen.c:131-138 | computes `CodeGenSpec.CloseLoop`, patching the `je` in place |
| CodeGen.Generator.CodeGen | code_gen.c:179-188 | computes `CodeGenSpec.CodeGen`: a fresh zeroed region under the old size, then the function, after resetting the frame |
| CodeGenMeaning.LeafLoads | code_gen.c:63-71 | the code of a literal or a variable leaves its value in RAX and keeps the stack |
| CodeGenMeaning.ExpressionValue | code_gen.c:18-20 | for an expression whose `+` right operands are literals or variables, the emitted code runs and leaves the expression's 64-bit wrap-around value in RAX, with the stack unchanged |
| CodeGenMeaning.SumValue | code_gen.c:47-60 | the `+` case: the left value is parked in RCX, the right one computed in RAX, and their sum modulo 2^64 is left in RAX |
| CodeGenMeaning.SumCode | code_gen.c:47-60 | the code a `+` node adds is left code, `mov rcx, rax`, right code and `add rax, rcx` |
| CodeGenMeaning.SumParts | code_gen.c:47-60 | running those pieces leaves the sum's value in RAX and the stack unchanged |
| CodeGenMeaning.PlusValue | code_gen.c:18-20 | a `+` node with a value has operands with values, and its value is their sum modulo 2^64 |
| CodeGenMeaning.SumRuns | code_gen.c:48-54 | left code, `mov rcx, rax`, right code and `add rax, rcx` leave the sum of both values |
| CodeGenMeaning.ValueDeclaresNothing | code_gen.c:141-177 | an expression that has a value declares no frame slot |
| CodeGenMeaning.NestedSumEmits | code_gen.c:47-60 | the code emitted for `a + (b + c)` |
| CodeGenMeaning.NestedSumRuns | code_gen.c:47-60 | that code leaves `(c + b) + b` in RAX: the inner sum overwrites the parked `a` |
| CodeGenMeaning.NestedSumValue | code_gen.c:18-20 | the value of `a + (b + c)` is `a + b + c` modulo 2^64 |
| CodeGenMeaning.RightSumClobbersRcx | code_gen.c:47-60 | the code for `a + (b + c)` leaves the right value exactly when `a == b` |

## Left out

- I/O: `printf`, `fwrite`, `report_error`'s message, `tokenizer_consume`'s message and `tokenizer_get_name_from_type` are not modelled. That function only names token kinds for those messages.
- `parser_print_ast_node`, `print_ast_indent` and `parser_free_ast` print or free the tree and are not modelled.
- `asm_init`'s `VirtualAlloc` is an operating-system call. The buffer is a fresh zeroed array of 0x1000 bytes (`Assembler.CodeBuffer.Init`). `asm_init` does not reset `binary_size`, so a later `code_gen` writes at the old size into a fresh region; `CodeGenSpec.Cleared` keeps those earlier positions, holding `Zeroed`.
- Allocation failure of `calloc` and `realloc` is not modelled.
- DynArray.Grown: a full array of capacity 2^31 or more is said to grow, though the `unsigned` doubling wraps (next line).
- DynArray.DArray.Append: `capacity` is an unbounded natural. The `unsigned` `capacity *= 2` of darray.c:13 wraps to 0 at capacity 2^31, after which `realloc` gets 0 bytes and darray.c:18 writes out of bounds; that wrap is not modelled.
- StrView.ToInt: for `-2147483648` the model returns -2^31, what two's-complement compilers give. strview.c:46 converts 2^31 to `int32_t`, which is implementation-defined, and negates `INT32_MIN`, which is undefined behaviour; the C standard does not promise this value.
- `main.c` and `time.c` (the driver, its older generator copy, and the timing code) are not part of this model.
- The emitters `code_gen.c` calls but `assembler.c` does not define (`asm_emit_func_entry`, `asm_patch_func_entry`, `asm_emit_func_exit`, `asm_emit_mov_reg_reg`, `asm_emit_mov_reg_to_stack`, `asm_emit_mov_stack_to_reg`, `asm_emit_arithmetic`, `asm_emit_cmp_imm`, `asm_emit_je`, `asm_emit_jmp_imm`, `asm_patch_je`) are not part of this model. The generator emits abstract `CodeGenSpec.Instr` values and jump targets are instruction positions; their byte encodings are not modelled.
- The addresses of `puts` and of the `"Hello"` literal (code_gen.c:88, 109) are opaque 64-bit constants in `CodeGenSpec.Env`.
- `types_get_obj_type` (types.h:16) has no definition in `types.c` and is not modelled. The generator reads each variable's type from the scope bindings.
- The generator reads the lexical scope as a map value (`CodeGenSpec.Env.types`) rather than through `LexicalScope.Scope.Get`. It never adds to the scope, and `Scope.Get` returns exactly that map's lookup.
- `CodeGenSpec.AstNode.WhileLoop` holds the loop body as its statements rather than as a block node.
- `CodeGenSpec.Gen` and the `CodeGen.Generator` methods: after a fatal error, the state is not specified.
- `CodeGenMeaning.Step` gives no meaning to the 1-byte `AL` loads and stores, the compare, the jumps or the call. Only 64-bit `+` expressions are evaluated.
- `CodeGenMeaning.ExpressionValue`: proved only for expressions whose `+` has a literal or variable as its right operand. For a right operand that is itself a sum, the emitted code overwrites the left value parked in RCX. `CodeGenMeaning.RightSumClobbersRcx` shows that `a + (b + c)` then computes `(c + b) + b`, which is correct only when `a == b`.
- Assembler.CodeBuffer.EmitStackAlloc (and every emitter): requires room in the 0x1000-byte region. The source writes past the end unchecked.
- HashTab.HashTable.Put: requires that a due resize keeps the capacity within 32 bits (at most 2^30 slots before doubling). The unsigned `capacity *= 2` wrap-around is not modelled.
- LexicalScope.Scope.Add: requires the same capacity bound as `HashTab.HashTable.Put`.
- FrameLayout.Layout: offsets are unbounded naturals. The wrap of the `unsigned` `current_offset` past 2^32 is not modelled.
- Keys are character sequences, not pointer and length. NULL values stored in the tables are not modelled: a stored value is always present.
- `Syntax` and `Parser`: the parser is modelled over the sequence of tokenizer results rather than over the source text. The `Lexer` module specifies the scanning separately.
- `Syntax.Node` has no unary node: `parser.c` builds none.

## Findings

| source | as written | input that shows it | evidently intended | confidence | as-written member | corrected member |
|---|---|---|---|---|---|---|
| assembler.c:51 | `push rdx` emits `0x51`, the opcode of `push rcx` | `asm_emit_push_reg(REG_RDX)` | `0x52`, the `50+rd` encoding for RDX | high; not executed | Assembler.PushRdxAsWrittenIsPushRcx | Assembler.CodeBuffer.EmitPushReg |
| hash_table.c:35 | `resize_table` doubles `capacity` but keeps `mask`, so only the first `old capacity` slots are used | 16 distinct new keys put into a fresh table: capacity 32, mask 15, count 16, and no resize is due; once slots 0..15 all hold other keys, the probe for a new key never stops | `mask = capacity - 1` after doubling | high; not executed | HashResize.SixteenPutsAsWritten | HashResize.PutNewKeepsRoom |
| parser.c:126-136 | the put-back restores `current_token` but not the tokenizer position, so the token after the look-ahead is read next | the statement `x + y` parses as just `x` | the look-ahead token is seen again | high; not executed | SyntaxLaws.SumLostAsWritten | SyntaxLaws.LookaheadRestored |
| parser.c:145-146 | `parser_parse` calls `tokenizer_next_token` after `tokenizer_init` already did (tokenizer.c:48), skipping the first token | `x = 1` is rejected, since parsing starts at `=` | parse from the first token | high; not executed | SyntaxLaws.AssignmentRejectedAsWritten | SyntaxLaws.AssignmentParsed |
