/** What `code_gen.c` emits, as a sequence of abstract instructions. A
    position in the sequence stands for a byte offset in the assembler's
    buffer: jump targets and patch sites are instruction indices. */
module CodeGenSpec {
  import opened Common
  import opened FrameLayout
  import opened Types
  import Lexer

  /** The registers the generator names: `REG_AL` is the low byte of RAX. */
  datatype Loc = AL | RAX | RCX

  /** One call of an emitter of the assembler. */
  datatype Instr =
    | MovImm64(dst: Loc, value: u64)            // asm_emit_mov_imm_64
    | MovRegReg(dst: Loc, src: Loc)             // asm_emit_mov_reg_reg
    | Arithmetic(dst: Loc, src: Loc, op: Lexer.TokenType) // asm_emit_arithmetic
    | StoreToStack(src: Loc, offset: nat)       // asm_emit_mov_reg_to_stack
    | LoadFromStack(dst: Loc, offset: nat)      // asm_emit_mov_stack_to_reg
    | Cmp(left: Loc, right: Loc)                // asm_emit_cmp_imm
    | Je(target: nat)                           // asm_emit_je, asm_patch_je
    | Jmp(target: nat)                          // asm_emit_jmp_imm
    | StackAlloc(numBytes: nat)                 // asm_emit_stack_alloc
    | StackDealloc(numBytes: nat)               // asm_emit_stack_dealloc
    | CallRax                                   // asm_emit_call_rax
    | FuncEntry(frameSize: nat)                 // asm_emit_func_entry, asm_patch_func_entry
    | FuncExit                                  // asm_emit_func_exit
    | Zeroed                                    // a position asm_init's fresh region holds, unwritten

  /** The syntax tree `code_gen.c` walks. A `while` loop's block is held as
      the statements of that block. */
  datatype AstNode =
    | Number(value: i32)
    | Identifier(name: seq<char>)
    | Assignment(left: AstNode, right: AstNode)
    | BinaryOp(op: Lexer.TokenType, left: AstNode, right: AstNode)
    | Compare(op: Lexer.TokenType, left: AstNode, right: AstNode)
    | Block(statements: seq<AstNode>)
    | StringLiteral(text: seq<char>)
    | FunctionCall(parameters: seq<AstNode>)
    | VariableDeclaration(name: seq<char>, isArray: bool, numBytes: nat)
    | WhileLoop(condition: AstNode, body: seq<AstNode>)

  /** What the walk reads but never changes: the lexical scope's bindings
      and the two addresses it loads (the `"Hello"` literal and `puts`). */
  datatype Env = Env(types: map<seq<char>, TypeInfo>, hello: u64, puts: u64)

  /** What the walk changes: the code emitted so far and the stack frame's
      declarations since `sframe_init`. */
  datatype GenState = GenState(code: seq<Instr>, decls: seq<Decl>)

  /** The shadow space reserved around a call. */
  const ShadowSpace: nat := 32
  /** `assert(parameters.size <= 4)` in `gen_function_call`. */
  const MaxParameters: nat := 4

  /** The signed value a 64-bit pattern stands for. */
  function Signed(x: u64): int
  {
    if x < 0x8000_0000_0000_0000 then x else x - 0x1_0000_0000_0000_0000
  }

  /** The conversion of a signed literal to `uint64_t`: two's complement,
      so the pattern read back as signed is the literal. */
  function ToU64(v: i32): (r: u64)
    ensures Signed(r) == v
    ensures 0 <= v <==> r < 0x8000_0000
  {
    if v < 0 then v + 0x1_0000_0000_0000_0000 else v
  }

  /** A one-byte type moves through AL, every other through RAX. */
  function Width(t: TypeInfo): Loc
  {
    if t.numBytes == 1 then AL else RAX
  }

  function Emit(st: GenState, i: Instr): GenState
  {
    st.(code := st.code + [i])
  }

  /** `r` is `st` with `length` instructions appended (earlier ones kept)
      and the declarations `decls` added to the frame. */
  predicate Extends(st: GenState, r: GenState, length: nat, decls: seq<Decl>)
  {
    && |r.code| == |st.code| + length
    && r.code[..|st.code|] == st.code
    && r.decls == st.decls + decls
  }

  /** The number of instructions a node emits, whatever the state. */
  function CodeLength(node: AstNode): nat
  {
    match node
    case Number(_) => 1
    case Identifier(_) => 1
    case Assignment(_, right) => CodeLength(right) + 1
    case BinaryOp(_, left, right) => CodeLength(left) + CodeLength(right) + 2
    case Compare(_, left, right) => CodeLength(left) + CodeLength(right) + 2
    case Block(statements) => CodeLengthSeq(statements)
    case StringLiteral(_) => 1
    case FunctionCall(parameters) => CodeLengthSeq(parameters) + 4
    case VariableDeclaration(_, _, _) => 0
    case WhileLoop(condition, body) => CodeLength(condition) + CodeLengthSeq(body) + 2
  }

  function CodeLengthSeq(nodes: seq<AstNode>): nat
  {
    if nodes == [] then 0 else CodeLength(nodes[0]) + CodeLengthSeq(nodes[1..])
  }

  /** The frame slots a node declares, in the order of the walk. */
  function Declared(node: AstNode): seq<Decl>
  {
    match node
    case Number(_) => []
    case Identifier(_) => []
    case Assignment(_, right) => Declared(right)
    case BinaryOp(_, left, right) => Declared(left) + Declared(right)
    case Compare(_, left, right) => Declared(left) + Declared(right)
    case Block(statements) => DeclaredSeq(statements)
    case StringLiteral(_) => []
    case FunctionCall(parameters) => DeclaredSeq(parameters)
    case VariableDeclaration(name, isArray, numBytes) =>
      if isArray then [] else [Decl(name, numBytes)]
    case WhileLoop(condition, body) => Declared(condition) + DeclaredSeq(body)
  }

  function DeclaredSeq(nodes: seq<AstNode>): seq<Decl>
  {
    if nodes == [] then [] else Declared(nodes[0]) + DeclaredSeq(nodes[1..])
  }

  /** `gen_node`. `None` is a fatal stop of the compiler: a missing type or
      frame slot, an assignment to something other than an identifier, an
      operator other than `+`, more than four call parameters, or a full
      frame. Code already emitted only grows (apart from the patch of a
      loop's own `je`), by a number of instructions fixed by the node, and
      the frame gains exactly the node's declarations. */
  function Gen(env: Env, node: AstNode, st: GenState): (r: Option<GenState>)
    ensures r.Some? ==> Extends(st, r.value, CodeLength(node), Declared(node))
    decreases node, 2
  {
    match node
    case Number(value) => Some(Emit(st, MovImm64(RAX, ToU64(value))))
    case Identifier(name) => GenIdentifier(env, name, st)
    case Assignment(left, right) => GenAssignment(env, left, right, st)
    case BinaryOp(op, left, right) => GenBinaryOp(env, op, left, right, st)
    case Compare(op, left, right) => GenCompare(env, op, left, right, st)
    case Block(statements) => GenSeq(env, statements, st)
    case StringLiteral(_) => Some(Emit(st, MovImm64(RAX, env.hello)))
    case FunctionCall(parameters) => GenFunctionCall(env, parameters, st)
    case VariableDeclaration(name, isArray, numBytes) =>
      GenVariableDeclaration(name, isArray, numBytes, st)
    case WhileLoop(condition, body) => GenWhile(env, condition, body, st)
  }

  /** `gen_identifier`: a fatal stop when the name has no type or no frame
      slot; otherwise one load from the slot, through AL or RAX by the
      type's width. */
  function GenIdentifier(env: Env, name: seq<char>, st: GenState): (r: Option<GenState>)
    ensures r.Some? <==> name in env.types && FirstOffset(Layout(st.decls), name).Some?
    ensures r.Some? ==> r.value == Emit(st, LoadFromStack(Width(env.types[name]),
                                                          FirstOffset(Layout(st.decls), name).value))
  {
    if name !in env.types then None
    else match FirstOffset(Layout(st.decls), name)
      case None => None
      case Some(offset) => Some(Emit(st, LoadFromStack(Width(env.types[name]), offset)))
  }

  /** `gen_assignment`: the right-hand side first; then a fatal stop unless
      the left-hand side is an identifier with a frame slot (looked up
      after the right-hand side's declarations) and a type; then one store
      of AL or RAX into that slot. */
  function GenAssignment(env: Env, left: AstNode, right: AstNode, st: GenState): (r: Option<GenState>)
    ensures r.Some? ==>
      Extends(st, r.value, CodeLength(Assignment(left, right)), Declared(Assignment(left, right)))
    ensures r.Some? ==> && left.Identifier? && left.name in env.types
                        && FirstOffset(Layout(r.value.decls), left.name).Some?
    ensures r.Some? ==>
      r.value.code[|r.value.code| - 1] ==
      StoreToStack(Width(env.types[left.name]), FirstOffset(Layout(r.value.decls), left.name).value)
    decreases Assignment(left, right), 1
  {
    match Gen(env, right, st)
    case None => None
    case Some(s1) => Store(env, left, s1)
  }

  /** The end of `gen_assignment`: a fatal stop unless the target is an
      identifier with a frame slot and a type; otherwise one store of AL or
      RAX, by the type's width, into the slot. */
  function Store(env: Env, left: AstNode, st: GenState): (r: Option<GenState>)
    ensures r.Some? <==> && left.Identifier? && left.name in env.types
                         && FirstOffset(Layout(st.decls), left.name).Some?
    ensures r.Some? ==>
      r.value == Emit(st, StoreToStack(Width(env.types[left.name]),
                                       FirstOffset(Layout(st.decls), left.name).value))
  {
    if !left.Identifier? then None
    else match FirstOffset(Layout(st.decls), left.name)
      case None => None
      case Some(offset) =>
        if left.name !in env.types then None
        else Some(Emit(st, StoreToStack(Width(env.types[left.name]), offset)))
  }

  /** `gen_binary_op`: the left operand, a copy of RAX into RCX, the right
      operand, then `add RAX, RCX`; any operator but `+` is a fatal break
      after both operands. */
  function GenBinaryOp(env: Env, op: Lexer.TokenType, left: AstNode, right: AstNode, st: GenState)
    : (r: Option<GenState>)
    ensures r.Some? ==> op == Lexer.Plus
    ensures r.Some? ==>
      Extends(st, r.value, CodeLength(BinaryOp(op, left, right)), Declared(BinaryOp(op, left, right)))
    decreases BinaryOp(op, left, right), 1
  {
    match Gen(env, left, st)
    case None => None
    case Some(s1) =>
      match Gen(env, right, Emit(s1, MovRegReg(RCX, RAX)))
      case None => None
      case Some(s2) =>
        if op == Lexer.Plus then Some(Emit(s2, Arithmetic(RAX, RCX, op))) else None
  }

  /** `gen_compare`: like a binary operation but ending in a compare of
      RAX with RCX, for every comparison operator alike. */
  function GenCompare(env: Env, op: Lexer.TokenType, left: AstNode, right: AstNode, st: GenState)
    : (r: Option<GenState>)
    ensures r.Some? ==>
      Extends(st, r.value, CodeLength(Compare(op, left, right)), Declared(Compare(op, left, right)))
    decreases Compare(op, left, right), 1
  {
    match Gen(env, left, st)
    case None => None
    case Some(s1) =>
      match Gen(env, right, Emit(s1, MovRegReg(RCX, RAX)))
      case None => None
      case Some(s2) => Some(Emit(s2, Cmp(RAX, RCX)))
  }

  /** `gen_function_call`: a fatal stop for more than four parameters;
      otherwise each parameter's code, then the shadow space, the address
      of `puts` in RAX, the call and the release of the shadow space. */
  function GenFunctionCall(env: Env, parameters: seq<AstNode>, st: GenState): (r: Option<GenState>)
    ensures r.Some? ==> |parameters| <= MaxParameters
    ensures r.Some? ==>
      Extends(st, r.value, CodeLength(FunctionCall(parameters)), Declared(FunctionCall(parameters)))
    ensures r.Some? ==>
      r.value.code[|r.value.code| - 4..] ==
      [StackAlloc(ShadowSpace), MovImm64(RAX, env.puts), CallRax, StackDealloc(ShadowSpace)]
    decreases FunctionCall(parameters), 1
  {
    if |parameters| > MaxParameters then None
    else match GenSeq(env, parameters, st)
      case None => None
      case Some(s1) =>
        Some(s1.(code := s1.code + [StackAlloc(ShadowSpace), MovImm64(RAX, env.puts),
                                    CallRax, StackDealloc(ShadowSpace)]))
  }

  /** `gen_variable_declaration`: an array declares nothing; any other
      declaration adds a frame slot of its size, a fatal stop when the
      frame already holds `MaxItems` slots. No code is emitted. */
  function GenVariableDeclaration(name: seq<char>, isArray: bool, numBytes: nat, st: GenState)
    : (r: Option<GenState>)
    ensures r.Some? <==> isArray || |st.decls| < MaxItems
    ensures r.Some? ==> r.value.code == st.code
    ensures r.Some? ==>
      Extends(st, r.value, 0, Declared(VariableDeclaration(name, isArray, numBytes)))
  {
    if isArray then Some(st)
    else if |st.decls| >= MaxItems then None
    else Some(st.(decls := st.decls + [Decl(name, numBytes)]))
  }

  /** `gen_while_loop`: the condition from the recorded start, a `je`
      placeholder, the body, a `jmp` back to the start, and then the `je`
      patched to the end. */
  function GenWhile(env: Env, condition: AstNode, body: seq<AstNode>, st: GenState): (r: Option<GenState>)
    ensures r.Some? ==>
      Extends(st, r.value, CodeLength(WhileLoop(condition, body)), Declared(WhileLoop(condition, body)))
    decreases WhileLoop(condition, body), 1
  {
    match Gen(env, condition, st)
    case None => None
    case Some(s1) => CloseLoop(env, body, |st.code|, s1)
  }

  /** The part of `gen_while_loop` after the condition, which began at
      `start`: the `je` placeholder, the body, the `jmp` back to `start`,
      and the `je` patched to the end. */
  function CloseLoop(env: Env, body: seq<AstNode>, start: nat, st: GenState): (r: Option<GenState>)
    ensures r.Some? ==> Extends(st, r.value, CodeLengthSeq(body) + 2, DeclaredSeq(body))
    decreases body, 4
  {
    var jeAt := |st.code|;
    match GenSeq(env, body, Emit(st, Je(0)))
    case None => None
    case Some(s2) =>
      var s3 := Emit(s2, Jmp(start));
      Some(s3.(code := s3.code[jeAt := Je(|s3.code|)]))
  }

  /** `gen_block`, and the parameter loop of `gen_function_call`: each
      node in order. */
  function GenSeq(env: Env, nodes: seq<AstNode>, st: GenState): (r: Option<GenState>)
    ensures r.Some? ==> Extends(st, r.value, CodeLengthSeq(nodes), DeclaredSeq(nodes))
    decreases nodes, 3
  {
    if nodes == [] then Some(st)
    else match Gen(env, nodes[0], st)
      case None => None
      case Some(s1) => GenSeq(env, nodes[1..], s1)
  }

  /** What `asm_init` leaves below the write position: a freshly
      allocated, zeroed region. It resets the buffer but not its size, so
      the positions of earlier code remain and their contents are lost. */
  function Cleared(code: seq<Instr>): (r: seq<Instr>)
    ensures |r| == |code| && forall i | 0 <= i < |r| :: r[i] == Zeroed
  {
    seq(|code|, _ => Zeroed)
  }

  /** `code_gen`: `asm_init` swaps in a fresh buffer, the frame starts
      empty, the entry is emitted with a placeholder size at the unchanged
      write position, the tree follows, the entry is patched with the
      frame's final size and the exit closes the function. */
  function CodeGen(env: Env, ast: AstNode, code: seq<Instr>): (r: Option<GenState>)
  {
    var start := |code|;
    match Gen(env, ast, GenState(Cleared(code) + [FuncEntry(0)], []))
    case None => None
    case Some(s1) =>
      Some(GenState(s1.code[start := FuncEntry(FrameSize(s1.decls))] + [FuncExit], s1.decls))
  }
}

/** What the emitted code looks like: where the jumps go, how a loop and
    the whole function are laid out. */
module CodeGenLaws {
  import opened Common
  import opened FrameLayout
  import opened CodeGenSpec

  /** Every jump in `code[from..]` lands inside that stretch: a `je` jumps
      forward, at most to the end, and a `jmp` jumps back, at least to
      `from`. In particular no `je` still holds its placeholder target 0. */
  predicate JumpsWithin(code: seq<Instr>, from: nat)
  {
    forall i | from <= i < |code| ::
      && (code[i].Je? ==> i < code[i].target <= |code|)
      && (code[i].Jmp? ==> from <= code[i].target < i)
  }

  /** Two stretches whose jumps stay within themselves make one. */
  lemma JumpsJoin(c1: seq<Instr>, c2: seq<Instr>, from: nat)
    requires from <= |c1| <= |c2| && c2[..|c1|] == c1
    requires JumpsWithin(c1, from) && JumpsWithin(c2, |c1|)
    ensures JumpsWithin(c2, from)
  {
    forall i | from <= i < |c1|
      ensures c2[i] == c1[i]
    {
      assert c2[..|c1|][i] == c2[i];
    }
  }

  /** An instruction that does not jump keeps the property. */
  lemma JumpsEmit(c: seq<Instr>, from: nat, i: Instr)
    requires from <= |c| && JumpsWithin(c, from)
    requires !i.Je? && !i.Jmp?
    ensures JumpsWithin(c + [i], from)
  {
    assert (c + [i])[..|c|] == c;
    JumpsJoin(c, c + [i], from);
  }

  /** Overwriting one instruction with one that is no jump keeps every
      jump resolved. */
  lemma JumpsPatch(c: seq<Instr>, from: nat, k: nat, x: Instr)
    requires k < |c| && JumpsWithin(c, from)
    requires !x.Je? && !x.Jmp?
    ensures JumpsWithin(c[k := x], from)
  {
  }

  /** Whatever `gen_node` emits resolves every jump inside what it
      emitted. */
  lemma {:induction false} GenJumps(env: Env, node: AstNode, st: GenState)
    requires Gen(env, node, st).Some?
    ensures JumpsWithin(Gen(env, node, st).value.code, |st.code|)
    decreases node, 2
  {
    match node
    case Number(value) => JumpsEmit(st.code, |st.code|, MovImm64(RAX, ToU64(value)));
    case Identifier(name) =>
      JumpsEmit(st.code, |st.code|, Gen(env, node, st).value.code[|st.code|]);
    case Assignment(left, right) => AssignmentJumps(env, left, right, st);
    case BinaryOp(_, _, _) => OperandsJumps(env, node, st);
    case Compare(_, _, _) => OperandsJumps(env, node, st);
    case Block(statements) => GenSeqJumps(env, statements, st);
    case StringLiteral(_) => JumpsEmit(st.code, |st.code|, MovImm64(RAX, env.hello));
    case FunctionCall(parameters) => CallJumps(env, parameters, st);
    case VariableDeclaration(_, _, _) =>
    case WhileLoop(condition, body) => WhileJumps(env, condition, body, st);
  }

  lemma {:induction false} AssignmentJumps(env: Env, left: AstNode, right: AstNode, st: GenState)
    requires GenAssignment(env, left, right, st).Some?
    ensures JumpsWithin(GenAssignment(env, left, right, st).value.code, |st.code|)
    decreases Assignment(left, right), 1
  {
    GenJumps(env, right, st);
    var s1 := Gen(env, right, st).value;
    var r := GenAssignment(env, left, right, st).value;
    JumpsEmit(s1.code, |st.code|, r.code[|r.code| - 1]);
  }

  /** The shared shape of `gen_binary_op` and `gen_compare`: left operand,
      `mov RCX, RAX`, right operand, then one instruction that does not
      jump. */
  lemma {:induction false} OperandsJumps(env: Env, node: AstNode, st: GenState)
    requires node.BinaryOp? || node.Compare?
    requires Gen(env, node.left, st).Some?
    requires Gen(env, node.right, Emit(Gen(env, node.left, st).value, MovRegReg(RCX, RAX))).Some?
    ensures forall i: Instr | !i.Je? && !i.Jmp? ::
      JumpsWithin(Gen(env, node.right, Emit(Gen(env, node.left, st).value, MovRegReg(RCX, RAX))).value.code
                  + [i], |st.code|)
    decreases node, 0
  {
    GenJumps(env, node.left, st);
    var s1 := Gen(env, node.left, st).value;
    JumpsEmit(s1.code, |st.code|, MovRegReg(RCX, RAX));
    var m := Emit(s1, MovRegReg(RCX, RAX));
    GenJumps(env, node.right, m);
    var s2 := Gen(env, node.right, m).value;
    JumpsJoin(m.code, s2.code, |st.code|);
    forall i: Instr | !i.Je? && !i.Jmp?
      ensures JumpsWithin(s2.code + [i], |st.code|)
    {
      JumpsEmit(s2.code, |st.code|, i);
    }
  }

  lemma {:induction false} CallJumps(env: Env, parameters: seq<AstNode>, st: GenState)
    requires GenFunctionCall(env, parameters, st).Some?
    ensures JumpsWithin(GenFunctionCall(env, parameters, st).value.code, |st.code|)
    decreases FunctionCall(parameters), 1
  {
    GenSeqJumps(env, parameters, st);
    var c := GenSeq(env, parameters, st).value.code;
    JumpsEmit(c, |st.code|, StackAlloc(ShadowSpace));
    JumpsEmit(c + [StackAlloc(ShadowSpace)], |st.code|, MovImm64(RAX, env.puts));
    JumpsEmit(c + [StackAlloc(ShadowSpace), MovImm64(RAX, env.puts)], |st.code|, CallRax);
    JumpsEmit(c + [StackAlloc(ShadowSpace), MovImm64(RAX, env.puts), CallRax], |st.code|,
              StackDealloc(ShadowSpace));
    assert c + [StackAlloc(ShadowSpace), MovImm64(RAX, env.puts), CallRax, StackDealloc(ShadowSpace)]
        == c + [StackAlloc(ShadowSpace), MovImm64(RAX, env.puts), CallRax] + [StackDealloc(ShadowSpace)];
  }

  /** The loop's own `je` is patched past its back `jmp`, which returns to
      the condition; the jumps of the condition and the body stay inside
      the loop. */
  lemma {:induction false} WhileJumps(env: Env, condition: AstNode, body: seq<AstNode>, st: GenState)
    requires GenWhile(env, condition, body, st).Some?
    ensures JumpsWithin(GenWhile(env, condition, body, st).value.code, |st.code|)
    decreases WhileLoop(condition, body), 1
  {
    var start := |st.code|;
    GenJumps(env, condition, st);
    var s1 := Gen(env, condition, st).value;
    var jeAt := |s1.code|;
    var m := Emit(s1, Je(0));
    GenSeqJumps(env, body, m);
    var s2 := GenSeq(env, body, m).value;
    var c := s2.code + [Jmp(start)];
    var r := GenWhile(env, condition, body, st).value;
    assert r.code == c[jeAt := Je(|c|)];
    forall i | start <= i < |r.code|
      ensures r.code[i].Je? ==> i < r.code[i].target <= |r.code|
      ensures r.code[i].Jmp? ==> start <= r.code[i].target < i
    {
      if i < jeAt {
        assert r.code[i] == m.code[..|s1.code|][i] == s1.code[i];
      } else if jeAt < i < |s2.code| {
        assert r.code[i] == s2.code[i];
      }
    }
  }

  lemma {:induction false} GenSeqJumps(env: Env, nodes: seq<AstNode>, st: GenState)
    requires GenSeq(env, nodes, st).Some?
    ensures JumpsWithin(GenSeq(env, nodes, st).value.code, |st.code|)
    decreases nodes, 3
  {
    if nodes != [] {
      GenJumps(env, nodes[0], st);
      var s1 := Gen(env, nodes[0], st).value;
      GenSeqJumps(env, nodes[1..], s1);
      JumpsJoin(s1.code, GenSeq(env, nodes[1..], s1).value.code, |st.code|);
    }
  }

  /** `gen_while_loop`'s layout: the condition's code from the recorded
      start, the `je` right after it targeting the end of the loop, the
      body, and last the `jmp` back to the start of the condition. */
  lemma WhileLayout(env: Env, condition: AstNode, body: seq<AstNode>, st: GenState)
    requires GenWhile(env, condition, body, st).Some?
    ensures var r := GenWhile(env, condition, body, st).value.code;
            var jeAt := |st.code| + CodeLength(condition);
            && |r| == jeAt + CodeLengthSeq(body) + 2
            && r[|st.code|..jeAt] == Gen(env, condition, st).value.code[|st.code|..]
            && r[jeAt] == Je(|r|)
            && r[|r| - 1] == Jmp(|st.code|)
  {
    LoopClosed(env, body, |st.code|, Gen(env, condition, st).value);
  }

  /** The part after the condition: the condition's code kept from
      `start`, the patched `je` after it and the `jmp` back last. */
  lemma LoopClosed(env: Env, body: seq<AstNode>, start: nat, st: GenState)
    requires start <= |st.code| && CloseLoop(env, body, start, st).Some?
    ensures var r := CloseLoop(env, body, start, st).value.code;
            && r[start..|st.code|] == st.code[start..]
            && r[|st.code|] == Je(|r|)
            && r[|r| - 1] == Jmp(start)
  {
    var s2 := GenSeq(env, body, Emit(st, Je(0))).value;
    var c := s2.code + [Jmp(start)];
    assert CloseLoop(env, body, start, st).value.code == c[|st.code| := Je(|c|)];
    LoopSplice(st.code, s2.code, start);
  }

  /** Where the pieces of `condition code, je, body code, jmp` sit once
      the `je` is patched to the end. */
  lemma LoopSplice(condition: seq<Instr>, upToBody: seq<Instr>, start: nat)
    requires start <= |condition| < |upToBody|
    requires upToBody[..|condition| + 1] == condition + [Je(0)]
    ensures var c := upToBody + [Jmp(start)];
            var r := c[|condition| := Je(|c|)];
            && r[start..|condition|] == condition[start..]
            && r[|condition|] == Je(|r|)
            && r[|r| - 1] == Jmp(start)
  {
    var c := upToBody + [Jmp(start)];
    var r := c[|condition| := Je(|c|)];
    forall i | start <= i < |condition|
      ensures r[i] == condition[i]
    {
      assert r[i] == upToBody[..|condition| + 1][i];
    }
  }

  /** `gen_binary_op`'s and `gen_compare`'s layout: the left operand's
      code, `mov rcx, rax` parking its value, the right operand's code,
      and last `add rax, rcx` (only `+` gets this far) or `cmp rax, rcx`. */
  lemma OperandsLayout(env: Env, node: AstNode, st: GenState)
    requires (node.BinaryOp? || node.Compare?) && Gen(env, node, st).Some?
    ensures Gen(env, node.left, st).Some?
    ensures var r := Gen(env, node, st).value.code;
            var s1 := Gen(env, node.left, st).value;
            var mid := Emit(s1, MovRegReg(RCX, RAX));
            && |s1.code| == |st.code| + CodeLength(node.left)
            && Gen(env, node.right, mid).Some?
            && r[..|s1.code|] == s1.code
            && r[|s1.code|] == MovRegReg(RCX, RAX)
            && r[|s1.code| + 1..|r| - 1] == Gen(env, node.right, mid).value.code[|mid.code|..]
            && r[|r| - 1] == (if node.BinaryOp? then Arithmetic(RAX, RCX, Lexer.Plus) else Cmp(RAX, RCX))
  {
    var s1 := Gen(env, node.left, st).value;
    var m := Emit(s1, MovRegReg(RCX, RAX));
    var s2 := Gen(env, node.right, m).value;
    var last := if node.BinaryOp? then Arithmetic(RAX, RCX, Lexer.Plus) else Cmp(RAX, RCX);
    assert Gen(env, node, st).value.code == s2.code + [last];
    Splice(s1.code, s2.code, last);
  }

  /** `gen_assignment`'s layout: the right-hand side's code first, then
      the one store. */
  lemma AssignmentLayout(env: Env, left: AstNode, right: AstNode, st: GenState)
    requires GenAssignment(env, left, right, st).Some?
    ensures Gen(env, right, st).Some?
    ensures var r := GenAssignment(env, left, right, st).value.code;
            && |r| == |st.code| + CodeLength(right) + 1
            && r[..|st.code| + CodeLength(right)] == Gen(env, right, st).value.code
  {
    var s1 := Gen(env, right, st).value;
    var r := GenAssignment(env, left, right, st).value.code;
    assert r == s1.code + [r[|r| - 1]];
    assert r[..|s1.code|] == s1.code;
  }

  /** Where the pieces of `left code, mov, right code, last` sit. */
  lemma Splice(left: seq<Instr>, upToRight: seq<Instr>, last: Instr)
    requires |left| < |upToRight| && upToRight[..|left| + 1] == left + [MovRegReg(RCX, RAX)]
    ensures var r := upToRight + [last];
            && r[..|left|] == left
            && r[|left|] == MovRegReg(RCX, RAX)
            && r[|left| + 1..|r| - 1] == upToRight[|left| + 1..]
            && r[|r| - 1] == last
  {
    assert (upToRight + [last])[..|left|] == upToRight[..|left| + 1][..|left|];
  }

  /** The frame around a function body: patching the entry placeholder
      with the frame size and appending the exit keeps the earlier code
      and every jump of the body resolved. */
  lemma FrameAround(code: seq<Instr>, s1: GenState, length: nat, decls: seq<Decl>)
    requires Extends(GenState(code + [FuncEntry(0)], []), s1, length, decls)
    requires JumpsWithin(s1.code, |code| + 1)
    ensures var r := s1.code[|code| := FuncEntry(FrameSize(s1.decls))] + [FuncExit];
            && s1.decls == decls
            && |r| == |code| + length + 2
            && r[..|code|] == code
            && r[|code|] == FuncEntry(FrameSize(decls))
            && r[|r| - 1] == FuncExit
            && JumpsWithin(r, |code|)
  {
    var patched := s1.code[|code| := FuncEntry(FrameSize(s1.decls))];
    assert s1.decls == [] + decls;
    assert s1.code[..|code| + 1][..|code|] == code;
    assert patched[..|code|] == code;
    assert JumpsWithin(s1.code, |code|) by {
      assert s1.code[|code|] == (code + [FuncEntry(0)])[|code|];
    }
    JumpsPatch(s1.code, |code|, |code|, FuncEntry(FrameSize(s1.decls)));
    JumpsEmit(patched, |code|, FuncExit);
    assert (patched + [FuncExit])[..|code|] == patched[..|code|];
  }

  /** `code_gen`: nothing emitted before survives `asm_init`, though the
      function starts at the old write position; the function entry comes
      first and carries the total size of every slot the tree declares; the
      exit comes last; and every jump in the function is resolved inside
      it. */
  lemma CodeGenLayout(env: Env, ast: AstNode, code: seq<Instr>)
    requires CodeGen(env, ast, code).Some?
    ensures var r := CodeGen(env, ast, code).value;
            && r.decls == Declared(ast)
            && |r.code| == |code| + CodeLength(ast) + 2
            && (forall i | 0 <= i < |code| :: r.code[i] == Zeroed)
            && r.code[|code|] == FuncEntry(FrameSize(Declared(ast)))
            && r.code[|r.code| - 1] == FuncExit
            && JumpsWithin(r.code, |code|)
  {
    var s0 := GenState(Cleared(code) + [FuncEntry(0)], []);
    var s1 := Gen(env, ast, s0).value;
    GenJumps(env, ast, s0);
    FrameAround(Cleared(code), s1, CodeLength(ast), Declared(ast));
    var r := s1.code[|code| := FuncEntry(FrameSize(s1.decls))] + [FuncExit];
    forall i | 0 <= i < |code|
      ensures r[i] == Zeroed
    {
      assert r[i] == r[..|code|][i];
    }
  }
}

/** The generator as `code_gen.c` runs it: a recursive walk appending to
    the code buffer and adding slots to the global stack frame. The walk
    only reads the global lexical scope, so its bindings are held as a
    value. */
module CodeGen {
  import opened Common
  import opened FrameLayout
  import opened Types
  import opened StackFrame
  import opened CodeGenSpec
  import Lexer

  class Generator {
    /** The instructions emitted so far; its length is `binary_size`. */
    var code: seq<Instr>
    /** `g_sframe`. */
    const frame: Frame
    /** The bindings of `g_lscope` and the two addresses the walk loads. */
    const env: Env

    ghost predicate Valid()
      reads this, frame, frame.items
    {
      frame.Valid()
    }

    /** The code and the frame's declarations. */
    ghost function State(): GenState
      reads this, frame
    {
      GenState(code, frame.decls)
    }

    constructor (frame: Frame, env: Env)
      requires frame.Valid()
      ensures Valid() && code == []
      ensures this.frame == frame && this.env == env
    {
      code := [];
      this.frame := frame;
      this.env := env;
    }

    /** `gen_node`. `false` is a fatal stop, after which the state is not
        used again. */
    method GenNode(node: AstNode) returns (ok: bool)
      requires Valid()
      modifies this, frame, frame.items
      ensures Valid() && frame.items == old(frame.items)
      ensures var r := Gen(env, node, old(State()));
              ok == r.Some? && (ok ==> State() == r.value)
      decreases node, 2
    {
      match node
      case Number(value) =>
        code := code + [MovImm64(RAX, ToU64(value))];
        ok := true;
      case Identifier(name) => ok := GenIdentifier(name);
      case Assignment(left, right) => ok := GenAssignment(left, right);
      case BinaryOp(op, left, right) => ok := GenBinaryOp(op, left, right);
      case Compare(op, left, right) => ok := GenCompare(op, left, right);
      case Block(statements) => ok := GenBlock(statements);
      case StringLiteral(_) =>
        code := code + [MovImm64(RAX, env.hello)];
        ok := true;
      case FunctionCall(parameters) => ok := GenFunctionCall(parameters);
      case VariableDeclaration(name, isArray, numBytes) =>
        ok := GenVariableDeclaration(name, isArray, numBytes);
      case WhileLoop(condition, body) => ok := GenWhileLoop(condition, body);
    }

    /** `gen_identifier`: the type is looked up first, then the slot. */
    method GenIdentifier(name: seq<char>) returns (ok: bool)
      requires Valid()
      modifies this
      ensures Valid()
      ensures var r := CodeGenSpec.GenIdentifier(env, name, old(State()));
              ok == r.Some? && (ok ==> State() == r.value)
    {
      if name !in env.types {
        return false;
      }
      var offset := frame.GetVariableOffset(name);
      if offset.None? {
        return false;
      }
      code := code + [LoadFromStack(Width(env.types[name]), offset.value)];
      return true;
    }

    /** `gen_assignment`: the right-hand side, then the slot, then the
        type of the left-hand side. */
    method GenAssignment(left: AstNode, right: AstNode) returns (ok: bool)
      requires Valid()
      modifies this, frame, frame.items
      ensures Valid() && frame.items == old(frame.items)
      ensures var r := CodeGenSpec.GenAssignment(env, left, right, old(State()));
              ok == r.Some? && (ok ==> State() == r.value)
      decreases Assignment(left, right), 1
    {
      ghost var s0 := State();
      ghost var r := CodeGenSpec.GenAssignment(env, left, right, s0);
      ok := GenNode(right);
      if ok {
        ghost var s1 := State();
        assert Gen(env, right, s0) == Some(s1);
        ok := Store(left);
      }
    }

    /** The end of `gen_assignment`: the slot, then the type, of the
        target. */
    method Store(left: AstNode) returns (ok: bool)
      requires Valid()
      modifies this
      ensures var r := CodeGenSpec.Store(env, left, old(State()));
              ok == r.Some? && (ok ==> State() == r.value)
    {
      if !left.Identifier? {
        return false;
      }
      var offset := frame.GetVariableOffset(left.name);
      if offset.None? {
        return false;
      }
      if left.name !in env.types {
        return false;
      }
      code := code + [StoreToStack(Width(env.types[left.name]), offset.value)];
      return true;
    }

    /** The shared start of `gen_binary_op` and `gen_compare`: the left
        operand, its value parked in RCX, then the right operand. */
    method GenOperands(ghost parent: AstNode, left: AstNode, right: AstNode) returns (ok: bool)
      requires (parent.BinaryOp? || parent.Compare?) && parent.left == left && parent.right == right
      requires Valid()
      modifies this, frame, frame.items
      ensures Valid() && frame.items == old(frame.items)
      ensures var r1 := Gen(env, left, old(State()));
              ok == (r1.Some? && Gen(env, right, Emit(r1.value, MovRegReg(RCX, RAX))).Some?)
      ensures ok ==>
        State() == Gen(env, right, Emit(Gen(env, left, old(State())).value, MovRegReg(RCX, RAX))).value
      decreases parent, 0
    {
      ghost var s0 := State();
      ok := GenNode(left);
      if !ok {
        return;
      }
      ghost var s1 := State();
      assert Gen(env, left, s0) == Some(s1);
      code := code + [MovRegReg(RCX, RAX)];
      ok := GenNode(right);
    }

    /** `gen_binary_op`. */
    method GenBinaryOp(op: Lexer.TokenType, left: AstNode, right: AstNode) returns (ok: bool)
      requires Valid()
      modifies this, frame, frame.items
      ensures Valid() && frame.items == old(frame.items)
      ensures var r := CodeGenSpec.GenBinaryOp(env, op, left, right, old(State()));
              ok == r.Some? && (ok ==> State() == r.value)
      decreases BinaryOp(op, left, right), 1
    {
      ghost var r := CodeGenSpec.GenBinaryOp(env, op, left, right, State());
      ok := GenOperands(BinaryOp(op, left, right), left, right);
      if !ok {
        return;
      }
      if op == Lexer.Plus {
        code := code + [Arithmetic(RAX, RCX, op)];
      } else {
        ok := false;
      }
    }

    /** `gen_compare`. */
    method GenCompare(op: Lexer.TokenType, left: AstNode, right: AstNode) returns (ok: bool)
      requires Valid()
      modifies this, frame, frame.items
      ensures Valid() && frame.items == old(frame.items)
      ensures var r := CodeGenSpec.GenCompare(env, op, left, right, old(State()));
              ok == r.Some? && (ok ==> State() == r.value)
      decreases Compare(op, left, right), 1
    {
      ghost var r := CodeGenSpec.GenCompare(env, op, left, right, State());
      ok := GenOperands(Compare(op, left, right), left, right);
      if !ok {
        return;
      }
      code := code + [Cmp(RAX, RCX)];
    }

    /** `gen_block`: the statements in order, stopping at the first fatal
        one. */
    method GenBlock(statements: seq<AstNode>) returns (ok: bool)
      requires Valid()
      modifies this, frame, frame.items
      ensures Valid() && frame.items == old(frame.items)
      ensures var r := GenSeq(env, statements, old(State()));
              ok == r.Some? && (ok ==> State() == r.value)
      decreases statements, 2
    {
      var i := 0;
      while i < |statements|
        invariant i <= |statements| && Valid() && frame.items == old(frame.items)
        invariant GenSeq(env, statements, old(State())) == GenSeq(env, statements[i..], State())
        decreases |statements| - i
      {
        assert statements[i..][1..] == statements[i + 1..];
        ok := GenNode(statements[i]);
        if !ok {
          return;
        }
        i := i + 1;
      }
      assert statements[i..] == [];
      ok := true;
    }

    /** `gen_function_call`: at most four parameters, each generated in
        turn (moving them into argument registers is not done), then the
        call of `puts` inside 32 bytes of shadow space. */
    method GenFunctionCall(parameters: seq<AstNode>) returns (ok: bool)
      requires Valid()
      modifies this, frame, frame.items
      ensures Valid() && frame.items == old(frame.items)
      ensures var r := CodeGenSpec.GenFunctionCall(env, parameters, old(State()));
              ok == r.Some? && (ok ==> State() == r.value)
      decreases FunctionCall(parameters), 1
    {
      if |parameters| > MaxParameters {
        return false;
      }
      ghost var s0 := State();
      ok := GenBlock(parameters);
      if !ok {
        return;
      }
      ghost var s1 := State();
      assert GenSeq(env, parameters, s0) == Some(s1);
      code := code + [StackAlloc(ShadowSpace), MovImm64(RAX, env.puts), CallRax, StackDealloc(ShadowSpace)];
    }

    /** `gen_variable_declaration`. */
    method GenVariableDeclaration(name: seq<char>, isArray: bool, numBytes: nat) returns (ok: bool)
      requires Valid()
      modifies frame, frame.items
      ensures Valid() && frame.items == old(frame.items)
      ensures var r := CodeGenSpec.GenVariableDeclaration(name, isArray, numBytes, old(State()));
              ok == r.Some? && (ok ==> State() == r.value)
    {
      if isArray {
        return true;
      }
      ok := frame.AddVariable(name, numBytes);
    }

    /** `gen_while_loop`. */
    method GenWhileLoop(condition: AstNode, body: seq<AstNode>) returns (ok: bool)
      requires Valid()
      modifies this, frame, frame.items
      ensures Valid() && frame.items == old(frame.items)
      ensures var r := GenWhile(env, condition, body, old(State()));
              ok == r.Some? && (ok ==> State() == r.value)
      decreases WhileLoop(condition, body), 1
    {
      var startOfCondition := |code|;
      ghost var s0 := State();
      ok := GenNode(condition);
      if ok {
        ghost var s1 := State();
        assert Gen(env, condition, s0) == Some(s1);
        ok := CloseLoop(body, startOfCondition);
      }
    }

    /** The rest of `gen_while_loop` once the condition is emitted. */
    method CloseLoop(body: seq<AstNode>, startOfCondition: nat) returns (ok: bool)
      requires Valid()
      modifies this, frame, frame.items
      ensures Valid() && frame.items == old(frame.items)
      ensures var r := CodeGenSpec.CloseLoop(env, body, startOfCondition, old(State()));
              ok == r.Some? && (ok ==> State() == r.value)
      decreases body, 4
    {
      var jeqEndOffset := |code|;
      code := code + [Je(0)];
      ghost var s0 := State();
      ok := GenBlock(body);
      if !ok {
        return;
      }
      ghost var s1 := State();
      assert GenSeq(env, body, s0) == Some(s1);
      code := code + [Jmp(startOfCondition)];
      code := code[jeqEndOffset := Je(|code|)];
    }

    /** `code_gen`: a fresh buffer over the old write position, a fresh
        frame, the entry, the tree, the entry patched with the frame size,
        and the exit. */
    method CodeGen(ast: AstNode) returns (ok: bool)
      requires Valid()
      modifies this, frame, frame.items
      ensures Valid() && frame.items == old(frame.items)
      ensures var r := CodeGenSpec.CodeGen(env, ast, old(code));
              ok == r.Some? && (ok ==> State() == r.value)
    {
      code := Cleared(code);
      frame.Init();
      var startOfCode := |code|;
      code := code + [FuncEntry(0)];
      ghost var s0 := State();
      ok := GenNode(ast);
      if !ok {
        return;
      }
      ghost var s1 := State();
      assert Gen(env, ast, s0) == Some(s1);
      var size := frame.Size();
      code := code[startOfCode := FuncEntry(size)];
      code := code + [FuncExit];
      assert State() == GenState(s1.code[startOfCode := FuncEntry(FrameSize(s1.decls))] + [FuncExit], s1.decls);
    }
  }
}

/** What the emitted expression code computes, with each instruction read
    as `code_gen.c` describes it: an operation takes its inputs from RAX
    and RCX and leaves its result in RAX. Only the instructions of
    expressions over 64-bit variables are given a meaning. */
module CodeGenMeaning {
  import opened Common
  import opened FrameLayout
  import opened Types
  import opened CodeGenSpec
  import Lexer

  const Modulus: int := 0x1_0000_0000_0000_0000

  /** The two registers the expressions use and the frame's 64-bit
      slots, by offset. */
  datatype Machine = Machine(rax: u64, rcx: u64, stack: map<nat, u64>)

  /** One instruction; `None` for an instruction given no meaning here or
      a load from a slot that holds nothing. */
  function Step(i: Instr, m: Machine): Option<Machine>
  {
    match i
    case MovImm64(RAX, v) => Some(m.(rax := v))
    case MovImm64(RCX, v) => Some(m.(rcx := v))
    case MovRegReg(RCX, RAX) => Some(m.(rcx := m.rax))
    case Arithmetic(RAX, RCX, op) =>
      if op == Lexer.Plus then Some(m.(rax := (m.rax + m.rcx) % Modulus)) else None
    case LoadFromStack(RAX, offset) =>
      if offset in m.stack then Some(m.(rax := m.stack[offset])) else None
    case StoreToStack(RAX, offset) => Some(m.(stack := m.stack[offset := m.rax]))
    case _ => None
  }

  /** The instructions one after another. */
  function Run(code: seq<Instr>, m: Machine): Option<Machine>
  {
    if code == [] then Some(m)
    else match Step(code[0], m)
      case None => None
      case Some(m1) => Run(code[1..], m1)
  }

  /** The value of an expression over 64-bit variables, with wrap-around
      addition: the variables are read from the frame slots the
      declarations give them. */
  function Value(env: Env, decls: seq<Decl>, stack: map<nat, u64>, e: AstNode): Option<u64>
  {
    match e
    case Number(v) => Some(ToU64(v))
    case Identifier(name) =>
      if name !in env.types || env.types[name].numBytes == 1 then None
      else (match FirstOffset(Layout(decls), name)
        case None => None
        case Some(offset) => if offset in stack then Some(stack[offset]) else None)
    case BinaryOp(op, left, right) =>
      if op != Lexer.Plus then None
      else (match Value(env, decls, stack, left)
      case None => None
      case Some(a) =>
        (match Value(env, decls, stack, right)
        case None => None
        case Some(b) => Some((a + b) % Modulus)))
    case _ => None
  }

  /** Every `+` has a literal or a variable as its right operand. */
  predicate LeafRight(e: AstNode)
  {
    match e
    case BinaryOp(_, left, right) => (right.Number? || right.Identifier?) && LeafRight(left)
    case _ => true
  }

  lemma {:induction false} RunAppend(a: seq<Instr>, b: seq<Instr>, m: Machine)
    ensures Run(a + b, m) == (match Run(a, m) case None => None case Some(m1) => Run(b, m1))
  {
    if a != [] {
      assert (a + b)[0] == a[0];
      assert (a + b)[1..] == a[1..] + b;
      match Step(a[0], m)
      case None =>
      case Some(m1) => RunAppend(a[1..], b, m1);
    } else {
      assert a + b == b;
    }
  }

  /** The code emitted for a literal or a variable loads its value into
      RAX and leaves RCX and the frame as they were. */
  lemma LeafLoads(env: Env, e: AstNode, st: GenState, m: Machine)
    requires e.Number? || e.Identifier?
    requires Gen(env, e, st).Some? && Value(env, st.decls, m.stack, e).Some?
    ensures Run(Gen(env, e, st).value.code[|st.code|..], m)
         == Some(m.(rax := Value(env, st.decls, m.stack, e).value))
  {
    var r := Gen(env, e, st).value;
    assert r.code[|st.code|..] == [r.code[|st.code|]];
  }

  /** The emitted code leaves the expression's value in RAX and the frame
      unchanged, as long as no right operand is itself a sum. */
  lemma {:induction false} ExpressionValue(env: Env, e: AstNode, st: GenState, m: Machine)
    requires LeafRight(e)
    requires Gen(env, e, st).Some? && Value(env, st.decls, m.stack, e).Some?
    ensures var after := Run(Gen(env, e, st).value.code[|st.code|..], m);
            && after.Some?
            && after.value.rax == Value(env, st.decls, m.stack, e).value
            && after.value.stack == m.stack
    decreases e, 2
  {
    if e.BinaryOp? {
      SumValue(env, e, st, m);
    } else {
      LeafLoads(env, e, st, m);
    }
  }

  /** The code of a binary operation, in order: the left operand's, the
      copy into RCX, the right operand's and the operation. */
  lemma SumCode(env: Env, e: AstNode, st: GenState)
    requires e.BinaryOp? && Gen(env, e, st).Some?
    ensures Gen(env, e.left, st).Some?
    ensures var s1 := Gen(env, e.left, st).value;
            var mid := Emit(s1, MovRegReg(RCX, RAX));
            && Gen(env, e.right, mid).Some?
            && Gen(env, e, st).value.code[|st.code|..] ==
               s1.code[|st.code|..] + [MovRegReg(RCX, RAX)]
               + Gen(env, e.right, mid).value.code[|mid.code|..] + [Arithmetic(RAX, RCX, e.op)]
  {
    var s1 := Gen(env, e.left, st).value;
    var mid := Emit(s1, MovRegReg(RCX, RAX));
    var s2 := Gen(env, e.right, mid).value;
    var r := Gen(env, e, st).value;
    var codeR := s2.code[|mid.code|..];
    assert r.code == s2.code + [Arithmetic(RAX, RCX, e.op)];
    assert s2.code == mid.code + codeR by { assert s2.code[..|mid.code|] == mid.code; }
    assert s1.code == st.code + s1.code[|st.code|..] by { assert s1.code[..|st.code|] == st.code; }
  }

  /** The `+` case: the left operand's value is parked in RCX while the
      right operand, a single load, fills RAX. */
  lemma {:induction false} SumValue(env: Env, e: AstNode, st: GenState, m: Machine)
    requires e.BinaryOp? && LeafRight(e)
    requires Gen(env, e, st).Some? && Value(env, st.decls, m.stack, e).Some?
    ensures var after := Run(Gen(env, e, st).value.code[|st.code|..], m);
            && after.Some?
            && after.value.rax == Value(env, st.decls, m.stack, e).value
            && after.value.stack == m.stack
    decreases e, 1
  {
    SumCode(env, e, st);
    SumParts(env, e, st, m);
  }

  /** The `+` case over the operands' code, in the order `SumCode` gives. */
  lemma {:induction false} SumParts(env: Env, e: AstNode, st: GenState, m: Machine)
    requires e.BinaryOp? && LeafRight(e) && Value(env, st.decls, m.stack, e).Some?
    requires Gen(env, e.left, st).Some?
    requires Gen(env, e.right, Emit(Gen(env, e.left, st).value, MovRegReg(RCX, RAX))).Some?
    ensures var s1 := Gen(env, e.left, st).value;
            var mid := Emit(s1, MovRegReg(RCX, RAX));
            var codeR := Gen(env, e.right, mid).value.code[|mid.code|..];
            var after := Run(s1.code[|st.code|..] + [MovRegReg(RCX, RAX)] + codeR
                             + [Arithmetic(RAX, RCX, e.op)], m);
            && after.Some?
            && after.value.rax == Value(env, st.decls, m.stack, e).value
            && after.value.stack == m.stack
    decreases e, 0
  {
    var s1 := Gen(env, e.left, st).value;
    var mid := Emit(s1, MovRegReg(RCX, RAX));
    var s2 := Gen(env, e.right, mid).value;
    PlusValue(env, st.decls, m.stack, e);
    ValueDeclaresNothing(env, st.decls, m.stack, e.left);
    var codeL := s1.code[|st.code|..];
    var codeR := s2.code[|mid.code|..];
    ExpressionValue(env, e.left, st, m);
    var m1 := Run(codeL, m).value;
    var m2 := m1.(rcx := m1.rax);
    assert mid.decls == st.decls && m2.stack == m.stack;
    LeafLoads(env, e.right, mid, m2);
    SumRuns(codeL, codeR, e.op, m, m1, Value(env, st.decls, m.stack, e.right).value);
  }

  /** A binary operation has a value only as a `+` of two operands that
      have values, and that value is their wrap-around sum. */
  lemma PlusValue(env: Env, decls: seq<Decl>, stack: map<nat, u64>, e: AstNode)
    requires e.BinaryOp? && Value(env, decls, stack, e).Some?
    ensures && e.op == Lexer.Plus
            && Value(env, decls, stack, e.left).Some? && Value(env, decls, stack, e.right).Some?
            && Value(env, decls, stack, e).value
               == (Value(env, decls, stack, e.left).value + Value(env, decls, stack, e.right).value) % Modulus
  {
  }

  /** The machine side of a sum: after the left operand's code leaves
      `m1`, parking RAX in RCX, loading the right operand's value and
      adding leaves their wrap-around sum in RAX. */
  lemma SumRuns(codeL: seq<Instr>, codeR: seq<Instr>, op: Lexer.TokenType, m: Machine, m1: Machine, v: u64)
    requires op == Lexer.Plus
    requires Run(codeL, m) == Some(m1)
    requires Run(codeR, m1.(rcx := m1.rax)) == Some(m1.(rcx := m1.rax, rax := v))
    ensures Run(codeL + [MovRegReg(RCX, RAX)] + codeR + [Arithmetic(RAX, RCX, op)], m)
         == Some(m1.(rcx := m1.rax, rax := (m1.rax + v) % Modulus))
  {
    var mov := MovRegReg(RCX, RAX);
    var add := Arithmetic(RAX, RCX, op);
    RunCons(mov, [], m1);
    RunAppend(codeL, [mov], m);
    RunAppend(codeL + [mov], codeR, m);
    RunCons(add, [], m1.(rcx := m1.rax, rax := v));
    RunAppend(codeL + [mov] + codeR, [add], m);
  }

  /** An expression `Value` gives a value to declares no frame slot. */
  lemma {:induction false} ValueDeclaresNothing(env: Env, decls: seq<Decl>, stack: map<nat, u64>, e: AstNode)
    requires Value(env, decls, stack, e).Some?
    ensures Declared(e) == []
  {
    if e.BinaryOp? {
      ValueDeclaresNothing(env, decls, stack, e.left);
      ValueDeclaresNothing(env, decls, stack, e.right);
    }
  }

  /** `a + (b + c)` over literals. */
  function NestedSum(a: i32, b: i32, c: i32): AstNode
  {
    BinaryOp(Lexer.Plus, Number(a), BinaryOp(Lexer.Plus, Number(b), Number(c)))
  }

  /** The code emitted for `a + (b + c)`: the inner sum overwrites RCX,
      where the outer sum had parked `a`. */
  function NestedSumCode(a: i32, b: i32, c: i32): seq<Instr>
  {
    [MovImm64(RAX, ToU64(a)), MovRegReg(RCX, RAX), MovImm64(RAX, ToU64(b)), MovRegReg(RCX, RAX),
     MovImm64(RAX, ToU64(c)), Arithmetic(RAX, RCX, Lexer.Plus), Arithmetic(RAX, RCX, Lexer.Plus)]
  }

  lemma NestedSumEmits(env: Env, a: i32, b: i32, c: i32)
    ensures Gen(env, NestedSum(a, b, c), GenState([], [])) == Some(GenState(NestedSumCode(a, b, c), []))
  {
    var add := Arithmetic(RAX, RCX, Lexer.Plus);
    var s1 := GenState([MovImm64(RAX, ToU64(a))], []);
    assert Gen(env, Number(a), GenState([], [])) == Some(s1);
    var mid := Emit(s1, MovRegReg(RCX, RAX));
    var t1 := Emit(mid, MovImm64(RAX, ToU64(b)));
    assert Gen(env, Number(b), mid) == Some(t1);
    var t2 := Emit(t1, MovRegReg(RCX, RAX));
    var t3 := Emit(t2, MovImm64(RAX, ToU64(c)));
    assert Gen(env, Number(c), t2) == Some(t3);
    var t4 := Emit(t3, add);
    assert Gen(env, NestedSum(a, b, c).right, mid) == Some(t4);
    assert Gen(env, NestedSum(a, b, c), GenState([], [])) == Some(Emit(t4, add));
    assert Emit(t4, add).code == NestedSumCode(a, b, c);
  }

  /** Running a first instruction, then the rest. */
  lemma RunCons(i: Instr, rest: seq<Instr>, m: Machine)
    ensures Run([i] + rest, m) == (match Step(i, m) case None => None case Some(m1) => Run(rest, m1))
  {
    assert ([i] + rest)[0] == i && ([i] + rest)[1..] == rest;
  }

  /** The code for `a + (b + c)` leaves `b + c + b` in RAX: `a` is lost. */
  lemma NestedSumRuns(a: i32, b: i32, c: i32, m: Machine)
    ensures Run(NestedSumCode(a, b, c), m)
         == Some(m.(rax := ((ToU64(c) + ToU64(b)) % Modulus + ToU64(b)) % Modulus, rcx := ToU64(b)))
  {
    var add := Arithmetic(RAX, RCX, Lexer.Plus);
    var bc := (ToU64(c) + ToU64(b)) % Modulus;
    var mb := m.(rax := ToU64(b), rcx := ToU64(b));
    var tail := [add];
    RunCons(add, [], mb.(rax := bc));
    RunCons(add, tail, mb.(rax := ToU64(c)));
    tail := [add] + tail;
    RunCons(MovImm64(RAX, ToU64(c)), tail, mb);
    tail := [MovImm64(RAX, ToU64(c))] + tail;
    RunCons(MovRegReg(RCX, RAX), tail, m.(rax := ToU64(b), rcx := ToU64(a)));
    tail := [MovRegReg(RCX, RAX)] + tail;
    RunCons(MovImm64(RAX, ToU64(b)), tail, m.(rax := ToU64(a), rcx := ToU64(a)));
    tail := [MovImm64(RAX, ToU64(b))] + tail;
    RunCons(MovRegReg(RCX, RAX), tail, m.(rax := ToU64(a)));
    tail := [MovRegReg(RCX, RAX)] + tail;
    RunCons(MovImm64(RAX, ToU64(a)), tail, m);
    tail := [MovImm64(RAX, ToU64(a))] + tail;
    assert tail == NestedSumCode(a, b, c);
  }

  /** The value of `a + (b + c)`. */
  lemma NestedSumValue(env: Env, a: i32, b: i32, c: i32, stack: map<nat, u64>)
    ensures Value(env, [], stack, NestedSum(a, b, c))
         == Some((ToU64(a) + (ToU64(b) + ToU64(c)) % Modulus) % Modulus)
  {
    assert Value(env, [], stack, Number(b)) == Some(ToU64(b));
    assert Value(env, [], stack, Number(c)) == Some(ToU64(c));
    assert Value(env, [], stack, NestedSum(a, b, c).right) == Some((ToU64(b) + ToU64(c)) % Modulus);
  }

  /** `a + (b + c)` gets its value exactly when `a` and `b` are equal:
      the code adds `b` where `a` belongs. */
  lemma RightSumClobbersRcx(env: Env, a: i32, b: i32, c: i32, m: Machine)
    ensures Gen(env, NestedSum(a, b, c), GenState([], [])).Some?
    ensures Run(Gen(env, NestedSum(a, b, c), GenState([], [])).value.code, m).Some?
    ensures Value(env, [], m.stack, NestedSum(a, b, c)).Some?
    ensures Run(Gen(env, NestedSum(a, b, c), GenState([], [])).value.code, m).value.rax
         == Value(env, [], m.stack, NestedSum(a, b, c)).value
        <==> a == b
  {
    NestedSumValue(env, a, b, c, m.stack);
    NestedSumEmits(env, a, b, c);
    NestedSumRuns(a, b, c, m);
    SumsAgree(ToU64(a), ToU64(b), ToU64(c));
    if ToU64(a) == ToU64(b) {
      assert Signed(ToU64(a)) == Signed(ToU64(b));
    }
  }

  /** Wrap-around sums `x + (y + z)` and `(z + y) + y` agree exactly when
      `x == y`. */
  lemma SumsAgree(x: u64, y: u64, z: u64)
    ensures (x + (y + z) % Modulus) % Modulus == ((z + y) % Modulus + y) % Modulus <==> x == y
  {
    var lhs := (x + (y + z) % Modulus) % Modulus;
    var rhs := ((z + y) % Modulus + y) % Modulus;
    assert lhs == (x + y + z) % Modulus by { ModAdd(x, y + z); }
    assert rhs == (y + y + z) % Modulus by { ModAdd(y, z + y); }
    if lhs == rhs {
      ModDiff(x + y + z, y + y + z);
    }
  }

  lemma ModAdd(x: int, w: int)
    requires 0 <= x && 0 <= w
    ensures (x + w % Modulus) % Modulus == (x + w) % Modulus
  {
    var q := w / Modulus;
    assert w == q * Modulus + w % Modulus;
    assert x + w == (x + w % Modulus) + q * Modulus;
    ModShift(x + w % Modulus, q);
  }

  lemma ModShift(v: int, q: int)
    requires 0 <= v && 0 <= q
    ensures (v + q * Modulus) % Modulus == v % Modulus
  {
    if q > 0 {
      ModShift(v, q - 1);
      assert v + q * Modulus == (v + (q - 1) * Modulus) + Modulus;
    }
  }

  /** Two sums less than twice the modulus apart by less than the modulus
      agree modulo it only when equal. */
  lemma ModDiff(u: int, v: int)
    requires 0 <= u < 3 * Modulus && 0 <= v < 3 * Modulus
    requires -Modulus < u - v < Modulus
    requires u % Modulus == v % Modulus
    ensures u == v
  {
    var qu := u / Modulus;
    var qv := v / Modulus;
    assert u == qu * Modulus + u % Modulus;
    assert v == qv * Modulus + v % Modulus;
    assert u - v == (qu - qv) * Modulus;
  }
}
