/** The x86-64 byte emitter (assembler.c). Each emitter appends one fixed
    instruction encoding to the code buffer at `binarySize` and advances
    `binarySize`; nothing checks the buffer's capacity, so staying inside
    it is the caller's precondition. The encodings follow the instruction
    reference of the Intel 64 and IA-32 Architectures Software Developer's
    Manual, Volume 2. */
module Assembler {
  import opened Common

  /** Size of the executable region `asm_init` reserves. */
  const Capacity: nat := 0x1000

  datatype Reg = RAX | RCX | RDX

  /** The `rd` register number the manual adds to an opcode byte. */
  function RegCode(r: Reg): nat
  {
    match r
    case RAX => 0
    case RCX => 1
    case RDX => 2
  }

  /** The instructions the emitters produce. */
  datatype MachineInstr =
    | SubRsp(imm: byte)          // sub rsp, imm8
    | AddRsp(imm: byte)          // add rsp, imm8
    | Push(reg: Reg)
    | Pop(reg: Reg)
    | MovImm64(dst: Reg, val: u64)
    | CallRax
    | Ret

  // ---------------------------------------------------------------------
  // The manual's encoding formulas

  const RexW: byte := 0x48
  /** ModRM's `rm` field for RSP. */
  const RspCode: nat := 4

  /** A ModRM byte: `mod` in bits 7..6, `reg` (or an opcode extension
      `/digit`) in bits 5..3, `rm` in bits 2..0. */
  function ModRM(md: nat, reg: nat, rm: nat): byte
    requires md < 4 && reg < 8 && rm < 8
  {
    (md * 64 + reg * 8 + rm) as byte
  }

  /** `n` bytes of `v`, least significant first (`memcpy` of a
      little-endian integer). */
  function LittleEndian(v: nat, n: nat): (bs: seq<byte>)
    ensures |bs| == n
  {
    if n == 0 then [] else [(v % 256) as byte] + LittleEndian(v / 256, n - 1)
  }

  /** Reads bytes back as a little-endian unsigned integer. */
  function FromLittleEndian(bs: seq<byte>): nat
  {
    if bs == [] then 0 else bs[0] as nat + 256 * FromLittleEndian(bs[1..])
  }

  function Pow256(n: nat): nat
  {
    if n == 0 then 1 else 256 * Pow256(n - 1)
  }

  lemma {:induction false} LittleEndianRoundTrip(v: nat, n: nat)
    requires v < Pow256(n)
    ensures FromLittleEndian(LittleEndian(v, n)) == v
  {
    if n > 0 {
      LittleEndianRoundTrip(v / 256, n - 1);
      assert LittleEndian(v, n)[1..] == LittleEndian(v / 256, n - 1);
    }
  }

  /** The bytes each instruction is emitted as.  `Push` is the corrected
      `50+rd`; see `PushOpcodeAsWritten` for what the source emits. */
  function Encode(i: MachineInstr): (bs: seq<byte>)
    ensures i.SubRsp? ==> bs == [RexW, 0x83, ModRM(3, 5, RspCode), i.imm]
    ensures i.AddRsp? ==> bs == [RexW, 0x83, ModRM(3, 0, RspCode), i.imm]
    ensures i.Push? ==> bs == [(0x50 + RegCode(i.reg)) as byte]
    ensures i.Pop? ==> bs == [(0x58 + RegCode(i.reg)) as byte]
    ensures i.MovImm64? ==> bs == [RexW, (0xB8 + RegCode(i.dst)) as byte] + LittleEndian(i.val, 8)
    ensures i.CallRax? ==> bs == [0xFF, ModRM(3, 2, RegCode(RAX))]
    ensures i.Ret? ==> bs == [0xC3]
  {
    match i
    case SubRsp(n) => [0x48, 0x83, 0xEC, n]
    case AddRsp(n) => [0x48, 0x83, 0xC4, n]
    case Push(r) => [PushOpcode(r)]
    case Pop(r) => [PopOpcode(r)]
    case MovImm64(r, v) => [0x48, MovImmOpcode(r)] + LittleEndian(v, 8)
    case CallRax => [0xFF, 0xD0]
    case Ret => [0xC3]
  }

  /** The `50+rd` opcode byte of `push`. */
  function PushOpcode(r: Reg): (b: byte)
    ensures b as int == 0x50 + RegCode(r)
  {
    match r
    case RAX => 0x50
    case RCX => 0x51
    case RDX => 0x52
  }

  /** The `58+rd` opcode byte of `pop`. */
  function PopOpcode(r: Reg): (b: byte)
    ensures b as int == 0x58 + RegCode(r)
  {
    match r
    case RAX => 0x58
    case RCX => 0x59
    case RDX => 0x5a
  }

  /** The `B8+rd` opcode byte of `mov r64, imm64`. */
  function MovImmOpcode(r: Reg): (b: byte)
    ensures b as int == 0xB8 + RegCode(r)
  {
    match r
    case RAX => 0xb8
    case RCX => 0xb9
    case RDX => 0xba
  }

  /** The opcode byte `asm_emit_push_reg` writes, as the source has it:
      RDX shares RCX's `0x51`. */
  function PushOpcodeAsWritten(r: Reg): (b: byte)
    ensures b == PushOpcode(r) <==> r != RDX
    ensures r == RDX ==> b == PushOpcode(RCX)
  {
    match r
    case RAX => 0x50
    case RCX => 0x51
    case RDX => 0x51
  }

  function RegOfCode(c: int): Reg
    requires 0 <= c < 3
  {
    if c == 0 then RAX else if c == 1 then RCX else RDX
  }

  /** Decodes the first instruction of `bs` within the emitted subset,
      returning it and its length. */
  function Decode(bs: seq<byte>): Option<(MachineInstr, nat)>
  {
    if |bs| == 0 then None
    else if bs[0] == 0x48 && |bs| >= 4 && bs[1] == 0x83 && bs[2] == 0xEC then Some((SubRsp(bs[3]), 4))
    else if bs[0] == 0x48 && |bs| >= 4 && bs[1] == 0x83 && bs[2] == 0xC4 then Some((AddRsp(bs[3]), 4))
    else if bs[0] == 0x48 && |bs| >= 10 && 0xB8 <= bs[1] <= 0xBA then
      var v := FromLittleEndian(bs[2..10]);
      if v < 0x1_0000_0000_0000_0000 then Some((MovImm64(RegOfCode(bs[1] as int - 0xB8), v), 10)) else None
    else if 0x50 <= bs[0] <= 0x52 then Some((Push(RegOfCode(bs[0] as int - 0x50)), 1))
    else if 0x58 <= bs[0] <= 0x5A then Some((Pop(RegOfCode(bs[0] as int - 0x58)), 1))
    else if bs[0] == 0xFF && |bs| >= 2 && bs[1] == 0xD0 then Some((CallRax, 2))
    else if bs[0] == 0xC3 then Some((Ret, 1))
    else None
  }

  /** Every encoding decodes back to its instruction, whatever follows it,
      so the emitted byte stream is unambiguous. */
  lemma DecodeEncode(i: MachineInstr, rest: seq<byte>)
    ensures Decode(Encode(i) + rest) == Some((i, |Encode(i)|))
  {
    var bs := Encode(i) + rest;
    if i.MovImm64? {
      assert Pow256(8) == 0x1_0000_0000_0000_0000;
      LittleEndianRoundTrip(i.val, 8);
      assert bs[2..10] == LittleEndian(i.val, 8);
    }
  }

  /** As written, pushing RDX emits RCX's opcode and decodes as `push rcx`. */
  lemma PushRdxAsWrittenIsPushRcx()
    ensures PushOpcodeAsWritten(RDX) == PushOpcodeAsWritten(RCX)
    ensures Decode([PushOpcodeAsWritten(RDX)]) == Some((Push(RCX), 1))
    ensures Encode(Push(RDX)) != [PushOpcodeAsWritten(RDX)]
  {
  }

  // ---------------------------------------------------------------------
  // The code buffer (g_assembler)

  class CodeBuffer {
    var binary: array<byte>
    var binarySize: nat

    ghost predicate Valid()
      reads this
    {
      binary.Length == Capacity && binarySize <= Capacity
    }

    /** The bytes emitted so far. */
    ghost function Bytes(): seq<byte>
      reads this, binary
      requires Valid()
    {
      binary[..binarySize]
    }

    /** The zero-initialised global with the fresh zeroed region that
        `asm_init` obtains from the operating system. */
    constructor Init()
      ensures Valid() && fresh(binary)
      ensures binarySize == 0 && Bytes() == []
      ensures forall k | 0 <= k < Capacity :: binary[k] == 0
    {
      binary := new byte[Capacity](_ => 0);
      binarySize := 0;
    }

    /** `asm_emit_stack_alloc`: `sub rsp, num_bytes`. */
    method EmitStackAlloc(numBytes: byte)
      requires Valid() && binarySize + 4 <= Capacity
      modifies this, binary
      ensures Valid() && binary == old(binary)
      ensures binarySize == old(binarySize) + 4
      ensures Bytes() == old(Bytes()) + Encode(SubRsp(numBytes))
      ensures forall k | binarySize <= k < Capacity :: binary[k] == old(binary[k])
    {
      var c := binarySize;
      binary[c] := 0x48;
      binary[c + 1] := 0x83;
      binary[c + 2] := 0xEC;
      binary[c + 3] := numBytes;
      binarySize := binarySize + 4;
    }

    /** `asm_emit_stack_dealloc`: `add rsp, num_bytes`. */
    method EmitStackDealloc(numBytes: byte)
      requires Valid() && binarySize + 4 <= Capacity
      modifies this, binary
      ensures Valid() && binary == old(binary)
      ensures binarySize == old(binarySize) + 4
      ensures Bytes() == old(Bytes()) + Encode(AddRsp(numBytes))
      ensures forall k | binarySize <= k < Capacity :: binary[k] == old(binary[k])
    {
      var c := binarySize;
      binary[c] := 0x48;
      binary[c + 1] := 0x83;
      binary[c + 2] := 0xC4;
      binary[c + 3] := numBytes;
      binarySize := binarySize + 4;
    }

    /** `asm_emit_push_reg`, with the corrected `50+rd` opcode. */
    method EmitPushReg(src: Reg)
      requires Valid() && binarySize + 1 <= Capacity
      modifies this, binary
      ensures Valid() && binary == old(binary)
      ensures binarySize == old(binarySize) + 1
      ensures Bytes() == old(Bytes()) + Encode(Push(src))
      ensures forall k | binarySize <= k < Capacity :: binary[k] == old(binary[k])
    {
      var c := binarySize;
      match src {
        case RAX => binary[c] := 0x50;
        case RCX => binary[c] := 0x51;
        case RDX => binary[c] := 0x52;
      }
      binarySize := binarySize + 1;
    }

    /** `asm_emit_pop_reg`. */
    method EmitPopReg(dst: Reg)
      requires Valid() && binarySize + 1 <= Capacity
      modifies this, binary
      ensures Valid() && binary == old(binary)
      ensures binarySize == old(binarySize) + 1
      ensures Bytes() == old(Bytes()) + Encode(Pop(dst))
      ensures forall k | binarySize <= k < Capacity :: binary[k] == old(binary[k])
    {
      var c := binarySize;
      match dst {
        case RAX => binary[c] := 0x58;
        case RCX => binary[c] := 0x59;
        case RDX => binary[c] := 0x5a;
      }
      binarySize := binarySize + 1;
    }

    /** `asm_emit_mov_imm_64`: REX.W, `B8+rd`, then the 8 immediate bytes
        copied little-endian. */
    method EmitMovImm64(dst: Reg, val: u64)
      requires Valid() && binarySize + 10 <= Capacity
      modifies this, binary
      ensures Valid() && binary == old(binary)
      ensures binarySize == old(binarySize) + 10
      ensures Bytes() == old(Bytes()) + Encode(MovImm64(dst, val))
      ensures forall k | binarySize <= k < Capacity :: binary[k] == old(binary[k])
    {
      var c := binarySize;
      binary[c] := 0x48;
      match dst {
        case RAX => binary[c + 1] := 0xb8;
        case RCX => binary[c + 1] := 0xb9;
        case RDX => binary[c + 1] := 0xba;
      }
      var le := LittleEndian(val, 8);
      for k := 0 to 8
        invariant binary == old(binary) && binarySize == c && Valid()
        invariant binary[c] == 0x48 && binary[c + 1] == MovImmOpcode(dst)
        invariant forall j | 0 <= j < k :: binary[c + 2 + j] == le[j]
        invariant forall j | 0 <= j < c :: binary[j] == old(binary[j])
        invariant forall j | c + 10 <= j < Capacity :: binary[j] == old(binary[j])
      {
        binary[c + 2 + k] := le[k];
      }
      ghost var enc: seq<byte> := [0x48, MovImmOpcode(dst)] + le;
      assert forall j | 0 <= j < 10 :: binary[c + j] == enc[j];
      binarySize := binarySize + 10;
      assert binary[..binarySize] == old(binary[..c]) + enc;
    }

    /** `asm_emit_call_rax`: `call rax`. */
    method EmitCallRax()
      requires Valid() && binarySize + 2 <= Capacity
      modifies this, binary
      ensures Valid() && binary == old(binary)
      ensures binarySize == old(binarySize) + 2
      ensures Bytes() == old(Bytes()) + Encode(CallRax)
      ensures forall k | binarySize <= k < Capacity :: binary[k] == old(binary[k])
    {
      var c := binarySize;
      binary[c] := 0xff;
      binary[c + 1] := 0xd0;
      binarySize := binarySize + 2;
    }

    /** `asm_emit_ret`: `ret`. */
    method EmitRet()
      requires Valid() && binarySize + 1 <= Capacity
      modifies this, binary
      ensures Valid() && binary == old(binary)
      ensures binarySize == old(binarySize) + 1
      ensures Bytes() == old(Bytes()) + Encode(Ret)
      ensures forall k | binarySize <= k < Capacity :: binary[k] == old(binary[k])
    {
      binary[binarySize] := 0xc3;
      binarySize := binarySize + 1;
    }
  }
}
