/**
  The RV32I instructions that vivado/tests/tools/gen_perf_coe.py emits: their encoding as the ENC_*
  functions build it, their decoding as sections 2.2 to 2.6 of the RISC-V Unprivileged ISA manual
  give it, and what executing them does.

  Words are integers.  The fields of a word do not overlap, so the or of shifted fields is their sum.
 */
module Rv32 {
  import opened Wrappers

  type Reg = x: nat | x < 32

  type Word = x: nat | x < 0x1_0000_0000

  datatype ImmOp = AddI | XorI | OrI | AndI
  datatype AluOp = Add | Sub | And | Or | Xor
  datatype Cond = Eq | Ne | Lt | Ge

  datatype Insn =
    | Lui(rd: Reg, upper: int)
    | Auipc(rd: Reg, upper: int)
    | OpImm(iop: ImmOp, rd: Reg, rs1: Reg, imm: int)
    | Op(op: AluOp, rd: Reg, rs1: Reg, rs2: Reg)
    | Lw(rd: Reg, rs1: Reg, imm: int)
    | Sw(rs1: Reg, rs2: Reg, imm: int)
    | Branch(cond: Cond, rs1: Reg, rs2: Reg, off: int)
    | Jal(rd: Reg, off: int)

  // ----- Encoding -----

  /** The assertions of the encoders; upper immediates are masked to 20 bits instead. */
  predicate Encodable(i: Insn) {
    match i
    case OpImm(_, _, _, imm) => -2048 <= imm <= 2047
    case Lw(_, _, imm) => -2048 <= imm <= 2047
    case Sw(_, _, imm) => -2048 <= imm <= 2047
    case Branch(_, _, _, off) => -4096 <= off <= 4094 && off % 2 == 0
    case Jal(_, off) => -0x10_0000 <= off <= 0xF_FFFE && off % 2 == 0
    case _ => true
  }

  function EncR(rd: Reg, rs1: Reg, rs2: Reg, funct3: nat, funct7: nat, opcode: nat): nat {
    funct7 % 128 * 0x200_0000 + rs2 * 0x10_0000 + rs1 * 0x8000 + funct3 % 8 * 0x1000 + rd * 128 + opcode % 128
  }

  function EncI(rd: Reg, rs1: Reg, imm: int, funct3: nat, opcode: nat): nat {
    imm % 0x1000 * 0x10_0000 + rs1 * 0x8000 + funct3 % 8 * 0x1000 + rd * 128 + opcode % 128
  }

  function EncS(rs1: Reg, rs2: Reg, imm: int, funct3: nat): nat {
    var imm12 := imm % 0x1000;
    imm12 / 32 * 0x200_0000 + rs2 * 0x10_0000 + rs1 * 0x8000 + funct3 % 8 * 0x1000 + imm12 % 32 * 128 + 0x23
  }

  function EncB(rs1: Reg, rs2: Reg, imm: int, funct3: nat): nat {
    var imm13 := imm % 0x2000;
    var b12, b11, b10_5, b4_1 := imm13 / 4096 % 2, imm13 / 2048 % 2, imm13 / 32 % 64, imm13 / 2 % 16;
    b12 * 0x8000_0000 + b10_5 * 0x200_0000 + rs2 * 0x10_0000 + rs1 * 0x8000 + funct3 % 8 * 0x1000 +
    b4_1 * 256 + b11 * 128 + 0x63
  }

  function EncU(rd: Reg, imm20: int, opcode: nat): nat {
    imm20 % 0x10_0000 * 0x1000 + rd * 128 + opcode % 128
  }

  function EncJ(rd: Reg, imm: int): nat {
    var imm21 := imm % 0x20_0000;
    var b20, b10_1, b11, b19_12 := imm21 / 0x10_0000 % 2, imm21 / 2 % 1024, imm21 / 2048 % 2, imm21 / 4096 % 256;
    b20 * 0x8000_0000 + b10_1 * 0x20_0000 + b11 * 0x10_0000 + b19_12 * 0x1000 + rd * 128 + 0x6F
  }

  function ImmFunct(op: ImmOp): nat {
    match op case AddI => 0 case XorI => 4 case OrI => 6 case AndI => 7
  }

  function AluFunct(op: AluOp): nat {
    match op case Add => 0 case Sub => 0 case And => 7 case Or => 6 case Xor => 4
  }

  function CondFunct(c: Cond): nat {
    match c case Eq => 0 case Ne => 1 case Lt => 4 case Ge => 5
  }

  function Encode(i: Insn): nat {
    match i
    case Lui(rd, upper) => EncU(rd, upper, 0x37)
    case Auipc(rd, upper) => EncU(rd, upper, 0x17)
    case OpImm(op, rd, rs1, imm) => EncI(rd, rs1, imm, ImmFunct(op), 0x13)
    case Op(op, rd, rs1, rs2) => EncR(rd, rs1, rs2, AluFunct(op), if op == Sub then 0x20 else 0, 0x33)
    case Lw(rd, rs1, imm) => EncI(rd, rs1, imm, 2, 0x03)
    case Sw(rs1, rs2, imm) => EncS(rs1, rs2, imm, 2)
    case Branch(c, rs1, rs2, off) => EncB(rs1, rs2, off, CondFunct(c))
    case Jal(rd, off) => EncJ(rd, off)
  }

  // Register and immediate fields of the formats, apart from the constant bits of the instruction.

  function FieldsR(rd: Reg, rs1: Reg, rs2: Reg): nat {
    rs2 * 0x10_0000 + rs1 * 0x8000 + rd * 128
  }

  function FieldsOfI(rd: Reg, rs1: Reg, imm: int): nat {
    imm % 4096 * 0x10_0000 + rs1 * 0x8000 + rd * 128
  }

  function FieldsOfS(rs1: Reg, rs2: Reg, imm: int): nat {
    imm % 4096 / 32 * 0x200_0000 + rs2 * 0x10_0000 + rs1 * 0x8000 + imm % 32 * 128
  }

  function FieldsOfB(rs1: Reg, rs2: Reg, off: int): nat {
    var m := off % 8192;
    m / 4096 % 2 * 0x8000_0000 + m / 32 % 64 * 0x200_0000 + rs2 * 0x10_0000 + rs1 * 0x8000 + m / 2 % 16 * 256 + m / 2048 % 2 * 128
  }

  function FieldsOfJ(rd: Reg, off: int): nat {
    var m := off % 0x20_0000;
    m / 0x10_0000 % 2 * 0x8000_0000 + m / 2 % 1024 * 0x20_0000 + m / 2048 % 2 * 0x10_0000 + m / 4096 % 256 * 4096 + rd * 128
  }

  /** The constant bits of every register and immediate instruction, as the instruction listings of the manual give them. */
  lemma WordsOfOps(rd: Reg, rs1: Reg, rs2: Reg, imm: int)
    ensures Encode(OpImm(AddI, rd, rs1, imm)) == FieldsOfI(rd, rs1, imm) + 0x0013
    ensures Encode(OpImm(XorI, rd, rs1, imm)) == FieldsOfI(rd, rs1, imm) + 0x4013
    ensures Encode(OpImm(OrI, rd, rs1, imm)) == FieldsOfI(rd, rs1, imm) + 0x6013
    ensures Encode(OpImm(AndI, rd, rs1, imm)) == FieldsOfI(rd, rs1, imm) + 0x7013
    ensures Encode(Op(Add, rd, rs1, rs2)) == FieldsR(rd, rs1, rs2) + 0x0033
    ensures Encode(Op(Sub, rd, rs1, rs2)) == FieldsR(rd, rs1, rs2) + 0x4000_0033
    ensures Encode(Op(Xor, rd, rs1, rs2)) == FieldsR(rd, rs1, rs2) + 0x4033
    ensures Encode(Op(Or, rd, rs1, rs2)) == FieldsR(rd, rs1, rs2) + 0x6033
    ensures Encode(Op(And, rd, rs1, rs2)) == FieldsR(rd, rs1, rs2) + 0x7033
    ensures Encode(Lui(rd, imm)) == imm % 0x10_0000 * 4096 + rd * 128 + 0x37
    ensures Encode(Auipc(rd, imm)) == imm % 0x10_0000 * 4096 + rd * 128 + 0x17
  {
  }

  /** So for loads, stores, branches and jumps. */
  lemma WordsOfMoves(rd: Reg, rs1: Reg, rs2: Reg, imm: int)
    ensures Encode(Lw(rd, rs1, imm)) == FieldsOfI(rd, rs1, imm) + 0x2003
    ensures Encode(Sw(rs1, rs2, imm)) == FieldsOfS(rs1, rs2, imm) + 0x2023
    ensures Encode(Jal(rd, imm)) == FieldsOfJ(rd, imm) + 0x6F
  {
    StorePart(imm);
  }

  lemma WordsOfBranches(rs1: Reg, rs2: Reg, off: int)
    ensures Encode(Branch(Eq, rs1, rs2, off)) == FieldsOfB(rs1, rs2, off) + 0x0063
    ensures Encode(Branch(Ne, rs1, rs2, off)) == FieldsOfB(rs1, rs2, off) + 0x1063
    ensures Encode(Branch(Lt, rs1, rs2, off)) == FieldsOfB(rs1, rs2, off) + 0x4063
    ensures Encode(Branch(Ge, rs1, rs2, off)) == FieldsOfB(rs1, rs2, off) + 0x5063
  {
  }

  lemma StorePart(imm: int)
    ensures imm % 4096 % 32 == imm % 32
  {
  }

  // ----- Decoding -----

  function Signed(x: nat, half: nat): int {
    if x >= half then x - 2 * half else x
  }

  function Opcode(w: nat): nat { w % 128 }
  function Rd(w: nat): Reg { w / 128 % 32 }
  function Funct3(w: nat): nat { w / 0x1000 % 8 }
  function Rs1(w: nat): Reg { w / 0x8000 % 32 }
  function Rs2(w: nat): Reg { w / 0x10_0000 % 32 }
  function Funct7(w: nat): nat { w / 0x200_0000 % 128 }

  function ImmI(w: nat): int { Signed(w / 0x10_0000 % 0x1000, 0x800) }
  function ImmS(w: nat): int { Signed(Funct7(w) * 32 + Rd(w), 0x800) }

  /** Bit 31 is bit 12, bits 30 to 25 are 10 to 5, bits 11 to 8 are 4 to 1, bit 7 is bit 11. */
  function ImmB(w: nat): int {
    Signed(w / 0x8000_0000 % 2 * 4096 + w / 128 % 2 * 2048 + w / 0x200_0000 % 64 * 32 + w / 256 % 16 * 2, 0x1000)
  }

  function ImmU(w: nat): int { w / 0x1000 % 0x10_0000 }

  /** Bit 31 is bit 20, bits 30 to 21 are 10 to 1, bit 20 is bit 11, bits 19 to 12 are themselves. */
  function ImmJ(w: nat): int {
    Signed(w / 0x8000_0000 % 2 * 0x10_0000 + w / 0x1000 % 256 * 4096 + w / 0x10_0000 % 2 * 2048 +
           w / 0x20_0000 % 1024 * 2, 0x10_0000)
  }

  function Decode(w: nat): Option<Insn> {
    match Opcode(w)
    case 0x37 => Some(Lui(Rd(w), ImmU(w)))
    case 0x17 => Some(Auipc(Rd(w), ImmU(w)))
    case 0x13 =>
      (match Funct3(w)
       case 0 => Some(OpImm(AddI, Rd(w), Rs1(w), ImmI(w)))
       case 4 => Some(OpImm(XorI, Rd(w), Rs1(w), ImmI(w)))
       case 6 => Some(OpImm(OrI, Rd(w), Rs1(w), ImmI(w)))
       case 7 => Some(OpImm(AndI, Rd(w), Rs1(w), ImmI(w)))
       case _ => None)
    case 0x33 =>
      (match (Funct3(w), Funct7(w))
       case (0, 0) => Some(Op(Add, Rd(w), Rs1(w), Rs2(w)))
       case (0, 0x20) => Some(Op(Sub, Rd(w), Rs1(w), Rs2(w)))
       case (7, 0) => Some(Op(And, Rd(w), Rs1(w), Rs2(w)))
       case (6, 0) => Some(Op(Or, Rd(w), Rs1(w), Rs2(w)))
       case (4, 0) => Some(Op(Xor, Rd(w), Rs1(w), Rs2(w)))
       case _ => None)
    case 0x03 => if Funct3(w) == 2 then Some(Lw(Rd(w), Rs1(w), ImmI(w))) else None
    case 0x23 => if Funct3(w) == 2 then Some(Sw(Rs1(w), Rs2(w), ImmS(w))) else None
    case 0x63 =>
      (match Funct3(w)
       case 0 => Some(Branch(Eq, Rs1(w), Rs2(w), ImmB(w)))
       case 1 => Some(Branch(Ne, Rs1(w), Rs2(w), ImmB(w)))
       case 4 => Some(Branch(Lt, Rs1(w), Rs2(w), ImmB(w)))
       case 5 => Some(Branch(Ge, Rs1(w), Rs2(w), ImmB(w)))
       case _ => None)
    case 0x6F => Some(Jal(Rd(w), ImmJ(w)))
    case _ => None
  }

  // ----- Decoding undoes encoding -----

  /** A number in radix k is given by its last digit and the rest. */
  lemma Digits(lo: nat, k: nat, hi: nat)
    requires lo < k
    ensures (lo + k * hi) / k == hi && (lo + k * hi) % k == lo
  {
    var n := lo + k * hi;
    var q, r := n / k, n % k;
    assert n == k * q + r;
    if q < hi {
      Scale(k, q + 1, hi);
    } else if q > hi {
      Scale(k, hi + 1, q);
    }
  }

  lemma Scale(k: nat, a: nat, b: nat)
    requires a <= b
    ensures k * a <= k * b && k * a == k * (a - 1) + k
  {
  }

  /** The word with the given fields has those fields. */
  lemma Fields(op: nat, rd: nat, f3: nat, rs1: nat, rs2: nat, f7: nat)
    requires op < 128 && rd < 32 && f3 < 8 && rs1 < 32 && rs2 < 32 && f7 < 128
    ensures var w := f7 * 0x200_0000 + rs2 * 0x10_0000 + rs1 * 0x8000 + f3 * 0x1000 + rd * 128 + op;
      && w < 0x1_0000_0000 && Opcode(w) == op && Rd(w) == rd && Funct3(w) == f3
      && Rs1(w) == rs1 && Rs2(w) == rs2 && Funct7(w) == f7 && w / 0x10_0000 % 0x1000 == f7 * 32 + rs2
  {
    var w := f7 * 0x200_0000 + rs2 * 0x10_0000 + rs1 * 0x8000 + f3 * 0x1000 + rd * 128 + op;
    var t5 := rs2 + 32 * f7;
    var t4 := rs1 + 32 * t5;
    var t3 := f3 + 8 * t4;
    var t2 := rd + 32 * t3;
    Digits(op, 128, t2);
    Digits(rd, 32, t3);
    Digits(op + 128 * rd, 0x1000, t3);
    Digits(f3, 8, t4);
    Digits(op + 128 * rd + 0x1000 * f3, 0x8000, t4);
    Digits(rs1, 32, t5);
    Digits(op + 128 * rd + 0x1000 * f3 + 0x8000 * rs1, 0x10_0000, t5);
    Digits(rs2, 32, f7);
    Digits(op + 128 * rd + 0x1000 * f3 + 0x8000 * rs1 + 0x10_0000 * rs2, 0x200_0000, f7);
  }

  lemma DecodeI(rd: Reg, rs1: Reg, imm: int, f3: nat, op: nat)
    requires -2048 <= imm <= 2047 && f3 < 8 && op < 128
    ensures var w := EncI(rd, rs1, imm, f3, op);
      Opcode(w) == op && Rd(w) == rd && Funct3(w) == f3 && Rs1(w) == rs1 && ImmI(w) == imm
  {
    FieldsI(op, rd, f3, rs1, imm % 0x1000);
  }

  lemma FieldsI(op: nat, rd: nat, f3: nat, rs1: nat, m: nat)
    requires op < 128 && rd < 32 && f3 < 8 && rs1 < 32 && m < 0x1000
    ensures var w := m * 0x10_0000 + rs1 * 0x8000 + f3 * 0x1000 + rd * 128 + op;
      Opcode(w) == op && Rd(w) == rd && Funct3(w) == f3 && Rs1(w) == rs1 && w / 0x10_0000 % 0x1000 == m
  {
    var t4 := rs1 + 32 * m;
    var t3 := f3 + 8 * t4;
    Digits(op, 128, rd + 32 * t3);
    Digits(rd, 32, t3);
    Digits(op + 128 * rd, 0x1000, t3);
    Digits(f3, 8, t4);
    Digits(op + 128 * rd + 0x1000 * f3, 0x8000, t4);
    Digits(rs1, 32, m);
    Digits(op + 128 * rd + 0x1000 * f3 + 0x8000 * rs1, 0x10_0000, m);
  }

  lemma DecodeS(rs1: Reg, rs2: Reg, imm: int, f3: nat)
    requires -2048 <= imm <= 2047 && f3 < 8
    ensures var w := EncS(rs1, rs2, imm, f3);
      Opcode(w) == 0x23 && Funct3(w) == f3 && Rs1(w) == rs1 && Rs2(w) == rs2 && ImmS(w) == imm
  {
    var m := imm % 0x1000;
    Fields(0x23, m % 32, f3, rs1, rs2, m / 32);
  }

  lemma DecodeB(rs1: Reg, rs2: Reg, imm: int, f3: nat)
    requires -4096 <= imm <= 4094 && imm % 2 == 0 && f3 < 8
    ensures var w := EncB(rs1, rs2, imm, f3);
      Opcode(w) == 0x63 && Funct3(w) == f3 && Rs1(w) == rs1 && Rs2(w) == rs2 && ImmB(w) == imm
  {
    var m := imm % 0x2000;
    var b12, b11, b10_5, b4_1 := m / 4096 % 2, m / 2048 % 2, m / 32 % 64, m / 2 % 16;
    assert Signed(b12 * 4096 + b11 * 2048 + b10_5 * 32 + b4_1 * 2, 0x1000) == imm by { PartsB(imm); }
    WordB(rs1, rs2, f3, b12, b11, b10_5, b4_1);
  }

  lemma WrapEven(imm: int, k: int)
    requires (k == 0x2000 || k == 0x20_0000) && imm % 2 == 0 && -k <= 2 * imm < k
    ensures imm % k == (if imm < 0 then imm + k else imm) && imm % k % 2 == 0
  {
  }

  lemma PartsB(imm: int)
    requires -4096 <= imm <= 4094 && imm % 2 == 0
    ensures var m := imm % 0x2000;
      Signed(m / 4096 % 2 * 4096 + m / 2048 % 2 * 2048 + m / 32 % 64 * 32 + m / 2 % 16 * 2, 0x1000) == imm
  {
    WrapEven(imm, 0x2000);
    SplitB(imm % 0x2000);
  }

  lemma WordB(rs1: Reg, rs2: Reg, f3: nat, b12: nat, b11: nat, b10_5: nat, b4_1: nat)
    requires f3 < 8 && b12 < 2 && b11 < 2 && b10_5 < 64 && b4_1 < 16
    ensures var w := b12 * 0x8000_0000 + b10_5 * 0x200_0000 + rs2 * 0x10_0000 + rs1 * 0x8000 + f3 * 0x1000 +
                     b4_1 * 256 + b11 * 128 + 0x63;
      && Opcode(w) == 0x63 && Funct3(w) == f3 && Rs1(w) == rs1 && Rs2(w) == rs2
      && ImmB(w) == Signed(b12 * 4096 + b11 * 2048 + b10_5 * 32 + b4_1 * 2, 0x1000)
  {
    Fields(0x63, b4_1 * 2 + b11, f3, rs1, rs2, b12 * 64 + b10_5);
    FieldsB(0x63, b11, b4_1, f3 + 8 * (rs1 + 32 * rs2), b10_5, b12);
  }

  /** The four parts of a branch immediate, read out of the word directly. */
  lemma FieldsB(op: nat, b11: nat, b4_1: nat, mid: nat, b10_5: nat, b12: nat)
    requires op < 128 && b11 < 2 && b4_1 < 16 && mid < 0x2000 && b10_5 < 64 && b12 < 2
    ensures var w := b12 * 0x8000_0000 + b10_5 * 0x200_0000 + mid * 0x1000 + b4_1 * 256 + b11 * 128 + op;
      w / 128 % 2 == b11 && w / 256 % 16 == b4_1 && w / 0x200_0000 % 64 == b10_5 && w / 0x8000_0000 % 2 == b12
  {
    var t4 := b10_5 + 64 * b12;
    var t3 := mid + 0x2000 * t4;
    var t2 := b4_1 + 16 * t3;
    Digits(op, 128, b11 + 2 * t2);
    Digits(b11, 2, t2);
    Digits(op + 128 * b11, 256, t2);
    Digits(b4_1, 16, t3);
    Digits(op + 128 * b11 + 256 * b4_1 + 0x1000 * mid, 0x200_0000, t4);
    Digits(b10_5, 64, b12);
    Digits(op + 128 * b11 + 256 * b4_1 + 0x1000 * mid + 0x200_0000 * b10_5, 0x8000_0000, b12);
  }

  lemma SplitB(m: nat)
    requires m < 0x2000 && m % 2 == 0
    ensures m == m / 4096 % 2 * 4096 + m / 2048 % 2 * 2048 + m / 32 % 64 * 32 + m / 2 % 16 * 2
  {
    var a := m / 2;
    var b := a / 16;
    var c := b / 64;
    Digits(2 * (a % 16), 32, b);
    Digits(2 * (a % 16) + 32 * (b % 64), 2048, c);
    Digits(2 * (a % 16) + 32 * (b % 64) + 2048 * (c % 2), 4096, c / 2);
  }

  lemma DecodeU(rd: Reg, upper: int, op: nat)
    requires op < 128
    ensures var w := EncU(rd, upper, op); Opcode(w) == op && Rd(w) == rd && ImmU(w) == upper % 0x10_0000
  {
    var m := upper % 0x10_0000;
    Digits(op, 128, rd + 32 * m);
    Digits(rd, 32, m);
    Digits(op + 128 * rd, 0x1000, m);
  }

  lemma DecodeJ(rd: Reg, imm: int)
    requires -0x10_0000 <= imm <= 0xF_FFFE && imm % 2 == 0
    ensures var w := EncJ(rd, imm); Opcode(w) == 0x6F && Rd(w) == rd && ImmJ(w) == imm
  {
    PartsJ(imm);
    WordJ(rd, imm % 0x20_0000 / 0x10_0000 % 2, imm % 0x20_0000 / 2 % 1024, imm % 0x20_0000 / 2048 % 2, imm % 0x20_0000 / 4096 % 256);
  }

  lemma PartsJ(imm: int)
    requires -0x10_0000 <= imm <= 0xF_FFFE && imm % 2 == 0
    ensures var m := imm % 0x20_0000;
      Signed(m / 0x10_0000 % 2 * 0x10_0000 + m / 4096 % 256 * 4096 + m / 2048 % 2 * 2048 + m / 2 % 1024 * 2, 0x10_0000) == imm
  {
    WrapEven(imm, 0x20_0000);
    SplitJ(imm % 0x20_0000);
  }

  lemma WordJ(rd: Reg, b20: nat, b10_1: nat, b11: nat, b19_12: nat)
    requires b20 < 2 && b10_1 < 1024 && b11 < 2 && b19_12 < 256
    ensures var w := b20 * 0x8000_0000 + b10_1 * 0x20_0000 + b11 * 0x10_0000 + b19_12 * 0x1000 + rd * 128 + 0x6F;
      && Opcode(w) == 0x6F && Rd(w) == rd
      && ImmJ(w) == Signed(b20 * 0x10_0000 + b19_12 * 4096 + b11 * 2048 + b10_1 * 2, 0x10_0000)
  {
    FieldsJ(0x6F, rd, b19_12, b11, b10_1, b20);
  }

  /** The parts of a jump, read out of the word directly. */
  lemma FieldsJ(op: nat, rd: nat, b19_12: nat, b11: nat, b10_1: nat, b20: nat)
    requires op < 128 && rd < 32 && b19_12 < 256 && b11 < 2 && b10_1 < 1024 && b20 < 2
    ensures var w := b20 * 0x8000_0000 + b10_1 * 0x20_0000 + b11 * 0x10_0000 + b19_12 * 0x1000 + rd * 128 + op;
      && Opcode(w) == op && Rd(w) == rd && w / 0x1000 % 256 == b19_12
      && w / 0x10_0000 % 2 == b11 && w / 0x20_0000 % 1024 == b10_1 && w / 0x8000_0000 % 2 == b20
  {
    var t3 := b10_1 + 1024 * b20;
    var t2 := b11 + 2 * t3;
    var t1 := b19_12 + 256 * t2;
    Digits(op, 128, rd + 32 * t1);
    Digits(rd, 32, t1);
    Digits(op + 128 * rd, 0x1000, t1);
    Digits(b19_12, 256, t2);
    Digits(op + 128 * rd + 0x1000 * b19_12, 0x10_0000, t2);
    Digits(b11, 2, t3);
    Digits(op + 128 * rd + 0x1000 * b19_12 + 0x10_0000 * b11, 0x20_0000, t3);
    Digits(b10_1, 1024, b20);
    Digits(op + 128 * rd + 0x1000 * b19_12 + 0x10_0000 * b11 + 0x20_0000 * b10_1, 0x8000_0000, b20);
  }

  lemma SplitJ(m: nat)
    requires m < 0x20_0000 && m % 2 == 0
    ensures m == m / 0x10_0000 % 2 * 0x10_0000 + m / 4096 % 256 * 4096 + m / 2048 % 2 * 2048 + m / 2 % 1024 * 2
  {
    var a := m / 2;
    var b := a / 1024;
    var c := b / 2;
    Digits(2 * (a % 1024), 2048, b);
    Digits(2 * (a % 1024) + 2048 * (b % 2), 4096, c);
    Digits(2 * (a % 1024) + 2048 * (b % 2) + 4096 * (c % 256), 0x10_0000, c / 256);
  }

  /** What is decoded: the instruction itself, its upper immediate masked to 20 bits. */
  function Masked(i: Insn): Insn {
    match i
    case Lui(rd, upper) => Lui(rd, upper % 0x10_0000)
    case Auipc(rd, upper) => Auipc(rd, upper % 0x10_0000)
    case _ => i
  }

  lemma ReadOpImm(w: nat, op: ImmOp)
    requires Opcode(w) == 0x13 && Funct3(w) == ImmFunct(op)
    ensures Decode(w) == Some(OpImm(op, Rd(w), Rs1(w), ImmI(w)))
  {
  }

  lemma ReadOp(w: nat, op: AluOp)
    requires Opcode(w) == 0x33 && Funct3(w) == AluFunct(op) && Funct7(w) == if op == Sub then 0x20 else 0
    ensures Decode(w) == Some(Op(op, Rd(w), Rs1(w), Rs2(w)))
  {
  }

  lemma ReadBranch(w: nat, c: Cond)
    requires Opcode(w) == 0x63 && Funct3(w) == CondFunct(c)
    ensures Decode(w) == Some(Branch(c, Rs1(w), Rs2(w), ImmB(w)))
  {
  }

  lemma ReadMemory(w: nat)
    ensures Opcode(w) == 0x03 && Funct3(w) == 2 ==> Decode(w) == Some(Lw(Rd(w), Rs1(w), ImmI(w)))
    ensures Opcode(w) == 0x23 && Funct3(w) == 2 ==> Decode(w) == Some(Sw(Rs1(w), Rs2(w), ImmS(w)))
  {
  }

  lemma ReadRest(w: nat)
    ensures Opcode(w) == 0x37 ==> Decode(w) == Some(Lui(Rd(w), ImmU(w)))
    ensures Opcode(w) == 0x17 ==> Decode(w) == Some(Auipc(Rd(w), ImmU(w)))
    ensures Opcode(w) == 0x6F ==> Decode(w) == Some(Jal(Rd(w), ImmJ(w)))
  {
  }

  lemma TripOpImm(op: ImmOp, rd: Reg, rs1: Reg, imm: int)
    requires -2048 <= imm <= 2047
    ensures Decode(EncI(rd, rs1, imm, ImmFunct(op), 0x13)) == Some(OpImm(op, rd, rs1, imm))
  {
    DecodeI(rd, rs1, imm, ImmFunct(op), 0x13);
    ReadOpImm(EncI(rd, rs1, imm, ImmFunct(op), 0x13), op);
  }

  lemma TripOp(op: AluOp, rd: Reg, rs1: Reg, rs2: Reg)
    ensures Decode(EncR(rd, rs1, rs2, AluFunct(op), if op == Sub then 0x20 else 0, 0x33)) == Some(Op(op, rd, rs1, rs2))
  {
    Fields(0x33, rd, AluFunct(op), rs1, rs2, if op == Sub then 0x20 else 0);
    ReadOp(EncR(rd, rs1, rs2, AluFunct(op), if op == Sub then 0x20 else 0, 0x33), op);
  }

  lemma TripMemory(a: Reg, b: Reg, imm: int)
    requires -2048 <= imm <= 2047
    ensures Decode(EncI(a, b, imm, 2, 0x03)) == Some(Lw(a, b, imm))
    ensures Decode(EncS(a, b, imm, 2)) == Some(Sw(a, b, imm))
  {
    DecodeI(a, b, imm, 2, 0x03);
    ReadMemory(EncI(a, b, imm, 2, 0x03));
    DecodeS(a, b, imm, 2);
    ReadMemory(EncS(a, b, imm, 2));
  }

  lemma TripBranch(c: Cond, rs1: Reg, rs2: Reg, off: int)
    requires -4096 <= off <= 4094 && off % 2 == 0
    ensures Decode(EncB(rs1, rs2, off, CondFunct(c))) == Some(Branch(c, rs1, rs2, off))
  {
    DecodeB(rs1, rs2, off, CondFunct(c));
    ReadBranch(EncB(rs1, rs2, off, CondFunct(c)), c);
  }

  lemma TripUpper(rd: Reg, upper: int)
    ensures Decode(EncU(rd, upper, 0x37)) == Some(Lui(rd, upper % 0x10_0000))
    ensures Decode(EncU(rd, upper, 0x17)) == Some(Auipc(rd, upper % 0x10_0000))
  {
    DecodeU(rd, upper, 0x37);
    ReadRest(EncU(rd, upper, 0x37));
    DecodeU(rd, upper, 0x17);
    ReadRest(EncU(rd, upper, 0x17));
  }

  lemma TripJal(rd: Reg, off: int)
    requires -0x10_0000 <= off <= 0xF_FFFE && off % 2 == 0
    ensures Decode(EncJ(rd, off)) == Some(Jal(rd, off))
  {
    DecodeJ(rd, off);
    ReadRest(EncJ(rd, off));
  }

  /** Every encodable instruction, whatever its registers and immediates, decodes to itself. */
  lemma RoundTrip(i: Insn)
    requires Encodable(i)
    ensures Decode(Encode(i)) == Some(Masked(i))
  {
    match i
    case Lui(rd, upper) => TripUpper(rd, upper);
    case Auipc(rd, upper) => TripUpper(rd, upper);
    case OpImm(op, rd, rs1, imm) => TripOpImm(op, rd, rs1, imm);
    case Op(op, rd, rs1, rs2) => TripOp(op, rd, rs1, rs2);
    case Lw(rd, rs1, imm) => TripMemory(rd, rs1, imm);
    case Sw(rs1, rs2, imm) => TripMemory(rs1, rs2, imm);
    case Branch(c, rs1, rs2, off) => TripBranch(c, rs1, rs2, off);
    case Jal(rd, off) => TripJal(rd, off);
  }
}
