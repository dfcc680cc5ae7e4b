/**
  The two-pass assembler of vivado/tests/tools/gen_perf_coe.py and the one of
  gen_t18_m_ext_basic_coe.py: labels, load-immediate expansion, deferred branches; and the proof
  that the words behave as the program with labels does.
 */
module Assembler {
  import opened Wrappers
  import opened Rv32

  // ----- li -----

  function U32(x: int): Word { x % 0x1_0000_0000 }

  function S32(x: int): int {
    if U32(x) >= 0x8000_0000 then U32(x) - 0x1_0000_0000 else U32(x)
  }

  predicate Small(imm: int) {
    -2048 <= S32(imm) <= 2047
  }

  function LiUpper(imm32: Word): nat {
    if imm32 / 2048 % 2 == 1 then (imm32 / 4096 + 1) % 0x10_0000 else imm32 / 4096 % 0x10_0000
  }

  /** Before the fix-up for values over 2047. */
  function LiLower(imm32: Word): int {
    imm32 - LiUpper(imm32) * 4096 % 0x1_0000_0000
  }

  /** The instructions Asm.li emits. */
  function LiCode(rd: Reg, imm: int): seq<Insn> {
    if Small(imm) then [OpImm(AddI, rd, 0, S32(imm))] else
      var lower := LiLower(U32(imm));
      [Lui(rd, LiUpper(U32(imm))), OpImm(AddI, rd, rd, if lower > 2047 then lower - 0x1_0000_0000 else lower)]
  }

  /** The fix-up branch is dead, the final assertion holds, and the two parts make up the value. */
  lemma LiExact(imm32: Word)
    requires !Small(imm32)
    ensures -2048 <= LiLower(imm32) <= 2047
    ensures 0 <= LiUpper(imm32) < 0x10_0000 && LiUpper(imm32) * 4096 + LiLower(imm32) == imm32
  {
    var hi, lo := imm32 / 4096, imm32 % 4096;
    assert imm32 / 2048 == 2 * hi + lo / 2048;
    assert imm32 / 2048 % 2 == lo / 2048;
    assert lo >= 2048 ==> hi < 0xF_FFFF;
  }

  /** The instructions emit_li emits. */
  function LiCode2(rd: Reg, value: int): seq<Insn> {
    if Small(value) then [OpImm(AddI, rd, 0, S32(value))] else
      var upper := (U32(value) + 0x800) / 4096;
      var lower := S32(U32(value) - upper % 0x10_0000 * 4096);
      [Lui(rd, upper)] + if lower != 0 then [OpImm(AddI, rd, rd, lower)] else []
  }

  /** Both assemblers split a value alike; the second leaves out an addi of zero. */
  lemma LiSame(rd: Reg, imm: int)
    requires !Small(imm)
    ensures var lower := LiLower(U32(imm));
      LiCode2(rd, imm) == if lower == 0 then [LiCode(rd, imm)[0]] else LiCode(rd, imm)
  {
    var v := U32(imm);
    LiExact(v);
    UpperSame(v);
    SmallSame(LiLower(v));
  }

  lemma UpperSame(v: Word)
    requires !Small(v)
    ensures (v + 0x800) / 4096 == LiUpper(v)
  {
    LiExact(v);
  }

  lemma SmallSame(x: int)
    requires -2048 <= x <= 2047
    ensures S32(x) == x
  {
  }

  // ----- Machine -----

  type Regs = map<Reg, Word>
  type Memory = map<Word, Word>

  datatype Machine = Machine(pc: int, regs: Regs, mem: Memory)

  function Get(regs: Regs, r: Reg): Word {
    if r == 0 || r !in regs then 0 else regs[r]
  }

  function Set(regs: Regs, r: Reg, v: Word): Regs {
    if r == 0 then regs else regs[r := v]
  }

  function Load(mem: Memory, a: Word): Word {
    if a in mem then mem[a] else 0
  }

  datatype Gate = GateAnd | GateOr | GateXor

  function BitOf(g: Gate, a: nat, b: nat): nat {
    match g
    case GateAnd => if a % 2 == 1 && b % 2 == 1 then 1 else 0
    case GateOr => if a % 2 == 1 || b % 2 == 1 then 1 else 0
    case GateXor => if a % 2 != b % 2 then 1 else 0
  }

  function Pow2(n: nat): (r: nat)
    ensures r >= 1
  {
    if n == 0 then 1 else 2 * Pow2(n - 1)
  }

  /** The n low bits of a gate applied bit by bit. */
  function Bitwise(g: Gate, a: nat, b: nat, n: nat): (r: nat)
    ensures r < Pow2(n)
  {
    if n == 0 then 0 else 2 * Bitwise(g, a / 2, b / 2, n - 1) + BitOf(g, a, b)
  }

  lemma Pow32()
    ensures Pow2(32) == 0x1_0000_0000
  {
    assert Pow2(8) == 256;
    assert Pow2(16) == 0x1_0000;
    assert Pow2(24) == 0x100_0000;
  }

  function BitAt(x: nat, i: nat): (r: nat)
    ensures r < 2
  {
    if i == 0 then x % 2 else BitAt(x / 2, i - 1)
  }

  /** Bit i of the result is the gate applied to bits i of the operands. */
  lemma {:induction false} BitwiseAt(g: Gate, a: nat, b: nat, n: nat, i: nat)
    requires i < n
    ensures var x, y, z := BitAt(a, i), BitAt(b, i), BitAt(Bitwise(g, a, b, n), i);
      match g
      case GateAnd => z == 1 <==> x == 1 && y == 1
      case GateOr => z == 1 <==> x == 1 || y == 1
      case GateXor => z == 1 <==> x != y
    decreases i
  {
    var z := Bitwise(g, a, b, n);
    assert z / 2 == Bitwise(g, a / 2, b / 2, n - 1) && z % 2 == BitOf(g, a, b);
    if i > 0 {
      BitwiseAt(g, a / 2, b / 2, n - 1, i - 1);
    }
  }

  function Gated(g: Gate, a: Word, b: Word): Word {
    Pow32();
    Bitwise(g, a, b, 32)
  }

  function ImmResult(op: ImmOp, a: Word, imm: int): Word {
    match op
    case AddI => U32(a + imm)
    case XorI => Gated(GateXor, a, U32(imm))
    case OrI => Gated(GateOr, a, U32(imm))
    case AndI => Gated(GateAnd, a, U32(imm))
  }

  function AluResult(op: AluOp, a: Word, b: Word): Word {
    match op
    case Add => U32(a + b)
    case Sub => U32(a - b)
    case And => Gated(GateAnd, a, b)
    case Or => Gated(GateOr, a, b)
    case Xor => Gated(GateXor, a, b)
  }

  predicate Taken(c: Cond, a: Word, b: Word) {
    match c
    case Eq => a == b
    case Ne => a != b
    case Lt => S32(a) < S32(b)
    case Ge => S32(a) >= S32(b)
  }

  /** One RV32I instruction; instruction memory is separate and never written. */
  function Execute(i: Insn, m: Machine): Machine {
    match i
    case Lui(rd, upper) => Machine(m.pc + 4, Set(m.regs, rd, U32(upper * 4096)), m.mem)
    case Auipc(rd, upper) => Machine(m.pc + 4, Set(m.regs, rd, U32(m.pc + upper * 4096)), m.mem)
    case OpImm(op, rd, rs1, imm) => Machine(m.pc + 4, Set(m.regs, rd, ImmResult(op, Get(m.regs, rs1), imm)), m.mem)
    case Op(op, rd, rs1, rs2) =>
      Machine(m.pc + 4, Set(m.regs, rd, AluResult(op, Get(m.regs, rs1), Get(m.regs, rs2))), m.mem)
    case Lw(rd, rs1, imm) => Machine(m.pc + 4, Set(m.regs, rd, Load(m.mem, U32(Get(m.regs, rs1) + imm))), m.mem)
    case Sw(rs1, rs2, imm) => Machine(m.pc + 4, m.regs, m.mem[U32(Get(m.regs, rs1) + imm) := Get(m.regs, rs2)])
    case Branch(c, rs1, rs2, off) =>
      m.(pc := m.pc + if Taken(c, Get(m.regs, rs1), Get(m.regs, rs2)) then off else 4)
    case Jal(rd, off) => Machine(m.pc + off, Set(m.regs, rd, U32(m.pc + 4)), m.mem)
  }

  /** Instruction memory as the machine decodes it. */
  type Code = seq<Option<Insn>>

  function DecodeAll(words: seq<nat>): Code {
    if words == [] then [] else [Decode(words[0])] + DecodeAll(words[1..])
  }

  /** Fetch and execute; None outside the code and on an unknown word. */
  function Step(code: Code, base: int, m: Machine): Option<Machine> {
    var k := (m.pc - base) / 4;
    if (m.pc - base) % 4 != 0 || k < 0 || k >= |code| || code[k].None? then None
    else Some(Execute(code[k].value, m))
  }

  function Steps(code: Code, base: int, m: Machine, n: nat): Option<Machine>
    decreases n
  {
    if n == 0 then Some(m)
    else
      var m' := Step(code, base, m);
      if m'.None? then None else Steps(code, base, m'.value, n - 1)
  }

  // ----- Programs with labels -----

  datatype Stmt =
    | Label(name: string)
    | Raw(w: nat)
    | Li(rd: Reg, imm: int)
    | BranchTo(cond: Cond, rs1: Reg, rs2: Reg, name: string)
    | JalTo(rd: Reg, name: string)

  /** An entry of the word list: a word, or one deferred until the labels are known. */
  datatype Item =
    | Done(w: nat)
    | DeferB(cond: Cond, rs1: Reg, rs2: Reg, name: string, cur: nat)
    | DeferJ(rd: Reg, name: string, cur: nat)

  type Labels = map<string, nat>

  function EncodeAll(code: seq<Insn>): (r: seq<Item>)
    ensures |r| == |code| && forall i :: 0 <= i < |code| ==> r[i] == Done(Encode(code[i]))
  {
    if code == [] then [] else [Done(Encode(code[0]))] + EncodeAll(code[1..])
  }

  /** What a statement at byte address cur adds to the word list. */
  function ItemsOf(s: Stmt, cur: nat): seq<Item> {
    match s
    case Label(_) => []
    case Raw(w) => [Done(w)]
    case Li(rd, imm) => EncodeAll(LiCode(rd, imm))
    case BranchTo(c, rs1, rs2, name) => [DeferB(c, rs1, rs2, name, cur)]
    case JalTo(rd, name) => [DeferJ(rd, name, cur)]
  }

  /** How many words a statement takes. */
  function Size(s: Stmt): nat {
    match s
    case Label(_) => 0
    case Li(_, imm) => if Small(imm) then 1 else 2
    case _ => 1
  }

  lemma SizeOf(s: Stmt, cur: nat)
    ensures |ItemsOf(s, cur)| == Size(s)
  {
  }

  function Count(prog: seq<Stmt>): nat {
    if prog == [] then 0 else Count(prog[..|prog| - 1]) + Size(prog[|prog| - 1])
  }

  /** The byte offset of statement i. */
  function Offset(prog: seq<Stmt>, i: nat): nat
    requires i <= |prog|
  {
    4 * Count(prog[..i])
  }

  function Items(prog: seq<Stmt>): seq<Item> {
    if prog == [] then [] else
      var before := prog[..|prog| - 1];
      Items(before) + ItemsOf(prog[|prog| - 1], 4 * Count(before))
  }

  function LabelsOf(prog: seq<Stmt>): Labels {
    if prog == [] then map[] else
      var before, last := prog[..|prog| - 1], prog[|prog| - 1];
      if last.Label? then LabelsOf(before)[last.name := 4 * Count(before)] else LabelsOf(before)
  }

  lemma {:induction false} ItemsCount(prog: seq<Stmt>)
    ensures |Items(prog)| == Count(prog)
  {
    if prog != [] {
      ItemsCount(prog[..|prog| - 1]);
      SizeOf(prog[|prog| - 1], 4 * Count(prog[..|prog| - 1]));
    }
  }

  /** No label twice; Asm.lbl asserts it. */
  predicate WellFormed(prog: seq<Stmt>) {
    prog == [] ||
    (var before, last := prog[..|prog| - 1], prog[|prog| - 1];
     WellFormed(before) && (last.Label? ==> last.name !in LabelsOf(before)))
  }

  /** A word that is an instruction other than a branch or jump, which only labels can place. */
  predicate Plain(w: nat) {
    Decode(w).Some? && !Decode(w).value.Branch? && !Decode(w).value.Jal?
  }

  ghost predicate AllPlain(prog: seq<Stmt>) {
    forall i :: 0 <= i < |prog| && prog[i].Raw? ==> Plain(prog[i].w)
  }

  /** Extending a program by one statement extends its words and labels. */
  lemma Extended(prog: seq<Stmt>, s: Stmt)
    ensures |Items(prog)| == Count(prog) && Items(prog + [s]) == Items(prog) + ItemsOf(s, 4 * Count(prog))
    ensures LabelsOf(prog + [s]) == if s.Label? then LabelsOf(prog)[s.name := 4 * Count(prog)] else LabelsOf(prog)
    ensures WellFormed(prog + [s]) <==> WellFormed(prog) && (s.Label? ==> s.name !in LabelsOf(prog))
  {
    assert (prog + [s])[..|prog + [s]| - 1] == prog;
    ItemsCount(prog);
  }

  /** None where the source raises: an undefined label, an offset out of range. */
  function Resolve(item: Item, labels: Labels): Option<nat> {
    match item
    case Done(w) => Some(w)
    case DeferB(c, rs1, rs2, name, cur) =>
      if name !in labels then None else
        var i := Branch(c, rs1, rs2, labels[name] - cur);
        if Encodable(i) then Some(Encode(i)) else None
    case DeferJ(rd, name, cur) =>
      if name !in labels then None else
        var i := Jal(rd, labels[name] - cur);
        if Encodable(i) then Some(Encode(i)) else None
  }

  ghost predicate Resolved(items: seq<Item>, labels: Labels, words: seq<nat>) {
    |words| == |items| && forall k :: 0 <= k < |items| ==> Resolve(items[k], labels) == Some(words[k])
  }

  /** The words of a whole program. */
  ghost predicate Assembled(prog: seq<Stmt>, words: seq<nat>) {
    Resolved(Items(prog), LabelsOf(prog), words)
  }

  /** Asm: the word list and the labels are extended statement by statement. */
  class Asm {
    var words: seq<Item>
    var labels: Labels
    ghost var prog: seq<Stmt>

    ghost predicate Valid()
      reads this
    {
      words == Items(prog) && labels == LabelsOf(prog) && WellFormed(prog)
    }

    constructor ()
      ensures Valid() && prog == []
    {
      words, labels, prog := [], map[], [];
    }

    /** lbl; false where the source's assertion fails. */
    method Lbl(name: string) returns (ok: bool)
      requires Valid()
      modifies this
      ensures Valid() && prog == if ok then old(prog) + [Label(name)] else old(prog)
      ensures ok <==> name !in old(labels)
    {
      if name in labels {
        return false;
      }
      Extended(prog, Label(name));
      labels := labels[name := 4 * |words|];
      prog := prog + [Label(name)];
      ok := true;
    }

    /** emit: any word. */
    method EmitWord(w: nat)
      requires Valid()
      modifies this
      ensures Valid() && prog == old(prog) + [Raw(w)]
    {
      Extended(prog, Raw(w));
      words := words + [Done(w)];
      prog := prog + [Raw(w)];
    }

    /** li: one word if it fits, else two. */
    method LoadImmediate(rd: Reg, imm: int)
      requires Valid()
      modifies this
      ensures Valid() && prog == old(prog) + [Li(rd, imm)]
    {
      Extended(prog, Li(rd, imm));
      var code := LiCode(rd, imm);
      words := words + EncodeAll(code);
      prog := prog + [Li(rd, imm)];
    }

    method Br(c: Cond, rs1: Reg, rs2: Reg, name: string)
      requires Valid()
      modifies this
      ensures Valid() && prog == old(prog) + [BranchTo(c, rs1, rs2, name)]
    {
      Extended(prog, BranchTo(c, rs1, rs2, name));
      words := words + [DeferB(c, rs1, rs2, name, 4 * |words|)];
      prog := prog + [BranchTo(c, rs1, rs2, name)];
    }

    method JumpAndLink(rd: Reg, name: string)
      requires Valid()
      modifies this
      ensures Valid() && prog == old(prog) + [JalTo(rd, name)]
    {
      Extended(prog, JalTo(rd, name));
      words := words + [DeferJ(rd, name, 4 * |words|)];
      prog := prog + [JalTo(rd, name)];
    }

    /** assemble: the words, or None where the source raises. */
    method Assemble() returns (r: Option<seq<nat>>)
      requires Valid()
      ensures r.Some? ==> Assembled(prog, r.value)
      ensures r.None? ==> exists k :: 0 <= k < |words| && Resolve(words[k], labels).None?
    {
      var out := [];
      while |out| < |words|
        invariant |out| <= |words|
        invariant forall k :: 0 <= k < |out| ==> Resolve(words[k], labels) == Some(out[k])
      {
        var w := Resolve(words[|out|], labels);
        if w.None? {
          return None;
        }
        out := out + [w.value];
      }
      r := Some(out);
    }
  }

  // ----- What a program with labels means -----

  datatype State = State(at: nat, regs: Regs, mem: Memory)

  ghost predicate HasLabel(prog: seq<Stmt>, name: string) {
    exists i :: 0 <= i < |prog| && prog[i] == Label(name)
  }

  /** Where control goes for a label. */
  ghost function Target(prog: seq<Stmt>, name: string): (i: nat)
    requires HasLabel(prog, name)
    ensures i < |prog| && prog[i] == Label(name)
  {
    var i: nat :| i < |prog| && prog[i] == Label(name);
    i
  }

  /** One statement; base is where the program is loaded, which only links and auipc can see. */
  ghost function SrcStep(prog: seq<Stmt>, base: int, s: State): State
    requires s.at < |prog|
    requires prog[s.at].BranchTo? || prog[s.at].JalTo? ==> HasLabel(prog, prog[s.at].name)
    requires prog[s.at].Raw? ==> Plain(prog[s.at].w)
  {
    var here := base + Offset(prog, s.at);
    match prog[s.at]
    case Label(_) => s.(at := s.at + 1)
    case Raw(w) =>
      var m := Execute(Decode(w).value, Machine(here, s.regs, s.mem));
      State(s.at + 1, m.regs, m.mem)
    case Li(rd, imm) => State(s.at + 1, Set(s.regs, rd, U32(imm)), s.mem)
    case BranchTo(c, rs1, rs2, name) =>
      s.(at := if Taken(c, Get(s.regs, rs1), Get(s.regs, rs2)) then Target(prog, name) else s.at + 1)
    case JalTo(rd, name) => State(Target(prog, name), Set(s.regs, rd, U32(here + 4)), s.mem)
  }

  /** The machine state that stands for a state of the program. */
  ghost function Image(prog: seq<Stmt>, base: int, s: State): Machine
    requires s.at <= |prog|
  {
    Machine(base + Offset(prog, s.at), s.regs, s.mem)
  }
}
