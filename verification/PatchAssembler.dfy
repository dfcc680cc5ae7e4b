/**
  The assembler of vivado/tests/tools/gen_t18_m_ext_basic_coe.py, which writes zeros for branches
  and jumps and patches them at the end, gives the words that the deferring one gives; and while no
  label is redefined and every word emitted is an instruction, they run as the program with labels does.
 */
module PatchAssembler {
  import opened Wrappers
  import opened Rv32
  import opened Assembler
  import opened AssemblerMeaning

  // ----- Its encoders -----

  function CheckRange(value: int, lo: int, hi: int): bool {
    lo <= value <= hi
  }

  /** encode_b; None where it raises. */
  function EncodeB(offset: int, rs2: Reg, rs1: Reg, funct3: nat): Option<nat> {
    if offset % 2 != 0 || !CheckRange(offset, -4096, 4095) then None else
      var imm := offset % 0x2000;
      Some(imm / 4096 % 2 * 0x8000_0000 + imm / 32 % 64 * 0x200_0000 + rs2 * 0x10_0000 + rs1 * 0x8000 +
           funct3 % 8 * 0x1000 + imm / 2 % 16 * 256 + imm / 2048 % 2 * 128 + 0x63)
  }

  /** encode_j; None where it raises. */
  function EncodeJ(offset: int, rd: Reg): Option<nat> {
    if offset % 2 != 0 || !CheckRange(offset, -0x10_0000, 0xF_FFFF) then None else
      var imm := offset % 0x20_0000;
      Some(imm / 0x10_0000 % 2 * 0x8000_0000 + imm / 2 % 1024 * 0x20_0000 + imm / 2048 % 2 * 0x10_0000 +
           imm / 4096 % 256 * 0x1000 + rd * 128 + 0x6F)
  }

  /** Both assemblers accept the same branch offsets and encode them alike. */
  lemma SameBranch(c: Cond, rs1: Reg, rs2: Reg, offset: int)
    ensures EncodeB(offset, rs2, rs1, CondFunct(c)) ==
      if Encodable(Branch(c, rs1, rs2, offset)) then Some(Encode(Branch(c, rs1, rs2, offset))) else None
  {
  }

  lemma SameJump(rd: Reg, offset: int)
    ensures EncodeJ(offset, rd) == if Encodable(Jal(rd, offset)) then Some(Encode(Jal(rd, offset))) else None
  {
  }

  // ----- Patching -----

  datatype Patch = PatchBne(index: nat, rs1: Reg, rs2: Reg, name: string) | PatchJal(index: nat, rd: Reg, name: string)

  /** The deferred word that a patch stands for. */
  function Deferred(p: Patch): Item {
    match p
    case PatchBne(i, rs1, rs2, name) => DeferB(Ne, rs1, rs2, name, 4 * i)
    case PatchJal(i, rd, name) => DeferJ(rd, name, 4 * i)
  }

  function Patched(p: Patch, labels: Labels): Option<nat> {
    if p.name !in labels then None else
      var offset := labels[p.name] - 4 * p.index;
      match p
      case PatchBne(_, rs1, rs2, _) => EncodeB(offset, rs2, rs1, CondFunct(Ne))
      case PatchJal(_, rd, _) => EncodeJ(offset, rd)
  }

  lemma PatchedIsResolved(p: Patch, labels: Labels)
    ensures Patched(p, labels) == Resolve(Deferred(p), labels)
  {
    if p.name in labels {
      var offset := labels[p.name] - 4 * p.index;
      match p {
        case PatchBne(_, rs1, rs2, _) => SameBranch(Ne, rs1, rs2, offset);
        case PatchJal(_, rd, _) => SameJump(rd, offset);
      }
    }
  }

  /** Patches are where the deferred items are, each its own. */
  ghost predicate Matches(items: seq<Item>, patches: seq<Patch>) {
    && (forall j :: 0 <= j < |patches| ==> patches[j].index < |items| && items[patches[j].index] == Deferred(patches[j]))
    && (forall i, j :: 0 <= i < j < |patches| ==> patches[i].index != patches[j].index)
    && (forall k :: 0 <= k < |items| && !items[k].Done? ==> exists j :: 0 <= j < |patches| && patches[j].index == k)
  }

  // ----- The program behind the words -----

  lemma EncodeIsWord(i: Insn)
    ensures U32(Encode(i)) == Encode(i)
  {
  }

  /** What the run of any number of statements comes to on the words. */
  ghost predicate RunsAs(prog: seq<Stmt>, words: seq<nat>, base: int, s: State, n: nat)
    requires WellFormed(prog) && AllPlain(prog) && Assembled(prog, words)
  {
    var y := Meaning(prog, words, base);
    Steps(DecodeAll(words), base, y.image(s), Cost(y, s, n)) == Some(y.image(Run(y, s, n)))
  }

  /** The statements that emit_li stands for. */
  function Emits(code: seq<Insn>): seq<Stmt> {
    if code == [] then [] else [Raw(Encode(code[0]))] + Emits(code[1..])
  }

  lemma LiEncodable(rd: Reg, value: int)
    ensures var code := LiCode2(rd, value);
      && 1 <= |code| <= 2 && (forall k :: 0 <= k < |code| ==> Encodable(code[k]) && !code[k].Branch? && !code[k].Jal?)
      && Emits(code) == if |code| == 1 then [Raw(Encode(code[0]))] else [Raw(Encode(code[0]))] + [Raw(Encode(code[1]))]
  {
    if !Small(value) {
      LiExact(U32(value));
      LiSame(rd, value);
    }
    var code := LiCode2(rd, value);
    assert Emits(code[1..]) == if |code| == 1 then [] else [Raw(Encode(code[1]))] + Emits(code[2..]);
  }

  // ----- What its load-immediate does -----

  /** Machine m after the code, one instruction after the other. */
  function ExecuteAll(code: seq<Insn>, m: Machine): Machine {
    if code == [] then m else ExecuteAll(code[1..], Execute(code[0], m))
  }

  /** rd has the value, whatever it had before, control is behind the code, and nothing else has changed. */
  function Loaded(rd: Reg, value: int, m: Machine): Machine {
    Machine(m.pc + 4 * |LiCode2(rd, value)|, Set(m.regs, rd, U32(value)), m.mem)
  }

  /** The one or two instructions load the value, also where an addi of zero is left out. */
  lemma LiLoads(rd: Reg, value: int, m: Machine)
    ensures ExecuteAll(LiCode2(rd, value), m) == Loaded(rd, value, m)
  {
    var code := LiCode2(rd, value);
    var m1 := Execute(code[0], m);
    if Small(value) {
      LiSmall(rd, value, m);
      assert code[1..] == [] && ExecuteAll(code[1..], m1) == m1;
    } else {
      LiSame(rd, value);
      LiLarge(rd, value, m);
      if |code| == 1 {
        assert code[1..] == [] && ExecuteAll(code[1..], m1) == m1;
        LiBare(rd, value, m);
      } else {
        var m2 := Execute(code[1], m1);
        assert code[1..] == [code[1]] && code[1..][1..] == [];
        assert ExecuteAll(code[1..], m1) == ExecuteAll([], m2) == m2;
      }
    }
  }

  /** A lui alone loads a value whose lower part is zero. */
  lemma LiBare(rd: Reg, value: int, m: Machine)
    requires !Small(value) && LiLower(U32(value)) == 0
    ensures Execute(Lui(rd, LiUpper(U32(value))), m) == Machine(m.pc + 4, Set(m.regs, rd, U32(value)), m.mem)
  {
    LiExact(U32(value));
  }

  /** The words of the load are at index k. */
  predicate HoldsLi(words: seq<nat>, k: nat, rd: Reg, value: int) {
    var code := LiCode2(rd, value);
    k + |code| <= |words| && forall j :: 0 <= j < |code| ==> words[k + j] == Encode(code[j])
  }

  /** A machine at word k, wherever the words were loaded, executes the load. */
  predicate LoadsFrom(words: seq<nat>, k: nat, rd: Reg, value: int, m: Machine) {
    Steps(DecodeAll(words), m.pc - 4 * k, m, |LiCode2(rd, value)|) == Some(Loaded(rd, value, m))
  }

  /** Whatever the other words are, executing those of the load leaves the value in rd. */
  lemma LiWordsLoad(words: seq<nat>, k: nat, rd: Reg, value: int, m: Machine)
    requires HoldsLi(words, k, rd, value)
    ensures LoadsFrom(words, k, rd, value, m)
  {
    var code, base := LiCode2(rd, value), m.pc - 4 * k;
    LiEncodable(rd, value);
    LiLoads(rd, value, m);
    var m1 := Execute(code[0], m);
    assert words[k + 0] == Encode(code[0]);
    StepWord(words, base, k, code[0], m);
    if |code| == 1 {
      assert code[1..] == [] && ExecuteAll(code[1..], m1) == m1;
    } else {
      assert words[k + 1] == Encode(code[1]);
      PlainNext(code[0], m);
      StepWord(words, base, k + 1, code[1], m1);
      StepsAdd(DecodeAll(words), base, m, 1, m1, 1);
      assert code[1..] == [code[1]] && code[1..][1..] == [];
      assert ExecuteAll(code[1..], m1) == ExecuteAll([], Execute(code[1], m1));
    }
  }

  /** Patching leaves the words of a load as they are, so they still load. */
  lemma ResolvedLoads(items: seq<Item>, labels: Labels, words: seq<nat>, k: nat, rd: Reg, value: int)
    requires Resolved(items, labels, words) && k + |LiCode2(rd, value)| <= |items|
    requires forall j :: 0 <= j < |LiCode2(rd, value)| ==> items[k + j] == Done(Encode(LiCode2(rd, value)[j]))
    ensures forall m: Machine :: LoadsFrom(words, k, rd, value, m)
  {
    forall j | 0 <= j < |LiCode2(rd, value)| ensures words[k + j] == Encode(LiCode2(rd, value)[j]) {
      assert Resolve(items[k + j], labels) == Some(words[k + j]);
    }
    forall m: Machine ensures LoadsFrom(words, k, rd, value, m) {
      LiWordsLoad(words, k, rd, value, m);
    }
  }

  class Program {
    var words: seq<nat>
    var labels: Labels
    var patches: seq<Patch>
    ghost var items: seq<Item>
    ghost var prog: seq<Stmt>
    /** No label has been redefined. */
    ghost var single: bool

    ghost predicate Valid()
      reads this
    {
      && |items| == |words| && Matches(items, patches)
      && (forall k :: 0 <= k < |items| && items[k].Done? ==> words[k] == items[k].w)
      && (single ==> Reflects(items, labels, prog))
    }

    constructor ()
      ensures Valid() && items == [] && labels == map[] && prog == [] && single
    {
      words, labels, patches, items := [], map[], [], [];
      prog, single := [], true;
    }

    /** label: unlike the other assembler's, it may move a label. */
    method MarkLabel(name: string)
      requires Valid()
      modifies this`labels, this`prog, this`single
      ensures Valid() && labels == old(labels)[name := 4 * |items|]
      ensures prog == old(prog) + [Label(name)] && single == (old(single) && name !in old(labels))
    {
      Extended(prog, Label(name));
      single := single && name !in labels;
      prog := prog + [Label(name)];
      labels := labels[name := 4 * |words|];
    }

    /** emit: any word, masked. */
    method EmitWord(w: nat)
      requires Valid()
      modifies this`words, this`items, this`prog
      ensures Valid() && items == old(items) + [Done(U32(w))] && prog == old(prog) + [Raw(U32(w))]
      ensures words == old(words) + [U32(w)]
    {
      Extended(prog, Raw(U32(w)));
      prog := prog + [Raw(U32(w))];
      words, items := words + [U32(w)], items + [Done(U32(w))];
    }

    /** emit_li */
    method EmitLi(rd: Reg, value: int)
      requires Valid()
      modifies this`words, this`items, this`prog
      ensures Valid() && prog == old(prog) + Emits(LiCode2(rd, value))
      ensures HoldsLi(words, |old(words)|, rd, value) && |words| == |old(words)| + |LiCode2(rd, value)|
      ensures items == old(items) + EncodeAll(LiCode2(rd, value))
      ensures forall m: Machine :: LoadsFrom(words, |old(words)|, rd, value, m)
    {
      LiEncodable(rd, value);
      var code := LiCode2(rd, value);
      EncodeIsWord(code[0]);
      EmitWord(Encode(code[0]));
      if |code| == 2 {
        EncodeIsWord(code[1]);
        EmitWord(Encode(code[1]));
      }
      forall m: Machine ensures LoadsFrom(words, |old(words)|, rd, value, m) {
        LiWordsLoad(words, |old(words)|, rd, value, m);
      }
    }

    /** branch_bne or jump: a zero now, the instruction later. */
    method Defer(p: Patch)
      requires Valid() && p.index == |words|
      modifies this`words, this`patches, this`items, this`prog
      ensures Valid() && items == old(items) + [Deferred(p)] && prog == old(prog) + [Statement(p)]
    {
      Extended(prog, Statement(p));
      MatchesMore(items, patches, p);
      words, patches, items := words + [0], patches + [p], items + [Deferred(p)];
      prog := prog + [Statement(p)];
    }

    /** resolve: false where the source raises; otherwise the words of all items, which run as the program does. */
    method ResolveAll() returns (ok: bool)
      requires Valid()
      modifies this`words
      ensures ok ==> Resolved(items, labels, words)
      ensures ok && single ==> WellFormed(prog) && Assembled(prog, words)
      ensures ok && single && AllPlain(prog) ==>
        forall base, s: State, n: nat :: s.at <= |prog| ==> RunsAs(prog, words, base, s, n)
      ensures !ok ==> exists j :: 0 <= j < |patches| && Resolve(Deferred(patches[j]), labels).None?
    {
      ok := PatchAll();
      if ok && single && AllPlain(prog) {
        forall base, s: State, n: nat | s.at <= |prog| ensures RunsAs(prog, words, base, s, n) {
          RunCorrect(prog, words, base, s, n);
        }
      }
    }

    /** The loop over the patches. */
    method PatchAll() returns (ok: bool)
      requires Valid()
      modifies this`words
      ensures ok ==> Resolved(items, labels, words)
      ensures !ok ==> exists j :: 0 <= j < |patches| && Resolve(Deferred(patches[j]), labels).None?
    {
      var n := 0;
      while n < |patches|
        invariant 0 <= n <= |patches| && |words| == |items|
        invariant forall k :: 0 <= k < |items| && items[k].Done? ==> words[k] == items[k].w
        invariant forall j :: 0 <= j < n ==> Resolve(Deferred(patches[j]), labels) == Some(words[patches[j].index])
      {
        PatchedIsResolved(patches[n], labels);
        var w := Patched(patches[n], labels);
        if w.None? {
          return false;
        }
        words := words[patches[n].index := w.value];
        n := n + 1;
      }
      forall k | 0 <= k < |items| ensures Resolve(items[k], labels) == Some(words[k]) {
        if !items[k].Done? {
          var j :| 0 <= j < |patches| && patches[j].index == k;
        }
      }
      ok := true;
    }
  }

  /** The items and labels are those of the program with labels. */
  ghost predicate Reflects(items: seq<Item>, labels: Labels, prog: seq<Stmt>) {
    items == Items(prog) && labels == LabelsOf(prog) && WellFormed(prog)
  }

  function Statement(p: Patch): Stmt {
    match p
    case PatchBne(_, rs1, rs2, name) => BranchTo(Ne, rs1, rs2, name)
    case PatchJal(_, rd, name) => JalTo(rd, name)
  }

  lemma MatchesMore(items: seq<Item>, patches: seq<Patch>, p: Patch)
    requires Matches(items, patches) && p.index == |items|
    ensures Matches(items + [Deferred(p)], patches + [p])
  {
    var items', patches' := items + [Deferred(p)], patches + [p];
    assert patches'[|patches|] == p;
    forall k | 0 <= k < |items'| && !items'[k].Done? ensures exists j :: 0 <= j < |patches'| && patches'[j].index == k {
      if k < |items| {
        var j :| 0 <= j < |patches| && patches[j].index == k;
        assert patches'[j] == patches[j];
      }
    }
  }
}
