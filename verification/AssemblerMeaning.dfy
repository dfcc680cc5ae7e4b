/** Running the assembled words and running the program with labels are the same thing. */
module AssemblerMeaning {
  import opened Wrappers
  import opened Rv32
  import opened Assembler

  // ----- Where the words of a statement are -----

  /** Sequences of items, one after the other. */
  ghost function Gathered(parts: seq<seq<Item>>): seq<Item> {
    if parts == [] then [] else Gathered(parts[..|parts| - 1]) + parts[|parts| - 1]
  }

  lemma {:induction false} GatheredAt(parts: seq<seq<Item>>, i: nat, j: nat)
    requires i < |parts| && j < |parts[i]|
    ensures |Gathered(parts[..i])| + j < |Gathered(parts)| && Gathered(parts)[|Gathered(parts[..i])| + j] == parts[i][j]
    decreases |parts|
  {
    var before := parts[..|parts| - 1];
    if i < |parts| - 1 {
      assert before[..i] == parts[..i];
      GatheredAt(before, i, j);
    } else {
      assert parts[..i] == before;
    }
  }

  /** Part i is what statement i adds. */
  ghost predicate PartsOf(prog: seq<Stmt>, parts: seq<seq<Item>>) {
    |parts| == |prog| && forall i {:trigger parts[i]} :: 0 <= i < |prog| ==> parts[i] == ItemsOf(prog[i], Offset(prog, i))
  }

  lemma {:induction false} ItemsGathered(prog: seq<Stmt>, parts: seq<seq<Item>>)
    requires PartsOf(prog, parts)
    ensures Items(prog) == Gathered(parts)
  {
    if prog != [] {
      var n := |prog| - 1;
      PartsPrefix(prog, parts, n);
      ItemsGathered(prog[..n], parts[..n]);
      assert parts[n] == ItemsOf(prog[n], Offset(prog, n));
    }
  }

  lemma PartsPrefix(prog: seq<Stmt>, parts: seq<seq<Item>>, n: nat)
    requires PartsOf(prog, parts) && n <= |prog|
    ensures PartsOf(prog[..n], parts[..n])
  {
    forall i | 0 <= i < n ensures parts[..n][i] == ItemsOf(prog[..n][i], Offset(prog[..n], i)) {
      assert prog[..n][..i] == prog[..i] && parts[i] == ItemsOf(prog[i], Offset(prog, i));
    }
  }

  ghost function Parts(prog: seq<Stmt>): (parts: seq<seq<Item>>)
    ensures PartsOf(prog, parts)
  {
    seq(|prog|, k requires 0 <= k < |prog| => ItemsOf(prog[k], Offset(prog, k)))
  }

  /** The word list has the items of statement i at its place. */
  lemma ItemAt(prog: seq<Stmt>, parts: seq<seq<Item>>, i: nat, j: nat)
    requires PartsOf(prog, parts) && i < |prog| && j < |parts[i]|
    ensures Count(prog[..i]) + j < |Items(prog)| && Items(prog)[Count(prog[..i]) + j] == parts[i][j]
  {
    assert Items(prog) == Gathered(parts) by { ItemsGathered(prog, parts); }
    assert |Gathered(parts[..i])| == Count(prog[..i]) by {
      PartsPrefix(prog, parts, i);
      ItemsGathered(prog[..i], parts[..i]);
      ItemsCount(prog[..i]);
    }
    GatheredAt(parts, i, j);
  }

  lemma NextOffset(prog: seq<Stmt>, i: nat)
    requires i < |prog|
    ensures Offset(prog, i + 1) == Offset(prog, i) + 4 * Size(prog[i])
  {
    assert prog[..i + 1][..i] == prog[..i];
  }

  lemma StmtItem(prog: seq<Stmt>, i: nat, j: nat)
    requires i < |prog| && j < Size(prog[i])
    ensures j < |ItemsOf(prog[i], Offset(prog, i))|
    ensures Count(prog[..i]) + j < |Items(prog)| && Items(prog)[Count(prog[..i]) + j] == ItemsOf(prog[i], Offset(prog, i))[j]
  {
    SizeOf(prog[i], Offset(prog, i));
    ItemAt(prog, Parts(prog), i, j);
  }

  lemma {:induction false} LabelKept(prog: seq<Stmt>, i: nat)
    requires WellFormed(prog) && i < |prog| && prog[i].Label?
    ensures prog[i].name in LabelsOf(prog) && LabelsOf(prog)[prog[i].name] == Offset(prog, i)
    decreases |prog|
  {
    var before := prog[..|prog| - 1];
    if i < |prog| - 1 {
      LabelKept(before, i);
      assert before[..i] == prog[..i];
    } else {
      assert prog[..i] == before;
    }
  }

  lemma {:induction false} LabelHasPlace(prog: seq<Stmt>, name: string)
    requires name in LabelsOf(prog)
    ensures HasLabel(prog, name)
    decreases |prog|
  {
    var before := prog[..|prog| - 1];
    if prog[|prog| - 1] != Label(name) {
      LabelHasPlace(before, name);
      var i :| 0 <= i < |before| && before[i] == Label(name);
      assert prog[i] == Label(name);
    }
  }

  /** The label table sends a name to the offset of the statement that control goes to. */
  lemma LabelOffset(prog: seq<Stmt>, name: string)
    requires WellFormed(prog) && name in LabelsOf(prog)
    ensures HasLabel(prog, name) && LabelsOf(prog)[name] == Offset(prog, Target(prog, name))
  {
    LabelHasPlace(prog, name);
    LabelKept(prog, Target(prog, name));
  }

  // ----- One word -----

  lemma MaskedUpper(upper: int)
    ensures U32(upper % 0x10_0000 * 4096) == U32(upper * 4096)
  {
    var q := upper / 0x10_0000;
    assert upper * 4096 == upper % 0x10_0000 * 4096 + 0x1_0000_0000 * q;
    ModShift(upper % 0x10_0000 * 4096, q);
  }

  lemma MaskedPcUpper(pc: int, upper: int)
    ensures U32(pc + upper % 0x10_0000 * 4096) == U32(pc + upper * 4096)
  {
    var q := upper / 0x10_0000;
    assert pc + upper * 4096 == pc + upper % 0x10_0000 * 4096 + 0x1_0000_0000 * q;
    ModShift(pc + upper % 0x10_0000 * 4096, q);
  }

  lemma MaskedSame(i: Insn, m: Machine)
    ensures Execute(Masked(i), m) == Execute(i, m)
  {
    if i.Lui? {
      MaskedUpper(i.upper);
    } else if i.Auipc? {
      MaskedPcUpper(m.pc, i.upper);
    }
  }

  lemma {:induction false} DecodeAllAt(words: seq<nat>, k: nat)
    requires k < |words|
    ensures |DecodeAll(words)| == |words| && DecodeAll(words)[k] == Decode(words[k])
    decreases |words|
  {
    if k > 0 {
      DecodeAllAt(words[1..], k - 1);
    } else if |words| > 1 {
      DecodeAllAt(words[1..], 0);
    }
  }

  /** The machine at word k, which encodes i, executes i. */
  lemma StepWord(words: seq<nat>, base: int, k: nat, i: Insn, m: Machine)
    requires k < |words| && words[k] == Encode(i) && Encodable(i) && m.pc == base + 4 * k
    ensures Steps(DecodeAll(words), base, m, 1) == Some(Execute(i, m))
  {
    RoundTrip(i);
    DecodeAllAt(words, k);
    FetchAt(DecodeAll(words), base, k, Masked(i), m);
    MaskedSame(i, m);
  }

  /** A word made by an encoder is the instruction it was made from. */
  lemma EncodedIsPlain(i: Insn, m: Machine)
    requires Encodable(i) && !i.Branch? && !i.Jal?
    ensures Plain(Encode(i)) && Execute(Decode(Encode(i)).value, m) == Execute(i, m)
  {
    RoundTrip(i);
    MaskedSame(i, m);
  }

  lemma FetchAt(code: Code, base: int, k: nat, i: Insn, m: Machine)
    requires k < |code| && code[k] == Some(i) && m.pc == base + 4 * k
    ensures Steps(code, base, m, 1) == Some(Execute(i, m))
  {
    assert Step(code, base, m) == Some(Execute(i, m));
    assert Steps(code, base, Execute(i, m), 0) == Some(Execute(i, m));
  }

  /** a steps and then b more. */
  lemma {:induction false} StepsAdd(code: Code, base: int, m: Machine, a: nat, m1: Machine, b: nat)
    requires Steps(code, base, m, a) == Some(m1)
    ensures Steps(code, base, m, a + b) == Steps(code, base, m1, b)
    decreases a
  {
    if a > 0 {
      var m' := Step(code, base, m);
      StepsAdd(code, base, m'.value, a - 1, m1, b);
    }
  }

  // ----- One statement -----

  /** li leaves exactly the requested value, in one or two steps, whatever was in rd. */
  lemma LiSmall(rd: Reg, imm: int, m: Machine)
    requires Small(imm)
    ensures Execute(OpImm(AddI, rd, 0, S32(imm)), m) == Machine(m.pc + 4, Set(m.regs, rd, U32(imm)), m.mem)
  {
    assert U32(S32(imm)) == U32(imm);
  }

  lemma LiLarge(rd: Reg, imm: int, m: Machine)
    requires !Small(imm)
    ensures -2048 <= LiLower(U32(imm)) <= 2047
    ensures var m1 := Execute(Lui(rd, LiUpper(U32(imm))), m);
      && m1.pc == m.pc + 4
      && Execute(OpImm(AddI, rd, rd, LiLower(U32(imm))), m1) == Machine(m.pc + 8, Set(m.regs, rd, U32(imm)), m.mem)
  {
    LiExact(U32(imm));
    var upper, lower := LiUpper(U32(imm)), LiLower(U32(imm));
    assert U32(upper * 4096) == upper * 4096;
    assert U32(upper * 4096 + lower) == U32(imm);
    if rd != 0 {
      assert Set(Set(m.regs, rd, U32(upper * 4096)), rd, U32(imm)) == Set(m.regs, rd, U32(imm));
    }
  }

  /** Every label that a branch or jump names is defined, or assembling would have failed. */
  lemma BranchLabelled(prog: seq<Stmt>, words: seq<nat>, i: nat)
    requires Assembled(prog, words) && i < |prog| && (prog[i].BranchTo? || prog[i].JalTo?)
    ensures prog[i].name in LabelsOf(prog) && HasLabel(prog, prog[i].name)
  {
    StmtItem(prog, i, 0);
    assert Resolve(Items(prog)[Count(prog[..i])], LabelsOf(prog)).Some?;
    LabelHasPlace(prog, prog[i].name);
  }

  ghost predicate Runnable(prog: seq<Stmt>, words: seq<nat>, s: State) {
    WellFormed(prog) && AllPlain(prog) && Assembled(prog, words) && s.at < |prog|
  }

  /** The source step is defined wherever the machine can be. */
  ghost function Next(prog: seq<Stmt>, words: seq<nat>, base: int, s: State): State
    requires Runnable(prog, words, s)
  {
    if prog[s.at].BranchTo? || prog[s.at].JalTo? then
      BranchLabelled(prog, words, s.at);
      SrcStep(prog, base, s)
    else SrcStep(prog, base, s)
  }

  /** The words of the statement, one by one. */
  lemma StmtWord(prog: seq<Stmt>, words: seq<nat>, s: State, j: nat)
    requires Runnable(prog, words, s) && j < Size(prog[s.at])
    ensures j < |ItemsOf(prog[s.at], Offset(prog, s.at))| && Count(prog[..s.at]) + j < |words|
    ensures Resolve(ItemsOf(prog[s.at], Offset(prog, s.at))[j], LabelsOf(prog)) == Some(words[Count(prog[..s.at]) + j])
  {
    StmtItem(prog, s.at, j);
  }

  /** The single word of a statement encodes the instruction i, whose effect is that of the statement. */
  lemma OneWord(prog: seq<Stmt>, words: seq<nat>, base: int, s: State, i: Insn)
    requires Runnable(prog, words, s) && Size(prog[s.at]) == 1 && Encodable(i)
    requires |ItemsOf(prog[s.at], Offset(prog, s.at))| == 1
    requires Resolve(ItemsOf(prog[s.at], Offset(prog, s.at))[0], LabelsOf(prog)) == Some(Encode(i))
    ensures Steps(DecodeAll(words), base, Image(prog, base, s), 1) == Some(Execute(i, Image(prog, base, s)))
  {
    StmtWord(prog, words, s, 0);
    StepWord(words, base, Count(prog[..s.at]), i, Image(prog, base, s));
  }

  lemma RawCorrect(prog: seq<Stmt>, words: seq<nat>, base: int, s: State)
    requires Runnable(prog, words, s) && prog[s.at].Raw?
    ensures Size(prog[s.at]) == 1 && Goes(prog, words, base, s)
  {
    var k := Count(prog[..s.at]);
    assert k < |words| && words[k] == prog[s.at].w by { StmtWord(prog, words, s, 0); }
    var m := Image(prog, base, s);
    RawStep(words, base, k, m);
    RawImage(prog, base, s, m, Execute(Decode(prog[s.at].w).value, m));
  }

  lemma RawImage(prog: seq<Stmt>, base: int, s: State, m: Machine, m': Machine)
    requires s.at < |prog| && prog[s.at].Raw? && Plain(prog[s.at].w) && m == Image(prog, base, s)
    requires m' == Execute(Decode(prog[s.at].w).value, m) && m'.pc == m.pc + 4
    ensures SrcStep(prog, base, s).at == s.at + 1 && Image(prog, base, SrcStep(prog, base, s)) == m'
  {
    NextOffset(prog, s.at);
  }

  lemma RawStep(words: seq<nat>, base: int, k: nat, m: Machine)
    requires k < |words| && Plain(words[k]) && m.pc == base + 4 * k
    ensures var m' := Execute(Decode(words[k]).value, m);
      m'.pc == m.pc + 4 && Steps(DecodeAll(words), base, m, 1) == Some(m')
  {
    DecodeAllAt(words, k);
    FetchAt(DecodeAll(words), base, k, Decode(words[k]).value, m);
    PlainNext(Decode(words[k]).value, m);
  }

  lemma PlainNext(i: Insn, m: Machine)
    requires !i.Branch? && !i.Jal?
    ensures Execute(i, m).pc == m.pc + 4
  {
  }

  /** The machine goes from the image of s to the image of the next state in Len steps. */
  ghost predicate Goes(prog: seq<Stmt>, words: seq<nat>, base: int, s: State)
    requires Runnable(prog, words, s)
  {
    var s' := Next(prog, words, base, s);
    && s'.at <= |prog|
    && Steps(DecodeAll(words), base, Image(prog, base, s), Size(prog[s.at])) == Some(Image(prog, base, s'))
  }

  lemma LiCorrectSmall(prog: seq<Stmt>, words: seq<nat>, base: int, s: State)
    requires Runnable(prog, words, s) && prog[s.at].Li? && Small(prog[s.at].imm)
    ensures Size(prog[s.at]) == 1 && Goes(prog, words, base, s)
  {
    var rd, imm := prog[s.at].rd, prog[s.at].imm;
    var i := OpImm(AddI, rd, 0, S32(imm));
    var m := Image(prog, base, s);
    assert Steps(DecodeAll(words), base, m, 1) == Some(Execute(i, m)) by {
      assert ItemsOf(prog[s.at], Offset(prog, s.at))[0] == Done(Encode(i));
      OneWord(prog, words, base, s, i);
    }
    LiSmall(rd, imm, m);
    assert Image(prog, base, SrcStep(prog, base, s)) == Machine(m.pc + 4, Set(m.regs, rd, U32(imm)), m.mem) by {
      NextOffset(prog, s.at);
    }
  }

  lemma LiWords(prog: seq<Stmt>, words: seq<nat>, s: State)
    requires Runnable(prog, words, s) && prog[s.at].Li? && !Small(prog[s.at].imm)
    ensures Size(prog[s.at]) == 2
    ensures var k, rd, v := Count(prog[..s.at]), prog[s.at].rd, U32(prog[s.at].imm);
      && k + 1 < |words| && -2048 <= LiLower(v) <= 2047
      && words[k] == Encode(Lui(rd, LiUpper(v))) && words[k + 1] == Encode(OpImm(AddI, rd, rd, LiLower(v)))
  {
    LiItems(prog[s.at].rd, prog[s.at].imm, Offset(prog, s.at));
    StmtWord(prog, words, s, 0);
    StmtWord(prog, words, s, 1);
  }

  lemma LiItems(rd: Reg, imm: int, cur: nat)
    requires !Small(imm)
    ensures var v := U32(imm);
      && -2048 <= LiLower(v) <= 2047
      && ItemsOf(Li(rd, imm), cur) == [Done(Encode(Lui(rd, LiUpper(v)))), Done(Encode(OpImm(AddI, rd, rd, LiLower(v))))]
  {
    LiExact(U32(imm));
    var code := LiCode(rd, imm);
    assert code == [Lui(rd, LiUpper(U32(imm))), OpImm(AddI, rd, rd, LiLower(U32(imm)))];
  }

  lemma TwoWords(words: seq<nat>, base: int, k: nat, i1: Insn, i2: Insn, m: Machine)
    requires k + 1 < |words| && words[k] == Encode(i1) && words[k + 1] == Encode(i2) && Encodable(i1) && Encodable(i2)
    requires m.pc == base + 4 * k && Execute(i1, m).pc == m.pc + 4
    ensures Steps(DecodeAll(words), base, m, 2) == Some(Execute(i2, Execute(i1, m)))
  {
    var m1 := Execute(i1, m);
    StepWord(words, base, k, i1, m);
    StepWord(words, base, k + 1, i2, m1);
    StepsAdd(DecodeAll(words), base, m, 1, m1, 1);
  }

  lemma LiCorrectLarge(prog: seq<Stmt>, words: seq<nat>, base: int, s: State)
    requires Runnable(prog, words, s) && prog[s.at].Li? && !Small(prog[s.at].imm)
    ensures Size(prog[s.at]) == 2 && Goes(prog, words, base, s)
  {
    var m, rd, imm, k := Image(prog, base, s), prog[s.at].rd, prog[s.at].imm, Count(prog[..s.at]);
    var i1, i2 := Lui(rd, LiUpper(U32(imm))), OpImm(AddI, rd, rd, LiLower(U32(imm)));
    LiLarge(rd, imm, m);
    assert Steps(DecodeAll(words), base, m, 2) == Some(Execute(i2, Execute(i1, m))) by {
      LiWords(prog, words, s);
      TwoWords(words, base, k, i1, i2, m);
    }
    assert Image(prog, base, SrcStep(prog, base, s)) == Machine(m.pc + 8, Set(m.regs, rd, U32(imm)), m.mem) by {
      NextOffset(prog, s.at);
    }
  }

  /** The instruction that a branch or jump resolves to. */
  ghost function JumpInsn(prog: seq<Stmt>, s: State): Insn
    requires s.at < |prog| && (prog[s.at].BranchTo? || prog[s.at].JalTo?) && prog[s.at].name in LabelsOf(prog)
  {
    var off := LabelsOf(prog)[prog[s.at].name] - Offset(prog, s.at);
    match prog[s.at]
    case BranchTo(c, rs1, rs2, _) => Branch(c, rs1, rs2, off)
    case JalTo(rd, _) => Jal(rd, off)
  }

  lemma JumpResolved(prog: seq<Stmt>, words: seq<nat>, s: State)
    requires Runnable(prog, words, s) && (prog[s.at].BranchTo? || prog[s.at].JalTo?)
    ensures prog[s.at].name in LabelsOf(prog) && Encodable(JumpInsn(prog, s))
    ensures |ItemsOf(prog[s.at], Offset(prog, s.at))| == 1
    ensures Resolve(ItemsOf(prog[s.at], Offset(prog, s.at))[0], LabelsOf(prog)) == Some(Encode(JumpInsn(prog, s)))
  {
    BranchLabelled(prog, words, s.at);
    var item := ItemsOf(prog[s.at], Offset(prog, s.at))[0];
    assert Resolve(item, LabelsOf(prog)).Some? by { StmtWord(prog, words, s, 0); }
    JumpItem(prog, s, item, LabelsOf(prog));
  }

  lemma JumpItem(prog: seq<Stmt>, s: State, item: Item, labels: Labels)
    requires s.at < |prog| && (prog[s.at].BranchTo? || prog[s.at].JalTo?) && labels == LabelsOf(prog) && prog[s.at].name in labels
    requires ItemsOf(prog[s.at], Offset(prog, s.at)) == [item] && Resolve(item, labels).Some?
    ensures Encodable(JumpInsn(prog, s)) && Resolve(item, labels) == Some(Encode(JumpInsn(prog, s)))
  {
  }

  lemma JumpOffsets(prog: seq<Stmt>, s: State)
    requires WellFormed(prog) && s.at < |prog| && (prog[s.at].BranchTo? || prog[s.at].JalTo?)
    requires prog[s.at].name in LabelsOf(prog)
    ensures HasLabel(prog, prog[s.at].name) && LabelsOf(prog)[prog[s.at].name] == Offset(prog, Target(prog, prog[s.at].name))
    ensures Offset(prog, s.at + 1) == Offset(prog, s.at) + 4
  {
    LabelOffset(prog, prog[s.at].name);
    NextOffset(prog, s.at);
  }

  lemma BranchEffect(c: Cond, rs1: Reg, rs2: Reg, here: int, there: int, m: Machine)
    ensures Execute(Branch(c, rs1, rs2, there - here), m) ==
      m.(pc := m.pc - here + if Taken(c, Get(m.regs, rs1), Get(m.regs, rs2)) then there else here + 4)
  {
  }

  lemma JalEffect(rd: Reg, here: int, there: int, m: Machine)
    ensures Execute(Jal(rd, there - here), m) == Machine(m.pc - here + there, Set(m.regs, rd, U32(m.pc + 4)), m.mem)
  {
  }

  /** The offset in the instruction leads to where control goes. */
  lemma BranchLands(prog: seq<Stmt>, base: int, s: State)
    requires WellFormed(prog) && s.at < |prog| && prog[s.at].BranchTo? && prog[s.at].name in LabelsOf(prog)
    ensures HasLabel(prog, prog[s.at].name) && SrcStep(prog, base, s).at <= |prog|
    ensures Execute(JumpInsn(prog, s), Image(prog, base, s)) == Image(prog, base, SrcStep(prog, base, s))
  {
    var st := prog[s.at];
    JumpOffsets(prog, s);
    BranchEffect(st.cond, st.rs1, st.rs2, Offset(prog, s.at), LabelsOf(prog)[st.name], Image(prog, base, s));
  }

  lemma JalLands(prog: seq<Stmt>, base: int, s: State)
    requires WellFormed(prog) && s.at < |prog| && prog[s.at].JalTo? && prog[s.at].name in LabelsOf(prog)
    ensures HasLabel(prog, prog[s.at].name) && SrcStep(prog, base, s).at <= |prog|
    ensures Execute(JumpInsn(prog, s), Image(prog, base, s)) == Image(prog, base, SrcStep(prog, base, s))
  {
    var st := prog[s.at];
    JumpOffsets(prog, s);
    var m := Image(prog, base, s);
    JalEffect(st.rd, Offset(prog, s.at), LabelsOf(prog)[st.name], m);
    assert SrcStep(prog, base, s) == State(Target(prog, st.name), Set(s.regs, st.rd, U32(m.pc + 4)), s.mem);
  }

  lemma JumpCorrect(prog: seq<Stmt>, words: seq<nat>, base: int, s: State)
    requires Runnable(prog, words, s) && (prog[s.at].BranchTo? || prog[s.at].JalTo?)
    ensures Size(prog[s.at]) == 1 && Goes(prog, words, base, s)
  {
    JumpResolved(prog, words, s);
    BranchLabelled(prog, words, s.at);
    OneWord(prog, words, base, s, JumpInsn(prog, s));
    if prog[s.at].BranchTo? {
      BranchLands(prog, base, s);
    } else {
      JalLands(prog, base, s);
    }
  }

  /** Each statement: as many machine steps as it has words take the image to the next image. */
  lemma StmtCorrect(prog: seq<Stmt>, words: seq<nat>, base: int, s: State)
    requires Runnable(prog, words, s)
    ensures Goes(prog, words, base, s)
  {
    match prog[s.at]
    case Label(_) =>
      NextOffset(prog, s.at);
      assert Size(prog[s.at]) == 0;
    case Raw(_) => RawCorrect(prog, words, base, s);
    case Li(_, imm) =>
      if Small(imm) {
        LiCorrectSmall(prog, words, base, s);
      } else {
        LiCorrectLarge(prog, words, base, s);
      }
    case BranchTo(_, _, _, _) => JumpCorrect(prog, words, base, s);
    case JalTo(_, _) => JumpCorrect(prog, words, base, s);
  }

  // ----- Runs -----

  /** Anything that goes from state to state, with an image on the machine, as far as end. */
  datatype System = System(next: State -> State, len: State -> nat, image: State -> Machine, end: nat)

  /** The image follows the step from s, in len steps of its own. */
  ghost predicate Follows(y: System, code: Code, base: int, s: State) {
    && y.next(s).at <= y.end && Steps(code, base, y.image(s), y.len(s)) == Some(y.image(y.next(s)))
    && (y.len(s) == 0 ==> y.next(s).at > s.at)
  }

  ghost predicate Simulated(y: System, code: Code, base: int) {
    forall s: State {:trigger Follows(y, code, base, s)} :: s.at < y.end ==> Follows(y, code, base, s)
  }

  /** n steps on, or as far as it goes. */
  ghost function Run(y: System, s: State, n: nat): State
    decreases n
  {
    if n == 0 || s.at >= y.end then s else Run(y, y.next(s), n - 1)
  }

  /** The machine steps this takes. */
  ghost function Cost(y: System, s: State, n: nat): nat
    decreases n
  {
    if n == 0 || s.at >= y.end then 0 else y.len(s) + Cost(y, y.next(s), n - 1)
  }

  lemma {:induction false} RunFollows(y: System, code: Code, base: int, s: State, n: nat)
    requires Simulated(y, code, base)
    ensures Steps(code, base, y.image(s), Cost(y, s, n)) == Some(y.image(Run(y, s, n)))
    decreases n
  {
    if n > 0 && s.at < y.end {
      assert Follows(y, code, base, s);
      RunFollows(y, code, base, y.next(s), n - 1);
      StepsAdd(code, base, y.image(s), y.len(s), y.image(y.next(s)), Cost(y, y.next(s), n - 1));
    }
  }

  lemma {:induction false} StepsTraced(y: System, code: Code, base: int, s: State, k: nat) returns (n: nat, j: nat)
    requires Simulated(y, code, base) && s.at <= y.end
    ensures var s' := Run(y, s, n);
      && Cost(y, s, n) + j == k && Steps(code, base, y.image(s), k) == Steps(code, base, y.image(s'), j)
      && (s'.at >= y.end || j < y.len(s'))
    decreases k, y.end - s.at
  {
    if s.at == y.end || k < y.len(s) {
      n, j := 0, k;
    } else {
      assert Follows(y, code, base, s);
      var len := y.len(s);
      var n1: nat;
      n1, j := StepsTraced(y, code, base, y.next(s), k - len);
      n := n1 + 1;
      RunNext(y, s, n1);
      StepsAdd(code, base, y.image(s), len, y.image(y.next(s)), k - len);
    }
  }

  lemma RunNext(y: System, s: State, n: nat)
    requires s.at < y.end
    ensures Run(y, s, n + 1) == Run(y, y.next(s), n) && Cost(y, s, n + 1) == y.len(s) + Cost(y, y.next(s), n)
  {
  }

  // ----- Main results -----

  /** A program with labels as a system: its own steps, its image at the address of each statement. */
  ghost function Meaning(prog: seq<Stmt>, words: seq<nat>, base: int): System
    requires WellFormed(prog) && AllPlain(prog) && Assembled(prog, words)
  {
    System(
      (s: State) => if s.at < |prog| then Next(prog, words, base, s) else s,
      (s: State) => if s.at < |prog| then Size(prog[s.at]) else 0,
      (s: State) => if s.at <= |prog| then Image(prog, base, s) else Machine(base, s.regs, s.mem),
      |prog|)
  }

  lemma MeaningSimulated(prog: seq<Stmt>, words: seq<nat>, base: int)
    requires WellFormed(prog) && AllPlain(prog) && Assembled(prog, words)
    ensures Simulated(Meaning(prog, words, base), DecodeAll(words), base)
  {
    var y := Meaning(prog, words, base);
    forall s: State | s.at < y.end ensures Follows(y, DecodeAll(words), base, s) {
      StmtCorrect(prog, words, base, s);
      StmtAdvances(prog, words, base, s);
    }
  }

  /** Only labels have no words, and control passes on from them. */
  lemma StmtAdvances(prog: seq<Stmt>, words: seq<nat>, base: int, s: State)
    requires Runnable(prog, words, s)
    ensures Size(prog[s.at]) == 0 ==> Next(prog, words, base, s).at == s.at + 1
  {
  }

  /** For every program and every number of statements, the words compute what the program says. */
  lemma RunCorrect(prog: seq<Stmt>, words: seq<nat>, base: int, s: State, n: nat)
    requires WellFormed(prog) && AllPlain(prog) && Assembled(prog, words) && s.at <= |prog|
    ensures var y := Meaning(prog, words, base);
      Steps(DecodeAll(words), base, y.image(s), Cost(y, s, n)) == Some(y.image(Run(y, s, n)))
  {
    MeaningSimulated(prog, words, base);
    RunFollows(Meaning(prog, words, base), DecodeAll(words), base, s, n);
  }

  /**
    Conversely, wherever the machine is after k steps, it is in a statement the program reaches:
    j steps into it, or stopped at the end of the program.
   */
  lemma EveryMachineStep(prog: seq<Stmt>, words: seq<nat>, base: int, s: State, k: nat) returns (n: nat, j: nat)
    requires WellFormed(prog) && AllPlain(prog) && Assembled(prog, words) && s.at <= |prog|
    ensures var y := Meaning(prog, words, base);
      var s' := Run(y, s, n);
      && Cost(y, s, n) + j == k
      && Steps(DecodeAll(words), base, y.image(s), k) == Steps(DecodeAll(words), base, y.image(s'), j)
      && (s'.at >= |prog| || j < y.len(s'))
  {
    MeaningSimulated(prog, words, base);
    n, j := StepsTraced(Meaning(prog, words, base), DecodeAll(words), base, s, k);
  }

  /** At the end of the program the machine has left the code. */
  lemma EndStops(prog: seq<Stmt>, words: seq<nat>, base: int, s: State)
    requires Assembled(prog, words) && s.at == |prog|
    ensures Step(DecodeAll(words), base, Image(prog, base, s)).None?
  {
    assert prog[..s.at] == prog;
    ItemsCount(prog);
    if words != [] {
      DecodeAllAt(words, 0);
    }
  }
}
