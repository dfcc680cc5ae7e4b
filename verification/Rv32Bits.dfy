/**
  The encoders of vivado/tests/tools/gen_perf_coe.py build a word by or-ing shifted fields; Rv32 adds
  them up.  Here the two are shown to be the same, the or being taken bit by bit.
 */
module Rv32Bits {
  import opened Rv32
  import opened Assembler

  const WIDTH: nat := 32

  /** a | b on 32 bits. */
  function BitOr(a: nat, b: nat): nat {
    Bitwise(GateOr, a, b, WIDTH)
  }

  lemma {:induction false} OrZero(a: nat, n: nat)
    requires a < Pow2(n)
    ensures Bitwise(GateOr, a, 0, n) == a
  {
    if n > 0 {
      OrZero(a / 2, n - 1);
    }
  }

  /** A field above bit k and one below it: nothing is carried. */
  lemma {:induction false} OrIsSum(hi: nat, lo: nat, k: nat, n: nat)
    requires k <= n && lo < Pow2(k) && hi < Pow2(n - k)
    ensures Bitwise(GateOr, hi * Pow2(k), lo, n) == hi * Pow2(k) + lo
  {
    if k == 0 {
      OrZero(hi, n);
    } else {
      var u := Pow2(k - 1);
      Halved(hi, u);
      OrIsSum(hi, lo / 2, k - 1, n - 1);
    }
  }

  lemma Halved(hi: nat, u: nat)
    ensures hi * (2 * u) == 2 * (hi * u) && hi * (2 * u) / 2 == hi * u && hi * (2 * u) % 2 == 0
  {
  }

  /** The powers of two at which fields begin. */
  lemma Units()
    ensures Pow2(7) == 128 && Pow2(8) == 256 && Pow2(12) == 0x1000 && Pow2(15) == 0x8000
    ensures Pow2(20) == 0x10_0000 && Pow2(21) == 0x20_0000 && Pow2(25) == 0x200_0000 && Pow2(31) == 0x8000_0000
    ensures Pow2(1) == 2 && Pow2(11) == 2048 && Pow2(17) == 0x2_0000 && Pow2(24) == 0x100_0000
  {
    assert Pow2(4) == 16;
    assert Pow2(8) == 256;
    assert Pow2(12) == 0x1000;
    assert Pow2(16) == 0x1_0000;
    assert Pow2(20) == 0x10_0000;
    assert Pow2(24) == 0x100_0000;
    assert Pow2(28) == 0x1000_0000;
  }

  /** An operation that adds wherever the bits of one operand lie above those of the other. */
  ghost predicate Joins(or: (nat, nat) -> nat) {
    forall hi: nat, k: nat, lo: nat {:trigger or(Shifted(hi, k), lo)} ::
      k <= WIDTH && hi < Pow2(WIDTH - k) && lo < Pow2(k) ==> or(Shifted(hi, k), lo) == Shifted(hi, k) + lo
  }

  function Shifted(hi: nat, k: nat): nat {
    hi * Pow2(k)
  }

  /** The bitwise or is such an operation. */
  lemma BitOrJoins()
    ensures Joins(BitOr)
  {
    forall hi: nat, k: nat, lo: nat | k <= WIDTH && hi < Pow2(WIDTH - k) && lo < Pow2(k)
      ensures BitOr(Shifted(hi, k), lo) == Shifted(hi, k) + lo
    {
      OrIsSum(hi, lo, k, WIDTH);
    }
  }

  /** The places at which fields meet. */
  predicate Border(k: nat, unit: nat, rest: nat) {
    match k
    case 7 => unit == 128 && rest == 0x200_0000
    case 8 => unit == 256 && rest == 0x100_0000
    case 12 => unit == 0x1000 && rest == 0x10_0000
    case 15 => unit == 0x8000 && rest == 0x2_0000
    case 20 => unit == 0x10_0000 && rest == 0x1000
    case 21 => unit == 0x20_0000 && rest == 0x800
    case 25 => unit == 0x200_0000 && rest == 128
    case 31 => unit == 0x8000_0000 && rest == 2
    case _ => false
  }

  /** One more field, below bit k, joins the fields gathered so far. */
  lemma Join(or: (nat, nat) -> nat, hi: nat, k: nat, unit: nat, rest: nat, lo: nat)
    requires Joins(or) && Border(k, unit, rest) && hi < rest && lo < unit
    ensures or(hi * unit, lo) == hi * unit + lo
  {
    Units();
    assert or(Shifted(hi, k), lo) == Shifted(hi, k) + lo;
  }

  lemma OrR(or: (nat, nat) -> nat, rd: Reg, rs1: Reg, rs2: Reg, f3: nat, f7: nat, op: nat)
    requires Joins(or) && f3 < 8 && f7 < 128 && op < 128
    ensures EncR(rd, rs1, rs2, f3, f7, op) ==
      or(or(or(or(or(f7 * 0x200_0000, rs2 * 0x10_0000), rs1 * 0x8000), f3 * 0x1000), rd * 128), op)
  {
    Join(or, f7, 25, 0x200_0000, 128, rs2 * 0x10_0000);
    Join(or, f7 * 32 + rs2, 20, 0x10_0000, 0x1000, rs1 * 0x8000);
    Join(or, (f7 * 32 + rs2) * 32 + rs1, 15, 0x8000, 0x2_0000, f3 * 0x1000);
    Join(or, ((f7 * 32 + rs2) * 32 + rs1) * 8 + f3, 12, 0x1000, 0x10_0000, rd * 128);
    Join(or, (((f7 * 32 + rs2) * 32 + rs1) * 8 + f3) * 32 + rd, 7, 128, 0x200_0000, op);
  }

  lemma OrI(or: (nat, nat) -> nat, rd: Reg, rs1: Reg, imm: int, f3: nat, op: nat)
    requires Joins(or) && f3 < 8 && op < 128
    ensures EncI(rd, rs1, imm, f3, op) ==
      or(or(or(or(imm % 0x1000 * 0x10_0000, rs1 * 0x8000), f3 * 0x1000), rd * 128), op)
  {
    var m := imm % 0x1000;
    Join(or, m, 20, 0x10_0000, 0x1000, rs1 * 0x8000);
    Join(or, m * 32 + rs1, 15, 0x8000, 0x2_0000, f3 * 0x1000);
    Join(or, (m * 32 + rs1) * 8 + f3, 12, 0x1000, 0x10_0000, rd * 128);
    Join(or, ((m * 32 + rs1) * 8 + f3) * 32 + rd, 7, 128, 0x200_0000, op);
  }

  lemma OrS(or: (nat, nat) -> nat, rs1: Reg, rs2: Reg, imm: int, f3: nat)
    requires Joins(or) && f3 < 8
    ensures var m := imm % 0x1000;
      EncS(rs1, rs2, imm, f3) ==
      or(or(or(or(or(m / 32 * 0x200_0000, rs2 * 0x10_0000), rs1 * 0x8000), f3 * 0x1000), m % 32 * 128), 0x23)
  {
    var m := imm % 0x1000;
    OrR(or, m % 32, rs1, rs2, f3, m / 32, 0x23);
  }

  lemma OrU(or: (nat, nat) -> nat, rd: Reg, imm20: int, op: nat)
    requires Joins(or) && op < 128
    ensures EncU(rd, imm20, op) == or(or(imm20 % 0x10_0000 * 0x1000, rd * 128), op)
  {
    var m := imm20 % 0x10_0000;
    Join(or, m, 12, 0x1000, 0x10_0000, rd * 128);
    Join(or, m * 32 + rd, 7, 128, 0x200_0000, op);
  }

  lemma OrB(or: (nat, nat) -> nat, rs1: Reg, rs2: Reg, imm: int, f3: nat)
    requires Joins(or) && f3 < 8
    ensures var m := imm % 0x2000;
      EncB(rs1, rs2, imm, f3) ==
      or(or(or(or(or(or(or(m / 4096 % 2 * 0x8000_0000, m / 32 % 64 * 0x200_0000), rs2 * 0x10_0000),
        rs1 * 0x8000), f3 * 0x1000), m / 2 % 16 * 256), m / 2048 % 2 * 128), 0x63)
  {
    var m := imm % 0x2000;
    PartsOfB(or, rs1, rs2, f3, m / 4096 % 2, m / 32 % 64, m / 2 % 16, m / 2048 % 2);
  }

  lemma PartsOfB(or: (nat, nat) -> nat, rs1: Reg, rs2: Reg, f3: nat, b12: nat, b10_5: nat, b4_1: nat, b11: nat)
    requires Joins(or) && f3 < 8 && b12 < 2 && b10_5 < 64 && b4_1 < 16 && b11 < 2
    ensures b12 * 0x8000_0000 + b10_5 * 0x200_0000 + rs2 * 0x10_0000 + rs1 * 0x8000 + f3 * 0x1000 + b4_1 * 256 + b11 * 128 + 0x63 ==
      or(or(or(or(or(or(or(b12 * 0x8000_0000, b10_5 * 0x200_0000), rs2 * 0x10_0000),
        rs1 * 0x8000), f3 * 0x1000), b4_1 * 256), b11 * 128), 0x63)
  {
    var h0 := b12 * 64 + b10_5;
    var h1 := h0 * 32 + rs2;
    var h2 := h1 * 32 + rs1;
    var h3 := h2 * 8 + f3;
    var h4 := h3 * 16 + b4_1;
    Join(or, b12, 31, 0x8000_0000, 2, b10_5 * 0x200_0000);
    Join(or, h0, 25, 0x200_0000, 128, rs2 * 0x10_0000);
    Join(or, h1, 20, 0x10_0000, 0x1000, rs1 * 0x8000);
    Join(or, h2, 15, 0x8000, 0x2_0000, f3 * 0x1000);
    Join(or, h3, 12, 0x1000, 0x10_0000, b4_1 * 256);
    Join(or, h4, 8, 256, 0x100_0000, b11 * 128);
    Join(or, h4 * 2 + b11, 7, 128, 0x200_0000, 0x63);
  }

  lemma OrJ(or: (nat, nat) -> nat, rd: Reg, imm: int)
    requires Joins(or)
    ensures var m := imm % 0x20_0000;
      EncJ(rd, imm) ==
      or(or(or(or(or(m / 0x10_0000 % 2 * 0x8000_0000, m / 2 % 1024 * 0x20_0000), m / 2048 % 2 * 0x10_0000),
        m / 4096 % 256 * 0x1000), rd * 128), 0x6F)
  {
    var m := imm % 0x20_0000;
    PartsOfJ(or, rd, m / 0x10_0000 % 2, m / 2 % 1024, m / 2048 % 2, m / 4096 % 256);
  }

  lemma PartsOfJ(or: (nat, nat) -> nat, rd: Reg, b20: nat, b10_1: nat, b11: nat, b19_12: nat)
    requires Joins(or) && b20 < 2 && b10_1 < 1024 && b11 < 2 && b19_12 < 256
    ensures b20 * 0x8000_0000 + b10_1 * 0x20_0000 + b11 * 0x10_0000 + b19_12 * 0x1000 + rd * 128 + 0x6F ==
      or(or(or(or(or(b20 * 0x8000_0000, b10_1 * 0x20_0000), b11 * 0x10_0000), b19_12 * 0x1000), rd * 128), 0x6F)
  {
    var h0 := b20 * 1024 + b10_1;
    var h1 := h0 * 2 + b11;
    var h2 := h1 * 256 + b19_12;
    Join(or, b20, 31, 0x8000_0000, 2, b10_1 * 0x20_0000);
    Join(or, h0, 21, 0x20_0000, 0x800, b11 * 0x10_0000);
    Join(or, h1, 20, 0x10_0000, 0x1000, b19_12 * 0x1000);
    Join(or, h2, 12, 0x1000, 0x10_0000, rd * 128);
    Join(or, h2 * 32 + rd, 7, 128, 0x200_0000, 0x6F);
  }
}
