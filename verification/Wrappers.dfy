/** Shared by all modules: optional values, alignment, and a fact about 32-bit wrap-around. */
module Wrappers {
  datatype Option<T> = None | Some(value: T)

  /** RT_ALIGN(n, RT_ALIGN_SIZE) and RT_ALIGN_DOWN(n, RT_ALIGN_SIZE), for an RT_ALIGN_SIZE of 16. */
  function AlignUp(n: nat): (r: nat)
    ensures n <= r < n + 16 && r % 16 == 0
  {
    (n + 15) / 16 * 16
  }

  lemma AlignUpFixed(n: nat)
    requires n % 16 == 0
    ensures AlignUp(n) == n
  {
  }

  function AlignDown(n: nat): (r: nat)
    ensures r <= n < r + 16 && r % 16 == 0
  {
    n / 16 * 16
  }

  /** How many pieces of a size fit. */
  function Fitting(size: nat, each: nat): (count: nat)
    requires each > 0
    ensures each * count <= size < each * (count + 1) && (size >= each <==> count > 0)
  {
    size / each
  }

  function Max(a: int, b: int): (r: int)
    ensures r >= a && r >= b && (r == a || r == b)
  {
    if a < b then b else a
  }

  /** Whole turns of a 32-bit counter do not show. */
  lemma ModShift(a: int, k: int)
    ensures (a + 0x1_0000_0000 * k) % 0x1_0000_0000 == a % 0x1_0000_0000
  {
    var r, p := a % 0x1_0000_0000, a / 0x1_0000_0000;
    assert a + 0x1_0000_0000 * k == 0x1_0000_0000 * (p + k) + r;
  }
}
