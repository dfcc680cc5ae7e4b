/** Copying inside a memory of bytes, as rt_memcpy does. */
module Memory {

  /** Memory m' is m after n bytes have been copied from src to dst. */
  ghost predicate CopiedTo(m: seq<int>, m': seq<int>, dst: nat, src: nat, n: nat) {
    && |m'| == |m| && dst + n <= |m| && src + n <= |m|
    && m'[..dst] == m[..dst]
    && m'[dst..dst + n] == m[src..src + n]
    && m'[dst + n..] == m[dst + n..]
  }

  lemma CopyStep(m0: seq<int>, m: seq<int>, dst: nat, src: nat, k: nat)
    requires CopiedTo(m0, m, dst, src, k) && dst + k < |m| && src + k < |m|
    requires src + k < dst || dst + k < src
    ensures CopiedTo(m0, m[dst + k := m[src + k]], dst, src, k + 1)
  {
    assert m[src + k] == m0[src + k] by {
      if src + k < dst {
        assert m[..dst][src + k] == m0[..dst][src + k];
      } else {
        assert m[dst + k..][src - dst] == m0[dst + k..][src - dst];
      }
    }
    var m1 := m[dst + k := m[src + k]];
    assert m1[dst..dst + k + 1] == m[dst..dst + k] + [m0[src + k]] == m0[src..src + k + 1];
    assert m1[dst + k + 1..] == m[dst + k..][1..] == m0[dst + k + 1..];
  }

  /** rt_memcpy between two places of a memory that do not meet. */
  method CopyWithin(m: seq<int>, dst: nat, src: nat, n: nat) returns (r: seq<int>)
    requires dst + n <= |m| && src + n <= |m|
    requires src + n <= dst || dst + n <= src
    ensures CopiedTo(m, r, dst, src, n)
  {
    r := m;
    var k := 0;
    while k < n
      invariant 0 <= k <= n && CopiedTo(m, r, dst, src, k)
    {
      CopyStep(m, r, dst, src, k);
      r := r[dst + k := r[src + k]];
      k := k + 1;
    }
  }

  /** Outside the destination nothing changes. */
  lemma CopyElsewhere(m: seq<int>, m': seq<int>, dst: nat, src: nat, n: nat, i: nat)
    requires CopiedTo(m, m', dst, src, n) && i < |m| && !(dst <= i < dst + n)
    ensures m'[i] == m[i]
  {
    if i < dst {
      assert m'[..dst][i] == m[..dst][i];
    } else {
      assert m'[dst + n..][i - dst - n] == m[dst + n..][i - dst - n];
    }
  }
}
