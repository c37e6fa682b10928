/** Definitions shared by every part of the model. */
module Common {
  type Byte = bv8

  datatype Option<+T> = None | Some(value: T)

  function Min(a: int, b: int): (m: int)
    ensures m <= a && m <= b
    ensures m == a || m == b
  {
    if a < b then a else b
  }

  function Abs(x: int): (r: nat)
    ensures r == x || r == -x
  {
    if x < 0 then -x else x
  }

  lemma MulMono(a: int, b: int, c: nat)
    requires a <= b
    ensures a * c <= b * c
  {
  }

  /** One more row of `len` bytes still ends within `n` rows. */
  lemma MulStep(i: nat, n: nat, len: nat)
    requires i < n
    ensures i * len + len <= n * len
    ensures (i + 1) * len == i * len + len
  {
    MulMono(i + 1, n, len);
  }

  /** A freshly allocated buffer holding a copy of `src` (malloc followed by memcpy). */
  method NewCopy(src: seq<Byte>) returns (dst: array<Byte>)
    ensures fresh(dst)
    ensures dst[..] == src
  {
    dst := new Byte[|src|](i requires 0 <= i < |src| => src[i]);
  }

  /** memcpy of `src` to offset `off` of `dst`; every other byte of `dst` is kept. */
  method CopyAt(dst: array<Byte>, off: nat, src: seq<Byte>)
    requires off + |src| <= dst.Length
    modifies dst
    ensures dst[..off] == old(dst[..off])
    ensures dst[off..off + |src|] == src
    ensures dst[off + |src|..] == old(dst[off + |src|..])
  {
    forall i | 0 <= i < |src| {
      dst[off + i] := src[i];
    }
  }
}
