/** Flag bytes: several one-bit flags packed into a byte and read back by
    masking. A group of flags is the sequence of its values together with
    the sequence of the masks that select them. */
module Flags {
  import opened Bytes

  /** Bitwise and of two bytes. Quantified statements below use this name
      rather than the operator, which gives the solver a term to match on. */
  function And(x: byte, m: byte): (b: byte)
  {
    x & m
  }

  /** The byte that carries all `flags`: their bitwise or. */
  function OrAll(flags: seq<byte>): (b: byte)
  {
    OrUpTo(flags, |flags|)
  }

  /** The bitwise or of the first `n` flags. */
  function OrUpTo(flags: seq<byte>, n: nat): (b: byte)
    requires n <= |flags|
  {
    if n == 0 then 0 else OrUpTo(flags, n - 1) | flags[n - 1]
  }

  /** The byte `x` under each mask in turn, as `convertState` reads a group. */
  function MaskEach(x: byte, masks: seq<byte>): (flags: seq<byte>)
    ensures |flags| == |masks|
    ensures forall i :: 0 <= i < |masks| ==> flags[i] == And(x, masks[i])
  {
    seq(|masks|, i requires 0 <= i < |masks| => And(x, masks[i]))
  }

  /** A mask with exactly one bit set. */
  predicate Bit(m: byte)
  {
    m != 0 && m & (m - 1) == 0
  }

  /** No two masks of the group share a bit. */
  predicate Disjoint(masks: seq<byte>)
  {
    forall i, j :: 0 <= i < |masks| && 0 <= j < |masks| && i != j ==> And(masks[i], masks[j]) == 0
  }

  /** The masks of a flag byte: single bits, pairwise distinct. */
  predicate FlagMasks(masks: seq<byte>)
  {
    (forall i :: 0 <= i < |masks| ==> Bit(masks[i])) && Disjoint(masks)
  }

  /** Each flag holds only bits of its own mask. */
  predicate Within(flags: seq<byte>, masks: seq<byte>)
  {
    |flags| == |masks| && forall i :: 0 <= i < |flags| ==> And(flags[i], masks[i]) == flags[i]
  }

  /** A byte under a mask holds only bits of the mask. */
  lemma MaskEachWithin(x: byte, masks: seq<byte>)
    ensures Within(MaskEach(x, masks), masks)
  {
  }

  /** Masking each flag and or-ing the results is masking with the or of the
      masks: the value a group of masked reads packs back into. */
  lemma OrMaskEach(x: byte, masks: seq<byte>)
    ensures OrAll(MaskEach(x, masks)) == And(x, OrAll(masks))
  {
    OrMaskEachUpTo(x, masks, |masks|);
  }

  lemma {:induction false} OrMaskEachUpTo(x: byte, masks: seq<byte>, n: nat)
    requires n <= |masks|
    ensures OrUpTo(MaskEach(x, masks), n) == And(x, OrUpTo(masks, n))
  {
    if n == 0 {
      AndZero(x);
    } else {
      OrMaskEachUpTo(x, masks, n - 1);
      Distribute(x, OrUpTo(masks, n - 1), masks[n - 1]);
    }
  }

  lemma AndZero(x: byte)
    ensures And(x, 0) == 0
  {
  }

  lemma Distribute(x: byte, a: byte, b: byte)
    ensures And(x, a) | And(x, b) == And(x, a | b)
  {
  }

  /** The first `n` flags, each within its mask, have no bit in a mask
      disjoint from all of their masks. */
  lemma {:induction false} OrUpToOutside(flags: seq<byte>, masks: seq<byte>, n: nat, m: byte)
    requires Within(flags, masks) && n <= |flags|
    requires forall j :: 0 <= j < n ==> And(masks[j], m) == 0
    ensures And(OrUpTo(flags, n), m) == 0
  {
    if n == 0 {
      AndZeroLeft(m);
    } else {
      OrUpToOutside(flags, masks, n - 1, m);
      Outside(flags[n - 1], masks[n - 1], m);
      BothOutside(OrUpTo(flags, n - 1), flags[n - 1], m);
    }
  }

  lemma AndZeroLeft(m: byte)
    ensures And(0, m) == 0
  {
  }

  lemma Outside(v: byte, own: byte, m: byte)
    requires And(v, own) == v && And(own, m) == 0
    ensures And(v, m) == 0
  {
  }

  lemma BothOutside(a: byte, b: byte, m: byte)
    requires And(a, m) == 0 && And(b, m) == 0
    ensures And(a | b, m) == 0
  {
  }

  /** Packing flags that lie within pairwise disjoint masks into one byte and
      masking the byte again gives every flag back. */
  lemma SeparateFlags(flags: seq<byte>, masks: seq<byte>)
    requires Within(flags, masks) && Disjoint(masks)
    ensures forall i :: 0 <= i < |flags| ==> And(OrAll(flags), masks[i]) == flags[i]
  {
    forall i | 0 <= i < |flags|
      ensures And(OrAll(flags), masks[i]) == flags[i]
    {
      SeparateUpTo(flags, masks, |flags|, i);
    }
  }

  lemma {:induction false} SeparateUpTo(flags: seq<byte>, masks: seq<byte>, n: nat, i: nat)
    requires Within(flags, masks) && Disjoint(masks) && i < n <= |flags|
    ensures And(OrUpTo(flags, n), masks[i]) == flags[i]
  {
    if i == n - 1 {
      OrUpToOutside(flags, masks, n - 1, masks[i]);
      IgnoreLeft(OrUpTo(flags, n - 1), flags[i], masks[i]);
    } else {
      SeparateUpTo(flags, masks, n - 1, i);
      Outside(flags[n - 1], masks[n - 1], masks[i]);
      IgnoreRight(OrUpTo(flags, n - 1), flags[n - 1], masks[i]);
    }
  }

  lemma IgnoreLeft(a: byte, b: byte, m: byte)
    requires And(a, m) == 0
    ensures And(a | b, m) == And(b, m)
  {
  }

  lemma IgnoreRight(a: byte, b: byte, m: byte)
    requires And(b, m) == 0
    ensures And(a | b, m) == And(a, m)
  {
  }

  /** Every mask is part of the union of the group's masks. */
  lemma InUnion(masks: seq<byte>, i: nat)
    requires i < |masks|
    ensures And(OrAll(masks), masks[i]) == masks[i]
  {
    InUnionUpTo(masks, |masks|, i);
  }

  lemma {:induction false} InUnionUpTo(masks: seq<byte>, n: nat, i: nat)
    requires i < n <= |masks|
    ensures And(OrUpTo(masks, n), masks[i]) == masks[i]
  {
    if i == n - 1 {
      UnionLeft(masks[i], OrUpTo(masks, n - 1));
    } else {
      InUnionUpTo(masks, n - 1, i);
      UnionRight(masks[n - 1], OrUpTo(masks, n - 1), masks[i]);
    }
  }

  lemma UnionLeft(a: byte, b: byte)
    ensures And(b | a, a) == a
  {
  }

  lemma UnionRight(a: byte, b: byte, m: byte)
    requires And(b, m) == m
    ensures And(b | a, m) == m
  {
  }

  lemma MaskUnder(x: byte, u: byte, m: byte)
    requires And(u, m) == m
    ensures And(And(x, u), m) == And(x, m)
  {
  }

  /** Reading a flag from a byte already cut down to the union of the
      group's masks reads the same flag as from the whole byte. */
  lemma UnderUnion(x: byte, masks: seq<byte>)
    ensures forall i :: 0 <= i < |masks| ==> And(And(x, OrAll(masks)), masks[i]) == And(x, masks[i])
  {
    forall i | 0 <= i < |masks|
      ensures And(And(x, OrAll(masks)), masks[i]) == And(x, masks[i])
    {
      InUnion(masks, i);
      MaskUnder(x, OrAll(masks), masks[i]);
    }
  }

  /** Cutting a byte down to the union of a group's masks first does not
      change any flag read from it. */
  lemma MaskEachUnder(x: byte, masks: seq<byte>)
    ensures MaskEach(And(x, OrAll(masks)), masks) == MaskEach(x, masks)
  {
    UnderUnion(x, masks);
  }

  /** Reading a group back from the or of its flags gives the flags. */
  lemma MaskEachOrAll(flags: seq<byte>, masks: seq<byte>)
    requires Within(flags, masks) && Disjoint(masks)
    ensures MaskEach(OrAll(flags), masks) == flags
  {
    SeparateFlags(flags, masks);
  }
}
