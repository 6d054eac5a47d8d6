/** Word-level layout arithmetic of the runtime's object headers: the
    dimension words of an array header, the round-up of a byte size to
    machine words, and the slot layout of a tuple object.

    Sizes that the C code computes in `uint32_t` or `size_t` are integers
    in that type's range; bit masks with a power of two are written as the
    rounding they perform, and the wrap-around of `size_t` is explicit. */
module Layout {

  /** The C integer types of the operands, as ranges of the unbounded
      integers; wrap-around is written out where the C expression can wrap. */
  type u32 = x: int | 0 <= x < 0x1_0000_0000
  type u64 = x: int | 0 <= x < 0x1_0000_0000_0000_0000

  /** `x & -m` on an unsigned operand, for `m` a power of two: the low bits of
      `x` below `m` are cleared, which rounds `x` down to a multiple of `m`. */
  function ClearLowBits(x: nat, m: nat): nat
    requires m == 2 || m == 4
  {
    x - x % m
  }

  // ---------------------------------------------------------------------
  // Array header: words reserved for the dimensions beyond nrows/ncols
  // ---------------------------------------------------------------------

  /** jl_array_ndimwords on a 64-bit build: `ndims == 0 ? 0 : (ndims-1) & -2`.
      The count of extra header words is even, so that the inline data that
      follows stays 16-byte aligned, and it leaves room for every dimension
      beyond the two stored in `nrows` and `ncols`. */
  function NdimWords64(ndims: u32): (r: nat)
    ensures r % 2 == 0
    ensures ndims <= 2 ==> r == 0
    ensures ndims >= 1 ==> ndims - 2 <= r <= ndims - 1
  {
    if ndims == 0 then 0 else ClearLowBits(ndims - 1, 2)
  }

  /** jl_array_ndimwords on a 32-bit build: `(ndims & -4) + 1`. The count is
      one more than `ndims` rounded down to a multiple of four, so it is
      congruent to 1 modulo 4, and it too leaves room for the dimensions
      beyond the first two. No wrap-around is possible: `ndims & -4` is at
      most 0xFFFF_FFFC. */
  function NdimWords32(ndims: u32): (r: u32)
    ensures r % 4 == 1
    ensures ndims - 3 <= r - 1 <= ndims
  {
    ClearLowBits(ndims, 4) + 1
  }

  /** jl_array_inline_data_area on a 64-bit build, as a byte offset from the
      start of `_space`: `ndimwords * sizeof(size_t)`. The offset is a
      multiple of 16 and is zero for arrays of at most two dimensions. */
  function InlineDataOffset64(ndims: u32): (off: nat)
    ensures off % 16 == 0
    ensures ndims <= 2 ==> off == 0
  {
    NdimWords64(ndims) * 8
  }

  /** jl_array_inline_data_area on a 32-bit build: `ndimwords * 4` bytes,
      which is 4 more than a multiple of 16. */
  function InlineDataOffset32(ndims: u32): (off: nat)
    ensures off % 16 == 4
  {
    NdimWords32(ndims) * 4
  }

  // ---------------------------------------------------------------------
  // NWORDS: a byte size rounded up to whole machine words
  // ---------------------------------------------------------------------

  /** NWORDS on a 64-bit build: `((sz)+7)>>3` in `size_t`. For every size
      whose `sz + 7` does not wrap, the result is the ceiling of `sz / 8`;
      the seven largest sizes wrap around and give 0. */
  function NWords64(sz: u64): (r: nat)
    ensures sz + 7 < 0x1_0000_0000_0000_0000 ==> sz <= r * 8 < sz + 8
    ensures sz + 7 >= 0x1_0000_0000_0000_0000 ==> r == 0
  {
    ((sz + 7) % 0x1_0000_0000_0000_0000) / 8
  }

  /** NWORDS on a 32-bit build: `((sz)+3)>>2` in `size_t`: the ceiling of
      `sz / 4`, except for the three largest sizes, which wrap to 0. */
  function NWords32(sz: u32): (r: nat)
    ensures sz + 3 < 0x1_0000_0000 ==> sz <= r * 4 < sz + 4
    ensures sz + 3 >= 0x1_0000_0000 ==> r == 0
  {
    ((sz + 3) % 0x1_0000_0000) / 4
  }

  // ---------------------------------------------------------------------
  // Tuple objects: [type, length, data[0], data[1], ...]
  // ---------------------------------------------------------------------

  /** A pointer-sized slot of an object; pointers are abstracted to naturals. */
  type Word = nat

  /** The words of a `jl_tuple_t` (with the length in its own word, the layout
      in use): the type tag, the length, then exactly `length` element slots. */
  predicate IsTuple(t: seq<Word>)
  {
    |t| >= 2 && t[1] == |t| - 2
  }

  /** jl_tuple_len: the length word. */
  function TupleLen(t: seq<Word>): nat
    requires |t| >= 2
  {
    t[1]
  }

  /** jl_tupleref: element `i` lives in word `2+i`. The macro does no bounds
      check, so an index within the length is the caller's obligation. */
  function TupleRef(t: seq<Word>, i: nat): Word
    requires IsTuple(t) && i < TupleLen(t)
  {
    t[2 + i]
  }

  /** The words of a tuple object of type `ty` holding `elems`, laid out as
      `jl_tuple_t` declares; reading it back with jl_tupleref gives each
      element at its own index. */
  function TupleObject(ty: Word, elems: seq<Word>): (t: seq<Word>)
    ensures IsTuple(t) && TupleLen(t) == |elems| && t[0] == ty
    ensures forall i :: 0 <= i < |elems| ==> TupleRef(t, i) == elems[i]
  {
    [ty, |elems|] + elems
  }

  /** jl_tupleset: store `x` into element `i` of the tuple in place. The
      type tag and length words and every other element are untouched. */
  method TupleSet(t: array<Word>, i: nat, x: Word)
    requires IsTuple(t[..]) && i < TupleLen(t[..])
    modifies t
    ensures t[..] == old(t[..])[2 + i := x]
    ensures IsTuple(t[..]) && TupleLen(t[..]) == old(TupleLen(t[..]))
    ensures TupleRef(t[..], i) == x
    ensures forall j :: 0 <= j < TupleLen(t[..]) && j != i ==> TupleRef(t[..], j) == old(TupleRef(t[..], j))
  {
    t[2 + i] := x;
  }

  /** Reading a slot after jl_tupleset gives the stored word at the written
      index and the old element everywhere else. */
  lemma TupleSetThenRef(t: seq<Word>, i: nat, x: Word, j: nat)
    requires IsTuple(t) && i < TupleLen(t) && j < TupleLen(t)
    ensures IsTuple(t[2 + i := x]) && TupleLen(t[2 + i := x]) == TupleLen(t)
    ensures TupleRef(t[2 + i := x], j) == if i == j then x else TupleRef(t, j)
  {
  }
}
