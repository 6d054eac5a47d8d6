/** The collector's root-frame chain. `jl_pgcstack` points at the innermost
    frame; each frame holds its encoded root count and a link to the frame
    that was on top when it was pushed. A frame's header words never change
    after the push, so a pointer into the chain is modelled as the list of
    frames it heads. */
module GcFrames {

  /** `Empty` is the NULL at the bottom of the chain. */
  datatype FrameList = Empty | Frame(nroots: nat, prev: FrameList)

  // ---------------------------------------------------------------------
  // The nroots word: count in the high bits, slot kind in bit 0
  // ---------------------------------------------------------------------

  /** The number of roots a frame holds: `nroots >> 1`. */
  function RootCount(nroots: nat): nat
  {
    nroots / 2
  }

  /** Bit 0 of `nroots`: set when the slots hold addresses of the roots
      (JL_GC_PUSH), clear when they hold the roots themselves
      (JL_GC_PUSHARGS). */
  predicate IsIndirect(nroots: nat)
  {
    nroots % 2 == 1
  }

  /** The word JL_GC_PUSH stores for `n` root addresses: `(n<<1)|1`. */
  function EncodeIndirect(n: nat): (w: nat)
    ensures RootCount(w) == n && IsIndirect(w)
  {
    2 * n + 1
  }

  /** The word JL_GC_PUSHARGS stores for `n` root slots: `n<<1`. */
  function EncodeDirect(n: nat): (w: nat)
    ensures RootCount(w) == n && !IsIndirect(w)
  {
    2 * n
  }

  /** The two encodings never collide, and each determines its count. */
  lemma EncodingsDistinct(n: nat, m: nat)
    ensures EncodeIndirect(n) != EncodeDirect(m)
    ensures EncodeIndirect(n) == EncodeIndirect(m) <==> n == m
    ensures EncodeDirect(n) == EncodeDirect(m) <==> n == m
  {
  }

  // ---------------------------------------------------------------------
  // Shape of the chain
  // ---------------------------------------------------------------------

  /** The number of frames in the chain. */
  function Depth(g: FrameList): nat
  {
    if g.Empty? then 0 else 1 + Depth(g.prev)
  }

  /** `base` is reached from `g` by following `prev` links zero or more
      times: every frame of `g` above `base` was pushed after `base` was the
      top. */
  predicate IsTailOf(base: FrameList, g: FrameList)
  {
    g == base || (g.Frame? && IsTailOf(base, g.prev))
  }

  /** `g` is `base` with exactly `k` more frames on top of it. */
  predicate OnTopOf(g: FrameList, k: nat, base: FrameList)
  {
    if k == 0 then g == base else g.Frame? && OnTopOf(g.prev, k - 1, base)
  }

  /** A chain with `k` frames on top of `base` has `base` as a tail and is
      exactly `k` frames deeper. */
  lemma {:induction false} OnTopOfIsTail(g: FrameList, k: nat, base: FrameList)
    requires OnTopOf(g, k, base)
    ensures IsTailOf(base, g) && Depth(g) == Depth(base) + k
  {
    if k > 0 {
      OnTopOfIsTail(g.prev, k - 1, base);
    }
  }

  /** Being a tail is transitive. */
  lemma {:induction false} IsTailOfTransitive(a: FrameList, b: FrameList, c: FrameList)
    requires IsTailOf(a, b) && IsTailOf(b, c)
    ensures IsTailOf(a, c)
  {
    if c != b {
      IsTailOfTransitive(a, b, c.prev);
    }
  }

  /** A tail is never deeper than the chain, and a tail of the same depth is
      the chain itself. */
  lemma {:induction false} IsTailOfDepth(base: FrameList, g: FrameList)
    requires IsTailOf(base, g)
    ensures Depth(base) <= Depth(g)
    ensures Depth(base) == Depth(g) ==> base == g
  {
    if g != base {
      IsTailOfDepth(base, g.prev);
    }
  }
}
