/** The variable-information records of a lambda's syntax tree: a cell
    array `(name, type, flags)` whose third cell is a boxed machine integer
    carrying one bit per property of the variable. */
module VarInfo {

  /** A cell of the record. Only the boxed integer in the flags cell is read
      here; every other cell is opaque. */
  datatype Cell = Long(bits: bv64) | Opaque(id: nat)

  /** A record whose flags cell (index 2) holds a boxed integer: what
      jl_vinfo_* need before `jl_unbox_long(jl_cellref(vi,2))` is defined. */
  predicate HasFlags(vi: seq<Cell>)
  {
    |vi| > 2 && vi[2].Long?
  }

  function Flags(vi: seq<Cell>): bv64
    requires HasFlags(vi)
  {
    vi[2].bits
  }

  /** jl_vinfo_capt: bit 0, the variable is captured by an inner function. */
  predicate IsCaptured(vi: seq<Cell>)
    requires HasFlags(vi)
  {
    Flags(vi) & 1 != 0
  }

  /** jl_vinfo_assigned: bit 1, the variable is assigned. */
  predicate IsAssigned(vi: seq<Cell>)
    requires HasFlags(vi)
  {
    Flags(vi) & 2 != 0
  }

  /** jl_vinfo_assigned_inner: bit 2, the variable is assigned by an inner
      function. */
  predicate IsAssignedInner(vi: seq<Cell>)
    requires HasFlags(vi)
  {
    Flags(vi) & 4 != 0
  }

  /** The flags word for the three properties, with `rest` in the bits above
      them: the layout the three tests decode. */
  function FlagWord(capt: bool, wasAssigned: bool, assignedInner: bool, rest: bv64): bv64
  {
    (if capt then 1 else 0) | (if wasAssigned then 2 else 0) | (if assignedInner then 4 else 0) | (rest << 3)
  }

  /** Decoding a record built with FlagWord gives back the three properties,
      whatever the other cells and the higher bits hold. */
  lemma FlagsRoundTrip(name: Cell, ty: Cell, capt: bool, wasAssigned: bool, assignedInner: bool, rest: bv64)
    ensures var vi := [name, ty, Long(FlagWord(capt, wasAssigned, assignedInner, rest))];
      HasFlags(vi) &&
      IsCaptured(vi) == capt && IsAssigned(vi) == wasAssigned && IsAssignedInner(vi) == assignedInner
  {
  }

  /** Each test reads its own bit only: flipping one of the three bits
      changes exactly the test that reads it. */
  lemma FlagsIndependent(vi: seq<Cell>, k: bv64)
    requires HasFlags(vi) && (k == 1 || k == 2 || k == 4)
    ensures var w := vi[2 := Long(Flags(vi) ^ k)];
      HasFlags(w) &&
      (IsCaptured(w) != IsCaptured(vi) <==> k == 1) &&
      (IsAssigned(w) != IsAssigned(vi) <==> k == 2) &&
      (IsAssignedInner(w) != IsAssignedInner(vi) <==> k == 4)
  {
  }
}
