/** The argument-count checks that built-in functions written in C perform
    on entry (JL_NARGS and JL_NARGSV). Raising the arity error is modelled
    as a result value naming the bound that was violated. */
module Arity {

  datatype ArgCheck = ArgsOk | TooFewArgs(min: nat) | TooManyArgs(max: nat)

  /** JL_NARGS(fname, min, max): too few arguments is checked first, then too
      many; otherwise the call proceeds. */
  function NArgs(nargs: nat, min: nat, max: nat): (r: ArgCheck)
    ensures r == ArgsOk <==> min <= nargs <= max
    ensures r.TooFewArgs? <==> nargs < min
    ensures r.TooFewArgs? ==> r.min == min
    ensures r.TooManyArgs? ==> r.max == max && max < nargs
  {
    if nargs < min then TooFewArgs(min)
    else if nargs > max then TooManyArgs(max)
    else ArgsOk
  }

  /** JL_NARGSV(fname, min): a variadic built-in checks the lower bound only. */
  function NArgsV(nargs: nat, min: nat): (r: ArgCheck)
    ensures r == ArgsOk <==> min <= nargs
    ensures !r.TooManyArgs?
  {
    if nargs < min then TooFewArgs(min) else ArgsOk
  }

  /** The variadic check is the bounded check with an upper bound that the
      call never exceeds. */
  lemma VariadicCheckIsUnbounded(nargs: nat, min: nat, max: nat)
    requires nargs <= max
    ensures NArgsV(nargs, min) == NArgs(nargs, min, max)
  {
  }
}
