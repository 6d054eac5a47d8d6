# The control state and layout rules of `julia.h`

This project models the logic that the runtime header `src/julia.h` of the
Julia language states outright. It covers three things.

- **The runtime control state.** Three pieces of global state:
  - the collector's root-frame chain `jl_pgcstack`;
  - the current task's handler chain `eh`;
  - the signal-deferral counter `jl_defer_signal`, together with `jl_signal_pending`.

  The macros and inline functions that change it are JL_GC_PUSH, JL_GC_PUSHARGS, JL_GC_POP, JL_SIGATOMIC_BEGIN/END, `jl_eh_restore_state`, and the JL_TRY / JL_CATCH / JL_EH_POP protected regions.
- **Layout arithmetic.** The array header's dimension words (`jl_array_ndimwords`), NWORDS, the tuple slot layout, and the flag bits of a variable-information record.
- **Checks.** The type classification predicates (`jl_is_bitstype`, `jl_is_structtype`, `jl_isbits`, `jl_is_abstracttype`) and the arity checks JL_NARGS / JL_NARGSV.

Modules:

- `Layout` (`layout.dfy`): `jl_array_ndimwords` for both word sizes, the inline data offset, and NWORDS. Each is an integer function over the range of its C operand type. NWORDS has its `size_t` wrap-around written out. The conversions of results that cannot be reached for real arrays are listed under "Left out". The tuple object is a sequence of words. `jl_tupleset` is a method on an array of words.
- `VarInfo` (`varinfo.dfy`): the `jl_vinfo_*` bit tests on the boxed flags cell.
- `Arity` (`arity.dfy`): JL_NARGS and JL_NARGSV. Raising the arity error becomes a result value.
- `TypePredicates` (`types.dfy`): the DataType fields that the predicates read, the predicates, and the lemmas relating them.
- `GcFrames` (`gcframes.dfy`): the root-frame chain as a linked list of frames. Each frame has its `nroots` word, the two `nroots` encodings, and the shape relations "is a tail of" and "has k frames on top of".
- `ControlState` (`control.dfy`): the control state as a value. Each macro is a step function from state to state.
- `Protected` (`protected.dfy`): C code that uses the macros, as a small statement language with an interpreter. JL_TRY / JL_CATCH is modelled with `setjmp`/`longjmp` abstracted to a normal path and a catch path.
  - A throw goes to the handler that is current when it happens. It is caught by the region whose record that handler is, if that region is still running. A region that has ended is never entered again (see `Protected.Exec` under "Left out").
  - JL_TRY declares its record `__eh` in the block where it is written. JL_EH_POP names the record in scope: that of the region whose body or handler it is in, or that of the last region written earlier in the same block. Braced blocks are statements of their own, and a region's `__eh` goes out of scope at the closing brace.
  - `break` and `continue` inside a region's body or handler act on the region's own `for` loop. `continue` in the body runs the loop step and its restore. `break` skips it.
  - The main theorem covers code that follows the rooting discipline (balanced pushes and pops, balanced deferred sections, regions left only through their end). Such code always ends a region with the root frames and handler it began with. A throw that escapes carries the entry handler, with the entry frames still a tail of the chain. No signal is raised inside an enclosing deferred section.
- `Runtime` (`runtime.dfy`): the class `Control`, whose fields are the globals. The macros are its methods.
  - Each method is proved to reach the state that its step function in `ControlState` computes.
  - `TryCatch` keeps the two `for` loops of JL_TRY and JL_CATCH, with their flag variables. It is proved to end where the interpreter ends.

## Model

| member | source | states |
|---|---|---|
| Layout.NdimWords64 | src/julia.h:124-133 | 64-bit `jl_array_ndimwords`: the count is even (16-byte alignment), it is 0 for at most two dimensions, and it lies between `ndims-2` and `ndims-1` otherwise |
| Layout.NdimWords32 | src/julia.h:124-133 | 32-bit `jl_array_ndimwords`: the count is congruent to 1 mod 4, and it lies between `ndims-2` and `ndims+1` |
| Layout.InlineDataOffset64 | src/julia.h:135-138 | the inline data offset `ndimwords*8` is a multiple of 16, and it is 0 for at most two dimensions |
| Layout.InlineDataOffset32 | src/julia.h:135-138 | the 32-bit offset `ndimwords*4` is 4 more than a multiple of 16 |
| Layout.NWords64 | src/julia.h:452-453 | NWORDS on 64-bit is the ceiling of `sz/8` (`sz <= 8r < sz+8`) unless `sz+7` wraps in `size_t`, in which case it is 0 |
| Layout.NWords32 | src/julia.h:454-456 | NWORDS on 32-bit is the ceiling of `sz/4` unless `sz+3` wraps, in which case it is 0 |
| Layout.TupleObject | src/julia.h:60-69 | the `jl_tuple_t` layout `[type, length, data...]` is a well-formed tuple of the right length, and `jl_tupleref` reads each element back at its index |
| Layout.TupleSet | src/julia.h:470-471 | `jl_tupleset` writes word `2+i` in place; the tuple stays well formed with the same length, slot `i` reads back `x`, and every other slot is unchanged |
| Layout.TupleSetThenRef | src/julia.h:470-471 | reading after a set gives the stored word at the written index and the old element elsewhere |
| Layout.TupleLen | src/julia.h:547 | `jl_tuple_len` reads the length word; `TupleObject` and `TupleSet` state its value |
| Layout.TupleRef | src/julia.h:470 | `jl_tupleref` reads word `2+i`; `TupleObject` and `TupleSetThenRef` state what it returns |
| VarInfo.IsCaptured | src/julia.h:982-985 | `jl_vinfo_capt`, bit 0 of the flags; stated by `FlagsRoundTrip` and `FlagsIndependent` |
| VarInfo.IsAssigned | src/julia.h:987-990 | `jl_vinfo_assigned`, bit 1 of the flags; stated by `FlagsRoundTrip` and `FlagsIndependent` |
| VarInfo.IsAssignedInner | src/julia.h:992-995 | `jl_vinfo_assigned_inner`, bit 2 of the flags; stated by `FlagsRoundTrip` and `FlagsIndependent` |
| VarInfo.FlagsRoundTrip | src/julia.h:982-995 | the three flag tests decode the capture, assigned and assigned-inner bits of a flags word, whatever the other cells and higher bits hold |
| VarInfo.FlagsIndependent | src/julia.h:982-995 | flipping bit 0, 1 or 2 of the flags (mask 1, 2 or 4) changes exactly the one test that reads that bit |
| Arity.NArgs | src/julia.h:1007-1009 | JL_NARGS passes if and only if `min <= nargs <= max`; too few is reported (with `min`) if and only if `nargs < min`, and too many only above `max` |
| Arity.NArgsV | src/julia.h:1011-1012 | JL_NARGSV passes if and only if `min <= nargs`, and never reports too many |
| Arity.VariadicCheckIsUnbounded | src/julia.h:1007-1012 | when the count is within `max`, JL_NARGSV and JL_NARGS agree |
| TypePredicates.IsDataType | src/julia.h:504 | `jl_is_datatype`: the type tag is the DataType type |
| TypePredicates.IsMutableDataType | src/julia.h:509 | `jl_is_mutable_datatype`; related to the others by `IsBitsFlags` and `NonDataTypeIsUnclassified` |
| TypePredicates.IsImmutableDataType | src/julia.h:512 | `jl_is_immutable_datatype`; related by `IsBitsFlags` and `ConcreteClassification` |
| TypePredicates.IsBitsType | src/julia.h:559-565 | `jl_is_bitstype`; characterised by `ConcreteClassification`, excluded by `BitsTypeExcludesStructType` |
| TypePredicates.IsStructType | src/julia.h:567-573 | `jl_is_structtype`; characterised by `ConcreteClassification` |
| TypePredicates.IsBits | src/julia.h:575-579 | `jl_isbits`; its consequences in `IsBitsFlags` |
| TypePredicates.IsAbstractType | src/julia.h:581-584 | `jl_is_abstracttype`; `AbstractTypeIsNotConcrete` |
| TypePredicates.BitsTypeExcludesStructType | src/julia.h:559-573 | no value is both a bits type and a struct type |
| TypePredicates.AbstractTypeIsNotConcrete | src/julia.h:559-584 | an abstract type is neither a bits type, nor a struct type, nor isbits |
| TypePredicates.IsBitsFlags | src/julia.h:575-579 | `jl_isbits` implies an immutable, pointer-free, non-abstract DataType |
| TypePredicates.ConcreteClassification | src/julia.h:559-573 | for a concrete DataType, struct type is equivalent to (names or size 0), and bits type to (immutable, no names, positive size); every concrete DataType is one of these or a mutable or negative-size nameless type |
| TypePredicates.NonDataTypeIsUnclassified | src/julia.h:504-512 | no predicate holds for a value whose type tag is not DataType |
| GcFrames.RootCount | src/julia.h:1022-1026 | the root count held in a frame's `nroots` word, `nroots>>1`; `EncodeIndirect` and `EncodeDirect` state that it decodes both encodings |
| GcFrames.IsIndirect | src/julia.h:1022-1026 | bit 0 of `nroots`, telling JL_GC_PUSH frames from JL_GC_PUSHARGS frames; `EncodeIndirect` and `EncodeDirect` state its value |
| GcFrames.EncodeIndirect | src/julia.h:1036-1039 | JL_GC_PUSH's `(n<<1)\|1` decodes to `n` roots and has the indirect bit set |
| GcFrames.EncodeDirect | src/julia.h:1041-1045 | JL_GC_PUSHARGS's `n<<1` decodes to `n` roots and has the indirect bit clear |
| GcFrames.EncodingsDistinct | src/julia.h:1036-1045 | the two encodings never collide, and each is injective in the count |
| GcFrames.OnTopOfIsTail | src/julia.h:1022-1026 | a chain with `k` frames on top of `base` has `base` as a tail and is `k` frames deeper |
| GcFrames.IsTailOfTransitive | src/julia.h:1022-1026 | following `prev` links composes: a tail of a tail is a tail |
| GcFrames.IsTailOfDepth | src/julia.h:1022-1026 | a tail is never deeper than the chain, and a tail of equal depth is the chain itself |
| ControlState.GcPushThenPop | src/julia.h:1036-1047 | the pushed frame links to the old top and records `n` indirect roots; JL_GC_POP after JL_GC_PUSH gives back the exact prior state; a push changes only `jl_pgcstack` |
| ControlState.GcPushArgsThenPop | src/julia.h:1041-1047 | the same for JL_GC_PUSHARGS with direct slots |
| ControlState.SigAtomicEndRaisesOnlyAtZero | src/julia.h:1092-1097 | JL_SIGATOMIC_END decrements the counter; it raises exactly when the counter reaches 0 with a signal pending, the raised signal is the pending one, and nothing else changes |
| ControlState.SigAtomicPair | src/julia.h:1091-1097 | a BEGIN/END pair leaves the counter unchanged, and raises the pending signal only if no section was already open |
| ControlState.EhRestoreStateEffect | src/julia.h:1188-1196 | `jl_eh_restore_state(eh)` sets the handler to `eh->prev` and the frames to `eh->gcstack`; the counter and pending signal are the same on exit; a signal is raised only if no section was open |
| ControlState.NewHandler | src/julia.h:1104-1110 | the installed record is a handler whose `prev` is the handler current at entry |
| ControlState.EnterThenRestore | src/julia.h:1188-1198 | restoring the record just entered gives back the entry handler and root frames, whatever happened in between |
| ControlState.GcPush | src/julia.h:1036-1039 | JL_GC_PUSH as a step: a frame with `(n<<1)\|1` and `prev` the old top becomes the top; its laws are in `GcPushThenPop` |
| ControlState.GcPushArgs | src/julia.h:1041-1045 | JL_GC_PUSHARGS as a step with `n<<1`; laws in `GcPushArgsThenPop` |
| ControlState.GcPop | src/julia.h:1047 | JL_GC_POP as a step, defined only on a non-empty chain; laws in `GcPushThenPop` |
| ControlState.SigAtomicBegin | src/julia.h:1091 | JL_SIGATOMIC_BEGIN as a step; laws in `SigAtomicPair` |
| ControlState.SigAtomicEnd | src/julia.h:1092-1097 | JL_SIGATOMIC_END as a step; laws in `SigAtomicEndRaisesOnlyAtZero` and `SigAtomicPair` |
| ControlState.EhRestoreState | src/julia.h:1188-1196 | `jl_eh_restore_state` as a step; laws in `EhRestoreStateEffect` and `EnterThenRestore` |
| ControlState.EnterHandler | src/julia.h:1198 | `jl_enter_handler` as a step that makes `NewHandler` current; laws in `EnterThenRestore` |
| Protected.Exec | src/julia.h:1218-1234 | the semantics of a block of C code using the macros, with JL_EH_POP restoring the `__eh` in scope; its laws are `ExecAppend`, `ExecBalanced` and `EhPopAfterRegion` |
| Protected.ScopeAfter | src/julia.h:1219 | after a block completes, the `__eh` in scope is that of the last region written at the block's own level, or the one in force before it if the block writes none there; whether a `for` loop encloses the code is unchanged |
| Protected.ExecTry | src/julia.h:1218-1234 | the semantics of one JL_TRY / JL_CATCH region; its paths are `TryNormalPath`, `TryCatchPath`, `BreakKeepsHandler`, `ContinueRestores` |
| Protected.TryNormalPath | src/julia.h:1218-1222 | when the try body completes, exactly one restore follows; the region ends with the entry handler and root frames, and the handler chain is one shorter than after `jl_enter_handler` |
| Protected.TryCatchPath | src/julia.h:1232-1234 | when the body throws to this region, exactly one restore happens before the catch body runs once, from the entry handler and frames (one handler shorter than after entry); the region's outcome is the handler block's, with `break`/`continue` ending the JL_CATCH loop |
| Protected.CatchExit | src/julia.h:1232-1234 | leaving the JL_CATCH loop keeps the state; `break` and `continue` end the region as a completed handler does, and never escape it; a throw, a `return` or a fault from the handler passes out unchanged |
| Protected.ExecAppend | src/julia.h:1218-1234 | running `a` then `b` is running `a` and, only if it completed, `b` from where it left off, in the scope `a` leaves in force |
| Protected.ExecBalanced | src/julia.h:1218-1234 | code that keeps the rooting discipline never returns, breaks or continues out of a region, and never pops an empty chain; on completion it has the entry frames and handler; an escaping throw carries the entry handler, with the entry frames as a tail and a chain at least as deep; the counter never drops below its entry value and is exact for code that cannot throw; no signal is raised inside an enclosing deferred section |
| Protected.TryCatchBalanced | src/julia.h:1218-1234 | the same guarantees for a block that starts with a protected region, on both paths |
| Protected.FrameStepBalanced | src/julia.h:1036-1047 | the same guarantees for a block that starts with a push or a pop |
| Protected.BlockBalanced | src/julia.h:1218-1234 | the same guarantees for a block that starts with a braced block |
| Protected.EhPopBeforeReturn | src/julia.h:1224 | for every body that completes, JL_EH_POP then `return` leaves the function through exactly one restore of the `__eh` in scope; when the body writes no region at its own level (including one that leaves frames pushed or holds braced regions that catch their own throws), that leaves the entry handler and root frames |
| Protected.EhPopAfterRegion | src/julia.h:1219-1224 | JL_EH_POP after a completed region of the same block restores that region's record once more, giving back the region's entry handler and root frames (at top level a second restore, after `break` the one that uninstalls the record) |
| Protected.EhPopAfterNestedRegion | src/julia.h:1219-1224 | with an unbraced nested region, JL_EH_POP in the enclosing body restores the nested record, so `return` leaves with the enclosing region's handler still installed |
| Protected.ReturnWithoutEhPopKeepsHandler | src/julia.h:1218-1222 | for every balanced body that completes, a `return` without JL_EH_POP skips the restore and leaves the region's handler installed |
| Protected.NestedCatchCompletes | src/julia.h:1218-1234 | a body holding a braced region that catches its own throw is balanced, writes no region at its own level and completes, so `EhPopBeforeReturn` and `ReturnWithoutEhPopKeepsHandler` cover it |
| Protected.BreakKeepsHandler | src/julia.h:1218-1222 | a `break` after a balanced, completed body leaves the JL_TRY loop without its step: the region ends normally with its own handler still installed and the entry frames |
| Protected.ContinueRestores | src/julia.h:1218-1222 | a `continue` after a completed body runs the loop step: exactly one restore, ending with the entry handler and root frames whatever the body left pushed |
| Protected.ThrowInsideDeferredSection | src/julia.h:1104-1110 | the handler record does not save `jl_defer_signal`: a throw from inside a deferred section is caught with the counter still raised, and the pending signal is not delivered |
| Runtime.Control.constructor | src/julia.h:1034 | an empty root chain, no handler, and both counters 0 |
| Runtime.Control.GcPush | src/julia.h:1036-1039 | in place, the state becomes `ControlState.GcPush` of the old state |
| Runtime.Control.GcPushArgs | src/julia.h:1041-1045 | in place, the state becomes `ControlState.GcPushArgs` of the old state |
| Runtime.Control.GcPop | src/julia.h:1047 | in place, the state becomes `ControlState.GcPop` of the old state |
| Runtime.Control.SigAtomicBegin | src/julia.h:1091 | in place, the counter increment |
| Runtime.Control.SigAtomicEnd | src/julia.h:1092-1097 | in place, the decrement and the conditional raise |
| Runtime.Control.EhRestoreState | src/julia.h:1188-1196 | in place, the restore inside a deferred section |
| Runtime.Control.EnterHandler | src/julia.h:1198 | installs and returns the record of the current frames and handler |
| Runtime.Control.Run | src/julia.h:1218-1234 | running a block on the object, in a given scope, gives the interpreter's outcome and leaves the object in the outcome's state |
| Runtime.Control.TryCatch | src/julia.h:1218-1234 | the two `for` loops of JL_TRY / JL_CATCH, run on the object, give exactly the region semantics `Protected.ExecTry` |

## Left out

- `jl_enter_handler`, `jl_throw` and `jl_pop_handler` are declared in `src/julia.h` but their bodies are not part of this model.
  - `jl_enter_handler` is modelled as installing a record of the current root chain and handler.
  - `jl_throw` is modelled as a jump to the current handler.
  - A throw with no handler installed is a `Fault` outcome.
  - If `jl_throw` resets `jl_defer_signal` itself, the model does not capture it.
- `setjmp`/`longjmp` and the jump buffer are abstracted to the two paths of a region.
- The exception value and `jl_exception_in_transit` are not modelled.
- The Windows stack-overflow reset in JL_CATCH is not modelled.
- Task switching (`jl_switchto`) and the per-task saved `gcstack` are left out. So are the collector, subtyping, dispatch, I/O, dynamic loading, the front end, and float boxing. In this header they are declarations only.
- The contents of root slots and the `alloca`'d frame storage are left out. Frames keep only their `nroots` word and `prev` link.
- Asynchronous arrival of a signal and the handler that sets or clears `jl_signal_pending` are left out. `raise` is recorded as an event.
- The `OVERLAP_TUPLE_LEN` layout (`src/julia.h:31-43`, `466-468`) is disabled in the header. Only the `2+i` layout is modelled.
- Protected.Exec: a region left by `break` keeps its record current, and the model does not take a later throw to that record back into the region's JL_CATCH. In C the `longjmp` would re-enter the still-live `__eh` of the enclosing block, restore, run the handler and then the code after it again. In the model the throw passes the ended region, so `[TryCatch([Break], []), Throw]` ends `Thrown`. Two paths per region cannot express re-entering a region that has ended. Records are also compared by value, not by address: a stale record equal to that of an enclosing region that is still running is caught by that region. For example, `[EhPop, TryCatch([Break], []), Throw]` in a region's body, after the region's own JL_EH_POP, ends in that region's JL_CATCH, which C would not run.
- Layout.NdimWords32: the result is returned as a `u32`. The C function returns `int`, and `(ndims & -4) + 1` exceeds `INT_MAX` for `ndims >= 2^31`. The conversion is not modelled, because `ndims` is a 14-bit field of `jl_array_t` (`src/julia.h:94`), so such values never reach it from an array.
- GcFrames.EncodeDirect: works on unbounded naturals. JL_GC_PUSHARGS stores `((size_t)n)<<1`, which loses the top bit for `n >= 2^63`. That case is not modelled, because the `alloca` of `n+2` words cannot succeed for such `n`.
- Layout.NdimWords64: the result is returned as an unbounded integer. The conversion to the C `int` return type is not modelled, because `ndims` is a 14-bit field of `jl_array_t` (`src/julia.h:94`), so the result is far below `INT_MAX` for every array.
- Layout.InlineDataOffset64: pointer arithmetic is modelled as a byte offset from `_space`.
- VarInfo: only the 64-bit `jl_unbox_long` (a 64-bit word) is modelled. The boxing of the flags cell and the cell array are abstracted to a sequence of cells.
- Arity: `jl_too_few_args` / `jl_too_many_args` throw. Here they are result values, and the function name argument is dropped.
