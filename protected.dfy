/** Protected regions (JL_TRY / JL_CATCH / JL_EH_POP) and the discipline of
    root frames and deferred sections that C code around them follows.

    The C code that uses the macros is modelled as a small statement
    language; `Exec` runs a block on a control state. `setjmp`/`longjmp` are
    abstracted to two paths: a block either completes (`Normal`), or throws
    (`Thrown`): jl_throw jumps to the context of the handler that is current
    at that moment, so a thrown state is caught by the protected region
    whose own handler record is the current one, and passes by every other. */
module Protected {
  import opened GcFrames
  import CS = ControlState

  datatype Stmt =
    | Push(n: nat)           // JL_GC_PUSH with n root addresses
    | PushArgs(n: nat)       // JL_GC_PUSHARGS with n root slots
    | Pop                    // JL_GC_POP
    | SigBegin               // JL_SIGATOMIC_BEGIN
    | SigEnd                 // JL_SIGATOMIC_END
    | Throw                  // jl_throw: jump to the current handler
    | TryCatch(body: seq<Stmt>, handler: seq<Stmt>)   // JL_TRY body JL_CATCH handler
    | Block(inner: seq<Stmt>)  // a braced compound statement `{ inner }`
    | EhPop                  // JL_EH_POP: restore the `__eh` in scope
    | Return                 // leave the C function
    | Break                  // `break` out of the innermost JL_TRY or JL_CATCH for-loop
    | Continue               // `continue` in the innermost JL_TRY or JL_CATCH for-loop

  /** How a block ends. `Broke` and `Continued` leave the block for the
      for-loop of the innermost region. `Fault` stands for what the C code
      leaves undefined, fatal or ill-formed: popping an empty root chain,
      JL_EH_POP with no `__eh` in scope, `break` or `continue` outside any
      region's loop, throwing with no handler installed. */
  datatype Outcome =
    | Normal(st: CS.State)
    | Thrown(st: CS.State)
    | Returned(st: CS.State)
    | Broke(st: CS.State)
    | Continued(st: CS.State)
    | Fault(st: CS.State)

  /** What a statement sees of the C scopes around it. JL_TRY declares its
      record `__eh` in the block where it is written, so from the region to
      the end of that block JL_EH_POP names that region's record; inside the
      region's body and handler it names it too. `eh` is that record, or
      `NoHandler` where no `__eh` is in scope; `inLoop` tells whether the
      statement lies inside the for-loop of some region, which `break` and
      `continue` act on. The top level of a C function has the scope
      `Scope(NoHandler, false)`. */
  datatype Scope = Scope(eh: CS.EhChain, inLoop: bool)

  /** The scope of the body and the handler of the region whose record is
      `h`. */
  function InRegion(h: CS.EhChain): Scope
  {
    Scope(h, true)
  }

  /** A size measure for the recursion through nested blocks. */
  function Size(ss: seq<Stmt>): nat
  {
    if ss == [] then 0
    else 1 + Size(ss[1..]) + match ss[0]
      case TryCatch(b, c) => Size(b) + Size(c)
      case Block(b) => Size(b)
      case _ => 0
  }

  /** Run block `ss` from state `s` in scope `sc`. */
  function Exec(ss: seq<Stmt>, s: CS.State, sc: Scope): Outcome
    decreases Size(ss), 1
  {
    if ss == [] then Normal(s)
    else
      var rest := ss[1..];
      match ss[0]
      case Push(n) => Exec(rest, CS.GcPush(s, n), sc)
      case PushArgs(n) => Exec(rest, CS.GcPushArgs(s, n), sc)
      case Pop => if s.pgcstack.Empty? then Fault(s) else Exec(rest, CS.GcPop(s), sc)
      case SigBegin => Exec(rest, CS.SigAtomicBegin(s), sc)
      case SigEnd => Exec(rest, CS.SigAtomicEnd(s), sc)
      case Throw => if s.eh.NoHandler? then Fault(s) else Thrown(s)
      case EhPop => if sc.eh.NoHandler? then Fault(s) else Exec(rest, CS.EhRestoreState(s, sc.eh), sc)
      case Return => Returned(s)
      case Break => if !sc.inLoop then Fault(s) else Broke(s)
      case Continue => if !sc.inLoop then Fault(s) else Continued(s)
      case Block(b) =>
        // the block's own declarations go out of scope at its closing brace
        var r := Exec(b, s, sc);
        if r.Normal? then Exec(rest, r.st, sc) else r
      case TryCatch(b, c) =>
        // the region's `__eh` stays in scope for the rest of the block
        var r := ExecTry(b, c, s);
        if r.Normal? then Exec(rest, r.st, Scope(CS.NewHandler(s), sc.inLoop)) else r
  }

  /** One protected region. jl_enter_handler installs a record of the
      current root chain and handler. When setjmp returns 0 the body runs
      once and, if it completes, the step of the JL_TRY for-loop calls
      jl_eh_restore_state once. When the body throws to this record, the
      initialiser of the JL_CATCH for-loop calls jl_eh_restore_state once
      and the handler block then runs once. A `continue` in the body runs
      the loop step like a completed body. A `return` or a `break` out of
      the body skips the loop step, so no restore happens on those paths;
      after a `break` the code after JL_CATCH runs with the region's
      handler still installed. The region is over once this function
      returns: a later throw to that stale record is not taken back into
      its JL_CATCH, as a `longjmp` in C would be, but passes it by. */
  function ExecTry(body: seq<Stmt>, handler: seq<Stmt>, s: CS.State): Outcome
    decreases Size(body) + Size(handler) + 1, 0
  {
    var h := CS.NewHandler(s);
    match Exec(body, CS.EnterHandler(s), InRegion(h))
    case Normal(s1) => Normal(CS.EhRestoreState(s1, h))
    case Continued(s1) => Normal(CS.EhRestoreState(s1, h))
    case Broke(s1) => Normal(s1)
    case Thrown(s1) =>
      if s1.eh == h then CatchExit(Exec(handler, CS.EhRestoreState(s1, h), InRegion(h))) else Thrown(s1)
    case Returned(s1) => Returned(s1)
    case Fault(s1) => Fault(s1)
  }

  /** Leaving the JL_CATCH for-loop: its step only clears the flag, so a
      `break` or a `continue` in the handler block ends the region as a
      completed handler block does; a throw, a `return` or a fault passes
      out of the loop as it is. */
  function CatchExit(r: Outcome): (e: Outcome)
    ensures e.st == r.st
    ensures !e.Broke? && !e.Continued?
    ensures e.Normal? <==> r.Normal? || r.Broke? || r.Continued?
    ensures !r.Broke? && !r.Continued? ==> e == r
  {
    if r.Broke? || r.Continued? then Normal(r.st) else r
  }

  // ---------------------------------------------------------------------
  // The two paths through JL_TRY / JL_CATCH
  // ---------------------------------------------------------------------

  /** Normal path: when the body completes, exactly one restore follows it,
      and the region ends with the handler chain and root frames it started
      with. */
  lemma TryNormalPath(body: seq<Stmt>, handler: seq<Stmt>, s: CS.State)
    requires Exec(body, CS.EnterHandler(s), InRegion(CS.NewHandler(s))).Normal?
    ensures var s1 := Exec(body, CS.EnterHandler(s), InRegion(CS.NewHandler(s))).st;
      ExecTry(body, handler, s) == Normal(CS.EhRestoreState(s1, CS.NewHandler(s)))
    ensures ExecTry(body, handler, s).st.eh == s.eh
    ensures CS.HandlerDepth(ExecTry(body, handler, s).st.eh) + 1 == CS.HandlerDepth(CS.EnterHandler(s).eh)
    ensures ExecTry(body, handler, s).st.pgcstack == s.pgcstack
  {
  }

  /** Catch path: when the body throws to this region's record, exactly one
      restore happens before the handler block runs, and the handler block
      starts from the handler chain and root frames of the region's entry. */
  lemma TryCatchPath(body: seq<Stmt>, handler: seq<Stmt>, s: CS.State)
    requires Exec(body, CS.EnterHandler(s), InRegion(CS.NewHandler(s))).Thrown?
    requires Exec(body, CS.EnterHandler(s), InRegion(CS.NewHandler(s))).st.eh == CS.NewHandler(s)
    ensures var s1 := Exec(body, CS.EnterHandler(s), InRegion(CS.NewHandler(s))).st;
      var s2 := CS.EhRestoreState(s1, CS.NewHandler(s));
      && ExecTry(body, handler, s) == CatchExit(Exec(handler, s2, InRegion(CS.NewHandler(s))))
      && s2.eh == s.eh && s2.pgcstack == s.pgcstack
      && CS.HandlerDepth(s2.eh) + 1 == CS.HandlerDepth(CS.EnterHandler(s).eh)
  {
  }

  // ---------------------------------------------------------------------
  // Sequencing and scope
  // ---------------------------------------------------------------------

  /** The scope in force after block `ss`, run from `s` in scope `sc`,
      completes: the record of the last region opened at the block's own
      level, or `sc` when it opens none there. Only `eh` changes. */
  function ScopeAfter(ss: seq<Stmt>, s: CS.State, sc: Scope): (r: Scope)
    ensures r.inLoop == sc.inLoop
    ensures sc.eh.Handler? ==> r.eh.Handler?
    ensures OpensNoRegion(ss) ==> r == sc
    decreases Size(ss)
  {
    if ss == [] then sc
    else
      var rest := ss[1..];
      match ss[0]
      case Push(n) => ScopeAfter(rest, CS.GcPush(s, n), sc)
      case PushArgs(n) => ScopeAfter(rest, CS.GcPushArgs(s, n), sc)
      case Pop => if s.pgcstack.Empty? then sc else ScopeAfter(rest, CS.GcPop(s), sc)
      case SigBegin => ScopeAfter(rest, CS.SigAtomicBegin(s), sc)
      case SigEnd => ScopeAfter(rest, CS.SigAtomicEnd(s), sc)
      case EhPop => if sc.eh.NoHandler? then sc else ScopeAfter(rest, CS.EhRestoreState(s, sc.eh), sc)
      case Block(b) => ScopeAfter(rest, Exec(b, s, sc).st, sc)
      case TryCatch(b, c) => ScopeAfter(rest, ExecTry(b, c, s).st, Scope(CS.NewHandler(s), sc.inLoop))
      case _ => sc
  }

  /** No protected region is written at the block's own level (regions
      inside braced blocks, bodies or handlers do not count). */
  predicate OpensNoRegion(ss: seq<Stmt>)
  {
    forall i :: 0 <= i < |ss| ==> !ss[i].TryCatch?
  }

  /** Continue with block `b` in scope `sc` after an outcome: only a
      completed block goes on to the next statement. */
  function AndThen(r: Outcome, b: seq<Stmt>, sc: Scope): Outcome
  {
    if r.Normal? then Exec(b, r.st, sc) else r
  }

  /** Running two blocks one after the other is running the first and, if
      it completes, the second from where the first left off, in the scope
      the first leaves in force. */
  lemma {:induction false} ExecAppend(a: seq<Stmt>, b: seq<Stmt>, s: CS.State, sc: Scope)
    ensures Exec(a + b, s, sc) == AndThen(Exec(a, s, sc), b, ScopeAfter(a, s, sc))
    decreases Size(a)
  {
    if a == [] {
      assert a + b == b;
    } else {
      assert (a + b)[0] == a[0];
      assert (a + b)[1..] == a[1..] + b;
      match a[0]
      case Push(n) => ExecAppend(a[1..], b, CS.GcPush(s, n), sc);
      case PushArgs(n) => ExecAppend(a[1..], b, CS.GcPushArgs(s, n), sc);
      case Pop =>
        if s.pgcstack.Frame? {
          ExecAppend(a[1..], b, CS.GcPop(s), sc);
        }
      case SigBegin => ExecAppend(a[1..], b, CS.SigAtomicBegin(s), sc);
      case SigEnd => ExecAppend(a[1..], b, CS.SigAtomicEnd(s), sc);
      case Throw =>
      case EhPop =>
        if sc.eh.Handler? {
          ExecAppend(a[1..], b, CS.EhRestoreState(s, sc.eh), sc);
        }
      case Return =>
      case Break =>
      case Continue =>
      case Block(bd) =>
        var r := Exec(bd, s, sc);
        if r.Normal? {
          ExecAppend(a[1..], b, r.st, sc);
        }
      case TryCatch(bd, c) =>
        var r := ExecTry(bd, c, s);
        if r.Normal? {
          ExecAppend(a[1..], b, r.st, Scope(CS.NewHandler(s), sc.inLoop));
        }
    }
  }
  // ---------------------------------------------------------------------
  // The discipline: balanced frames and deferred sections
  // ---------------------------------------------------------------------

  /** The rooting discipline asked of C code: every JL_GC_PUSH or
      JL_GC_PUSHARGS is undone by a JL_GC_POP of the same block, every
      JL_SIGATOMIC_BEGIN by a JL_SIGATOMIC_END, protected regions are left
      only through their own end, and the body and handler of every region
      follow the discipline themselves. `frames` and `defers` count the
      pushes and deferred sections still open at this point of the block. */
  predicate Balanced(ss: seq<Stmt>, frames: nat, defers: nat)
    decreases Size(ss)
  {
    if ss == [] then frames == 0 && defers == 0
    else
      var rest := ss[1..];
      match ss[0]
      case Push(_) => Balanced(rest, frames + 1, defers)
      case PushArgs(_) => Balanced(rest, frames + 1, defers)
      case Pop => frames > 0 && Balanced(rest, frames - 1, defers)
      case SigBegin => Balanced(rest, frames, defers + 1)
      case SigEnd => defers > 0 && Balanced(rest, frames, defers - 1)
      case Throw => Balanced(rest, frames, defers)
      case TryCatch(b, c) => Balanced(b, 0, 0) && Balanced(c, 0, 0) && Balanced(rest, frames, defers)
      case Block(b) => Balanced(b, 0, 0) && Balanced(rest, frames, defers)
      case EhPop => false
      case Return => false
      case Break => false
      case Continue => false
  }

  /** A block that cannot throw: no jl_throw outside the handler blocks,
      which then never run. */
  predicate CannotThrow(ss: seq<Stmt>)
    decreases Size(ss)
  {
    ss == [] ||
    match ss[0]
    case Throw => false
    case TryCatch(b, _) => CannotThrow(b) && CannotThrow(ss[1..])
    case Block(b) => CannotThrow(b) && CannotThrow(ss[1..])
    case _ => CannotThrow(ss[1..])
  }

  /** What running a balanced block guarantees, stated against the state
      `(g0, e0, d0)` at the start of the enclosing block, with `defers`
      deferred sections opened since and `noThrow` telling whether the
      block cannot throw:

      - a completed block ends with exactly the root frames and the handler
        it started with (pushes and pops nest as a LIFO, every region
        restores its entry state);
      - a throw that leaves the block carries the entry handler, and the
        entry root chain is a tail of the chain at the throw: the frames
        above it are those pushed inside, which the catching region's
        restore discards;
      - a balanced block never returns, breaks or continues out of a
        region, never pops an empty chain, and faults only by throwing with
        no handler installed at all;
      - the deferral counter never drops below its entry value, and a block
        that cannot throw closes exactly the sections it opened;
      - while a deferred section encloses the block, no signal is raised.

      A throw from inside a deferred section leaves the counter raised:
      the handler record does not save it, so no restore lowers it. */
  predicate Guarantees(r: Outcome, s: CS.State, defers: nat, noThrow: bool,
                       g0: FrameList, e0: CS.EhChain, d0: int)
  {
    && !r.Returned? && !r.Broke? && !r.Continued?
    && r.st.signalPending == s.signalPending
    && r.st.deferSignal >= d0
    && (r.Normal? ==> r.st.pgcstack == g0 && r.st.eh == e0)
    && (r.Thrown? ==> r.st.eh == e0 && IsTailOf(g0, r.st.pgcstack) && Depth(g0) <= Depth(r.st.pgcstack))
    && (r.Fault? ==> e0.NoHandler?)
    && (noThrow ==> r.Normal? && r.st.deferSignal + defers == s.deferSignal)
    && (d0 > 0 ==> r.st.raised == s.raised)
  }

  /** The state a block starts from: `frames` frames on top of `g0`, the
      entry handler current, and at least `defers` sections opened since. */
  predicate Entry(s: CS.State, frames: nat, defers: nat,
                  g0: FrameList, e0: CS.EhChain, d0: int)
  {
    OnTopOf(s.pgcstack, frames, g0) && s.eh == e0 && s.deferSignal >= d0 + defers
  }

  /** Every balanced block keeps the guarantees. */
  lemma {:induction false} ExecBalanced(ss: seq<Stmt>, s: CS.State, sc: Scope,
                                        frames: nat, defers: nat,
                                        g0: FrameList, e0: CS.EhChain, d0: int)
    requires Balanced(ss, frames, defers)
    requires Entry(s, frames, defers, g0, e0, d0)
    ensures Guarantees(Exec(ss, s, sc), s, defers, CannotThrow(ss), g0, e0, d0)
    decreases Size(ss), 1
  {
    if ss == [] {
      return;
    }
    match ss[0]
    case Push(_) =>
      FrameStepBalanced(ss, s, sc, frames, defers, g0, e0, d0);
    case PushArgs(_) =>
      FrameStepBalanced(ss, s, sc, frames, defers, g0, e0, d0);
    case Pop =>
      FrameStepBalanced(ss, s, sc, frames, defers, g0, e0, d0);
    case SigBegin =>
      ExecBalanced(ss[1..], CS.SigAtomicBegin(s), sc, frames, defers + 1, g0, e0, d0);
    case SigEnd =>
      ExecBalanced(ss[1..], CS.SigAtomicEnd(s), sc, frames, defers - 1, g0, e0, d0);
    case Throw =>
      OnTopOfIsTail(s.pgcstack, frames, g0);
    case TryCatch(_, _) =>
      TryCatchBalanced(ss, s, sc, frames, defers, g0, e0, d0);
    case Block(_) =>
      BlockBalanced(ss, s, sc, frames, defers, g0, e0, d0);
  }

  /** The case of a block that starts with a push or a pop. */
  lemma {:induction false} FrameStepBalanced(ss: seq<Stmt>, s: CS.State, sc: Scope,
                                             frames: nat, defers: nat,
                                             g0: FrameList, e0: CS.EhChain, d0: int)
    requires ss != [] && (ss[0].Push? || ss[0].PushArgs? || ss[0].Pop?)
    requires Balanced(ss, frames, defers)
    requires Entry(s, frames, defers, g0, e0, d0)
    ensures Guarantees(Exec(ss, s, sc), s, defers, CannotThrow(ss), g0, e0, d0)
    decreases Size(ss), 0
  {
    var rest := ss[1..];
    match ss[0]
    case Push(n) =>
      ExecBalanced(rest, CS.GcPush(s, n), sc, frames + 1, defers, g0, e0, d0);
    case PushArgs(n) =>
      ExecBalanced(rest, CS.GcPushArgs(s, n), sc, frames + 1, defers, g0, e0, d0);
    case Pop =>
      ExecBalanced(rest, CS.GcPop(s), sc, frames - 1, defers, g0, e0, d0);
  }

  /** The case of a block that starts with a protected region. */
  lemma {:induction false} TryCatchBalanced(ss: seq<Stmt>, s: CS.State, sc: Scope,
                                            frames: nat, defers: nat,
                                            g0: FrameList, e0: CS.EhChain, d0: int)
    requires ss != [] && ss[0].TryCatch?
    requires Balanced(ss, frames, defers)
    requires Entry(s, frames, defers, g0, e0, d0)
    ensures Guarantees(Exec(ss, s, sc), s, defers, CannotThrow(ss), g0, e0, d0)
    decreases Size(ss), 0
  {
    var b, c, rest := ss[0].body, ss[0].handler, ss[1..];
    var h := CS.NewHandler(s);
    var entered := CS.EnterHandler(s);
    ExecBalanced(b, entered, InRegion(h), 0, 0, s.pgcstack, h, s.deferSignal);
    var rb := Exec(b, entered, InRegion(h));
    var after := Scope(h, sc.inLoop);
    if rb.Normal? {
      ExecBalanced(rest, CS.EhRestoreState(rb.st, h), after, frames, defers, g0, e0, d0);
    } else if rb.Thrown? {
      var caught := CS.EhRestoreState(rb.st, h);
      ExecBalanced(c, caught, InRegion(h), 0, 0, s.pgcstack, s.eh, caught.deferSignal);
      var rc := Exec(c, caught, InRegion(h));
      if rc.Normal? {
        ExecBalanced(rest, rc.st, after, frames, defers, g0, e0, d0);
      } else if rc.Thrown? {
        OnTopOfIsTail(s.pgcstack, frames, g0);
        IsTailOfTransitive(g0, s.pgcstack, rc.st.pgcstack);
        IsTailOfDepth(g0, rc.st.pgcstack);
      }
    }
  }

  /** The case of a block that starts with a braced block. */
  lemma {:induction false} BlockBalanced(ss: seq<Stmt>, s: CS.State, sc: Scope,
                                         frames: nat, defers: nat,
                                         g0: FrameList, e0: CS.EhChain, d0: int)
    requires ss != [] && ss[0].Block?
    requires Balanced(ss, frames, defers)
    requires Entry(s, frames, defers, g0, e0, d0)
    ensures Guarantees(Exec(ss, s, sc), s, defers, CannotThrow(ss), g0, e0, d0)
    decreases Size(ss), 0
  {
    var b, rest := ss[0].inner, ss[1..];
    ExecBalanced(b, s, sc, 0, 0, s.pgcstack, s.eh, s.deferSignal);
    var rb := Exec(b, s, sc);
    if rb.Normal? {
      ExecBalanced(rest, rb.st, sc, frames, defers, g0, e0, d0);
    } else if rb.Thrown? {
      OnTopOfIsTail(s.pgcstack, frames, g0);
      IsTailOfTransitive(g0, s.pgcstack, rb.st.pgcstack);
      IsTailOfDepth(g0, rb.st.pgcstack);
    }
  }

  // ---------------------------------------------------------------------
  // Leaving a protected region early
  // ---------------------------------------------------------------------

  /** The JL_EH_POP idiom: a region whose body ends with JL_EH_POP and a
      `return` leaves the function through one restore of the `__eh` in
      scope at that point, although the loop step is skipped. When the body
      writes no region at its own level (nested regions sit in braced
      blocks), that is the region's own record, and the function is left
      with the handler chain and root frames of the region's entry, whatever
      frames the body left pushed. */
  lemma EhPopBeforeReturn(body: seq<Stmt>, handler: seq<Stmt>, s: CS.State)
    requires Exec(body, CS.EnterHandler(s), InRegion(CS.NewHandler(s))).Normal?
    ensures var entered, inside := CS.EnterHandler(s), InRegion(CS.NewHandler(s));
      ExecTry(body + [EhPop, Return], handler, s) ==
        Returned(CS.EhRestoreState(Exec(body, entered, inside).st, ScopeAfter(body, entered, inside).eh))
    ensures OpensNoRegion(body) ==>
      ExecTry(body + [EhPop, Return], handler, s).st.eh == s.eh &&
      ExecTry(body + [EhPop, Return], handler, s).st.pgcstack == s.pgcstack
  {
    ExecAppend(body, [EhPop, Return], CS.EnterHandler(s), InRegion(CS.NewHandler(s)));
  }

  /** JL_EH_POP after a region that completed, in the same block, restores
      that region's record a second time: the handler and root frames are
      again those of the region's entry. After a `break` out of the region
      this is what uninstalls its record. */
  lemma EhPopAfterRegion(b: seq<Stmt>, c: seq<Stmt>, s: CS.State, sc: Scope)
    requires ExecTry(b, c, s).Normal?
    ensures Exec([TryCatch(b, c), EhPop], s, sc) ==
      Normal(CS.EhRestoreState(ExecTry(b, c, s).st, CS.NewHandler(s)))
    ensures Exec([TryCatch(b, c), EhPop], s, sc).st.eh == s.eh
    ensures Exec([TryCatch(b, c), EhPop], s, sc).st.pgcstack == s.pgcstack
  {
    var after := Scope(CS.NewHandler(s), sc.inLoop);
    assert [TryCatch(b, c), EhPop][1..] == [EhPop];
    assert Exec([EhPop], ExecTry(b, c, s).st, after) ==
      Exec([], CS.EhRestoreState(ExecTry(b, c, s).st, CS.NewHandler(s)), after);
  }

  /** Without braces around a nested region, JL_EH_POP in the enclosing
      body names the nested region's record: `JL_TRY { JL_TRY { throw }
      JL_CATCH { } JL_EH_POP(); return; }` returns with the enclosing
      region's handler still installed. */
  lemma EhPopAfterNestedRegion(s: CS.State)
    ensures var r := ExecTry([TryCatch([Throw], []), EhPop, Return], [], s);
      r.Returned? && r.st.eh == CS.NewHandler(s) && r.st.pgcstack == s.pgcstack
  {
  }

  /** Without JL_EH_POP, a `return` out of the body leaves the region's
      handler installed: the handler chain is one longer than at entry. */
  lemma ReturnWithoutEhPopKeepsHandler(body: seq<Stmt>, handler: seq<Stmt>, s: CS.State)
    requires Balanced(body, 0, 0)
    requires Exec(body, CS.EnterHandler(s), InRegion(CS.NewHandler(s))).Normal?
    ensures ExecTry(body + [Return], handler, s).Returned?
    ensures ExecTry(body + [Return], handler, s).st.eh == CS.Handler(s.pgcstack, s.eh)
  {
    var h := CS.NewHandler(s);
    var entered := CS.EnterHandler(s);
    ExecAppend(body, [Return], entered, InRegion(h));
    ExecBalanced(body, entered, InRegion(h), 0, 0, s.pgcstack, h, s.deferSignal);
  }

  /** A body whose nested region, in braces, catches its own throw is
      balanced, writes no region at its own level and completes, so the
      lemmas above cover it. */
  lemma NestedCatchCompletes(s: CS.State)
    ensures Balanced([Block([TryCatch([Throw], [])])], 0, 0)
    ensures OpensNoRegion([Block([TryCatch([Throw], [])])])
    ensures Exec([Block([TryCatch([Throw], [])])], CS.EnterHandler(s), InRegion(CS.NewHandler(s))).Normal?
  {
  }

  /** A `break` at the end of the body leaves the JL_TRY loop without its
      step: the region ends with its own handler still installed, on top of
      the entry chain, and the body's frames as they were. */
  lemma BreakKeepsHandler(body: seq<Stmt>, handler: seq<Stmt>, s: CS.State)
    requires Balanced(body, 0, 0)
    requires Exec(body, CS.EnterHandler(s), InRegion(CS.NewHandler(s))).Normal?
    ensures ExecTry(body + [Break], handler, s).Normal?
    ensures ExecTry(body + [Break], handler, s).st.eh == CS.Handler(s.pgcstack, s.eh)
    ensures ExecTry(body + [Break], handler, s).st.pgcstack == s.pgcstack
  {
    var h := CS.NewHandler(s);
    var entered := CS.EnterHandler(s);
    ExecAppend(body, [Break], entered, InRegion(h));
    ExecBalanced(body, entered, InRegion(h), 0, 0, s.pgcstack, h, s.deferSignal);
  }

  /** A `continue` in the body runs the JL_TRY loop step: the region ends
      after one restore, with the entry handler and root frames, whatever
      frames the body had left pushed. */
  lemma ContinueRestores(body: seq<Stmt>, handler: seq<Stmt>, s: CS.State)
    requires Exec(body, CS.EnterHandler(s), InRegion(CS.NewHandler(s))).Normal?
    ensures var s1 := Exec(body, CS.EnterHandler(s), InRegion(CS.NewHandler(s))).st;
      ExecTry(body + [Continue], handler, s) == Normal(CS.EhRestoreState(s1, CS.NewHandler(s)))
    ensures ExecTry(body + [Continue], handler, s).st.eh == s.eh
    ensures ExecTry(body + [Continue], handler, s).st.pgcstack == s.pgcstack
  {
    ExecAppend(body, [Continue], CS.EnterHandler(s), InRegion(CS.NewHandler(s)));
  }

  /** A throw inside a deferred section of a region's body is caught with the
      counter still raised: the region completes, but one deferred section
      stays open and the pending signal is not delivered by the restore. */
  lemma ThrowInsideDeferredSection(s: CS.State)
    requires s.deferSignal == 0 && s.eh.Handler?
    ensures var r := Exec([TryCatch([SigBegin, Throw], [])], s, InRegion(s.eh));
      r.Normal? && r.st.deferSignal == 1 && r.st.raised == s.raised &&
      r.st.eh == s.eh && r.st.pgcstack == s.pgcstack
  {
  }
}
