/** The runtime's control state as mutable globals: the root-frame pointer
    `jl_pgcstack`, the current task's handler pointer `eh`, and the
    counters `jl_defer_signal` and `jl_signal_pending`. Each macro is a
    method that updates the fields in place, and each is proved to take the
    state to the one its step function in `ControlState` computes; running
    C code with JL_TRY / JL_CATCH on the object is proved to end where the
    interpreter in `Protected` ends. */
module Runtime {
  import opened GcFrames
  import CS = ControlState
  import P = Protected

  class Control {
    var pgcstack: FrameList
    var eh: CS.EhChain
    var deferSignal: int
    var signalPending: int
    var raised: seq<int>

    /** The fields as a value. */
    function Snapshot(): CS.State
      reads this
    {
      CS.State(pgcstack, eh, deferSignal, signalPending, raised)
    }

    /** A control state with no root frames, no handler, no deferred section
        and no pending signal. */
    constructor ()
      ensures Snapshot() == CS.State(Empty, CS.NoHandler, 0, 0, [])
    {
      pgcstack := Empty;
      eh := CS.NoHandler;
      deferSignal := 0;
      signalPending := 0;
      raised := [];
    }

    /** JL_GC_PUSH with `n` root addresses. */
    method GcPush(n: nat)
      modifies this
      ensures Snapshot() == CS.GcPush(old(Snapshot()), n)
    {
      pgcstack := Frame(EncodeIndirect(n), pgcstack);
    }

    /** JL_GC_PUSHARGS with `n` root slots. */
    method GcPushArgs(n: nat)
      modifies this
      ensures Snapshot() == CS.GcPushArgs(old(Snapshot()), n)
    {
      pgcstack := Frame(EncodeDirect(n), pgcstack);
    }

    /** JL_GC_POP. */
    method GcPop()
      requires pgcstack.Frame?
      modifies this
      ensures Snapshot() == CS.GcPop(old(Snapshot()))
    {
      pgcstack := pgcstack.prev;
    }

    /** JL_SIGATOMIC_BEGIN. */
    method SigAtomicBegin()
      modifies this
      ensures Snapshot() == CS.SigAtomicBegin(old(Snapshot()))
    {
      deferSignal := deferSignal + 1;
    }

    /** JL_SIGATOMIC_END: `raise` is recorded as an event. */
    method SigAtomicEnd()
      modifies this
      ensures Snapshot() == CS.SigAtomicEnd(old(Snapshot()))
    {
      deferSignal := deferSignal - 1;
      if deferSignal == 0 && signalPending != 0 {
        raised := raised + [signalPending];
      }
    }

    /** jl_eh_restore_state(h). */
    method EhRestoreState(h: CS.EhChain)
      requires h.Handler?
      modifies this
      ensures Snapshot() == CS.EhRestoreState(old(Snapshot()), h)
    {
      SigAtomicBegin();
      eh := h.prev;
      pgcstack := h.gcstack;
      SigAtomicEnd();
    }

    /** jl_enter_handler: install a record of the current root frames and
        handler, and return it. */
    method EnterHandler() returns (h: CS.EhChain)
      modifies this
      ensures h == CS.NewHandler(old(Snapshot()))
      ensures Snapshot() == CS.EnterHandler(old(Snapshot()))
    {
      h := CS.Handler(pgcstack, eh);
      eh := h;
    }

    /** Run block `ss` of C code in scope `sc`; the object ends in the state
        the interpreter computes. */
    method Run(ss: seq<P.Stmt>, sc: P.Scope) returns (o: P.Outcome)
      modifies this
      ensures o == P.Exec(ss, old(Snapshot()), sc)
      ensures Snapshot() == o.st
      decreases P.Size(ss), 1
    {
      if ss == [] {
        return P.Normal(Snapshot());
      }
      var rest := ss[1..];
      match ss[0]
      case Push(n) =>
        GcPush(n);
        o := Run(rest, sc);
      case PushArgs(n) =>
        GcPushArgs(n);
        o := Run(rest, sc);
      case Pop =>
        if pgcstack.Empty? {
          o := P.Fault(Snapshot());
        } else {
          GcPop();
          o := Run(rest, sc);
        }
      case SigBegin =>
        SigAtomicBegin();
        o := Run(rest, sc);
      case SigEnd =>
        SigAtomicEnd();
        o := Run(rest, sc);
      case Throw =>
        // jl_throw jumps to the context of the current handler
        if eh.NoHandler? {
          o := P.Fault(Snapshot());
        } else {
          o := P.Thrown(Snapshot());
        }
      case EhPop =>
        if sc.eh.NoHandler? {
          o := P.Fault(Snapshot());
        } else {
          EhRestoreState(sc.eh);
          o := Run(rest, sc);
        }
      case Return =>
        o := P.Returned(Snapshot());
      case Break =>
        if !sc.inLoop {
          o := P.Fault(Snapshot());
        } else {
          o := P.Broke(Snapshot());
        }
      case Continue =>
        if !sc.inLoop {
          o := P.Fault(Snapshot());
        } else {
          o := P.Continued(Snapshot());
        }
      case Block(b) =>
        o := Run(b, sc);
        if o.Normal? {
          o := Run(rest, sc);
        }
      case TryCatch(b, c) =>
        // the region's `__eh` stays in scope for the rest of the block
        var h := CS.NewHandler(Snapshot());
        o := TryCatch(b, c);
        if o.Normal? {
          o := Run(rest, P.Scope(h, sc.inLoop));
        }
    }

    /** JL_TRY body JL_CATCH handler. After jl_enter_handler, the first
        return of setjmp enters the JL_TRY loop: its body runs once and the
        loop step `i__tr=0, jl_eh_restore_state(&__eh)` follows it. A throw
        to this region's record returns from setjmp a second time, into the
        JL_CATCH loop, whose initialiser restores the state once before the
        handler runs once. A `continue` in the body runs the step; a
        `break` leaves the loop without it, and the region is over; leaving
        the body any other way skips the step as well. */
    method TryCatch(body: seq<P.Stmt>, handler: seq<P.Stmt>) returns (o: P.Outcome)
      modifies this
      ensures o == P.ExecTry(body, handler, old(Snapshot()))
      ensures Snapshot() == o.st
      decreases P.Size(body) + P.Size(handler) + 1, 0
    {
      var h := EnterHandler();
      ghost var entered := Snapshot();
      ghost var rb := P.Exec(body, entered, P.InRegion(h));
      var caught := false;
      var tr := 1;
      while tr != 0
        invariant tr == 0 || tr == 1
        invariant !caught
        invariant tr == 1 ==> Snapshot() == entered
        invariant tr == 0 ==> (rb.Normal? || rb.Continued?) && Snapshot() == CS.EhRestoreState(rb.st, h)
        decreases tr
      {
        var r := Run(body, P.InRegion(h));
        if r.Thrown? && r.st.eh == h {
          caught := true;
          break;
        }
        if r.Broke? {
          return P.Normal(Snapshot());
        }
        if !r.Normal? && !r.Continued? {
          return r;
        }
        tr := 0;
        EhRestoreState(h);
      }
      if !caught {
        return P.Normal(Snapshot());
      }
      assert rb.Thrown? && rb.st.eh == h && Snapshot() == rb.st;
      var ca := 1;
      EhRestoreState(h);
      o := P.Normal(Snapshot());
      while ca != 0
        invariant ca == 0 || ca == 1
        invariant ca == 1 ==> Snapshot() == CS.EhRestoreState(rb.st, h)
        invariant ca == 0 ==> o == P.CatchExit(P.Exec(handler, CS.EhRestoreState(rb.st, h), P.InRegion(h))) && Snapshot() == o.st
        decreases ca
      {
        o := Run(handler, P.InRegion(h));
        if o.Broke? || o.Continued? {
          o := P.Normal(o.st);
        }
        ca := 0;
      }
    }
  }
}
