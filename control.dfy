/** The runtime's control state as a value, and the macros that change it
    as functions from state to state:

    - `pgcstack`: the global root-frame chain `jl_pgcstack`;
    - `eh`: the current task's handler chain `jl_current_task->eh`;
    - `deferSignal`, `signalPending`: the globals `jl_defer_signal` and
      `jl_signal_pending`;
    - `raised`: the signals passed to `raise`, in order. Delivery of a
      signal is recorded as this observable event. */
module ControlState {
  import opened GcFrames

  /** A handler record (`jl_handler_t`): the root-frame chain in effect when
      it was installed and the handler that was current before it. The jump
      buffer is abstracted away. */
  datatype EhChain = NoHandler | Handler(gcstack: FrameList, prev: EhChain)

  /** The number of handlers installed. */
  function HandlerDepth(e: EhChain): nat
  {
    if e.NoHandler? then 0 else 1 + HandlerDepth(e.prev)
  }

  datatype State = State(
    pgcstack: FrameList,
    eh: EhChain,
    deferSignal: int,
    signalPending: int,
    raised: seq<int>)

  // ---------------------------------------------------------------------
  // Root frames
  // ---------------------------------------------------------------------

  /** JL_GC_PUSH with `n` root addresses: a frame with the indirect encoding
      whose `prev` is the old top becomes the top. */
  function GcPush(s: State, n: nat): State
  {
    s.(pgcstack := Frame(EncodeIndirect(n), s.pgcstack))
  }

  /** JL_GC_PUSHARGS with `n` root slots: the same, with the direct
      encoding. */
  function GcPushArgs(s: State, n: nat): State
  {
    s.(pgcstack := Frame(EncodeDirect(n), s.pgcstack))
  }

  /** JL_GC_POP: `jl_pgcstack = jl_pgcstack->prev`; the chain must not be
      empty, since the macro dereferences the top frame. */
  function GcPop(s: State): State
    requires s.pgcstack.Frame?
  {
    s.(pgcstack := s.pgcstack.prev)
  }

  /** A push followed by a pop restores the state it started from, and the
      pushed frame records its root count and kind. */
  lemma {:induction false} GcPushThenPop(s: State, n: nat)
    ensures GcPush(s, n).pgcstack.prev == s.pgcstack
    ensures RootCount(GcPush(s, n).pgcstack.nroots) == n && IsIndirect(GcPush(s, n).pgcstack.nroots)
    ensures GcPop(GcPush(s, n)) == s
    ensures GcPush(s, n).(pgcstack := s.pgcstack) == s
  {
  }

  /** The same for JL_GC_PUSHARGS. */
  lemma {:induction false} GcPushArgsThenPop(s: State, n: nat)
    ensures GcPushArgs(s, n).pgcstack.prev == s.pgcstack
    ensures RootCount(GcPushArgs(s, n).pgcstack.nroots) == n && !IsIndirect(GcPushArgs(s, n).pgcstack.nroots)
    ensures GcPop(GcPushArgs(s, n)) == s
    ensures GcPushArgs(s, n).(pgcstack := s.pgcstack) == s
  {
  }

  // ---------------------------------------------------------------------
  // Signal deferral
  // ---------------------------------------------------------------------

  /** JL_SIGATOMIC_BEGIN: `jl_defer_signal++`. */
  function SigAtomicBegin(s: State): State
  {
    s.(deferSignal := s.deferSignal + 1)
  }

  /** JL_SIGATOMIC_END: decrement the counter and, when it is now zero and a
      signal is pending, raise it. */
  function SigAtomicEnd(s: State): State
  {
    var d := s.deferSignal - 1;
    s.(deferSignal := d,
       raised := if d == 0 && s.signalPending != 0 then s.raised + [s.signalPending] else s.raised)
  }

  /** A signal is raised by JL_SIGATOMIC_END only when the counter has just
      returned to zero and one is pending; it is the pending one; nothing
      else changes. */
  lemma SigAtomicEndRaisesOnlyAtZero(s: State)
    ensures SigAtomicEnd(s).deferSignal == s.deferSignal - 1
    ensures SigAtomicEnd(s).raised != s.raised <==> (s.deferSignal == 1 && s.signalPending != 0)
    ensures SigAtomicEnd(s).raised != s.raised ==> SigAtomicEnd(s).raised == s.raised + [s.signalPending]
    ensures SigAtomicEnd(s).(deferSignal := s.deferSignal, raised := s.raised) == s
  {
  }

  /** A balanced BEGIN/END pair leaves the counter as it was, and raises the
      pending signal exactly when the section was not nested in another
      deferred section. */
  lemma SigAtomicPair(s: State)
    ensures SigAtomicEnd(SigAtomicBegin(s)).deferSignal == s.deferSignal
    ensures SigAtomicEnd(SigAtomicBegin(s)).raised ==
      if s.deferSignal == 0 && s.signalPending != 0 then s.raised + [s.signalPending] else s.raised
  {
  }

  // ---------------------------------------------------------------------
  // Handlers
  // ---------------------------------------------------------------------

  /** jl_eh_restore_state(eh): inside a deferred section, make the handler
      before `h` current and restore the root-frame chain `h` recorded. */
  function EhRestoreState(s: State, h: EhChain): State
    requires h.Handler?
  {
    SigAtomicEnd(SigAtomicBegin(s).(eh := h.prev, pgcstack := h.gcstack))
  }

  /** jl_eh_restore_state sets the handler chain and the root-frame chain
      from the record, leaves the counter and the pending signal as they
      were, and delivers the pending signal if and only if no deferred
      section was open when it was called. */
  lemma EhRestoreStateEffect(s: State, h: EhChain)
    requires h.Handler?
    ensures EhRestoreState(s, h).eh == h.prev
    ensures EhRestoreState(s, h).pgcstack == h.gcstack
    ensures EhRestoreState(s, h).deferSignal == s.deferSignal
    ensures EhRestoreState(s, h).signalPending == s.signalPending
    ensures EhRestoreState(s, h).raised ==
      if s.deferSignal == 0 && s.signalPending != 0 then s.raised + [s.signalPending] else s.raised
  {
  }

  /** The handler record jl_enter_handler installs: the current root-frame
      chain and the current handler. */
  function NewHandler(s: State): (h: EhChain)
    ensures h.Handler? && h.prev == s.eh && h.gcstack == s.pgcstack
  {
    Handler(s.pgcstack, s.eh)
  }

  /** jl_enter_handler: make the new record the current handler. */
  function EnterHandler(s: State): State
  {
    s.(eh := NewHandler(s))
  }

  /** Restoring the handler that was just entered gives back the handler
      chain and root frames of the state before the entry, whatever the
      protected code did to them in between. */
  lemma EnterThenRestore(s: State, t: State)
    ensures EhRestoreState(t, NewHandler(s)).eh == s.eh
    ensures EhRestoreState(t, NewHandler(s)).pgcstack == s.pgcstack
    ensures EhRestoreState(t, NewHandler(s)).deferSignal == t.deferSignal
  {
  }
}
