/** When the condition of SignalReentry can be read off before the call. */
module SignalCover {
  import opened SignalSets
  import opened SignalSpec
  import opened SignalRuns
  import opened SignalDelivery
  import opened SignalReentry

  // ---------- handlers that leave the mask alone ----------

  /** A handler that does not process signals, or one that leaves the mask alone while it
      runs; its own processing invokes such handlers in turn, to any depth. */
  predicate Tame(body: Body)
    decreases body, 1
  {
    Flat(body) || Steady(body)
  }

  predicate Steady(body: Body)
    decreases body, 0
  {
    body.Done? || (SteadyCall(body.call) && Steady(body.rest))
  }

  predicate SteadyCall(call: Call) {
    !call.SigProcMask? && (call.Process? ==> TameReplies(call))
  }

  predicate TameReplies(call: Call)
    requires call.Process?
    decreases call, 0
  {
    Tame(call.other) && forall i | 0 <= i < |call.replies| :: Tame(call.replies[i])
  }

  lemma CallKeepsMask(s: State, call: Call)
    requires SteadyCall(call)
    ensures !RunCall(s, call).exited ==> RunCall(s, call).blocked == s.blocked
  {
    if call.Process? && !RunCall(s, call).exited { ProcessKeepsMask(s, call); }
  }

  lemma {:induction false} FlatGuards(s: State, body: Body, keep: Mask)
    requires Flat(body)
    ensures BodyGuards(s, body, keep)
    decreases body
  {
    if body.Then? && !s.exited { FlatGuards(RunCall(s, body.call), body.rest, keep); }
  }

  lemma {:induction false} TameGuards(s: State, body: Body, keep: Mask)
    requires Tame(body) && keep <= s.blocked
    ensures BodyGuards(s, body, keep)
    decreases body, 1
  {
    if Steady(body) { SteadyGuards(s, body, keep); } else { FlatGuards(s, body, keep); }
  }

  lemma {:induction false} SteadyGuards(s: State, body: Body, keep: Mask)
    requires Steady(body) && keep <= s.blocked
    ensures BodyGuards(s, body, keep)
    decreases body, 0
  {
    if body.Then? && !s.exited {
      var t := RunCall(s, body.call);
      CallKeepsMask(s, body.call);
      SteadyCallGuards(s, body.call, keep);
      if !t.exited { SteadyGuards(t, body.rest, keep); }
    }
  }

  lemma {:induction false} SteadyCallGuards(s: State, call: Call, keep: Mask)
    requires SteadyCall(call) && keep <= s.blocked
    ensures CallGuards(s, call, keep)
    decreases call, NSIG + 2
  {
    if call.Process? {
      var p := Poll(s, call);
      TameLoopGuards(p, call, 1, p.pending - p.blocked, keep);
    }
  }

  lemma NothingAfterExit(s: State, call: Call, i: nat, todo: Mask, keep: Mask)
    requires call.Process? && i <= NSIG && s.exited
    ensures LoopGuards(s, call, i, todo, keep)
  {
  }

  lemma {:induction false} TameLoopGuards(s: State, call: Call, i: nat, todo: Mask, keep: Mask)
    requires call.Process? && TameReplies(call) && i <= NSIG && keep <= s.blocked
    ensures LoopGuards(s, call, i, todo, keep)
    decreases call, NSIG - i
  {
    if i < NSIG && !s.exited {
      var u := AfterTurn(s, call, i, todo);
      if i in todo {
        DeliverKeepsMask(Take(s, i), i, Reply(call, i));
        TameGuards(Enter(Take(s, i), i), Reply(call, i), keep);
      }
      if u.exited {
        NothingAfterExit(u, call, i + 1, todo, keep);
      } else {
        TameLoopGuards(u, call, i + 1, todo, keep);
      }
    }
  }

  /** A handler that leaves the mask alone gets to its first call of the processing function
      under the mask it starts with. */
  lemma {:induction false} SteadyNeeds(s: State, body: Body, keep: Mask)
    requires Steady(body) && !Flat(body) && !s.exited && BodyGuards(s, body, keep)
    ensures keep <= s.blocked
    decreases body
  {
    if body.call.Process? {
      assert CallGuards(s, body.call, keep);
    } else {
      SteadyNeeds(RunCall(s, body.call), body.rest, keep);
    }
  }

  /** The handler of i, if it processes signals at all, runs with every later signal of the
      snapshot blocked. */
  predicate MaskCovers(s: State, call: Call, i: nat, todo: Mask)
    requires call.Process? && i < NSIG
  {
    s.handlers[i].User? && !Flat(Reply(call, i)) ==> Later(todo, i) <= Enter(s, i).blocked
  }

  lemma TameCovers(s: State, call: Call, i: nat, todo: Mask)
    requires call.Process? && TameReplies(call) && i < NSIG && !s.exited
    ensures Covers(s, call, i, todo) <==> MaskCovers(s, call, i, todo)
  {
    var e, body, keep := Enter(Take(s, i), i), Reply(call, i), Later(todo, i);
    if Flat(body) {
      FlatGuards(e, body, keep);
    } else if keep <= e.blocked {
      TameGuards(e, body, keep);
    } else if BodyGuards(e, body, keep) {
      SteadyNeeds(e, body, keep);
    }
  }

  // ---------- handlers that install no handlers ----------

  /** body installs no handlers, and neither does anything that runs inside it. */
  predicate KeepsTables(body: Body)
    decreases body, 0
  {
    body.Done? || (CallKeepsTables(body.call) && KeepsTables(body.rest))
  }

  predicate CallKeepsTables(call: Call)
    decreases call, 1
  {
    match call
    case Signal(_, _) => false
    case SigAction(_, _) => false
    case Process(_, _, _) => RepliesKeepTables(call)
    case _ => true
  }

  predicate RepliesKeepTables(call: Call)
    requires call.Process?
    decreases call, 0
  {
    KeepsTables(call.other) && forall i | 0 <= i < |call.replies| :: KeepsTables(call.replies[i])
  }

  /** The handlers and actions of the signals in keep are the same. */
  ghost predicate SameFor(s: State, t: State, keep: Mask) {
    forall x: nat | x in keep && x < NSIG :: t.handlers[x] == s.handlers[x] && t.actions[x] == s.actions[x]
  }

  /** SA_RESETHAND changes a handler after its delivery only, so not those of signals that are
      blocked at every inner call. */
  lemma {:induction false} BodyTables(s: State, body: Body, keep: Mask)
    requires KeepsTables(body) && BodyGuards(s, body, keep)
    ensures SameFor(s, RunBody(s, body), keep)
    decreases body, 0
  {
    if body.Then? && !s.exited {
      CallTables(s, body.call, keep);
      BodyTables(RunCall(s, body.call), body.rest, keep);
    }
  }

  lemma {:induction false} CallTables(s: State, call: Call, keep: Mask)
    requires CallKeepsTables(call) && CallGuards(s, call, keep)
    ensures SameFor(s, RunCall(s, call), keep)
    decreases call, NSIG + 2
  {
    if call.Process? {
      var p := Poll(s, call);
      LoopTables(p, call, 1, p.pending - p.blocked, keep);
    }
  }

  lemma {:induction false} LoopTables(s: State, call: Call, i: nat, todo: Mask, keep: Mask)
    requires call.Process? && RepliesKeepTables(call) && i <= NSIG && todo !! keep && LoopGuards(s, call, i, todo, keep)
    ensures SameFor(s, ProcessLoop(s, call, i, todo).0, keep)
    decreases call, NSIG - i
  {
    if i < NSIG && !s.exited {
      LoopTurn(s, call, i, todo);
      if i in todo {
        assert i !in keep;
        DeliverTables(Take(s, i), i, Reply(call, i), keep);
      }
      LoopTables(AfterTurn(s, call, i, todo), call, i + 1, todo, keep);
    }
  }

  lemma {:induction false} DeliverTables(s: State, sig: nat, body: Body, keep: Mask)
    requires sig < NSIG && KeepsTables(body) && DeliverGuards(s, sig, body, keep) && sig !in keep
    ensures SameFor(s, Deliver(s, sig, body), keep)
    decreases body, 1
  {
    if s.handlers[sig].User? { BodyTables(Enter(s, sig), body, keep); }
  }

  // ---------- before the call ----------

  /** MaskCovers for every turn from i on, in the one state. */
  predicate CoverNow(s: State, call: Call, i: nat, todo: Mask)
    requires call.Process?
  {
    forall j: nat | i <= j < NSIG && j in todo :: MaskCovers(s, call, j, todo)
  }

  lemma SameCover(s: State, u: State, call: Call, i: nat, todo: Mask)
    requires call.Process? && SameFor(s, u, set x | x in todo && i <= x) && s.blocked == u.blocked
    ensures CoverNow(s, call, i, todo) <==> CoverNow(u, call, i, todo)
  {
    forall j: nat | i <= j < NSIG && j in todo ensures MaskCovers(s, call, j, todo) <==> MaskCovers(u, call, j, todo) { }
  }

  lemma CoverNowSplits(s: State, call: Call, i: nat, todo: Mask)
    requires call.Process? && i < NSIG
    ensures CoverNow(s, call, i, todo) <==> (i in todo ==> MaskCovers(s, call, i, todo)) && CoverNow(s, call, i + 1, todo)
  {
  }

  /** A covered turn changes nothing about the later ones. */
  lemma CoveredTurn(s: State, call: Call, i: nat, todo: Mask)
    requires call.Process? && RepliesKeepTables(call) && i < NSIG && i in todo && Covers(s, call, i, todo)
    requires !AfterTurn(s, call, i, todo).exited
    ensures CoverNow(s, call, i + 1, todo) <==> CoverNow(AfterTurn(s, call, i, todo), call, i + 1, todo)
  {
    DeliverTables(Take(s, i), i, Reply(call, i), Later(todo, i));
    DeliverKeepsMask(Take(s, i), i, Reply(call, i));
    SameCover(s, AfterTurn(s, call, i, todo), call, i + 1, todo);
  }

  lemma {:induction false} CoverBeforehand(s: State, call: Call, i: nat, todo: Mask)
    requires call.Process? && TameReplies(call) && RepliesKeepTables(call) && i <= NSIG
    requires !s.exited && !ProcessLoop(s, call, i, todo).0.exited
    ensures CoversAll(s, call, i, todo) <==> CoverNow(s, call, i, todo)
    decreases NSIG - i
  {
    if i < NSIG {
      var u := AfterTurn(s, call, i, todo);
      LoopTurn(s, call, i, todo);
      LoopAfterExit(u, call, i + 1, todo);
      TameCovers(s, call, i, todo);
      CoverNowSplits(s, call, i, todo);
      if i !in todo || Covers(s, call, i, todo) {
        CoverBeforehand(u, call, i + 1, todo);
        if i in todo { CoveredTurn(s, call, i, todo); }
      }
    }
  }

  /** When handlers that process leave the mask alone and none installs handlers, whether they
      cover can be read off the masks and handlers before the call. */
  lemma CoverIsStatic(s: State, call: Call)
    requires !s.exited && call.Process? && TameReplies(call) && RepliesKeepTables(call)
    requires !DoProcess(s, call).0.exited
    ensures HandlersCover(s, call) <==> CoverNow(s, call, 1, Poll(s, call).pending - s.blocked)
  {
    var p := Poll(s, call);
    ProcessIsLoop(s, call);
    CoverBeforehand(p, call, 1, p.pending - p.blocked);
    SameCover(s, p, call, 1, p.pending - p.blocked);
  }
}
