/** What holds whatever the handlers do. */
module SignalRuns {
  import opened SignalSets
  import opened SignalSpec

  // ---------- what every call keeps ----------

  /** signal_handlers[i] is signal_actions[i].sa_handler; 0, SIGKILL and SIGSTOP have no
      handler; only real signals are pending. */
  ghost predicate Sound(s: State) {
    && (forall i | 0 <= i < NSIG :: s.handlers[i] == s.actions[i].handler)
    && (forall i | 0 <= i < NSIG && !Catchable(i) :: s.handlers[i] == Default)
    && (forall i | i in s.pending :: 1 <= i < NSIG)
  }

  /** Whatever has been delivered was unblocked when it was. */
  ghost predicate DeliveriesUnblocked(log: seq<Delivery>) {
    forall k | 0 <= k < |log| :: log[k].sig !in log[k].blocked
  }

  ghost predicate Inv(s: State) {
    Sound(s) && DeliveriesUnblocked(s.log)
  }

  lemma {:induction false} BodyKeepsInv(s: State, body: Body)
    requires Inv(s)
    ensures Inv(RunBody(s, body))
    decreases body, 0
  {
    if body.Then? && !s.exited {
      CallKeepsInv(s, body.call);
      BodyKeepsInv(RunCall(s, body.call), body.rest);
    }
  }

  lemma {:induction false} CallKeepsInv(s: State, call: Call)
    requires Inv(s)
    ensures Inv(RunCall(s, call))
    decreases call, NSIG + 2
  {
    if call.Process? {
      var p := Poll(s, call);
      LoopKeepsInv(p, call, 1, p.pending - p.blocked);
    }
  }

  lemma TakeKeepsInv(s: State, sig: nat)
    requires Inv(s) && sig < NSIG && sig !in s.blocked
    ensures Inv(Take(s, sig))
  {
  }

  lemma {:induction false} LoopKeepsInv(s: State, call: Call, i: nat, todo: Mask)
    requires Inv(s) && call.Process? && i <= NSIG && todo !! s.blocked
    ensures Inv(ProcessLoop(s, call, i, todo).0)
    decreases call, NSIG - i
  {
    if i < NSIG && !s.exited {
      if i in todo {
        TakeKeepsInv(s, i);
        DeliverKeepsInv(Take(s, i), i, Reply(call, i));
        DeliverKeepsMask(Take(s, i), i, Reply(call, i));
        var u := Deliver(Take(s, i), i, Reply(call, i));
        if !u.exited { LoopKeepsInv(u, call, i + 1, todo); }
      } else {
        LoopKeepsInv(s, call, i + 1, todo);
      }
    }
  }

  lemma {:induction false} DeliverKeepsInv(s: State, sig: nat, body: Body)
    requires Inv(s) && sig < NSIG
    ensures Inv(Deliver(s, sig, body))
    decreases body, 1
  {
    if s.handlers[sig].User? {
      BodyKeepsInv(Enter(s, sig), body);
    }
  }

  // ---------- the mask ----------

  /** deliver_signal comes back, if it does, with the mask it was called with. */
  lemma DeliverKeepsMask(s: State, sig: nat, body: Body)
    requires sig < NSIG
    ensures !Deliver(s, sig, body).exited ==>
      Deliver(s, sig, body).blocked == s.blocked && Deliver(s, sig, body).active == s.active
  {
  }

  lemma {:induction false} LoopKeepsMask(s: State, call: Call, i: nat, todo: Mask)
    requires call.Process? && i <= NSIG
    ensures var t := ProcessLoop(s, call, i, todo).0; !t.exited ==> t.blocked == s.blocked && t.active == s.active
    decreases NSIG - i
  {
    if i < NSIG && !s.exited {
      if i in todo {
        DeliverKeepsMask(Take(s, i), i, Reply(call, i));
        LoopKeepsMask(Deliver(Take(s, i), i, Reply(call, i)), call, i + 1, todo);
      } else {
        LoopKeepsMask(s, call, i + 1, todo);
      }
    }
  }

  /** Whatever the handlers do to the mask, and however deep they nest, processing
      returns with the mask it was called with, unless the program has ended. */
  lemma ProcessKeepsMask(s: State, call: Call)
    requires call.Process? && !DoProcess(s, call).0.exited
    ensures DoProcess(s, call).0.blocked == s.blocked
  {
    LoopKeepsMask(Poll(s, call), call, 1, Poll(s, call).pending - s.blocked);
  }

  /** Every program, from init_signals on. */
  lemma ProgramKeepsInv(program: Body)
    ensures Inv(RunBody(INITIAL, program))
  {
    BodyKeepsInv(INITIAL, program);
  }

  // ---------- the loop, turn by turn ----------

  /** The loop passes over signals that are not in its snapshot. */
  lemma {:induction false} LoopSkips(s: State, call: Call, i: nat, j: nat, todo: Mask)
    requires call.Process? && i <= j <= NSIG && !s.exited
    requires forall k: nat | i <= k < j :: k !in todo
    ensures ProcessLoop(s, call, i, todo) == ProcessLoop(s, call, j, todo)
    decreases j - i
  {
    if i < j { LoopSkips(s, call, i + 1, j, todo); }
  }

  lemma LoopEnds(s: State, call: Call, i: nat, todo: Mask)
    requires call.Process? && i <= NSIG
    requires forall k: nat | i <= k < NSIG :: k !in todo
    ensures ProcessLoop(s, call, i, todo) == (s, 0)
  {
    if !s.exited { LoopSkips(s, call, i, NSIG, todo); }
  }

  /** The state in which the loop goes on to i + 1. */
  function AfterTurn(s: State, call: Call, i: nat, todo: Mask): State
    requires call.Process? && i < NSIG
  {
    if i in todo then Deliver(Take(s, i), i, Reply(call, i)) else s
  }

  lemma LoopTurn(s: State, call: Call, i: nat, todo: Mask)
    requires call.Process? && i < NSIG && !s.exited
    ensures var (t, n) := ProcessLoop(AfterTurn(s, call, i, todo), call, i + 1, todo);
      ProcessLoop(s, call, i, todo) == (t, n + if i in todo then 1 else 0)
  {
  }

  lemma LoopAfterExit(s: State, call: Call, i: nat, todo: Mask)
    requires call.Process? && i <= NSIG
    ensures s.exited ==> ProcessLoop(s, call, i, todo).0.exited
  {
  }

  /** Processing with one signal deliverable. */
  lemma OneDelivery(s: State, call: Call, sig: nat)
    requires call.Process? && !call.cmdPeriod && !s.exited && 1 <= sig < NSIG && s.pending - s.blocked == {sig}
    ensures DoProcess(s, call).0 == Deliver(Take(s, sig), sig, Reply(call, sig))
  {
    LoopSkips(s, call, 1, sig, {sig});
    LoopEnds(Deliver(Take(s, sig), sig, Reply(call, sig)), call, sig + 1, {sig});
  }

  // ---------- the history only grows ----------

  lemma {:induction false} BodyLogs(s: State, body: Body)
    ensures s.log <= RunBody(s, body).log
    decreases body, 0
  {
    if body.Then? && !s.exited {
      CallLogs(s, body.call);
      BodyLogs(RunCall(s, body.call), body.rest);
    }
  }

  lemma {:induction false} CallLogs(s: State, call: Call)
    ensures s.log <= RunCall(s, call).log
    decreases call, NSIG + 2
  {
    if call.Process? {
      var p := Poll(s, call);
      LoopLogs(p, call, 1, p.pending - p.blocked);
    }
  }

  lemma {:induction false} LoopLogs(s: State, call: Call, i: nat, todo: Mask)
    requires call.Process? && i <= NSIG
    ensures s.log <= ProcessLoop(s, call, i, todo).0.log
    decreases call, NSIG - i
  {
    if i < NSIG && !s.exited {
      if i in todo {
        DeliverLogs(Take(s, i), i, Reply(call, i));
        LoopLogs(Deliver(Take(s, i), i, Reply(call, i)), call, i + 1, todo);
      } else {
        LoopLogs(s, call, i + 1, todo);
      }
    }
  }

  lemma {:induction false} DeliverLogs(s: State, sig: nat, body: Body)
    requires sig < NSIG
    ensures s.log <= Deliver(s, sig, body).log
    decreases body, 1
  {
    if s.handlers[sig].User? { BodyLogs(Enter(s, sig), body); }
  }
}
