/** What a handler runs under, and what becomes of it. */
module SignalHandlers {
  import opened Powers
  import opened WordArithmetic
  import opened Wrappers
  import opened SignalSets
  import opened SignalSpec
  import opened SignalRuns
  import opened SignalDelivery
  import opened SignalCover

  // ---------- sa_mask is in force ----------

  /** body makes no call of sigprocmask itself; what handlers inside it do is free. */
  predicate LeavesMask(body: Body) {
    body.Done? || (!body.call.SigProcMask? && LeavesMask(body.rest))
  }

  /** The deliveries between two histories that were made with depth handlers running were made
      under this mask. */
  ghost predicate Under(before: seq<Delivery>, after: seq<Delivery>, depth: nat, mask: Mask) {
    before <= after && forall k | |before| <= k < |after| && |after[k].active| == depth :: after[k].blocked == mask
  }

  lemma UnderOn(a: seq<Delivery>, b: seq<Delivery>, c: seq<Delivery>, depth: nat, mask: Mask)
    requires Under(a, b, depth, mask) && Under(b, c, depth, mask)
    ensures Under(a, c, depth, mask)
  {
    forall k | |a| <= k < |c| && |c[k].active| == depth ensures c[k].blocked == mask {
      if k < |b| { assert c[k] == b[k]; }
    }
  }

  lemma {:induction false} LevelIsNoLess(before: seq<Delivery>, after: seq<Delivery>, depth: nat)
    requires before <= after
    ensures |Level(before, depth)| <= |Level(after, depth)|
    decreases |after|
  {
    if |before| < |after| {
      LevelIsNoLess(before, after[..|after| - 1], depth);
    } else {
      assert before == after;
    }
  }

  /** What adds nothing at a level has no delivery there. */
  lemma {:induction false} NoneAtLevel(before: seq<Delivery>, after: seq<Delivery>, depth: nat, mask: Mask)
    requires before <= after && Level(after, depth) == Level(before, depth)
    ensures Under(before, after, depth, mask)
    decreases |after|
  {
    if |before| < |after| {
      var t := after[..|after| - 1];
      LevelIsNoLess(before, t, depth);
      NoneAtLevel(before, t, depth, mask);
      assert forall k | 0 <= k < |t| :: after[k] == t[k];
    }
  }

  lemma {:induction false} BodyUnder(s: State, body: Body, depth: nat, mask: Mask)
    requires LeavesMask(body) && |s.active| == depth && s.blocked == mask
    ensures Under(s.log, RunBody(s, body).log, depth, mask)
    decreases body, 0
  {
    if body.Then? && !s.exited {
      var t := RunCall(s, body.call);
      CallUnder(s, body.call, depth, mask);
      if t.exited {
        assert RunBody(t, body.rest) == t;
      } else {
        BodyUnder(t, body.rest, depth, mask);
        UnderOn(s.log, t.log, RunBody(t, body.rest).log, depth, mask);
      }
    }
  }

  lemma {:induction false} CallUnder(s: State, call: Call, depth: nat, mask: Mask)
    requires !call.SigProcMask? && |s.active| == depth && s.blocked == mask
    ensures Under(s.log, RunCall(s, call).log, depth, mask)
    ensures !RunCall(s, call).exited ==> |RunCall(s, call).active| == depth && RunCall(s, call).blocked == mask
    decreases call, NSIG + 2
  {
    if call.Process? {
      var p := Poll(s, call);
      LoopUnder(p, call, 1, p.pending - p.blocked, depth, mask);
      LoopKeepsMask(p, call, 1, p.pending - p.blocked);
    }
  }

  lemma {:induction false} LoopUnder(s: State, call: Call, i: nat, todo: Mask, depth: nat, mask: Mask)
    requires call.Process? && i <= NSIG && |s.active| == depth && s.blocked == mask
    ensures Under(s.log, ProcessLoop(s, call, i, todo).0.log, depth, mask)
    decreases NSIG - i
  {
    if i < NSIG && !s.exited {
      var u := AfterTurn(s, call, i, todo);
      LoopTurn(s, call, i, todo);
      TurnUnder(s, call, i, todo, depth, mask);
      if u.exited {
        assert ProcessLoop(u, call, i + 1, todo).0 == u;
      } else {
        LoopUnder(u, call, i + 1, todo, depth, mask);
        UnderOn(s.log, u.log, ProcessLoop(u, call, i + 1, todo).0.log, depth, mask);
      }
    }
  }

  lemma TurnUnder(s: State, call: Call, i: nat, todo: Mask, depth: nat, mask: Mask)
    requires call.Process? && i < NSIG && |s.active| == depth && s.blocked == mask
    ensures var u := AfterTurn(s, call, i, todo);
      Under(s.log, u.log, depth, mask) && (!u.exited ==> |u.active| == depth && u.blocked == mask)
  {
    if i in todo {
      var l := Take(s, i);
      DeliverStaysAbove(l, i, Reply(call, i), depth);
      DeliverLogs(l, i, Reply(call, i));
      DeliverKeepsMask(l, i, Reply(call, i));
      NoneAtLevel(l.log, Deliver(l, i, Reply(call, i)).log, depth, mask);
      UnderOn(s.log, l.log, Deliver(l, i, Reply(call, i)).log, depth, mask);
    }
  }

  /** The mask a handler for sig is to run under: what was blocked, what sa_mask names, and sig
      itself unless SA_NODEFER is given. */
  function HandlerMask(s: State, sig: nat): Mask
    requires sig < NSIG
  {
    s.blocked + SetOf(s.actions[sig].mask) + if BitOf(s.actions[sig].flags, 6) == 1 then {} else {sig}
  }

  /** While a handler runs that makes no sigprocmask call, whatever it calls and whatever the
      handlers inside it do, every delivery at its level is made under that mask; so nothing
      sa_mask names is delivered there. */
  lemma HandlerRunsUnderMask(s: State, sig: nat, body: Body)
    requires Inv(s) && sig < NSIG && s.handlers[sig].User? && LeavesMask(body)
    ensures var t := Deliver(s, sig, body); Under(s.log, t.log, |s.active| + 1, HandlerMask(s, sig))
    ensures var t := Deliver(s, sig, body);
      forall k, x: nat | |s.log| <= k < |t.log| && |t.log[k].active| == |s.active| + 1 && BitOf(s.actions[sig].mask, x) == 1 && x < NSIG ::
        t.log[k].sig != x
  {
    var e, t := Enter(s, sig), Deliver(s, sig, body);
    BodyUnder(e, body, |s.active| + 1, HandlerMask(s, sig));
    DeliverKeepsInv(s, sig, body);
    forall k, x: nat | |s.log| <= k < |t.log| && |t.log[k].active| == |s.active| + 1 && BitOf(s.actions[sig].mask, x) == 1 && x < NSIG
      ensures t.log[k].sig != x
    {
      assert x in t.log[k].blocked;
    }
  }

  // ---------- ignored and default ----------

  /** The signals whose default action does nothing here: SIGCHLD, SIGCONT, the four that would
      stop a process, SIGURG and SIGWINCH. */
  const HARMLESS: set<nat> := {17, 18, 19, 20, 21, 22, 23, 28}

  /** A default delivery ends the program exactly for the other signals, and changes nothing
      else; an ignored one changes nothing. */
  lemma DefaultIsExact(s: State, sig: nat, body: Body)
    requires 1 <= sig < NSIG
    ensures s.handlers[sig].Default? ==> Deliver(s, sig, body) == s.(exited := s.exited || sig !in HARMLESS)
    ensures s.handlers[sig].Ignore? ==> Deliver(s, sig, body) == s
  {
    var d := DefaultActions()[sig];
    assert d.Terminate? || d.Core? <==> sig !in HARMLESS;
  }

  // ---------- SA_RESETHAND ----------

  /** Flags are kept, and so is the whole entry of a signal without SA_RESETHAND. */
  predicate EntryKept(s: State, t: State, sig: nat)
    requires sig < NSIG
  {
    && t.actions[sig].flags == s.actions[sig].flags
    && (!s.actions[sig].ResetHand() ==> t.handlers[sig] == s.handlers[sig] && t.actions[sig] == s.actions[sig])
  }

  lemma {:induction false} BodyKeepsEntry(s: State, body: Body, sig: nat)
    requires KeepsTables(body) && sig < NSIG
    ensures EntryKept(s, RunBody(s, body), sig)
    decreases body, 0
  {
    if body.Then? && !s.exited {
      CallKeepsEntry(s, body.call, sig);
      BodyKeepsEntry(RunCall(s, body.call), body.rest, sig);
    }
  }

  lemma {:induction false} CallKeepsEntry(s: State, call: Call, sig: nat)
    requires CallKeepsTables(call) && sig < NSIG
    ensures EntryKept(s, RunCall(s, call), sig)
    decreases call, NSIG + 2
  {
    if call.Process? {
      var p := Poll(s, call);
      LoopKeepsEntry(p, call, 1, p.pending - p.blocked, sig);
    }
  }

  lemma {:induction false} LoopKeepsEntry(s: State, call: Call, i: nat, todo: Mask, sig: nat)
    requires call.Process? && RepliesKeepTables(call) && i <= NSIG && sig < NSIG
    ensures EntryKept(s, ProcessLoop(s, call, i, todo).0, sig)
    decreases call, NSIG - i
  {
    if i < NSIG && !s.exited {
      LoopTurn(s, call, i, todo);
      if i in todo { DeliverKeepsEntry(Take(s, i), i, Reply(call, i), sig); }
      LoopKeepsEntry(AfterTurn(s, call, i, todo), call, i + 1, todo, sig);
    }
  }

  lemma {:induction false} DeliverKeepsEntry(s: State, i: nat, body: Body, sig: nat)
    requires i < NSIG && KeepsTables(body) && sig < NSIG
    ensures EntryKept(s, Deliver(s, i, body), sig)
    decreases body, 1
  {
    if s.handlers[i].User? { BodyKeepsEntry(Enter(s, i), body, sig); }
  }

  /** When a handler that installs none returns, it is the default again if it was installed
      with SA_RESETHAND, and otherwise still installed. */
  lemma OneShot(s: State, sig: nat, body: Body)
    requires sig < NSIG && s.handlers[sig].User? && KeepsTables(body) && !Deliver(s, sig, body).exited
    ensures var t := Deliver(s, sig, body);
      if BitOf(s.actions[sig].flags, 7) == 1 then t.handlers[sig] == t.actions[sig].handler == Default
      else t.handlers[sig] == s.handlers[sig] && t.actions[sig] == s.actions[sig]
  {
    BodyKeepsEntry(Enter(s, sig), body, sig);
  }

  // ---------- what signal and sigaction report ----------

  /** An action that is not one-shot is reported as the old one by the next call that asks,
      whatever has been called in between that installs none. */
  lemma InstalledIsReported(s: State, sig: nat, act: Action, body: Body, next: Handler)
    requires Catchable(sig) && BitOf(act.flags, 7) != 1 && KeepsTables(body)
    ensures var t := RunBody(DoSigAction(s, sig, Some(act)).0, body);
      DoSigAction(t, sig, None) == (t, Some(act)) && DoSignal(t, sig, next).1 == Some(act.handler)
  {
    var u := DoSigAction(s, sig, Some(act)).0;
    BodyKeepsEntry(u, body, sig);
  }

  /** signal() changes the handler of a catchable signal, keeping its mask and flags, and no
      other's; for any other number neither call changes or reports anything. */
  lemma SignalInstalls(s: State, sig: int, handler: Handler, act: Option<Action>)
    ensures Catchable(sig) ==> var t := DoSignal(s, sig, handler).0;
      && DoSigAction(t, sig, None).1 == Some(Action(handler, s.actions[sig].mask, s.actions[sig].flags))
      && t.handlers[sig] == handler && forall i | 0 <= i < NSIG && i != sig :: t.handlers[i] == s.handlers[i] && t.actions[i] == s.actions[i]
    ensures !Catchable(sig) ==> DoSignal(s, sig, handler) == (s, None) && DoSigAction(s, sig, act) == (s, None)
  {
  }

  // ---------- sigprocmask and flags, bit by bit ----------

  /** Which signals are blocked after sigprocmask: 0 adds the set's, 1 takes them out and 2
      leaves only them, and 9 and 19 never are. */
  lemma MaskIsExact(s: State, how: int, m: Option<Word>, x: nat)
    requires x < NSIG
    ensures var (t, ok) := DoSigProcMask(s, how, m);
      && (ok <==> m.None? || 0 <= how <= 2) && (!ok ==> t == s) && t == s.(blocked := t.blocked)
      && (ok ==> (x in t.blocked <==>
          x != 9 && x != 19 &&
          if m.None? then x in s.blocked
          else if how == 0 then x in s.blocked || BitOf(m.value, x) == 1
          else if how == 1 then x in s.blocked && BitOf(m.value, x) == 0
          else BitOf(m.value, x) == 1))
  {
    if m.Some? { BitIsBinary(m.value, x); }
  }

  /** The flags are tested by their bits in sa_flags. */
  lemma FlagsAreBits(act: Action)
    ensures act.NoDefer() <==> BitAnd(act.flags, 0x40) != 0
    ensures act.ResetHand() <==> BitAnd(act.flags, 0x80) != 0
  {
    TestIsMembership(act.flags, 6);
    TestIsMembership(act.flags, 7);
    BitSix();
  }

  lemma BitSix()
    ensures Bit(6) == 0x40 && Bit(7) == 0x80
  {
    assert Pow2(6) == 0x40 && Pow2(7) == 0x80;
  }
}
