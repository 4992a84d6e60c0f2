/** How deep handlers can nest. */
module SignalNesting {
  import opened Counting
  import opened Powers
  import opened WordArithmetic
  import opened SignalSets
  import opened SignalSpec
  import opened SignalRuns
  import opened Wrappers

  /** Which of the three features a program may use: installing a handler with
      SA_NODEFER, and, inside a handler, SIG_UNBLOCK and SIG_SETMASK. */
  datatype Allowed = Allowed(nodefer: bool, unblock: bool, setmask: bool)

  const GENTLE := Allowed(false, false, false)

  /** body keeps to what is allowed; top says that it is not part of a handler. */
  predicate Within(body: Body, a: Allowed, top: bool)
    decreases body, 0
  {
    body.Done? || (CallWithin(body.call, a, top) && Within(body.rest, a, top))
  }

  predicate CallWithin(call: Call, a: Allowed, top: bool)
    decreases call, 1
  {
    match call
    case SigAction(_, act) => act.None? || a.nodefer || !act.value.NoDefer()
    case SigProcMask(how, mask) =>
      top || mask.None? || ((how == SIG_UNBLOCK ==> a.unblock) && (how == SIG_SETMASK ==> a.setmask))
    case Process(_, _, _) => RepliesWithin(call, a)
    case _ => true
  }

  predicate RepliesWithin(call: Call, a: Allowed)
    requires call.Process?
    decreases call, 0
  {
    Within(call.other, a, false) && forall i | 0 <= i < |call.replies| :: Within(call.replies[i], a, false)
  }

  /** The handlers running are all different and catchable. */
  predicate Stack(active: seq<nat>) {
    Distinct(active) && forall k | 0 <= k < |active| :: Catchable(active[k])
  }

  function StackOf(d: Delivery): seq<nat> {
    if d.user then d.active + [d.sig] else d.active
  }

  function DepthOf(d: Delivery): nat {
    |StackOf(d)|
  }

  ghost predicate Shallow(log: seq<Delivery>) {
    forall k | 0 <= k < |log| :: Stack(StackOf(log[k]))
  }

  /** Handlers running have their own signals blocked. */
  ghost predicate Nested(s: State) {
    && Stack(s.active) && (forall k | 0 <= k < |s.active| :: s.active[k] in s.blocked)
    && (forall i | 0 <= i < NSIG :: !s.actions[i].NoDefer())
    && Shallow(s.log)
  }

  lemma {:induction false} BodyKeepsNested(s: State, body: Body, top: bool)
    requires Inv(s) && Nested(s) && Within(body, GENTLE, top) && (top ==> s.active == [])
    ensures var t := RunBody(s, body); Shallow(t.log) && (!t.exited ==> Nested(t) && t.active == s.active)
    decreases body, 0
  {
    if body.Then? && !s.exited {
      CallKeepsNested(s, body.call, top);
      CallKeepsInv(s, body.call);
      var t := RunCall(s, body.call);
      if !t.exited { BodyKeepsNested(t, body.rest, top); }
    }
  }

  lemma {:induction false} CallKeepsNested(s: State, call: Call, top: bool)
    requires Inv(s) && Nested(s) && CallWithin(call, GENTLE, top) && (top ==> s.active == [])
    ensures var t := RunCall(s, call); Shallow(t.log) && (!t.exited ==> Nested(t) && t.active == s.active)
    decreases call, NSIG + 2
  {
    if call.Process? {
      var p := Poll(s, call);
      LoopKeepsNested(p, call, 1, p.pending - p.blocked);
    }
  }

  lemma {:induction false} LoopKeepsNested(s: State, call: Call, i: nat, todo: Mask)
    requires Inv(s) && Nested(s) && call.Process? && RepliesWithin(call, GENTLE) && i <= NSIG && todo !! s.blocked
    ensures var t := ProcessLoop(s, call, i, todo).0; Shallow(t.log) && (!t.exited ==> Nested(t) && t.active == s.active)
    decreases call, NSIG - i
  {
    if i < NSIG && !s.exited {
      if i in todo {
        var t := Take(s, i);
        TakeKeepsNested(s, i);
        TakeKeepsInv(s, i);
        DeliverKeepsNested(t, i, Reply(call, i));
        DeliverKeepsInv(t, i, Reply(call, i));
        DeliverKeepsMask(t, i, Reply(call, i));
        var u := Deliver(t, i, Reply(call, i));
        if !u.exited { LoopKeepsNested(u, call, i + 1, todo); }
      } else {
        LoopKeepsNested(s, call, i + 1, todo);
      }
    }
  }

  lemma TakeKeepsNested(s: State, sig: nat)
    requires Inv(s) && Nested(s) && sig < NSIG && sig !in s.blocked
    ensures Nested(Take(s, sig))
  {
    if s.handlers[sig].User? { PushKeepsStack(s.active, sig); }
  }

  lemma {:induction false} DeliverKeepsNested(s: State, sig: nat, body: Body)
    requires Inv(s) && Nested(s) && sig < NSIG && sig !in s.blocked && Within(body, GENTLE, false)
    ensures var t := Deliver(s, sig, body); Shallow(t.log) && (!t.exited ==> Nested(t))
    decreases body, 1
  {
    if s.handlers[sig].User? {
      PushKeepsStack(s.active, sig);
      BodyKeepsNested(Enter(s, sig), body, false);
    }
  }

  lemma PushKeepsStack(active: seq<nat>, sig: nat)
    requires Stack(active) && Catchable(sig) && sig !in active
    ensures Stack(active + [sig])
  {
  }

  /** 29 signals can be caught. */
  lemma StackIsBounded(active: seq<nat>)
    requires Stack(active)
    ensures |active| <= NSIG - 3
  {
    DistinctCount(active);
    var used := set i | 0 <= i < |active| :: active[i];
    CountBelow(used + {0, SIGKILL, SIGSTOP}, NSIG);
    assert used !! {0, SIGKILL, SIGSTOP};
    assert |used + {0, SIGKILL, SIGSTOP}| == |used| + |{0, SIGKILL, SIGSTOP}|;
  }

  /** At no delivery in the program's history have more than 29 handlers been running. */
  ghost predicate Bounded(program: Body) {
    NotDeep(History(program))
  }

  function History(program: Body): seq<Delivery> {
    RunBody(INITIAL, program).log
  }

  ghost predicate NotDeep(log: seq<Delivery>) {
    forall k | 0 <= k < |log| :: DepthOf(log[k]) <= NSIG - 3
  }

  /** In a program that uses none of the three, no handler is ever entered while another
      run of it is going on, so at most 29 run at once.  Outside handlers it may do to the
      mask what it likes. */
  lemma NestingIsBounded(program: Body, k: nat)
    requires Within(program, GENTLE, true) && k < |RunBody(INITIAL, program).log|
    ensures var d := RunBody(INITIAL, program).log[k];
      Distinct(StackOf(d)) && |StackOf(d)| <= 29
  {
    ZeroBits(6);
    BodyKeepsNested(INITIAL, program, true);
    StackIsBounded(StackOf(RunBody(INITIAL, program).log[k]));
  }

  // ---------- with one of the three ----------

  /** A handler that does open, raises its own signal and processes it, n deep. */
  function Nesting(sig: nat, open: Call, n: nat): Body {
    if n == 0 then Done
    else Then(open, Then(Call.Raise(sig), Then(Process(false, [], Nesting(sig, open, n - 1)), Done)))
  }

  const NOTHING := SigProcMask(SIG_BLOCK, None)
  const CLEAR := SigProcMask(SIG_SETMASK, Some(0))

  function Unblock(sig: nat): Call
    requires sig < NSIG
  {
    SigProcMask(SIG_UNBLOCK, Some(Bit(sig)))
  }

  /** A state in which sig has a user handler, and open leaves nothing blocked. */
  ghost predicate Reentrant(s: State, sig: nat, open: Call) {
    && Catchable(sig) && s.handlers[sig].User? && !s.actions[sig].ResetHand()
    && s.actions[sig].mask == 0 && s.pending == {} && s.blocked <= {sig} && !s.exited
    && (open == Unblock(sig) || open == CLEAR || (open == NOTHING && s.actions[sig].NoDefer() && s.blocked == {}))
  }

  ghost predicate Deep(log: seq<Delivery>, depth: nat) {
    exists k | 0 <= k < |log| :: DepthOf(log[k]) >= depth
  }

  lemma OpenUnblocks(s: State, sig: nat, open: Call)
    requires Reentrant(s, sig, open)
    ensures RunCall(s, open) == s.(blocked := {})
  {
    NoBits(0);
    BitIsSingleton(sig);
  }

  /** A body of three calls, of which the first two do not end the program. */
  lemma RunThree(s: State, b: Call, c: Call, d: Call)
    requires !s.exited && !RunCall(s, b).exited && !RunCall(RunCall(s, b), c).exited
    ensures RunBody(s, Then(b, Then(c, Then(d, Done)))) == RunCall(RunCall(RunCall(s, b), c), d)
  {
    var t := RunCall(s, b);
    var u := RunCall(t, c);
    assert RunBody(s, Then(b, Then(c, Then(d, Done)))) == RunBody(t, Then(c, Then(d, Done)));
    assert RunBody(t, Then(c, Then(d, Done))) == RunBody(u, Then(d, Done));
    assert RunBody(u, Then(d, Done)) == RunBody(RunCall(u, d), Done);
  }

  lemma RaiseIs(s: State, sig: nat)
    requires 1 <= sig < NSIG && s.pending == {}
    ensures RunCall(s, Call.Raise(sig)) == s.(pending := {sig})
  {
  }

  lemma NestingStarts(s: State, sig: nat, open: Call, body: Body)
    requires Reentrant(s, sig, open)
    ensures var r := s.(blocked := {}, pending := {sig});
      RunBody(s, Then(open, Then(Call.Raise(sig), Then(Process(false, [], body), Done)))) == Deliver(Take(r, sig), sig, body)
  {
    OpenUnblocks(s, sig, open);
    RaiseIs(s.(blocked := {}), sig);
    RunThree(s, open, Call.Raise(sig), Process(false, [], body));
    OneDelivery(s.(blocked := {}, pending := {sig}), Process(false, [], body), sig);
  }

  lemma {:induction false} NestingGoesDeep(s: State, sig: nat, open: Call, n: nat)
    requires Reentrant(s, sig, open)
    ensures var t := RunBody(s, Nesting(sig, open, n));
      Reentrant(t, sig, open) && s.log <= t.log && (n > 0 ==> Deep(t.log, |s.active| + n))
    decreases n
  {
    if n > 0 {
      var l := Take(s.(blocked := {}, pending := {sig}), sig);
      NestingStarts(s, sig, open, Nesting(sig, open, n - 1));
      NestedEntry(l, sig, open);
      NestingGoesDeep(Enter(l, sig), sig, open, n - 1);
      NestedReturn(l, sig, open, n, RunBody(Enter(l, sig), Nesting(sig, open, n - 1)));
    }
  }

  /** In the handler it starts again. */
  lemma NestedEntry(l: State, sig: nat, open: Call)
    requires Reentrant(l, sig, open) && l.blocked == {}
    ensures Reentrant(Enter(l, sig), sig, open) && Enter(l, sig).log == l.log && |Enter(l, sig).active| == |l.active| + 1
  {
    NoBits(0);
  }

  lemma NestedReturn(l: State, sig: nat, open: Call, n: nat, u: State)
    requires Reentrant(l, sig, open) && l.blocked == {} && n > 0
    requires |l.log| > 0 && |StackOf(l.log[|l.log| - 1])| == |l.active| + 1
    requires u == RunBody(Enter(l, sig), Nesting(sig, open, n - 1))
    requires Reentrant(u, sig, open) && l.log <= u.log && (n > 1 ==> Deep(u.log, |l.active| + n))
    ensures var t := Deliver(l, sig, Nesting(sig, open, n - 1));
      Reentrant(t, sig, open) && l.log <= t.log && Deep(t.log, |l.active| + n)
  {
    assert Deliver(l, sig, Nesting(sig, open, n - 1)) == Leave(l, u, sig);
    assert |StackOf(u.log[|l.log| - 1])| == |l.active| + 1;
  }

  // ---------- the three witnesses ----------

  function NodeferProgram(sig: nat, n: nat): Body {
    Then(Call.SigAction(sig, Some(Action(User(0), 0, 0x40))), Nesting(sig, NOTHING, n))
  }

  function HandlerProgram(sig: nat, open: Call, n: nat): Body {
    Then(Call.Signal(sig, User(0)), Nesting(sig, open, n))
  }

  /** Whatever catchable signal has a handler with SA_NODEFER, it can nest n deep. */
  lemma NodeferNestsWithoutBound(sig: nat, n: nat)
    requires Catchable(sig) && n > 0
    ensures Within(NodeferProgram(sig, n), Allowed(true, false, false), true)
    ensures Deep(RunBody(INITIAL, NodeferProgram(sig, n)).log, n)
  {
    var act := Action(User(0), 0, 0x40);
    NodeferFlag();
    var s := DoSigAction(INITIAL, sig, Some(act)).0;
    assert RunCall(INITIAL, Call.SigAction(sig, Some(act))) == s;
    NestingGoesDeep(s, sig, NOTHING, n);
    NestingWithin(sig, NOTHING, n, Allowed(true, false, false), true);
  }

  lemma NodeferFlag()
    ensures BitOf(0x40, 6) == 1 && BitOf(0x40, 7) == 0
  {
    assert Pow2(6) == 0x40;
    BitOfPower(6, 6);
    BitOfPower(6, 7);
  }

  lemma {:induction false} NestingWithin(sig: nat, open: Call, n: nat, a: Allowed, top: bool)
    requires CallWithin(open, a, true) && CallWithin(open, a, false)
    ensures Within(Nesting(sig, open, n), a, top)
    decreases n
  {
    if n > 0 {
      NestingWithin(sig, open, n - 1, a, false);
      ProcessWithin(sig, Nesting(sig, open, n - 1), a, top);
    }
  }

  lemma ProcessWithin(sig: nat, body: Body, a: Allowed, top: bool)
    requires Within(body, a, false)
    ensures Within(Then(Call.Raise(sig), Then(Process(false, [], body), Done)), a, top)
  {
    var process := Process(false, [], body);
    assert CallWithin(process, a, top) && Within(Done, a, top);
    assert Within(Then(process, Done), a, top);
    assert CallWithin(Call.Raise(sig), a, top);
  }

  lemma Installed(sig: nat, open: Call)
    requires Catchable(sig) && (open == Unblock(sig) || open == CLEAR)
    ensures var s := RunCall(INITIAL, Call.Signal(sig, User(0))); Reentrant(s, sig, open) && s.log == [] && s.active == []
  {
    ZeroBits(7);
  }

  /** So can one whose handler unblocks it, without SA_NODEFER. */
  lemma UnblockNestsWithoutBound(sig: nat, n: nat)
    requires Catchable(sig) && n > 0
    ensures Within(HandlerProgram(sig, Unblock(sig), n), Allowed(false, true, false), true)
    ensures Deep(RunBody(INITIAL, HandlerProgram(sig, Unblock(sig), n)).log, n)
  {
    Installed(sig, Unblock(sig));
    NestingGoesDeep(RunCall(INITIAL, Call.Signal(sig, User(0))), sig, Unblock(sig), n);
    NestingWithin(sig, Unblock(sig), n, Allowed(false, true, false), true);
  }

  /** And one whose handler sets an empty mask. */
  lemma SetMaskNestsWithoutBound(sig: nat, n: nat)
    requires Catchable(sig) && n > 0
    ensures Within(HandlerProgram(sig, CLEAR, n), Allowed(false, false, true), true)
    ensures Deep(RunBody(INITIAL, HandlerProgram(sig, CLEAR, n)).log, n)
  {
    Installed(sig, CLEAR);
    NestingGoesDeep(RunCall(INITIAL, Call.Signal(sig, User(0))), sig, CLEAR, n);
    NestingWithin(sig, CLEAR, n, Allowed(false, false, true), true);
  }

  // ---------- how deep it does go without them ----------

  /** Each handler raises the next signal of the list and processes it. */
  function Chain(sigs: seq<nat>): Body {
    if sigs == [] then Done
    else Then(Call.Raise(sigs[0]), Then(Process(false, [], Chain(sigs[1..])), Done))
  }

  /** Handlers for the signals of a list, and then rest. */
  function Install(sigs: seq<nat>, rest: Body): Body {
    if sigs == [] then rest else Then(Call.Signal(sigs[0], User(0)), Install(sigs[1..], rest))
  }

  predicate Plain(s: State, sig: nat)
    requires sig < NSIG
  {
    s.actions[sig].mask == 0 && s.actions[sig].flags == 0
  }

  /** sig has a handler that blocks nothing but sig, and it is not blocked. */
  predicate Ready(s: State, sig: nat) {
    Catchable(sig) && s.handlers[sig].User? && Plain(s, sig) && sig !in s.blocked
  }

  ghost predicate AllReady(s: State, sigs: seq<nat>) {
    forall i | 0 <= i < |sigs| :: Ready(s, sigs[i])
  }

  lemma RunTwo(s: State, b: Call, c: Call)
    requires !s.exited && !RunCall(s, b).exited
    ensures RunBody(s, Then(b, Then(c, Done))) == RunCall(RunCall(s, b), c)
  {
    var t := RunCall(s, b);
    assert RunBody(s, Then(b, Then(c, Done))) == RunBody(t, Then(c, Done));
    assert RunBody(t, Then(c, Done)) == RunBody(RunCall(t, c), Done);
  }

  lemma ChainStarts(s: State, sigs: seq<nat>)
    requires sigs != [] && Ready(s, sigs[0]) && s.pending == {} && !s.exited
    ensures var r := s.(pending := {sigs[0]});
      RunBody(s, Chain(sigs)) == Deliver(Take(r, sigs[0]), sigs[0], Chain(sigs[1..]))
  {
    var sig, call := sigs[0], Process(false, [], Chain(sigs[1..]));
    RaiseIs(s, sig);
    RunTwo(s, Call.Raise(sig), call);
    OneDelivery(s.(pending := {sig}), call, sig);
  }

  lemma StillReady(s: State, l: State, sigs: seq<nat>)
    requires Distinct(sigs) && sigs != [] && AllReady(s, sigs)
    requires l == Take(s.(pending := {sigs[0]}), sigs[0])
    ensures AllReady(Enter(l, sigs[0]), sigs[1..]) && Distinct(sigs[1..])
  {
    NoBits(0);
    forall i | 0 <= i < |sigs[1..]| ensures Ready(Enter(l, sigs[0]), sigs[1..][i]) {
      assert sigs[1..][i] == sigs[i + 1] && sigs[i + 1] != sigs[0];
      assert Ready(s, sigs[i + 1]);
    }
  }

  lemma {:induction false} ChainGoesDeep(s: State, sigs: seq<nat>)
    requires Distinct(sigs) && sigs != [] && AllReady(s, sigs) && s.pending == {} && !s.exited
    ensures Deep(RunBody(s, Chain(sigs)).log, |s.active| + |sigs|)
    decreases |sigs|
  {
    assert Ready(s, sigs[0]);
    var l := Take(s.(pending := {sigs[0]}), sigs[0]);
    var e := Enter(l, sigs[0]);
    ChainStarts(s, sigs);
    StillReady(s, l, sigs);
    BodyLogs(e, Chain(sigs[1..]));
    var u := RunBody(e, Chain(sigs[1..]));
    if |sigs| == 1 {
      assert u.log[|s.log|] == l.log[|s.log|];
    } else {
      ChainGoesDeep(e, sigs[1..]);
    }
    assert RunBody(s, Chain(sigs)).log == u.log;
  }

  /** A program that has done nothing but install plain handlers. */
  predicate Quiet(s: State) {
    s.pending == {} && s.blocked == {} && !s.exited && forall i: nat | i < NSIG :: Plain(s, i)
  }

  lemma {:induction false} InstallReadies(s: State, sigs: seq<nat>, rest: Body) returns (t: State)
    requires Quiet(s) && forall i | 0 <= i < |sigs| :: Catchable(sigs[i])
    ensures RunBody(s, Install(sigs, rest)) == RunBody(t, rest)
    ensures Quiet(t) && t.active == s.active && AllReady(t, sigs)
    ensures forall i: nat | i < NSIG && s.handlers[i].User? :: t.handlers[i].User?
    decreases |sigs|
  {
    if sigs == [] {
      t := s;
    } else {
      var u := RunCall(s, Call.Signal(sigs[0], User(0)));
      assert forall i: nat | i < NSIG :: Plain(s, i) ==> Plain(u, i);
      t := InstallReadies(u, sigs[1..], rest);
      forall i | 0 <= i < |sigs| ensures Ready(t, sigs[i]) {
        if i > 0 { assert Ready(t, sigs[1..][i - 1]); }
      }
    }
  }

  lemma {:induction false} ChainWithin(sigs: seq<nat>, top: bool)
    ensures Within(Chain(sigs), GENTLE, top)
  {
    if sigs != [] {
      ChainWithin(sigs[1..], false);
      ProcessWithin(sigs[0], Chain(sigs[1..]), GENTLE, top);
    }
  }

  lemma {:induction false} InstallWithin(sigs: seq<nat>, rest: Body)
    requires Within(rest, GENTLE, true)
    ensures Within(Install(sigs, rest), GENTLE, true)
  {
    if sigs != [] {
      InstallWithin(sigs[1..], rest);
      assert CallWithin(Call.Signal(sigs[0], User(0)), GENTLE, true);
    }
  }

  /** Any catchable signals, in any order, can have their handlers running inside each
      other. */
  lemma StackIsReached(sigs: seq<nat>)
    requires Stack(sigs) && sigs != []
    ensures Within(Install(sigs, Chain(sigs)), GENTLE, true) && Deep(History(Install(sigs, Chain(sigs))), |sigs|)
  {
    ChainWithin(sigs, true);
    InstallWithin(sigs, Chain(sigs));
    var t := InstallReadies(INITIAL, sigs, Chain(sigs));
    ChainGoesDeep(t, sigs);
  }

  /** All that can be caught. */
  function AllCatchable(): (s: seq<nat>)
    ensures Stack(s) && |s| == 29
  {
    seq(29, i requires 0 <= i < 29 => if i < 8 then i + 1 else if i < 17 then i + 2 else i + 3)
  }

  /** So the bound of 29 is reached. */
  lemma BoundIsReached() returns (program: Body, k: nat)
    ensures Within(program, GENTLE, true) && k < |History(program)| && DepthOf(History(program)[k]) == 29
  {
    var sigs := AllCatchable();
    program := Install(sigs, Chain(sigs));
    StackIsReached(sigs);
    k :| k < |History(program)| && DepthOf(History(program)[k]) >= 29;
    NestingIsBounded(program, k);
  }

  // ---------- exactly ----------

  lemma {:induction false} MoreIsAllowed(body: Body, a: Allowed, b: Allowed, top: bool)
    requires Within(body, a, top)
    requires (a.nodefer ==> b.nodefer) && (a.unblock ==> b.unblock) && (a.setmask ==> b.setmask)
    ensures Within(body, b, top)
    decreases body
  {
    if body.Then? {
      assert CallWithin(body.call, a, top);
      MoreIsAllowed(body.rest, a, b, top);
      if body.call.Process? {
        assert RepliesWithin(body.call, a);
        MoreIsAllowed(body.call.other, a, b, false);
        forall i | 0 <= i < |body.call.replies| ensures Within(body.call.replies[i], b, false) {
          MoreIsAllowed(body.call.replies[i], a, b, false);
        }
      }
    }
  }

  /** Some program within what is allowed goes deeper than 29. */
  lemma TooDeep(a: Allowed) returns (program: Body)
    requires a != GENTLE
    ensures Within(program, a, true) && !Bounded(program)
  {
    if a.nodefer {
      NodeferNestsWithoutBound(10, NSIG);
      program := NodeferProgram(10, NSIG);
      MoreIsAllowed(program, Allowed(true, false, false), a, true);
    } else if a.unblock {
      UnblockNestsWithoutBound(10, NSIG);
      program := HandlerProgram(10, Unblock(10), NSIG);
      MoreIsAllowed(program, Allowed(false, true, false), a, true);
    } else {
      SetMaskNestsWithoutBound(10, NSIG);
      program := HandlerProgram(10, CLEAR, NSIG);
      MoreIsAllowed(program, Allowed(false, false, true), a, true);
    }
  }

  /** Nesting is bounded for all programs that keep to what is allowed if and only if none
      of the three is allowed. */
  lemma BoundIsExact(a: Allowed)
    ensures (forall program: Body | Within(program, a, true) :: Bounded(program)) <==> a == GENTLE
  {
    if a == GENTLE {
      forall program: Body | Within(program, a, true) ensures Bounded(program) {
        forall k | 0 <= k < |RunBody(INITIAL, program).log|
          ensures |StackOf(RunBody(INITIAL, program).log[k])| <= NSIG - 3
        {
          NestingIsBounded(program, k);
        }
      }
    } else {
      var program := TooDeep(a);
    }
  }
}
