/** Handlers that process signals themselves: when the outer call delivers a signal that an
    inner one has already taken. */
module SignalReentry {
  import opened SignalSets
  import opened SignalSpec
  import opened SignalRuns
  import opened SignalDelivery

  // ---------- signals left alone ----------

  /** From s to t no signal of keep has been delivered, and those pending still are. */
  ghost predicate Leaves(s: State, t: State, keep: Mask) {
    && s.log <= t.log && (forall k | |s.log| <= k < |t.log| :: t.log[k].sig !in keep)
    && (forall x | x in keep && x in s.pending :: x in t.pending)
  }

  lemma LeavesOn(s: State, t: State, u: State, keep: Mask)
    requires Leaves(s, t, keep) && Leaves(t, u, keep)
    ensures Leaves(s, u, keep)
  {
    forall k | |s.log| <= k < |u.log| ensures u.log[k].sig !in keep {
      if k < |t.log| { assert u.log[k] == t.log[k]; }
    }
  }

  lemma LoopStops(s: State, call: Call, i: nat, todo: Mask)
    requires call.Process? && i <= NSIG && s.exited
    ensures ProcessLoop(s, call, i, todo).0 == s
  {
  }

  lemma ProcessIsLoop(s: State, call: Call)
    requires call.Process?
    ensures DoProcess(s, call) == ProcessLoop(Poll(s, call), call, 1, Poll(s, call).pending - Poll(s, call).blocked)
  {
    LoopOverNothing(Poll(s, call), call);
  }

  lemma BodyAfterExit(s: State, body: Body)
    ensures s.exited ==> RunBody(s, body) == s
  {
  }

  // ---------- inner processing under a mask ----------

  /** Whenever signals are processed while body runs from s, at whatever depth, all of keep
      are blocked. */
  predicate BodyGuards(s: State, body: Body, keep: Mask)
    decreases body, 0
  {
    body.Done? || s.exited || (CallGuards(s, body.call, keep) && BodyGuards(RunCall(s, body.call), body.rest, keep))
  }

  predicate CallGuards(s: State, call: Call, keep: Mask)
    decreases call, NSIG + 2
  {
    call.Process? ==>
      var p := Poll(s, call);
      keep <= p.blocked && LoopGuards(p, call, 1, p.pending - p.blocked, keep)
  }

  predicate LoopGuards(s: State, call: Call, i: nat, todo: Mask, keep: Mask)
    requires call.Process? && i <= NSIG
    decreases call, NSIG - i
  {
    i == NSIG || s.exited ||
    ((i in todo ==> DeliverGuards(Take(s, i), i, Reply(call, i), keep)) &&
     LoopGuards(AfterTurn(s, call, i, todo), call, i + 1, todo, keep))
  }

  predicate DeliverGuards(s: State, sig: nat, body: Body, keep: Mask)
    requires sig < NSIG
    decreases body, 1
  {
    s.handlers[sig].User? ==> BodyGuards(Enter(s, sig), body, keep)
  }

  /** What is blocked at every inner call is left alone. */
  lemma {:induction false} BodyLeaves(s: State, body: Body, keep: Mask)
    requires BodyGuards(s, body, keep)
    ensures Leaves(s, RunBody(s, body), keep)
    decreases body, 0
  {
    if body.Then? && !s.exited {
      var t := RunCall(s, body.call);
      CallLeaves(s, body.call, keep);
      BodyLeaves(t, body.rest, keep);
      LeavesOn(s, t, RunBody(t, body.rest), keep);
    }
  }

  lemma {:induction false} CallLeaves(s: State, call: Call, keep: Mask)
    requires CallGuards(s, call, keep)
    ensures Leaves(s, RunCall(s, call), keep)
    decreases call, NSIG + 2
  {
    if call.Process? {
      var p := Poll(s, call);
      LoopLeaves(p, call, 1, p.pending - p.blocked, keep);
      LeavesOn(s, p, RunCall(s, call), keep);
    }
  }

  lemma {:induction false} LoopLeaves(s: State, call: Call, i: nat, todo: Mask, keep: Mask)
    requires call.Process? && i <= NSIG && todo !! keep && LoopGuards(s, call, i, todo, keep)
    ensures Leaves(s, ProcessLoop(s, call, i, todo).0, keep)
    decreases call, NSIG - i
  {
    if i < NSIG && !s.exited {
      var u := AfterTurn(s, call, i, todo);
      if i in todo { TurnLeaves(s, call, i, todo, keep); }
      LoopTurn(s, call, i, todo);
      LoopLeaves(u, call, i + 1, todo, keep);
      LeavesOn(s, u, ProcessLoop(u, call, i + 1, todo).0, keep);
    }
  }

  lemma {:induction false} TurnLeaves(s: State, call: Call, i: nat, todo: Mask, keep: Mask)
    requires call.Process? && i < NSIG && i in todo && todo !! keep
    requires DeliverGuards(Take(s, i), i, Reply(call, i), keep)
    ensures Leaves(s, AfterTurn(s, call, i, todo), keep)
    decreases call, NSIG - i, 0
  {
    var l := Take(s, i);
    assert i !in keep;
    DeliverLeaves(l, i, Reply(call, i), keep);
    LeavesOn(s, l, Deliver(l, i, Reply(call, i)), keep);
  }

  lemma {:induction false} DeliverLeaves(s: State, sig: nat, body: Body, keep: Mask)
    requires sig < NSIG && DeliverGuards(s, sig, body, keep)
    ensures Leaves(s, Deliver(s, sig, body), keep)
    decreases body, 1
  {
    if s.handlers[sig].User? { BodyLeaves(Enter(s, sig), body, keep); }
  }

  // ---------- unblocked signals are taken ----------

  /** A delivery of x is logged between s and t. */
  ghost predicate Taken(s: State, t: State, x: nat) {
    exists k | |s.log| <= k < |t.log| :: t.log[k].sig == x
  }

  lemma TakenLater(s: State, t: State, u: State, x: nat)
    requires s.log <= t.log <= u.log && (Taken(s, t, x) || Taken(t, u, x))
    ensures Taken(s, u, x)
  {
    if Taken(s, t, x) {
      var k :| |s.log| <= k < |t.log| && t.log[k].sig == x;
      assert u.log[k].sig == x;
    } else {
      var k :| |t.log| <= k < |u.log| && u.log[k].sig == x;
    }
  }

  /** What is in the snapshot is delivered, if the loop comes to its end. */
  lemma {:induction false} LoopTakes(s: State, call: Call, i: nat, todo: Mask, x: nat)
    requires call.Process? && i <= x < NSIG && x in todo && !ProcessLoop(s, call, i, todo).0.exited
    ensures Taken(s, ProcessLoop(s, call, i, todo).0, x)
    decreases NSIG - i
  {
    if s.exited {
      LoopStops(s, call, i, todo);
    } else {
      var u := AfterTurn(s, call, i, todo);
      LoopTurn(s, call, i, todo);
      TurnLogs(s, call, i, todo);
      LoopLogs(u, call, i + 1, todo);
      if i == x {
        TurnTakesOwn(s, call, i, todo);
      } else {
        LoopTakes(u, call, i + 1, todo, x);
      }
      TakenLater(s, u, ProcessLoop(s, call, i, todo).0, x);
    }
  }

  lemma TurnLogs(s: State, call: Call, i: nat, todo: Mask)
    requires call.Process? && i < NSIG
    ensures s.log <= AfterTurn(s, call, i, todo).log
  {
    if i in todo { DeliverLogs(Take(s, i), i, Reply(call, i)); }
  }

  lemma TurnTakesOwn(s: State, call: Call, i: nat, todo: Mask)
    requires call.Process? && i < NSIG && i in todo
    ensures Taken(s, AfterTurn(s, call, i, todo), i)
  {
    var u := AfterTurn(s, call, i, todo);
    DeliverLogs(Take(s, i), i, Reply(call, i));
    assert u.log[|s.log|].sig == i;
  }

  // ---------- what is not raised ----------

  /** body, and whatever runs inside it, does not raise x. */
  predicate Spares(body: Body, x: nat)
    decreases body, 0
  {
    body.Done? || (CallSpares(body.call, x) && Spares(body.rest, x))
  }

  predicate CallSpares(call: Call, x: nat)
    decreases call, 1
  {
    match call
    case Raise(sig) => sig != x
    case Kill(_, sig) => sig != x
    case Process(cmdPeriod, _, _) => !(cmdPeriod && x == SIGINT) && RepliesSpare(call, x)
    case _ => true
  }

  predicate RepliesSpare(call: Call, x: nat)
    requires call.Process?
    decreases call, 0
  {
    Spares(call.other, x) && forall i | 0 <= i < |call.replies| :: Spares(call.replies[i], x)
  }

  lemma {:induction false} BodySpares(s: State, body: Body, x: nat)
    requires Spares(body, x) && x !in s.pending && x > 0
    ensures x !in RunBody(s, body).pending
    decreases body, 0
  {
    if body.Then? && !s.exited {
      CallKeepsSpared(s, body.call, x);
      BodySpares(RunCall(s, body.call), body.rest, x);
    }
  }

  lemma {:induction false} CallKeepsSpared(s: State, call: Call, x: nat)
    requires CallSpares(call, x) && x !in s.pending && x > 0
    ensures x !in RunCall(s, call).pending
    decreases call, NSIG + 2
  {
    if call.Process? {
      var p := Poll(s, call);
      LoopSpares(p, call, 1, p.pending - p.blocked, x);
    }
  }

  lemma {:induction false} LoopSpares(s: State, call: Call, i: nat, todo: Mask, x: nat)
    requires call.Process? && RepliesSpare(call, x) && i <= NSIG && x !in s.pending && x > 0
    ensures x !in ProcessLoop(s, call, i, todo).0.pending
    decreases call, NSIG - i
  {
    if i < NSIG && !s.exited {
      if i in todo {
        DeliverSpares(Take(s, i), i, Reply(call, i), x);
        LoopSpares(Deliver(Take(s, i), i, Reply(call, i)), call, i + 1, todo, x);
      } else {
        LoopSpares(s, call, i + 1, todo, x);
      }
    }
  }

  lemma {:induction false} DeliverSpares(s: State, sig: nat, body: Body, x: nat)
    requires sig < NSIG && Spares(body, x) && x !in s.pending && x > 0
    ensures x !in Deliver(s, sig, body).pending
    decreases body, 1
  {
    if s.handlers[sig].User? { BodySpares(Enter(s, sig), body, x); }
  }

  /** A loop that comes to its end takes the signals of its snapshot off. */
  lemma {:induction false} LoopRemoves(s: State, call: Call, i: nat, todo: Mask, x: nat)
    requires call.Process? && RepliesSpare(call, x) && 1 <= i <= x < NSIG && x in todo
    requires !ProcessLoop(s, call, i, todo).0.exited
    ensures x !in ProcessLoop(s, call, i, todo).0.pending
    decreases NSIG - i
  {
    if s.exited {
      LoopStops(s, call, i, todo);
    } else {
      var u := AfterTurn(s, call, i, todo);
      LoopTurn(s, call, i, todo);
      if i == x {
        DeliverSpares(Take(s, i), i, Reply(call, i), x);
        LoopSpares(u, call, i + 1, todo, x);
      } else {
        LoopRemoves(u, call, i + 1, todo, x);
      }
    }
  }

  // ---------- inner processing without it ----------

  ghost predicate AllIn(keep: Mask, s: State) {
    forall x | x in keep :: 1 <= x < NSIG && x in s.pending
  }

  lemma LeavesAllIn(s: State, t: State, keep: Mask)
    requires AllIn(keep, s) && Leaves(s, t, keep)
    ensures AllIn(keep, t)
  {
  }

  /** Of pending signals that are not all blocked at every inner call, one is delivered; and
      unless it is raised again it is pending no more. */
  lemma {:induction false} BodyTakes(s: State, body: Body, keep: Mask) returns (x: nat)
    requires !BodyGuards(s, body, keep) && AllIn(keep, s) && !RunBody(s, body).exited
    ensures x in keep && Taken(s, RunBody(s, body), x)
    ensures Spares(body, x) ==> x !in RunBody(s, body).pending
    decreases body, 0
  {
    var t := RunCall(s, body.call);
    BodyAfterExit(t, body.rest);
    CallLogs(s, body.call);
    BodyLogs(t, body.rest);
    if CallGuards(s, body.call, keep) {
      CallLeaves(s, body.call, keep);
      LeavesAllIn(s, t, keep);
      x := BodyTakes(t, body.rest, keep);
    } else {
      x := CallTakes(s, body.call, keep);
      if Spares(body, x) { BodySpares(t, body.rest, x); }
    }
    TakenLater(s, t, RunBody(t, body.rest), x);
  }

  lemma {:induction false} CallTakes(s: State, call: Call, keep: Mask) returns (x: nat)
    requires !CallGuards(s, call, keep) && AllIn(keep, s) && !RunCall(s, call).exited
    ensures x in keep && Taken(s, RunCall(s, call), x)
    ensures CallSpares(call, x) ==> x !in RunCall(s, call).pending
    decreases call, NSIG + 2
  {
    var p := Poll(s, call);
    var todo := p.pending - p.blocked;
    ProcessIsLoop(s, call);
    if keep <= p.blocked {
      x := LoopTakesOne(p, call, 1, todo, keep);
    } else {
      x :| x in keep && x !in p.blocked;
      LoopTakes(p, call, 1, todo, x);
      if CallSpares(call, x) { LoopRemoves(p, call, 1, todo, x); }
    }
  }

  lemma {:induction false} LoopTakesOne(s: State, call: Call, i: nat, todo: Mask, keep: Mask) returns (x: nat)
    requires call.Process? && i <= NSIG && todo !! keep && AllIn(keep, s)
    requires !LoopGuards(s, call, i, todo, keep) && !ProcessLoop(s, call, i, todo).0.exited
    ensures x in keep && Taken(s, ProcessLoop(s, call, i, todo).0, x)
    ensures RepliesSpare(call, x) ==> x !in ProcessLoop(s, call, i, todo).0.pending
    decreases call, NSIG - i
  {
    var u := AfterTurn(s, call, i, todo);
    LoopTurn(s, call, i, todo);
    LoopAfterExit(u, call, i + 1, todo);
    TurnLogs(s, call, i, todo);
    LoopLogs(u, call, i + 1, todo);
    if i in todo && !DeliverGuards(Take(s, i), i, Reply(call, i), keep) {
      x := TurnTakes(s, call, i, todo, keep);
      if RepliesSpare(call, x) { LoopSpares(u, call, i + 1, todo, x); }
    } else {
      if i in todo { TurnLeaves(s, call, i, todo, keep); }
      x := LoopTakesOne(u, call, i + 1, todo, keep);
    }
    TakenLater(s, u, ProcessLoop(u, call, i + 1, todo).0, x);
  }

  lemma {:induction false} TurnTakes(s: State, call: Call, i: nat, todo: Mask, keep: Mask) returns (x: nat)
    requires call.Process? && i < NSIG && i in todo && i !in keep && AllIn(keep, s)
    requires !DeliverGuards(Take(s, i), i, Reply(call, i), keep) && !AfterTurn(s, call, i, todo).exited
    ensures x in keep && Taken(Take(s, i), AfterTurn(s, call, i, todo), x)
    ensures Taken(s, AfterTurn(s, call, i, todo), x)
    ensures RepliesSpare(call, x) ==> x !in AfterTurn(s, call, i, todo).pending
    decreases call, NSIG - i, 0
  {
    x := DeliverTakes(Take(s, i), i, Reply(call, i), keep);
    DeliverLogs(Take(s, i), i, Reply(call, i));
    TakenLater(s, Take(s, i), AfterTurn(s, call, i, todo), x);
  }

  lemma {:induction false} DeliverTakes(s: State, sig: nat, body: Body, keep: Mask) returns (x: nat)
    requires sig < NSIG && !DeliverGuards(s, sig, body, keep) && AllIn(keep, s) && !Deliver(s, sig, body).exited
    ensures x in keep && Taken(s, Deliver(s, sig, body), x)
    ensures Spares(body, x) ==> x !in Deliver(s, sig, body).pending
    decreases body, 1
  {
    x := BodyTakes(Enter(s, sig), body, keep);
  }

  // ---------- turn by turn ----------

  /** The signals of the snapshot whose turn comes after i. */
  function Later(todo: Mask, i: nat): Mask {
    set x | x in todo && i < x
  }

  /** Whenever signals are processed during the turn of i, every later signal of the snapshot
      is blocked. */
  predicate Covers(s: State, call: Call, i: nat, todo: Mask)
    requires call.Process? && i < NSIG
  {
    DeliverGuards(Take(s, i), i, Reply(call, i), Later(todo, i))
  }

  /** No later signal of the snapshot is delivered inside the turn of i. */
  ghost predicate TakesNone(s: State, call: Call, i: nat, todo: Mask)
    requires call.Process? && i < NSIG
  {
    forall x | x in Later(todo, i) :: !Taken(Take(s, i), AfterTurn(s, call, i, todo), x)
  }

  ghost predicate RestPending(s: State, i: nat, todo: Mask) {
    forall x | x in todo && i <= x :: x in s.pending
  }

  lemma CoveringTurn(s: State, call: Call, i: nat, todo: Mask)
    requires call.Process? && i < NSIG && i in todo && Covers(s, call, i, todo)
    ensures TakesNone(s, call, i, todo)
    ensures forall x | x in Later(todo, i) && x in s.pending :: x in AfterTurn(s, call, i, todo).pending
  {
    DeliverLeaves(Take(s, i), i, Reply(call, i), Later(todo, i));
  }

  lemma UncoveredTurn(s: State, call: Call, i: nat, todo: Mask) returns (x: nat)
    requires call.Process? && i < NSIG && i in todo && !Covers(s, call, i, todo)
    requires RestPending(s, i, todo) && (forall x | x in todo :: 1 <= x < NSIG)
    requires !AfterTurn(s, call, i, todo).exited
    ensures x in Later(todo, i) && Taken(Take(s, i), AfterTurn(s, call, i, todo), x)
    ensures RepliesSpare(call, x) ==> x !in AfterTurn(s, call, i, todo).pending
  {
    forall x | x in Later(todo, i) ensures 1 <= x < NSIG && x in s.pending { }
    x := TurnTakes(s, call, i, todo, Later(todo, i));
  }

  // ---------- the whole loop ----------

  /** Covers, at every turn from i on, in the state that turn begins in. */
  predicate CoversAll(s: State, call: Call, i: nat, todo: Mask)
    requires call.Process? && i <= NSIG
    decreases NSIG - i
  {
    i == NSIG || s.exited ||
    ((i in todo ==> Covers(s, call, i, todo)) && CoversAll(AfterTurn(s, call, i, todo), call, i + 1, todo))
  }

  /** At no turn from i on is a later signal of the snapshot delivered inside it. */
  ghost predicate NoneTaken(s: State, call: Call, i: nat, todo: Mask)
    requires call.Process? && i <= NSIG
    decreases NSIG - i
  {
    i == NSIG || s.exited ||
    ((i in todo ==> TakesNone(s, call, i, todo)) && NoneTaken(AfterTurn(s, call, i, todo), call, i + 1, todo))
  }

  /** Every signal is still pending at its turn, from i on. */
  predicate AllPending(s: State, call: Call, i: nat, todo: Mask)
    requires call.Process? && i <= NSIG
    decreases NSIG - i
  {
    i == NSIG || s.exited ||
    ((i in todo ==> i in s.pending) && AllPending(AfterTurn(s, call, i, todo), call, i + 1, todo))
  }

  lemma {:induction false} LoopExact(s: State, call: Call, i: nat, todo: Mask)
    requires call.Process? && i <= NSIG && (forall x | x in todo :: 1 <= x < NSIG)
    requires RestPending(s, i, todo) && !ProcessLoop(s, call, i, todo).0.exited
    ensures NoneTaken(s, call, i, todo) <==> CoversAll(s, call, i, todo)
    ensures CoversAll(s, call, i, todo) ==> AllPending(s, call, i, todo)
    decreases NSIG - i
  {
    if i < NSIG && !s.exited {
      var u := AfterTurn(s, call, i, todo);
      LoopTurn(s, call, i, todo);
      LoopAfterExit(u, call, i + 1, todo);
      if i !in todo {
        LoopExact(u, call, i + 1, todo);
      } else if Covers(s, call, i, todo) {
        CoveringTurn(s, call, i, todo);
        forall x | x in todo && i + 1 <= x ensures x in u.pending { assert x in Later(todo, i); }
        LoopExact(u, call, i + 1, todo);
      } else {
        var x := UncoveredTurn(s, call, i, todo);
        assert !TakesNone(s, call, i, todo);
      }
    }
  }

  /** The condition, for a whole call. */
  predicate HandlersCover(s: State, call: Call)
    requires call.Process?
  {
    var p := Poll(s, call);
    CoversAll(p, call, 1, p.pending - p.blocked)
  }

  /** No due signal is delivered by an inner call before its own turn if and only if, while
      any due handler runs, signals are processed with all later due signals blocked only.
      Then every due signal is still pending at its turn. */
  lemma NoneTakenExactly(s: State, call: Call)
    requires Inv(s) && !s.exited && call.Process? && !DoProcess(s, call).0.exited
    ensures NoneTaken(Poll(s, call), call, 1, Poll(s, call).pending - s.blocked) <==> HandlersCover(s, call)
    ensures HandlersCover(s, call) ==> AllFlagged(TurnsOf(s, call))
  {
    var p := Poll(s, call);
    var due := p.pending - p.blocked;
    ProcessIsLoop(s, call);
    LoopExact(p, call, 1, due);
    TurnsShowPending(p, call, 1, due);
  }

  ghost predicate AllFlagged(turns: seq<Delivery>) {
    forall k | 0 <= k < |turns| :: turns[k].pending
  }

  lemma FlagFirst(d: Delivery, turns: seq<Delivery>)
    ensures AllFlagged([d] + turns) <==> d.pending && AllFlagged(turns)
    ensures AllFlagged([] + turns) <==> AllFlagged(turns)
  {
    assert [] + turns == turns;
    assert ([d] + turns)[0] == d;
    if AllFlagged([d] + turns) {
      forall k | 0 <= k < |turns| ensures turns[k].pending { assert ([d] + turns)[k + 1] == turns[k]; }
    }
  }

  /** The history shows at each turn whether the signal was pending. */
  lemma {:induction false} TurnsShowPending(s: State, call: Call, i: nat, todo: Mask)
    requires call.Process? && i <= NSIG
    ensures AllFlagged(Turns(s, call, i, todo)) <==> AllPending(s, call, i, todo)
    decreases NSIG - i
  {
    if i < NSIG && !s.exited {
      var u := AfterTurn(s, call, i, todo);
      TurnsShowPending(u, call, i + 1, todo);
      FlagFirst(Entry(s, i), Turns(u, call, i + 1, todo));
    }
  }

  // ---------- what goes wrong otherwise ----------

  /** x is delivered at least twice between two histories. */
  ghost predicate Twice(before: seq<Delivery>, after: seq<Delivery>, x: nat) {
    exists j, k | |before| <= j < k < |after| :: after[j].sig == x && after[k].sig == x
  }

  lemma TakenTwice(before: seq<Delivery>, l: State, u: State, t: State, x: nat)
    requires before <= l.log <= u.log <= t.log && Taken(l, u, x) && Taken(u, t, x)
    ensures Twice(before, t.log, x)
  {
    var j :| |l.log| <= j < |u.log| && u.log[j].sig == x;
    var k :| |u.log| <= k < |t.log| && t.log[k].sig == x;
    assert t.log[j].sig == x && t.log[k].sig == x;
  }

  lemma TwiceLater(before: seq<Delivery>, from: seq<Delivery>, after: seq<Delivery>, x: nat)
    requires before <= from && Twice(from, after, x)
    ensures Twice(before, after, x)
  {
    var j, k :| |from| <= j < k < |after| && after[j].sig == x && after[k].sig == x;
    assert |before| <= j;
  }

  lemma UncoveredTurnTwice(s: State, call: Call, i: nat, todo: Mask) returns (x: nat)
    requires call.Process? && i < NSIG && i in todo && !s.exited && !Covers(s, call, i, todo)
    requires RestPending(s, i, todo) && (forall x | x in todo :: 1 <= x < NSIG)
    requires !ProcessLoop(s, call, i, todo).0.exited
    ensures x in todo && Twice(s.log, ProcessLoop(s, call, i, todo).0.log, x)
  {
    var u := AfterTurn(s, call, i, todo);
    LoopTurn(s, call, i, todo);
    LoopAfterExit(u, call, i + 1, todo);
    x := UncoveredTurn(s, call, i, todo);
    LoopTakes(u, call, i + 1, todo, x);
    LoopLogs(u, call, i + 1, todo);
    DeliverLogs(Take(s, i), i, Reply(call, i));
    TakenTwice(s.log, Take(s, i), u, ProcessLoop(u, call, i + 1, todo).0, x);
  }

  lemma {:induction false} UncoveredLoopTwice(s: State, call: Call, i: nat, todo: Mask) returns (x: nat)
    requires call.Process? && i <= NSIG && (forall x | x in todo :: 1 <= x < NSIG)
    requires RestPending(s, i, todo) && !ProcessLoop(s, call, i, todo).0.exited && !CoversAll(s, call, i, todo)
    ensures x in todo && Twice(s.log, ProcessLoop(s, call, i, todo).0.log, x)
    decreases NSIG - i
  {
    var u := AfterTurn(s, call, i, todo);
    if i in todo && !Covers(s, call, i, todo) {
      x := UncoveredTurnTwice(s, call, i, todo);
    } else {
      LoopTurn(s, call, i, todo);
      LoopAfterExit(u, call, i + 1, todo);
      TurnLogs(s, call, i, todo);
      if i in todo {
        CoveringTurn(s, call, i, todo);
        forall y | y in todo && i + 1 <= y ensures y in u.pending { assert y in Later(todo, i); }
      }
      x := UncoveredLoopTwice(u, call, i + 1, todo);
      TwiceLater(s.log, u.log, ProcessLoop(u, call, i + 1, todo).0.log, x);
    }
  }

  /** If signals are processed in some due handler's turn with a later due one unblocked, one
      of the due signals is delivered twice in the call. */
  lemma NestedProcessingDeliversTwice(s: State, call: Call) returns (x: nat)
    requires Inv(s) && !s.exited && call.Process? && !DoProcess(s, call).0.exited
    requires !HandlersCover(s, call)
    ensures x in Poll(s, call).pending - s.blocked && Twice(s.log, DoProcess(s, call).0.log, x)
  {
    var p := Poll(s, call);
    LoopOverNothing(p, call);
    x := UncoveredLoopTwice(p, call, 1, p.pending - p.blocked);
  }

  // ---------- when no handler raises a due signal ----------

  /** A signal that is gone and not raised again is not pending at its turn. */
  lemma {:induction false} GoneIsNotPending(s: State, call: Call, i: nat, todo: Mask, x: nat)
    requires call.Process? && RepliesSpare(call, x) && 1 <= i <= x < NSIG && x in todo && x !in s.pending
    requires !ProcessLoop(s, call, i, todo).0.exited
    ensures !AllPending(s, call, i, todo)
    decreases NSIG - i
  {
    if s.exited {
      LoopStops(s, call, i, todo);
    } else if i < x {
      var u := AfterTurn(s, call, i, todo);
      LoopTurn(s, call, i, todo);
      if i in todo { DeliverSpares(Take(s, i), i, Reply(call, i), x); }
      GoneIsNotPending(u, call, i + 1, todo, x);
    }
  }

  lemma {:induction false} SparingLoopExact(s: State, call: Call, i: nat, todo: Mask)
    requires call.Process? && 1 <= i <= NSIG
    requires (forall x | x in todo :: 1 <= x < NSIG && RepliesSpare(call, x))
    requires RestPending(s, i, todo) && !ProcessLoop(s, call, i, todo).0.exited
    ensures AllPending(s, call, i, todo) <==> CoversAll(s, call, i, todo)
    decreases NSIG - i
  {
    if i < NSIG && !s.exited {
      var u := AfterTurn(s, call, i, todo);
      LoopTurn(s, call, i, todo);
      LoopAfterExit(u, call, i + 1, todo);
      if i !in todo {
        SparingLoopExact(u, call, i + 1, todo);
      } else if Covers(s, call, i, todo) {
        CoveringTurn(s, call, i, todo);
        forall x | x in todo && i + 1 <= x ensures x in u.pending { assert x in Later(todo, i); }
        SparingLoopExact(u, call, i + 1, todo);
      } else {
        var x := UncoveredTurn(s, call, i, todo);
        GoneIsNotPending(u, call, i + 1, todo, x);
      }
    }
  }

  /** If no handler raises a due signal: every due signal is still pending at its turn, as the
      history shows, if and only if the same condition holds. */
  lemma PendingAtTurnExactly(s: State, call: Call)
    requires Inv(s) && !s.exited && call.Process? && !DoProcess(s, call).0.exited
    requires forall x | x in Poll(s, call).pending - s.blocked :: RepliesSpare(call, x)
    ensures AllFlagged(TurnsOf(s, call)) <==> HandlersCover(s, call)
  {
    var p := Poll(s, call);
    ProcessIsLoop(s, call);
    PendingInLoop(p, call, p.pending - p.blocked);
  }

  lemma PendingInLoop(p: State, call: Call, due: Mask)
    requires call.Process? && !ProcessLoop(p, call, 1, due).0.exited
    requires (forall x | x in due :: 1 <= x < NSIG && RepliesSpare(call, x)) && due <= p.pending
    ensures AllFlagged(Turns(p, call, 1, due)) <==> CoversAll(p, call, 1, due)
  {
    SparingLoopExact(p, call, 1, due);
    TurnsShowPending(p, call, 1, due);
  }

  // ---------- why a handler must not raise a due signal ----------

  /** Passing over signals outside the snapshot. */
  lemma {:induction false} NothingBetween(s: State, call: Call, i: nat, j: nat, todo: Mask)
    requires call.Process? && i <= j <= NSIG && (forall k: nat | i <= k < j :: k !in todo)
    ensures AllPending(s, call, i, todo) <==> AllPending(s, call, j, todo)
    ensures CoversAll(s, call, i, todo) <==> CoversAll(s, call, j, todo)
    decreases j - i
  {
    if i < j { NothingBetween(s, call, i + 1, j, todo); }
  }

  /** A handler that processes signals and then raises b. */
  function TakeAndRaise(b: nat): Body {
    Then(Process(false, [], Done), Then(Call.Raise(b), Done))
  }

  lemma RaisedAgain(s: State, a: nat, b: nat)
    requires a < NSIG && 1 <= b < NSIG && s.handlers[a].User? && !s.exited && !Deliver(s, a, TakeAndRaise(b)).exited
    ensures b in Deliver(s, a, TakeAndRaise(b)).pending
  {
    var e := Enter(s, a);
    var t := RunCall(e, Process(false, [], Done));
    assert RunBody(e, TakeAndRaise(b)) == RunBody(t, Then(Call.Raise(b), Done));
    if !t.exited {
      assert RunBody(t, Then(Call.Raise(b), Done)) == RunBody(RunCall(t, Call.Raise(b)), Done);
    }
  }

  lemma NotGuarded(s: State, a: nat, b: nat, todo: Mask)
    requires a < b && b in todo && a < NSIG && s.handlers[a].User? && b !in Enter(s, a).blocked && !s.exited
    ensures !Covers(s, Process(false, [], TakeAndRaise(b)), a, todo)
  {
    var e, call := Enter(Take(s, a), a), Process(false, [], Done);
    assert b in Later(todo, a);
    assert !CallGuards(e, call, Later(todo, a));
    assert !BodyGuards(e, TakeAndRaise(b), Later(todo, a));
  }

  lemma BothPending(s: State, call: Call, a: nat, b: nat, todo: Mask)
    requires !s.exited && 1 <= a < b < NSIG && todo == {a, b} && a in s.pending && s.handlers[a].User?
    requires call == Process(false, [], TakeAndRaise(b)) && !ProcessLoop(s, call, 1, todo).0.exited
    ensures AllPending(s, call, 1, todo)
  {
    var u := AfterTurn(s, call, a, todo);
    NothingBetween(s, call, 1, a, todo);
    LoopSkips(s, call, 1, a, todo);
    LoopTurn(s, call, a, todo);
    LoopAfterExit(u, call, a + 1, todo);
    RaisedAgain(Take(s, a), a, b);
    NothingBetween(u, call, a + 1, b, todo);
    NothingBetween(AfterTurn(u, call, b, todo), call, b + 1, NSIG, todo);
  }

  /** If the handler of a takes b and then raises it again, b is pending at its turn though
      nothing covers it: then it is delivered twice, and rightly so.  So for signals raised by
      handlers being pending is not the same as not having been taken. */
  lemma RaisedAgainIsPending(s: State, a: nat, b: nat)
    requires Inv(s) && !s.exited && a < b && s.pending - s.blocked == {a, b}
    requires s.handlers[a].User? && b !in Enter(s, a).blocked
    requires !DoProcess(s, Process(false, [], TakeAndRaise(b))).0.exited
    ensures var call := Process(false, [], TakeAndRaise(b));
      AllFlagged(TurnsOf(s, call)) && !HandlersCover(s, call)
  {
    var call, todo := Process(false, [], TakeAndRaise(b)), {a, b};
    ProcessIsLoop(s, call);
    assert a in s.pending && b in s.pending;
    BothPending(s, call, a, b, todo);
    NothingBetween(s, call, 1, a, todo);
    NotGuarded(s, a, b, todo);
    TurnsShowPending(s, call, 1, todo);
  }
}
