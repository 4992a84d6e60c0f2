/** What one call of posix9_signal_process delivers. */
module SignalDelivery {
  import opened Counting
  import opened Sequences
  import opened SignalSets
  import opened SignalSpec
  import opened SignalRuns

  /** The members of todo from i on, ascending. */
  function Ascending(todo: Mask, i: nat): seq<nat>
    requires i <= NSIG
    decreases NSIG - i
  {
    if i == NSIG then [] else (if i in todo then [i] else []) + Ascending(todo, i + 1)
  }

  predicate Increasing(s: seq<nat>) {
    forall j, k | 0 <= j < k < |s| :: s[j] < s[k]
  }

  lemma {:induction false} AscendingIsSorted(todo: Mask, i: nat)
    requires i <= NSIG
    ensures forall k | 0 <= k < |Ascending(todo, i)| :: i <= Ascending(todo, i)[k] < NSIG && Ascending(todo, i)[k] in todo
    ensures Increasing(Ascending(todo, i))
    decreases NSIG - i
  {
    if i < NSIG {
      var rest := Ascending(todo, i + 1);
      AscendingIsSorted(todo, i + 1);
      if i in todo {
        assert Ascending(todo, i) == [i] + rest;
      } else {
        assert Ascending(todo, i) == rest;
      }
    }
  }

  lemma {:induction false} AscendingFinds(todo: Mask, i: nat, x: nat)
    requires i <= x < NSIG && x in todo
    ensures x in Ascending(todo, i)
    decreases NSIG - i
  {
    if i < x { AscendingFinds(todo, i + 1, x); }
  }

  /** It lists each member once. */
  lemma AscendingCounts(todo: Mask)
    requires forall x | x in todo :: 1 <= x < NSIG
    ensures |Ascending(todo, 1)| == |todo|
  {
    var r := Ascending(todo, 1);
    AscendingIsSorted(todo, 1);
    DistinctCount(r);
    forall x | x in todo ensures x in r { AscendingFinds(todo, 1, x); }
    assert (set k | 0 <= k < |r| :: r[k]) == todo;
  }

  /** The deliveries made while depth handlers were running. */
  function Level(log: seq<Delivery>, depth: nat): seq<Delivery> {
    if log == [] then []
    else
      var d := log[|log| - 1];
      Level(log[..|log| - 1], depth) + if |d.active| == depth then [d] else []
  }

  lemma LevelGrows(log: seq<Delivery>, d: Delivery, depth: nat)
    ensures Level(log + [d], depth) == Level(log, depth) + if |d.active| == depth then [d] else []
  {
    assert (log + [d])[..|log|] == log;
  }

  /** What happens inside handlers is logged inside them. */
  lemma {:induction false} BodyStaysAbove(s: State, body: Body, depth: nat)
    requires |s.active| > depth
    ensures var t := RunBody(s, body); Level(t.log, depth) == Level(s.log, depth) && (!t.exited ==> t.active == s.active)
    decreases body, 0
  {
    if body.Then? && !s.exited {
      CallStaysAbove(s, body.call, depth);
      var t := RunCall(s, body.call);
      if !t.exited { BodyStaysAbove(t, body.rest, depth); }
    }
  }

  lemma {:induction false} CallStaysAbove(s: State, call: Call, depth: nat)
    requires |s.active| > depth
    ensures var t := RunCall(s, call); Level(t.log, depth) == Level(s.log, depth) && (!t.exited ==> t.active == s.active)
    decreases call, NSIG + 2
  {
    if call.Process? {
      var p := Poll(s, call);
      LoopStaysAbove(p, call, 1, p.pending - p.blocked, depth);
    }
  }

  lemma {:induction false} LoopStaysAbove(s: State, call: Call, i: nat, todo: Mask, depth: nat)
    requires |s.active| > depth && call.Process? && i <= NSIG
    ensures var t := ProcessLoop(s, call, i, todo).0;
      Level(t.log, depth) == Level(s.log, depth) && (!t.exited ==> t.active == s.active)
    decreases call, NSIG - i
  {
    if i < NSIG && !s.exited {
      if i in todo {
        var t := Take(s, i);
        TakeAtLevel(s, i, depth);
        DeliverStaysAbove(t, i, Reply(call, i), depth);
        DeliverKeepsMask(t, i, Reply(call, i));
        var u := Deliver(t, i, Reply(call, i));
        if !u.exited { LoopStaysAbove(u, call, i + 1, todo, depth); }
      } else {
        LoopStaysAbove(s, call, i + 1, todo, depth);
      }
    }
  }

  lemma {:induction false} DeliverStaysAbove(s: State, sig: nat, body: Body, depth: nat)
    requires |s.active| >= depth && sig < NSIG
    ensures Level(Deliver(s, sig, body).log, depth) == Level(s.log, depth)
    decreases body, 1
  {
    if s.handlers[sig].User? {
      BodyStaysAbove(Enter(s, sig), body, depth);
    }
  }

  lemma TakeAtLevel(s: State, sig: nat, depth: nat)
    requires sig < NSIG
    ensures Level(Take(s, sig).log, depth) == Level(s.log, depth) + if |s.active| == depth then [Entry(s, sig)] else []
  {
    LevelGrows(s.log, Entry(s, sig), depth);
  }

  lemma TurnDeliversOnce(s: State, call: Call, i: nat, todo: Mask)
    requires call.Process? && i < NSIG
    ensures var u := AfterTurn(s, call, i, todo);
      Level(u.log, |s.active|) == Level(s.log, |s.active|) + (if i in todo then [Entry(s, i)] else [])
      && (!u.exited ==> u.active == s.active)
  {
    if i in todo {
      TakeAtLevel(s, i, |s.active|);
      DeliverStaysAbove(Take(s, i), i, Reply(call, i), |s.active|);
      DeliverKeepsMask(Take(s, i), i, Reply(call, i));
    }
  }

  /** The entries the loop makes from signal i on, at its own level. */
  function Turns(s: State, call: Call, i: nat, todo: Mask): seq<Delivery>
    requires call.Process? && i <= NSIG
    decreases NSIG - i
  {
    if i == NSIG || s.exited then []
    else (if i in todo then [Entry(s, i)] else []) + Turns(AfterTurn(s, call, i, todo), call, i + 1, todo)
  }

  lemma {:induction false} LoopLevel(s: State, call: Call, i: nat, todo: Mask, depth: nat)
    requires call.Process? && i <= NSIG && !ProcessLoop(s, call, i, todo).0.exited && depth == |s.active|
    ensures Level(ProcessLoop(s, call, i, todo).0.log, depth) == Level(s.log, depth) + Turns(s, call, i, todo)
    ensures ProcessLoop(s, call, i, todo).1 == |Turns(s, call, i, todo)|
    decreases NSIG - i
  {
    if i == NSIG || s.exited {
      LoopAfterExit(s, call, i, todo);
    } else {
      var u := AfterTurn(s, call, i, todo);
      LoopTurn(s, call, i, todo);
      TurnDeliversOnce(s, call, i, todo);
      LoopAfterExit(u, call, i + 1, todo);
      LoopLevel(u, call, i + 1, todo, depth);
      Associates(Level(s.log, depth), if i in todo then [Entry(s, i)] else [], Turns(u, call, i + 1, todo));
    }
  }

  /** The turns are the snapshot's signals, in order. */
  ghost predicate AreFor(turns: seq<Delivery>, sigs: seq<nat>) {
    |turns| == |sigs| && forall k | 0 <= k < |turns| :: turns[k].sig == sigs[k]
  }

  lemma AreForAlso(d: Delivery, turns: seq<Delivery>, sigs: seq<nat>)
    requires AreFor(turns, sigs)
    ensures AreFor([d] + turns, [d.sig] + sigs) && AreFor([] + turns, [] + sigs)
  {
    assert [] + turns == turns && [] + sigs == sigs;
  }

  lemma {:induction false} TurnsAreForAll(s: State, call: Call, i: nat, todo: Mask)
    requires call.Process? && i <= NSIG && !ProcessLoop(s, call, i, todo).0.exited
    ensures AreFor(Turns(s, call, i, todo), Ascending(todo, i))
    decreases NSIG - i
  {
    if i == NSIG || s.exited {
      LoopAfterExit(s, call, i, todo);
    } else {
      var u := AfterTurn(s, call, i, todo);
      LoopTurn(s, call, i, todo);
      LoopAfterExit(u, call, i + 1, todo);
      TurnsAreForAll(u, call, i + 1, todo);
      AreForAlso(Entry(s, i), Turns(u, call, i + 1, todo), Ascending(todo, i + 1));
    }
  }

  /** The turns of a whole call. */
  function TurnsOf(s: State, call: Call): seq<Delivery>
    requires call.Process?
  {
    var p := Poll(s, call);
    Turns(p, call, 1, p.pending - p.blocked)
  }

  /** A call that returns delivers, itself and at its own level, each signal that was
      pending and unblocked when it began, SIGINT included if Cmd-period has been typed, once, in ascending order, and returns how
      many they were; however the handlers nest. */
  lemma ProcessDeliversOnce(s: State, call: Call)
    requires Inv(s) && !s.exited && call.Process? && !DoProcess(s, call).0.exited
    ensures var due := (s.pending + if call.cmdPeriod then {2} else {}) - s.blocked; var (t, n) := DoProcess(s, call);
      && Level(t.log, |s.active|) == Level(s.log, |s.active|) + TurnsOf(s, call)
      && AreFor(TurnsOf(s, call), Ascending(due, 1))
      && n == |due| == |Ascending(due, 1)|
  {
    var p := Poll(s, call);
    var due := p.pending - p.blocked;
    AscendingCounts(due);
    LoopOverNothing(p, call);
    LoopLevel(p, call, 1, due, |s.active|);
    TurnsAreForAll(p, call, 1, due);
  }

  lemma LoopOverNothing(s: State, call: Call)
    requires call.Process?
    ensures ProcessLoop(s, call, 1, {}) == (s, 0)
  {
    LoopEnds(s, call, 1, {});
  }

  // ---------- handlers that do not process ----------

  /** No call of posix9_signal_process. */
  predicate Flat(body: Body) {
    body.Done? || (!body.call.Process? && Flat(body.rest))
  }

  /** The signals a body raises. */
  function Raised(body: Body): set<int> {
    if body.Done? then {} else RaisedByCall(body.call) + Raised(body.rest)
  }

  function RaisedByCall(call: Call): set<int> {
    match call
    case Raise(sig) => if 1 <= sig < NSIG then {sig} else {}
    case Kill(pid, sig) => if -1 <= pid <= 1 && 1 <= sig < NSIG then {sig} else {}
    case _ => {}
  }

  lemma {:induction false} FlatBody(s: State, body: Body)
    requires Flat(body) && !s.exited
    ensures var t := RunBody(s, body);
      !t.exited && t.log == s.log && (forall x: int :: x in t.pending <==> x in s.pending || x in Raised(body))
    decreases body
  {
    if body.Then? { FlatBody(RunCall(s, body.call), body.rest); }
  }

  lemma FlatDelivery(s: State, sig: nat, body: Body)
    requires sig < NSIG && Flat(body) && !s.exited && !Deliver(s, sig, body).exited
    ensures var t := Deliver(s, sig, body);
      && t.log == s.log
      && (forall x: int :: x in t.pending <==> x in s.pending || (s.handlers[sig].User? && x in Raised(body)))
  {
    if s.handlers[sig].User? { FlatBody(Enter(s, sig), body); }
  }

  /** The handler delivery d ran raises x. */
  predicate Sends(d: Delivery, call: Call, x: int)
    requires call.Process?
  {
    d.user && x in Raised(Reply(call, d.sig))
  }

  /** Some delivery logged from n on raised x too late for its own delivery from the
      snapshot to take it, or x was not in the snapshot. */
  ghost predicate Resent(log: seq<Delivery>, n: nat, call: Call, x: int, inTime: bool)
    requires call.Process?
  {
    exists k | n <= k < |log| :: Sends(log[k], call, x) && (inTime ==> x <= log[k].sig)
  }

  predicate FlatReplies(call: Call)
    requires call.Process?
  {
    Flat(call.other) && forall i | 0 <= i < |call.replies| :: Flat(call.replies[i])
  }

  /** The log of a flat run of the loop: its snapshot, in order. */
  ghost predicate LogsAll(before: seq<Delivery>, after: seq<Delivery>, sigs: seq<nat>) {
    && |after| == |before| + |sigs| && before <= after
    && forall k | 0 <= k < |sigs| :: after[|before| + k].sig == sigs[k]
  }

  lemma {:induction false} FlatLoopLog(s: State, call: Call, i: nat, todo: Mask)
    requires call.Process? && FlatReplies(call) && i <= NSIG && !ProcessLoop(s, call, i, todo).0.exited
    ensures LogsAll(s.log, ProcessLoop(s, call, i, todo).0.log, Ascending(todo, i))
    decreases NSIG - i
  {
    if i < NSIG && !s.exited {
      if i in todo {
        var t := Take(s, i);
        var u := Deliver(t, i, Reply(call, i));
        LoopAfterExit(u, call, i + 1, todo);
        FlatDelivery(t, i, Reply(call, i));
        FlatLoopLog(u, call, i + 1, todo);
        assert Ascending(todo, i) == [i] + Ascending(todo, i + 1);
        LogsOneMore(s.log, u.log, ProcessLoop(u, call, i + 1, todo).0.log, i, Ascending(todo, i + 1));
      } else {
        FlatLoopLog(s, call, i + 1, todo);
        assert Ascending(todo, i) == Ascending(todo, i + 1);
      }
    }
  }

  lemma LogsOneMore(a: seq<Delivery>, b: seq<Delivery>, c: seq<Delivery>, i: nat, rest: seq<nat>)
    requires |b| == |a| + 1 && a <= b && b[|a|].sig == i && LogsAll(b, c, rest)
    ensures LogsAll(a, c, [i] + rest)
  {
    forall k | 0 <= k < |[i] + rest| ensures c[|a| + k].sig == ([i] + rest)[k] {
      if k > 0 { assert c[|b| + (k - 1)].sig == rest[k - 1]; }
    }
  }

  /** What is pending after the loop from i on. */
  lemma {:induction false} FlatLoopPending(s: State, call: Call, i: nat, todo: Mask, x: nat)
    requires call.Process? && FlatReplies(call) && i <= NSIG && !ProcessLoop(s, call, i, todo).0.exited && x < NSIG
    ensures var t := ProcessLoop(s, call, i, todo).0;
      x in t.pending <==> (x in s.pending && !(x in todo && i <= x)) || Resent(t.log, |s.log|, call, x, x in todo && i <= x)
    decreases NSIG - i
  {
    var t := ProcessLoop(s, call, i, todo).0;
    if i < NSIG && !s.exited {
      if i in todo {
        var r := Take(s, i);
        var u := Deliver(r, i, Reply(call, i));
        LoopAfterExit(u, call, i + 1, todo);
        FlatDelivery(r, i, Reply(call, i));
        FlatLoopPending(u, call, i + 1, todo, x);
        FlatLoopLog(u, call, i + 1, todo);
        AscendingIsSorted(todo, i + 1);
        ResentStep(u.log, t.log, Ascending(todo, i + 1), call, i, todo, x);
      } else {
        FlatLoopPending(s, call, i + 1, todo, x);
      }
    }
  }

  /** Counting the delivery of i, which b ends with, among those that raised x. */
  lemma ResentStep(b: seq<Delivery>, c: seq<Delivery>, rest: seq<nat>, call: Call, i: nat, todo: Mask, x: nat)
    requires call.Process? && |b| > 0 && b[|b| - 1].sig == i
    requires LogsAll(b, c, rest) && forall k | 0 <= k < |rest| :: i < rest[k]
    ensures Resent(c, |b| - 1, call, x, x in todo && i <= x)
      <==> (Sends(b[|b| - 1], call, x) && !(x in todo && i < x)) || Resent(c, |b|, call, x, x in todo && i + 1 <= x)
  {
    assert c[|b| - 1] == b[|b| - 1];
    forall k | |b| <= k < |c| ensures i < c[k].sig {
      assert c[|b| + (k - |b|)].sig == rest[k - |b|];
    }
    if Resent(c, |b|, call, x, x in todo && i + 1 <= x) {
      var k :| |b| <= k < |c| && Sends(c[k], call, x) && (x in todo && i + 1 <= x ==> x <= c[k].sig);
      assert x in todo && i <= x ==> x <= c[k].sig;
    }
  }

  /** With handlers that do not process signals themselves, a call that returns delivers
      exactly the snapshot, ascending, and leaves pending what was pending and blocked
      and what a handler raised: any signal outside the snapshot, or one inside it whose
      own turn had come. */
  lemma FlatProcess(s: State, call: Call, x: nat)
    requires Inv(s) && call.Process? && FlatReplies(call) && !DoProcess(s, call).0.exited && x < NSIG
    ensures var p := Poll(s, call); var due := p.pending - p.blocked; var t := DoProcess(s, call).0;
      && LogsAll(s.log, t.log, Ascending(due, 1))
      && (x in t.pending <==> (x in p.pending && x !in due) || Resent(t.log, |s.log|, call, x, x in due))
  {
    var p := Poll(s, call);
    var due := p.pending - p.blocked;
    if due == {} {
      AscendingCounts(due);
    } else {
      FlatLoopLog(p, call, 1, due);
      FlatLoopPending(p, call, 1, due, x);
    }
  }
}
