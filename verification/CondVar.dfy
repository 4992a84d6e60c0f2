/** All threads together.  Control changes hands only at a yield, so a step is what
    one thread does from one yield, or one call, to the next. */
module CondVar {
  import opened SyncSpec

  type MutexId = nat
  type CondId = nat

  datatype Code = Ok | Busy | TimedOut

  /** Where a thread is: outside the library with the last call's result, or at the
      yield of a lock loop or of a wait loop. */
  datatype Pc =
    | Outside(result: Code)
    | Locking(m: MutexId, result: Code)
    | Parked(c: CondId, m: MutexId, timed: bool)

  /** held is history: the mutexes the thread has acquired and not given back. */
  datatype Thread = Thread(pc: Pc, held: set<MutexId>)

  datatype World = World(mutexes: map<MutexId, Mutex>, conds: map<CondId, Cond>, threads: map<Tid, Thread>)

  /** expired is what TickCount shows a timed wait; the scheduler picks the thread. */
  datatype Action =
    | Lock(t: Tid, m: MutexId)
    | TryLock(t: Tid, m: MutexId)
    | Unlock(t: Tid, m: MutexId)
    | Wait(t: Tid, c: CondId, m: MutexId, timed: bool, expired: bool)
    | Signal(t: Tid, c: CondId)
    | Broadcast(t: Tid, c: CondId)
    | Resume(t: Tid, expired: bool)

  /** Calls come from threads outside the library, and only holders unlock or wait. */
  predicate Enabled(w: World, a: Action) {
    a.t in w.threads &&
    var th := w.threads[a.t];
    match a
    case Lock(t, m) => th.pc.Outside? && m in w.mutexes
    case TryLock(t, m) => th.pc.Outside? && m in w.mutexes
    case Unlock(t, m) => th.pc.Outside? && m in w.mutexes && m in th.held
    case Wait(t, c, m, _, _) => th.pc.Outside? && c in w.conds && m in w.mutexes && m in th.held
    case Signal(t, c) => th.pc.Outside? && c in w.conds
    case Broadcast(t, c) => th.pc.Outside? && c in w.conds
    case Resume(t, _) =>
      match th.pc
      case Outside(_) => false
      case Locking(m, _) => m in w.mutexes
      case Parked(c, m, _) => c in w.conds && m in w.mutexes
  }

  /** The lock loop, up to success or the next yield; result is what the call that
      contains the loop returns in the end. */
  function LockLoop(w: World, t: Tid, m: MutexId, result: Code): World
    requires t in w.threads && m in w.mutexes
  {
    var (mutex, taken) := Attempt(w.mutexes[m], t);
    var th := w.threads[t];
    if taken then
      w.(mutexes := w.mutexes[m := mutex], threads := w.threads[t := Thread(Outside(result), th.held + {m})])
    else
      w.(threads := w.threads[t := th.(pc := Locking(m, result))])
  }

  /** The wait loop, up to its end and the lock loop behind it, or the next yield. */
  function WaitLoop(w: World, t: Tid, c: CondId, m: MutexId, timed: bool, expired: bool): World
    requires t in w.threads && c in w.conds && m in w.mutexes
  {
    var cond := w.conds[c];
    if cond.signaled != 0 then LockLoop(w.(conds := w.conds[c := Leave(cond)]), t, m, Ok)
    else if timed && expired then LockLoop(w.(conds := w.conds[c := Expire(cond)]), t, m, TimedOut)
    else w.(threads := w.threads[t := w.threads[t].(pc := Parked(c, m, timed))])
  }

  function Release(w: World, t: Tid, m: MutexId): World
    requires t in w.threads && m in w.mutexes
  {
    w.(mutexes := w.mutexes[m := FREE], threads := w.threads[t := w.threads[t].(held := w.threads[t].held - {m})])
  }

  function Return(w: World, t: Tid, result: Code): World
    requires t in w.threads
  {
    w.(threads := w.threads[t := w.threads[t].(pc := Outside(result))])
  }

  function Step(w: World, a: Action): World
    requires Enabled(w, a)
  {
    match a
    case Lock(t, m) => LockLoop(w, t, m, Ok)
    case TryLock(t, m) => if w.mutexes[m].locked == 0 then LockLoop(w, t, m, Ok) else Return(w, t, Busy)
    case Unlock(t, m) => Return(Release(w, t, m), t, Ok)
    case Wait(t, c, m, timed, expired) =>
      WaitLoop(Release(w.(conds := w.conds[c := Enter(w.conds[c])]), t, m), t, c, m, timed, expired)
    case Signal(t, c) => Return(w.(conds := w.conds[c := SyncSpec.Signal(w.conds[c])]), t, Ok)
    case Broadcast(t, c) => Return(w.(conds := w.conds[c := SyncSpec.Broadcast(w.conds[c])]), t, Ok)
    case Resume(t, expired) =>
      match w.threads[t].pc
      case Locking(m, result) => LockLoop(w, t, m, result)
      case Parked(c, m, timed) => WaitLoop(w, t, c, m, timed, expired)
  }

  predicate Runnable(w: World, run: seq<Action>)
    decreases run
  {
    run == [] || (Enabled(w, run[0]) && Runnable(Step(w, run[0]), run[1..]))
  }

  function Run(w: World, run: seq<Action>): World
    requires Runnable(w, run)
    decreases run
  {
    if run == [] then w else Run(Step(w, run[0]), run[1..])
  }

  // ---------- the invariant ----------

  predicate ParkedOn(th: Thread, c: CondId) {
    th.pc.Parked? && th.pc.c == c
  }

  /** The threads in the wait loop of c. */
  function Waiters(threads: map<Tid, Thread>, c: CondId): set<Tid> {
    set t | t in threads && ParkedOn(threads[t], c)
  }

  ghost predicate Held(w: World, m: MutexId) {
    exists t :: t in w.threads && m in w.threads[t].held
  }

  /** locked is 1 exactly while some thread holds the mutex; the owner is that one. */
  ghost predicate MutexSound(w: World, m: MutexId)
    requires m in w.mutexes
  {
    var x := w.mutexes[m];
    && (forall t | t in w.threads && m in w.threads[t].held :: x == Mutex(1, t))
    && (Held(w, m) || x == FREE)
  }

  /** waiting counts the threads in the wait loop, and a signal is never stale. */
  ghost predicate CondSound(threads: map<Tid, Thread>, conds: map<CondId, Cond>, c: CondId)
    requires c in conds
  {
    conds[c].waiting == |Waiters(threads, c)| && (conds[c].signaled != 0 ==> conds[c].waiting > 0)
  }

  predicate PcSound(w: World, pc: Pc) {
    match pc
    case Outside(_) => true
    case Locking(m, _) => m in w.mutexes
    case Parked(c, m, _) => c in w.conds && m in w.mutexes
  }

  ghost predicate MutexesSound(w: World) {
    forall m | m in w.mutexes :: MutexSound(w, m)
  }

  ghost predicate CondsSound(threads: map<Tid, Thread>, conds: map<CondId, Cond>) {
    forall c | c in conds :: CondSound(threads, conds, c)
  }

  ghost predicate PcsSound(w: World) {
    forall t | t in w.threads :: PcSound(w, w.threads[t].pc)
  }

  ghost predicate Inv(w: World) {
    MutexesSound(w) && CondsSound(w.threads, w.conds) && PcsSound(w)
  }

  /** Fresh objects and threads that have not called anything yet. */
  ghost predicate Initial(w: World) {
    && (forall m | m in w.mutexes :: w.mutexes[m] == FREE)
    && (forall c | c in w.conds :: w.conds[c] == QUIET)
    && (forall t | t in w.threads :: w.threads[t] == Thread(Outside(Ok), {}))
  }

  lemma InitialInv(w: World)
    requires Initial(w)
    ensures Inv(w)
  {
    forall c | c in w.conds
      ensures CondSound(w.threads, w.conds, c)
    {
      assert Waiters(w.threads, c) == {};
    }
  }

  // ---------- mutexes ----------

  lemma LockLoopKeepsMutexes(w: World, t: Tid, m: MutexId, result: Code)
    requires MutexesSound(w) && t in w.threads && m in w.mutexes
    ensures MutexesSound(LockLoop(w, t, m, result))
  {
    var w' := LockLoop(w, t, m, result);
    forall k | k in w'.mutexes
      ensures MutexSound(w', k)
    {
      assert MutexSound(w, k);
      if w.mutexes[m].locked == 0 {
        assert k == m ==> m in w'.threads[t].held;
        assert !Held(w, m) by {
          assert MutexSound(w, m);
        }
      }
      HeldCarriesOver(w, w', t, k);
    }
  }

  /** Held depends on the held sets only. */
  lemma HeldCarriesOver(w: World, w': World, t: Tid, k: MutexId)
    requires t in w.threads && w'.threads.Keys == w.threads.Keys
    requires forall u | u in w.threads && u != t :: w'.threads[u] == w.threads[u]
    requires k in w.threads[t].held ==> k in w'.threads[t].held
    ensures Held(w, k) ==> Held(w', k)
  {
    if Held(w, k) {
      var u :| u in w.threads && k in w.threads[u].held;
      assert u in w'.threads && k in w'.threads[u].held;
    }
  }

  lemma ReleaseKeepsMutexes(w: World, t: Tid, m: MutexId)
    requires MutexesSound(w) && t in w.threads && m in w.mutexes && m in w.threads[t].held
    ensures MutexesSound(Release(w, t, m))
  {
    var w' := Release(w, t, m);
    forall k | k in w'.mutexes
      ensures MutexSound(w', k)
    {
      assert MutexSound(w, k);
      if k != m {
        HeldCarriesOver(w, w', t, k);
      }
    }
  }

  lemma PcChangeKeepsMutexes(w: World, w': World, t: Tid)
    requires MutexesSound(w) && t in w.threads && t in w'.threads && w'.mutexes == w.mutexes
    requires w'.threads == w.threads[t := w'.threads[t]]
    requires w'.threads[t].held == w.threads[t].held
    ensures MutexesSound(w')
  {
    forall k | k in w'.mutexes
      ensures MutexSound(w', k)
    {
      assert MutexSound(w, k);
      HeldCarriesOver(w, w', t, k);
    }
  }

  lemma WaitLoopKeepsMutexes(w: World, t: Tid, c: CondId, m: MutexId, timed: bool, expired: bool)
    requires MutexesSound(w) && t in w.threads && c in w.conds && m in w.mutexes
    ensures MutexesSound(WaitLoop(w, t, c, m, timed, expired))
  {
    var cond := w.conds[c];
    var left := w.(conds := w.conds[c := if cond.signaled != 0 then Leave(cond) else Expire(cond)]);
    assert MutexesSound(left) by {
      PcChangeKeepsMutexes(w, left, t);
    }
    LockLoopKeepsMutexes(left, t, m, if cond.signaled != 0 then Ok else TimedOut);
    if cond.signaled == 0 && !(timed && expired) {
      PcChangeKeepsMutexes(w, WaitLoop(w, t, c, m, timed, expired), t);
    }
  }

  lemma StepKeepsMutexes(w: World, a: Action)
    requires Inv(w) && Enabled(w, a)
    ensures MutexesSound(Step(w, a))
  {
    match a
    case Lock(t, m) => LockLoopKeepsMutexes(w, t, m, Ok);
    case TryLock(t, m) =>
      LockLoopKeepsMutexes(w, t, m, Ok);
      PcChangeKeepsMutexes(w, Return(w, t, Busy), t);
    case Unlock(t, m) =>
      ReleaseKeepsMutexes(w, t, m);
      PcChangeKeepsMutexes(Release(w, t, m), Step(w, a), t);
    case Wait(t, c, m, timed, expired) =>
      var entered := w.(conds := w.conds[c := Enter(w.conds[c])]);
      PcChangeKeepsMutexes(w, entered, t);
      ReleaseKeepsMutexes(entered, t, m);
      WaitLoopKeepsMutexes(Release(entered, t, m), t, c, m, timed, expired);
    case Signal(t, c) => PcChangeKeepsMutexes(w, Step(w, a), t);
    case Broadcast(t, c) => PcChangeKeepsMutexes(w, Step(w, a), t);
    case Resume(t, expired) =>
      match w.threads[t].pc {
        case Locking(m, result) => LockLoopKeepsMutexes(w, t, m, result);
        case Parked(c, m, timed) => WaitLoopKeepsMutexes(w, t, c, m, timed, expired);
      }
  }

  // ---------- condition variables ----------

  lemma WaitersKept(threads: map<Tid, Thread>, t: Tid, th: Thread, c: CondId)
    requires t in threads && (ParkedOn(threads[t], c) <==> ParkedOn(th, c))
    ensures Waiters(threads[t := th], c) == Waiters(threads, c)
  {
  }

  lemma WaiterJoins(threads: map<Tid, Thread>, t: Tid, th: Thread, c: CondId)
    requires t in threads && !ParkedOn(threads[t], c) && ParkedOn(th, c)
    ensures |Waiters(threads[t := th], c)| == |Waiters(threads, c)| + 1
  {
    assert Waiters(threads[t := th], c) == Waiters(threads, c) + {t};
  }

  lemma WaiterLeaves(threads: map<Tid, Thread>, t: Tid, th: Thread, c: CondId)
    requires t in threads && ParkedOn(threads[t], c) && !ParkedOn(th, c)
    ensures |Waiters(threads[t := th], c)| == |Waiters(threads, c)| - 1
  {
    assert Waiters(threads, c) == Waiters(threads[t := th], c) + {t};
  }

  /** A step of a thread that is in no wait loop before or after it. */
  lemma OutsideKeepsConds(threads: map<Tid, Thread>, conds: map<CondId, Cond>, t: Tid, th: Thread)
    requires CondsSound(threads, conds) && t in threads && !threads[t].pc.Parked? && !th.pc.Parked?
    ensures CondsSound(threads[t := th], conds)
  {
    forall c | c in conds
      ensures CondSound(threads[t := th], conds, c)
    {
      assert CondSound(threads, conds, c);
      WaitersKept(threads, t, th, c);
    }
  }

  lemma ParkKeepsConds(threads: map<Tid, Thread>, conds: map<CondId, Cond>, t: Tid, th: Thread, c: CondId)
    requires CondsSound(threads, conds) && t in threads && c in conds
    requires !threads[t].pc.Parked? && ParkedOn(th, c) && conds[c].signaled == 0
    ensures CondsSound(threads[t := th], conds[c := Enter(conds[c])])
  {
    forall k | k in conds
      ensures CondSound(threads[t := th], conds[c := Enter(conds[c])], k)
    {
      assert CondSound(threads, conds, k);
      if k == c {
        WaiterJoins(threads, t, th, c);
      } else {
        WaitersKept(threads, t, th, k);
      }
    }
  }

  lemma LeaveKeepsConds(threads: map<Tid, Thread>, conds: map<CondId, Cond>, t: Tid, th: Thread, c: CondId)
    requires CondsSound(threads, conds) && t in threads && c in conds
    requires ParkedOn(threads[t], c) && !th.pc.Parked?
    ensures conds[c].signaled != 0 ==> CondsSound(threads[t := th], conds[c := Leave(conds[c])])
    ensures conds[c].signaled == 0 ==> CondsSound(threads[t := th], conds[c := Expire(conds[c])])
  {
    var conds' := conds[c := if conds[c].signaled != 0 then Leave(conds[c]) else Expire(conds[c])];
    forall k | k in conds
      ensures CondSound(threads[t := th], conds', k)
    {
      assert CondSound(threads, conds, k);
      if k == c {
        WaiterLeaves(threads, t, th, c);
      } else {
        WaitersKept(threads, t, th, k);
      }
    }
  }

  lemma StayKeepsConds(threads: map<Tid, Thread>, conds: map<CondId, Cond>, t: Tid, th: Thread)
    requires CondsSound(threads, conds) && t in threads && th.pc == threads[t].pc
    ensures CondsSound(threads[t := th], conds)
  {
    forall c | c in conds
      ensures CondSound(threads[t := th], conds, c)
    {
      assert CondSound(threads, conds, c);
      WaitersKept(threads, t, th, c);
    }
  }

  lemma SignalKeepsConds(threads: map<Tid, Thread>, conds: map<CondId, Cond>, c: CondId)
    requires CondsSound(threads, conds) && c in conds
    ensures CondsSound(threads, conds[c := SyncSpec.Signal(conds[c])])
    ensures CondsSound(threads, conds[c := SyncSpec.Broadcast(conds[c])])
  {
    forall k | k in conds
      ensures CondSound(threads, conds[c := SyncSpec.Signal(conds[c])], k)
      ensures CondSound(threads, conds[c := SyncSpec.Broadcast(conds[c])], k)
    {
      assert CondSound(threads, conds, k);
    }
  }

  /** The thread a lock loop leaves behind is in no wait loop. */
  lemma LockLoopShape(w: World, t: Tid, m: MutexId, result: Code)
    requires t in w.threads && m in w.mutexes
    ensures
      var w' := LockLoop(w, t, m, result);
      t in w'.threads && !w'.threads[t].pc.Parked? && w'.threads == w.threads[t := w'.threads[t]] && w'.conds == w.conds
  {
  }

  lemma ResumeWaitKeepsConds(w: World, t: Tid, expired: bool)
    requires Inv(w) && t in w.threads && w.threads[t].pc.Parked? && Enabled(w, Resume(t, expired))
    ensures CondsSound(Step(w, Resume(t, expired)).threads, Step(w, Resume(t, expired)).conds)
  {
    var Parked(c, m, timed) := w.threads[t].pc;
    var cond, w' := w.conds[c], Step(w, Resume(t, expired));
    if cond.signaled != 0 {
      LockLoopShape(w.(conds := w.conds[c := Leave(cond)]), t, m, Ok);
      LeaveKeepsConds(w.threads, w.conds, t, w'.threads[t], c);
    } else if timed && expired {
      LockLoopShape(w.(conds := w.conds[c := Expire(cond)]), t, m, TimedOut);
      LeaveKeepsConds(w.threads, w.conds, t, w'.threads[t], c);
    } else {
      StayKeepsConds(w.threads, w.conds, t, w'.threads[t]);
    }
  }

  /** A wait that does not park leaves the condition variable as it was. */
  lemma NoParkNoChange(conds: map<CondId, Cond>, c: CondId)
    requires c in conds && conds[c].waiting >= 0 && (conds[c].signaled != 0 ==> conds[c].waiting > 0)
    ensures conds[c].signaled != 0 ==> conds[c := Enter(conds[c])][c := Leave(Enter(conds[c]))] == conds
    ensures conds[c := Enter(conds[c])][c := Expire(Enter(conds[c]))] == conds
  {
  }

  lemma WaitLoopShape(w: World, t: Tid, c: CondId, m: MutexId, timed: bool, expired: bool)
    requires t in w.threads && c in w.conds && m in w.mutexes
    ensures var w', cond := WaitLoop(w, t, c, m, timed, expired), w.conds[c];
      && t in w'.threads && w'.threads == w.threads[t := w'.threads[t]]
      && (w'.threads[t].pc.Parked? ==> w'.threads[t].pc == Parked(c, m, timed) && w'.conds == w.conds)
      && (!w'.threads[t].pc.Parked? ==>
          w'.conds == w.conds[c := if cond.signaled != 0 then Leave(cond) else Expire(cond)])
  {
    LockLoopShape(w.(conds := w.conds[c := Leave(w.conds[c])]), t, m, Ok);
    LockLoopShape(w.(conds := w.conds[c := Expire(w.conds[c])]), t, m, TimedOut);
  }

  /** What a wait does to the condition variables: one waiter more if it parks, and else
      nothing. */
  lemma WaitShape(w: World, a: Action)
    requires Inv(w) && Enabled(w, a) && a.Wait?
    ensures var w' := Step(w, a);
      && w'.threads == w.threads[a.t := w'.threads[a.t]]
      && (w'.threads[a.t].pc.Parked? ==> w'.threads[a.t].pc == Parked(a.c, a.m, a.timed))
      && w'.conds == if w'.threads[a.t].pc.Parked? then w.conds[a.c := Enter(w.conds[a.c])] else w.conds
  {
    var r := Release(w.(conds := w.conds[a.c := Enter(w.conds[a.c])]), a.t, a.m);
    assert CondSound(w.threads, w.conds, a.c);
    NoParkNoChange(w.conds, a.c);
    WaitLoopShape(r, a.t, a.c, a.m, a.timed, a.expired);
  }

  lemma WaitKeepsConds(w: World, a: Action)
    requires Inv(w) && Enabled(w, a) && a.Wait?
    ensures CondsSound(Step(w, a).threads, Step(w, a).conds)
  {
    var w' := Step(w, a);
    WaitShape(w, a);
    if w'.threads[a.t].pc.Parked? {
      ParkKeepsConds(w.threads, w.conds, a.t, w'.threads[a.t], a.c);
    } else {
      OutsideKeepsConds(w.threads, w.conds, a.t, w'.threads[a.t]);
    }
  }

  lemma StepKeepsConds(w: World, a: Action)
    requires Inv(w) && Enabled(w, a)
    ensures CondsSound(Step(w, a).threads, Step(w, a).conds)
  {
    var w' := Step(w, a);
    match a
    case Lock(t, m) =>
      LockLoopShape(w, t, m, Ok);
      OutsideKeepsConds(w.threads, w.conds, t, w'.threads[t]);
    case TryLock(t, m) =>
      LockLoopShape(w, t, m, Ok);
      OutsideKeepsConds(w.threads, w.conds, t, w'.threads[t]);
    case Unlock(t, m) =>
      assert w'.threads == w.threads[t := w'.threads[t]];
      OutsideKeepsConds(w.threads, w.conds, t, w'.threads[t]);
    case Wait(_, _, _, _, _) => WaitKeepsConds(w, a);
    case Signal(t, c) =>
      SignalKeepsConds(w.threads, w.conds, c);
      OutsideKeepsConds(w.threads, w'.conds, t, w'.threads[t]);
    case Broadcast(t, c) =>
      SignalKeepsConds(w.threads, w.conds, c);
      OutsideKeepsConds(w.threads, w'.conds, t, w'.threads[t]);
    case Resume(t, expired) =>
      if w.threads[t].pc.Parked? {
        ResumeWaitKeepsConds(w, t, expired);
      } else {
        LockLoopShape(w, t, w.threads[t].pc.m, w.threads[t].pc.result);
        OutsideKeepsConds(w.threads, w.conds, t, w'.threads[t]);
      }
  }

  // ---------- every step, every run ----------

  /** Only thread t changed, and it now stands at a proper place. */
  ghost predicate Moved(w: World, w': World, t: Tid) {
    && t in w.threads && t in w'.threads && w'.threads == w.threads[t := w'.threads[t]]
    && w'.mutexes.Keys == w.mutexes.Keys && w'.conds.Keys == w.conds.Keys
    && PcSound(w, w'.threads[t].pc)
  }

  lemma LockLoopMoves(w: World, t: Tid, m: MutexId, result: Code)
    requires t in w.threads && m in w.mutexes
    ensures Moved(w, LockLoop(w, t, m, result), t)
  {
  }

  lemma WaitLoopMoves(w: World, t: Tid, c: CondId, m: MutexId, timed: bool, expired: bool)
    requires t in w.threads && c in w.conds && m in w.mutexes
    ensures Moved(w, WaitLoop(w, t, c, m, timed, expired), t)
  {
    var cond := w.conds[c];
    if cond.signaled != 0 {
      LockLoopMoves(w.(conds := w.conds[c := Leave(cond)]), t, m, Ok);
    } else if timed && expired {
      LockLoopMoves(w.(conds := w.conds[c := Expire(cond)]), t, m, TimedOut);
    }
  }

  lemma StepMoves(w: World, a: Action)
    requires Enabled(w, a)
    ensures Moved(w, Step(w, a), a.t)
  {
    match a
    case Lock(t, m) => LockLoopMoves(w, t, m, Ok);
    case TryLock(t, m) => LockLoopMoves(w, t, m, Ok);
    case Unlock(t, m) =>
    case Wait(t, c, m, timed, expired) =>
      WaitLoopMoves(Release(w.(conds := w.conds[c := Enter(w.conds[c])]), t, m), t, c, m, timed, expired);
    case Signal(t, c) =>
    case Broadcast(t, c) =>
    case Resume(t, expired) =>
      match w.threads[t].pc {
        case Locking(m, result) => LockLoopMoves(w, t, m, result);
        case Parked(c, m, timed) => WaitLoopMoves(w, t, c, m, timed, expired);
      }
  }

  lemma MovedKeepsPcs(w: World, w': World, t: Tid)
    requires PcsSound(w) && Moved(w, w', t)
    ensures PcsSound(w')
  {
  }

  lemma StepKeepsInv(w: World, a: Action)
    requires Inv(w) && Enabled(w, a)
    ensures Inv(Step(w, a))
  {
    StepKeepsMutexes(w, a);
    StepKeepsConds(w, a);
    StepMoves(w, a);
    MovedKeepsPcs(w, Step(w, a), a.t);
  }

  lemma {:induction false} RunKeepsInv(w: World, run: seq<Action>)
    requires Inv(w) && Runnable(w, run)
    ensures Inv(Run(w, run))
    decreases run
  {
    if run != [] {
      StepKeepsInv(w, run[0]);
      RunKeepsInv(Step(w, run[0]), run[1..]);
    }
  }

  // ---------- what a client can rely on ----------

  /** Mutual exclusion, in every reachable world: locked is 1 exactly while one
      thread holds the mutex, which is then its owner; otherwise both fields are 0. */
  lemma MutualExclusion(w: World, run: seq<Action>, m: MutexId)
    requires Initial(w) && Runnable(w, run) && m in Run(w, run).mutexes
    ensures
      var v := Run(w, run);
      var x := v.mutexes[m];
      && (forall t, u | t in v.threads && u in v.threads && m in v.threads[t].held && m in v.threads[u].held :: t == u)
      && (x.locked == 1 <==> Held(v, m))
      && (forall t | t in v.threads && m in v.threads[t].held :: x.owner == t)
      && (!Held(v, m) ==> x == FREE)
  {
    InitialInv(w);
    RunKeepsInv(w, run);
    assert MutexSound(Run(w, run), m);
  }

  /** The result a thread that has left its wait loop returns with, now or once it has
      the mutex. */
  predicate Carries(pc: Pc, result: Code) {
    (pc.Outside? || pc.Locking?) && pc.result == result
  }

  /** Every call that goes through a lock loop, waits and timed waits included, comes
      back holding its mutex, whether it was signaled or timed out; with ETIMEDOUT if it
      was carrying that, or has just seen its deadline pass with no signal pending. */
  lemma ReturnsHolding(w: World, a: Action, m: MutexId)
    requires Enabled(w, a)
    requires
      match a
      case Lock(_, k) => k == m
      case Wait(_, _, k, _, _) => k == m
      case Resume(t, _) => w.threads[t].pc.m == m
      case _ => false
    requires Step(w, a).threads[a.t].pc.Outside?
    ensures m in Step(w, a).threads[a.t].held
    ensures Step(w, a).threads[a.t].pc.result == TimedOut <==>
      match a
      case Wait(_, c, _, timed, expired) => w.conds[c].signaled == 0 && timed && expired
      case Resume(t, _) => w.threads[t].pc == Locking(m, TimedOut) || TimesOut(w, a, t)
      case _ => false
  {
  }

  /** One turn of a wait loop: signaled if a signal is pending, timed out if not and the
      deadline of a timed wait has passed, and otherwise parked again. */
  lemma WaitTurn(w: World, t: Tid, expired: bool)
    requires Enabled(w, Resume(t, expired)) && w.threads[t].pc.Parked?
    ensures var pc, was := Step(w, Resume(t, expired)).threads[t].pc, w.threads[t].pc;
      && (Carries(pc, Ok) <==> w.conds[was.c].signaled != 0)
      && (Carries(pc, TimedOut) <==> w.conds[was.c].signaled == 0 && was.timed && expired)
      && (Carries(pc, Ok) || Carries(pc, TimedOut) || pc == was)
      && (pc.Locking? ==> pc.m == was.m)
  {
  }

  /** t's deadline passes at this step, with no signal pending. */
  predicate TimesOut(w: World, a: Action, t: Tid) {
    a == Resume(t, true) && t in w.threads && w.threads[t].pc.Parked? && w.threads[t].pc.timed &&
    w.threads[t].pc.c in w.conds && w.conds[w.threads[t].pc.c].signaled == 0
  }

  predicate SomeTimeout(w: World, run: seq<Action>, t: Tid)
    requires Runnable(w, run)
    decreases run
  {
    run != [] && (TimesOut(w, run[0], t) || SomeTimeout(Step(w, run[0]), run[1..], t))
  }

  lemma OthersKeepPc(w: World, a: Action, t: Tid)
    requires Enabled(w, a) && t in w.threads && a.t != t
    ensures t in Step(w, a).threads && Step(w, a).threads[t].pc == w.threads[t].pc
  {
  }

  /** Carrying the mutex's lock loop through keeps the result. */
  lemma ResumedPc(w: World, t: Tid, expired: bool)
    requires Enabled(w, Resume(t, expired))
    ensures t in Step(w, Resume(t, expired)).threads
    ensures var pc := Step(w, Resume(t, expired)).threads[t].pc;
      Carries(pc, TimedOut) <==> Carries(w.threads[t].pc, TimedOut) || TimesOut(w, Resume(t, expired), t)
    ensures !w.threads[t].pc.Parked? ==> !Step(w, Resume(t, expired)).threads[t].pc.Parked?
  {
  }

  /** Over every run in which a thread makes no new call: it comes to return ETIMEDOUT if
      and only if it already had to, or there was a turn at which the deadline of its timed
      wait had passed and no signal was pending. */
  lemma {:induction false} TimeoutHasCause(w: World, run: seq<Action>, t: Tid)
    requires t in w.threads && Runnable(w, run) && forall k | 0 <= k < |run| && run[k].t == t :: run[k].Resume?
    ensures t in Run(w, run).threads
    ensures Carries(Run(w, run).threads[t].pc, TimedOut) <==>
            Carries(w.threads[t].pc, TimedOut) || SomeTimeout(w, run, t)
    decreases run
  {
    if run != [] {
      var a, v := run[0], Step(w, run[0]);
      if a.t == t { ResumedPc(w, t, a.expired); } else { OthersKeepPc(w, a, t); }
      forall k | 0 <= k < |run[1..]| && run[1..][k].t == t ensures run[1..][k].Resume? {
        assert run[1..][k] == run[k + 1];
      }
      TimeoutHasCause(v, run[1..], t);
    }
  }

  /** What the calls that do not wait answer: trylock Ok exactly if no thread held the mutex,
      and the caller holds it then, and otherwise EBUSY; unlock, signal and broadcast Ok. */
  lemma AnswersAreExact(w: World, a: Action)
    requires Inv(w) && Enabled(w, a) && (a.TryLock? || a.Unlock? || a.Signal? || a.Broadcast?)
    ensures var th := Step(w, a).threads[a.t];
      && th.pc == Outside(if a.TryLock? && Held(w, a.m) then Busy else Ok)
      && (a.TryLock? ==> th.held == w.threads[a.t].held + if Held(w, a.m) then {} else {a.m})
      && (a.Unlock? ==> th.held == w.threads[a.t].held - {a.m})
      && (a.Signal? || a.Broadcast? ==> th.held == w.threads[a.t].held)
  {
    if a.TryLock? { assert MutexSound(w, a.m); }
  }

  /** waiting never exceeds the number of threads, so with fewer than 2^31 threads it cannot
      wrap around. */
  lemma WaitingIsBounded(w: World, c: CondId)
    requires Inv(w) && c in w.conds
    ensures 0 <= w.conds[c].waiting <= |w.threads|
  {
    assert CondSound(w.threads, w.conds, c);
    SubsetSize(Waiters(w.threads, c), w.threads.Keys);
  }

  lemma {:induction false} SubsetSize(a: set<Tid>, b: set<Tid>)
    requires a <= b
    ensures |a| <= |b|
  {
    assert b == a + (b - a);
  }

  // ---------- no lost wakeup ----------

  /** While a signal is pending, nothing but its own turn takes a waiter out, and the
      signal stays pending for it. */
  lemma PendingForWaiter(w: World, a: Action, t: Tid)
    requires Inv(w) && Enabled(w, a) && t in w.threads && w.threads[t].pc.Parked?
    requires w.conds[w.threads[t].pc.c].signaled != 0 && !(a.Resume? && a.t == t)
    ensures t in Step(w, a).threads && Step(w, a).threads[t].pc == w.threads[t].pc
    ensures w.threads[t].pc.c in Step(w, a).conds && Step(w, a).conds[w.threads[t].pc.c].signaled != 0
  {
    assert a.t != t;
    StepMoves(w, a);
    StepKeepsInv(w, a);
    PendingUntilDrained(w, a, w.threads[t].pc.c);
    WaiterMeansPending(Step(w, a), t, w.threads[t].pc.c);
  }

  lemma WaiterMeansPending(w: World, t: Tid, c: CondId)
    requires Inv(w) && c in w.conds && t in w.threads && ParkedOn(w.threads[t], c)
    ensures w.conds[c].waiting != 0
  {
    assert CondSound(w.threads, w.conds, c);
    assert t in Waiters(w.threads, c);
  }

  /** A pending signal is taken back only when the last waiter has left. */
  lemma PendingUntilDrained(w: World, a: Action, c: CondId)
    requires Enabled(w, a) && c in w.conds && w.conds[c].signaled != 0
    ensures c in Step(w, a).conds
    ensures Step(w, a).conds[c].signaled != 0 || Step(w, a).conds[c].waiting == 0
  {
  }

  /** However the other threads are scheduled in between, and whatever they call, a
      thread that was waiting when a signal was pending leaves the wait loop at its
      own next turn, and leaves it as signaled: the wakeup is neither lost nor turned
      into a timeout. */
  lemma {:induction false} NoLostWakeup(w: World, run: seq<Action>, t: Tid, expired: bool)
    requires Inv(w) && t in w.threads && w.threads[t].pc.Parked?
    requires w.conds[w.threads[t].pc.c].signaled != 0
    requires Runnable(w, run) && forall a | a in run :: !(a.Resume? && a.t == t)
    ensures Enabled(Run(w, run), Resume(t, expired))
    ensures
      var pc := Step(Run(w, run), Resume(t, expired)).threads[t].pc;
      pc == Outside(Ok) || pc == Locking(w.threads[t].pc.m, Ok)
    decreases run
  {
    if run != [] {
      assert run[0] in run;
      PendingForWaiter(w, run[0], t);
      StepKeepsInv(w, run[0]);
      NoLostWakeup(Step(w, run[0]), run[1..], t, expired);
    }
  }

  /** Signal and broadcast do leave a pending signal when anyone waits, and nothing
      at all when no one does, so a signal is never kept for later. */
  lemma SignalReachesWaiters(w: World, a: Action)
    requires Inv(w) && Enabled(w, a) && (a.Signal? || a.Broadcast?)
    ensures Waiters(w.threads, a.c) != {} ==> Step(w, a).conds[a.c].signaled != 0
    ensures Waiters(w.threads, a.c) == {} ==> Step(w, a).conds == w.conds
    ensures Waiters(Step(w, a).threads, a.c) == Waiters(w.threads, a.c)
  {
    assert CondSound(w.threads, w.conds, a.c);
    WaitersKept(w.threads, a.t, Step(w, a).threads[a.t], a.c);
    if Waiters(w.threads, a.c) == {} {
      assert w.conds[a.c := w.conds[a.c]] == w.conds;
    }
  }

  // ---------- draining ----------

  predicate Wakes(w: World, a: Action, c: CondId) {
    a.Resume? && a.t in w.threads && ParkedOn(w.threads[a.t], c)
  }

  /** How many steps of a run are turns of threads waiting on c. */
  function WakeCount(w: World, run: seq<Action>, c: CondId): nat
    requires Runnable(w, run)
    decreases run
  {
    if run == [] then 0
    else (if Wakes(w, run[0], c) then 1 else 0) + WakeCount(Step(w, run[0]), run[1..], c)
  }

  /** While a signal is pending no thread can park, and every turn of a waiter takes
      one off the count. */
  lemma PendingStep(w: World, a: Action, c: CondId)
    requires Inv(w) && Enabled(w, a) && c in w.conds && w.conds[c].signaled != 0
    ensures c in Step(w, a).conds && Waiters(Step(w, a).threads, c) <= Waiters(w.threads, c)
    ensures Step(w, a).conds[c].waiting == w.conds[c].waiting - if Wakes(w, a, c) then 1 else 0
  {
    var w' := Step(w, a);
    StepMoves(w, a);
    PendingNoPark(w, a, c);
    forall u | u in Waiters(w'.threads, c)
      ensures u in Waiters(w.threads, c)
    {
      assert u != a.t ==> w'.threads[u] == w.threads[u];
    }
    PendingCount(w, a, c);
  }

  lemma PendingNoPark(w: World, a: Action, c: CondId)
    requires Enabled(w, a) && c in w.conds && w.conds[c].signaled != 0
    ensures a.t in Step(w, a).threads && !ParkedOn(Step(w, a).threads[a.t], c)
  {
    assert a.Wait? && a.c == c ==> Enter(w.conds[c]).signaled != 0;
  }

  lemma PendingCount(w: World, a: Action, c: CondId)
    requires Enabled(w, a) && c in w.conds && w.conds[c].signaled != 0
    ensures c in Step(w, a).conds
    ensures Step(w, a).conds[c].waiting == w.conds[c].waiting - if Wakes(w, a, c) then 1 else 0
  {
  }

  /** Either the signal is still pending and the count has gone down by the number of
      waiters' turns, with no newcomer among the waiters, or at some point of the run
      the last waiter had left.  So as many turns as there were waiters empty the
      wait loop. */
  lemma {:induction false} Drain(w: World, run: seq<Action>, c: CondId)
    requires Inv(w) && c in w.conds && w.conds[c].signaled != 0 && Runnable(w, run)
    ensures
      || EmptyAtSomePoint(w, run, c)
      || (var v := Run(w, run);
          && c in v.conds && v.conds[c].signaled != 0 && Waiters(v.threads, c) <= Waiters(w.threads, c)
          && v.conds[c].waiting == w.conds[c].waiting - WakeCount(w, run, c))
    ensures WakeCount(w, run, c) >= w.conds[c].waiting ==> EmptyAtSomePoint(w, run, c)
    decreases run
  {
    if run == [] {
      assert CondSound(w.threads, w.conds, c);
    } else {
      var w' := Step(w, run[0]);
      StepKeepsInv(w, run[0]);
      PendingStep(w, run[0], c);
      PendingUntilDrained(w, run[0], c);
      assert CondSound(w'.threads, w'.conds, c);
      if w'.conds[c].signaled != 0 {
        Drain(w', run[1..], c);
      } else {
        assert Waiters(w'.threads, c) == {};
        assert EmptyAtSomePoint(w', run[1..], c);
      }
    }
  }

  /** At the start of the run or after one of its steps no thread waits on c. */
  ghost predicate EmptyAtSomePoint(w: World, run: seq<Action>, c: CondId)
    requires Runnable(w, run)
    decreases run
  {
    Waiters(w.threads, c) == {} || (run != [] && EmptyAtSomePoint(Step(w, run[0]), run[1..], c))
  }

  // ---------- signal and broadcast ----------

  predicate SameUpToCount(x: Cond, y: Cond) {
    x.waiting == y.waiting && (x.signaled == 0 <==> y.signaled == 0)
  }

  /** Worlds that differ only in how large a pending signal is. */
  ghost predicate Alike(w: World, v: World) {
    && w.mutexes == v.mutexes && w.threads == v.threads && w.conds.Keys == v.conds.Keys
    && forall c | c in w.conds :: SameUpToCount(w.conds[c], v.conds[c])
  }

  /** The same action, or broadcast in place of signal. */
  function Widen(a: Action): Action {
    if a.Signal? then Broadcast(a.t, a.c) else a
  }

  lemma LockLoopAlike(w: World, v: World, t: Tid, m: MutexId, result: Code)
    requires Alike(w, v) && t in w.threads && m in w.mutexes
    ensures Alike(LockLoop(w, t, m, result), LockLoop(v, t, m, result))
  {
  }

  lemma CondsAlike(w: World, v: World, c: CondId, x: Cond, y: Cond)
    requires Alike(w, v) && c in w.conds && SameUpToCount(x, y)
    ensures Alike(w.(conds := w.conds[c := x]), v.(conds := v.conds[c := y]))
  {
  }

  lemma WaitLoopAlike(w: World, v: World, t: Tid, c: CondId, m: MutexId, timed: bool, expired: bool)
    requires Alike(w, v) && t in w.threads && c in w.conds && m in w.mutexes
    ensures Alike(WaitLoop(w, t, c, m, timed, expired), WaitLoop(v, t, c, m, timed, expired))
  {
    var x, y := w.conds[c], v.conds[c];
    assert SameUpToCount(x, y);
    if x.signaled != 0 {
      CondsAlike(w, v, c, Leave(x), Leave(y));
      LockLoopAlike(w.(conds := w.conds[c := Leave(x)]), v.(conds := v.conds[c := Leave(y)]), t, m, Ok);
    } else if timed && expired {
      CondsAlike(w, v, c, Expire(x), Expire(y));
      LockLoopAlike(w.(conds := w.conds[c := Expire(x)]), v.(conds := v.conds[c := Expire(y)]), t, m, TimedOut);
    }
  }

  lemma WaitAlike(w: World, v: World, a: Action)
    requires Alike(w, v) && Enabled(w, a) && a.Wait?
    ensures Enabled(v, a) && Alike(Step(w, a), Step(v, a))
  {
    var Wait(t, c, m, timed, expired) := a;
    var x, y := w.conds[c], v.conds[c];
    assert SameUpToCount(x, y);
    CondsAlike(w, v, c, Enter(x), Enter(y));
    WaitLoopAlike(Release(w.(conds := w.conds[c := Enter(x)]), t, m), Release(v.(conds := v.conds[c := Enter(y)]), t, m),
                  t, c, m, timed, expired);
  }

  lemma WakeAlike(w: World, v: World, a: Action)
    requires Alike(w, v) && Enabled(w, a) && (a.Signal? || a.Broadcast?)
    ensures Enabled(v, Widen(a)) && Alike(Step(w, a), Step(v, Widen(a)))
  {
    var x, y := w.conds[a.c], v.conds[a.c];
    assert SameUpToCount(x, y);
    CondsAlike(w, v, a.c, SyncSpec.Signal(x), SyncSpec.Broadcast(y));
    CondsAlike(w, v, a.c, SyncSpec.Broadcast(x), SyncSpec.Broadcast(y));
  }

  lemma StepAlike(w: World, v: World, a: Action)
    requires Alike(w, v) && Enabled(w, a)
    ensures Enabled(v, Widen(a)) && Alike(Step(w, a), Step(v, Widen(a)))
  {
    match a
    case Lock(t, m) => LockLoopAlike(w, v, t, m, Ok);
    case TryLock(t, m) => LockLoopAlike(w, v, t, m, Ok);
    case Unlock(t, m) =>
    case Wait(_, _, _, _, _) => WaitAlike(w, v, a);
    case Signal(_, _) => WakeAlike(w, v, a);
    case Broadcast(_, _) => WakeAlike(w, v, a);
    case Resume(t, expired) =>
      match w.threads[t].pc {
        case Locking(m, result) => LockLoopAlike(w, v, t, m, result);
        case Parked(c, m, timed) => WaitLoopAlike(w, v, t, c, m, timed, expired);
      }
  }

  function WidenAll(run: seq<Action>): seq<Action> {
    if run == [] then [] else [Widen(run[0])] + WidenAll(run[1..])
  }

  /** One pthread_cond_signal wakes every waiter, as broadcast does: replacing all
      signals of a run by broadcasts changes no thread's position, no return code and
      no mutex. */
  lemma {:induction false} SignalIsBroadcast(w: World, v: World, run: seq<Action>)
    requires Alike(w, v) && Runnable(w, run)
    ensures Runnable(v, WidenAll(run)) && Alike(Run(w, run), Run(v, WidenAll(run)))
    decreases run
  {
    if run != [] {
      StepAlike(w, v, run[0]);
      SignalIsBroadcast(Step(w, run[0]), Step(v, Widen(run[0])), run[1..]);
      assert WidenAll(run)[1..] == WidenAll(run[1..]);
    }
  }
}
