/** Read-write locks: an inner mutex taken and given back around every look at the
    two fields. */
module RwLockSpec {
  import opened SyncSpec

  datatype RwLock = RwLock(mutex: Mutex, readers: int, writer: nat)

  const UNLOCKED := RwLock(FREE, 0, 0)

  /** How one turn of a call ends: it got what it wanted, it found a conflict, or the
      inner mutex was taken. */
  datatype Outcome = Done | Conflict | InnerBusy

  /** One turn of the loop of pthread_rwlock_rdlock, and all of tryrdlock. */
  function ReadTurn(l: RwLock, self: nat): (RwLock, Outcome) {
    if l.mutex.locked != 0 then (l, InnerBusy)
    else if l.writer != 0 then (l.(mutex := FREE), Conflict)
    else (l.(mutex := FREE, readers := l.readers + 1), Done)
  }

  /** One turn of the loop of pthread_rwlock_wrlock, and all of trywrlock. */
  function WriteTurn(l: RwLock, self: nat): (RwLock, Outcome) {
    if l.mutex.locked != 0 then (l, InnerBusy)
    else if l.readers > 0 || l.writer != 0 then (l.(mutex := FREE), Conflict)
    else (l.(mutex := FREE, writer := self), Done)
  }

  /** pthread_rwlock_unlock once the inner mutex is free. */
  function UnlockTurn(l: RwLock, self: nat): (RwLock, Outcome) {
    if l.mutex.locked != 0 then (l, InnerBusy)
    else if l.writer == self then (l.(mutex := FREE, writer := 0), Done)
    else if l.readers > 0 then (l.(mutex := FREE, readers := l.readers - 1), Done)
    else (l.(mutex := FREE), Done)
  }
}

module RwLockObjects {
  import opened SyncSpec
  import opened SyncObjects
  import opened RwLockSpec

  class RwLockObject {
    const mutex: MutexObject
    var readers: int
    var writer: nat

    function Value(): RwLock reads this, mutex {
      RwLock(mutex.Value(), readers, writer)
    }

    constructor ()
      ensures Value() == UNLOCKED && fresh(mutex)
    {
      mutex := new MutexObject();
      readers, writer := 0, 0;
    }

    method ReadTurn(self: Tid) returns (r: Outcome)
      modifies this, mutex
      ensures (Value(), r) == RwLockSpec.ReadTurn(old(Value()), self)
    {
      var taken := mutex.TryLock(self);
      if !taken {
        return InnerBusy;
      }
      if writer != 0 {
        mutex.Unlock();
        return Conflict;
      }
      readers := readers + 1;
      mutex.Unlock();
      r := Done;
    }

    method WriteTurn(self: Tid) returns (r: Outcome)
      modifies this, mutex
      ensures (Value(), r) == RwLockSpec.WriteTurn(old(Value()), self)
    {
      var taken := mutex.TryLock(self);
      if !taken {
        return InnerBusy;
      }
      if readers > 0 || writer != 0 {
        mutex.Unlock();
        return Conflict;
      }
      writer := self;
      mutex.Unlock();
      r := Done;
    }

    method UnlockTurn(self: Tid) returns (r: Outcome)
      modifies this, mutex
      ensures (Value(), r) == RwLockSpec.UnlockTurn(old(Value()), self)
    {
      var taken := mutex.TryLock(self);
      if !taken {
        return InnerBusy;
      }
      if writer == self {
        writer := 0;
      } else if readers > 0 {
        readers := readers - 1;
      }
      mutex.Unlock();
      r := Done;
    }
  }
}

/** All threads using one lock.  Other locks and other waits of the same threads only
    restrict the schedule, which is arbitrary here anyway. */
module RwLockRuns {
  import opened SyncSpec
  import opened RwLockSpec

  datatype Code = Ok | Busy
  datatype Kind = Read | Write | Release

  /** Outside the library, or at a yield: of the inner mutex's loop (inner) or of the
      lock's own loop. */
  datatype Pc = Outside(result: Code) | Trying(kind: Kind, inner: bool)

  /** readHolds and writeHolds are history: who has acquired and not given back. */
  datatype World = World(lock: RwLock, threads: map<Tid, Pc>, readHolds: multiset<Tid>, writeHolds: multiset<Tid>)

  datatype Action =
    | RdLock(t: Tid)
    | TryRdLock(t: Tid)
    | WrLock(t: Tid)
    | TryWrLock(t: Tid)
    | Unlock(t: Tid)
    | Resume(t: Tid)

  /** Registered threads call from outside and unlock only what they hold. */
  predicate Enabled(w: World, a: Action) {
    a.t in w.threads &&
    match a
    case Unlock(t) => w.threads[t].Outside? && (t in w.readHolds || t in w.writeHolds)
    case Resume(t) => w.threads[t].Trying?
    case _ => w.threads[a.t].Outside?
  }

  function TurnOf(l: RwLock, t: Tid, kind: Kind): (RwLock, Outcome) {
    match kind
    case Read => ReadTurn(l, t)
    case Write => WriteTurn(l, t)
    case Release => UnlockTurn(l, t)
  }

  /** The history of a turn that went through. */
  function Note(w: World, t: Tid, kind: Kind): World {
    match kind
    case Read => w.(readHolds := w.readHolds + multiset{t})
    case Write => w.(writeHolds := w.writeHolds + multiset{t})
    case Release =>
      if t in w.writeHolds then w.(writeHolds := w.writeHolds - multiset{t})
      else w.(readHolds := w.readHolds - multiset{t})
  }

  /** A turn of a blocking call, up to its end or the next yield. */
  function Try(w: World, t: Tid, kind: Kind): World {
    var (l, r) := TurnOf(w.lock, t, kind);
    match r
    case Done => Note(w, t, kind).(lock := l, threads := w.threads[t := Outside(Ok)])
    case Conflict => w.(lock := l, threads := w.threads[t := Trying(kind, false)])
    case InnerBusy => w.(lock := l, threads := w.threads[t := Trying(kind, true)])
  }

  /** A call that does not block. */
  function TryOnce(w: World, t: Tid, kind: Kind): World {
    var (l, r) := TurnOf(w.lock, t, kind);
    if r == Done then Note(w, t, kind).(lock := l, threads := w.threads[t := Outside(Ok)])
    else w.(lock := l, threads := w.threads[t := Outside(Busy)])
  }

  function Step(w: World, a: Action): World
    requires Enabled(w, a)
  {
    match a
    case RdLock(t) => Try(w, t, Read)
    case TryRdLock(t) => TryOnce(w, t, Read)
    case WrLock(t) => Try(w, t, Write)
    case TryWrLock(t) => TryOnce(w, t, Write)
    case Unlock(t) => Try(w, t, Release)
    case Resume(t) => Try(w, t, w.threads[t].kind)
  }

  predicate Runnable(w: World, run: seq<Action>)
    decreases run
  {
    run == [] || (Enabled(w, run[0]) && Runnable(Step(w, run[0]), run[1..]))
  }

  function Run(w: World, run: seq<Action>): World
    requires Runnable(w, run)
    decreases run
  {
    if run == [] then w else Run(Step(w, run[0]), run[1..])
  }

  predicate Initial(w: World) {
    w.lock == UNLOCKED && w.readHolds == multiset{} && w.writeHolds == multiset{} &&
    forall t | t in w.threads :: w.threads[t] == Outside(Ok)
  }

  ghost predicate Inv(w: World) {
    && w.lock.mutex == FREE
    && w.lock.readers == |w.readHolds|
    && (if w.lock.writer == 0 then w.writeHolds == multiset{} else w.writeHolds == multiset{w.lock.writer})
    && (w.lock.readers == 0 || w.lock.writer == 0)
    && (forall t | t in w.threads :: w.threads[t].Trying? ==> !w.threads[t].inner && !w.threads[t].kind.Release?)
  }

  lemma ReadKeepsInv(w: World, t: Tid)
    requires Inv(w) && t in w.threads
    ensures Inv(Try(w, t, Read)) && Inv(TryOnce(w, t, Read))
  {
    assert |w.readHolds + multiset{t}| == |w.readHolds| + 1;
  }

  lemma WriteKeepsInv(w: World, t: Tid)
    requires Inv(w) && t in w.threads
    ensures Inv(Try(w, t, Write)) && Inv(TryOnce(w, t, Write))
  {
    assert multiset{} + multiset{t} == multiset{t};
  }

  lemma ReleaseKeepsInv(w: World, t: Tid)
    requires Inv(w) && t in w.threads && (t in w.readHolds || t in w.writeHolds)
    ensures Inv(Try(w, t, Release))
  {
    if t in w.writeHolds {
      assert multiset{t} - multiset{t} == multiset{};
    } else {
      assert |w.readHolds - multiset{t}| == |w.readHolds| - 1;
    }
  }

  lemma StepKeepsInv(w: World, a: Action)
    requires Inv(w) && Enabled(w, a)
    ensures Inv(Step(w, a))
  {
    match a
    case RdLock(t) => ReadKeepsInv(w, t);
    case TryRdLock(t) => ReadKeepsInv(w, t);
    case WrLock(t) => WriteKeepsInv(w, t);
    case TryWrLock(t) => WriteKeepsInv(w, t);
    case Unlock(t) => ReleaseKeepsInv(w, t);
    case Resume(t) =>
      if w.threads[t].kind == Read {
        ReadKeepsInv(w, t);
      } else {
        WriteKeepsInv(w, t);
      }
  }

  lemma {:induction false} RunKeepsInv(w: World, run: seq<Action>)
    requires Inv(w) && Runnable(w, run)
    ensures Inv(Run(w, run))
    decreases run
  {
    if run != [] {
      StepKeepsInv(w, run[0]);
      RunKeepsInv(Step(w, run[0]), run[1..]);
    }
  }

  /** In every reachable world: the reader count is the number of read holds, the
      writer field is 0 or the one write holder, the two never coexist, and no thread
      is ever stopped at the inner mutex. */
  lemma ReadersOrWriter(w: World, run: seq<Action>)
    requires Initial(w) && Runnable(w, run)
    ensures
      var v := Run(w, run);
      && v.lock.readers == |v.readHolds| && |v.writeHolds| <= 1
      && (forall t: Tid :: v.writeHolds[t] == if v.lock.writer == t then 1 else 0)
      && (v.readHolds == multiset{} || v.writeHolds == multiset{})
      && v.lock.mutex == FREE
      && (forall t | t in v.threads :: v.threads[t].Trying? ==> !v.threads[t].inner)
  {
    RunKeepsInv(w, run);
  }

  /** The non-blocking calls fail exactly on a real conflict, and the blocking ones
      wait exactly then. */
  lemma ConflictsAreReal(w: World, t: Tid)
    requires Inv(w) && t in w.threads && w.threads[t].Outside?
    ensures Step(w, TryRdLock(t)).threads[t] == Outside(if w.writeHolds != multiset{} then Busy else Ok)
    ensures Step(w, TryWrLock(t)).threads[t] ==
            Outside(if w.writeHolds != multiset{} || w.readHolds != multiset{} then Busy else Ok)
    ensures Step(w, RdLock(t)).threads[t] == if w.writeHolds == multiset{} then Outside(Ok) else Trying(Read, false)
    ensures Step(w, WrLock(t)).threads[t] ==
            if w.writeHolds == multiset{} && w.readHolds == multiset{} then Outside(Ok) else Trying(Write, false)
  {
    assert w.readHolds == multiset{} <==> |w.readHolds| == 0;
  }

  /** A call that gets its lock adds the caller's hold, a write lock the only one. */
  lemma LocksAreExact(w: World, t: Tid, kind: Kind)
    requires Inv(w) && t in w.threads && Try(w, t, kind).threads[t] == Outside(Ok)
    ensures Try(w, t, kind) == TryOnce(w, t, kind)
    ensures var v := Try(w, t, kind);
      match kind
      case Read => v.readHolds == w.readHolds + multiset{t} && v.writeHolds == w.writeHolds == multiset{}
      case Write => v.writeHolds == multiset{t} && v.readHolds == w.readHolds == multiset{}
      case Release => true
  {
    assert multiset{} + multiset{t} == multiset{t};
  }

  /** An unlock by a holder answers Ok at once and takes one hold of the caller's away. */
  lemma UnlockIsExact(w: World, t: Tid)
    requires Inv(w) && Enabled(w, Unlock(t))
    ensures var v := Step(w, Unlock(t));
      && v.threads[t] == Outside(Ok)
      && (if t in w.writeHolds then v.writeHolds == multiset{} && v.readHolds == w.readHolds
          else v.readHolds == w.readHolds - multiset{t} && v.writeHolds == w.writeHolds)
  {
    assert multiset{t} - multiset{t} == multiset{};
  }

  /** A lock nobody uses the inner mutex of, with r readers and no writer. */
  function ReadBy(r: nat): RwLock {
    RwLock(FREE, r, 0)
  }

  /** Why registration matters: pthread_self() is 0 for a thread the table does not know.
      A write lock shuts out readers and writers, whoever asks, if and only if its taker
      is not such a thread. */
  lemma WriterMustBeRegistered(self: nat, other: nat)
    ensures
      var (l, r) := WriteTurn(ReadBy(0), self);
      && r == Done
      && (WriteTurn(l, other).1 == Conflict <==> self != 0)
      && (ReadTurn(l, other).1 == Conflict <==> self != 0)
  {
  }

  /** n times a read lock and its unlock by self. */
  function ReadAndUnlock(l: RwLock, self: nat, n: nat): RwLock
    decreases n
  {
    if n == 0 then l else ReadAndUnlock(UnlockTurn(ReadTurn(l, self).0, self).0, self, n - 1)
  }

  /** An unregistered reader's unlock takes itself for the writer's and gives back nothing:
      each lock and unlock leaves one reader more, and writers are shut out from the first
      one on.  A registered reader's leave the lock as it was. */
  lemma {:induction false} ReaderMustBeRegistered(self: nat, r: nat, n: nat, other: nat)
    ensures ReadAndUnlock(ReadBy(r), self, n) == ReadBy(if self == 0 then r + n else r)
    ensures WriteTurn(ReadAndUnlock(ReadBy(r), self, n), other).1 == Conflict <==> r > 0 || (self == 0 && n > 0)
    decreases n
  {
    if n > 0 { ReaderMustBeRegistered(self, if self == 0 then r + 1 else r, n - 1, other); }
  }
}
