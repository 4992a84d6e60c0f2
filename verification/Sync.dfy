/** Mutexes and condition variables as values: what the code between two yields
    does to their fields. */
module SyncSpec {

  type Tid = t: nat | t > 0 witness 1

  datatype Mutex = Mutex(locked: int, owner: nat)
  datatype Cond = Cond(waiting: int, signaled: int)

  const FREE := Mutex(0, 0)
  const QUIET := Cond(0, 0)

  /** One test of the lock loop: the mutex is taken if it is free. */
  function Attempt(m: Mutex, self: Tid): (Mutex, bool) {
    if m.locked == 0 then (Mutex(1, self), true) else (m, false)
  }

  function Enter(c: Cond): Cond {
    c.(waiting := c.waiting + 1)
  }

  /** Leaving the wait loop because of a signal; the last one out resets it. */
  function Leave(c: Cond): Cond {
    Cond(c.waiting - 1, if c.waiting - 1 == 0 then 0 else c.signaled)
  }

  /** Leaving the wait loop because of the clock. */
  function Expire(c: Cond): Cond {
    c.(waiting := c.waiting - 1)
  }

  function Signal(c: Cond): Cond {
    if c.waiting > 0 then c.(signaled := 1) else c
  }

  function Broadcast(c: Cond): Cond {
    if c.waiting > 0 then c.(signaled := c.waiting) else c
  }
}

/** The structures themselves; each method is one stretch of code between yields. */
module SyncObjects {
  import opened SyncSpec

  class MutexObject {
    var locked: int
    var owner: nat

    function Value(): Mutex reads this {
      Mutex(locked, owner)
    }

    /** pthread_mutex_init. */
    constructor ()
      ensures Value() == FREE
    {
      locked, owner := 0, 0;
    }

    /** pthread_mutex_trylock, and each turn of the loop of pthread_mutex_lock. */
    method TryLock(self: Tid) returns (taken: bool)
      modifies this
      ensures (Value(), taken) == Attempt(old(Value()), self)
    {
      taken := false;
      if locked == 0 {
        locked := 1;
        owner := self;
        taken := true;
      }
    }

    method Unlock()
      modifies this
      ensures Value() == FREE
    {
      owner := 0;
      locked := 0;
    }
  }

  datatype Wakeup = StillWaiting | Signaled | TimedOut

  class CondObject {
    var waiting: int
    var signaled: int

    function Value(): Cond reads this {
      Cond(waiting, signaled)
    }

    /** pthread_cond_init. */
    constructor ()
      ensures Value() == QUIET
    {
      waiting, signaled := 0, 0;
    }

    /** The start of pthread_cond_wait and pthread_cond_timedwait. */
    method Begin(mutex: MutexObject)
      modifies this, mutex
      ensures Value() == Enter(old(Value())) && mutex.Value() == FREE
    {
      waiting := waiting + 1;
      mutex.Unlock();
    }

    /** One test of the wait loop and, if it ends, the bookkeeping behind it;
        expired says that this is a timed wait whose clock has run out. */
    method Poll(expired: bool) returns (r: Wakeup)
      modifies this
      ensures r == if old(signaled) != 0 then Signaled else if expired then TimedOut else StillWaiting
      ensures Value() == match r
                         case StillWaiting => old(Value())
                         case Signaled => Leave(old(Value()))
                         case TimedOut => Expire(old(Value()))
    {
      if signaled == 0 {
        if expired {
          waiting := waiting - 1;
          return TimedOut;
        }
        return StillWaiting;
      }
      waiting := waiting - 1;
      if waiting == 0 {
        signaled := 0;
      }
      r := Signaled;
    }

    method Signal()
      modifies this
      ensures Value() == SyncSpec.Signal(old(Value()))
    {
      if waiting > 0 {
        signaled := 1;
      }
    }

    method Broadcast()
      modifies this
      ensures Value() == SyncSpec.Broadcast(old(Value()))
    {
      if waiting > 0 {
        signaled := waiting;
      }
    }
  }
}
