/** The thread table as a value: what each call does to it. */
module ThreadTableSpec {
  import opened Powers
  import opened Wrappers

  const MAX_THREADS := 64
  const NO_THREAD_ID := 0

  datatype Entry = Entry(threadID: nat, inUse: bool, detached: bool, finished: bool, result: int, start: nat, arg: int)

  const EMPTY := Entry(NO_THREAD_ID, false, false, false, 0, 0, 0)

  type Table = s: seq<Entry> | |s| == MAX_THREADS witness seq(MAX_THREADS, i => EMPTY)

  /** The first free slot at or after i, or MAX_THREADS. */
  function FirstFree(t: Table, i: nat): (j: nat)
    requires i <= MAX_THREADS
    ensures i <= j <= MAX_THREADS && (j < MAX_THREADS ==> !t[j].inUse)
    ensures forall k | i <= k < j :: t[k].inUse
    decreases MAX_THREADS - i
  {
    if i == MAX_THREADS || !t[i].inUse then i else FirstFree(t, i + 1)
  }

  /** The slot that is in use under a Thread Manager id, or -1. */
  function IndexOf(t: Table, tid: nat, i: nat): (j: int)
    requires i <= MAX_THREADS
    ensures j == -1 || (i <= j < MAX_THREADS && t[j].inUse && t[j].threadID == tid)
    ensures j == -1 ==> forall k | i <= k < MAX_THREADS :: !(t[k].inUse && t[k].threadID == tid)
    decreases MAX_THREADS - i
  {
    if i == MAX_THREADS then -1
    else if t[i].inUse && t[i].threadID == tid then i
    else IndexOf(t, tid, i + 1)
  }

  /** int idx = thread - 1, with pthread_t unsigned and 32 bits wide. */
  function SlotNumber(thread: nat): int {
    var u := (thread - 1) % WORD;
    if u < WORD / 2 then u else u - WORD
  }

  /** get_thread: the slot of a pthread_t that is in use, or -1. */
  function GetThread(t: Table, thread: nat): (j: int)
    ensures j == -1 || (0 <= j < MAX_THREADS && t[j].inUse)
  {
    var i := SlotNumber(thread);
    if i < 0 || i >= MAX_THREADS || !t[i].inUse then -1 else i
  }

  /** Exactly the ids 1..64 of slots in use are accepted. */
  lemma GetThreadIsExact(t: Table, thread: nat)
    requires thread < WORD
    ensures GetThread(t, thread) == if 1 <= thread <= MAX_THREADS && t[thread - 1].inUse then thread - 1 else -1
  {
    if thread == 0 {
      assert (thread - 1) % WORD == WORD - 1;
    } else {
      assert (thread - 1) % WORD == thread - 1;
    }
  }

  /** pthread_create: the table and the new id, or 0 for EAGAIN.  os is what NewThread
      answers: an id, or nothing for an error. */
  function Create(t: Table, detached: bool, start: nat, arg: int, os: Option<nat>): (Table, nat) {
    var i := FirstFree(t, 1);
    if i == MAX_THREADS then (t, 0)
    else
      var entry := Entry(NO_THREAD_ID, true, detached, false, 0, start, arg);
      if os.None? then (t[i := entry.(inUse := false)], 0) else (t[i := entry.(threadID := os.value)], i + 1)
  }

  function Finish(t: Table, slot: nat, value: int): Table
    requires slot < MAX_THREADS
  {
    t[slot := t[slot].(result := value, finished := true)]
  }

  function Release(t: Table, slot: nat): Table
    requires slot < MAX_THREADS
  {
    t[slot := t[slot].(inUse := false)]
  }

  datatype Code = Ok | NoSuchThread | Invalid

  function Detach(t: Table, thread: nat): (Table, Code) {
    var i := GetThread(t, thread);
    if i == -1 then (t, NoSuchThread)
    else
      var d := t[i := t[i].(detached := true)];
      if t[i].finished then (Release(d, i), Ok) else (d, Ok)
  }
}

/** The table itself. */
module ThreadTableObject {
  import opened Powers
  import opened Wrappers
  import opened ThreadTableSpec

  class ThreadTable {
    const table: array<Entry>

    ghost predicate Valid() reads this {
      table.Length == MAX_THREADS
    }

    ghost function Value(): Table reads this, table requires Valid() {
      table[..]
    }

    /** init_thread_table: slot 0 belongs to the thread that calls first. */
    constructor (current: nat)
      ensures Valid() && fresh(table)
      ensures Value() == seq(MAX_THREADS, i => EMPTY)[0 := EMPTY.(inUse := true, threadID := current)]
    {
      table := new Entry[MAX_THREADS](_ => EMPTY);
      new;
      table[0] := table[0].(inUse := true);
      table[0] := table[0].(threadID := current);
    }

    /** The loop of alloc_thread. */
    method FindFree() returns (i: nat)
      requires Valid()
      ensures i == FirstFree(Value(), 1)
    {
      i := 1;
      while i < MAX_THREADS && table[i].inUse
        invariant 1 <= i <= MAX_THREADS && FirstFree(Value(), i) == FirstFree(Value(), 1)
      {
        i := i + 1;
      }
    }

    /** get_thread_index. */
    method GetIndex(tid: nat) returns (j: int)
      requires Valid()
      ensures j == IndexOf(Value(), tid, 0)
    {
      var i := 0;
      while i < MAX_THREADS
        invariant 0 <= i <= MAX_THREADS && IndexOf(Value(), tid, i) == IndexOf(Value(), tid, 0)
      {
        if table[i].inUse && table[i].threadID == tid {
          return i;
        }
        i := i + 1;
      }
      j := -1;
    }

    method GetThread(thread: nat) returns (j: int)
      requires Valid()
      ensures j == ThreadTableSpec.GetThread(Value(), thread)
    {
      var u := (thread - 1) % WORD;
      var idx := if u < WORD / 2 then u else u - WORD;
      if idx < 0 || idx >= MAX_THREADS {
        return -1;
      }
      if !table[idx].inUse {
        return -1;
      }
      j := idx;
    }

    method Create(detached: bool, start: nat, arg: int, os: Option<nat>) returns (id: nat)
      requires Valid()
      modifies table
      ensures (Value(), id) == ThreadTableSpec.Create(old(Value()), detached, start, arg, os)
    {
      var i := FindFree();
      if i == MAX_THREADS {
        return 0;
      }
      table[i] := EMPTY.(inUse := true);
      table[i] := table[i].(start := start, arg := arg, detached := detached);
      ghost var before := old(Value());
      if os.None? {
        table[i] := table[i].(inUse := false);
        assert table[..] == before[i := table[i]];
        return 0;
      }
      table[i] := table[i].(threadID := os.value);
      assert table[..] == before[i := table[i]];
      id := i + 1;
    }

    /** The end of thread_entry, and of pthread_exit with the slot it looked up. */
    method Finish(slot: nat, value: int)
      requires Valid() && slot < MAX_THREADS
      modifies table
      ensures Value() == ThreadTableSpec.Finish(old(Value()), slot, value)
    {
      table[slot] := table[slot].(result := value);
      table[slot] := table[slot].(finished := true);
    }

    /** The end of pthread_join. */
    method Collect(slot: nat) returns (value: int)
      requires Valid() && slot < MAX_THREADS
      modifies table
      ensures value == old(Value())[slot].result && Value() == Release(old(Value()), slot)
    {
      value := table[slot].result;
      table[slot] := table[slot].(inUse := false);
    }

    method Detach(thread: nat) returns (r: Code)
      requires Valid()
      modifies table
      ensures (Value(), r) == ThreadTableSpec.Detach(old(Value()), thread)
    {
      var i := GetThread(thread);
      if i == -1 {
        return NoSuchThread;
      }
      table[i] := table[i].(detached := true);
      if table[i].finished {
        table[i] := table[i].(inUse := false);
      }
      r := Ok;
    }
  }
}
