/** Threads creating, finishing, joining and detaching one another, in any order the
    scheduler picks.  What pthread_cancel would do is not part of this. */
module ThreadRuns {
  import opened Counting
  import opened Powers
  import opened Wrappers
  import opened ThreadTableSpec

  /** A thread's number in order of creation; the main thread is number 0.  Unlike the
      pthread_t it is never used twice. */
  type Number = nat

  datatype Result =
    | Nothing
    | Failed
    | Created(id: nat)
    | Joined(value: int, target: Number)
    | Status(code: Code)
    | Self(id: nat)

  datatype Phase = Running(last: Result) | Joining(slot: nat, target: Number) | Exited(value: int)

  /** mac is the thread's Thread Manager id. */
  datatype Info = Info(mac: nat, slot: nat, start: nat, arg: int, phase: Phase)

  /** occupant, joined and reaped are history: whose slot it is, and how often a slot
      was given back by a join and by a detach. */
  datatype World = World(table: Table, info: map<Number, Info>, next: nat,
                         occupant: map<nat, Number>, joined: nat, reaped: nat)

  datatype Action =
    | Create(k: Number, detached: bool, start: nat, arg: int, os: Option<nat>)
    | Exit(k: Number, value: int, returned: bool)  // by returning, or by pthread_exit
    | Join(k: Number, id: nat)
    | Detach(k: Number, id: nat)
    | GetSelf(k: Number)
    | Resume(k: Number)

  predicate NoJoiner(w: World, slot: int) {
    forall j | j in w.info :: !(w.info[j].phase.Joining? && w.info[j].phase.slot == slot)
  }

  /** NewThread hands out ids that no slot in use has; a thread has one joiner, and a
      thread being joined is not detached.  The main thread has no thread_entry to
      return to. */
  predicate Enabled(w: World, a: Action) {
    a.k in w.info &&
    var phase := w.info[a.k].phase;
    match a
    case Create(_, _, _, _, os) =>
      phase.Running? && (os.Some? ==> os.value != NO_THREAD_ID && IndexOf(w.table, os.value, 0) == -1)
    case Exit(k, _, returned) => phase.Running? && (returned ==> k != 0)
    case Join(_, id) => phase.Running? && NoJoiner(w, GetThread(w.table, id))
    case Detach(_, id) => phase.Running? && NoJoiner(w, GetThread(w.table, id))
    case GetSelf(_) => phase.Running?
    case Resume(_) => phase.Joining? && phase.slot < MAX_THREADS
  }

  function SetPhase(w: World, k: Number, p: Phase): World
    requires k in w.info
  {
    w.(info := w.info[k := w.info[k].(phase := p)])
  }

  function OccupantOf(w: World, slot: nat): Number {
    if slot in w.occupant then w.occupant[slot] else 0
  }

  /** The join loop, up to its end or the next yield. */
  function JoinLoop(w: World, k: Number, slot: nat, target: Number): World
    requires k in w.info && slot < MAX_THREADS
  {
    if w.table[slot].finished then
      SetPhase(w, k, Running(Joined(w.table[slot].result, target)))
      .(table := Release(w.table, slot), occupant := w.occupant - {slot}, joined := w.joined + 1)
    else SetPhase(w, k, Joining(slot, target))
  }

  function StepCreate(w: World, a: Action): World
    requires a.Create? && Enabled(w, a)
  {
    var (t, id) := ThreadTableSpec.Create(w.table, a.detached, a.start, a.arg, a.os);
    if id == 0 then SetPhase(w, a.k, Running(Failed)).(table := t)
    else
      var v := SetPhase(w, a.k, Running(Created(id)));
      World(t, v.info[w.next := Info(if a.os.Some? then a.os.value else 0, id - 1, a.start, a.arg, Running(Nothing))],
            w.next + 1, w.occupant[id - 1 := w.next], w.joined, w.reaped)
  }

  function StepExit(w: World, a: Action): World
    requires a.Exit? && Enabled(w, a)
  {
    var slot := if a.returned then w.info[a.k].slot else IndexOf(w.table, w.info[a.k].mac, 0);
    SetPhase(w, a.k, Exited(a.value))
    .(table := if 0 <= slot < MAX_THREADS then Finish(w.table, slot, a.value) else w.table)
  }

  function StepJoin(w: World, a: Action): World
    requires a.Join? && Enabled(w, a)
  {
    var slot := GetThread(w.table, a.id);
    if slot == -1 then SetPhase(w, a.k, Running(Status(NoSuchThread)))
    else if w.table[slot].detached then SetPhase(w, a.k, Running(Status(Invalid)))
    else JoinLoop(w, a.k, slot, OccupantOf(w, slot))
  }

  function StepDetach(w: World, a: Action): World
    requires a.Detach? && Enabled(w, a)
  {
    var slot := GetThread(w.table, a.id);
    var (t, code) := ThreadTableSpec.Detach(w.table, a.id);
    var v := SetPhase(w, a.k, Running(Status(code))).(table := t);
    if slot != -1 && w.table[slot].finished then v.(occupant := w.occupant - {slot}, reaped := w.reaped + 1) else v
  }

  function Step(w: World, a: Action): World
    requires Enabled(w, a)
  {
    match a
    case Create(_, _, _, _, _) => StepCreate(w, a)
    case Exit(_, _, _) => StepExit(w, a)
    case Join(_, _) => StepJoin(w, a)
    case Detach(_, _) => StepDetach(w, a)
    case GetSelf(k) => SetPhase(w, k, Running(Self(IndexOf(w.table, w.info[k].mac, 0) + 1)))
    case Resume(k) => JoinLoop(w, k, w.info[k].phase.slot, w.info[k].phase.target)
  }

  predicate Runnable(w: World, run: seq<Action>)
    decreases run
  {
    run == [] || (Enabled(w, run[0]) && Runnable(Step(w, run[0]), run[1..]))
  }

  function Run(w: World, run: seq<Action>): World
    requires Runnable(w, run)
    decreases run
  {
    if run == [] then w else Run(Step(w, run[0]), run[1..])
  }

  /** After init_thread_table, called by the thread with Thread Manager id mac. */
  function Start(mac: nat): World {
    World(seq(MAX_THREADS, i => EMPTY)[0 := EMPTY.(inUse := true, threadID := mac)],
          map[0 := Info(mac, 0, 0, 0, Running(Nothing))], 1, map[0 := 0], 0, 0)
  }

  // ---------- the invariant ----------

  /** Slots in use are exactly the occupied ones. */
  ghost predicate SlotsMatch(w: World) {
    && (forall s | s in w.occupant :: s < MAX_THREADS)
    && (forall s | 0 <= s < MAX_THREADS :: w.table[s].inUse <==> s in w.occupant)
  }

  /** What the entry of an occupied slot says about its occupant. */
  ghost predicate EntrySound(w: World, s: nat)
    requires s in w.occupant && s < MAX_THREADS
  {
    w.occupant[s] in w.info &&
    var e, i := w.table[s], w.info[w.occupant[s]];
    && i.slot == s && e.threadID == i.mac && e.start == i.start && e.arg == i.arg
    && (e.finished <==> i.phase.Exited?)
    && (i.phase.Exited? ==> e.result == i.phase.value)
  }

  ghost predicate EntriesSound(w: World) {
    forall s | s in w.occupant && s < MAX_THREADS :: EntrySound(w, s)
  }

  /** A thread that has not finished still has its slot. */
  ghost predicate LiveHaveSlots(w: World) {
    forall k | k in w.info && !w.info[k].phase.Exited? ::
      w.info[k].slot in w.occupant && w.occupant[w.info[k].slot] == k
  }

  predicate IdsDiffer(t: Table, s: nat, r: nat) {
    s < MAX_THREADS && r < MAX_THREADS && t[s].inUse && t[r].inUse ==> t[s].threadID != t[r].threadID
  }

  ghost predicate IdsDistinct(t: Table) {
    forall s: nat, r: nat | s < r < MAX_THREADS :: IdsDiffer(t, s, r)
  }

  /** Slots may be freed and marked, but none taken and no id changed. */
  lemma IdsStay(t: Table, u: Table)
    requires IdsDistinct(t)
    requires forall s | 0 <= s < MAX_THREADS && u[s].inUse :: t[s].inUse && t[s].threadID == u[s].threadID
    ensures IdsDistinct(u)
  {
    forall s: nat, r: nat | s < r < MAX_THREADS ensures IdsDiffer(u, s, r) {
      assert IdsDiffer(t, s, r);
    }
  }

  ghost predicate JoinSound(w: World, k: Number)
    requires k in w.info
  {
    var p := w.info[k].phase;
    p.Joining? ==>
      p.slot < MAX_THREADS && p.slot in w.occupant && w.occupant[p.slot] == p.target && !w.table[p.slot].detached
  }

  ghost predicate JoinersSound(w: World) {
    && (forall k | k in w.info :: JoinSound(w, k))
    && (forall k, j :: JoinersDiffer(w, k, j))
  }

  predicate JoinersDiffer(w: World, k: Number, j: Number) {
    k in w.info && j in w.info && k != j && w.info[k].phase.Joining? && w.info[j].phase.Joining? ==>
      w.info[k].phase.slot != w.info[j].phase.slot
  }

  /** Joiners go on waiting for what they waited for, and only one may have begun, for a
      slot nobody else waits for. */
  lemma JoinersStayDifferent(w: World, v: World, b: Number)
    requires (forall k, j :: JoinersDiffer(w, k, j))
    requires forall k | k in v.info && k != b && v.info[k].phase.Joining? :: k in w.info && w.info[k].phase == v.info[k].phase
    requires b in v.info && v.info[b].phase.Joining? ==>
               (forall k | k in v.info && k != b && v.info[k].phase.Joining? :: v.info[k].phase.slot != v.info[b].phase.slot)
    ensures forall k, j :: JoinersDiffer(v, k, j)
  {
    forall k, j ensures JoinersDiffer(v, k, j) {
      assert JoinersDiffer(w, k, j);
    }
  }

  /** Conservation of slots. */
  ghost predicate CountsSound(w: World) {
    && |w.info| == w.next && (forall k | k in w.info :: k < w.next)
    && |w.occupant| + w.joined + w.reaped == w.next
  }

  ghost predicate Inv(w: World) {
    SlotsMatch(w) && EntriesSound(w) && LiveHaveSlots(w) && IdsDistinct(w.table) && JoinersSound(w) && CountsSound(w)
  }

  lemma StartInv(mac: nat)
    ensures Inv(Start(mac))
  {
  }

  lemma LookupFindsSlot(w: World, s: nat)
    requires Inv(w) && s < MAX_THREADS && s in w.occupant
    ensures IndexOf(w.table, w.table[s].threadID, 0) == s
  {
    var i := IndexOf(w.table, w.table[s].threadID, 0);
    assert w.table[s].inUse;
    FirstWithId(w.table, s, i);
  }

  lemma FirstWithId(t: Table, s: nat, i: int)
    requires IdsDistinct(t) && s < MAX_THREADS && t[s].inUse && i == IndexOf(t, t[s].threadID, 0)
    ensures i == s
  {
    assert i >= 0;
    var j: nat := i;
    assert IdsDiffer(t, j, s) || j >= s;
    assert IdsDiffer(t, s, j) || s >= j;
  }

  /** pthread_self() of a thread that has not finished is its own id, and no other
      unfinished thread's. */
  lemma SelfIsUnique(w: World, k: Number, j: Number)
    requires Inv(w) && k in w.info && j in w.info
    requires !w.info[k].phase.Exited? && !w.info[j].phase.Exited?
    ensures IndexOf(w.table, w.info[k].mac, 0) == w.info[k].slot
    ensures k != j ==> w.info[k].slot != w.info[j].slot && w.info[k].mac != w.info[j].mac
  {
    var s, r := w.info[k].slot, w.info[j].slot;
    assert EntrySound(w, s) && EntrySound(w, r);
    LookupFindsSlot(w, s);
    LookupFindsSlot(w, r);
  }

  // ---------- every action keeps it ----------

  /** A thread that goes on running changes nothing but its own phase. */
  lemma PhaseKeepsInv(w: World, k: Number, p: Phase)
    requires Inv(w) && k in w.info && !w.info[k].phase.Exited? && p.Running?
    ensures Inv(SetPhase(w, k, p))
  {
    var v := SetPhase(w, k, p);
    JoinersStayDifferent(w, v, k);
    assert v.info.Keys == w.info.Keys;
    forall s | s in v.occupant && s < MAX_THREADS ensures EntrySound(v, s) {
      assert EntrySound(w, s);
    }
    forall j | j in v.info ensures JoinSound(v, j) {
      assert JoinSound(w, j);
    }
  }

  /** A finished thread's slot is given back. */
  ghost predicate Releases(w: World, slot: nat, v: World) {
    && slot < MAX_THREADS && slot in w.occupant && w.table[slot].finished && NoJoiner(w, slot)
    && v.info == w.info && v.next == w.next && v.occupant == w.occupant - {slot}
    && !v.table[slot].inUse && (forall s | 0 <= s < MAX_THREADS && s != slot :: v.table[s] == w.table[s])
    && v.joined + v.reaped == w.joined + w.reaped + 1
  }

  lemma ReleaseEntries(w: World, slot: nat, v: World)
    requires SlotsMatch(w) && EntriesSound(w) && LiveHaveSlots(w) && Releases(w, slot, v)
    ensures SlotsMatch(v) && EntriesSound(v) && LiveHaveSlots(v)
  {
    assert EntrySound(w, slot);
    forall s | s in v.occupant && s < MAX_THREADS ensures EntrySound(v, s) {
      assert EntrySound(w, s);
    }
  }

  lemma ReleaseJoiners(w: World, slot: nat, v: World)
    requires JoinersSound(w) && Releases(w, slot, v)
    ensures JoinersSound(v)
  {
    forall k, j ensures JoinersDiffer(v, k, j) { assert JoinersDiffer(w, k, j); }
    forall j | j in v.info ensures JoinSound(v, j) {
      assert JoinSound(w, j);
    }
  }

  lemma ReleaseCounts(w: World, slot: nat, v: World)
    requires CountsSound(w) && Releases(w, slot, v)
    ensures CountsSound(v)
  {
    assert w.occupant.Keys == v.occupant.Keys + {slot};
    assert |w.occupant.Keys| == |v.occupant.Keys| + 1;
  }

  lemma ReleaseKeepsInv(w: World, slot: nat, v: World)
    requires Inv(w) && Releases(w, slot, v)
    ensures Inv(v)
  {
    ReleaseEntries(w, slot, v);
    ReleaseJoiners(w, slot, v);
    ReleaseCounts(w, slot, v);
    IdsStay(w.table, v.table);
  }

  lemma WaitKeepsInv(w: World, k: Number, slot: nat, target: Number)
    requires Inv(w) && k in w.info && !w.info[k].phase.Exited?
    requires slot < MAX_THREADS && slot in w.occupant && w.occupant[slot] == target && !w.table[slot].detached
    requires forall j | j in w.info && j != k :: !(w.info[j].phase.Joining? && w.info[j].phase.slot == slot)
    ensures Inv(SetPhase(w, k, Joining(slot, target)))
  {
    var v := SetPhase(w, k, Joining(slot, target));
    JoinersStayDifferent(w, v, k);
    assert v.info.Keys == w.info.Keys;
    forall s | s in v.occupant && s < MAX_THREADS ensures EntrySound(v, s) {
      assert EntrySound(w, s);
    }
    forall j | j in v.info ensures JoinSound(v, j) {
      assert JoinSound(w, j);
    }
  }

  lemma JoinLoopKeepsInv(w: World, k: Number, slot: nat, target: Number)
    requires Inv(w) && k in w.info && !w.info[k].phase.Exited?
    requires slot < MAX_THREADS && slot in w.occupant && w.occupant[slot] == target && !w.table[slot].detached
    requires forall j | j in w.info && j != k :: !(w.info[j].phase.Joining? && w.info[j].phase.slot == slot)
    ensures Inv(JoinLoop(w, k, slot, target))
  {
    if w.table[slot].finished {
      var v := SetPhase(w, k, Running(Joined(w.table[slot].result, target)));
      PhaseKeepsInv(w, k, Running(Joined(w.table[slot].result, target)));
      ReleaseKeepsInv(v, slot, JoinLoop(w, k, slot, target));
    } else {
      WaitKeepsInv(w, k, slot, target);
    }
  }

  lemma JoinKeepsInv(w: World, a: Action)
    requires Inv(w) && a.Join? && Enabled(w, a)
    ensures Inv(StepJoin(w, a))
  {
    var slot := GetThread(w.table, a.id);
    if slot == -1 {
      PhaseKeepsInv(w, a.k, Running(Status(NoSuchThread)));
    } else if w.table[slot].detached {
      PhaseKeepsInv(w, a.k, Running(Status(Invalid)));
    } else {
      JoinLoopKeepsInv(w, a.k, slot, OccupantOf(w, slot));
    }
  }

  lemma ResumeKeepsInv(w: World, a: Action)
    requires Inv(w) && a.Resume? && Enabled(w, a)
    ensures Inv(Step(w, a))
  {
    var p := w.info[a.k].phase;
    assert JoinSound(w, a.k);
    forall j | j in w.info && j != a.k ensures !(w.info[j].phase.Joining? && w.info[j].phase.slot == p.slot) {
      assert JoinersDiffer(w, j, a.k);
    }
    JoinLoopKeepsInv(w, a.k, p.slot, p.target);
  }

  /** Setting the detached flag of a slot nobody joins. */
  lemma MarkKeepsInv(w: World, slot: nat)
    requires Inv(w) && slot < MAX_THREADS && slot in w.occupant && NoJoiner(w, slot)
    ensures Inv(w.(table := w.table[slot := w.table[slot].(detached := true)]))
  {
    var v := w.(table := w.table[slot := w.table[slot].(detached := true)]);
    IdsStay(w.table, v.table);
    forall k, j ensures JoinersDiffer(v, k, j) { assert JoinersDiffer(w, k, j); }
    forall s | s in v.occupant && s < MAX_THREADS ensures EntrySound(v, s) {
      assert EntrySound(w, s);
    }
    forall j | j in v.info ensures JoinSound(v, j) {
      assert JoinSound(w, j);
    }
  }

  lemma DetachKeepsInv(w: World, a: Action)
    requires Inv(w) && a.Detach? && Enabled(w, a)
    ensures Inv(StepDetach(w, a))
  {
    var slot := GetThread(w.table, a.id);
    if slot == -1 {
      PhaseKeepsInv(w, a.k, Running(Status(NoSuchThread)));
    } else {
      MarkKeepsInv(w, slot);
      var v := w.(table := w.table[slot := w.table[slot].(detached := true)]);
      PhaseKeepsInv(v, a.k, Running(Status(Code.Ok)));
      if w.table[slot].finished {
        ReleaseKeepsInv(SetPhase(v, a.k, Running(Status(Code.Ok))), slot, StepDetach(w, a));
      }
    }
  }

  /** pthread_exit finds by its Thread Manager id the slot thread_entry was given. */
  lemma ExitFindsOwnSlot(w: World, k: Number, value: int)
    requires Inv(w) && k in w.info && w.info[k].phase.Running? && k != 0
    ensures StepExit(w, Exit(k, value, true)) == StepExit(w, Exit(k, value, false))
  {
    SelfIsUnique(w, k, k);
  }

  lemma ExitEntries(w: World, k: Number, slot: nat, value: int, v: World)
    requires SlotsMatch(w) && EntriesSound(w) && LiveHaveSlots(w)
    requires k in w.info && w.info[k].phase.Running? && slot == w.info[k].slot && slot < MAX_THREADS
    requires v == SetPhase(w, k, Exited(value)).(table := Finish(w.table, slot, value))
    ensures SlotsMatch(v) && EntriesSound(v) && LiveHaveSlots(v)
  {
    forall s | s in v.occupant && s < MAX_THREADS ensures EntrySound(v, s) {
      assert EntrySound(w, s);
    }
  }

  lemma ExitKeepsInv(w: World, a: Action)
    requires Inv(w) && a.Exit? && Enabled(w, a)
    ensures Inv(StepExit(w, a))
  {
    SelfIsUnique(w, a.k, a.k);
    var v := StepExit(w, a);
    ExitEntries(w, a.k, w.info[a.k].slot, a.value, v);
    ExitJoiners(w, a.k, w.info[a.k].slot, a.value, v);
    IdsStay(w.table, v.table);
    assert v.info.Keys == w.info.Keys;
  }

  lemma ExitJoiners(w: World, k: Number, slot: nat, value: int, v: World)
    requires JoinersSound(w) && k in w.info && slot < MAX_THREADS
    requires v == SetPhase(w, k, Exited(value)).(table := Finish(w.table, slot, value))
    ensures JoinersSound(v)
  {
    JoinersStayDifferent(w, v, k);
    forall j | j in v.info ensures JoinSound(v, j) {
      assert JoinSound(w, j);
    }
  }

  /** A new thread takes a free slot. */
  ghost predicate Arrives(w: World, slot: nat, e: Entry, v: World) {
    && slot < MAX_THREADS && slot !in w.occupant
    && e.inUse && !e.finished && IndexOf(w.table, e.threadID, 0) == -1
    && v.table == w.table[slot := e]
    && v.info == w.info[w.next := Info(e.threadID, slot, e.start, e.arg, Running(Nothing))]
    && v.occupant == w.occupant[slot := w.next]
    && v.next == w.next + 1 && v.joined == w.joined && v.reaped == w.reaped
  }

  lemma ArriveEntries(w: World, slot: nat, e: Entry, v: World)
    requires SlotsMatch(w) && EntriesSound(w) && w.next !in w.info && Arrives(w, slot, e, v)
    ensures SlotsMatch(v) && EntriesSound(v)
  {
    forall s | s in v.occupant && s < MAX_THREADS ensures EntrySound(v, s) {
      if s != slot { assert EntrySound(w, s); }
    }
  }

  lemma ArriveIds(t: Table, slot: nat, e: Entry)
    requires IdsDistinct(t) && slot < MAX_THREADS && IndexOf(t, e.threadID, 0) == -1
    ensures IdsDistinct(t[slot := e])
  {
    var u := t[slot := e];
    forall s: nat, r: nat | s < r < MAX_THREADS ensures IdsDiffer(u, s, r) {
      assert IdsDiffer(t, s, r);
    }
  }

  lemma ArriveJoiners(w: World, slot: nat, e: Entry, v: World)
    requires JoinersSound(w) && w.next !in w.info && Arrives(w, slot, e, v)
    ensures JoinersSound(v)
  {
    JoinersStayDifferent(w, v, w.next);
    forall j | j in v.info ensures JoinSound(v, j) {
      if j != w.next { assert JoinSound(w, j); }
    }
  }

  lemma ArriveLive(w: World, slot: nat, e: Entry, v: World)
    requires LiveHaveSlots(w) && Arrives(w, slot, e, v)
    ensures LiveHaveSlots(v)
  {
    forall k | k in v.info && !v.info[k].phase.Exited?
      ensures v.info[k].slot in v.occupant && v.occupant[v.info[k].slot] == k
    {
      if k != w.next { assert k in w.info && w.occupant[w.info[k].slot] == k; }
    }
  }

  lemma KeysGrow<V>(m: map<nat, V>, k: nat, x: V)
    requires k !in m
    ensures |m[k := x]| == |m| + 1
  {
    assert m[k := x].Keys == m.Keys + {k};
    assert |m[k := x]| == |m[k := x].Keys| && |m| == |m.Keys|;
  }

  lemma ArriveCounts(w: World, slot: nat, e: Entry, v: World)
    requires CountsSound(w) && Arrives(w, slot, e, v)
    ensures CountsSound(v)
  {
    KeysGrow(w.info, w.next, Info(e.threadID, slot, e.start, e.arg, Running(Nothing)));
    KeysGrow(w.occupant, slot, w.next);
  }

  lemma ArriveKeepsInv(w: World, slot: nat, e: Entry, v: World)
    requires Inv(w) && Arrives(w, slot, e, v)
    ensures Inv(v)
  {
    assert w.next !in w.info;
    ArriveEntries(w, slot, e, v);
    ArriveIds(w.table, slot, e);
    ArriveJoiners(w, slot, e, v);
    ArriveLive(w, slot, e, v);
    ArriveCounts(w, slot, e, v);
  }

  lemma CreateKeepsInv(w: World, a: Action)
    requires Inv(w) && a.Create? && Enabled(w, a)
    ensures Inv(StepCreate(w, a))
  {
    var slot := FirstFree(w.table, 1);
    if slot == MAX_THREADS {
      PhaseKeepsInv(w, a.k, Running(Failed));
    } else if a.os.None? {
      var v := SetPhase(w, a.k, Running(Failed));
      PhaseKeepsInv(w, a.k, Running(Failed));
      ScratchKeepsInv(v, slot, StepCreate(w, a));
    } else {
      var v := SetPhase(w, a.k, Running(Created(slot + 1)));
      PhaseKeepsInv(w, a.k, Running(Created(slot + 1)));
      CreateArrives(w, a, slot, v);
      ArriveKeepsInv(v, slot, Entry(a.os.value, true, a.detached, false, 0, a.start, a.arg), StepCreate(w, a));
    }
  }

  lemma CreateArrives(w: World, a: Action, slot: nat, v: World)
    requires SlotsMatch(w) && a.Create? && Enabled(w, a) && a.os.Some?
    requires slot == FirstFree(w.table, 1) && slot < MAX_THREADS
    requires v == SetPhase(w, a.k, Running(Created(slot + 1)))
    ensures Arrives(v, slot, Entry(a.os.value, true, a.detached, false, 0, a.start, a.arg), StepCreate(w, a))
  {
  }

  /** Writing over a free slot and leaving it free. */
  lemma ScratchKeepsInv(w: World, slot: nat, v: World)
    requires Inv(w) && slot < MAX_THREADS && slot !in w.occupant
    requires v == w.(table := v.table) && !v.table[slot].inUse
    requires forall s | 0 <= s < MAX_THREADS && s != slot :: v.table[s] == w.table[s]
    ensures Inv(v)
  {
    IdsStay(w.table, v.table);
    forall k, j ensures JoinersDiffer(v, k, j) { assert JoinersDiffer(w, k, j); }
    forall s | s in v.occupant && s < MAX_THREADS ensures EntrySound(v, s) {
      assert EntrySound(w, s);
    }
    forall j | j in v.info ensures JoinSound(v, j) {
      assert JoinSound(w, j);
    }
  }

  lemma StepKeepsInv(w: World, a: Action)
    requires Inv(w) && Enabled(w, a)
    ensures Inv(Step(w, a))
  {
    match a
    case Create(_, _, _, _, _) => CreateKeepsInv(w, a);
    case Exit(_, _, _) => ExitKeepsInv(w, a);
    case Join(_, _) => JoinKeepsInv(w, a);
    case Detach(_, _) => DetachKeepsInv(w, a);
    case GetSelf(k) => PhaseKeepsInv(w, k, Running(Self(IndexOf(w.table, w.info[k].mac, 0) + 1)));
    case Resume(_) => ResumeKeepsInv(w, a);
  }

  // ---------- what follows ----------

  /** Every value a join has delivered is what its target returned or passed to
      pthread_exit. */
  ghost predicate ResultsSound(w: World) {
    forall k | k in w.info && w.info[k].phase.Running? && w.info[k].phase.last.Joined? ::
      var r := w.info[k].phase.last;
      r.target in w.info && w.info[r.target].phase == Exited(r.value)
  }

  /** Only the acting thread changes its phase, only the creator adds a thread, and who
      has exited stays exited with the same value. */
  lemma OthersKeepPhase(w: World, a: Action, j: Number)
    requires Enabled(w, a) && w.next !in w.info && j in w.info
    ensures j in Step(w, a).info
    ensures j != a.k || w.info[j].phase.Exited? ==> Step(w, a).info[j] == w.info[j]
  {
  }

  /** A join ends exactly when its target has exited; it then has the target's value
      and the slot is free.  Until then the joiner waits on that slot. */
  lemma JoinIsExact(w: World, k: Number, slot: nat, target: Number)
    requires Inv(w) && k in w.info && slot < MAX_THREADS && slot in w.occupant && w.occupant[slot] == target
    ensures target in w.info
    ensures w.info[target].phase.Exited? ==>
      && JoinLoop(w, k, slot, target).info[k].phase == Running(Joined(w.info[target].phase.value, target))
      && slot !in JoinLoop(w, k, slot, target).occupant
    ensures !w.info[target].phase.Exited? ==> JoinLoop(w, k, slot, target).info[k].phase == Joining(slot, target)
  {
    assert EntrySound(w, slot);
  }

  lemma StepKeepsResults(w: World, a: Action)
    requires Inv(w) && ResultsSound(w) && Enabled(w, a)
    ensures ResultsSound(Step(w, a))
  {
    var v := Step(w, a);
    forall k | k in v.info && v.info[k].phase.Running? && v.info[k].phase.last.Joined?
      ensures v.info[k].phase.last.target in v.info
      ensures v.info[v.info[k].phase.last.target].phase == Exited(v.info[k].phase.last.value)
    {
      StepResult(w, a, k);
    }
  }

  lemma StepResult(w: World, a: Action, k: Number)
    requires Inv(w) && ResultsSound(w) && Enabled(w, a)
    requires k in Step(w, a).info && Step(w, a).info[k].phase.Running? && Step(w, a).info[k].phase.last.Joined?
    ensures var v := Step(w, a);
      v.info[k].phase.last.target in v.info && v.info[v.info[k].phase.last.target].phase == Exited(v.info[k].phase.last.value)
  {
    assert w.next !in w.info;
    if k in w.info && k != a.k {
      OthersKeepPhase(w, a, k);
      OthersKeepPhase(w, a, w.info[k].phase.last.target);
    } else {
      OwnResult(w, a);
    }
  }

  lemma OwnResult(w: World, a: Action)
    requires Inv(w) && Enabled(w, a)
    requires a.k in Step(w, a).info && Step(w, a).info[a.k].phase.Running? && Step(w, a).info[a.k].phase.last.Joined?
    ensures var v := Step(w, a);
      v.info[a.k].phase.last.target in v.info && v.info[v.info[a.k].phase.last.target].phase == Exited(v.info[a.k].phase.last.value)
  {
    if a.Join? {
      var slot := GetThread(w.table, a.id);
      JoinIsExact(w, a.k, slot, OccupantOf(w, slot));
      OthersKeepPhase(w, a, OccupantOf(w, slot));
    } else if a.Resume? {
      var p := w.info[a.k].phase;
      assert JoinSound(w, a.k);
      JoinIsExact(w, a.k, p.slot, p.target);
      OthersKeepPhase(w, a, p.target);
    }
  }

  /** Over every run: the invariant, and every join's value. */
  lemma {:induction false} RunKeepsInv(w: World, run: seq<Action>)
    requires Inv(w) && ResultsSound(w) && Runnable(w, run)
    ensures Inv(Run(w, run)) && ResultsSound(Run(w, run))
    decreases run
  {
    if run != [] {
      StepKeepsInv(w, run[0]);
      StepKeepsResults(w, run[0]);
      RunKeepsInv(Step(w, run[0]), run[1..]);
    }
  }

  /** Slots in use after any run: the main thread's and one for every thread created,
      less the joins and less the detaches of finished threads; and each is some
      thread's.  A thread that has not exited is among them. */
  lemma SlotsAreConserved(mac: nat, run: seq<Action>)
    requires Runnable(Start(mac), run)
    ensures var w := Run(Start(mac), run);
      && |set s | 0 <= s < MAX_THREADS && w.table[s].inUse| == w.next - w.joined - w.reaped
      && |w.info| == w.next <= MAX_THREADS + w.joined + w.reaped
  {
    StartInv(mac);
    RunKeepsInv(Start(mac), run);
    var w := Run(Start(mac), run);
    assert (set s | 0 <= s < MAX_THREADS && w.table[s].inUse) == w.occupant.Keys;
    CountBelow(w.occupant.Keys, MAX_THREADS);
  }

  /** What pthread_self answers thread k. */
  function SelfAnswer(w: World, k: Number): Result
    requires Enabled(w, GetSelf(k))
  {
    Step(w, GetSelf(k)).info[k].phase.last
  }

  /** pthread_self answers the id under which the thread's own slot is found, and changes
      nothing else. */
  lemma SelfIsOwnId(w: World, k: Number)
    requires Inv(w) && Enabled(w, GetSelf(k))
    ensures var s := w.info[k].slot;
      && SelfAnswer(w, k) == Self(s + 1) && 1 <= s + 1 <= 64
      && GetThread(w.table, s + 1) == s && s in w.occupant && w.occupant[s] == k
    ensures var v := Step(w, GetSelf(k));
      v.table == w.table && v.occupant == w.occupant && v.info == w.info[k := v.info[k]]
  {
    SelfIsUnique(w, k, k);
    GetThreadIsExact(w.table, w.info[k].slot + 1);
  }

  /** Two threads that have not finished get different answers. */
  lemma SelvesDiffer(w: World, k: Number, j: Number)
    requires Inv(w) && Enabled(w, GetSelf(k)) && Enabled(w, GetSelf(j)) && k != j
    ensures SelfAnswer(w, k) != SelfAnswer(w, j)
  {
    SelfIsUnique(w, k, j);
    SelfIsOwnId(w, k);
    SelfIsOwnId(w, j);
  }

  lemma StepKeepsSlot(w: World, a: Action, k: Number)
    requires Enabled(w, a) && w.next !in w.info && k in w.info
    ensures k in Step(w, a).info && Step(w, a).info[k].slot == w.info[k].slot
  {
  }

  lemma {:induction false} RunKeepsSlot(w: World, run: seq<Action>, k: Number)
    requires Inv(w) && ResultsSound(w) && Runnable(w, run) && k in w.info
    ensures k in Run(w, run).info && Run(w, run).info[k].slot == w.info[k].slot
    decreases run
  {
    if run != [] {
      assert w.next !in w.info;
      StepKeepsSlot(w, run[0], k);
      StepKeepsInv(w, run[0]);
      StepKeepsResults(w, run[0]);
      RunKeepsSlot(Step(w, run[0]), run[1..], k);
    }
  }

  /** Over every run: a thread that pthread_create has answered with id gets that id from
      pthread_self, and the main thread gets 1. */
  lemma SelfIsCreatedId(w: World, a: Action, run: seq<Action>)
    requires Inv(w) && ResultsSound(w) && a.Create? && Enabled(w, a) && Step(w, a).info[a.k].phase != Running(Failed)
    requires Runnable(Step(w, a), run) && Enabled(Run(Step(w, a), run), GetSelf(w.next))
    ensures Step(w, a).info[a.k].phase == Running(Created(SelfAnswer(Run(Step(w, a), run), w.next).id))
  {
    var v := Step(w, a);
    CreateIsFresh(w, a);
    CreatedSlot(w, a);
    StepKeepsInv(w, a);
    StepKeepsResults(w, a);
    RunKeepsInv(v, run);
    RunKeepsSlot(v, run, w.next);
    SelfIsOwnId(Run(v, run), w.next);
  }

  lemma CreatedSlot(w: World, a: Action)
    requires Inv(w) && a.Create? && Enabled(w, a) && Step(w, a).info[a.k].phase != Running(Failed)
    ensures var v := Step(w, a);
      w.next in v.info && v.info[a.k].phase == Running(Created(v.info[w.next].slot + 1))
  {
    assert w.next !in w.info;
    CreateOutcome(w, a);
  }

  lemma MainIsOne(mac: nat, run: seq<Action>)
    requires Runnable(Start(mac), run) && Enabled(Run(Start(mac), run), GetSelf(0))
    ensures SelfAnswer(Run(Start(mac), run), 0) == Self(1)
  {
    StartInv(mac);
    RunKeepsInv(Start(mac), run);
    RunKeepsSlot(Start(mac), run, 0);
    SelfIsOwnId(Run(Start(mac), run), 0);
  }

  lemma CreateOutcome(w: World, a: Action)
    requires a.Create? && Enabled(w, a) && w.next !in w.info
    ensures var slot, v := FirstFree(w.table, 1), StepCreate(w, a);
      if a.os.None? || slot == MAX_THREADS then
        v.info[a.k].phase == Running(Failed) && v.occupant == w.occupant && v.info.Keys == w.info.Keys
      else
        v.info[a.k].phase == Running(Created(slot + 1)) && v.occupant == w.occupant[slot := w.next]
  {
    assert w.info[a.k := w.info[a.k].(phase := Running(Failed))].Keys == w.info.Keys;
  }

  lemma FreeSlots(w: World)
    requires SlotsMatch(w)
    ensures FirstFree(w.table, 1) == MAX_THREADS <==> forall s | 1 <= s < MAX_THREADS :: s in w.occupant
    ensures FirstFree(w.table, 1) !in w.occupant
  {
    var slot := FirstFree(w.table, 1);
    if slot == MAX_THREADS {
      assert forall s | 1 <= s < MAX_THREADS :: w.table[s].inUse;
    }
  }

  /** pthread_create fails exactly when NewThread does or slots 1 to 63 are all taken, and
      then every slot has the occupant it had. */
  lemma CreateFails(w: World, a: Action)
    requires Inv(w) && a.Create? && Enabled(w, a)
    ensures Step(w, a).info[a.k].phase == Running(Failed)
      <==> a.os.None? || forall s | 1 <= s < MAX_THREADS :: s in w.occupant
    ensures Step(w, a).info[a.k].phase == Running(Failed)
      ==> Step(w, a).occupant == w.occupant && Step(w, a).info.Keys == w.info.Keys
  {
    CreateOutcome(w, a);
    FreeSlots(w);
  }

  /** Otherwise it answers with a non-zero id whose slot was nobody's. */
  lemma CreateIsFresh(w: World, a: Action)
    requires Inv(w) && a.Create? && Enabled(w, a) && Step(w, a).info[a.k].phase != Running(Failed)
    ensures var v := Step(w, a); var p := v.info[a.k].phase;
      && a.os.Some? && p.Running? && p.last.Created? && 2 <= p.last.id <= MAX_THREADS && p.last.id - 1 !in w.occupant
      && w.next !in w.info && v.occupant == w.occupant[p.last.id - 1 := w.next]
      && v.table[p.last.id - 1] == Entry(a.os.value, true, a.detached, false, 0, a.start, a.arg)
  {
    CreateOutcome(w, a);
    FreeSlots(w);
  }

  /** What pthread_join answers without waiting, and pthread_detach: ESRCH exactly for an id of
      no slot in use, EINVAL from join exactly for a detached thread. */
  lemma AnswersAreExact(w: World, k: Number, id: nat)
    requires Inv(w) && id < WORD && Enabled(w, Join(k, id)) && Enabled(w, Detach(k, id))
    ensures var known := 1 <= id <= 64 && id - 1 in w.occupant;
      && (Step(w, Join(k, id)).info[k].phase == Running(Status(NoSuchThread)) <==> !known)
      && (Step(w, Join(k, id)).info[k].phase == Running(Status(Invalid)) <==> known && w.table[id - 1].detached)
      && Step(w, Detach(k, id)).info[k].phase == Running(Status(if known then Ok else NoSuchThread))
  {
    GetThreadIsExact(w.table, id);
  }

  /** A detach of a known id marks the slot, so that every later join of that id is refused, or
      gives it back if its thread has exited; it changes no other slot. */
  lemma DetachMarks(w: World, k: Number, id: nat)
    requires Inv(w) && id < WORD && Enabled(w, Detach(k, id)) && 1 <= id <= 64 && id - 1 in w.occupant
    ensures var v := Step(w, Detach(k, id));
      && v.table[id - 1].detached && (v.table[id - 1].inUse <==> !w.info[w.occupant[id - 1]].phase.Exited?)
      && (v.occupant == if w.info[w.occupant[id - 1]].phase.Exited? then w.occupant - {id - 1} else w.occupant)
      && forall s | 0 <= s < 64 && s != id - 1 :: v.table[s] == w.table[s]
  {
    GetThreadIsExact(w.table, id);
    assert EntrySound(w, id - 1);
  }

  /** A slot changes hands only by being released, which needs its thread to have exited
      and is counted; so no id is issued again before that. */
  lemma SlotIsKeptOrReleased(w: World, a: Action, s: nat)
    requires Inv(w) && Enabled(w, a) && s in w.occupant
    ensures var v := Step(w, a);
      || (s in v.occupant && v.occupant[s] == w.occupant[s])
      || (s !in v.occupant && w.info[w.occupant[s]].phase.Exited? && v.joined + v.reaped == w.joined + w.reaped + 1)
  {
    assert EntrySound(w, s);
    if a.Create? {
      CreateFails(w, a);
      if Step(w, a).info[a.k].phase != Running(Failed) { CreateIsFresh(w, a); }
    } else if a.Resume? {
      assert JoinSound(w, a.k);
    }
  }
}
