/** What happens to a slot and to its id over a whole run. */
module ThreadHistory {
  import opened ThreadTableSpec
  import opened ThreadRuns
  import opened Wrappers

  // ---------- from id to thread ----------

  /** The slot is free at some point after the run's start. */
  predicate GivenBack(w: World, run: seq<Action>, s: nat)
    requires Runnable(w, run)
    decreases run
  {
    run != [] && (s !in Step(w, run[0]).occupant || GivenBack(Step(w, run[0]), run[1..], s))
  }

  /** Until it is given back, a slot is the same thread's. */
  lemma {:induction false} SlotIsHeld(w: World, run: seq<Action>, s: nat)
    requires Inv(w) && Runnable(w, run) && s in w.occupant && !GivenBack(w, run, s)
    ensures s in Run(w, run).occupant && Run(w, run).occupant[s] == w.occupant[s]
    ensures Inv(Run(w, run))
    decreases run
  {
    if run != [] {
      SlotIsKeptOrReleased(w, run[0], s);
      StepKeepsInv(w, run[0]);
      SlotIsHeld(Step(w, run[0]), run[1..], s);
    }
  }

  /** How a join or the turn of a waiting joiner ends: it has the value of the thread it
      names exactly if that has exited, and otherwise waits for it. */
  lemma JoinStepIsExact(w: World, a: Action, slot: nat, target: Number)
    requires Inv(w) && Enabled(w, a)
    requires match a
             case Join(_, id) => GetThread(w.table, id) == slot && !w.table[slot].detached && target == OccupantOf(w, slot)
             case Resume(k) => slot == w.info[k].phase.slot && target == w.info[k].phase.target
             case _ => false
    ensures target in w.info && slot in w.occupant && w.occupant[slot] == target
    ensures Step(w, a).info[a.k].phase ==
      if w.info[target].phase.Exited? then Running(Joined(w.info[target].phase.value, target)) else Joining(slot, target)
    ensures slot in Step(w, a).occupant <==> !w.info[target].phase.Exited?
  {
    if a.Resume? { assert JoinSound(w, a.k); }
    JoinIsExact(w, a.k, slot, target);
  }

  /** What a join of the id of slot s, held by target, comes to. */
  function JoinAnswer(v: World, s: nat, target: Number): Phase {
    if s < MAX_THREADS && v.table[s].detached then Running(Status(Invalid))
    else match PhaseOf(v, target)
         case Exited(value) => Running(Joined(value, target))
         case _ => Joining(s, target)
  }

  lemma JoinAnswers(v: World, b: Action, target: Number)
    requires Inv(v) && b.Join? && Enabled(v, b) && 1 <= b.id <= MAX_THREADS
    requires b.id - 1 in v.occupant && v.occupant[b.id - 1] == target
    ensures PhaseOf(Step(v, b), b.k) == JoinAnswer(v, b.id - 1, target)
  {
    var s := b.id - 1;
    assert EntrySound(v, s) && v.table[s].inUse;
    GetThreadIsExact(v.table, b.id);
    if !v.table[s].detached { JoinStepIsExact(v, b, s, target); }
  }

  function PhaseOf(w: World, k: Number): Phase {
    if k in w.info then w.info[k].phase else Running(Nothing)
  }

  lemma CreatedHoldsSlot(w: World, a: Action, u: World, id: nat)
    requires Inv(w) && a.Create? && Enabled(w, a) && u == Step(w, a) && PhaseOf(u, a.k) == Running(Created(id))
    ensures Inv(u) && 2 <= id <= MAX_THREADS && id - 1 in u.occupant && u.occupant[id - 1] == w.next
  {
    CreateIsFresh(w, a);
    StepKeepsInv(w, a);
  }

  lemma HeldIdNamesThread(u: World, id: nat, target: Number, run: seq<Action>, v: World, b: Action)
    requires Inv(u) && 2 <= id <= MAX_THREADS && id - 1 in u.occupant && u.occupant[id - 1] == target
    requires Runnable(u, run) && !GivenBack(u, run, id - 1) && v == Run(u, run)
    requires b.Join? && b.id == id && Enabled(v, b)
    ensures PhaseOf(Step(v, b), b.k) == JoinAnswer(v, id - 1, target)
  {
    SlotIsHeld(u, run, id - 1);
    JoinAnswers(v, b, target);
  }

  /** The id pthread_create answered with names the new thread as long as its slot has not
      been given back, whatever happens meanwhile: joining it then waits for that thread,
      delivers that thread's value, or says that it is detached.  u is the world after the
      creation and v the one after the run. */
  lemma CreatedIdNamesThread(w: World, a: Action, u: World, id: nat, run: seq<Action>, v: World, b: Action)
    requires Inv(w) && a.Create? && Enabled(w, a) && u == Step(w, a) && PhaseOf(u, a.k) == Running(Created(id)) && id > 0
    requires Runnable(u, run) && !GivenBack(u, run, id - 1) && v == Run(u, run)
    requires b.Join? && b.id == id && Enabled(v, b)
    ensures PhaseOf(Step(v, b), b.k) == JoinAnswer(v, id - 1, w.next)
  {
    CreatedHoldsSlot(w, a, u, id);
    HeldIdNamesThread(u, id, w.next, run, v, b);
  }

  // ---------- detached threads ----------

  /** What becomes of the entry in a slot no action of its own touches. */
  lemma JoinLeavesDetached(w: World, k: Number, slot: nat, target: Number, s: nat)
    requires k in w.info && slot < MAX_THREADS && s < MAX_THREADS && s != slot && s in w.occupant
    ensures var v := JoinLoop(w, k, slot, target);
      s in v.occupant && v.occupant[s] == w.occupant[s] && v.table[s] == w.table[s]
  {
  }

  lemma CreateLeavesDetached(w: World, a: Action, s: nat)
    requires SlotsMatch(w) && a.Create? && Enabled(w, a) && s in w.occupant
    ensures var v := StepCreate(w, a);
      s in v.occupant && v.occupant[s] == w.occupant[s] && v.table[s] == w.table[s]
  {
    assert w.table[s].inUse;
  }

  lemma DetachLeavesOthers(w: World, a: Action, s: nat)
    requires SlotsMatch(w) && a.Detach? && Enabled(w, a) && s in w.occupant && GetThread(w.table, a.id) != s
    ensures var v := StepDetach(w, a);
      s in v.occupant && v.occupant[s] == w.occupant[s] && v.table[s] == w.table[s]
  {
  }

  /** A detach of the id of slot s, made when its thread has exited. */
  predicate Reaps(w: World, a: Action, s: nat) {
    a.Detach? && GetThread(w.table, a.id) == s &&
    s in w.occupant && w.occupant[s] in w.info && w.info[w.occupant[s]].phase.Exited?
  }

  lemma DetachOfDetached(w: World, a: Action, s: nat)
    requires Inv(w) && a.Detach? && Enabled(w, a) && s in w.occupant && w.table[s].detached && GetThread(w.table, a.id) == s
    ensures var v := StepDetach(w, a);
      if Reaps(w, a, s) then s !in v.occupant
      else s in v.occupant && v.occupant[s] == w.occupant[s] && v.table[s].detached
  {
    assert EntrySound(w, s);
  }

  /** No thread, whether joining, waiting or finishing, gives back the slot of a thread
      that is marked detached; only another detach does, after the thread has exited. */
  lemma DetachedSlotStays(w: World, a: Action, s: nat)
    requires Inv(w) && Enabled(w, a) && s in w.occupant && w.table[s].detached
    ensures var v := Step(w, a);
      if Reaps(w, a, s) then s !in v.occupant
      else s in v.occupant && v.occupant[s] == w.occupant[s] && v.table[s].detached
  {
    if a.Create? {
      CreateLeavesDetached(w, a, s);
    } else if a.Detach? {
      if GetThread(w.table, a.id) == s { DetachOfDetached(w, a, s); } else { DetachLeavesOthers(w, a, s); }
    } else if a.Join? {
      var slot := GetThread(w.table, a.id);
      if slot != -1 && !w.table[slot].detached { JoinLeavesDetached(w, a.k, slot, OccupantOf(w, slot), s); }
    } else if a.Resume? {
      assert JoinSound(w, a.k);
      JoinLeavesDetached(w, a.k, w.info[a.k].phase.slot, w.info[a.k].phase.target, s);
    }
  }

  /** Some action of the run reaps slot s. */
  predicate SomeReaps(w: World, run: seq<Action>, s: nat)
    requires Runnable(w, run)
    decreases run
  {
    run != [] && (Reaps(w, run[0], s) || SomeReaps(Step(w, run[0]), run[1..], s))
  }

  /** The slot of a detached thread is given back in a run if and only if somebody detaches
      the thread again after it has exited.  Its finishing gives nothing back. */
  lemma {:induction false} DetachedSlotLeaks(w: World, run: seq<Action>, s: nat)
    requires Inv(w) && Runnable(w, run) && s in w.occupant && w.table[s].detached
    ensures GivenBack(w, run, s) <==> SomeReaps(w, run, s)
    decreases run
  {
    if run != [] {
      DetachedSlotStays(w, run[0], s);
      StepKeepsInv(w, run[0]);
      if !Reaps(w, run[0], s) { DetachedSlotLeaks(Step(w, run[0]), run[1..], s); }
    }
  }

  /** So once slots 1 to 63 are detached threads', and as long as nobody detaches one of
      them again after its exit, no thread can be created any more. */
  lemma DetachedThreadsExhaustTable(w: World, run: seq<Action>, a: Action)
    requires Inv(w) && Runnable(w, run)
    requires forall s: nat | 1 <= s < MAX_THREADS :: s in w.occupant && w.table[s].detached && !SomeReaps(w, run, s)
    requires a.Create? && Enabled(Run(w, run), a)
    ensures Step(Run(w, run), a).info[a.k].phase == Running(Failed)
  {
    forall s: nat | 1 <= s < MAX_THREADS ensures s in Run(w, run).occupant && Inv(Run(w, run)) {
      DetachedSlotLeaks(w, run, s);
      SlotIsHeld(w, run, s);
    }
    assert 1 in Run(w, run).occupant;
    CreateFails(Run(w, run), a);
  }

  // ---------- reaching that state ----------

  lemma {:induction false} RunsCompose(w: World, run: seq<Action>, more: seq<Action>)
    requires Runnable(w, run) && Runnable(Run(w, run), more)
    ensures Runnable(w, run + more) && Run(w, run + more) == Run(Run(w, run), more)
    decreases run
  {
    if run == [] {
      assert run + more == more;
    } else {
      TailOfConcat(run, more);
      RunsCompose(Step(w, run[0]), run[1..], more);
    }
  }

  lemma TailOfConcat(run: seq<Action>, more: seq<Action>)
    requires run != []
    ensures (run + more)[1..] == run[1..] + more && (run + more)[0] == run[0]
  {
  }

  /** The main thread creates thread n, detached. */
  function Creation(mac: nat, n: nat): Action {
    Create(0, true, 0, 0, Some(mac + n))
  }

  function Round(mac: nat, n: nat): seq<Action> {
    [Creation(mac, n)] + [Exit(n, 0, true)]
  }

  /** n threads, each created detached and run to its end before the next. */
  function Churn(mac: nat, n: nat): seq<Action> {
    if n == 0 then [] else Churn(mac, n - 1) + Round(mac, n)
  }

  /** Threads 1 to n have been detached in slots 1 to n, and all below m have exited. */
  ghost predicate Churned(w: World, mac: nat, n: nat, m: nat) {
    && w.next == n + 1 && (forall k | 0 <= k <= n :: k in w.info && w.info[k].mac == mac + k)
    && w.info[0].phase.Running? && (forall s: nat :: s in w.occupant <==> s <= n)
    && (forall s | 0 <= s <= n :: w.occupant[s] == s)
    && (forall s | 1 <= s <= n && s < MAX_THREADS :: w.table[s].detached)
    && (forall k | 1 <= k <= n :: if k < m then w.info[k].phase.Exited? else w.info[k].phase.Running?)
  }

  lemma NextIsFree(w: World, n: nat)
    requires SlotsMatch(w) && (forall s: nat :: s in w.occupant <==> s <= n) && n + 1 < MAX_THREADS
    ensures FirstFree(w.table, 1) == n + 1
  {
    assert forall s: nat | s <= n :: s in w.occupant && w.table[s].inUse;
    assert !w.table[n + 1].inUse;
  }

  lemma NewIdIsUnused(w: World, mac: nat, n: nat)
    requires Inv(w) && Churned(w, mac, n, n + 1)
    ensures IndexOf(w.table, mac + (n + 1), 0) == -1
  {
    forall s | s in w.occupant && s < MAX_THREADS ensures w.table[s].threadID == mac + s && s <= n {
      assert EntrySound(w, s);
    }
  }

  /** The world after the main thread has created thread n + 1 in slot n + 1. */
  function WithThread(w: World, mac: nat, n: nat): World
    requires 0 in w.info && n + 1 < MAX_THREADS
  {
    World(w.table[n + 1 := Entry(mac + (n + 1), true, true, false, 0, 0, 0)],
          w.info[0 := w.info[0].(phase := Running(Created(n + 2)))]
                [w.next := Info(mac + (n + 1), n + 1, 0, 0, Running(Nothing))],
          w.next + 1, w.occupant[n + 1 := w.next], w.joined, w.reaped)
  }

  lemma CreationStep(w: World, mac: nat, n: nat)
    requires 0 in w.info && n + 1 < MAX_THREADS && Enabled(w, Creation(mac, n + 1)) && FirstFree(w.table, 1) == n + 1
    ensures Step(w, Creation(mac, n + 1)) == WithThread(w, mac, n)
  {
  }

  lemma WithThreadChurns(w: World, mac: nat, n: nat)
    requires n + 1 < MAX_THREADS && Churned(w, mac, n, n + 1)
    ensures Churned(WithThread(w, mac, n), mac, n + 1, n + 1)
  {
  }

  lemma CreationChurns(w: World, mac: nat, n: nat)
    requires Inv(w) && Churned(w, mac, n, n + 1) && n + 1 < MAX_THREADS
    ensures Enabled(w, Creation(mac, n + 1)) && Churned(Step(w, Creation(mac, n + 1)), mac, n + 1, n + 1)
  {
    NewIdIsUnused(w, mac, n);
    NextIsFree(w, n);
    CreationStep(w, mac, n);
    WithThreadChurns(w, mac, n);
  }

  lemma ExitChurns(w: World, mac: nat, n: nat)
    requires Inv(w) && Churned(w, mac, n, n) && 1 <= n < MAX_THREADS
    ensures Enabled(w, Exit(n, 0, true)) && Churned(Step(w, Exit(n, 0, true)), mac, n, n + 1)
  {
  }

  lemma OneStep(w: World, a: Action)
    requires Enabled(w, a)
    ensures Runnable(w, [a]) && Run(w, [a]) == Step(w, a)
  {
    assert [a][1..] == [];
  }

  lemma ChurnRound(w: World, mac: nat, n: nat)
    requires Inv(w) && Churned(w, mac, n, n + 1) && n + 1 < MAX_THREADS
    ensures var round := Round(mac, n + 1);
      Runnable(w, round) && Inv(Run(w, round)) && Churned(Run(w, round), mac, n + 1, n + 2)
  {
    var c, e := Creation(mac, n + 1), Exit(n + 1, 0, true);
    CreationChurns(w, mac, n);
    StepKeepsInv(w, c);
    var v := Step(w, c);
    ExitChurns(v, mac, n + 1);
    StepKeepsInv(v, e);
    OneStep(w, c);
    OneStep(v, e);
    RunsCompose(w, [c], [e]);
  }

  lemma ChurnOn(w: World, done: seq<Action>, mac: nat, n: nat)
    requires Runnable(w, done) && Inv(Run(w, done)) && Churned(Run(w, done), mac, n, n + 1) && n + 1 < MAX_THREADS
    ensures var run := done + Round(mac, n + 1);
      Runnable(w, run) && Inv(Run(w, run)) && Churned(Run(w, run), mac, n + 1, n + 2)
  {
    ChurnRound(Run(w, done), mac, n);
    RunsCompose(w, done, Round(mac, n + 1));
  }

  /** One more round keeps what run and k have. */
  ghost predicate RoundKeeps(kept: (seq<Action>, nat) -> bool, mac: nat, run: seq<Action>, k: nat) {
    k + 1 < MAX_THREADS && kept(run, k) ==> kept(run + Round(mac, k + 1), k + 1)
  }

  lemma {:induction false} Rounds(kept: (seq<Action>, nat) -> bool, mac: nat, n: nat)
    requires kept([], 0) && n < MAX_THREADS
    requires forall run, k :: RoundKeeps(kept, mac, run, k)
    ensures kept(Churn(mac, n), n)
  {
    if n > 0 {
      Rounds(kept, mac, n - 1);
      assert RoundKeeps(kept, mac, Churn(mac, n - 1), n - 1);
    }
  }

  ghost predicate Reaches(w: World, run: seq<Action>, mac: nat, n: nat) {
    Runnable(w, run) && Inv(Run(w, run)) && Churned(Run(w, run), mac, n, n + 1)
  }

  lemma ChurnFrom(w: World, mac: nat, n: nat)
    requires Inv(w) && Churned(w, mac, 0, 1) && n < MAX_THREADS
    ensures Reaches(w, Churn(mac, n), mac, n)
  {
    var kept := (run: seq<Action>, k: nat) => Reaches(w, run, mac, k);
    forall run, k: nat ensures RoundKeeps(kept, mac, run, k) {
      if k + 1 < MAX_THREADS && kept(run, k) { ChurnOn(w, run, mac, k); }
    }
    Rounds(kept, mac, n);
  }

  lemma ChurnRuns(mac: nat, n: nat)
    requires n < MAX_THREADS
    ensures Runnable(Start(mac), Churn(mac, n))
    ensures Inv(Run(Start(mac), Churn(mac, n))) && Churned(Run(Start(mac), Churn(mac, n)), mac, n, n + 1)
  {
    StartInv(mac);
    ChurnFrom(Start(mac), mac, n);
  }

  /** The leak is real: for every n up to 63 there is a run in which n threads have been
      created detached, all of them have exited, and slots 1 to n are still in use. */
  lemma LeakIsReached(mac: nat, n: nat)
    requires n < MAX_THREADS
    ensures Runnable(Start(mac), Churn(mac, n))
    ensures var w := Run(Start(mac), Churn(mac, n));
      forall s | 1 <= s <= n :: w.table[s].inUse && s in w.info && w.info[s].phase.Exited? && w.info[s].slot == s
  {
    ChurnRuns(mac, n);
    var w := Run(Start(mac), Churn(mac, n));
    forall s | 1 <= s <= n ensures w.table[s].inUse && s in w.info && w.info[s].phase.Exited? && w.info[s].slot == s {
      assert s in w.occupant;
      assert EntrySound(w, s);
    }
  }

  /** With n 63, nobody but the main thread is left running, and no thread can be created
      in any continuation without another detach of one of the dead. */
  lemma ExhaustionIsReached(mac: nat, run: seq<Action>, a: Action)
    requires Runnable(Start(mac), Churn(mac, 63)) && Runnable(Run(Start(mac), Churn(mac, 63)), run)
    requires forall s: nat | 1 <= s < MAX_THREADS :: !SomeReaps(Run(Start(mac), Churn(mac, 63)), run, s)
    requires a.Create? && Enabled(Run(Run(Start(mac), Churn(mac, 63)), run), a)
    ensures Step(Run(Run(Start(mac), Churn(mac, 63)), run), a).info[a.k].phase == Running(Failed)
  {
    ChurnRuns(mac, 63);
    DetachedThreadsExhaustTable(Run(Start(mac), Churn(mac, 63)), run, a);
  }
}
