/** The emulated signal state as a value, and what every call does to it.  A handler is
    an arbitrary finite tree of calls, so processing and handlers recurse through each
    other. */
module SignalSpec {
  import opened WordArithmetic
  import opened SignalSets
  import opened Wrappers

  const SIGINT := 2
  const SIGKILL := 9
  const SIGSTOP := 19
  const SIG_BLOCK := 0
  const SIG_UNBLOCK := 1
  const SIG_SETMASK := 2

  /** SIG_DFL, SIG_IGN or a function of the program's. */
  datatype Handler = Default | Ignore | User(id: int)

  datatype Action = Action(handler: Handler, mask: Word, flags: Word) {
    /** SA_NODEFER is 0x40 and SA_RESETHAND 0x80. */
    predicate NoDefer() { BitOf(flags, 6) == 1 }
    predicate ResetHand() { BitOf(flags, 7) == 1 }
  }

  type Handlers = s: seq<Handler> | |s| == NSIG witness seq(NSIG, i => Default)
  type Actions = s: seq<Action> | |s| == NSIG witness seq(NSIG, i => Action(Default, 0, 0))

  datatype DefaultAction = Terminate | Nothing | Core | Stop | Continue

  function DefaultActions(): (d: seq<DefaultAction>)
    ensures |d| == NSIG
  {
    [Nothing, Terminate, Terminate, Core, Core, Core, Core, Core,
     Core, Terminate, Terminate, Core, Terminate, Terminate, Terminate, Terminate,
     Terminate, Nothing, Continue, Stop, Stop, Stop, Stop, Nothing,
     Core, Core, Terminate, Terminate, Nothing, Terminate, Terminate, Core]
  }

  /** One entry of the history: what was delivered, under which mask and inside which
      handlers, innermost last, whether a user handler got it, and whether the signal was
      still pending when its turn came. */
  datatype Delivery = Delivery(sig: nat, blocked: Mask, active: seq<nat>, user: bool, pending: bool)

  /** exited: ExitToShell has been called, and nothing runs any more.  active and log
      are history. */
  datatype State = State(pending: Mask, blocked: Mask, handlers: Handlers, actions: Actions,
                         exited: bool, active: seq<nat>, log: seq<Delivery>)

  /** init_signals. */
  const INITIAL := State({}, {}, NoHandlers(), NoActions(), false, [], [])

  function NoHandlers(): Handlers {
    seq(NSIG, i => Default)
  }

  function NoActions(): Actions {
    seq(NSIG, i => Action(Default, 0, 0))
  }

  /** One call.  For posix9_signal_process, cmdPeriod says whether Cmd-period has been
      typed, and replies what each user handler it invokes does: the body in the list at
      its signal's number, or otherwise the other one. */
  datatype Call =
    | Raise(sig: int)
    | Kill(pid: int, sig: int)
    | Signal(sig: int, handler: Handler)
    | SigAction(sig: int, act: Option<Action>)
    | SigProcMask(how: int, mask: Option<Word>)
    | Process(cmdPeriod: bool, replies: seq<Body>, other: Body)

  datatype Body = Done | Then(call: Call, rest: Body)

  function DoRaise(s: State, sig: int): (State, bool) {
    if sig < 1 || sig >= NSIG then (s, false) else (s.(pending := s.pending + {sig}), true)
  }

  datatype Code = Ok | NoSuchProcess | Invalid

  /** getpid() is 1. */
  function DoKill(s: State, pid: int, sig: int): (State, Code) {
    if pid != 0 && pid != 1 && pid != -1 then (s, NoSuchProcess)
    else if sig < 0 || sig >= NSIG then (s, Invalid)
    else if sig == 0 then (s, Ok)
    else (s.(pending := s.pending + {sig}), Ok)
  }

  predicate Catchable(sig: int) {
    1 <= sig < NSIG && sig != SIGKILL && sig != SIGSTOP
  }

  /** signal(): the old handler, or None for SIG_ERR. */
  function DoSignal(s: State, sig: int, handler: Handler): (State, Option<Handler>) {
    if !Catchable(sig) then (s, None)
    else (s.(handlers := s.handlers[sig := handler], actions := s.actions[sig := s.actions[sig].(handler := handler)]),
          Some(s.handlers[sig]))
  }

  /** sigaction(): the old action, or None for -1. */
  function DoSigAction(s: State, sig: int, act: Option<Action>): (State, Option<Action>) {
    if !Catchable(sig) then (s, None)
    else if act.None? then (s, Some(s.actions[sig]))
    else (s.(actions := s.actions[sig := act.value], handlers := s.handlers[sig := act.value.handler]),
          Some(s.actions[sig]))
  }

  /** sigprocmask(); the old mask is s.blocked. */
  function DoSigProcMask(s: State, how: int, m: Option<Word>): (State, bool) {
    if m.Some? && how != SIG_BLOCK && how != SIG_UNBLOCK && how != SIG_SETMASK then (s, false)
    else
      var b :=
        if m.None? then s.blocked
        else if how == SIG_BLOCK then s.blocked + SetOf(m.value)
        else if how == SIG_UNBLOCK then s.blocked - SetOf(m.value)
        else SetOf(m.value);
      (s.(blocked := b - {SIGKILL, SIGSTOP}), true)
  }

  function Reply(call: Call, sig: nat): (b: Body)
    requires call.Process?
    ensures b < call
  {
    if sig < |call.replies| then call.replies[sig] else call.other
  }

  /** The state a user handler for sig starts in. */
  function Enter(s: State, sig: nat): State
    requires sig < NSIG
  {
    s.(blocked := s.blocked + SetOf(s.actions[sig].mask) + (if s.actions[sig].NoDefer() then {} else {sig}),
       active := s.active + [sig])
  }

  /** What deliver_signal does once the handler has come back in state t. */
  function Leave(s: State, t: State, sig: nat): State
    requires sig < NSIG
  {
    var u := t.(blocked := s.blocked, active := s.active);
    if t.actions[sig].ResetHand() then
      u.(handlers := t.handlers[sig := Default], actions := t.actions[sig := t.actions[sig].(handler := Default)])
    else u
  }

  function Entry(s: State, sig: nat): Delivery
    requires sig < NSIG
  {
    Delivery(sig, s.blocked, s.active, s.handlers[sig].User?, sig in s.pending)
  }

  /** The turn of signal sig in the delivery loop begins. */
  function Take(s: State, sig: nat): State
    requires sig < NSIG
  {
    s.(log := s.log + [Entry(s, sig)], pending := s.pending - {sig})
  }

  /** deliver_signal(sig), where a user handler would do body. */
  function Deliver(s: State, sig: nat, body: Body): State
    requires sig < NSIG
    decreases body, 1
  {
    match s.handlers[sig]
    case Ignore => s
    case Default =>
      if DefaultActions()[sig].Terminate? || DefaultActions()[sig].Core? then s.(exited := true) else s
    case User(_) =>
      var t := RunBody(Enter(s, sig), body);
      if t.exited then t else Leave(s, t, sig)
  }

  /** The delivery loop from signal i on, and how many it delivers. */
  function ProcessLoop(s: State, call: Call, i: nat, todo: Mask): (State, nat)
    requires call.Process? && i <= NSIG
    decreases call, NSIG - i
  {
    if i == NSIG || s.exited then (s, 0)
    else if i in todo then
      var t := Deliver(Take(s, i), i, Reply(call, i));
      var (u, n) := ProcessLoop(t, call, i + 1, todo);
      (u, n + 1)
    else ProcessLoop(s, call, i + 1, todo)
  }

  function Poll(s: State, call: Call): State
    requires call.Process?
  {
    if call.cmdPeriod then s.(pending := s.pending + {SIGINT}) else s
  }

  /** posix9_signal_process. */
  function DoProcess(s: State, call: Call): (State, nat)
    requires call.Process?
    decreases call, NSIG + 1
  {
    var p := Poll(s, call);
    var todo := p.pending - p.blocked;
    if todo == {} then (p, 0) else ProcessLoop(p, call, 1, todo)
  }

  function RunCall(s: State, call: Call): State
    decreases call, NSIG + 2
  {
    match call
    case Raise(sig) => DoRaise(s, sig).0
    case Kill(pid, sig) => DoKill(s, pid, sig).0
    case Signal(sig, handler) => DoSignal(s, sig, handler).0
    case SigAction(sig, act) => DoSigAction(s, sig, act).0
    case SigProcMask(how, m) => DoSigProcMask(s, how, m).0
    case Process(_, _, _) => DoProcess(s, call).0
  }

  /** A handler, or a whole program: its calls in order, until one exits. */
  function RunBody(s: State, body: Body): State
    decreases body, 0
  {
    if body.Done? || s.exited then s else RunBody(RunCall(s, body.call), body.rest)
  }
}

/** The static variables themselves. */
module SignalObject {
  import opened WordArithmetic
  import opened SignalSets
  import opened Wrappers
  import opened SignalSpec

  class Signals {
    var pending: Word
    var blocked: Word
    const handlers: array<Handler>
    const actions: array<Action>
    var exited: bool
    ghost var active: seq<nat>
    ghost var log: seq<Delivery>

    ghost predicate Valid() reads this {
      handlers.Length == NSIG && actions.Length == NSIG
    }

    ghost function Value(): State
      reads this, handlers, actions
      requires Valid()
    {
      State(SetOf(pending), SetOf(blocked), handlers[..], actions[..], exited, active, log)
    }

    constructor ()
      ensures Valid() && fresh(handlers) && fresh(actions) && Value() == INITIAL
    {
      handlers := new Handler[NSIG](_ => Default);
      actions := new Action[NSIG](_ => Action(Default, 0, 0));
      pending, blocked, exited, active, log := 0, 0, false, [], [];
      new;
      NoBits(0);
    }

    method SetPending(sig: nat)
      requires Valid() && sig < NSIG
      modifies this`pending
      ensures Value() == old(Value()).(pending := old(Value()).pending + {sig})
    {
      OrIsUnion(pending, Bit(sig));
      BitIsSingleton(sig);
      pending := BitOr(pending, Bit(sig));
    }

    method Raise(sig: int) returns (ok: bool)
      requires Valid()
      modifies this`pending
      ensures (Value(), ok) == SignalSpec.DoRaise(old(Value()), sig)
      ensures ok <==> 1 <= sig <= 31
      ensures Value() == old(Value()).(pending := old(Value()).pending + if ok then {sig} else {})
    {
      if sig < 1 || sig >= NSIG {
        return false;
      }
      SetPending(sig);
      ok := true;
    }

    method Kill(pid: int, sig: int) returns (r: Code)
      requires Valid()
      modifies this`pending
      ensures (Value(), r) == SignalSpec.DoKill(old(Value()), pid, sig)
      ensures r == NoSuchProcess <==> !(-1 <= pid <= 1)
      ensures r == Ok <==> -1 <= pid <= 1 && 0 <= sig <= 31
      ensures Value() == old(Value()).(pending := old(Value()).pending + if r == Ok && sig > 0 then {sig} else {})
    {
      if pid != 0 && pid != 1 && pid != -1 {
        return NoSuchProcess;
      }
      if sig < 0 || sig >= NSIG {
        return Invalid;
      }
      if sig == 0 {
        return Ok;
      }
      SetPending(sig);
      r := Ok;
    }

    method Signal(sig: int, handler: Handler) returns (before: Option<Handler>)
      requires Valid()
      modifies handlers, actions
      ensures (Value(), before) == SignalSpec.DoSignal(old(Value()), sig, handler)
    {
      if sig < 1 || sig >= NSIG {
        return None;
      }
      if sig == SIGKILL || sig == SIGSTOP {
        return None;
      }
      before := Some(handlers[sig]);
      handlers[sig] := handler;
      actions[sig] := actions[sig].(handler := handler);
    }

    method SigAction(sig: int, act: Option<Action>) returns (before: Option<Action>)
      requires Valid()
      modifies handlers, actions
      ensures (Value(), before) == SignalSpec.DoSigAction(old(Value()), sig, act)
    {
      if sig < 1 || sig >= NSIG {
        return None;
      }
      if sig == SIGKILL || sig == SIGSTOP {
        return None;
      }
      before := Some(actions[sig]);
      if act.Some? {
        actions[sig] := act.value;
        handlers[sig] := act.value.handler;
      }
    }

    method SigProcMask(how: int, m: Option<Word>) returns (ok: bool)
      requires Valid()
      modifies this`blocked
      ensures (Value(), ok) == SignalSpec.DoSigProcMask(old(Value()), how, m)
    {
      if m.Some? {
        if how == SIG_BLOCK {
          OrIsUnion(blocked, m.value);
          blocked := BitOr(blocked, m.value);
        } else if how == SIG_UNBLOCK {
          AndNotIsDifference(blocked, m.value);
          blocked := BitAnd(blocked, BitNot(m.value));
        } else if how == SIG_SETMASK {
          blocked := m.value;
        } else {
          return false;
        }
      }
      UnblockBoth(SIGKILL, SIGSTOP);
      ok := true;
    }

    /** blocked_signals &= ~((1UL << sig) | (1UL << other)). */
    method UnblockBoth(sig: nat, other: nat)
      requires Valid() && sig < NSIG && other < NSIG
      modifies this`blocked
      ensures Value() == old(Value()).(blocked := old(Value()).blocked - {sig, other})
    {
      OrIsUnion(Bit(sig), Bit(other));
      BitIsSingleton(sig);
      BitIsSingleton(other);
      AndNotIsDifference(blocked, BitOr(Bit(sig), Bit(other)));
      blocked := BitAnd(blocked, BitNot(BitOr(Bit(sig), Bit(other))));
    }

    /** The masks of deliver_signal before the handler is called. */
    method EnterHandler(sig: nat)
      requires Valid() && sig < NSIG
      modifies this`blocked, this`active
      ensures Value() == Enter(old(Value()), sig)
    {
      OrIsUnion(blocked, actions[sig].mask);
      blocked := BitOr(blocked, actions[sig].mask);
      if !actions[sig].NoDefer() {
        OrIsUnion(blocked, Bit(sig));
        BitIsSingleton(sig);
        blocked := BitOr(blocked, Bit(sig));
      }
      active := active + [sig];
    }

    method Deliver(sig: nat, body: Body)
      requires Valid() && sig < NSIG
      modifies this, handlers, actions
      ensures Valid() && Value() == SignalSpec.Deliver(old(Value()), sig, body)
      decreases body, 1
    {
      var handler := handlers[sig];
      if handler == Ignore {
        return;
      }
      if handler == Default {
        match DefaultActions()[sig] {
          case Terminate => exited := true;
          case Core => exited := true;
          case Stop =>
          case Continue =>
          case Nothing =>
        }
        return;
      }
      var oldBlocked := blocked;
      ghost var outer := active;
      EnterHandler(sig);
      RunBody(body);
      if exited {
        return;
      }
      blocked := oldBlocked;
      active := outer;
      if actions[sig].ResetHand() {
        handlers[sig] := Default;
        actions[sig] := actions[sig].(handler := Default);
      }
    }

    method Process(call: Call) returns (delivered: nat)
      requires Valid() && call.Process? && !exited
      modifies this, handlers, actions
      ensures Valid() && Value() == SignalSpec.DoProcess(old(Value()), call).0
      ensures !exited ==> delivered == SignalSpec.DoProcess(old(Value()), call).1
      decreases call, NSIG + 1
    {
      delivered := 0;
      if call.cmdPeriod {
        SetPending(SIGINT);
      }
      var toDeliver := BitAnd(pending, BitNot(blocked));
      AndNotIsDifference(pending, blocked);
      ghost var start, todo := Value(), SetOf(toDeliver);
      assert start == Poll(old(Value()), call);
      NoBits(toDeliver);
      if toDeliver == 0 {
        return;
      }
      var i := 1;
      while i < NSIG
        invariant Valid() && 1 <= i <= NSIG && !exited
        invariant ProcessLoop(start, call, 1, todo).0 == ProcessLoop(Value(), call, i, todo).0
        invariant ProcessLoop(start, call, 1, todo).1 == delivered + ProcessLoop(Value(), call, i, todo).1
      {
        TestIsMembership(toDeliver, i);
        if BitAnd(toDeliver, Bit(i)) != 0 {
          AndNotIsDifference(pending, Bit(i));
          BitIsSingleton(i);
          log := log + [Delivery(i, SetOf(blocked), active, handlers[i].User?, i in SetOf(pending))];
          pending := BitAnd(pending, BitNot(Bit(i)));
          Deliver(i, Reply(call, i));
          if exited {
            return;
          }
          delivered := delivered + 1;
        }
        i := i + 1;
      }
    }

    /** A handler of the program's. */
    method RunBody(body: Body)
      requires Valid()
      modifies this, handlers, actions
      ensures Valid() && Value() == SignalSpec.RunBody(old(Value()), body)
      decreases body, 0
    {
      if body.Done? || exited {
        return;
      }
      match body.call {
        case Raise(sig) => var _ := Raise(sig);
        case Kill(pid, sig) => var _ := Kill(pid, sig);
        case Signal(sig, handler) => var _ := Signal(sig, handler);
        case SigAction(sig, act) => var _ := SigAction(sig, act);
        case SigProcMask(how, m) => var _ := SigProcMask(how, m);
        case Process(_, _, _) => var _ := Process(body.call);
      }
      RunBody(body.rest);
    }
  }
}
