// The call state machine (crates/voip-core/src/state.rs).

module CallMachine {
  import opened Wrappers

  datatype CallState = Idle | Ringing | Accepted | Connected | Failed | Ended

  // Connection methods and end reasons matter only by their number.
  datatype Reason = Rejected | Timeout | Other(code: nat)

  datatype Transition = Ok | Invalid(from: CallState, to: CallState)

  datatype Machine = Machine(state: CallState, method_: Option<nat>, endReason: Option<Reason>,
                             retryCount: nat, maxRetries: nat)

  datatype Op = Ring | Accept | Connect(m: nat) | End(r: Reason) | Fail(r: Reason) | Reject | TimeOut | Retry

  function Create(maxRetries: nat): Machine {
    Machine(Idle, None, None, 0, maxRetries)
  }

  function Target(op: Op): CallState {
    match op
    case Ring => Ringing
    case Accept => Accepted
    case Connect(_) => Connected
    case End(_) => Ended
    case Fail(_) => Failed
    case Reject => Failed
    case TimeOut => Failed
    case Retry => Ringing
  }

  predicate Enabled(m: Machine, op: Op) {
    match op
    case Ring => m.state == Idle
    case Accept => m.state == Ringing
    case Connect(_) => m.state == Accepted
    case End(_) => m.state == Connected
    case Fail(_) => m.state == Ringing || m.state == Accepted || m.state == Connected
    case Reject => m.state == Ringing
    case TimeOut => m.state == Ringing || m.state == Accepted
    case Retry => m.state == Failed && m.retryCount < m.maxRetries
  }

  function Step(m: Machine, op: Op): (Machine, Transition) {
    if !Enabled(m, op) then (m, Invalid(m.state, Target(op))) else
    var m' := m.(state := Target(op));
    match op
    case Connect(c) => (m'.(method_ := Some(c)), Ok)
    case End(r) => (m'.(endReason := Some(r)), Ok)
    case Fail(r) => (m'.(endReason := Some(r)), Ok)
    case Reject => (m'.(endReason := Some(Rejected)), Ok)
    case TimeOut => (m'.(endReason := Some(Timeout)), Ok)
    case Retry => (m'.(endReason := None, retryCount := m.retryCount + 1), Ok)
    case _ => (m', Ok)
  }

  // ----- The imperative form ----------------------------------------------------------------

  class CallStateMachine {
    var state: CallState
    var method_: Option<nat>
    var endReason: Option<Reason>
    var retryCount: nat
    const maxRetries: nat

    constructor (maxRetries: nat)
      ensures View() == Create(maxRetries)
    {
      state, method_, endReason, retryCount := Idle, None, None, 0;
      this.maxRetries := maxRetries;
    }

    ghost function View(): Machine
      reads this
    {
      Machine(state, method_, endReason, retryCount, maxRetries)
    }

    method Ring() returns (r: Transition)
      modifies this
      ensures (View(), r) == Step(old(View()), Op.Ring)
    {
      if state != Idle {
        return Invalid(state, Ringing);
      }
      state := Ringing;
      r := Ok;
    }

    method Accept() returns (r: Transition)
      modifies this
      ensures (View(), r) == Step(old(View()), Op.Accept)
    {
      if state != Ringing {
        return Invalid(state, Accepted);
      }
      state := Accepted;
      r := Ok;
    }

    method Connect(m: nat) returns (r: Transition)
      modifies this
      ensures (View(), r) == Step(old(View()), Op.Connect(m))
    {
      if state != Accepted {
        return Invalid(state, Connected);
      }
      state := Connected;
      method_ := Some(m);
      r := Ok;
    }

    method End(reason: Reason) returns (r: Transition)
      modifies this
      ensures (View(), r) == Step(old(View()), Op.End(reason))
    {
      if state != Connected {
        return Invalid(state, Ended);
      }
      state := Ended;
      endReason := Some(reason);
      r := Ok;
    }

    method Fail(reason: Reason) returns (r: Transition)
      modifies this
      ensures (View(), r) == Step(old(View()), Op.Fail(reason))
    {
      match state
      case Ringing => state := Failed; endReason := Some(reason); r := Ok;
      case Accepted => state := Failed; endReason := Some(reason); r := Ok;
      case Connected => state := Failed; endReason := Some(reason); r := Ok;
      case Idle => r := Invalid(state, Failed);
      case Failed => r := Invalid(state, Failed);
      case Ended => r := Invalid(state, Failed);
    }

    method Reject() returns (r: Transition)
      modifies this
      ensures (View(), r) == Step(old(View()), Op.Reject)
    {
      if state != Ringing {
        return Invalid(state, Failed);
      }
      state := Failed;
      endReason := Some(Rejected);
      r := Ok;
    }

    method TimeOut() returns (r: Transition)
      modifies this
      ensures (View(), r) == Step(old(View()), Op.TimeOut)
    {
      if state != Ringing && state != Accepted {
        return Invalid(state, Failed);
      }
      state := Failed;
      endReason := Some(Timeout);
      r := Ok;
    }

    method Retry() returns (r: Transition)
      modifies this
      ensures (View(), r) == Step(old(View()), Op.Retry)
    {
      if state != Failed || retryCount >= maxRetries {
        return Invalid(state, Ringing);
      }
      retryCount := retryCount + 1;
      state := Ringing;
      endReason := None;
      r := Ok;
    }
  }

  // ----- Runs -------------------------------------------------------------------------------

  function Run(m: Machine, ops: seq<Op>): Machine
    decreases |ops|
  {
    if ops == [] then m else Run(Step(m, ops[0]).0, ops[1..])
  }

  function Successes(m: Machine, ops: seq<Op>): nat
    decreases |ops|
  {
    if ops == [] then 0
    else (if Step(m, ops[0]).1 == Ok then 1 else 0) + Successes(Step(m, ops[0]).0, ops[1..])
  }

  predicate EverConnected(m: Machine, ops: seq<Op>)
    decreases |ops|
  {
    ops != [] && ((ops[0].Connect? && Step(m, ops[0]).1 == Ok) || EverConnected(Step(m, ops[0]).0, ops[1..]))
  }

  ghost predicate Sound(m: Machine) {
    && m.retryCount <= m.maxRetries
    && (m.endReason.Some? <==> m.state == Failed || m.state == Ended)
    && (m.state == Connected || m.state == Ended ==> m.method_.Some?)
  }

  // Four transitions for every attempt that is left, and those left of the current one.
  function Fuel(m: Machine): int {
    4 * (m.maxRetries - m.retryCount) +
    match m.state
    case Idle => 4
    case Ringing => 3
    case Accepted => 2
    case Connected => 1
    case Failed => 0
    case Ended => 0
  }

  // Over every sequence of calls, from any sound state: the state stays sound, and every successful
  // transition uses up fuel.
  lemma {:induction false} RunUsesFuel(m: Machine, ops: seq<Op>)
    requires Sound(m)
    ensures Sound(Run(m, ops)) && Run(m, ops).maxRetries == m.maxRetries
    ensures Successes(m, ops) + Fuel(Run(m, ops)) <= Fuel(m)
    ensures Run(m, ops).method_.Some? <==> m.method_.Some? || EverConnected(m, ops)
    decreases |ops|
  {
    if ops == [] {
    } else {
      RunUsesFuel(Step(m, ops[0]).0, ops[1..]);
    }
  }

  // A new machine makes at most 4 * (max_retries + 1) successful transitions, whatever is called.
  lemma TransitionBound(maxRetries: nat, ops: seq<Op>)
    ensures var m := Run(Create(maxRetries), ops);
      && Successes(Create(maxRetries), ops) <= 4 * (maxRetries + 1)
      && Sound(m) && (m.method_.Some? <==> EverConnected(Create(maxRetries), ops))
  {
    RunUsesFuel(Create(maxRetries), ops);
  }

  // The bound is reached: every attempt but the last fails after connecting.
  lemma {:induction false} BoundReached(m: Machine) returns (ops: seq<Op>)
    requires Sound(m) && (m.state == Idle || m.state == Failed)
    requires m.state == Failed ==> m.retryCount < m.maxRetries
    ensures Successes(m, ops) == Fuel(m)
    decreases m.maxRetries - m.retryCount, m.state == Idle
  {
    var first := if m.state == Idle then Op.Ring else Op.Retry;
    var m1 := Step(m, first).0;
    var m2 := Step(m1, Op.Accept).0;
    var m3 := Step(m2, Op.Connect(0)).0;
    var m4 := Step(m3, Op.Fail(Timeout)).0;
    var rest := [];
    if m4.retryCount < m4.maxRetries {
      rest := BoundReached(m4);
    }
    ops := [first] + ([Op.Accept] + ([Op.Connect(0)] + ([Op.Fail(Timeout)] + rest)));
    OneMore(m3, Op.Fail(Timeout), rest);
    OneMore(m2, Op.Connect(0), [Op.Fail(Timeout)] + rest);
    OneMore(m1, Op.Accept, [Op.Connect(0)] + ([Op.Fail(Timeout)] + rest));
    OneMore(m, first, [Op.Accept] + ([Op.Connect(0)] + ([Op.Fail(Timeout)] + rest)));
  }

  lemma OneMore(m: Machine, op: Op, rest: seq<Op>)
    requires Enabled(m, op)
    ensures Successes(m, [op] + rest) == 1 + Successes(Step(m, op).0, rest)
  {
    assert ([op] + rest)[1..] == rest;
  }

  // Ended is final.
  lemma {:induction false} EndedForever(m: Machine, ops: seq<Op>)
    requires m.state == Ended
    ensures Run(m, ops) == m && Successes(m, ops) == 0
    decreases |ops|
  {
    if ops == [] {
    } else {
      EndedForever(Step(m, ops[0]).0, ops[1..]);
    }
  }

  // ----- What is recorded -------------------------------------------------------------------

  // The transitions there are.
  predicate Edge(from: CallState, op: Op, to: CallState) {
    || (op.Ring? && from == Idle && to == Ringing)
    || (op.Accept? && from == Ringing && to == Accepted)
    || (op.Connect? && from == Accepted && to == Connected)
    || (op.End? && from == Connected && to == Ended)
    || (op.Fail? && from in {Ringing, Accepted, Connected} && to == Failed)
    || (op.Reject? && from == Ringing && to == Failed)
    || (op.TimeOut? && from in {Ringing, Accepted} && to == Failed)
    || (op.Retry? && from == Failed && to == Ringing)
  }

  // A call succeeds exactly along these, and for a retry only while some are left; it counts a retry; and a
  // call that does not succeed changes nothing and says from where it was tried.
  lemma SucceedsIff(m: Machine, op: Op)
    ensures var (m', r) := Step(m, op);
      && (r == Ok <==> (exists to :: Edge(m.state, op, to)) && (op.Retry? ==> m.retryCount < m.maxRetries))
      && (r == Ok ==> Edge(m.state, op, m'.state) && m'.retryCount == m.retryCount + if op.Retry? then 1 else 0)
      && (r != Ok ==> m' == m && r.from == m.state && (forall from, to | Edge(from, op, to) :: r.to == to))
      && m'.maxRetries == m.maxRetries
  {
    assert forall to | Edge(m.state, op, to) :: to == Target(op);
    if Enabled(m, op) {
      assert Edge(m.state, op, Target(op));
    }
  }

  // The argument of the last successful connect, if any since `last`.
  function LastMethod(m: Machine, ops: seq<Op>, last: Option<nat>): Option<nat>
    decreases |ops|
  {
    if ops == [] then last else
    var (m', r) := Step(m, ops[0]);
    LastMethod(m', ops[1..], if r == Ok && ops[0].Connect? then Some(ops[0].m) else last)
  }

  // The reason of the last successful call that gives one, if no retry succeeded since.
  function LastReason(m: Machine, ops: seq<Op>, last: Option<Reason>): Option<Reason>
    decreases |ops|
  {
    if ops == [] then last else
    var (m', r) := Step(m, ops[0]);
    LastReason(m', ops[1..],
      if r != Ok then last
      else if ops[0].End? || ops[0].Fail? then Some(ops[0].r)
      else if ops[0].Reject? then Some(Rejected)
      else if ops[0].TimeOut? then Some(Timeout)
      else if ops[0].Retry? then None
      else last)
  }

  // Over every sequence of calls the machine has recorded just these.
  lemma {:induction false} RecordsLast(m: Machine, ops: seq<Op>)
    ensures Run(m, ops).method_ == LastMethod(m, ops, m.method_)
    ensures Run(m, ops).endReason == LastReason(m, ops, m.endReason)
    decreases |ops|
  {
    if ops == [] {
    } else {
      RecordsLast(Step(m, ops[0]).0, ops[1..]);
    }
  }
}
