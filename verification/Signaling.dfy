// The WebSocket sessions of the signaling server as a protocol
// (crates/voip-signaling/src/session.rs, masque.rs, push.rs).
//
// A handler is cut into steps at its lock acquisitions. Steps of different sessions, of the REST
// handlers and of the shutdown tasks interleave in any order. What the rate limiter answers, whether
// a channel send succeeds, whether a relay proxy is known and what a clock shows is chosen freely at
// each step.

module Signaling {
  import opened Bytes
  import opened Lru
  import opened Registry
  import opened Wrappers

  // A decoded client message together with the bytes it was decoded from.
  datatype Msg =
    | CallRequest(payload: seq<byte>, callId: string, caller: string, callee: string)
    | CallAccept(payload: seq<byte>, callId: string)
    | CallReject(payload: seq<byte>, callId: string)
    | CallFailed(payload: seq<byte>, callId: string, reason: int, description: string)
    | CallEnded(payload: seq<byte>, callId: string)
    | PeerRegister(info: PeerInfo)
    | PeerUnregister(peerId: string)

  datatype Frame =
    | Forward(typeId: nat, payload: seq<byte>)
    | RelayNeeded(callId: string)
    | PushRetry(callId: string, callerId: string, calleeId: string, reason: int, attempt: nat)

  const CALL_REQUEST_SC := 0x0002
  const CALL_ACCEPT_SC := 0x0004
  const CALL_REJECT_SC := 0x0006
  const CALL_FAILED := 0x0007
  const CALL_ENDED_TYPE := 0x0008

  predicate Retryable(reason: int) {
    reason == 3 || reason == 4 || reason == 7
  }

  // ----- State ------------------------------------------------------------------------------

  datatype Stage = Limit | Check | Create | Lookup | Update | Reread | Deliver
                 | PickRelay | RelayCaller | RelayCallee | Retry | Wake | End | Remove

  // What a session is in the middle of. `h` identifies one invocation of a handler; `call` is the
  // registry entry it has seen, `sender` the peer id its session held when it was checked.
  datatype Task =
    | Idle
    | Fresh(h: nat, m: Msg, stage: Stage)
    | Known(h: nat, m: Msg, stage: Stage, call: Call, sender: Option<string>)

  // `disconnected` is the flag that the two tasks of a session compare and exchange; `closing` holds
  // between winning that exchange and disconnecting the peer.
  datatype Session = Session(holder: Option<string>, task: Task, disconnected: bool, closing: bool)

  datatype Event =
    | Received(h: nat, m: Msg)
    | Saw(h: nat, call: Call)
    | Authorized(h: nat, sender: Option<string>)
    | Sent(h: nat, to: string, frame: Frame)
    | Disconnected(sid: nat)

  datatype State = State(reg: Reg, sessions: map<nat, Session>, log: seq<Event>, next: nat)

  // The free choices of a step.
  datatype Choice = Choice(ok: bool, now: nat)

  datatype Action =
    | Open(sid: nat, peer: string)
    | Receive(sid: nat, m: Msg)
    | Advance(sid: nat, choice: Choice)
    | Rest(op: Op)
    | Close(sid: nat)
    | FinishClose(sid: nat)

  const INITIAL := State(START, map[], [], 0)

  // ----- Handlers ---------------------------------------------------------------------------

  // One step of a handler: the registry and the holder it leaves, what it does next and what it logs.
  datatype Outcome = Outcome(reg: Reg, holder: Option<string>, task: Task, events: seq<Event>)

  function First(h: nat, m: Msg): Task {
    match m
    case CallRequest(_, _, _, _) => Fresh(h, m, Limit)
    case PeerRegister(_) => Fresh(h, m, Limit)
    case PeerUnregister(_) => Fresh(h, m, Remove)
    case _ => Fresh(h, m, Lookup)
  }

  // Who may send a message about a call; a session without a peer id passes every check.
  predicate Allowed(m: Msg, c: Call, sender: Option<string>) {
    sender.None? ||
    match m
    case CallAccept(_, _) => sender.value == c.calleeId
    case CallReject(_, _) => sender.value == c.calleeId
    case _ => sender.value == c.callerId || sender.value == c.calleeId
  }

  function Other(c: Call, sender: Option<string>): string {
    if sender == Some(c.callerId) then c.calleeId else c.callerId
  }

  function NewCall(m: Msg): Call
    requires m.CallRequest?
  {
    Call(m.callId, m.caller, m.callee, 0, None, None, 0)
  }

  function ForwardType(m: Msg): nat
    requires !m.PeerRegister? && !m.PeerUnregister?
  {
    match m
    case CallRequest(_, _, _, _) => CALL_REQUEST_SC
    case CallAccept(_, _) => CALL_ACCEPT_SC
    case CallReject(_, _) => CALL_REJECT_SC
    case CallFailed(_, _, _, _) => CALL_FAILED
    case CallEnded(_, _) => CALL_ENDED_TYPE
  }

  function Recipient(m: Msg, c: Call, sender: Option<string>): string {
    match m
    case CallRequest(_, _, _, _) => c.calleeId
    case CallAccept(_, _) => c.callerId
    case CallReject(_, _) => c.callerId
    case _ => Other(c, sender)
  }

  // `send_to_peer`: look the peer up and push the frame into its channel.
  function Send(r: Reg, h: nat, to: string, frame: Frame, ok: bool): (Reg, bool, seq<Event>) {
    var (r', d) := Route(r, to);
    if d.To? && ok then (r', true, [Sent(h, to, frame)]) else (r', false, [])
  }

  function FreshStep(r: Reg, holder: Option<string>, t: Task, choice: Choice, sid: nat): Outcome
    requires t.Fresh?
  {
    var Fresh(h, m, stage) := t;
    var stop := Outcome(r, holder, Idle, []);
    match m
    case CallRequest(_, id, caller, callee) => (
      match stage
      case Limit => if choice.ok then stop.(task := Fresh(h, m, Check)) else stop
      case Check =>
        if holder.Some? && holder.value != caller then stop
        else stop.(task := Fresh(h, m, Create), events := [Authorized(h, holder)])
      case Create =>
        var call := NewCall(m);
        var (r', created) := CreateCall(r, call);
        if created.CreatedOk?
        then Outcome(r', holder, Known(h, m, Deliver, call, holder), [Saw(h, call)])
        else stop.(reg := r')
      case _ => stop
    )
    case PeerRegister(info) => (
      match stage
      case Limit => if choice.ok then stop.(task := Fresh(h, m, Check)) else stop
      case Check => stop.(holder := Some(info.peerId), task := Fresh(h, m, Create))
      case _ => stop.(reg := RegisterPeer(r, info, Some(sid)))
    )
    case PeerUnregister(id) => (
      match stage
      case Remove => stop.(reg := UnregisterPeer(r, id), task := Fresh(h, m, Check))
      case _ => stop.(holder := None)
    )
    case _ =>
      var (r', found) := GetCall(r, m.callId);
      if found.Some?
      then Outcome(r', holder, Known(h, m, Check, found.value, holder), [Saw(h, found.value)])
      else stop.(reg := r')
  }

  function KnownStep(r: Reg, holder: Option<string>, t: Task, choice: Choice, maxAttempts: nat): Outcome
    requires t.Known? && !t.m.PeerRegister? && !t.m.PeerUnregister?
  {
    var Known(h, m, stage, c, sender) := t;
    var id := m.callId;
    var stop := Outcome(r, holder, Idle, []);
    match stage
    case Check =>
      if !Allowed(m, c, holder) then stop else
      var next := if m.CallAccept? then Update else if m.CallReject? then End else Deliver;
      stop.(task := Known(h, m, next, c, holder), events := [Authorized(h, holder)])
    case Update =>
      var (r', found) := UpdateCallState(r, id, 1);
      if found then stop.(reg := r', task := Known(h, m, Reread, c, sender)) else stop.(reg := r')
    case Reread =>
      var (r', found) := GetCall(r, id);
      if found.Some?
      then Outcome(r', holder, Known(h, m, Deliver, found.value, sender), [Saw(h, found.value)])
      else stop.(reg := r')
    case Deliver =>
      var (r', sent, events) := Send(r, h, Recipient(m, c, sender), Forward(ForwardType(m), m.payload), choice.ok);
      var next :=
        match m
        case CallRequest(_, _, _, _) => if sent then Idle else Known(h, m, Remove, c, sender)
        case CallAccept(_, _) => Idle
        case CallReject(_, _) => Known(h, m, Remove, c, sender)
        case CallFailed(_, _, reason, _) =>
          Known(h, m, if reason == 3 || reason == 4 then PickRelay else if Retryable(reason) then Retry else End,
                c, sender)
        case CallEnded(_, _) => Known(h, m, End, c, sender);
      Outcome(r', holder, next, events)
    case PickRelay => stop.(task := Known(h, m, if choice.ok then RelayCaller else Retry, c, sender))
    case RelayCaller =>
      var (r', sent, events) := Send(r, h, c.callerId, RelayNeeded(id), choice.ok);
      Outcome(r', holder, Known(h, m, if sent then RelayCallee else Retry, c, sender), events)
    case RelayCallee =>
      var (r', sent, events) := Send(r, h, c.calleeId, RelayNeeded(id), choice.ok);
      Outcome(r', holder, Known(h, m, if sent then End else Retry, c, sender), events)
    case Retry =>
      if m.CallFailed? && c.retryCount < maxAttempts then
        var frame := PushRetry(id, c.callerId, c.calleeId, m.reason, c.retryCount + 1);
        var (r', sent, events) := Send(r, h, Other(c, sender), frame, choice.ok);
        Outcome(r', holder, Known(h, m, Wake, c, sender), events)
      else stop.(task := Known(h, m, End, c, sender))
    case Wake => stop.(reg := GetPeer(r, Other(c, sender)).0, task := Known(h, m, End, c, sender))
    case End =>
      var why := match m
        case CallReject(_, _) => Some("rejected")
        case CallFailed(_, _, _, description) => Some(description)
        case _ => None;
      var next := match m
        case CallReject(_, _) => Known(h, m, Deliver, c, sender)
        case CallEnded(_, _) => Known(h, m, Remove, c, sender)
        case _ => Idle;
      stop.(reg := EndCall(r, id, choice.now, why).0, task := next)
    case Remove => stop.(reg := RemoveCall(r, id))
    case _ => stop
  }

  // ----- The whole server -------------------------------------------------------------------

  function Step(s: State, a: Action, maxAttempts: nat): State {
    match a
    case Open(sid, peer) =>
      if sid in s.sessions then s else s.(sessions := s.sessions[sid := Session(Some(peer), Idle, false, false)])
    case Receive(sid, m) =>
      if sid !in s.sessions || !s.sessions[sid].task.Idle? then s else
      s.(sessions := s.sessions[sid := s.sessions[sid].(task := First(s.next, m))],
         log := s.log + [Received(s.next, m)], next := s.next + 1)
    case Advance(sid, choice) =>
      if sid !in s.sessions then s else
      var session := s.sessions[sid];
      var t := session.task;
      if t.Idle? || (t.Known? && (t.m.PeerRegister? || t.m.PeerUnregister?)) then s else
      var o := if t.Fresh? then FreshStep(s.reg, session.holder, t, choice, sid)
               else KnownStep(s.reg, session.holder, t, choice, maxAttempts);
      s.(reg := o.reg, sessions := s.sessions[sid := session.(holder := o.holder, task := o.task)],
         log := s.log + o.events)
    case Rest(op) => if RestOp(op) then s.(reg := Apply(s.reg, op)) else s
    case Close(sid) =>
      if sid !in s.sessions || s.sessions[sid].disconnected then s else
      s.(sessions := s.sessions[sid := s.sessions[sid].(disconnected := true, closing := true)])
    case FinishClose(sid) =>
      if sid !in s.sessions || !s.sessions[sid].closing then s else
      var session := s.sessions[sid];
      s.(reg := if session.holder.Some? then DisconnectPeer(s.reg, session.holder.value) else s.reg,
         sessions := s.sessions[sid := session.(closing := false)],
         log := s.log + [Disconnected(sid)])
  }

  // The REST handlers register (without a channel), look up and unregister peers.
  predicate RestOp(op: Op) {
    op.OpGetPeer? || op.OpUnregister? || (op.OpRegister? && op.sender.None?)
  }

  function Reach(actions: seq<Action>, maxAttempts: nat): State {
    if actions == [] then INITIAL
    else Step(Reach(actions[..|actions| - 1], maxAttempts), actions[|actions| - 1], maxAttempts)
  }

  // ----- Every step is one registry operation at most ---------------------------------------

  predicate AboutCall(m: Msg) {
    !m.PeerRegister? && !m.PeerUnregister?
  }

  // The registry operation that a step makes, if any: by the message and how far its handler is.
  function FreshOps(m: Msg, stage: Stage, sid: nat): seq<Op> {
    if m.CallRequest? then (if stage.Create? then [OpCreate(NewCall(m))] else [])
    else if m.PeerRegister? then (if stage.Limit? || stage.Check? then [] else [OpRegister(m.info, Some(sid))])
    else if m.PeerUnregister? then (if stage.Remove? then [OpUnregister(m.peerId)] else [])
    else [OpGetCall(m.callId)]
  }

  function KnownOps(t: Task, choice: Choice, maxAttempts: nat): seq<Op>
    requires t.Known? && AboutCall(t.m)
  {
    var m, c, id := t.m, t.call, t.m.callId;
    match t.stage
    case Update => [OpSetState(id, 1)]
    case Reread => [OpGetCall(id)]
    case Deliver => [OpRoute(Recipient(m, c, t.sender))]
    case RelayCaller => [OpRoute(c.callerId)]
    case RelayCallee => [OpRoute(c.calleeId)]
    case Retry => if m.CallFailed? && c.retryCount < maxAttempts then [OpRoute(Other(c, t.sender))] else []
    case Wake => [OpGetPeer(Other(c, t.sender))]
    case End => [OpEnd(id, choice.now, if m.CallReject? then Some("rejected")
                                       else if m.CallFailed? then Some(m.description) else None)]
    case Remove => [OpRemove(id)]
    case _ => []
  }

  function StepOps(s: State, a: Action, maxAttempts: nat): seq<Op> {
    match a
    case Rest(op) => if RestOp(op) then [op] else []
    case FinishClose(sid) =>
      if sid in s.sessions && s.sessions[sid].closing && s.sessions[sid].holder.Some?
      then [OpDisconnect(s.sessions[sid].holder.value)] else []
    case Advance(sid, choice) =>
      if sid !in s.sessions then [] else
      var t := s.sessions[sid].task;
      if t.Fresh? then FreshOps(t.m, t.stage, sid)
      else if t.Known? && AboutCall(t.m) then KnownOps(t, choice, maxAttempts) else []
    case _ => []
  }

  // The registry operations of an interleaving, in order.
  function OpsOf(actions: seq<Action>, maxAttempts: nat): seq<Op> {
    if actions == [] then [] else
    var before := actions[..|actions| - 1];
    OpsOf(before, maxAttempts) + StepOps(Reach(before, maxAttempts), actions[|actions| - 1], maxAttempts)
  }

  function ApplyAll(r: Reg, ops: seq<Op>): Reg
    requires |ops| <= 1
  {
    if ops == [] then r else Apply(r, ops[0])
  }

  lemma StepIsRegOp(s: State, a: Action, maxAttempts: nat)
    ensures |StepOps(s, a, maxAttempts)| <= 1
    ensures Step(s, a, maxAttempts).reg == ApplyAll(s.reg, StepOps(s, a, maxAttempts))
  {
    if a.Advance? && a.sid in s.sessions {
      var t, holder := s.sessions[a.sid].task, s.sessions[a.sid].holder;
      if t.Fresh? {
        FreshStepOp(s.reg, holder, t, a.choice, a.sid);
      } else if t.Known? && AboutCall(t.m) {
        KnownStepOp(s.reg, holder, t, a.choice, maxAttempts);
      }
      hide FreshStep, KnownStep, FreshOps, KnownOps, Apply;
    }
  }

  lemma FreshStepOp(r: Reg, holder: Option<string>, t: Task, choice: Choice, sid: nat)
    requires t.Fresh?
    ensures |FreshOps(t.m, t.stage, sid)| <= 1
    ensures FreshStep(r, holder, t, choice, sid).reg == ApplyAll(r, FreshOps(t.m, t.stage, sid))
  {
  }

  lemma KnownStepOp(r: Reg, holder: Option<string>, t: Task, choice: Choice, maxAttempts: nat)
    requires t.Known? && AboutCall(t.m)
    ensures |KnownOps(t, choice, maxAttempts)| <= 1
    ensures KnownStep(r, holder, t, choice, maxAttempts).reg == ApplyAll(r, KnownOps(t, choice, maxAttempts))
  {
    hide Route, GetCall, UpdateCallState, EndCall, RemoveCall, GetPeer;
  }

  // Every interleaving is the run of its registry operations, so all that holds of those runs holds here.
  lemma {:induction false} ReachIsRun(actions: seq<Action>, maxAttempts: nat)
    ensures Run(OpsOf(actions, maxAttempts)) == Reach(actions, maxAttempts).reg
  {
    hide Step, StepOps, Apply;
    if actions == [] {
    } else {
      var before, a := actions[..|actions| - 1], actions[|actions| - 1];
      ReachIsRun(before, maxAttempts);
      StepIsRegOp(Reach(before, maxAttempts), a, maxAttempts);
      var earlier, last := OpsOf(before, maxAttempts), StepOps(Reach(before, maxAttempts), a, maxAttempts);
      if last == [] {
        assert earlier + last == earlier;
      } else {
        assert (earlier + last)[..|earlier + last| - 1] == earlier;
      }
    }
  }

  // In every interleaving: both registries within capacity, entries under their own ids.
  lemma RegistriesStayOk(actions: seq<Action>, maxAttempts: nat)
    ensures RegOk(Reach(actions, maxAttempts).reg)
  {
    ReachIsRun(actions, maxAttempts);
    RunKeepsOk(OpsOf(actions, maxAttempts));
  }

  // In every interleaving: while a call stays registered its caller and callee do not change.
  lemma {:induction false} PartiesFixed(actions: seq<Action>, maxAttempts: nat, i: nat, j: nat, id: string)
    requires i <= j <= |actions|
    requires forall k | i <= k <= j :: id in Reach(actions[..k], maxAttempts).reg.calls.items
    ensures SameParties(Reach(actions[..i], maxAttempts).reg.calls.items[id],
                        Reach(actions[..j], maxAttempts).reg.calls.items[id])
    decreases j
  {
    if i == j {
    } else {
      PartiesFixed(actions, maxAttempts, i, j - 1, id);
      var s, s' := Reach(actions[..j - 1], maxAttempts), Reach(actions[..j], maxAttempts);
      assert actions[..j][..j - 1] == actions[..j - 1];
      assert id in s.reg.calls.items && id in s'.reg.calls.items;
      StepIsRegOp(s, actions[j - 1], maxAttempts);
      var ops := StepOps(s, actions[j - 1], maxAttempts);
      if ops != [] {
        StepKeepsParties(s.reg, ops[0], id);
      }
    }
  }

  // In every interleaving: a step loses a call only by removing it, or because at least 1,000 distinct
  // other calls have been created or touched by the actions so far since it was last touched.
  lemma CallLost(actions: seq<Action>, a: Action, maxAttempts: nat, id: string)
    requires id in Reach(actions, maxAttempts).reg.calls.items
    requires id !in Step(Reach(actions, maxAttempts), a, maxAttempts).reg.calls.items
    ensures StepOps(Reach(actions, maxAttempts), a, maxAttempts) == [OpRemove(id)] ||
            (var others := UsedSince(Uses(OpsOf(actions + [a], maxAttempts)), id);
             |others| >= CALL_CAPACITY && id !in others)
  {
    hide Step, StepOps;
    var s := Reach(actions, maxAttempts);
    ReachIsRun(actions, maxAttempts);
    StepIsRegOp(s, a, maxAttempts);
    assert (actions + [a])[..|actions|] == actions;
    var ops, last := OpsOf(actions, maxAttempts), StepOps(s, a, maxAttempts);
    assert OpsOf(actions + [a], maxAttempts) == ops + last;
    if last != [] {
      assert last == [last[0]];
      CallLostOnlyWhenFull(ops, last[0], id);
    }
  }

  // ----- Who gets which frame ---------------------------------------------------------------

  // Who is entitled to send a message about a call, unless the session has given up its peer id: the
  // caller may ask, the callee may answer, and both may end it.
  predicate Entitled(m: Msg, c: Call, sender: Option<string>) {
    sender.Some? ==>
      && (m.CallRequest? ==> sender.value == c.callerId)
      && (m.CallAccept? || m.CallReject? ==> sender.value == c.calleeId)
      && (m.CallFailed? || m.CallEnded? ==> sender.value in {c.callerId, c.calleeId})
  }

  // The party that is told what the sender of the message did.
  predicate IsOtherParty(c: Call, sender: Option<string>, to: string) {
    if sender == Some(c.callerId) then to == c.calleeId else to == c.callerId
  }

  // A frame that a handler for message `m` may send to `to`, having seen `c` in the registry while
  // its session belonged to `sender`.
  predicate FrameOk(m: Msg, c: Call, sender: Option<string>, to: string, frame: Frame, maxAttempts: nat) {
    && AboutCall(m) && c.callId == m.callId && (to == c.callerId || to == c.calleeId)
    && match frame
       case Forward(typeId, payload) => (
         && payload == m.payload
         && match m
            case CallRequest(_, _, caller, callee) =>
              typeId == 0x0002 && to == callee == c.calleeId && caller == c.callerId
            case CallAccept(_, _) => typeId == 0x0004 && to == c.callerId
            case CallReject(_, _) => typeId == 0x0006 && to == c.callerId
            case CallFailed(_, _, _, _) => typeId == 0x0007 && IsOtherParty(c, sender, to)
            case CallEnded(_, _) => typeId == 0x0008 && IsOtherParty(c, sender, to)
         )
       case RelayNeeded(id) => m.CallFailed? && m.reason in {3, 4} && id == m.callId
       case PushRetry(id, caller, callee, reason, attempt) =>
         && m.CallFailed? && m.reason in {3, 4, 7} && IsOtherParty(c, sender, to)
         && id == m.callId && caller == c.callerId && callee == c.calleeId && reason == m.reason
         && attempt == c.retryCount + 1 <= maxAttempts
  }

  // The session passed its check against a call that the same handler had seen under the same id.
  ghost predicate Cleared(log: seq<Event>, h: nat, m: Msg, sender: Option<string>) {
    AboutCall(m) && Authorized(h, sender) in log &&
    (if m.CallRequest? then sender.None? || sender.value == m.caller
     else exists c :: Saw(h, c) in log && c.callId == m.callId && Entitled(m, c, sender))
  }

  ghost predicate Justified(
    log: seq<Event>, h: nat, to: string, frame: Frame, maxAttempts: nat, m: Msg, c: Call, sender: Option<string>)
  {
    && Received(h, m) in log && Saw(h, c) in log && Cleared(log, h, m, sender)
    && FrameOk(m, c, sender, to, frame, maxAttempts)
    && (!m.CallAccept? ==> Entitled(m, c, sender))
  }

  ghost predicate SentOk(log: seq<Event>, i: nat, maxAttempts: nat)
    requires i < |log|
  {
    log[i].Sent? ==>
      exists m, c, sender :: Justified(log[..i], log[i].h, log[i].to, log[i].frame, maxAttempts, m, c, sender)
  }

  ghost predicate TaskOk(log: seq<Event>, holder: Option<string>, t: Task) {
    match t
    case Idle => true
    case Fresh(h, m, stage) =>
      && Received(h, m) in log
      && (m.CallRequest? && stage.Create? ==> Cleared(log, h, m, holder))
    case Known(h, m, stage, c, sender) =>
      && AboutCall(m) && Received(h, m) in log && Saw(h, c) in log && c.callId == m.callId
      && (m.CallRequest? ==> SameParties(c, NewCall(m)))
      && (stage.Check? ==> !m.CallRequest?)
      && (stage.Update? || stage.Reread? ==> m.CallAccept?)
      && (!stage.Check? ==> Cleared(log, h, m, sender) && (!m.CallAccept? ==> Entitled(m, c, sender)))
      && (stage.PickRelay? || stage.RelayCaller? || stage.RelayCallee? ==>
            m.CallFailed? && (m.reason == 3 || m.reason == 4))
      && (stage.Retry? ==> m.CallFailed? && Retryable(m.reason))
  }

  lemma TaskOkGrows(log: seq<Event>, more: seq<Event>, holder: Option<string>, t: Task)
    requires TaskOk(log, holder, t)
    ensures TaskOk(log + more, holder, t)
  {
    if t.Fresh? && t.m.CallRequest? && t.stage.Create? {
      ClearedGrows(log, more, t.h, t.m, holder);
    } else if t.Known? && !t.stage.Check? {
      ClearedGrows(log, more, t.h, t.m, t.sender);
    }
  }

  lemma ClearedGrows(log: seq<Event>, more: seq<Event>, h: nat, m: Msg, sender: Option<string>)
    requires Cleared(log, h, m, sender)
    ensures Cleared(log + more, h, m, sender)
  {
    if !m.CallRequest? {
      var c :| Saw(h, c) in log && c.callId == m.callId && Entitled(m, c, sender);
      assert Saw(h, c) in log + more;
    }
  }

  // One handler step keeps its handler justified, and justifies the frame it sends.
  lemma FreshStepOk(r: Reg, holder: Option<string>, t: Task, choice: Choice, sid: nat, log: seq<Event>)
    requires RegOk(r) && t.Fresh? && TaskOk(log, holder, t)
    ensures var o := FreshStep(r, holder, t, choice, sid);
      && TaskOk(log + o.events, o.holder, o.task)
      && forall e | e in o.events :: !e.Sent? && !e.Received? && !e.Disconnected?
  {
    var o := FreshStep(r, holder, t, choice, sid);
    if t.m.CallRequest? && t.stage.Create? {
      ClearedGrows(log, o.events, t.h, t.m, holder);
    }
  }

  lemma KnownStepTask(r: Reg, holder: Option<string>, t: Task, choice: Choice, maxAttempts: nat, log: seq<Event>)
    requires RegOk(r) && t.Known? && TaskOk(log, holder, t)
    ensures var o := KnownStep(r, holder, t, choice, maxAttempts);
      TaskOk(log + o.events, o.holder, o.task)
  {
    hide KnownStep;
    if t.stage.Check? || t.stage.Reread? {
      SeeingStepTask(r, holder, t, choice, maxAttempts, log);
    } else {
      OtherStepTask(r, holder, t, choice, maxAttempts, log);
      var o := KnownStep(r, holder, t, choice, maxAttempts);
      TaskOkGrows(log, o.events, o.holder, o.task);
    }
  }

  lemma SeeingStepTask(r: Reg, holder: Option<string>, t: Task, choice: Choice, maxAttempts: nat, log: seq<Event>)
    requires RegOk(r) && t.Known? && (t.stage.Check? || t.stage.Reread?) && TaskOk(log, holder, t)
    ensures var o := KnownStep(r, holder, t, choice, maxAttempts);
      TaskOk(log + o.events, o.holder, o.task)
  {
    var o := KnownStep(r, holder, t, choice, maxAttempts);
    if t.stage.Reread? {
      ClearedGrows(log, o.events, t.h, t.m, t.sender);
    } else if Allowed(t.m, t.call, holder) {
      assert Saw(t.h, t.call) in log + o.events;
    }
  }

  lemma OtherStepTask(r: Reg, holder: Option<string>, t: Task, choice: Choice, maxAttempts: nat, log: seq<Event>)
    requires t.Known? && !t.stage.Check? && !t.stage.Reread? && TaskOk(log, holder, t)
    ensures var o := KnownStep(r, holder, t, choice, maxAttempts); TaskOk(log, o.holder, o.task)
  {
    hide Route, UpdateCallState, EndCall, RemoveCall, GetPeer, Cleared;
  }

  lemma KnownStepFrame(r: Reg, holder: Option<string>, t: Task, choice: Choice, maxAttempts: nat, log: seq<Event>)
    requires RegOk(r) && t.Known? && TaskOk(log, holder, t)
    ensures var events := KnownStep(r, holder, t, choice, maxAttempts).events;
      && |events| <= 1
      && forall e | e in events :: !e.Received? && !e.Disconnected? &&
           (e.Sent? ==> Justified(log, e.h, e.to, e.frame, maxAttempts, t.m, t.call, t.sender))
  {
  }

  function Disconnects(log: seq<Event>, sid: nat): nat {
    if log == [] then 0 else
    Disconnects(log[..|log| - 1], sid) + (if log[|log| - 1] == Disconnected(sid) then 1 else 0)
  }

  lemma {:induction false} DisconnectsAppend(log: seq<Event>, more: seq<Event>, sid: nat)
    requires forall e | e in more :: !e.Disconnected?
    ensures Disconnects(log + more, sid) == Disconnects(log, sid)
  {
    if more == [] {
      assert log + more == log;
    } else {
      var k := |more| - 1;
      assert (log + more)[..|log + more| - 1] == log + more[..k];
      DisconnectsAppend(log, more[..k], sid);
    }
  }

  // ----- The invariant of every interleaving ------------------------------------------------

  ghost predicate TasksOk(s: State) {
    forall sid | sid in s.sessions :: TaskOk(s.log, s.sessions[sid].holder, s.sessions[sid].task)
  }

  ghost predicate LogOk(log: seq<Event>, maxAttempts: nat) {
    forall i | 0 <= i < |log| :: SentOk(log, i, maxAttempts)
  }

  // A handler id stands for one received message.
  ghost predicate IdsOk(s: State) {
    && (forall e | e in s.log && e.Received? :: e.h < s.next)
    && (forall e, e' | e in s.log && e' in s.log && e.Received? && e'.Received? && e.h == e'.h :: e == e')
  }

  // Exactly one of the two tasks of a session that ends disconnects its peer.
  ghost predicate ClosingOk(s: State, sid: nat) {
    if sid !in s.sessions then Disconnects(s.log, sid) == 0
    else Disconnects(s.log, sid) + (if s.sessions[sid].closing then 1 else 0)
         == (if s.sessions[sid].disconnected then 1 else 0)
  }

  lemma LogOkGrows(log: seq<Event>, more: seq<Event>, maxAttempts: nat)
    requires LogOk(log, maxAttempts) && |more| <= 1
    requires more != [] && more[0].Sent? ==> exists m, c, sender ::
               Justified(log, more[0].h, more[0].to, more[0].frame, maxAttempts, m, c, sender)
    ensures LogOk(log + more, maxAttempts)
  {
    forall i | 0 <= i < |log + more|
      ensures SentOk(log + more, i, maxAttempts)
    {
      if i < |log| {
        assert SentOk(log, i, maxAttempts) && (log + more)[i] == log[i] && (log + more)[..i] == log[..i];
      } else {
        assert (log + more)[..i] == log;
      }
    }
  }

  lemma AdvanceOk(s: State, sid: nat, choice: Choice, maxAttempts: nat) returns (more: seq<Event>)
    requires RegOk(s.reg) && TasksOk(s) && LogOk(s.log, maxAttempts)
    ensures TasksOk(Step(s, Advance(sid, choice), maxAttempts))
    ensures LogOk(Step(s, Advance(sid, choice), maxAttempts).log, maxAttempts)
    ensures Step(s, Advance(sid, choice), maxAttempts).log == s.log + more
    ensures forall e | e in more :: !e.Received? && !e.Disconnected?
  {
    var s' := Step(s, Advance(sid, choice), maxAttempts);
    more := [];
    if sid in s.sessions && !s.sessions[sid].task.Idle? {
      var session := s.sessions[sid];
      if session.task.Fresh? {
        FreshStepOk(s.reg, session.holder, session.task, choice, sid, s.log);
        more := FreshStep(s.reg, session.holder, session.task, choice, sid).events;
      } else {
        KnownStepTask(s.reg, session.holder, session.task, choice, maxAttempts, s.log);
        KnownStepFrame(s.reg, session.holder, session.task, choice, maxAttempts, s.log);
        more := KnownStep(s.reg, session.holder, session.task, choice, maxAttempts).events;
      }
      LogOkGrows(s.log, more, maxAttempts);
      forall other | other in s'.sessions && other != sid
        ensures TaskOk(s'.log, s'.sessions[other].holder, s'.sessions[other].task)
      {
        TaskOkGrows(s.log, more, s.sessions[other].holder, s.sessions[other].task);
      }
    }
    assert s'.log == s.log + more;
  }

  lemma OtherStepsOk(s: State, a: Action, maxAttempts: nat)
    requires TasksOk(s) && LogOk(s.log, maxAttempts) && !a.Advance?
    ensures TasksOk(Step(s, a, maxAttempts)) && LogOk(Step(s, a, maxAttempts).log, maxAttempts)
  {
    var s' := Step(s, a, maxAttempts);
    var more := s'.log[|s.log|..];
    assert s'.log == s.log + more;
    LogOkGrows(s.log, more, maxAttempts);
    forall sid | sid in s'.sessions
      ensures TaskOk(s'.log, s'.sessions[sid].holder, s'.sessions[sid].task)
    {
      if sid in s.sessions {
        TaskOkGrows(s.log, more, s.sessions[sid].holder, s.sessions[sid].task);
      }
    }
  }

  lemma IdsStepOk(s: State, a: Action, maxAttempts: nat)
    requires RegOk(s.reg) && TasksOk(s) && LogOk(s.log, maxAttempts) && IdsOk(s)
    ensures IdsOk(Step(s, a, maxAttempts))
  {
    if a.Advance? {
      var _ := AdvanceOk(s, a.sid, a.choice, maxAttempts);
    }
  }

  predicate SameFlags(s: State, s': State, sid: nat) {
    if sid in s.sessions
    then sid in s'.sessions && s'.sessions[sid].closing == s.sessions[sid].closing
         && s'.sessions[sid].disconnected == s.sessions[sid].disconnected
    else sid !in s'.sessions
  }

  lemma AdvanceKeepsFlags(s: State, a: Action, maxAttempts: nat, sid: nat)
    requires a.Advance?
    ensures SameFlags(s, Step(s, a, maxAttempts), sid)
  {
  }

  lemma ClosingStepOk(s: State, a: Action, maxAttempts: nat, sid: nat)
    requires !a.Advance? && ClosingOk(s, sid)
    ensures ClosingOk(Step(s, a, maxAttempts), sid)
  {
    var s' := Step(s, a, maxAttempts);
    if a.Receive? && s' != s {
      DisconnectsAppend(s.log, [Received(s.next, a.m)], sid);
    } else if a.FinishClose? && s' != s {
      assert s'.log[..|s'.log| - 1] == s.log;
    }
  }

  lemma ClosingUnchanged(s: State, s': State, more: seq<Event>, sid: nat)
    requires ClosingOk(s, sid) && SameFlags(s, s', sid) && s'.log == s.log + more
    requires forall e | e in more :: !e.Disconnected?
    ensures ClosingOk(s', sid)
  {
    DisconnectsAppend(s.log, more, sid);
  }

  lemma {:induction false} InvariantHolds(actions: seq<Action>, maxAttempts: nat)
    ensures var s := Reach(actions, maxAttempts);
      && RegOk(s.reg) && TasksOk(s) && LogOk(s.log, maxAttempts) && IdsOk(s)
      && forall sid :: ClosingOk(s, sid)
  {
    RegistriesStayOk(actions, maxAttempts);
    if actions == [] {
    } else {
      var before, a := actions[..|actions| - 1], actions[|actions| - 1];
      InvariantHolds(before, maxAttempts);
      var s := Reach(before, maxAttempts);
      IdsStepOk(s, a, maxAttempts);
      if a.Advance? {
        var more := AdvanceOk(s, a.sid, a.choice, maxAttempts);
        forall sid
          ensures ClosingOk(Step(s, a, maxAttempts), sid)
        {
          AdvanceKeepsFlags(s, a, maxAttempts, sid);
          ClosingUnchanged(s, Step(s, a, maxAttempts), more, sid);
        }
      } else {
        OtherStepsOk(s, a, maxAttempts);
        forall sid
          ensures ClosingOk(Step(s, a, maxAttempts), sid)
        {
          ClosingStepOk(s, a, maxAttempts, sid);
        }
      }
    }
  }

  // ----- What a handler sees was registered -------------------------------------------------

  // `c` is the registry's entry under its id after the first `k` actions.
  ghost predicate RegisteredAt(actions: seq<Action>, maxAttempts: nat, k: nat, c: Call) {
    && k <= |actions|
    && var calls := Reach(actions[..k], maxAttempts).reg.calls.items;
       c.callId in calls && calls[c.callId] == c
  }

  lemma StepLogs(s: State, a: Action, maxAttempts: nat) returns (more: seq<Event>)
    requires RegOk(s.reg)
    ensures |more| <= 1 && Step(s, a, maxAttempts).log == s.log + more
    ensures forall e | e in more && e.Saw? ::
              var calls := Step(s, a, maxAttempts).reg.calls.items; e.call.callId in calls && calls[e.call.callId] == e.call
  {
    var s' := Step(s, a, maxAttempts);
    more := s'.log[|s.log|..];
    if a.Advance? && a.sid in s.sessions {
      var t, holder := s.sessions[a.sid].task, s.sessions[a.sid].holder;
      if t.Fresh? {
        FreshStepSees(s.reg, holder, t, a.choice, a.sid);
      } else if t.Known? && AboutCall(t.m) {
        KnownStepSees(s.reg, holder, t, a.choice, maxAttempts);
      }
      hide FreshStep, KnownStep, RegOk;
    }
  }

  predicate SeesEntries(o: Outcome) {
    |o.events| <= 1 &&
    forall e | e in o.events && e.Saw? ::
      e.call.callId in o.reg.calls.items && o.reg.calls.items[e.call.callId] == e.call
  }

  lemma FreshStepSees(r: Reg, holder: Option<string>, t: Task, choice: Choice, sid: nat)
    requires RegOk(r) && t.Fresh?
    ensures SeesEntries(FreshStep(r, holder, t, choice, sid))
  {
  }

  lemma KnownStepSees(r: Reg, holder: Option<string>, t: Task, choice: Choice, maxAttempts: nat)
    requires RegOk(r) && t.Known? && AboutCall(t.m)
    ensures SeesEntries(KnownStep(r, holder, t, choice, maxAttempts))
  {
    hide Route, UpdateCallState, EndCall, RemoveCall, GetPeer;
  }

  lemma {:induction false} SawWasRegistered(actions: seq<Action>, maxAttempts: nat, h: nat, c: Call) returns (k: nat)
    requires Saw(h, c) in Reach(actions, maxAttempts).log
    ensures RegisteredAt(actions, maxAttempts, k, c)
  {
    hide Step;
    var n := |actions| - 1;
    RegistriesStayOk(actions[..n], maxAttempts);
    var s := Reach(actions[..n], maxAttempts);
    var more := StepLogs(s, actions[n], maxAttempts);
    if Saw(h, c) in s.log {
      k := SawWasRegistered(actions[..n], maxAttempts, h, c);
      assert actions[..n][..k] == actions[..k];
    } else {
      k := |actions|;
      assert actions[..k] == actions;
    }
  }

  // The action that logs the i-th event.
  lemma {:induction false} LoggedBy(actions: seq<Action>, maxAttempts: nat, i: nat) returns (a: nat)
    requires i < |Reach(actions, maxAttempts).log|
    ensures a < |actions| && Reach(actions[..a], maxAttempts).log == Reach(actions, maxAttempts).log[..i]
  {
    hide Step;
    var n := |actions| - 1;
    RegistriesStayOk(actions[..n], maxAttempts);
    var s := Reach(actions[..n], maxAttempts);
    var more := StepLogs(s, actions[n], maxAttempts);
    if i < |s.log| {
      a := LoggedBy(actions[..n], maxAttempts, i);
      assert actions[..n][..a] == actions[..a];
    } else {
      a := n;
    }
  }

  ghost predicate Uncounted(r: Reg) {
    forall id | id in r.calls.items :: r.calls.items[id].retryCount == 0
  }

  // The server never counts a retry: every registered call has used none.
  lemma {:induction false} NoRetryCounted(actions: seq<Action>, maxAttempts: nat)
    ensures Uncounted(Reach(actions, maxAttempts).reg)
  {
    hide Step;
    if actions == [] {
    } else {
      var before, a := actions[..|actions| - 1], actions[|actions| - 1];
      NoRetryCounted(before, maxAttempts);
      var s := Reach(before, maxAttempts);
      StepIsRegOp(s, a, maxAttempts);
      StepCountsNothing(s, a, maxAttempts);
      var ops := StepOps(s, a, maxAttempts);
      if ops != [] {
        OpCountsNothing(s.reg, ops[0]);
      }
    }
  }

  lemma StepCountsNothing(s: State, a: Action, maxAttempts: nat)
    ensures forall op | op in StepOps(s, a, maxAttempts) && op.OpCreate? :: op.call.retryCount == 0
  {
  }

  lemma OpCountsNothing(r: Reg, op: Op)
    requires Uncounted(r) && (op.OpCreate? ==> op.call.retryCount == 0)
    ensures Uncounted(Apply(r, op))
  {
  }

  // In every interleaving, each frame about a call goes to a participant of a call with the id of the
  // message being handled; that call was in the registry, and the same handler saw it there, before the
  // action that sends the frame; a forwarded payload is the received one byte for byte; the session had
  // passed its check; and a retry is always announced as the first.
  lemma EveryFrameJustified(actions: seq<Action>, maxAttempts: nat, i: nat)
    returns (a: nat, k: nat, m: Msg, c: Call, sender: Option<string>)
    requires i < |Reach(actions, maxAttempts).log| && Reach(actions, maxAttempts).log[i].Sent?
    ensures var log := Reach(actions, maxAttempts).log;
      && a < |actions| && Reach(actions[..a], maxAttempts).log == log[..i]
      && Justified(log[..i], log[i].h, log[i].to, log[i].frame, maxAttempts, m, c, sender)
      && (forall m' | Received(log[i].h, m') in log :: m' == m)
      && k <= a && RegisteredAt(actions, maxAttempts, k, c)
      && (log[i].frame.PushRetry? ==> log[i].frame.attempt == 1)
  {
    hide Reach;
    InvariantHolds(actions, maxAttempts);
    var log := Reach(actions, maxAttempts).log;
    assert SentOk(log, i, maxAttempts);
    m, c, sender :| Justified(log[..i], log[i].h, log[i].to, log[i].frame, maxAttempts, m, c, sender);
    assert Received(log[i].h, m) in log;
    a := LoggedBy(actions, maxAttempts, i);
    k := SawWasRegistered(actions[..a], maxAttempts, log[i].h, c);
    assert actions[..a][..k] == actions[..k];
    NoRetryCounted(actions[..k], maxAttempts);
  }

  // Of the two tasks that end a session exactly the one that wins the exchange of the flag disconnects the
  // peer, and it does so once.
  lemma DisconnectedOnce(actions: seq<Action>, maxAttempts: nat, sid: nat)
    ensures var s := Reach(actions, maxAttempts);
      Disconnects(s.log, sid) ==
      if sid in s.sessions && s.sessions[sid].disconnected && !s.sessions[sid].closing then 1 else 0
  {
    hide Reach;
    InvariantHolds(actions, maxAttempts);
    assert ClosingOk(Reach(actions, maxAttempts), sid);
  }

  // Closing a session raises its flag; finishing that leaves the peer it then belongs to, if registered,
  // offline and without a channel. Neither touches any other peer, any call or any running handler.
  lemma ClosingDisconnects(s: State, sid: nat, maxAttempts: nat, other: string)
    requires sid in s.sessions
    ensures var s' := Step(s, Close(sid), maxAttempts);
      s'.reg == s.reg && s'.sessions[sid].disconnected && (!s.sessions[sid].disconnected ==> s'.sessions[sid].closing)
    ensures s.sessions[sid].closing ==>
      var s', session := Step(s, FinishClose(sid), maxAttempts), s.sessions[sid];
      && s'.sessions == s.sessions[sid := session.(closing := false)] && s'.reg.calls == s.reg.calls
      && (session.holder == Some(other) && other in s.reg.peers.items ==>
            var p := s.reg.peers.items[other];
            other in s'.reg.peers.items && s'.reg.peers.items[other] == Peer(p.info.(status := 1), None))
      && (session.holder != Some(other) ==>
            (other in s.reg.peers.items <==> other in s'.reg.peers.items) &&
            (other in s.reg.peers.items ==> s'.reg.peers.items[other] == s.reg.peers.items[other]))
  {
  }
}
