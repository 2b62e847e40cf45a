// What every handler of a message does from its first step to its last
// (crates/voip-signaling/src/session.rs, masque.rs, push.rs): a plan for each message, and the proof that
// in every interleaving each handler follows its plan to the end.

module HandlerPlan {
  import opened Bytes
  import opened Lru
  import opened Registry
  import opened Signaling
  import opened Wrappers

  // ----- The plan ---------------------------------------------------------------------------

  // The stage after `stage`, given whether that one succeeded.
  function NextStage(m: Msg, maxAttempts: nat, stage: Stage, ok: bool): Option<Stage> {
    match m
    case PeerRegister(_) => (
      match stage
      case Limit => if ok then Some(Check) else None
      case Check => Some(Create)
      case _ => None
    )
    case PeerUnregister(_) => if stage.Remove? then Some(Check) else None
    case CallRequest(_, _, _, _) => (
      match stage
      case Limit => if ok then Some(Check) else None
      case Check => if ok then Some(Create) else None
      case Create => if ok then Some(Deliver) else None
      case Deliver => if ok then None else Some(Remove)
      case _ => None
    )
    case CallAccept(_, _) => (
      match stage
      case Lookup => if ok then Some(Check) else None
      case Check => if ok then Some(Update) else None
      case Update => if ok then Some(Reread) else None
      case Reread => if ok then Some(Deliver) else None
      case _ => None
    )
    case CallReject(_, _) => (
      match stage
      case Lookup => if ok then Some(Check) else None
      case Check => if ok then Some(End) else None
      case End => Some(Deliver)
      case Deliver => Some(Remove)
      case _ => None
    )
    case CallEnded(_, _) => (
      match stage
      case Lookup => if ok then Some(Check) else None
      case Check => if ok then Some(Deliver) else None
      case Deliver => Some(End)
      case End => Some(Remove)
      case _ => None
    )
    case CallFailed(_, _, reason, _) => (
      match stage
      case Lookup => if ok then Some(Check) else None
      case Check => if ok then Some(Deliver) else None
      case Deliver => Some(if reason in {3, 4} then PickRelay else if reason == 7 then Retry else End)
      case PickRelay => Some(if ok then RelayCaller else Retry)
      case RelayCaller => Some(if ok then RelayCallee else Retry)
      case RelayCallee => Some(if ok then End else Retry)
      case Retry => Some(if maxAttempts > 0 then Wake else End)
      case Wake => Some(End)
      case _ => None
    )
  }

  function FirstStage(m: Msg): Stage {
    if m.CallRequest? || m.PeerRegister? then Limit else if m.PeerUnregister? then Remove else Lookup
  }

  // The stages at which a handler has no registry entry yet, and those at which it has one.
  predicate Legal(t: Task, h: nat, m: Msg) {
    && !t.Idle? && t.h == h && t.m == m
    && match m
       case PeerRegister(_) => t.Fresh? && (t.stage.Limit? || t.stage.Check? || t.stage.Create?)
       case PeerUnregister(_) => t.Fresh? && (t.stage.Remove? || t.stage.Check?)
       case CallRequest(_, _, _, _) =>
         if t.Fresh? then t.stage.Limit? || t.stage.Check? || t.stage.Create? else t.stage.Deliver? || t.stage.Remove?
       case CallAccept(_, _) =>
         if t.Fresh? then t.stage.Lookup? else t.stage.Check? || t.stage.Update? || t.stage.Reread? || t.stage.Deliver?
       case CallReject(_, _) =>
         if t.Fresh? then t.stage.Lookup? else t.stage.Check? || t.stage.End? || t.stage.Deliver? || t.stage.Remove?
       case CallEnded(_, _) =>
         if t.Fresh? then t.stage.Lookup? else t.stage.Check? || t.stage.Deliver? || t.stage.End? || t.stage.Remove?
       case CallFailed(_, _, _, _) =>
         if t.Fresh? then t.stage.Lookup?
         else t.stage.Check? || t.stage.Deliver? || t.stage.PickRelay? || t.stage.RelayCaller? || t.stage.RelayCallee? ||
              t.stage.Retry? || t.stage.Wake? || t.stage.End?
  }

  function IdOf(m: Msg): string {
    if AboutCall(m) then m.callId else ""
  }

  // Whom a stage addresses.
  function Addressee(t: Task): string
    requires t.Known?
  {
    if t.stage.RelayCaller? then t.call.callerId
    else if t.stage.RelayCallee? then t.call.calleeId
    else if t.m.CallRequest? then t.call.calleeId
    else if t.m.CallAccept? || t.m.CallReject? then t.call.callerId
    else if t.sender == Some(t.call.callerId) then t.call.calleeId
    else t.call.callerId
  }

  predicate Online(r: Reg, peer: string) {
    peer in r.peers.items && r.peers.items[peer].sender.Some?
  }

  // Whether a stage succeeds: what it finds in the registries, who the session belongs to, and the answers
  // of the rate limiter, the relay selection and the channel.
  predicate Succeeds(r: Reg, holder: Option<string>, t: Task, choice: Choice, maxAttempts: nat)
    requires !t.Idle?
  {
    var id := IdOf(t.m);
    match t.stage
    case Limit => choice.ok
    case Check =>
      if t.Known? then Entitled(t.m, t.call, holder)
      else t.m.CallRequest? ==> (holder.Some? ==> holder.value == t.m.caller)
    case Create =>
      t.m.CallRequest? ==> t.m.caller in r.peers.items && t.m.callee in r.peers.items && id !in r.calls.items
    case Lookup => id in r.calls.items
    case Update => id in r.calls.items
    case Reread => id in r.calls.items
    case Deliver => t.Known? && Online(r, Addressee(t)) && choice.ok
    case RelayCaller => t.Known? && Online(r, Addressee(t)) && choice.ok
    case RelayCallee => t.Known? && Online(r, Addressee(t)) && choice.ok
    case Retry => t.Known? && maxAttempts > 0 && Online(r, Addressee(t)) && choice.ok
    case PickRelay => choice.ok
    case _ => true
  }

  // The registry operation of a stage.
  function PlannedOps(t: Task, choice: Choice, maxAttempts: nat, sid: nat): seq<Op>
    requires !t.Idle?
  {
    var m, id := t.m, IdOf(t.m);
    match t.stage
    case Create =>
      if m.CallRequest? then [OpCreate(Call(id, m.caller, m.callee, 0, None, None, 0))]
      else if m.PeerRegister? then [OpRegister(m.info, Some(sid))] else []
    case Lookup => [OpGetCall(id)]
    case Reread => [OpGetCall(id)]
    case Update => [OpSetState(id, 1)]
    case End =>
      [OpEnd(id, choice.now,
             if m.CallReject? then Some("rejected") else if m.CallFailed? then Some(m.description) else None)]
    case Remove => [if m.PeerUnregister? then OpUnregister(m.peerId) else OpRemove(id)]
    case Wake => if t.Known? then [OpGetPeer(Addressee(t))] else []
    case Deliver => if t.Known? then [OpRoute(Addressee(t))] else []
    case RelayCaller => if t.Known? then [OpRoute(Addressee(t))] else []
    case RelayCallee => if t.Known? then [OpRoute(Addressee(t))] else []
    case Retry => if t.Known? && maxAttempts > 0 then [OpRoute(Addressee(t))] else []
    case _ => []
  }

  // The frame of a stage that sends one.
  function PlannedFrame(t: Task): Option<Frame>
    requires t.Known?
  {
    var m := t.m;
    if !AboutCall(m) then None else
    match t.stage
    case Deliver =>
      Some(Forward(if m.CallRequest? then 2 else if m.CallAccept? then 4 else if m.CallReject? then 6
                   else if m.CallFailed? then 7 else 8, m.payload))
    case RelayCaller => Some(RelayNeeded(m.callId))
    case RelayCallee => Some(RelayNeeded(m.callId))
    case Retry =>
      if m.CallFailed? then Some(PushRetry(m.callId, t.call.callerId, t.call.calleeId, m.reason, 1)) else None
    case _ => None
  }

  // What a stage logs, given whether it succeeded.
  function PlannedEvents(r: Reg, holder: Option<string>, t: Task, ok: bool): seq<Event>
    requires !t.Idle?
  {
    var h, m, id := t.h, t.m, IdOf(t.m);
    if !ok || !AboutCall(m) then []
    else if t.stage.Check? then [Authorized(h, holder)]
    else if t.stage.Create? then
      (if m.CallRequest? then [Saw(h, Call(id, m.caller, m.callee, 0, None, None, 0))] else [])
    else if t.stage.Lookup? || t.stage.Reread? then
      (if id in r.calls.items then [Saw(h, r.calls.items[id])] else [])
    else if t.Known? && PlannedFrame(t).Some? then [Sent(h, Addressee(t), PlannedFrame(t).value)]
    else []
  }

  // Registering and unregistering change whom the session belongs to.
  function PlannedHolder(holder: Option<string>, t: Task): Option<string>
    requires !t.Idle?
  {
    if !t.stage.Check? then holder
    else if t.m.PeerRegister? then Some(t.m.info.peerId)
    else if t.m.PeerUnregister? then None
    else holder
  }

  // Where a handler is after a stage.
  predicate Follows(r: Reg, holder: Option<string>, t: Task, ok: bool, maxAttempts: nat, t': Task)
    requires !t.Idle?
  {
    var h, m, id, next := t.h, t.m, IdOf(t.m), NextStage(t.m, maxAttempts, t.stage, ok);
    if next.None? then t' == Idle
    else if t.stage.Lookup? then id in r.calls.items && t' == Known(h, m, next.value, r.calls.items[id], holder)
    else if t.stage.Create? then
      m.CallRequest? && t' == Known(h, m, next.value, Call(id, m.caller, m.callee, 0, None, None, 0), holder)
    else if t.stage.Reread? then
      t.Known? && id in r.calls.items && t' == Known(h, m, next.value, r.calls.items[id], t.sender)
    else if t.stage.Check? && t.Known? then t' == Known(h, m, next.value, t.call, holder)
    else if t.Known? then t' == Known(h, m, next.value, t.call, t.sender)
    else t' == Fresh(h, m, next.value)
  }

  // ----- One step follows the plan ----------------------------------------------------------

  ghost predicate MeetsPlan(r: Reg, holder: Option<string>, t: Task, choice: Choice, maxAttempts: nat, o: Outcome)
    requires !t.Idle?
  {
    var ok := Succeeds(r, holder, t, choice, maxAttempts);
    && Follows(r, holder, t, ok, maxAttempts, o.task) && o.events == PlannedEvents(r, holder, t, ok)
    && o.holder == PlannedHolder(holder, t)
  }

  lemma FreshMeetsPlan(r: Reg, holder: Option<string>, t: Task, choice: Choice, sid: nat, maxAttempts: nat)
    requires t.Fresh? && Legal(t, t.h, t.m)
    ensures MeetsPlan(r, holder, t, choice, maxAttempts, FreshStep(r, holder, t, choice, sid))
    ensures FreshOps(t.m, t.stage, sid) == PlannedOps(t, choice, maxAttempts, sid)
    ensures var t' := FreshStep(r, holder, t, choice, sid).task; t' == Idle || Legal(t', t.h, t.m)
  {
  }

  lemma KnownMeetsPlan(r: Reg, holder: Option<string>, t: Task, choice: Choice, sid: nat, maxAttempts: nat)
    requires t.Known? && Legal(t, t.h, t.m) && t.call.retryCount == 0
    ensures MeetsPlan(r, holder, t, choice, maxAttempts, KnownStep(r, holder, t, choice, maxAttempts))
    ensures KnownOps(t, choice, maxAttempts) == PlannedOps(t, choice, maxAttempts, sid)
    ensures var t' := KnownStep(r, holder, t, choice, maxAttempts).task; t' == Idle || Legal(t', t.h, t.m)
  {
    KnownPlansOps(t, choice, sid, maxAttempts);
    hide KnownOps, PlannedOps, KnownStep, Follows, PlannedHolder, PlannedEvents, Succeeds;
    if IsSending(t.stage) {
      SendingMeetsPlan(r, holder, t, choice, maxAttempts);
    } else {
      QuietMeetsPlan(r, holder, t, choice, maxAttempts);
    }
  }

  predicate IsSending(stage: Stage) {
    stage.Deliver? || stage.RelayCaller? || stage.RelayCallee? || stage.Retry?
  }

  lemma KnownPlansOps(t: Task, choice: Choice, sid: nat, maxAttempts: nat)
    requires t.Known? && Legal(t, t.h, t.m) && t.call.retryCount == 0
    ensures KnownOps(t, choice, maxAttempts) == PlannedOps(t, choice, maxAttempts, sid)
  {
  }

  lemma SendSucceeds(r: Reg, h: nat, to: string, frame: Frame, ok: bool)
    ensures var (_, sent, events) := Send(r, h, to, frame, ok);
      sent == (Online(r, to) && ok) && events == if sent then [Sent(h, to, frame)] else []
  {
  }

  lemma SendingMeetsPlan(r: Reg, holder: Option<string>, t: Task, choice: Choice, maxAttempts: nat)
    requires t.Known? && Legal(t, t.h, t.m) && t.call.retryCount == 0 && IsSending(t.stage)
    ensures MeetsPlan(r, holder, t, choice, maxAttempts, KnownStep(r, holder, t, choice, maxAttempts))
    ensures var t' := KnownStep(r, holder, t, choice, maxAttempts).task; t' == Idle || Legal(t', t.h, t.m)
  {
    hide Send, Online;
    if PlannedFrame(t).Some? {
      SendSucceeds(r, t.h, Addressee(t), PlannedFrame(t).value, choice.ok);
    }
  }

  lemma QuietMeetsPlan(r: Reg, holder: Option<string>, t: Task, choice: Choice, maxAttempts: nat)
    requires t.Known? && Legal(t, t.h, t.m) && t.call.retryCount == 0 && !IsSending(t.stage)
    ensures MeetsPlan(r, holder, t, choice, maxAttempts, KnownStep(r, holder, t, choice, maxAttempts))
    ensures var t' := KnownStep(r, holder, t, choice, maxAttempts).task; t' == Idle || Legal(t', t.h, t.m)
  {
    hide Send, UpdateCallState, EndCall, RemoveCall, GetPeer;
    UpdateFinds(r, t.m.callId);
  }

  lemma UpdateFinds(r: Reg, id: string)
    ensures UpdateCallState(r, id, 1).1 <==> id in r.calls.items
  {
  }

  // ----- The trail of a handler -------------------------------------------------------------

  // A stage that a handler has been through, by which action, and whether it succeeded.
  datatype Act = Act(at: nat, stage: Stage, ok: bool)

  predicate Runs(t: Task, h: nat) {
    !t.Idle? && t.h == h
  }

  predicate RunsNow(s: State, a: Action, h: nat) {
    a.Advance? && a.sid in s.sessions && Runs(s.sessions[a.sid].task, h)
  }

  function Acts(actions: seq<Action>, h: nat, maxAttempts: nat): seq<Act> {
    if actions == [] then [] else
    var n := |actions| - 1;
    var s, a, earlier := Reach(actions[..n], maxAttempts), actions[n], Acts(actions[..n], h, maxAttempts);
    if !RunsNow(s, a, h) then earlier else
    var session := s.sessions[a.sid];
    earlier + [Act(n, session.task.stage, Succeeds(s.reg, session.holder, session.task, a.choice, maxAttempts))]
  }

  // The trail goes from the first stage from one to the next.
  ghost predicate IsTrail(m: Msg, maxAttempts: nat, tr: seq<Act>)
  {
    tr != [] ==>
      && tr[0].stage == FirstStage(m)
      && forall i | 0 < i < |tr| :: NextStage(m, maxAttempts, tr[i - 1].stage, tr[i - 1].ok) == Some(tr[i].stage)
  }

  // The stage a handler with this trail comes to next.
  function Upcoming(m: Msg, maxAttempts: nat, tr: seq<Act>): Option<Stage>
  {
    if tr == [] then Some(FirstStage(m)) else NextStage(m, maxAttempts, tr[|tr| - 1].stage, tr[|tr| - 1].ok)
  }

  ghost predicate Finished(s: State, h: nat) {
    forall sid | sid in s.sessions :: !Runs(s.sessions[sid].task, h)
  }

  ghost predicate OnPlan(s: State, h: nat, m: Msg, maxAttempts: nat, tr: seq<Act>)
  {
    && IsTrail(m, maxAttempts, tr)
    && (forall sid | sid in s.sessions && Runs(s.sessions[sid].task, h) ::
          Legal(s.sessions[sid].task, h, m) && Upcoming(m, maxAttempts, tr) == Some(s.sessions[sid].task.stage))
    && (Finished(s, h) ==> Upcoming(m, maxAttempts, tr) == None)
    && (forall x | Authorized(h, x) in s.log :: |tr| >= 2 && tr[1].stage.Check? && tr[1].ok)
  }

  // No two sessions run the same handler.
  ghost predicate TasksDistinct(s: State) {
    && (forall sid | sid in s.sessions && !s.sessions[sid].task.Idle? :: s.sessions[sid].task.h < s.next)
    && (forall x, y | x in s.sessions && y in s.sessions && x != y && !s.sessions[x].task.Idle? ::
          !Runs(s.sessions[y].task, s.sessions[x].task.h))
  }

  // An action changes no session but its own, and gives that one no other handler unless it receives.
  lemma StepTask(s: State, a: Action, maxAttempts: nat, sid: nat)
    ensures var s' := Step(s, a, maxAttempts);
      && s.next <= s'.next
      && (sid in s.sessions ==> sid in s'.sessions)
      && (sid in s'.sessions && sid !in s.sessions ==> s'.sessions[sid].task.Idle?)
      && (sid in s.sessions ==>
            var t, t' := s.sessions[sid].task, s'.sessions[sid].task;
            t' == t || t'.Idle? || (a.Advance? && a.sid == sid && !t.Idle? && t'.h == t.h) ||
            (a.Receive? && a.sid == sid && t.Idle? && t' == First(s.next, a.m) && s'.next == s.next + 1))
      && (sid in s.sessions && !(a.Receive? || a.Advance?) ==> s'.sessions[sid].task == s.sessions[sid].task)
      && (sid in s.sessions && (a.Receive? || a.Advance?) && a.sid != sid ==> s'.sessions[sid].task == s.sessions[sid].task)
  {
    hide Route, GetCall, UpdateCallState, EndCall, RemoveCall, GetPeer, CreateCall, RegisterPeer, UnregisterPeer,
      DisconnectPeer, Apply;
  }

  lemma StepKeepsDistinct(s: State, a: Action, maxAttempts: nat)
    requires TasksDistinct(s)
    ensures TasksDistinct(Step(s, a, maxAttempts))
  {
    hide Step;
    forall sid {
      StepTask(s, a, maxAttempts, sid);
    }
  }

  lemma {:induction false} AlwaysDistinct(actions: seq<Action>, maxAttempts: nat)
    ensures TasksDistinct(Reach(actions, maxAttempts))
  {
    hide Step;
    if actions == [] {
    } else {
      AlwaysDistinct(actions[..|actions| - 1], maxAttempts);
      StepKeepsDistinct(Reach(actions[..|actions| - 1], maxAttempts), actions[|actions| - 1], maxAttempts);
    }
  }

  // ----- Every handler follows its plan -----------------------------------------------------

  // One action of handler `h`: its registry operation, what it logs, and where the handler is then.
  ghost predicate Does(s: State, a: Action, maxAttempts: nat, h: nat, m: Msg) {
    && RunsNow(s, a, h) && Legal(s.sessions[a.sid].task, h, m)
    && var session, s' := s.sessions[a.sid], Step(s, a, maxAttempts);
       var t := session.task;
       var ok := Succeeds(s.reg, session.holder, t, a.choice, maxAttempts);
       && StepOps(s, a, maxAttempts) == PlannedOps(t, a.choice, maxAttempts, a.sid)
       && s'.log == s.log + PlannedEvents(s.reg, session.holder, t, ok)
       && a.sid in s'.sessions && s'.sessions[a.sid].holder == PlannedHolder(session.holder, t)
       && Follows(s.reg, session.holder, t, ok, maxAttempts, s'.sessions[a.sid].task)
  }

  lemma ActionDoes(s: State, a: Action, maxAttempts: nat, h: nat, m: Msg)
    requires RunsNow(s, a, h) && Legal(s.sessions[a.sid].task, h, m)
    requires s.sessions[a.sid].task.Known? ==> s.sessions[a.sid].task.call.retryCount == 0
    ensures Does(s, a, maxAttempts, h, m)
    ensures var t' := Step(s, a, maxAttempts).sessions[a.sid].task; t' == Idle || Legal(t', h, m)
  {
    hide FreshStep, KnownStep, FreshOps, KnownOps, PlannedOps, Succeeds, Follows, PlannedEvents, Legal;
    var session := s.sessions[a.sid];
    LegalMeans(session.task, h, m);
    if session.task.Fresh? {
      FreshMeetsPlan(s.reg, session.holder, session.task, a.choice, a.sid, maxAttempts);
    } else {
      KnownMeetsPlan(s.reg, session.holder, session.task, a.choice, a.sid, maxAttempts);
    }
  }

  lemma LegalMeans(t: Task, h: nat, m: Msg)
    requires Legal(t, h, m)
    ensures t.h == h && t.m == m && (t.Known? ==> AboutCall(m))
  {
  }

  lemma UncountedTask(actions: seq<Action>, maxAttempts: nat, sid: nat)
    requires var s := Reach(actions, maxAttempts); sid in s.sessions && s.sessions[sid].task.Known?
    ensures Reach(actions, maxAttempts).sessions[sid].task.call.retryCount == 0
  {
    hide Step, Reach;
    InvariantHolds(actions, maxAttempts);
    var s := Reach(actions, maxAttempts);
    var t := s.sessions[sid].task;
    assert TaskOk(s.log, s.sessions[sid].holder, t);
    var k := SawWasRegistered(actions, maxAttempts, t.h, t.call);
    NoRetryCounted(actions[..k], maxAttempts);
  }

  // Only its own actions log that a handler was authorized.
  lemma AuthorizedBy(s: State, a: Action, maxAttempts: nat, h: nat, x: Option<string>)
    requires Authorized(h, x) in Step(s, a, maxAttempts).log && Authorized(h, x) !in s.log
    ensures RunsNow(s, a, h)
  {
    hide Route, GetCall, UpdateCallState, EndCall, RemoveCall, GetPeer, CreateCall, RegisterPeer, UnregisterPeer,
      DisconnectPeer, Apply;
  }

  lemma {:induction false} NotBefore(actions: seq<Action>, maxAttempts: nat, h: nat)
    requires h >= Reach(actions, maxAttempts).next
    ensures Acts(actions, h, maxAttempts) == [] && forall x :: Authorized(h, x) !in Reach(actions, maxAttempts).log
  {
    hide Step;
    if actions == [] {
    } else {
      var before, a := actions[..|actions| - 1], actions[|actions| - 1];
      var s := Reach(before, maxAttempts);
      StepTask(s, a, maxAttempts, 0);
      NotBefore(before, maxAttempts, h);
      AlwaysDistinct(before, maxAttempts);
      assert !RunsNow(s, a, h);
      forall x
        ensures Authorized(h, x) !in Reach(actions, maxAttempts).log
      {
        if Authorized(h, x) in Step(s, a, maxAttempts).log {
          AuthorizedBy(s, a, maxAttempts, h, x);
          assert false;
        }
      }
    }
  }

  lemma CheckIsSecond(m: Msg, maxAttempts: nat, tr: seq<Act>)
    requires AboutCall(m) && IsTrail(m, maxAttempts, tr) && Upcoming(m, maxAttempts, tr) == Some(Check)
    ensures |tr| == 1
  {
    hide NextStage;
    var last := tr[|tr| - 1];
    BeforeCheck(m, maxAttempts, last.stage, last.ok);
    if |tr| >= 2 {
      NeverFirstAgain(m, maxAttempts, tr[|tr| - 2].stage, tr[|tr| - 2].ok);
      assert false;
    }
  }

  lemma BeforeCheck(m: Msg, maxAttempts: nat, stage: Stage, ok: bool)
    requires AboutCall(m) && NextStage(m, maxAttempts, stage, ok) == Some(Check)
    ensures stage.Limit? || stage.Lookup?
  {
  }

  lemma NeverFirstAgain(m: Msg, maxAttempts: nat, stage: Stage, ok: bool)
    ensures NextStage(m, maxAttempts, stage, ok) != Some(Limit) && NextStage(m, maxAttempts, stage, ok) != Some(Lookup)
  {
  }

  lemma TrailExtends(m: Msg, maxAttempts: nat, tr: seq<Act>, act: Act)
    requires IsTrail(m, maxAttempts, tr) && Upcoming(m, maxAttempts, tr) == Some(act.stage)
    ensures IsTrail(m, maxAttempts, tr + [act])
    ensures Upcoming(m, maxAttempts, tr + [act]) == NextStage(m, maxAttempts, act.stage, act.ok)
  {
    hide NextStage;
  }

  lemma FollowsStage(r: Reg, holder: Option<string>, t: Task, ok: bool, maxAttempts: nat, t': Task)
    requires !t.Idle? && Follows(r, holder, t, ok, maxAttempts, t')
    ensures NextStage(t.m, maxAttempts, t.stage, ok) == if t'.Idle? then None else Some(t'.stage)
  {
    hide NextStage;
  }

  lemma AuthorizedAtCheck(r: Reg, holder: Option<string>, t: Task, ok: bool, h: nat, x: Option<string>)
    requires !t.Idle? && Authorized(h, x) in PlannedEvents(r, holder, t, ok)
    ensures t.stage.Check? && ok && AboutCall(t.m)
  {
  }

  lemma OwnActionKeepsPlan(s: State, a: Action, maxAttempts: nat, h: nat, m: Msg, tr: seq<Act>, at: nat)
    requires OnPlan(s, h, m, maxAttempts, tr) && TasksDistinct(s) && RunsNow(s, a, h)
    requires s.sessions[a.sid].task.Known? ==> s.sessions[a.sid].task.call.retryCount == 0
    ensures var session := s.sessions[a.sid];
      OnPlan(Step(s, a, maxAttempts), h, m, maxAttempts,
             tr + [Act(at, session.task.stage, Succeeds(s.reg, session.holder, session.task, a.choice, maxAttempts))])
  {
    ActionDoes(s, a, maxAttempts, h, m);
    forall sid {
      StepTask(s, a, maxAttempts, sid);
    }
    var session, s' := s.sessions[a.sid], Step(s, a, maxAttempts);
    var t, t' := session.task, s'.sessions[a.sid].task;
    LegalMeans(t, h, m);
    hide Step, Succeeds, Legal, NextStage, Follows, PlannedEvents, PlannedOps, StepOps, IsTrail, Upcoming;
    var ok := Succeeds(s.reg, session.holder, t, a.choice, maxAttempts);
    var tr' := tr + [Act(at, t.stage, ok)];
    TrailExtends(m, maxAttempts, tr, Act(at, t.stage, ok));
    FollowsStage(s.reg, session.holder, t, ok, maxAttempts, t');
    forall x | Authorized(h, x) in s'.log
      ensures |tr'| >= 2 && tr'[1].stage.Check? && tr'[1].ok
    {
      if Authorized(h, x) !in s.log {
        AuthorizedAtCheck(s.reg, session.holder, t, ok, h, x);
        CheckIsSecond(m, maxAttempts, tr);
      }
    }
  }

  lemma OtherActionKeepsPlan(s: State, a: Action, maxAttempts: nat, h: nat, m: Msg, tr: seq<Act>)
    requires OnPlan(s, h, m, maxAttempts, tr) && !RunsNow(s, a, h) && h < s.next
    ensures OnPlan(Step(s, a, maxAttempts), h, m, maxAttempts, tr)
  {
    forall sid {
      StepTask(s, a, maxAttempts, sid);
    }
    forall x | Authorized(h, x) in Step(s, a, maxAttempts).log
      ensures Authorized(h, x) in s.log
    {
      if Authorized(h, x) !in s.log {
        AuthorizedBy(s, a, maxAttempts, h, x);
        assert false;
      }
    }
    hide Step, NextStage;
  }

  // In every interleaving, every handler is where its plan has it after what it has done.
  lemma {:induction false} AlwaysOnPlan(actions: seq<Action>, maxAttempts: nat, h: nat, m: Msg)
    requires Received(h, m) in Reach(actions, maxAttempts).log
    ensures OnPlan(Reach(actions, maxAttempts), h, m, maxAttempts, Acts(actions, h, maxAttempts))
  {
    hide Step, OnPlan, Succeeds;
    var n := |actions| - 1;
    var before, a := actions[..n], actions[n];
    var s := Reach(before, maxAttempts);
    InvariantHolds(before, maxAttempts);
    AlwaysDistinct(before, maxAttempts);
    if Received(h, m) in s.log {
      AlwaysOnPlan(before, maxAttempts, h, m);
      if RunsNow(s, a, h) {
        if s.sessions[a.sid].task.Known? {
          UncountedTask(before, maxAttempts, a.sid);
        }
        OwnActionKeepsPlan(s, a, maxAttempts, h, m, Acts(before, h, maxAttempts), n);
      } else {
        OtherActionKeepsPlan(s, a, maxAttempts, h, m, Acts(before, h, maxAttempts));
      }
    } else {
      ReceivedNow(s, a, maxAttempts, h, m);
      NotBefore(before, maxAttempts, h);
      StartsOnPlan(s, a, maxAttempts, h, m);
    }
  }

  lemma ReceivedNow(s: State, a: Action, maxAttempts: nat, h: nat, m: Msg)
    requires Received(h, m) in Step(s, a, maxAttempts).log && Received(h, m) !in s.log
    ensures a.Receive? && a.m == m && h == s.next && a.sid in s.sessions && s.sessions[a.sid].task.Idle?
  {
    hide Route, GetCall, UpdateCallState, EndCall, RemoveCall, GetPeer, CreateCall, RegisterPeer, UnregisterPeer,
      DisconnectPeer, Apply;
  }

  lemma StartsOnPlan(s: State, a: Action, maxAttempts: nat, h: nat, m: Msg)
    requires a.Receive? && a.m == m && h == s.next && a.sid in s.sessions && s.sessions[a.sid].task.Idle?
    requires TasksDistinct(s) && forall x :: Authorized(h, x) !in s.log
    ensures !RunsNow(s, a, h) && OnPlan(Step(s, a, maxAttempts), h, m, maxAttempts, [])
  {
    var s' := Step(s, a, maxAttempts);
    assert s'.sessions[a.sid].task == Fresh(h, m, FirstStage(m));
    assert forall sid | sid in s'.sessions && sid != a.sid :: s'.sessions[sid] == s.sessions[sid];
  }

  // ----- What a finished handler has done ---------------------------------------------------

  predicate Went(tr: seq<Act>, stages: seq<Stage>) {
    |tr| == |stages| && forall i | 0 <= i < |tr| :: tr[i].stage == stages[i]
  }

  // From stage `i` on, the retry: announced once if any attempts are allowed, and then the end.
  predicate Retried(tr: seq<Act>, i: nat, maxAttempts: nat) {
    i <= |tr| && if maxAttempts > 0 then Went(tr[i..], [Retry, Wake, End]) else Went(tr[i..], [Retry, End])
  }

  // The trails of finished handlers. Where a stage ends one early, it did not succeed.
  predicate Complete(m: Msg, maxAttempts: nat, tr: seq<Act>) {
    match m
    case CallRequest(_, _, _, _) =>
      || (Went(tr, [Limit]) && !tr[0].ok) || (Went(tr, [Limit, Check]) && !tr[1].ok)
      || (Went(tr, [Limit, Check, Create]) && !tr[2].ok)
      || (Went(tr, [Limit, Check, Create, Deliver]) && tr[3].ok)
      || (Went(tr, [Limit, Check, Create, Deliver, Remove]) && !tr[3].ok)
    case CallAccept(_, _) =>
      || (Went(tr, [Lookup]) && !tr[0].ok) || (Went(tr, [Lookup, Check]) && !tr[1].ok)
      || (Went(tr, [Lookup, Check, Update]) && !tr[2].ok) || (Went(tr, [Lookup, Check, Update, Reread]) && !tr[3].ok)
      || Went(tr, [Lookup, Check, Update, Reread, Deliver])
    case CallReject(_, _) =>
      || (Went(tr, [Lookup]) && !tr[0].ok) || (Went(tr, [Lookup, Check]) && !tr[1].ok)
      || Went(tr, [Lookup, Check, End, Deliver, Remove])
    case CallEnded(_, _) =>
      || (Went(tr, [Lookup]) && !tr[0].ok) || (Went(tr, [Lookup, Check]) && !tr[1].ok)
      || Went(tr, [Lookup, Check, Deliver, End, Remove])
    case CallFailed(_, _, reason, _) =>
      || (Went(tr, [Lookup]) && !tr[0].ok) || (Went(tr, [Lookup, Check]) && !tr[1].ok)
      || (|tr| >= 4 && Went(tr[..3], [Lookup, Check, Deliver]) &&
          if reason in {3, 4} then
            || (tr[3].stage.PickRelay? && !tr[3].ok && Retried(tr, 4, maxAttempts))
            || (|tr| >= 5 && Went(tr[3..5], [PickRelay, RelayCaller]) && !tr[4].ok && Retried(tr, 5, maxAttempts))
            || (|tr| >= 6 && Went(tr[3..6], [PickRelay, RelayCaller, RelayCallee]) && !tr[5].ok &&
                Retried(tr, 6, maxAttempts))
            || Went(tr[3..], [PickRelay, RelayCaller, RelayCallee, End])
          else if reason == 7 then Retried(tr, 3, maxAttempts)
          else Went(tr[3..], [End]))
    case PeerRegister(_) => (Went(tr, [Limit]) && !tr[0].ok) || Went(tr, [Limit, Check, Create])
    case PeerUnregister(_) => Went(tr, [Remove, Check])
  }

  // A trail that has come to its end.
  ghost predicate Ends(m: Msg, maxAttempts: nat, tr: seq<Act>)
  {
    IsTrail(m, maxAttempts, tr) && Upcoming(m, maxAttempts, tr) == None
  }

  // The stage at index `i`, which is there if the one before leads to it.
  lemma Leads(m: Msg, maxAttempts: nat, tr: seq<Act>, i: nat)
    requires Ends(m, maxAttempts, tr) && i < |tr|
    ensures NextStage(m, maxAttempts, tr[i].stage, tr[i].ok) == if i + 1 < |tr| then Some(tr[i + 1].stage) else None
  {
    hide NextStage;
    assert i + 1 < |tr| ==> NextStage(m, maxAttempts, tr[i + 1 - 1].stage, tr[i + 1 - 1].ok) == Some(tr[i + 1].stage);
  }

  lemma Starts(m: Msg, maxAttempts: nat, tr: seq<Act>)
    requires Ends(m, maxAttempts, tr)
    ensures tr != [] && tr[0].stage == FirstStage(m)
  {
  }

  lemma FiveStages(m: Msg, maxAttempts: nat, tr: seq<Act>)
    requires !m.CallFailed? && Ends(m, maxAttempts, tr)
    ensures Complete(m, maxAttempts, tr)
  {
    Starts(m, maxAttempts, tr);
    hide IsTrail, Upcoming;
    Leads(m, maxAttempts, tr, 0);
    if |tr| > 1 {
      Leads(m, maxAttempts, tr, 1);
      if |tr| > 2 {
        Leads(m, maxAttempts, tr, 2);
        if |tr| > 3 {
          Leads(m, maxAttempts, tr, 3);
          if |tr| > 4 {
            Leads(m, maxAttempts, tr, 4);
          }
        }
      }
    }
  }

  lemma RetryStages(m: Msg, maxAttempts: nat, tr: seq<Act>, i: nat)
    requires m.CallFailed? && Ends(m, maxAttempts, tr) && i < |tr| && tr[i].stage.Retry?
    ensures Retried(tr, i, maxAttempts)
  {
    Leads(m, maxAttempts, tr, i);
    Leads(m, maxAttempts, tr, i + 1);
    if maxAttempts > 0 {
      Leads(m, maxAttempts, tr, i + 2);
    }
  }

  lemma FailedStages(m: Msg, maxAttempts: nat, tr: seq<Act>)
    requires m.CallFailed? && Ends(m, maxAttempts, tr)
    ensures Complete(m, maxAttempts, tr)
  {
    Starts(m, maxAttempts, tr);
    hide IsTrail, Retried, Upcoming;
    Leads(m, maxAttempts, tr, 0);
    if |tr| > 1 {
      Leads(m, maxAttempts, tr, 1);
      if |tr| > 2 {
        Leads(m, maxAttempts, tr, 2);
        Leads(m, maxAttempts, tr, 3);
        if m.reason == 7 {
          RetryStages(m, maxAttempts, tr, 3);
        } else if m.reason in {3, 4} {
          RelayStages(m, maxAttempts, tr);
        }
      }
    }
  }

  lemma RelayStages(m: Msg, maxAttempts: nat, tr: seq<Act>)
    requires m.CallFailed? && m.reason in {3, 4} && Ends(m, maxAttempts, tr) && |tr| >= 4
    requires Went(tr[..3], [Lookup, Check, Deliver]) && tr[3].stage.PickRelay?
    ensures Complete(m, maxAttempts, tr)
  {
    hide IsTrail, Retried, Upcoming;
    Leads(m, maxAttempts, tr, 3);
    if !tr[3].ok {
      RetryStages(m, maxAttempts, tr, 4);
    } else {
      Leads(m, maxAttempts, tr, 4);
      if !tr[4].ok {
        RetryStages(m, maxAttempts, tr, 5);
      } else {
        Leads(m, maxAttempts, tr, 5);
        if !tr[5].ok {
          RetryStages(m, maxAttempts, tr, 6);
        } else {
          Leads(m, maxAttempts, tr, 6);
        }
      }
    }
  }

  // Each entry of a trail is an action of the handler that did what the plan says.
  lemma {:induction false} ActDoes(actions: seq<Action>, maxAttempts: nat, h: nat, m: Msg, i: nat)
    requires Received(h, m) in Reach(actions, maxAttempts).log && i < |Acts(actions, h, maxAttempts)|
    ensures var act := Acts(actions, h, maxAttempts)[i];
      && act.at < |actions|
      && var s, a := Reach(actions[..act.at], maxAttempts), actions[act.at];
         && Does(s, a, maxAttempts, h, m) && act.stage == s.sessions[a.sid].task.stage
         && act.ok == Succeeds(s.reg, s.sessions[a.sid].holder, s.sessions[a.sid].task, a.choice, maxAttempts)
  {
    hide Step, Succeeds, Does;
    var n := |actions| - 1;
    var before, a := actions[..n], actions[n];
    var s, earlier := Reach(before, maxAttempts), Acts(before, h, maxAttempts);
    InvariantHolds(before, maxAttempts);
    if Received(h, m) !in s.log {
      ReceivedNow(s, a, maxAttempts, h, m);
      NotBefore(before, maxAttempts, h);
      AlwaysDistinct(before, maxAttempts);
      assert false;
    }
    if i < |earlier| {
      ActDoes(before, maxAttempts, h, m, i);
      var at := earlier[i].at;
      assert before[..at] == actions[..at] && before[at] == actions[at];
    } else {
      AlwaysOnPlan(before, maxAttempts, h, m);
      if s.sessions[a.sid].task.Known? {
        UncountedTask(before, maxAttempts, a.sid);
      }
      ActionDoes(s, a, maxAttempts, h, m);
    }
  }

  // In every interleaving, a handler that is done has been through a complete trail, each stage of it an
  // action that did what the plan says; if it was authorized it got past its check.
  lemma HandlerCompletes(actions: seq<Action>, maxAttempts: nat, h: nat, m: Msg)
    requires Received(h, m) in Reach(actions, maxAttempts).log
    requires Finished(Reach(actions, maxAttempts), h)
    ensures Complete(m, maxAttempts, Acts(actions, h, maxAttempts))
    ensures forall x | Authorized(h, x) in Reach(actions, maxAttempts).log ::
              |Acts(actions, h, maxAttempts)| >= 2 && Acts(actions, h, maxAttempts)[1].ok
  {
    hide Reach, Acts, Complete, IsTrail, Upcoming;
    AlwaysOnPlan(actions, maxAttempts, h, m);
    if m.CallFailed? {
      FailedStages(m, maxAttempts, Acts(actions, h, maxAttempts));
    } else {
      FiveStages(m, maxAttempts, Acts(actions, h, maxAttempts));
    }
  }

  // In particular: once a rejection, a failure or an end has passed its check and its handler is done, one
  // of its actions has looked up the other party of the call, and logged that the frame was sent exactly
  // if that party had a channel and the channel took it.
  lemma OtherPartyIsTold(actions: seq<Action>, maxAttempts: nat, h: nat, m: Msg, x: Option<string>)
    returns (k: nat, c: Call, sender: Option<string>, to: string)
    requires (m.CallReject? || m.CallFailed? || m.CallEnded?) && Received(h, m) in Reach(actions, maxAttempts).log
    requires Finished(Reach(actions, maxAttempts), h) && Authorized(h, x) in Reach(actions, maxAttempts).log
    ensures k < |actions| && actions[k].Advance?
    ensures var s, a := Reach(actions[..k], maxAttempts), actions[k];
      && a.sid in s.sessions && s.sessions[a.sid].task == Known(h, m, Deliver, c, sender)
      && (if m.CallReject? then to == c.callerId else IsOtherParty(c, sender, to))
      && StepOps(s, a, maxAttempts) == [OpRoute(to)]
      && Step(s, a, maxAttempts).log == s.log +
         if to in s.reg.peers.items && s.reg.peers.items[to].sender.Some? && a.choice.ok
         then [Sent(h, to, Forward(if m.CallReject? then 6 else if m.CallFailed? then 7 else 8, m.payload))] else []
  {
    hide Reach, Acts, Step;
    HandlerCompletes(actions, maxAttempts, h, m);
    var tr := Acts(actions, h, maxAttempts);
    var i := if m.CallReject? then 3 else 2;
    if m.CallFailed? {
      assert tr[..3][2] == tr[2];
    }
    assert |tr| > 3 && tr[i].stage.Deliver?;
    hide Complete;
    ActDoes(actions, maxAttempts, h, m, i);
    k := tr[i].at;
    var t := Reach(actions[..k], maxAttempts).sessions[actions[k].sid].task;
    c, sender, to := t.call, t.sender, Addressee(t);
  }

  // And a call that was rejected or ended is taken out of the registry.
  lemma EndedIsRemoved(actions: seq<Action>, maxAttempts: nat, h: nat, m: Msg, x: Option<string>) returns (k: nat)
    requires (m.CallReject? || m.CallEnded?) && Received(h, m) in Reach(actions, maxAttempts).log
    requires Finished(Reach(actions, maxAttempts), h) && Authorized(h, x) in Reach(actions, maxAttempts).log
    ensures k < |actions| && StepOps(Reach(actions[..k], maxAttempts), actions[k], maxAttempts) == [OpRemove(m.callId)]
    ensures m.callId !in Reach(actions[..k + 1], maxAttempts).reg.calls.items
  {
    hide Acts, Step, StepOps;
    HandlerCompletes(actions, maxAttempts, h, m);
    var tr := Acts(actions, h, maxAttempts);
    ActDoes(actions, maxAttempts, h, m, 4);
    k := tr[4].at;
    assert actions[..k + 1][..k] == actions[..k];
    StepIsRegOp(Reach(actions[..k], maxAttempts), actions[k], maxAttempts);
  }
}
