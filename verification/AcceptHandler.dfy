// Which call an accept is forwarded for (crates/voip-signaling/src/session.rs). The handler checks the
// sender against one registry entry and reads the entry anew before it forwards.

module AcceptHandler {
  import opened Bytes
  import opened Lru
  import opened Registry
  import opened Signaling
  import opened Wrappers

  function Calls(actions: seq<Action>, maxAttempts: nat, n: nat): map<string, Call>
    requires n <= |actions|
  {
    Reach(actions[..n], maxAttempts).reg.calls.items
  }

  function TaskAt(actions: seq<Action>, maxAttempts: nat, n: nat, sid: nat): Task
    requires n <= |actions|
  {
    var s := Reach(actions[..n], maxAttempts);
    if sid in s.sessions then s.sessions[sid].task else Idle
  }

  predicate Runs(t: Task, h: nat) {
    !t.Idle? && t.h == h
  }

  // The stages of an accept before its last one.
  predicate OnTheWay(t: Task, h: nat, m: Msg) {
    && !t.Idle? && t.h == h && t.m == m
    && (if t.Fresh? then t.stage.Lookup?
        else t.stage.Check? || t.stage.Update? || t.stage.Reread? || t.stage.Deliver?)
  }

  // One step of the accept handler, given the calls registered at that moment.
  predicate AcceptMoves(t: Task, t': Task, calls: map<string, Call>) {
    match t
    case Fresh(h, m, _) =>
      m.CallAccept? && m.callId in calls && t'.Known? && t' == Known(h, m, Check, calls[m.callId], t'.sender)
    case Known(h, m, Check, c, _) =>
      t'.Known? && t' == Known(h, m, Update, c, t'.sender) && Entitled(m, c, t'.sender)
    case Known(h, m, Update, c, sender) => t' == Known(h, m, Reread, c, sender)
    case Known(h, m, Reread, _, sender) =>
      m.CallAccept? && m.callId in calls && t' == Known(h, m, Deliver, calls[m.callId], sender)
    case _ => false
  }

  lemma AcceptStep(s: State, a: Action, maxAttempts: nat, sid: nat, h: nat, m: Msg)
    requires m.CallAccept? && sid in s.sessions && h < s.next
    requires Runs(s.sessions[sid].task, h) ==> OnTheWay(s.sessions[sid].task, h, m)
    ensures var s' := Step(s, a, maxAttempts);
      && sid in s'.sessions && h < s'.next
      && var t, t' := s.sessions[sid].task, s'.sessions[sid].task;
         Runs(t', h) ==> OnTheWay(t', h, m) && Runs(t, h) && (t' == t || AcceptMoves(t, t', s.reg.calls.items))
  {
    hide Route, EndCall, RemoveCall, GetPeer, CreateCall, RegisterPeer, UnregisterPeer, DisconnectPeer;
  }

  // How handler `h`, which started at `i`, got where it is at `j`: it first saw the call of its message
  // at `first`, was checked against that entry, and read the entry anew at `again`.
  ghost predicate TraceOk(actions: seq<Action>, maxAttempts: nat, i: nat, j: nat, sid: nat, h: nat, m: Msg,
                          first: nat, again: nat)
    requires j <= |actions| && m.CallAccept?
  {
    var s, t, id := Reach(actions[..j], maxAttempts), TaskAt(actions, maxAttempts, j, sid), m.callId;
    && sid in s.sessions && h < s.next
    && (Runs(t, h) ==>
         && OnTheWay(t, h, m)
         && (t.Known? ==>
              && i <= first < j && TaskAt(actions, maxAttempts, first, sid) == Fresh(h, m, Lookup)
              && id in Calls(actions, maxAttempts, first)
              && var seen := Calls(actions, maxAttempts, first)[id];
                 && (!t.stage.Deliver? ==> t.call == seen)
                 && (!t.stage.Check? ==> Entitled(m, seen, t.sender))
                 && (t.stage.Deliver? ==>
                      && first < again < j && id in Calls(actions, maxAttempts, again)
                      && t.call == Calls(actions, maxAttempts, again)[id])))
  }

  lemma {:induction false} AcceptTrace(
    actions: seq<Action>, maxAttempts: nat, i: nat, j: nat, sid: nat, h: nat, m: Msg) returns (first: nat, again: nat)
    requires i <= j <= |actions| && m.CallAccept? && TaskAt(actions, maxAttempts, i, sid) == Fresh(h, m, Lookup)
    ensures TraceOk(actions, maxAttempts, i, j, sid, h, m, first, again)
    decreases j
  {
    hide Step, Reach;
    if i == j {
      first, again := 0, 0;
      InvariantHolds(actions[..i], maxAttempts);
      var s := Reach(actions[..i], maxAttempts);
      assert TaskOk(s.log, s.sessions[sid].holder, s.sessions[sid].task);
      assert Received(h, m) in s.log;
    } else {
      first, again := AcceptTrace(actions, maxAttempts, i, j - 1, sid, h, m);
      var s, t := Reach(actions[..j - 1], maxAttempts), TaskAt(actions, maxAttempts, j - 1, sid);
      ReachStep(actions, maxAttempts, j);
      AcceptStep(s, actions[j - 1], maxAttempts, sid, h, m);
      var t' := TaskAt(actions, maxAttempts, j, sid);
      if Runs(t', h) && t' != t {
        if t.Fresh? {
          first := j - 1;
        } else if t.stage.Reread? {
          again := j - 1;
        }
      }
    }
  }

  lemma ReachStep(actions: seq<Action>, maxAttempts: nat, j: nat)
    requires 0 < j <= |actions|
    ensures Reach(actions[..j], maxAttempts) == Step(Reach(actions[..j - 1], maxAttempts), actions[j - 1], maxAttempts)
  {
    assert actions[..j][..j - 1] == actions[..j - 1];
  }

  // The call that an accept is forwarded for is the entry found at the second lookup, and the sender was
  // checked against the entry found at the first. So the call forwarded for has the parties of the one
  // checked if and only if the second entry has those of the first; a peer that was checked is the callee
  // of the call forwarded for if and only if both entries have the same callee; and all this is so as
  // long as the call stays registered in between.
  lemma ForwardedForCheckedIff(actions: seq<Action>, maxAttempts: nat, i: nat, j: nat, sid: nat, h: nat, m: Msg)
    returns (first: nat, again: nat)
    requires i <= j <= |actions| && m.CallAccept? && TaskAt(actions, maxAttempts, i, sid) == Fresh(h, m, Lookup)
    requires var t := TaskAt(actions, maxAttempts, j, sid); t.Known? && t.h == h && t.stage.Deliver?
    ensures i <= first < again < j && TaskAt(actions, maxAttempts, first, sid) == Fresh(h, m, Lookup)
    ensures m.callId in Calls(actions, maxAttempts, first) && m.callId in Calls(actions, maxAttempts, again)
    ensures var t, id := TaskAt(actions, maxAttempts, j, sid), m.callId;
      var seen, found := Calls(actions, maxAttempts, first)[id], Calls(actions, maxAttempts, again)[id];
      && t.m == m && Entitled(m, seen, t.sender)
      && (SameParties(t.call, seen) <==> SameParties(found, seen))
      && (t.sender.Some? ==> (Entitled(m, t.call, t.sender) <==> found.calleeId == seen.calleeId))
      && ((forall n | first <= n <= again :: id in Calls(actions, maxAttempts, n)) ==>
            SameParties(t.call, seen) && Entitled(m, t.call, t.sender))
  {
    hide Reach;
    first, again := AcceptTrace(actions, maxAttempts, i, j, sid, h, m);
    var id := m.callId;
    if forall n | first <= n <= again :: id in Calls(actions, maxAttempts, n) {
      forall n | first <= n <= again
        ensures id in Reach(actions[..n], maxAttempts).reg.calls.items
      {
        assert id in Calls(actions, maxAttempts, n);
      }
      PartiesFixed(actions, maxAttempts, first, again, id);
    }
  }

  // ----- A run in which the two lookups find different calls --------------------------------

  // Peer "b" is registered without a channel, peer "x" over session 3. Session 1 calls for "b" and
  // withdraws, session 2 accepts for "b", session 3 calls for "x" under the same id.

  const GO := Choice(true, 0)
  const INFO_B := PeerInfo("b", PEER_OFFLINE, None)
  const INFO_X := PeerInfo("x", 0, None)
  const CALL_B := Call("c", "b", "b", 0, None, None, 0)
  const CALL_X := Call("c", "x", "x", 0, None, None, 0)
  const PEERS := Cache(["x", "b"], map["b" := Peer(INFO_B, None), "x" := Peer(INFO_X, Some(3))])
  const REQUEST_B := CallRequest([], "c", "b", "b")
  const REQUEST_X := CallRequest([], "c", "x", "x")
  const ACCEPT := CallAccept([], "c")

  ghost predicate At(actions: seq<Action>, maxAttempts: nat, peers: Cache<Peer>, calls: Cache<Call>,
                     t1: Task, t2: Task, t3: Task, log: seq<Event>, next: nat)
  {
    var s := Reach(actions, maxAttempts);
    && s.reg == Reg(peers, calls) && s.log == log && s.next == next
    && s.sessions == map[1 := Session(Some("b"), t1, false, false), 2 := Session(Some("b"), t2, false, false),
                         3 := Session(Some("x"), t3, false, false)]
  }

  lemma ReachOneMore(actions: seq<Action>, a: Action, maxAttempts: nat)
    ensures Reach(actions + [a], maxAttempts) == Step(Reach(actions, maxAttempts), a, maxAttempts)
  {
    assert (actions + [a])[..|actions|] == actions;
  }

  lemma FreshAdvances(actions: seq<Action>, maxAttempts: nat, sid: nat)
    requires var s := Reach(actions, maxAttempts); sid in s.sessions && s.sessions[sid].task.Fresh?
    ensures var s := Reach(actions, maxAttempts);
      var session := s.sessions[sid];
      var o := FreshStep(s.reg, session.holder, session.task, GO, sid);
      Reach(actions + [Advance(sid, GO)], maxAttempts) ==
      State(o.reg, s.sessions[sid := session.(holder := o.holder, task := o.task)], s.log + o.events, s.next)
  {
    hide FreshStep;
    ReachOneMore(actions, Advance(sid, GO), maxAttempts);
  }

  lemma KnownAdvances(actions: seq<Action>, maxAttempts: nat, sid: nat)
    requires var s := Reach(actions, maxAttempts);
      sid in s.sessions && s.sessions[sid].task.Known? && AboutCall(s.sessions[sid].task.m)
    ensures var s := Reach(actions, maxAttempts);
      var session := s.sessions[sid];
      var o := KnownStep(s.reg, session.holder, session.task, GO, maxAttempts);
      Reach(actions + [Advance(sid, GO)], maxAttempts) ==
      State(o.reg, s.sessions[sid := session.(holder := o.holder, task := o.task)], s.log + o.events, s.next)
  {
    hide KnownStep;
    ReachOneMore(actions, Advance(sid, GO), maxAttempts);
  }

  lemma Receives(actions: seq<Action>, maxAttempts: nat, sid: nat, m: Msg)
    requires var s := Reach(actions, maxAttempts); sid in s.sessions && s.sessions[sid].task.Idle?
    ensures var s := Reach(actions, maxAttempts);
      Reach(actions + [Receive(sid, m)], maxAttempts) ==
      State(s.reg, s.sessions[sid := s.sessions[sid].(task := First(s.next, m))], s.log + [Received(s.next, m)], s.next + 1)
  {
    ReachOneMore(actions, Receive(sid, m), maxAttempts);
  }

  lemma ThreeSessions(maxAttempts: nat) returns (actions: seq<Action>)
    ensures At(actions, maxAttempts, Cache(["b"], map["b" := Peer(INFO_B, None)]), Empty(), Idle, Idle, Idle, [], 0)
  {
    var b := Rest(OpRegister(INFO_B, None));
    ReachOneMore([], b, maxAttempts);
    assert ["b"] + [] == ["b"];
    ReachOneMore([] + [b], Open(1, "b"), maxAttempts);
    ReachOneMore([] + [b] + [Open(1, "b")], Open(2, "b"), maxAttempts);
    ReachOneMore([] + [b] + [Open(1, "b")] + [Open(2, "b")], Open(3, "x"), maxAttempts);
    actions := [] + [b] + [Open(1, "b")] + [Open(2, "b")] + [Open(3, "x")];
  }

  lemma Registers(actions: seq<Action>, maxAttempts: nat) returns (more: seq<Action>)
    requires At(actions, maxAttempts, Cache(["b"], map["b" := Peer(INFO_B, None)]), Empty(), Idle, Idle, Idle, [], 0)
    ensures At(more, maxAttempts, PEERS, Empty(), Idle, Idle, Idle, [Received(0, PeerRegister(INFO_X))], 1)
  {
    hide Step, Reach;
    var a, m := Advance(3, GO), PeerRegister(INFO_X);
    Receives(actions, maxAttempts, 3, m);
    var received := actions + [Receive(3, m)];
    FreshAdvances(received, maxAttempts, 3);
    FreshAdvances(received + [a], maxAttempts, 3);
    FreshAdvances(received + [a] + [a], maxAttempts, 3);
    more := received + [a] + [a] + [a];
    assert ["x"] + ["b"] == ["x", "b"];
    assert [] + [Received(0, m)] + [] + [] + [] == [Received(0, m)];
  }

  // A call request up to the creation of its call.
  lemma RequestCreates(actions: seq<Action>, maxAttempts: nat, sid: nat, m: Msg) returns (more: seq<Action>)
    requires m.CallRequest? && m.caller == m.callee
    requires var s := Reach(actions, maxAttempts);
      && sid in s.sessions && s.sessions[sid].task.Idle? && s.sessions[sid].holder == Some(m.caller)
      && m.caller in s.reg.peers.items && s.reg.calls == Empty()
    ensures var s := Reach(actions, maxAttempts);
      var c, sender := NewCall(m), Some(m.caller);
      Reach(more, maxAttempts) ==
      State(s.reg.(calls := Cache([m.callId], map[m.callId := c])),
            s.sessions[sid := s.sessions[sid].(task := Known(s.next, m, Deliver, c, sender))],
            s.log + [Received(s.next, m), Authorized(s.next, sender), Saw(s.next, c)], s.next + 1)
  {
    hide Step, Reach;
    var a, s := Advance(sid, GO), Reach(actions, maxAttempts);
    Receives(actions, maxAttempts, sid, m);
    var received := actions + [Receive(sid, m)];
    FreshAdvances(received, maxAttempts, sid);
    FreshAdvances(received + [a], maxAttempts, sid);
    FreshAdvances(received + [a] + [a], maxAttempts, sid);
    more := received + [a] + [a] + [a];
    assert [m.callId] + [] == [m.callId];
    var e0, e1, e2 := Received(s.next, m), Authorized(s.next, Some(m.caller)), Saw(s.next, NewCall(m));
    assert s.log + [e0] + [] + [e1] + [e2] == s.log + [e0, e1, e2];
  }

  lemma AcceptChecked(actions: seq<Action>, maxAttempts: nat, calls: Cache<Call>, t1: Task, log: seq<Event>)
    returns (more: seq<Action>)
    requires calls == Cache(["c"], map["c" := CALL_B]) && At(actions, maxAttempts, PEERS, calls, t1, Idle, Idle, log, 2)
    ensures At(more, maxAttempts, PEERS, calls, t1, Known(2, ACCEPT, Update, CALL_B, Some("b")), Idle,
               log + [Received(2, ACCEPT), Saw(2, CALL_B), Authorized(2, Some("b"))], 3)
  {
    hide Step, Reach;
    var a := Advance(2, GO);
    Receives(actions, maxAttempts, 2, ACCEPT);
    var received := actions + [Receive(2, ACCEPT)];
    FreshAdvances(received, maxAttempts, 2);
    assert Front(["c"], "c") == ["c"] + [] == ["c"];
    KnownAdvances(received + [a], maxAttempts, 2);
    more := received + [a] + [a];
    assert log + [Received(2, ACCEPT)] + [Saw(2, CALL_B)] + [Authorized(2, Some("b"))] ==
           log + [Received(2, ACCEPT), Saw(2, CALL_B), Authorized(2, Some("b"))];
  }

  // The callee cannot be reached, so the first call is removed.
  lemma RequestWithdrawn(actions: seq<Action>, maxAttempts: nat, calls: Cache<Call>, t2: Task, log: seq<Event>)
    returns (more: seq<Action>, peers: Cache<Peer>)
    requires calls == Cache(["c"], map["c" := CALL_B])
    requires At(actions, maxAttempts, PEERS, calls, Known(1, REQUEST_B, Deliver, CALL_B, Some("b")), t2, Idle, log, 3)
    ensures peers.items == PEERS.items && At(more, maxAttempts, peers, Empty(), Idle, t2, Idle, log, 3)
  {
    hide Step, Reach, Front;
    var a := Advance(1, GO);
    KnownAdvances(actions, maxAttempts, 1);
    peers := Get(PEERS, "b").0;
    assert log + [] == log;
    assert At(actions + [a], maxAttempts, peers, calls, Known(1, REQUEST_B, Remove, CALL_B, Some("b")), t2, Idle, log, 3);
    KnownAdvances(actions + [a], maxAttempts, 1);
    more := actions + [a] + [a];
    assert Without(["c"], "c") == [] && map["c" := CALL_B] - {"c"} == map[];
  }

  lemma AcceptForwards(actions: seq<Action>, maxAttempts: nat) returns (more: seq<Action>)
    requires var s := Reach(actions, maxAttempts);
      && 2 in s.sessions && s.sessions[2].task == Known(2, ACCEPT, Update, CALL_B, Some("b"))
      && s.reg.calls.items == map["c" := CALL_X] && s.reg.peers.items == PEERS.items
    ensures Reach(more, maxAttempts).log ==
            Reach(actions, maxAttempts).log + [Saw(2, CALL_X.(state := 1)), Sent(2, "x", Forward(CALL_ACCEPT_SC, []))]
  {
    hide Step, Reach, Front;
    var a, log := Advance(2, GO), Reach(actions, maxAttempts).log;
    KnownAdvances(actions, maxAttempts, 2);
    assert Reach(actions + [a], maxAttempts).reg.calls.items["c"] == CALL_X.(state := 1);
    KnownAdvances(actions + [a], maxAttempts, 2);
    KnownAdvances(actions + [a] + [a], maxAttempts, 2);
    more := actions + [a] + [a] + [a];
    assert log + [] + [Saw(2, CALL_X.(state := 1))] + [Sent(2, "x", Forward(CALL_ACCEPT_SC, []))] ==
           log + [Saw(2, CALL_X.(state := 1)), Sent(2, "x", Forward(CALL_ACCEPT_SC, []))];
  }

  // The log of the first two calls and the check.
  function EarlyLog(): seq<Event> {
    [Received(0, PeerRegister(INFO_X))] + [Received(1, REQUEST_B), Authorized(1, Some("b")), Saw(1, CALL_B)] +
    [Received(2, ACCEPT), Saw(2, CALL_B), Authorized(2, Some("b"))]
  }

  lemma SeenBySecond(c: Call)
    ensures Saw(2, c) in EarlyLog() + [Received(3, REQUEST_X), Authorized(3, Some("x")), Saw(3, CALL_X)] +
                         [Saw(2, CALL_X.(state := 1)), Sent(2, "x", Forward(CALL_ACCEPT_SC, []))] ==>
            c == CALL_B || c == CALL_X.(state := 1)
  {
  }

  // The accept of "b" is sent to "x", although its handler has seen no call in which "b" is the callee
  // and "x" the caller: the call was removed and its id taken by another one between the two lookups.
  lemma ForwardedForOtherCall(maxAttempts: nat) returns (actions: seq<Action>)
    ensures var log := Reach(actions, maxAttempts).log;
      && log != [] && log[|log| - 1] == Sent(2, "x", Forward(CALL_ACCEPT_SC, []))
      && Received(2, ACCEPT) in log && Authorized(2, Some("b")) in log
      && forall c | Saw(2, c) in log :: !(Entitled(ACCEPT, c, Some("b")) && c.callerId == "x")
  {
    hide Step, Reach;
    var start := ThreeSessions(maxAttempts);
    var registered := Registers(start, maxAttempts);
    var called := RequestCreates(registered, maxAttempts, 1, REQUEST_B);
    var calls := Cache(["c"], map["c" := CALL_B]);
    var t1 := Known(1, REQUEST_B, Deliver, CALL_B, Some("b"));
    var log1 := [Received(0, PeerRegister(INFO_X))] + [Received(1, REQUEST_B), Authorized(1, Some("b")), Saw(1, CALL_B)];
    assert At(called, maxAttempts, PEERS, calls, t1, Idle, Idle, log1, 2);
    var checked := AcceptChecked(called, maxAttempts, calls, t1, log1);
    var log2 := log1 + [Received(2, ACCEPT), Saw(2, CALL_B), Authorized(2, Some("b"))];
    var t2 := Known(2, ACCEPT, Update, CALL_B, Some("b"));
    var withdrawn, peers := RequestWithdrawn(checked, maxAttempts, calls, t2, log2);
    var again := RequestCreates(withdrawn, maxAttempts, 3, REQUEST_X);
    actions := AcceptForwards(again, maxAttempts);
    assert log2 == EarlyLog();
    assert Received(2, ACCEPT) in log2 && Authorized(2, Some("b")) in log2;
    hide EarlyLog;
    forall c | Saw(2, c) in Reach(actions, maxAttempts).log
      ensures !(Entitled(ACCEPT, c, Some("b")) && c.callerId == "x")
    {
      SeenBySecond(c);
    }
  }
}
