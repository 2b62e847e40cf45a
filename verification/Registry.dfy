// The peer and call registries of the signaling server (crates/voip-signaling/src/state.rs).
//
// Every operation takes the registry locks once, so a run of the server is a sequence of these
// operations, whichever sessions and REST handlers they come from.

module Registry {
  import opened Lru
  import opened Wrappers

  const PEER_CAPACITY := 10_000
  const CALL_CAPACITY := 1_000

  // `sender` names the session whose channel the entry holds.
  datatype PeerInfo = PeerInfo(peerId: string, status: int, fcmToken: Option<string>)
  datatype Peer = Peer(info: PeerInfo, sender: Option<nat>)

  datatype Call = Call(callId: string, callerId: string, calleeId: string, state: int,
                       endedAt: Option<nat>, failureReason: Option<string>, retryCount: nat)

  const PEER_OFFLINE := 1
  const CALL_ENDED := 4

  datatype Reg = Reg(peers: Cache<Peer>, calls: Cache<Call>)

  datatype Delivery = UnknownPeer | PeerOffline | To(session: nat)
  datatype Created = CreatedOk | NoSuchPeer(peerId: string) | CallExists

  // ----- Operations on values ---------------------------------------------------------------

  function RegisterPeer(r: Reg, info: PeerInfo, sender: Option<nat>): Reg {
    var id := info.peerId;
    if id in r.peers.items then
      var kept := r.peers.items[id].sender;
      r.(peers := Update(r.peers, id, Peer(info, if sender.Some? then sender else kept)))
    else
      r.(peers := Put(r.peers, PEER_CAPACITY, id, Peer(info, sender)))
  }

  function UnregisterPeer(r: Reg, id: string): Reg {
    r.(peers := Pop(r.peers, id))
  }

  function DisconnectPeer(r: Reg, id: string): Reg {
    if id !in r.peers.items then r else
    var p := r.peers.items[id];
    r.(peers := Update(r.peers, id, Peer(p.info.(status := PEER_OFFLINE), None)))
  }

  function GetPeer(r: Reg, id: string): (Reg, Option<Peer>) {
    var (peers, p) := Get(r.peers, id);
    (r.(peers := peers), p)
  }

  // The lookup half of `send_to_peer`.
  function Route(r: Reg, id: string): (Reg, Delivery) {
    var (peers, p) := Get(r.peers, id);
    (r.(peers := peers),
     if p.None? then UnknownPeer else if p.value.sender.None? then PeerOffline else To(p.value.sender.value))
  }

  function CreateCall(r: Reg, call: Call): (Reg, Created) {
    if !Contains(r.peers, call.callerId) then (r, NoSuchPeer(call.callerId))
    else if !Contains(r.peers, call.calleeId) then (r, NoSuchPeer(call.calleeId))
    else if Contains(r.calls, call.callId) then (r, CallExists)
    else (r.(calls := Put(r.calls, CALL_CAPACITY, call.callId, call)), CreatedOk)
  }

  function UpdateCallState(r: Reg, id: string, state: int): (Reg, bool) {
    if id !in r.calls.items then (r, false)
    else (r.(calls := Update(r.calls, id, r.calls.items[id].(state := state))), true)
  }

  function EndCall(r: Reg, id: string, now: nat, reason: Option<string>): (Reg, bool) {
    if id !in r.calls.items then (r, false) else
    var c := r.calls.items[id].(state := CALL_ENDED, endedAt := Some(now), failureReason := reason);
    (r.(calls := Update(r.calls, id, c)), true)
  }

  function RemoveCall(r: Reg, id: string): Reg {
    r.(calls := Pop(r.calls, id))
  }

  function GetCall(r: Reg, id: string): (Reg, Option<Call>) {
    var (calls, c) := Get(r.calls, id);
    (r.(calls := calls), c)
  }

  // ----- The imperative form ----------------------------------------------------------------

  class AppState {
    var peers: Cache<Peer>
    var calls: Cache<Call>

    constructor ()
      ensures View() == Reg(Empty(), Empty())
    {
      peers, calls := Empty(), Empty();
    }

    ghost function View(): Reg
      reads this
    {
      Reg(peers, calls)
    }

    method Register(info: PeerInfo, sender: Option<nat>)
      modifies this`peers
      ensures View() == RegisterPeer(old(View()), info, sender)
    {
      if info.peerId in peers.items {
        var existing := peers.items[info.peerId].(info := info);
        if sender.Some? {
          existing := existing.(sender := sender);
        }
        peers := Update(peers, info.peerId, existing);
      } else {
        peers := Put(peers, PEER_CAPACITY, info.peerId, Peer(info, sender));
      }
    }

    // An entry that is already offline without a sender is left as it is, apart from its promotion.
    method Disconnect(id: string)
      modifies this`peers
      ensures View() == DisconnectPeer(old(View()), id)
    {
      if id in peers.items {
        var entry := peers.items[id];
        if entry.sender.None? && entry.info.status == PEER_OFFLINE {
          var (touched, _) := Get(peers, id);
          assert peers.items[id := entry] == peers.items;
          peers := touched;
          return;
        }
        entry := entry.(sender := None);
        entry := entry.(info := entry.info.(status := PEER_OFFLINE));
        peers := Update(peers, id, entry);
      }
    }

    method RouteTo(id: string) returns (d: Delivery)
      modifies this`peers
      ensures (View(), d) == Route(old(View()), id)
    {
      var (touched, entry) := Get(peers, id);
      peers := touched;
      if entry.None? {
        return UnknownPeer;
      }
      if entry.value.sender.None? {
        return PeerOffline;
      }
      d := To(entry.value.sender.value);
    }

    method Create(call: Call) returns (result: Created)
      modifies this`calls
      ensures (View(), result) == CreateCall(old(View()), call)
    {
      if !Contains(peers, call.callerId) {
        return NoSuchPeer(call.callerId);
      }
      if !Contains(peers, call.calleeId) {
        return NoSuchPeer(call.calleeId);
      }
      if Contains(calls, call.callId) {
        return CallExists;
      }
      calls := Put(calls, CALL_CAPACITY, call.callId, call);
      result := CreatedOk;
    }

    method SetState(id: string, state: int) returns (ok: bool)
      modifies this`calls
      ensures (View(), ok) == UpdateCallState(old(View()), id, state)
    {
      ok := id in calls.items;
      if ok {
        calls := Update(calls, id, calls.items[id].(state := state));
      }
    }

    method End(id: string, now: nat, reason: Option<string>) returns (ok: bool)
      modifies this`calls
      ensures (View(), ok) == EndCall(old(View()), id, now, reason)
    {
      ok := id in calls.items;
      if ok {
        var call := calls.items[id];
        call := call.(state := CALL_ENDED);
        call := call.(endedAt := Some(now));
        call := call.(failureReason := reason);
        calls := Update(calls, id, call);
      }
    }
  }

  // ----- Runs of registry operations --------------------------------------------------------

  datatype Op =
    | OpRegister(info: PeerInfo, sender: Option<nat>)
    | OpUnregister(id: string)
    | OpDisconnect(id: string)
    | OpGetPeer(id: string)
    | OpRoute(id: string)
    | OpCreate(call: Call)
    | OpSetState(id: string, state: int)
    | OpEnd(id: string, now: nat, reason: Option<string>)
    | OpRemove(id: string)
    | OpGetCall(id: string)

  function Apply(r: Reg, op: Op): Reg {
    match op
    case OpRegister(info, sender) => RegisterPeer(r, info, sender)
    case OpUnregister(id) => UnregisterPeer(r, id)
    case OpDisconnect(id) => DisconnectPeer(r, id)
    case OpGetPeer(id) => GetPeer(r, id).0
    case OpRoute(id) => Route(r, id).0
    case OpCreate(call) => CreateCall(r, call).0
    case OpSetState(id, state) => UpdateCallState(r, id, state).0
    case OpEnd(id, now, reason) => EndCall(r, id, now, reason).0
    case OpRemove(id) => RemoveCall(r, id)
    case OpGetCall(id) => GetCall(r, id).0
  }

  const START := Reg(Empty(), Empty())

  function Run(ops: seq<Op>): Reg {
    if ops == [] then START else Apply(Run(ops[..|ops| - 1]), ops[|ops| - 1])
  }

  // The call an operation creates or touches, if any.
  function Use(r: Reg, op: Op): seq<string> {
    match op
    case OpCreate(call) => if CreateCall(r, call).1.CreatedOk? then [call.callId] else []
    case OpSetState(id, _) => if id in r.calls.items then [id] else []
    case OpEnd(id, _, _) => if id in r.calls.items then [id] else []
    case OpGetCall(id) => if id in r.calls.items then [id] else []
    case _ => []
  }

  function Uses(ops: seq<Op>): seq<string> {
    if ops == [] then [] else
    var before := ops[..|ops| - 1];
    Uses(before) + Use(Run(before), ops[|ops| - 1])
  }

  ghost predicate RegOk(r: Reg) {
    && Valid(r.peers, PEER_CAPACITY) && Valid(r.calls, CALL_CAPACITY)
    && (forall k | k in r.peers.items :: r.peers.items[k].info.peerId == k)
    && (forall k | k in r.calls.items :: r.calls.items[k].callId == k)
  }

  predicate OnPeers(op: Op) {
    op.OpRegister? || op.OpUnregister? || op.OpDisconnect? || op.OpGetPeer? || op.OpRoute?
  }

  lemma RegisterKeepsOk(r: Reg, op: Op)
    requires RegOk(r) && op.OpRegister?
    ensures RegOk(Apply(r, op))
  {
    hide Valid, Front;
    PutKeepsValid(r.peers, PEER_CAPACITY, op.info.peerId, Apply(r, op).peers.items[op.info.peerId]);
  }

  lemma PeerStepKeepsOk(r: Reg, op: Op)
    requires RegOk(r) && OnPeers(op)
    ensures RegOk(Apply(r, op))
  {
    if op.OpRegister? {
      RegisterKeepsOk(r, op);
    } else if op.OpDisconnect? {
      if op.id in r.peers.items {
        PutKeepsValid(r.peers, PEER_CAPACITY, op.id, Apply(r, op).peers.items[op.id]);
      }
    } else {
      GetAndPopKeepValid(r.peers, PEER_CAPACITY, op.id);
    }
  }

  lemma CallStepKeepsOk(r: Reg, op: Op)
    requires RegOk(r) && !OnPeers(op)
    ensures RegOk(Apply(r, op))
  {
    if op.OpCreate? {
      PutKeepsValid(r.calls, CALL_CAPACITY, op.call.callId, op.call);
    } else if op.OpSetState? || op.OpEnd? {
      if op.id in r.calls.items {
        PutKeepsValid(r.calls, CALL_CAPACITY, op.id, Apply(r, op).calls.items[op.id]);
      }
    } else {
      GetAndPopKeepValid(r.calls, CALL_CAPACITY, op.id);
    }
  }

  lemma StepKeepsOk(r: Reg, op: Op)
    requires RegOk(r)
    ensures RegOk(Apply(r, op))
  {
    if OnPeers(op) {
      PeerStepKeepsOk(r, op);
    } else {
      CallStepKeepsOk(r, op);
    }
  }

  // In every run both registries stay within capacity and store each entry under its own id.
  lemma {:induction false} RunKeepsOk(ops: seq<Op>)
    ensures RegOk(Run(ops))
  {
    if ops == [] {
    } else {
      var before, op := ops[..|ops| - 1], ops[|ops| - 1];
      RunKeepsOk(before);
      StepKeepsOk(Run(before), op);
    }
  }

  // ----- A call keeps its participants ------------------------------------------------------

  predicate SameParties(a: Call, b: Call) {
    a.callId == b.callId && a.callerId == b.callerId && a.calleeId == b.calleeId
  }

  lemma StepKeepsParties(r: Reg, op: Op, id: string)
    requires id in r.calls.items && id in Apply(r, op).calls.items
    ensures SameParties(r.calls.items[id], Apply(r, op).calls.items[id])
  {
  }

  // From any moment at which a call is registered until its id leaves the registry, its caller and
  // callee do not change, whatever is done to it in between.
  lemma {:induction false} PartiesNeverChange(ops: seq<Op>, i: nat, j: nat, id: string)
    requires i <= j <= |ops| && forall k | i <= k <= j :: id in Run(ops[..k]).calls.items
    ensures SameParties(Run(ops[..i]).calls.items[id], Run(ops[..j]).calls.items[id])
    decreases j
  {
    if i == j {
    } else {
      PartiesNeverChange(ops, i, j - 1, id);
      assert ops[..j][..j - 1] == ops[..j - 1];
      assert id in Run(ops[..j - 1]).calls.items && id in Run(ops[..j]).calls.items;
      StepKeepsParties(Run(ops[..j - 1]), ops[j - 1], id);
    }
  }

  // ----- A call is lost only to a full registry ---------------------------------------------

  lemma {:induction false} OrderIsRecent(ops: seq<Op>)
    ensures Recent(Run(ops).calls.order, Uses(ops))
  {
    if ops == [] {
    } else {
      var before, op := ops[..|ops| - 1], ops[|ops| - 1];
      OrderIsRecent(before);
      RunKeepsOk(before);
      StepKeepsRecent(Run(before), op, Uses(before));
    }
  }

  lemma StepKeepsRecent(r: Reg, op: Op, used: seq<string>)
    requires RegOk(r) && Recent(r.calls.order, used)
    ensures Recent(Apply(r, op).calls.order, used + Use(r, op))
  {
    var u := Use(r, op);
    if u == [] {
      assert used + u == used;
      if op.OpRemove? {
        RecentWithout(r.calls.order, used, op.id);
      }
    } else {
      assert u == [u[0]];
      if op.OpCreate? {
        var o := r.calls.order;
        assert u[0] !in Elements(o);
        RecentUse(o, used, u[0]);
        assert Apply(r, op).calls.order == ([u[0]] + o)[..|Apply(r, op).calls.order|];
      } else {
        RecentFront(r.calls.order, used, u[0]);
      }
    }
  }

  // A registered call disappears only because it is removed, or because at least 1,000 distinct other
  // calls have been created or touched since it was last touched.
  lemma CallLostOnlyWhenFull(ops: seq<Op>, op: Op, id: string)
    requires id in Run(ops).calls.items && id !in Apply(Run(ops), op).calls.items
    ensures op == OpRemove(id) ||
            (op.OpCreate? && |UsedSince(Uses(ops + [op]), id)| >= CALL_CAPACITY && id !in UsedSince(Uses(ops + [op]), id))
  {
    var r := Run(ops);
    RunKeepsOk(ops);
    OrderIsRecent(ops);
    assert (ops + [op])[..|ops|] == ops;
    if op.OpCreate? {
      assert CreateCall(r, op.call).1.CreatedOk?;
      EvictionCost(r.calls, CALL_CAPACITY, Uses(ops), op.call.callId, op.call, id);
    }
  }
}
