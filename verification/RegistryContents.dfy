// What the registries hold after a run, entry by entry (crates/voip-signaling/src/state.rs), told by the
// operations of the run alone.

module RegistryContents {
  import opened Lru
  import opened Registry
  import opened Wrappers

  // ----- Peers ------------------------------------------------------------------------------

  predicate Registers(op: Op, id: string) {
    op.OpRegister? && op.info.peerId == id
  }

  // The operation takes the channel of the peer away, or gives it another one.
  predicate EndsChannel(op: Op, id: string) {
    op == OpDisconnect(id) || op == OpUnregister(id) || (Registers(op, id) && op.sender.Some?)
  }

  // The i-th operation registered peer `id` with channel `s`, and no later one ended that.
  ghost predicate ChannelSince(ops: seq<Op>, id: string, s: nat, i: nat) {
    && i < |ops| && Registers(ops[i], id) && ops[i].sender == Some(s)
    && forall j | i < j < |ops| :: !EndsChannel(ops[j], id)
  }

  // The i-th operation is the last one to register peer `id`, and it was not unregistered since.
  ghost predicate RegisteredSince(ops: seq<Op>, id: string, i: nat) {
    && i < |ops| && Registers(ops[i], id)
    && forall j | i < j < |ops| :: !Registers(ops[j], id) && ops[j] != OpUnregister(id)
  }

  ghost predicate DisconnectedSince(ops: seq<Op>, id: string, i: nat) {
    exists j | i < j < |ops| :: ops[j] == OpDisconnect(id)
  }

  // The registry never dropped the entry of its own accord.
  ghost predicate PeerKept(ops: seq<Op>, id: string) {
    ops == [] ||
    var before, op := ops[..|ops| - 1], ops[|ops| - 1];
    PeerKept(before, id) &&
    (id in Run(before).peers.items && id !in Run(ops).peers.items ==> op == OpUnregister(id))
  }

  // One operation on one entry.
  lemma PeerStep(r: Reg, op: Op, id: string)
    requires RegOk(r)
    ensures var before, after := r.peers.items, Apply(r, op).peers.items;
      && (Registers(op, id) ==>
            && id in after && after[id].info == op.info
            && after[id].sender == if op.sender.Some? then op.sender else if id in before then before[id].sender else None)
      && (op == OpUnregister(id) ==> id !in after)
      && (op == OpDisconnect(id) ==>
            (id in before <==> id in after) &&
            (id in before ==> after[id].sender == None && after[id].info == before[id].info.(status := 1)))
      && (!Registers(op, id) && op != OpUnregister(id) && op != OpDisconnect(id) && id in after ==>
            id in before && after[id] == before[id])
  {
  }

  // Whatever the registry holds of a peer comes from its last registration: the info, marked offline if the
  // peer was disconnected since. If it holds a channel, some registration gave it and nothing ended it.
  lemma {:induction false} PeerFromRegistration(ops: seq<Op>, id: string) returns (i: nat)
    requires id in Run(ops).peers.items
    ensures RegisteredSince(ops, id, i)
    ensures var info := Run(ops).peers.items[id].info;
      if DisconnectedSince(ops, id, i) then info == ops[i].info.(status := 1) else info == ops[i].info
  {
    hide Apply;
    var n := |ops| - 1;
    var before, op := ops[..n], ops[n];
    RunKeepsOk(before);
    PeerStep(Run(before), op, id);
    if Registers(op, id) {
      i := n;
    } else {
      i := PeerFromRegistration(before, id);
      if op == OpDisconnect(id) {
        assert DisconnectedSince(ops, id, i);
      } else if DisconnectedSince(ops, id, i) {
        var j :| i < j < |ops| && ops[j] == OpDisconnect(id);
        assert before[j] == OpDisconnect(id);
      }
    }
  }

  lemma {:induction false} ChannelFromRegistration(ops: seq<Op>, id: string) returns (i: nat)
    requires id in Run(ops).peers.items && Run(ops).peers.items[id].sender.Some?
    ensures ChannelSince(ops, id, Run(ops).peers.items[id].sender.value, i)
  {
    hide Apply;
    var n := |ops| - 1;
    var before, op := ops[..n], ops[n];
    RunKeepsOk(before);
    PeerStep(Run(before), op, id);
    if Registers(op, id) && op.sender.Some? {
      i := n;
    } else {
      i := ChannelFromRegistration(before, id);
    }
  }

  lemma {:induction false} ChannelIsHeld(ops: seq<Op>, id: string, s: nat, i: nat)
    requires PeerKept(ops, id) && ChannelSince(ops, id, s, i)
    ensures id in Run(ops).peers.items && Run(ops).peers.items[id].sender == Some(s)
  {
    hide Apply;
    var n := |ops| - 1;
    var before, op := ops[..n], ops[n];
    RunKeepsOk(before);
    PeerStep(Run(before), op, id);
    if i < n {
      ChannelIsHeld(before, id, s, i);
    }
  }

  lemma {:induction false} RegistrationIsHeld(ops: seq<Op>, id: string, i: nat)
    requires PeerKept(ops, id) && RegisteredSince(ops, id, i)
    ensures id in Run(ops).peers.items
  {
    hide Apply;
    var n := |ops| - 1;
    var before, op := ops[..n], ops[n];
    RunKeepsOk(before);
    PeerStep(Run(before), op, id);
    if i < n {
      RegistrationIsHeld(before, id, i);
    }
  }

  // Over every run: a message for a peer goes to channel `s` only if a registration of the peer gave that
  // channel and nothing ended it; and if the registry has not dropped the peer, then also if. In that case
  // too the peer is unknown exactly if it was not registered, or unregistered since.
  lemma RouteIff(ops: seq<Op>, id: string, s: nat)
    ensures Route(Run(ops), id).1 == To(s) ==> exists i :: ChannelSince(ops, id, s, i)
    ensures PeerKept(ops, id) ==>
            (Route(Run(ops), id).1 == To(s) <==> exists i :: ChannelSince(ops, id, s, i)) &&
            (Route(Run(ops), id).1 == UnknownPeer <==> !exists i :: RegisteredSince(ops, id, i))
  {
    hide Run, PeerKept;
    if Route(Run(ops), id).1 == To(s) {
      var i := ChannelFromRegistration(ops, id);
    }
    if id in Run(ops).peers.items {
      var i := PeerFromRegistration(ops, id);
    }
    if PeerKept(ops, id) {
      if i :| ChannelSince(ops, id, s, i) {
        ChannelIsHeld(ops, id, s, i);
      }
      if i :| RegisteredSince(ops, id, i) {
        RegistrationIsHeld(ops, id, i);
      }
    }
  }

  // The peer an operation creates or touches, if any.
  function PeerUse(r: Reg, op: Op): seq<string> {
    if op.OpRegister? then [op.info.peerId]
    else if (op.OpDisconnect? || op.OpGetPeer? || op.OpRoute?) && op.id in r.peers.items then [op.id]
    else []
  }

  function PeerUses(ops: seq<Op>): seq<string> {
    if ops == [] then [] else
    var before := ops[..|ops| - 1];
    PeerUses(before) + PeerUse(Run(before), ops[|ops| - 1])
  }

  lemma StepKeepsPeersRecent(r: Reg, op: Op, used: seq<string>)
    requires RegOk(r) && Recent(r.peers.order, used)
    ensures Recent(Apply(r, op).peers.order, used + PeerUse(r, op))
  {
    var u, o := PeerUse(r, op), r.peers.order;
    if u == [] {
      assert used + u == used;
      if op.OpUnregister? {
        RecentWithout(o, used, op.id);
      }
    } else {
      assert u == [u[0]];
      RecentFront(o, used, u[0]);
      if u[0] !in r.peers.items {
        assert u[0] !in Elements(o);
        RecentUse(o, used, u[0]);
        assert Apply(r, op).peers.order == ([u[0]] + o)[..|Apply(r, op).peers.order|];
      }
    }
  }

  lemma {:induction false} PeerOrderIsRecent(ops: seq<Op>)
    ensures Recent(Run(ops).peers.order, PeerUses(ops))
  {
    hide Recent, Apply;
    if ops == [] {
      NothingRecent();
    } else {
      var before, op := ops[..|ops| - 1], ops[|ops| - 1];
      PeerOrderIsRecent(before);
      RunKeepsOk(before);
      StepKeepsPeersRecent(Run(before), op, PeerUses(before));
    }
  }

  lemma NothingRecent()
    ensures Recent([], [])
  {
  }

  // A registered peer disappears only by being unregistered, or because at least 10,000 distinct other peers
  // have been registered or touched since it was last touched.
  lemma PeerLostOnlyWhenFull(ops: seq<Op>, op: Op, id: string)
    requires id in Run(ops).peers.items && id !in Apply(Run(ops), op).peers.items
    ensures op == OpUnregister(id) ||
            var others := UsedSince(PeerUses(ops + [op]), id);
            op.OpRegister? && |others| >= PEER_CAPACITY && id !in others
  {
    var r := Run(ops);
    RunKeepsOk(ops);
    PeerOrderIsRecent(ops);
    assert (ops + [op])[..|ops|] == ops;
    hide Run;
    if op.OpRegister? {
      EvictionCost(r.peers, PEER_CAPACITY, PeerUses(ops), op.info.peerId, Peer(op.info, op.sender), id);
    }
  }

  // ----- Calls ------------------------------------------------------------------------------

  // The entry of a call after operations on the registry, none of which removes it.
  function Touched(c: Call, op: Op): Call {
    if op.OpSetState? && op.id == c.callId then
      Call(c.callId, c.callerId, c.calleeId, op.state, c.endedAt, c.failureReason, c.retryCount)
    else if op.OpEnd? && op.id == c.callId then
      Call(c.callId, c.callerId, c.calleeId, 4, Some(op.now), op.reason, c.retryCount)
    else c
  }

  function TouchedAll(c: Call, ops: seq<Op>): Call {
    if ops == [] then c else Touched(TouchedAll(c, ops[..|ops| - 1]), ops[|ops| - 1])
  }

  lemma CallStep(r: Reg, op: Op, id: string)
    requires RegOk(r) && id in Apply(r, op).calls.items
    ensures var before, after := r.calls.items, Apply(r, op).calls.items;
      if id in before then after[id] == Touched(before[id], op)
      else op == OpCreate(after[id]) && after[id].callerId in r.peers.items && after[id].calleeId in r.peers.items
  {
  }

  lemma {:induction false} TouchedKeepsId(c: Call, ops: seq<Op>)
    ensures TouchedAll(c, ops).callId == c.callId
  {
    if ops == [] {
    } else {
      TouchedKeepsId(c, ops[..|ops| - 1]);
    }
  }

  // While a call stays registered, its entry is the earlier one with the state, the end and the reason that
  // the operations in between last gave it.
  lemma {:induction false} CallHistory(ops: seq<Op>, i: nat, j: nat, id: string)
    requires i <= j <= |ops| && forall k | i <= k <= j :: id in Run(ops[..k]).calls.items
    ensures Run(ops[..j]).calls.items[id] == TouchedAll(Run(ops[..i]).calls.items[id], ops[i..j])
    decreases j
  {
    hide Apply, Touched;
    assert id in Run(ops[..i]).calls.items && id in Run(ops[..j]).calls.items;
    if i == j {
      assert ops[i..j] == [];
    } else {
      CallHistory(ops, i, j - 1, id);
      assert ops[..j][..j - 1] == ops[..j - 1] && ops[i..j][..j - 1 - i] == ops[i..j - 1];
      assert id in Run(ops[..j - 1]).calls.items;
      RunKeepsOk(ops[..j - 1]);
      CallStep(Run(ops[..j - 1]), ops[j - 1], id);
    }
  }

  // A call appears in the registry only by being created between two registered peers, and as it was created.
  lemma CallAppears(ops: seq<Op>, op: Op, id: string)
    requires id !in Run(ops).calls.items && id in Apply(Run(ops), op).calls.items
    ensures op == OpCreate(Apply(Run(ops), op).calls.items[id]) && op.call.callId == id
    ensures op.call.callerId in Run(ops).peers.items && op.call.calleeId in Run(ops).peers.items
  {
    RunKeepsOk(ops);
    StepKeepsOk(Run(ops), op);
    hide Run;
    CallStep(Run(ops), op, id);
  }

  // Conversely, a creation between registered peers under a free id succeeds, and no other one does.
  lemma CreateIff(r: Reg, call: Call)
    requires RegOk(r)
    ensures var (r', created) := CreateCall(r, call);
      && (created == CreatedOk <==>
            call.callerId in r.peers.items && call.calleeId in r.peers.items && call.callId !in r.calls.items)
      && (created == CreatedOk ==> call.callId in r'.calls.items && r'.calls.items[call.callId] == call)
      && (created != CreatedOk ==> r' == r)
      && (created.NoSuchPeer? ==> created.peerId in {call.callerId, call.calleeId} && created.peerId !in r.peers.items)
      && (created == CallExists ==> call.callId in r.calls.items)
  {
  }

  // Removal removes, and nothing else that is not a creation does.
  lemma RemoveIff(r: Reg, op: Op, id: string)
    requires RegOk(r) && id in r.calls.items && !op.OpCreate?
    ensures id !in Apply(r, op).calls.items <==> op == OpRemove(id)
  {
  }
}
