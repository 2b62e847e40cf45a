// In-memory store of TLS 1.3 session tickets (crates/voip-client/src/session_store.rs).
//
// Tickets and the times at which they were stored live in two deques per server. Taking a ticket
// pops only the first of them, so the deques drift apart; the results below say what survives.

module TicketStore {
  import opened Wrappers

  const MAX_TICKETS_PER_SERVER := 4

  // ----- One server -------------------------------------------------------------------------

  datatype Data<T> = Data(tickets: seq<T>, stamps: seq<nat>)

  predicate Expired(stamp: nat, now: nat, ttl: nat) {
    (if now < stamp then 0 else now - stamp) >= ttl
  }

  function Tail<X>(s: seq<X>): seq<X> {
    if s == [] then [] else s[1..]
  }

  function Evicted<T>(d: Data<T>, now: nat, ttl: nat): Data<T>
    decreases |d.stamps|
  {
    if d.stamps != [] && Expired(d.stamps[0], now, ttl)
    then Evicted(Data(Tail(d.tickets), d.stamps[1..]), now, ttl)
    else d
  }

  // What an insertion finds once it has evicted the expired and made room.
  function Cleared<T>(d: Data<T>, now: nat, ttl: nat): Data<T> {
    var e := Evicted(d, now, ttl);
    if |e.tickets| >= MAX_TICKETS_PER_SERVER then Data(Tail(e.tickets), Tail(e.stamps)) else e
  }

  function Inserted<T>(d: Data<T>, ticket: T, stamp: nat, now: nat, ttl: nat): Data<T> {
    var r := Cleared(d, now, ttl);
    Data(r.tickets + [ticket], r.stamps + [stamp])
  }

  function Taken<T>(d: Data<T>, now: nat, ttl: nat): (Data<T>, Option<T>) {
    var e := Evicted(d, now, ttl);
    if e.tickets == [] then (e, None)
    else (e.(tickets := e.tickets[..|e.tickets| - 1]), Some(e.tickets[|e.tickets| - 1]))
  }

  // ----- The imperative form ----------------------------------------------------------------

  class ServerData<T> {
    var tickets: seq<T>
    var stamps: seq<nat>

    constructor ()
      ensures View() == Data([], [])
    {
      tickets, stamps := [], [];
    }

    ghost function View(): Data<T>
      reads this
    {
      Data(tickets, stamps)
    }

    method EvictExpired(now: nat, ttl: nat)
      modifies this
      ensures View() == Evicted(old(View()), now, ttl)
    {
      while stamps != []
        invariant Evicted(View(), now, ttl) == Evicted(old(View()), now, ttl)
        decreases |stamps|
      {
        if !Expired(stamps[0], now, ttl) {
          break;
        }
        tickets := Tail(tickets);
        stamps := stamps[1..];
      }
    }

    method Insert(ticket: T, stamp: nat, now: nat, ttl: nat)
      modifies this
      ensures View() == Inserted(old(View()), ticket, stamp, now, ttl)
    {
      EvictExpired(now, ttl);
      if |tickets| >= MAX_TICKETS_PER_SERVER {
        tickets := Tail(tickets);
        stamps := Tail(stamps);
      }
      tickets := tickets + [ticket];
      stamps := stamps + [stamp];
    }

    // Pops the newest ticket, and leaves the stamps alone.
    method Take(now: nat, ttl: nat) returns (ticket: Option<T>)
      modifies this
      ensures (View(), ticket) == Taken(old(View()), now, ttl)
    {
      EvictExpired(now, ttl);
      ticket := None;
      if tickets != [] {
        ticket := Some(tickets[|tickets| - 1]);
        tickets := tickets[..|tickets| - 1];
      }
    }
  }

  // The store owns one record per server name. `stamp` is the clock read on entry to an insertion,
  // `now` the one read by the eviction it makes.
  class SessionTicketStore<T> {
    var servers: map<string, ServerData<T>>
    const ttl: nat

    constructor (ttl: nat)
      ensures Valid() && servers == map[] && this.ttl == ttl
    {
      servers := map[];
      this.ttl := ttl;
    }

    ghost predicate Valid()
      reads this
    {
      forall a, b | a in servers && b in servers && a != b :: servers[a] != servers[b]
    }

    ghost function View(): map<string, Data<T>>
      reads this, servers.Values
    {
      map s | s in servers :: servers[s].View()
    }

    method InsertTicket(server: string, ticket: T, stamp: nat, now: nat)
      requires Valid()
      modifies this, servers.Values
      ensures Valid()
      ensures View() == StoreInserted(old(View()), server, ticket, stamp, now, ttl)
    {
      if server !in servers {
        var created := new ServerData<T>();
        servers := servers[server := created];
      }
      var data := servers[server];
      assert data.View() == Record(old(View()), server);
      data.Insert(ticket, stamp, now, ttl);
      assert View() == old(View())[server := data.View()];
    }

    method TakeTicket(server: string, now: nat) returns (ticket: Option<T>)
      requires Valid()
      modifies servers.Values
      ensures Valid()
      ensures (View(), ticket) == StoreTaken(old(View()), server, now, ttl)
    {
      ticket := None;
      if server in servers {
        var data := servers[server];
        ticket := data.Take(now, ttl);
        assert View() == old(View())[server := data.View()];
      }
    }
  }

  function Record<T>(m: map<string, Data<T>>, server: string): Data<T> {
    if server in m then m[server] else Data([], [])
  }

  function StoreInserted<T>(m: map<string, Data<T>>, server: string, ticket: T, stamp: nat, now: nat, ttl: nat)
    : map<string, Data<T>>
  {
    m[server := Inserted(Record(m, server), ticket, stamp, now, ttl)]
  }

  function StoreTaken<T>(m: map<string, Data<T>>, server: string, now: nat, ttl: nat)
    : (map<string, Data<T>>, Option<T>)
  {
    if server !in m then (m, None) else
    var (d, ticket) := Taken(m[server], now, ttl);
    (m[server := d], ticket)
  }

  // ----- Runs -------------------------------------------------------------------------------

  // The store never looks inside a ticket. For the results below a ticket carries the server it
  // was stored for, a serial number that no other ticket has, and the time it was stored.
  datatype Ticket = Ticket(server: string, serial: nat, born: nat)

  type Store = map<string, Data<Ticket>>

  datatype Op = Insert(server: string, stamp: nat, now: nat) | Take(server: string, now: nat)

  function Apply(ttl: nat, m: Store, serial: nat, op: Op): (Store, Option<Ticket>) {
    match op
    case Insert(server, stamp, now) =>
      (StoreInserted(m, server, Ticket(server, serial, stamp), stamp, now, ttl), None)
    case Take(server, now) => StoreTaken(m, server, now, ttl)
  }

  // Operations one after the other, under a clock that never goes back.
  ghost predicate Sequential(clock: nat, ops: seq<Op>)
    decreases |ops|
  {
    ops == [] ||
    (clock <= (if ops[0].Insert? then ops[0].stamp else ops[0].now) <= ops[0].now && Sequential(ops[0].now, ops[1..]))
  }

  function StateAfter(ttl: nat, m: Store, serial: nat, ops: seq<Op>): Store
    decreases |ops|
  {
    if ops == [] then m else StateAfter(ttl, Apply(ttl, m, serial, ops[0]).0, serial + 1, ops[1..])
  }

  function HandedOut(ttl: nat, m: Store, serial: nat, ops: seq<Op>): seq<Option<Ticket>>
    decreases |ops|
  {
    if ops == [] then [] else
    var (m', handed) := Apply(ttl, m, serial, ops[0]);
    [handed] + HandedOut(ttl, m', serial + 1, ops[1..])
  }

  // ----- Eviction in closed form ------------------------------------------------------------

  // How many stamps an eviction drops.
  function Gone(stamps: seq<nat>, now: nat, ttl: nat): (n: nat)
    ensures n <= |stamps|
    ensures forall k | 0 <= k < n :: Expired(stamps[k], now, ttl)
    ensures n < |stamps| ==> !Expired(stamps[n], now, ttl)
  {
    if stamps == [] || !Expired(stamps[0], now, ttl) then 0 else 1 + Gone(stamps[1..], now, ttl)
  }

  function Drop<X>(s: seq<X>, n: nat): seq<X> {
    if n <= |s| then s[n..] else []
  }

  lemma {:induction false} EvictedDrops<T>(d: Data<T>, now: nat, ttl: nat)
    ensures Evicted(d, now, ttl) == Data(Drop(d.tickets, Gone(d.stamps, now, ttl)), Drop(d.stamps, Gone(d.stamps, now, ttl)))
    decreases |d.stamps|
  {
    if d.stamps == [] || !Expired(d.stamps[0], now, ttl) {
      assert d.tickets[0..] == d.tickets && d.stamps[0..] == d.stamps;
    } else {
      EvictedDrops(Data(Tail(d.tickets), d.stamps[1..]), now, ttl);
    }
  }

  // ----- What every run keeps, whatever the clocks show -------------------------------------

  // Tickets of this server with increasing serial numbers.
  ghost predicate Ascending(server: string, tickets: seq<Ticket>, from: nat, serial: nat) {
    tickets == [] ||
    (tickets[0].server == server && from <= tickets[0].serial < serial &&
     Ascending(server, tickets[1..], tickets[0].serial + 1, serial))
  }

  ghost predicate RecordOk(server: string, d: Data<Ticket>, serial: nat) {
    |d.tickets| <= MAX_TICKETS_PER_SERVER && |d.tickets| <= |d.stamps| && Ascending(server, d.tickets, 0, serial)
  }

  ghost predicate StoreOk(m: Store, serial: nat) {
    forall s | s in m :: RecordOk(s, m[s], serial)
  }

  lemma {:induction false} AscendingMembers(server: string, tickets: seq<Ticket>, from: nat, serial: nat)
    requires Ascending(server, tickets, from, serial)
    ensures forall t | t in tickets :: t.server == server && from <= t.serial < serial
    ensures forall i, j | 0 <= i < j < |tickets| :: tickets[i].serial < tickets[j].serial
  {
    if tickets == [] {
    } else {
      AscendingMembers(server, tickets[1..], tickets[0].serial + 1, serial);
      assert forall j | 0 < j < |tickets| :: tickets[j] == tickets[1..][j - 1];
    }
  }

  lemma {:induction false} AscendingWeaken(
    server: string, tickets: seq<Ticket>, from: nat, serial: nat, from': nat, serial': nat)
    requires Ascending(server, tickets, from, serial) && from' <= from && serial <= serial'
    ensures Ascending(server, tickets, from', serial')
  {
    if tickets == [] {
    } else {
      AscendingWeaken(server, tickets[1..], tickets[0].serial + 1, serial, tickets[0].serial + 1, serial');
    }
  }

  lemma {:induction false} AscendingPush(server: string, tickets: seq<Ticket>, from: nat, serial: nat, born: nat)
    requires Ascending(server, tickets, from, serial) && from <= serial
    ensures Ascending(server, tickets + [Ticket(server, serial, born)], from, serial + 1)
  {
    var t := Ticket(server, serial, born);
    if tickets == [] {
      assert tickets + [t] == [t];
    } else {
      AscendingPush(server, tickets[1..], tickets[0].serial + 1, serial, born);
      assert (tickets + [t])[1..] == tickets[1..] + [t];
    }
  }

  // Without its newest ticket a record has only older ones.
  lemma {:induction false} AscendingPopBack(server: string, tickets: seq<Ticket>, from: nat, serial: nat)
    requires Ascending(server, tickets, from, serial) && tickets != []
    ensures Ascending(server, tickets[..|tickets| - 1], from, tickets[|tickets| - 1].serial)
  {
    if |tickets| == 1 {
    } else {
      AscendingMembers(server, tickets, from, serial);
      AscendingPopBack(server, tickets[1..], tickets[0].serial + 1, serial);
      assert tickets[..|tickets| - 1][1..] == tickets[1..][..|tickets| - 2];
    }
  }

  lemma {:induction false} AscendingDrop(server: string, tickets: seq<Ticket>, serial: nat, n: nat)
    requires Ascending(server, tickets, 0, serial)
    ensures Ascending(server, Drop(tickets, n), 0, serial)
    decreases n
  {
    if n == 0 || tickets == [] {
      assert tickets[0..] == tickets;
    } else {
      AscendingWeaken(server, tickets[1..], tickets[0].serial + 1, serial, 0, serial);
      AscendingDrop(server, tickets[1..], serial, n - 1);
      assert Drop(tickets, n) == Drop(tickets[1..], n - 1);
    }
  }

  lemma ClearedKeepsOk(server: string, d: Data<Ticket>, serial: nat, now: nat, ttl: nat)
    requires RecordOk(server, d, serial)
    ensures RecordOk(server, Evicted(d, now, ttl), serial) && RecordOk(server, Cleared(d, now, ttl), serial)
    ensures |Cleared(d, now, ttl).tickets| < MAX_TICKETS_PER_SERVER
  {
    EvictedDrops(d, now, ttl);
    hide Evicted, Ascending;
    var n, e := Gone(d.stamps, now, ttl), Evicted(d, now, ttl);
    AscendingDrop(server, d.tickets, serial, n);
    AscendingDrop(server, e.tickets, serial, 1);
  }

  lemma EvictedKeepsNewest(d: Data<Ticket>, now: nat, ttl: nat)
    ensures var e := Evicted(d, now, ttl).tickets;
      e != [] ==> d.tickets != [] && e[|e| - 1] == d.tickets[|d.tickets| - 1]
  {
    EvictedDrops(d, now, ttl);
    hide Evicted;
  }

  // What is handed out was stored for the server it is handed out for and is the newest ticket held
  // for it, and only older ones stay.
  lemma TakenIsNewest(server: string, d: Data<Ticket>, serial: nat, now: nat, ttl: nat)
    requires RecordOk(server, d, serial)
    ensures var (d', handed) := Taken(d, now, ttl);
      && RecordOk(server, d', serial)
      && (handed.Some? ==>
           && handed.value.server == server && handed.value.serial < serial
           && handed.value in Evicted(d, now, ttl).tickets
           && d.tickets != [] && handed.value == d.tickets[|d.tickets| - 1]
           && forall t | t in d'.tickets :: t.serial < handed.value.serial)
  {
    ClearedKeepsOk(server, d, serial, now, ttl);
    EvictedKeepsNewest(d, now, ttl);
    hide Evicted, Ascending, Cleared;
    var e := Evicted(d, now, ttl);
    if e.tickets == [] {
    } else {
      var last := e.tickets[|e.tickets| - 1];
      AscendingMembers(server, e.tickets, 0, serial);
      AscendingPopBack(server, e.tickets, 0, serial);
      var rest := e.tickets[..|e.tickets| - 1];
      AscendingMembers(server, rest, 0, last.serial);
      AscendingWeaken(server, rest, 0, last.serial, 0, serial);
    }
  }

  lemma StepKeepsOk(ttl: nat, m: Store, serial: nat, op: Op)
    requires StoreOk(m, serial)
    ensures StoreOk(Apply(ttl, m, serial, op).0, serial + 1)
  {
    var m' := Apply(ttl, m, serial, op).0;
    forall s | s in m'
      ensures RecordOk(s, m'[s], serial + 1)
    {
      if s == op.server && op.Insert? {
        var d: Data<Ticket> := Record(m, s);
        ClearedKeepsOk(s, d, serial, op.now, ttl);
        AscendingPush(s, Cleared(d, op.now, ttl).tickets, 0, serial, op.stamp);
      } else {
        if s == op.server {
          TakenIsNewest(s, m[s], serial, op.now, ttl);
        }
        AscendingWeaken(s, m'[s].tickets, 0, serial, 0, serial + 1);
      }
    }
  }

  lemma {:induction false} OkAfter(ttl: nat, m: Store, serial: nat, ops: seq<Op>)
    requires StoreOk(m, serial)
    ensures StoreOk(StateAfter(ttl, m, serial, ops), serial + |ops|)
    decreases |ops|
  {
    if ops == [] {
    } else {
      StepKeepsOk(ttl, m, serial, ops[0]);
      OkAfter(ttl, Apply(ttl, m, serial, ops[0]).0, serial + 1, ops[1..]);
    }
  }

  // The i-th operation hands out what it hands out from the store that the ones before it leave.
  lemma {:induction false} HandedOutAt(ttl: nat, m: Store, serial: nat, ops: seq<Op>, i: nat)
    requires i < |ops|
    ensures |HandedOut(ttl, m, serial, ops)| == |ops|
    ensures HandedOut(ttl, m, serial, ops)[i] == Apply(ttl, StateAfter(ttl, m, serial, ops[..i]), serial + i, ops[i]).1
    decreases |ops|
  {
    hide Apply;
    var m' := Apply(ttl, m, serial, ops[0]).0;
    if |ops| == 1 {
      assert HandedOut(ttl, m', serial + 1, ops[1..]) == [];
    } else {
      HandedOutAt(ttl, m', serial + 1, ops[1..], if i == 0 then 0 else i - 1);
    }
    if i > 0 {
      assert ops[1..][..i - 1] == ops[..i][1..];
    }
  }

  ghost predicate Held(m: Store, t: Ticket) {
    t.server in m && t in m[t.server].tickets
  }

  lemma HeldBefore(ttl: nat, m: Store, serial: nat, op: Op, t: Ticket)
    requires Held(Apply(ttl, m, serial, op).0, t)
    ensures Held(m, t) || t.serial == serial
  {
    if t.server == op.server {
      EvictedDrops(Record(m, op.server), op.now, ttl);
    }
  }

  // A ticket that is not held any more never comes back.
  lemma {:induction false} NeverBack(ttl: nat, m: Store, serial: nat, ops: seq<Op>, t: Ticket)
    requires !Held(m, t) && t.serial < serial
    ensures !Held(StateAfter(ttl, m, serial, ops), t)
    decreases |ops|
  {
    hide Held, Apply;
    if ops == [] {
    } else {
      var m' := Apply(ttl, m, serial, ops[0]).0;
      if Held(m', t) {
        HeldBefore(ttl, m, serial, ops[0], t);
        assert false;
      }
      NeverBack(ttl, m', serial + 1, ops[1..], t);
    }
  }

  lemma {:induction false} StateAfterSplit(ttl: nat, m: Store, serial: nat, ops: seq<Op>, i: nat)
    requires i <= |ops|
    ensures StateAfter(ttl, m, serial, ops) ==
            StateAfter(ttl, StateAfter(ttl, m, serial, ops[..i]), serial + i, ops[i..])
    decreases i
  {
    hide Apply;
    if i == 0 {
      assert ops[..0] == [] && ops[0..] == ops;
    } else {
      StateAfterSplit(ttl, Apply(ttl, m, serial, ops[0]).0, serial + 1, ops[1..], i - 1);
      assert ops[..i][1..] == ops[1..][..i - 1] && ops[i..] == ops[1..][i - 1..];
    }
  }

  // The newest ticket that store `m` holds for the server of the operation.
  ghost predicate IsNewest(m: Store, op: Op, t: Ticket) {
    && t.server == op.server && op.server in m
    && m[op.server].tickets != [] && t == m[op.server].tickets[|m[op.server].tickets| - 1]
    && forall other | other in m[op.server].tickets :: other == t || other.serial < t.serial
  }

  // Over every run from the empty store, whatever the clocks show: a ticket is handed out only for the
  // server it was stored for, always the newest one held, and none twice; at most four tickets are held
  // per server and there are never fewer stamps than tickets.
  lemma RunIsSafe(ttl: nat, ops: seq<Op>)
    ensures var handed := HandedOut(ttl, map[], 0, ops);
      && |handed| == |ops|
      && (forall i | 0 <= i < |ops| && handed[i].Some? ::
           ops[i].Take? && IsNewest(StateAfter(ttl, map[], 0, ops[..i]), ops[i], handed[i].value))
      && (forall i, j | 0 <= i < j < |ops| && handed[i].Some? :: handed[j] != handed[i])
    ensures var m := StateAfter(ttl, map[], 0, ops);
      forall s | s in m :: |m[s].tickets| <= MAX_TICKETS_PER_SERVER && |m[s].tickets| <= |m[s].stamps|
  {
    OkAfter(ttl, map[], 0, ops);
    if ops == [] {
      assert HandedOut(ttl, map[], 0, ops) == [];
    } else {
      HandedOutAt(ttl, map[], 0, ops, 0);
    }
    forall i | 0 <= i < |ops| {
      HandedOutNewest(ttl, ops, i);
    }
    forall i, j | 0 <= i < j < |ops| {
      HandedOutOnce(ttl, ops, i, j);
    }
  }

  lemma HandedOutNewest(ttl: nat, ops: seq<Op>, i: nat)
    requires i < |ops|
    ensures |HandedOut(ttl, map[], 0, ops)| == |ops|
    ensures var handed, m := HandedOut(ttl, map[], 0, ops)[i], StateAfter(ttl, map[], 0, ops[..i]);
      handed.Some? ==>
        && ops[i].Take? && IsNewest(m, ops[i], handed.value) && handed.value.serial < i
        && handed.value in Evicted(m[ops[i].server], ops[i].now, ttl).tickets
        && !Held(Apply(ttl, m, i, ops[i]).0, handed.value)
  {
    hide StateAfter, HandedOut;
    var m, op := StateAfter(ttl, map[], 0, ops[..i]), ops[i];
    HandedOutAt(ttl, map[], 0, ops, i);
    OkAfter(ttl, map[], 0, ops[..i]);
    if op.Take? && op.server in m {
      TakenIsNewest(op.server, m[op.server], i, op.now, ttl);
      AscendingMembers(op.server, m[op.server].tickets, 0, i);
    }
  }

  lemma HandedOutOnce(ttl: nat, ops: seq<Op>, i: nat, j: nat)
    requires i < j < |ops|
    ensures |HandedOut(ttl, map[], 0, ops)| == |ops|
    ensures HandedOut(ttl, map[], 0, ops)[i].Some? ==>
            HandedOut(ttl, map[], 0, ops)[j] != HandedOut(ttl, map[], 0, ops)[i]
  {
    hide HandedOut, Apply;
    HandedOutNewest(ttl, ops, i);
    HandedOutNewest(ttl, ops, j);
    var handed := HandedOut(ttl, map[], 0, ops);
    if handed[i].Some? && handed[j] == handed[i] {
      var m, m' := StateAfter(ttl, map[], 0, ops[..i]), StateAfter(ttl, map[], 0, ops[..i + 1]);
      StateAfterSplit(ttl, map[], 0, ops[..i + 1], i);
      assert ops[..i + 1][..i] == ops[..i] && ops[..i + 1][i..] == [ops[i]];
      assert m' == Apply(ttl, m, i, ops[i]).0;
      assert ops[..j][..i + 1] == ops[..i + 1];
      StateAfterSplit(ttl, map[], 0, ops[..j], i + 1);
      NeverBack(ttl, m', i + 1, ops[..j][i + 1..], handed[i].value);
      assert false;
    }
  }

  // ----- What an insertion keeps ------------------------------------------------------------

  function Larger(a: int, b: int): int {
    if a >= b then a else b
  }

  // An insertion drops what has expired or, if that leaves no room, the one oldest ticket; it keeps all
  // others, and appends.
  lemma InsertedDrops<T>(d: Data<T>, t: T, stamp: nat, now: nat, ttl: nat)
    requires |d.tickets| <= MAX_TICKETS_PER_SERVER && |d.tickets| <= |d.stamps|
    ensures var g := Larger(Gone(d.stamps, now, ttl), |d.tickets| - 3);
      Inserted(d, t, stamp, now, ttl) == Data(Drop(d.tickets, g) + [t], Drop(d.stamps, g) + [stamp])
  {
    EvictedDrops(d, now, ttl);
    hide Evicted;
    assert d.tickets[0..] == d.tickets && d.stamps[0..] == d.stamps;
  }

  // Insertions for one server, each with the clock it read first and the one its eviction read.
  function Inserts(server: string, times: seq<(nat, nat)>): seq<Op> {
    if times == [] then [] else
    var last := |times| - 1;
    Inserts(server, times[..last]) + [Insert(server, times[last].0, times[last].1)]
  }

  function Takes(server: string, times: seq<nat>): seq<Op> {
    if times == [] then [] else [Take(server, times[0])] + Takes(server, times[1..])
  }

  // The tickets of these insertions, and their stamps.
  function TicketsOf(server: string, times: seq<(nat, nat)>): seq<Ticket> {
    seq(|times|, i requires 0 <= i < |times| => Ticket(server, i, times[i].0))
  }

  function StampsOf(times: seq<(nat, nat)>): seq<nat> {
    seq(|times|, i requires 0 <= i < |times| => times[i].0)
  }

  function Newest<X>(s: seq<X>, n: nat): (r: seq<X>)
    ensures |r| == if |s| <= n then |s| else n
    ensures r != [] ==> r[0] == s[|s| - |r|]
  {
    if |s| <= n then s else s[|s| - n..]
  }

  lemma NewestPush<X>(s: seq<X>, x: X)
    ensures Drop(Newest(s, 4), if |s| < 4 then 0 else 1) + [x] == Newest(s + [x], 4)
  {
  }

  // None of the insertions' stamps has expired at `now`.
  ghost predicate AllLive(times: seq<(nat, nat)>, now: nat, ttl: nat) {
    forall i | 0 <= i < |times| :: !Expired(times[i].0, now, ttl)
  }

  lemma {:induction false} StateAfterLast(ttl: nat, m: Store, serial: nat, ops: seq<Op>, op: Op)
    ensures StateAfter(ttl, m, serial, ops + [op]) ==
            Apply(ttl, StateAfter(ttl, m, serial, ops), serial + |ops|, op).0
  {
    StateAfterSplit(ttl, m, serial, ops + [op], |ops|);
    assert (ops + [op])[..|ops|] == ops && (ops + [op])[|ops|..] == [op];
    hide Apply;
  }

  lemma {:induction false} AfterInserts(ttl: nat, server: string, times: seq<(nat, nat)>)
    requires forall j | 0 <= j < |times| :: AllLive(times[..j], times[j].1, ttl)
    ensures |Inserts(server, times)| == |times|
    ensures Record(StateAfter(ttl, map[], 0, Inserts(server, times)), server) ==
            Data(Newest(TicketsOf(server, times), 4), Newest(StampsOf(times), 4))
  {
    hide StateAfter;
    if times == [] {
      StateAfterNone(ttl, map[], 0, Inserts(server, times));
    } else {
      var k := |times| - 1;
      var before, last := times[..k], times[k];
      forall j | 0 <= j < |before|
        ensures AllLive(before[..j], before[j].1, ttl)
      {
        assert before[..j] == times[..j];
      }
      AfterInserts(ttl, server, before);
      StateAfterLast(ttl, map[], 0, Inserts(server, before), Insert(server, last.0, last.1));
      InsertBeside(ttl, server, before, last);
      assert TicketsOf(server, times) == TicketsOf(server, before) + [Ticket(server, k, last.0)];
      assert StampsOf(times) == StampsOf(before) + [last.0];
    }
  }

  lemma StateAfterNone(ttl: nat, m: Store, serial: nat, ops: seq<Op>)
    requires ops == []
    ensures StateAfter(ttl, m, serial, ops) == m
  {
  }

  lemma InsertBeside(ttl: nat, server: string, times: seq<(nat, nat)>, last: (nat, nat))
    requires AllLive(times, last.1, ttl)
    ensures var t, tickets, stamps := Ticket(server, |times|, last.0), TicketsOf(server, times), StampsOf(times);
      Inserted(Data(Newest(tickets, 4), Newest(stamps, 4)), t, last.0, last.1, ttl) ==
      Data(Newest(tickets + [t], 4), Newest(stamps + [last.0], 4))
  {
    var t, tickets, stamps := Ticket(server, |times|, last.0), TicketsOf(server, times), StampsOf(times);
    var d := Data(Newest(tickets, 4), Newest(stamps, 4));
    hide Inserted, Newest, Drop;
    InsertedDrops(d, t, last.0, last.1, ttl);
    assert d.stamps != [] ==> d.stamps[0] == times[|times| - |d.stamps|].0;
    assert Gone(d.stamps, last.1, ttl) == 0;
    NewestPush(tickets, t);
    NewestPush(stamps, last.0);
  }

  // Takes from a record whose oldest stamp is live hand out its tickets from the newest to the oldest,
  // and then nothing.
  lemma {:induction false} TakesHandOut(ttl: nat, m: Store, serial: nat, server: string, times: seq<nat>, k: nat)
    requires var d: Data<Ticket> := Record(m, server);
      |d.tickets| <= |d.stamps| &&
      forall i | 0 <= i < |times| && d.stamps != [] :: !Expired(d.stamps[0], times[i], ttl)
    requires k < |times|
    ensures |HandedOut(ttl, m, serial, Takes(server, times))| == |times|
    ensures var d: Data<Ticket> := Record(m, server);
      HandedOut(ttl, m, serial, Takes(server, times))[k] ==
      if k < |d.tickets| then Some(d.tickets[|d.tickets| - 1 - k]) else None
    decreases |times|
  {
    var d: Data<Ticket> := Record(m, server);
    NothingExpired(d, times[0], ttl);
    hide Evicted;
    var (m', first) := Apply(ttl, m, serial, Take(server, times[0]));
    var ops := Takes(server, times);
    assert ops[0] == Take(server, times[0]) && ops[1..] == Takes(server, times[1..]);
    assert HandedOut(ttl, m, serial, ops) == [first] + HandedOut(ttl, m', serial + 1, ops[1..]);
    if |times| == 1 {
      assert HandedOut(ttl, m', serial + 1, ops[1..]) == [];
    } else {
      TakesHandOut(ttl, m', serial + 1, server, times[1..], if k == 0 then 0 else k - 1);
    }
  }

  lemma {:induction false} HandedOutConcat(ttl: nat, m: Store, serial: nat, a: seq<Op>, b: seq<Op>)
    ensures HandedOut(ttl, m, serial, a + b) ==
            HandedOut(ttl, m, serial, a) + HandedOut(ttl, StateAfter(ttl, m, serial, a), serial + |a|, b)
    ensures |HandedOut(ttl, m, serial, a)| == |a|
    decreases |a|
  {
    hide Apply;
    if a == [] {
      assert a + b == b;
    } else {
      HandedOutConcat(ttl, Apply(ttl, m, serial, a[0]).0, serial + 1, a[1..], b);
      assert (a + b)[1..] == a[1..] + b;
    }
  }

  // Over runs: insertions for a server followed by takes, all within the time to live of every stamp, hand
  // out the newest four tickets (all of them, if there are fewer), the newest first, and then nothing.
  lemma NewestHandedOut(ttl: nat, server: string, times: seq<(nat, nat)>, takes: seq<nat>, k: nat)
    requires forall j | 0 <= j < |times| :: AllLive(times[..j], times[j].1, ttl)
    requires (forall j | 0 <= j < |takes| :: AllLive(times, takes[j], ttl)) && k < |takes|
    ensures var handed, n := HandedOut(ttl, map[], 0, Inserts(server, times) + Takes(server, takes)), |times|;
      && |handed| == n + |takes|
      && handed[n + k] == if k < n && k < 4 then Some(Ticket(server, n - 1 - k, times[n - 1 - k].0)) else None
  {
    hide HandedOut, StateAfter, Apply, Inserts;
    var ops, n := Inserts(server, times), |times|;
    AfterInserts(ttl, server, times);
    HandedOutConcat(ttl, map[], 0, ops, Takes(server, takes));
    var m := StateAfter(ttl, map[], 0, ops);
    var d: Data<Ticket> := Record(m, server);
    assert d.stamps != [] ==> d.stamps[0] == times[n - |d.stamps|].0;
    TakesHandOut(ttl, m, n, server, takes, k);
  }

  // ----- When no expired ticket is handed out -----------------------------------------------

  // No eviction, at any time, leaves a ticket that is as old as the time to live.
  ghost predicate NeverStale(d: Data<Ticket>, ttl: nat) {
    forall now: nat, t | t in Evicted(d, now, ttl).tickets :: now < t.born + ttl
  }

  // No stamp up to the one beside a ticket is younger than the ticket.
  ghost predicate Shielded(d: Data<Ticket>) {
    |d.tickets| <= |d.stamps| &&
    forall k, i | 0 <= k <= i < |d.tickets| :: d.stamps[k] <= d.tickets[i].born
  }

  // An eviction keeps the i-th ticket if and only if some stamp up to the i-th one has not expired.
  lemma KeptIff(d: Data<Ticket>, now: nat, ttl: nat, i: nat)
    requires i < |d.tickets| <= |d.stamps|
    ensures i >= Gone(d.stamps, now, ttl) <==> exists k | 0 <= k <= i :: !Expired(d.stamps[k], now, ttl)
    ensures i >= Gone(d.stamps, now, ttl) ==> d.tickets[i] in Evicted(d, now, ttl).tickets
    ensures d.tickets[i] in Evicted(d, now, ttl).tickets ==>
            exists j | Gone(d.stamps, now, ttl) <= j < |d.tickets| :: d.tickets[j] == d.tickets[i]
  {
    EvictedDrops(d, now, ttl);
    var n := Gone(d.stamps, now, ttl);
    if n <= i {
      assert !Expired(d.stamps[n], now, ttl);
      assert d.tickets[i] == d.tickets[n..][i - n];
    }
  }

  // Exact condition on a record: it never leaves an expired ticket behind if and only if no stamp up
  // to the one beside a ticket is younger than the ticket, or everything expires at once.
  lemma NeverStaleIff(d: Data<Ticket>, ttl: nat)
    requires |d.tickets| <= |d.stamps|
    ensures NeverStale(d, ttl) <==> ttl == 0 || Shielded(d)
  {
    if Shielded(d) {
      ShieldedIsNeverStale(d, ttl);
    } else if ttl == 0 {
      forall now: nat
        ensures Evicted(d, now, ttl).tickets == []
      {
        EvictedDrops(d, now, ttl);
      }
    } else {
      var k, i :| 0 <= k <= i < |d.tickets| && d.stamps[k] > d.tickets[i].born;
      var now := d.stamps[k] + ttl - 1;
      assert !Expired(d.stamps[k], now, ttl);
      KeptIff(d, now, ttl, i);
    }
  }

  lemma ShieldedIsNeverStale(d: Data<Ticket>, ttl: nat)
    requires Shielded(d)
    ensures NeverStale(d, ttl)
  {
    forall now: nat, t | t in Evicted(d, now, ttl).tickets
      ensures now < t.born + ttl
    {
      EvictedDrops(d, now, ttl);
      var n := Gone(d.stamps, now, ttl);
      var i :| n <= i < |d.tickets| && d.tickets[i] == t;
      assert !Expired(d.stamps[n], now, ttl) && d.stamps[n] <= t.born;
    }
  }

  // An insertion is overtaken if it finds a younger stamp where its ticket can hide behind it.
  ghost predicate Overtaken(ttl: nat, m: Store, op: Op) {
    op.Insert? && var r := Cleared(Record(m, op.server), op.now, ttl);
      exists k | 0 <= k < |r.stamps| && k <= |r.tickets| :: r.stamps[k] > op.stamp
  }

  ghost predicate NeverOvertaken(ttl: nat, m: Store, serial: nat, ops: seq<Op>)
    decreases |ops|
  {
    ops == [] ||
    (!Overtaken(ttl, m, ops[0]) && NeverOvertaken(ttl, Apply(ttl, m, serial, ops[0]).0, serial + 1, ops[1..]))
  }

  ghost predicate AllShielded(m: Store) {
    forall s | s in m :: Shielded(m[s])
  }

  lemma ClearedKeepsShielded(d: Data<Ticket>, now: nat, ttl: nat)
    requires Shielded(d)
    ensures Shielded(Evicted(d, now, ttl)) && Shielded(Cleared(d, now, ttl))
  {
    EvictedDrops(d, now, ttl);
    DropKeepsShielded(d, Gone(d.stamps, now, ttl));
    hide Evicted, Shielded;
    DropKeepsShielded(Evicted(d, now, ttl), 1);
  }

  lemma DropKeepsShielded(d: Data<Ticket>, n: nat)
    requires Shielded(d)
    ensures Shielded(Data(Drop(d.tickets, n), Drop(d.stamps, n)))
  {
    if n <= |d.tickets| {
      assert forall k | 0 <= k < |d.tickets| - n ::
        d.tickets[n..][k] == d.tickets[n + k] && d.stamps[n..][k] == d.stamps[n + k];
    }
  }

  // An insertion keeps the condition if and only if it is not overtaken; a take always keeps it.
  lemma StepShieldedIff(ttl: nat, m: Store, serial: nat, op: Op)
    requires AllShielded(m)
    ensures AllShielded(Apply(ttl, m, serial, op).0) <==> !Overtaken(ttl, m, op)
  {
    var m', s := Apply(ttl, m, serial, op).0, op.server;
    var d: Data<Ticket> := Record(m, s);
    ClearedKeepsShielded(d, op.now, ttl);
    if op.Insert? {
      PushShieldedIff(Cleared(d, op.now, ttl), Ticket(s, serial, op.stamp), op.stamp);
      assert m'[s] == Inserted(d, Ticket(s, serial, op.stamp), op.stamp, op.now, ttl);
    } else if s in m {
      var e := Evicted(d, op.now, ttl);
      assert Shielded(e) && Shielded(m'[s]);
    }
    hide Shielded, Overtaken;
    assert forall x | x in m' && x != s :: m'[x] == m[x];
  }

  lemma PushShieldedIff(r: Data<Ticket>, t: Ticket, stamp: nat)
    requires Shielded(r) && t.born == stamp
    ensures Shielded(Data(r.tickets + [t], r.stamps + [stamp])) <==>
            forall k | 0 <= k < |r.stamps| && k <= |r.tickets| :: r.stamps[k] <= stamp
  {
    var d := Data(r.tickets + [t], r.stamps + [stamp]);
    var n := |r.tickets|;
    assert forall k | 0 <= k < |r.stamps| :: d.stamps[k] == r.stamps[k];
    if Shielded(d) {
      forall k | 0 <= k < |r.stamps| && k <= n
        ensures r.stamps[k] <= stamp
      {
        assert d.stamps[k] <= d.tickets[n].born;
      }
    }
  }

  lemma {:induction false} RunShieldedIff(ttl: nat, m: Store, serial: nat, ops: seq<Op>)
    requires AllShielded(m)
    ensures (forall n | 0 <= n <= |ops| :: AllShielded(StateAfter(ttl, m, serial, ops[..n]))) <==>
            NeverOvertaken(ttl, m, serial, ops)
    decreases |ops|
  {
    hide AllShielded, Apply, Overtaken;
    if ops == [] {
      assert ops[..0] == [];
    } else {
      var m', rest := Apply(ttl, m, serial, ops[0]).0, ops[1..];
      StepShieldedIff(ttl, m, serial, ops[0]);
      forall n | 1 <= n <= |ops|
        ensures StateAfter(ttl, m, serial, ops[..n]) == StateAfter(ttl, m', serial + 1, rest[..n - 1])
      {
        assert ops[..n][1..] == rest[..n - 1];
      }
      assert ops[..0] == [];
      if AllShielded(m') {
        RunShieldedIff(ttl, m', serial + 1, rest);
        if forall n | 0 <= n <= |ops| :: AllShielded(StateAfter(ttl, m, serial, ops[..n])) {
          forall n | 0 <= n <= |rest|
            ensures AllShielded(StateAfter(ttl, m', serial + 1, rest[..n]))
          {
            assert AllShielded(StateAfter(ttl, m, serial, ops[..n + 1]));
          }
        }
      } else {
        assert StateAfter(ttl, m, serial, ops[..1]) == StateAfter(ttl, m', serial + 1, rest[..0]) == m';
      }
    }
  }

  // Exact condition on a run, whatever the clocks show: no eviction ever leaves an expired ticket in any
  // of its states if and only if no insertion was overtaken, or the time to live is zero.
  lemma RunNeverStaleIff(ttl: nat, ops: seq<Op>)
    ensures (forall n, s | 0 <= n <= |ops| && s in StateAfter(ttl, map[], 0, ops[..n]) ::
               NeverStale(StateAfter(ttl, map[], 0, ops[..n])[s], ttl)) <==>
            ttl == 0 || NeverOvertaken(ttl, map[], 0, ops)
  {
    hide NeverStale, Shielded, StateAfter;
    forall n, s | 0 <= n <= |ops| && s in StateAfter(ttl, map[], 0, ops[..n])
      ensures NeverStale(StateAfter(ttl, map[], 0, ops[..n])[s], ttl) <==>
              ttl == 0 || Shielded(StateAfter(ttl, map[], 0, ops[..n])[s])
    {
      OkAfter(ttl, map[], 0, ops[..n]);
      NeverStaleIff(StateAfter(ttl, map[], 0, ops[..n])[s], ttl);
    }
    RunShieldedIff(ttl, map[], 0, ops);
  }

  ghost predicate Fresh(t: Ticket, op: Op, ttl: nat) {
    t.server == op.server && t.born <= op.now < t.born + ttl
  }

  // In particular, over every run without overtaken insertions no ticket as old as the time to live is
  // handed out.
  lemma HandedOutLive(ttl: nat, ops: seq<Op>, i: nat)
    requires NeverOvertaken(ttl, map[], 0, ops) && i < |ops|
    ensures |HandedOut(ttl, map[], 0, ops)| == |ops|
    ensures var handed := HandedOut(ttl, map[], 0, ops)[i]; handed.Some? ==> ops[i].now < handed.value.born + ttl
  {
    hide HandedOut, StateAfter, NeverOvertaken, Shielded, Evicted;
    HandedOutNewest(ttl, ops, i);
    RunShieldedIff(ttl, map[], 0, ops);
    if HandedOut(ttl, map[], 0, ops)[i].Some? {
      var m := StateAfter(ttl, map[], 0, ops[..i]);
      assert AllShielded(m);
      ShieldedIsNeverStale(m[ops[i].server], ttl);
    }
  }

  // Conversely, an insertion overtaken by a stamp that is still live leads to a take that hands out its
  // ticket too late.
  lemma OvertakenIsHandedOut(ttl: nat, m: Store, serial: nat, op: Op, k: nat) returns (later: nat)
    requires ttl > 0 && op.Insert? && StoreOk(m, serial)
    requires var r := Cleared(Record(m, op.server), op.now, ttl);
      k < |r.stamps| && k <= |r.tickets| && r.stamps[k] > op.stamp && !Expired(r.stamps[k], op.now, ttl)
    ensures op.now <= later && op.stamp + ttl <= later
    ensures StoreTaken(Apply(ttl, m, serial, op).0, op.server, later, ttl).1 == Some(Ticket(op.server, serial, op.stamp))
  {
    hide Evicted;
    var d: Data<Ticket> := Record(m, op.server);
    var r, t := Cleared(d, op.now, ttl), Ticket(op.server, serial, op.stamp);
    ClearedKeepsOk(op.server, d, serial, op.now, ttl);
    later := r.stamps[k] + ttl - 1;
    var after := Data(r.tickets + [t], r.stamps + [op.stamp]);
    assert Apply(ttl, m, serial, op).0[op.server] == after;
    EvictedDrops(after, later, ttl);
    var n := Gone(after.stamps, later, ttl);
    assert !Expired(after.stamps[k], later, ttl) && n <= k;
    assert after.tickets[n..][|r.tickets| - n] == t;
  }

  // ----- Operations one after the other -----------------------------------------------------

  // What the clock has shown bounds what is stored.
  ghost predicate Past(d: Data<Ticket>, clock: nat) {
    (forall k | 0 <= k < |d.stamps| :: d.stamps[k] <= clock) && forall t | t in d.tickets :: t.born <= clock
  }

  ghost predicate AllPast(m: Store, clock: nat) {
    forall s | s in m :: Past(m[s], clock)
  }

  lemma StepKeepsPast(ttl: nat, m: Store, serial: nat, clock: nat, op: Op)
    requires AllPast(m, clock) && Sequential(clock, [op])
    ensures !Overtaken(ttl, m, op) && AllPast(Apply(ttl, m, serial, op).0, op.now)
  {
    var m', s := Apply(ttl, m, serial, op).0, op.server;
    var d: Data<Ticket> := Record(m, s);
    ClearedKeepsPast(d, clock, op.now, ttl);
    hide Evicted, Cleared;
    if op.Insert? {
      assert Past(m'[s], op.now);
    } else if s in m {
      assert Past(m'[s], op.now);
    }
    assert forall x | x in m' && x != s :: m'[x] == m[x];
  }

  lemma ClearedKeepsPast(d: Data<Ticket>, clock: nat, now: nat, ttl: nat)
    requires Past(d, clock)
    ensures Past(Evicted(d, now, ttl), clock) && Past(Cleared(d, now, ttl), clock)
  {
    EvictedDrops(d, now, ttl);
    hide Evicted;
  }

  lemma {:induction false} SequentialNeverOvertaken(ttl: nat, m: Store, serial: nat, clock: nat, ops: seq<Op>)
    requires AllPast(m, clock) && Sequential(clock, ops)
    ensures NeverOvertaken(ttl, m, serial, ops)
    ensures forall n | 0 < n <= |ops| :: AllPast(StateAfter(ttl, m, serial, ops[..n]), ops[n - 1].now)
    decreases |ops|
  {
    hide AllPast, Apply, Overtaken;
    if ops == [] {
    } else {
      var m', rest := Apply(ttl, m, serial, ops[0]).0, ops[1..];
      StepKeepsPast(ttl, m, serial, clock, ops[0]);
      SequentialNeverOvertaken(ttl, m', serial + 1, ops[0].now, rest);
      forall n | 0 < n <= |ops|
        ensures AllPast(StateAfter(ttl, m, serial, ops[..n]), ops[n - 1].now)
      {
        assert ops[..n][1..] == rest[..n - 1];
        if n == 1 {
          assert StateAfter(ttl, m', serial + 1, rest[..0]) == m';
        } else {
          assert AllPast(StateAfter(ttl, m', serial + 1, rest[..n - 1]), rest[n - 2].now);
        }
      }
    }
  }

  // Over every run of operations one after the other, whatever is handed out is live.
  lemma SequentialIsFresh(ttl: nat, ops: seq<Op>, i: nat)
    requires Sequential(0, ops) && i < |ops|
    ensures |HandedOut(ttl, map[], 0, ops)| == |ops|
    ensures var handed := HandedOut(ttl, map[], 0, ops)[i]; handed.Some? ==> Fresh(handed.value, ops[i], ttl)
  {
    hide HandedOut, StateAfter, NeverOvertaken, Evicted, Apply;
    SequentialNeverOvertaken(ttl, map[], 0, 0, ops);
    HandedOutLive(ttl, ops, i);
    HandedOutNewest(ttl, ops, i);
    if HandedOut(ttl, map[], 0, ops)[i].Some? {
      assert AllPast(StateAfter(ttl, map[], 0, ops[..i]), ops[i - 1].now);
      ClockRises(0, ops, i);
    }
  }

  lemma {:induction false} ClockRises(clock: nat, ops: seq<Op>, i: nat)
    requires Sequential(clock, ops) && 0 < i < |ops|
    ensures ops[i - 1].now <= ops[i].now
    decreases i
  {
    if i == 1 {
    } else {
      ClockRises(ops[0].now, ops[1..], i - 1);
    }
  }

  // ----- When a live ticket is evicted early ------------------------------------------------

  ghost predicate SparesLive(d: Data<Ticket>, now: nat, ttl: nat) {
    forall t | t in d.tickets && now < t.born + ttl :: t in Evicted(d, now, ttl).tickets
  }

  // Exact condition: no later eviction loses a live ticket if and only if every ticket that is still
  // live has a stamp up to the one beside it that is no older than the ticket.
  lemma SparesLiveIff(server: string, d: Data<Ticket>, clock: nat, serial: nat, ttl: nat)
    requires RecordOk(server, d, serial) && forall t | t in d.tickets :: t.born <= clock
    ensures (forall now: nat | clock <= now :: SparesLive(d, now, ttl)) <==>
            (forall i | 0 <= i < |d.tickets| && clock < d.tickets[i].born + ttl ::
               exists k | 0 <= k <= i :: d.stamps[k] >= d.tickets[i].born)
  {
    hide Evicted, Ascending;
    if i :| 0 <= i < |d.tickets| && clock < d.tickets[i].born + ttl &&
            forall k | 0 <= k <= i :: d.stamps[k] < d.tickets[i].born {
      var now := d.tickets[i].born + ttl - 1;
      KeptIff(d, now, ttl, i);
      AscendingMembers(server, d.tickets, 0, serial);
      assert d.tickets[i] in d.tickets && !SparesLive(d, now, ttl);
    } else {
      forall now: nat, i | clock <= now && 0 <= i < |d.tickets| && now < d.tickets[i].born + ttl
        ensures d.tickets[i] in Evicted(d, now, ttl).tickets
      {
        var k :| 0 <= k <= i && d.stamps[k] >= d.tickets[i].born;
        assert !Expired(d.stamps[k], now, ttl);
        KeptIff(d, now, ttl, i);
      }
    }
  }

  // As long as no ticket has been taken, every ticket sits beside its own stamp, so expiry removes
  // exactly the expired tickets.
  ghost predicate Aligned(d: Data<Ticket>) {
    |d.stamps| == |d.tickets| && forall i | 0 <= i < |d.tickets| :: d.stamps[i] == d.tickets[i].born
  }

  lemma ClearedKeepsAligned(d: Data<Ticket>, now: nat, ttl: nat)
    requires Aligned(d)
    ensures Aligned(Evicted(d, now, ttl)) && Aligned(Cleared(d, now, ttl))
  {
    EvictedDrops(d, now, ttl);
    DropKeepsAligned(d, Gone(d.stamps, now, ttl));
    hide Evicted, Aligned;
    DropKeepsAligned(Evicted(d, now, ttl), 1);
  }

  lemma DropKeepsAligned(d: Data<Ticket>, n: nat)
    requires Aligned(d)
    ensures Aligned(Data(Drop(d.tickets, n), Drop(d.stamps, n)))
  {
  }

  lemma {:induction false} AlignedUntilTake(ttl: nat, m: Store, serial: nat, ops: seq<Op>)
    requires forall s | s in m :: Aligned(m[s])
    requires forall handed | handed in HandedOut(ttl, m, serial, ops) :: handed.None?
    ensures forall s | s in StateAfter(ttl, m, serial, ops) :: Aligned(StateAfter(ttl, m, serial, ops)[s])
    decreases |ops|
  {
    if ops == [] {
    } else {
      var op := ops[0];
      var (m', handed) := Apply(ttl, m, serial, op);
      assert handed == HandedOut(ttl, m, serial, ops)[0] && handed.None?;
      var d: Data<Ticket> := Record(m, op.server);
      ClearedKeepsAligned(d, op.now, ttl);
      if op.Insert? {
        assert Aligned(Inserted(d, Ticket(op.server, serial, op.stamp), op.stamp, op.now, ttl));
      } else if op.server in m {
        assert Aligned(Taken(d, op.now, ttl).0);
      }
      AlignedUntilTake(ttl, m', serial + 1, ops[1..]);
    }
  }

  lemma NothingExpired(d: Data<Ticket>, now: nat, ttl: nat)
    requires d.stamps != [] ==> !Expired(d.stamps[0], now, ttl)
    ensures Evicted(d, now, ttl) == d
  {
  }

  lemma InsertBehind(ttl: nat, m: Store, serial: nat, server: string, stamp: nat, now: nat, m': Store)
    requires var r := Record(m, server);
      && |r.tickets| < MAX_TICKETS_PER_SERVER && (r.stamps != [] ==> !Expired(r.stamps[0], now, ttl))
      && m' == m[server := Data(r.tickets + [Ticket(server, serial, stamp)], r.stamps + [stamp])]
    ensures Apply(ttl, m, serial, Insert(server, stamp, now)).0 == m'
  {
    NothingExpired(Record(m, server), now, ttl);
  }

  lemma TakeNewest(ttl: nat, m: Store, serial: nat, server: string, now: nat, m': Store)
    requires server in m && m[server].tickets != [] && m[server].stamps != []
    requires !Expired(m[server].stamps[0], now, ttl)
    requires m' == m[server := m[server].(tickets := m[server].tickets[..|m[server].tickets| - 1])]
    ensures Apply(ttl, m, serial, Take(server, now)).0 == m'
  {
    NothingExpired(m[server], now, ttl);
  }

  function Only(server: string, tickets: seq<Ticket>, stamps: seq<nat>): Store {
    map[server := Data(tickets, stamps)]
  }

  lemma Prepend(ttl: nat, m: Store, serial: nat, clock: nat, op: Op, rest: seq<Op>, m': Store)
    requires Apply(ttl, m, serial, op).0 == m'
    ensures StateAfter(ttl, m, serial, [op] + rest) == StateAfter(ttl, m', serial + 1, rest)
    ensures clock <= (if op.Insert? then op.stamp else op.now) <= op.now && Sequential(op.now, rest) ==>
            Sequential(clock, [op] + rest)
  {
    hide Apply;
    assert ([op] + rest)[1..] == rest;
  }

  // One successful take is enough to lose a live ticket: whatever the time to live (two ticks or
  // more), a ticket stored one tick after a taken one is evicted one tick before its time.
  lemma LiveTicketLost(server: string, ttl: nat) returns (ops: seq<Op>)
    requires ttl >= 2
    ensures ops == [Insert(server, 0, 0), Take(server, 0), Insert(server, 1, 1)] && Sequential(0, ops)
    ensures var m, t := StateAfter(ttl, map[], 0, ops), Ticket(server, 2, 1);
      && server in m && m[server].tickets == [t]
      && Fresh(t, Take(server, ttl), ttl) && Taken(m[server], ttl, ttl).1 == None
  {
    hide Apply, Taken;
    var t0, t := Ticket(server, 0, 0), Ticket(server, 2, 1);
    var m1, m2, m3 := Only(server, [t0], [0]), Only(server, [], [0]), Only(server, [t], [0, 1]);
    assert [] + [t0] == [t0] && [] + [t] == [t] && [] + [0] == [0] && [0] + [1] == [0, 1] && [t0][..0] == [];
    InsertBehind(ttl, m2, 2, server, 1, 1, m3);
    Prepend(ttl, m2, 2, 0, Insert(server, 1, 1), [], m3);
    TakeNewest(ttl, m1, 1, server, 0, m2);
    Prepend(ttl, m1, 1, 0, Take(server, 0), [Insert(server, 1, 1)] + [], m2);
    InsertBehind(ttl, map[], 0, server, 0, 0, m1);
    ops := [Insert(server, 0, 0)] + ([Take(server, 0)] + ([Insert(server, 1, 1)] + []));
    Prepend(ttl, map[], 0, 0, Insert(server, 0, 0), ops[1..], m1);
    LosesTicket(t, ttl);
  }

  lemma LosesTicket(t: Ticket, ttl: nat)
    requires ttl >= 2
    ensures Taken(Data([t], [0, 1]), ttl, ttl).1 == None
  {
    assert !Expired(1, ttl, ttl) && Expired(0, ttl, ttl);
    assert Evicted(Data([t], [0, 1]), ttl, ttl) == Evicted(Data([], [1]), ttl, ttl) == Data([], [1]);
  }

  // Overlapping insertions are overtaken: one that reads the clock, waits for the lock while another
  // one completes and stores the older stamp last leaves a ticket that is handed out at the age of
  // exactly the time to live.
  lemma OverlapOutlivesTtl(server: string, ttl: nat) returns (ops: seq<Op>)
    requires ttl >= 1
    ensures ops == [Insert(server, 1, 1), Insert(server, 0, 1)]
    ensures var m, t := StateAfter(ttl, map[], 0, ops), Ticket(server, 1, 0);
      server in m && Taken(m[server], ttl, ttl).1 == Some(t) && !Fresh(t, Take(server, ttl), ttl)
  {
    hide Apply, Evicted;
    var t0, t := Ticket(server, 0, 1), Ticket(server, 1, 0);
    var m1, m2 := Only(server, [t0], [1]), Only(server, [t0, t], [1, 0]);
    assert [] + [t0] == [t0] && [t0] + [t] == [t0, t] && [] + [1] == [1] && [1] + [0] == [1, 0];
    InsertBehind(ttl, m1, 1, server, 0, 1, m2);
    Prepend(ttl, m1, 1, 0, Insert(server, 0, 1), [], m2);
    InsertBehind(ttl, map[], 0, server, 1, 1, m1);
    ops := [Insert(server, 1, 1)] + ([Insert(server, 0, 1)] + []);
    Prepend(ttl, map[], 0, 0, Insert(server, 1, 1), ops[1..], m1);
    NothingExpired(m2[server], ttl, ttl);
  }

  // The stamps of taken tickets pile up: from the empty store, and one operation after the other, their
  // number grows without bound.
  lemma StampsPileUp(server: string, ttl: nat, n: nat) returns (ops: seq<Op>)
    requires ttl > 0
    ensures Sequential(0, ops) && |ops| == 2 * n
    ensures var d: Data<Ticket> := Record(StateAfter(ttl, map[], 0, ops), server); d.tickets == [] && |d.stamps| == n
  {
    ops := PileUpFrom(server, ttl, n, map[], 0);
  }

  lemma {:induction false} PileUpFrom(server: string, ttl: nat, n: nat, m: Store, serial: nat) returns (ops: seq<Op>)
    requires ttl > 0 && Record(m, server).tickets == []
    requires forall i | 0 <= i < |Record(m, server).stamps| :: Record(m, server).stamps[i] == 0
    ensures Sequential(0, ops) && |ops| == 2 * n
    ensures var d: Data<Ticket> := Record(StateAfter(ttl, m, serial, ops), server);
      d.tickets == [] && |d.stamps| == |Record(m, server).stamps| + n
    decreases n
  {
    hide Apply;
    ops := [];
    if n == 0 {
    } else {
      var t, stamps := Ticket(server, serial, 0), Record(m, server).stamps + [0];
      var m1, m2 := m[server := Data([t], stamps)], m[server := Data([], stamps)];
      assert [] + [t] == [t] && [t][..0] == [];
      var rest := PileUpFrom(server, ttl, n - 1, m2, serial + 2);
      TakeNewest(ttl, m1, serial + 1, server, 0, m2);
      Prepend(ttl, m1, serial + 1, 0, Take(server, 0), rest, m2);
      InsertBehind(ttl, m, serial, server, 0, 0, m1);
      Prepend(ttl, m, serial, 0, Insert(server, 0, 0), [Take(server, 0)] + rest, m1);
      ops := [Insert(server, 0, 0)] + ([Take(server, 0)] + rest);
    }
  }
}
