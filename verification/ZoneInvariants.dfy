/** What every zone keeps, whatever the interleaving of its own handlers with the server's posts. */
module ZoneInvariants {
  import opened Zones

  // ---------------------------------------------------------------- queued membership changes

  /** How a handler changes the set of members. */
  function Effect(members: set<ClientId>, h: Handler): set<ClientId> {
    match h
    case AddClient(c) => members + {c.id}
    case RemoveClient(c) => members - {c.id}
    case _ => members
  }

  /** The members once the whole queue has been worked off. */
  function Drain(members: set<ClientId>, queue: seq<Handler>): set<ClientId>
    decreases |queue|
  {
    if queue == [] then members else Drain(Effect(members, queue[0]), queue[1..])
  }

  /** A handler finds what it expects: an add a newcomer, a remove or a packet a member. */
  predicate Fits(members: set<ClientId>, h: Handler) {
    match h
    case AddClient(c) => c.id !in members
    case RemoveClient(c) => c.id in members
    case HandlePacket(p) => p.client.id in members
    case Tick => true
  }

  /** Every queued handler will find what it expects when its turn comes. */
  predicate WellQueued(members: set<ClientId>, queue: seq<Handler>)
    decreases |queue|
  {
    queue == [] || (Fits(members, queue[0]) && WellQueued(Effect(members, queue[0]), queue[1..]))
  }

  lemma {:induction false} DrainAppend(members: set<ClientId>, queue: seq<Handler>, h: Handler)
    ensures Drain(members, queue + [h]) == Effect(Drain(members, queue), h)
    ensures WellQueued(members, queue + [h]) <==> WellQueued(members, queue) && Fits(Drain(members, queue), h)
    decreases |queue|
  {
    if queue == [] {
      assert (queue + [h])[1..] == [];
    } else {
      assert (queue + [h])[1..] == queue[1..] + [h];
      DrainAppend(Effect(members, queue[0]), queue[1..], h);
    }
  }

  /** Spelled out position by position: what each queued handler will find. */
  lemma {:induction false} WellQueuedAt(members: set<ClientId>, queue: seq<Handler>, k: nat)
    requires WellQueued(members, queue) && k < |queue|
    ensures Fits(Drain(members, queue[..k]), queue[k])
    decreases k
  {
    if k > 0 {
      WellQueuedAt(Effect(members, queue[0]), queue[1..], k - 1);
      assert queue[..k][1..] == queue[1..][..k - 1];
    }
  }

  /** Does a handler add or remove client `id`? */
  predicate Changes(h: Handler, id: ClientId) {
    (h.AddClient? || h.RemoveClient?) && h.client.id == id
  }

  /** The position of the first queued add or remove of `id`, or the end of the queue when there is none. */
  function FirstChange(queue: seq<Handler>, id: ClientId): (k: nat)
    ensures k <= |queue| && (k < |queue| ==> Changes(queue[k], id))
    ensures forall i :: 0 <= i < k ==> !Changes(queue[i], id)
    decreases |queue|
  {
    if queue == [] || Changes(queue[0], id) then 0 else FirstChange(queue[1..], id) + 1
  }

  /** Whether a client is a member can be read off the queue: its first queued change tells, and without one the
      drained membership does. */
  lemma {:induction false} MemberByQueue(members: set<ClientId>, queue: seq<Handler>, id: ClientId)
    requires WellQueued(members, queue)
    ensures var k := FirstChange(queue, id);
            id in members <==> if k < |queue| then queue[k].RemoveClient? else id in Drain(members, queue)
    decreases |queue|
  {
    if queue != [] && !Changes(queue[0], id) { MemberByQueue(Effect(members, queue[0]), queue[1..], id); }
  }

  lemma DrainNext(members: set<ClientId>, queue: seq<Handler>, k: nat)
    requires k < |queue|
    ensures Drain(members, queue[..k + 1]) == Effect(Drain(members, queue[..k]), queue[k])
  {
    assert queue[..k + 1] == queue[..k] + [queue[k]];
    DrainAppend(members, queue[..k], queue[k]);
  }

  /** Between two positions at which `id` is and is not a member lies a change of the kind that explains it. */
  lemma {:induction false} ChangeBetween(members: set<ClientId>, queue: seq<Handler>, id: ClientId, i: nat, j: nat)
    returns (k: nat)
    requires i <= j <= |queue|
    requires (id in Drain(members, queue[..i])) != (id in Drain(members, queue[..j]))
    ensures i <= k < j && Changes(queue[k], id)
    ensures queue[k].RemoveClient? <==> id in Drain(members, queue[..i])
    decreases j - i
  {
    DrainNext(members, queue, j - 1);
    if (id in Drain(members, queue[..i])) != (id in Drain(members, queue[..j - 1])) {
      k := ChangeBetween(members, queue, id, i, j - 1);
    } else {
      k := j - 1;
    }
  }

  /** The queued adds and removes of one client alternate. */
  lemma ChangesAlternate(members: set<ClientId>, queue: seq<Handler>, id: ClientId, i: nat, j: nat) returns (k: nat)
    requires WellQueued(members, queue) && i < j < |queue|
    requires Changes(queue[i], id) && Changes(queue[j], id) && (queue[i].AddClient? <==> queue[j].AddClient?)
    ensures i < k < j && Changes(queue[k], id) && (queue[k].AddClient? <==> !queue[i].AddClient?)
  {
    WellQueuedAt(members, queue, i);
    WellQueuedAt(members, queue, j);
    DrainNext(members, queue, i);
    k := ChangeBetween(members, queue, id, i + 1, j);
  }

  /** A remove or a packet of a client that is no member changes nothing. */
  lemma StrangersChangeNothing(z: ZoneState, h: Handler, now: int, done: int)
    requires h.RemoveClient? || h.HandlePacket?
    requires (if h.RemoveClient? then h.client.id else h.packet.client.id) !in z.clients
    ensures Worked(z, h, now, done) == z
  {
  }

  // ---------------------------------------------------------------- queued ticks

  function Ticks(queue: seq<Handler>): nat
    decreases |queue|
  {
    if queue == [] then 0 else (if queue[0] == Tick then 1 else 0) + Ticks(queue[1..])
  }

  lemma {:induction false} TicksAppend(queue: seq<Handler>, h: Handler)
    ensures Ticks(queue + [h]) == Ticks(queue) + (if h == Tick then 1 else 0)
    decreases |queue|
  {
    if queue == [] {
      assert (queue + [h])[1..] == [];
    } else {
      assert (queue + [h])[1..] == queue[1..] + [h];
      TicksAppend(queue[1..], h);
    }
  }

  // ---------------------------------------------------------------- what a client has been told

  /** How one message changes what its reader believes. */
  function Read(before: set<EntityId>, m: Message): set<EntityId> {
    match m
    case PlayerSpawns(players) => players
    case PlayerSpawn(player) => before + {player}
    case EntityDespawn(entity) => before - {entity}
    case _ => before
  }

  /** The players a client believes to be around after reading `log`. */
  function View(log: seq<Message>): set<EntityId> {
    if log == [] then {} else Read(View(log[..|log| - 1]), log[|log| - 1])
  }

  lemma ViewAppend(log: seq<Message>, m: Message)
    ensures View(log + [m]) == Read(View(log), m)
  {
    assert (log + [m])[..|log|] == log;
  }

  ghost predicate Injective(m: map<ClientId, EntityId>) {
    forall a, b :: a in m && b in m && a != b ==> m[a] != m[b]
  }

  /** The members are told apart by their players, and nobody has the reserved id 0. */
  ghost predicate Identified(z: ZoneState) {
    Injective(z.clients) && 0 !in z.clients
  }

  ghost predicate Informed(z: ZoneState, id: ClientId)
    requires id in z.clients
  {
    View(Log(z.sent, id)) == z.clients.Values - {z.clients[id]}
  }

  /** Every member knows exactly the other players of the zone. */
  ghost predicate Replicated(z: ZoneState) {
    forall id {:trigger Informed(z, id)} :: id in z.clients ==> Informed(z, id)
  }

  /** The players in the subworld are exactly those of the members. */
  ghost predicate Populated(z: ZoneState) {
    forall e :: (e in z.entities && z.entities[e]) <==> e in z.clients.Values
  }

  /** A zone runs exactly while it has members, and then a tick is pending. */
  ghost predicate Ticking(z: ZoneState) {
    (z.running <==> z.clients != map[]) && (z.running ==> Tick in z.queue)
  }

  /** Every simulation step begins at least one interval after the previous one ended. */
  ghost predicate Spaced(z: ZoneState) {
    && (forall i :: 0 <= i < |z.steps| ==> z.steps[i].0 <= z.steps[i].1)
    && (forall i :: 0 < i < |z.steps| ==> z.steps[i - 1].1 + TICK_INTERVAL <= z.steps[i].0)
    && (z.steps != [] ==> z.steps[|z.steps| - 1].1 == z.lastTick)
  }

  ghost predicate Inv(z: ZoneState) {
    && Identified(z) && WellQueued(z.clients.Keys, z.queue)
    && Replicated(z) && Populated(z) && Ticking(z) && Spaced(z)
  }

  // ---------------------------------------------------------------- preservation, handler by handler

  lemma ValuesAfterAdd(m: map<ClientId, EntityId>, id: ClientId, e: EntityId)
    requires id !in m
    ensures m[id := e].Values == m.Values + {e}
  {
    var n := m[id := e];
    forall v | v in m.Values + {e} ensures v in n.Values {
      if v in m.Values { var k :| k in m && m[k] == v; assert n[k] == v; } else { assert n[id] == v; }
    }
  }

  lemma ValuesAfterRemove(m: map<ClientId, EntityId>, id: ClientId)
    requires id in m && Injective(m)
    ensures (m - {id}).Values == m.Values - {m[id]}
  {
    var n := m - {id};
    forall v | v in m.Values - {m[id]} ensures v in n.Values {
      var k :| k in m && m[k] == v;
      assert n[k] == v;
    }
    forall v | v in n.Values ensures v in m.Values - {m[id]} {
      var k :| k in n && n[k] == v;
      assert m[k] == v;
    }
  }

  lemma NewcomerIsInformed(z: ZoneState, c: Client)
    requires c.id !in z.clients
    ensures Informed(Added(z, c), c.id)
  {
    var t, log := Added(z, c), Log(z.sent, c.id);
    var greeting, rest := PlayerSpawns(t.clients.Values - {c.player}), EntitySpawns(Others(t.entities));
    assert Log(t.sent, c.id) == (log + [greeting]) + [rest];
    ViewAppend(log, greeting);
    ViewAppend(log + [greeting], rest);
  }

  lemma MemberIsInformed(z: ZoneState, c: Client, id: ClientId)
    requires id in z.clients && Informed(z, id) && c.id !in z.clients && c.player !in z.clients.Values
    ensures Informed(Added(z, c), id)
  {
    var t, log := Added(z, c), Log(z.sent, id);
    ValuesAfterAdd(z.clients, c.id, c.player);
    assert Log(t.sent, id) == log + [PlayerSpawn(c.player)];
    ViewAppend(log, PlayerSpawn(c.player));
    assert z.clients[id] in z.clients.Values;
  }

  lemma AddPopulates(z: ZoneState, c: Client)
    requires Identified(z) && Populated(z)
    requires c.id !in z.clients && c.id != 0 && c.player !in z.clients.Values
    ensures Populated(Added(z, c)) && Identified(Added(z, c))
  {
    ValuesAfterAdd(z.clients, c.id, c.player);
  }

  /** A client that enters is greeted with all the others, and announced to them. */
  lemma AddReplicates(z: ZoneState, c: Client)
    requires Identified(z) && Replicated(z) && Populated(z)
    requires c.id !in z.clients && c.id != 0 && c.player !in z.clients.Values
    ensures Replicated(Added(z, c)) && Populated(Added(z, c)) && Identified(Added(z, c))
  {
    AddPopulates(z, c);
    NewcomerIsInformed(z, c);
    forall id | id in Added(z, c).clients ensures Informed(Added(z, c), id) {
      if id != c.id {
        assert Informed(z, id);
        MemberIsInformed(z, c, id);
      }
    }
  }

  /** A client that leaves is struck from the others' views. */
  lemma RemoveReplicates(z: ZoneState, c: Client)
    requires Identified(z) && Replicated(z) && Populated(z)
    requires c.id in z.clients && z.clients[c.id] == c.player
    ensures Replicated(Removed(z, c)) && Populated(Removed(z, c)) && Identified(Removed(z, c))
  {
    var t := Removed(z, c);
    ValuesAfterRemove(z.clients, c.id);
    forall id | id in t.clients ensures Informed(t, id) {
      assert Informed(z, id);
      var log := Log(z.sent, id);
      assert Log(t.sent, id) == log + [EntityDespawn(c.player)];
      ViewAppend(log, EntityDespawn(c.player));
    }
  }

  lemma TickReplicates(z: ZoneState, now: int, done: int)
    requires Identified(z) && Replicated(z)
    ensures Replicated(Ticked(z, now, done))
  {
    var t := Ticked(z, now, done);
    forall id | id in t.clients ensures Informed(t, id) {
      assert Informed(z, id);
      ViewAppend(Log(z.sent, id), EntityMovements(z.entities.Keys));
    }
  }

  ghost function Popped(z: ZoneState): ZoneState
    requires z.queue != []
  {
    z.(queue := z.queue[1..])
  }

  /** The invariant between taking a handler off the queue and running it. */
  ghost predicate Ready(z: ZoneState, h: Handler) {
    && Identified(z) && Replicated(z) && Populated(z) && Spaced(z)
    && Fits(z.clients.Keys, h) && WellQueued(Effect(z.clients.Keys, h), z.queue)
    && (z.running <==> z.clients != map[])
    && (z.running && h != Tick ==> Tick in z.queue)
  }

  lemma PopMakesReady(z: ZoneState)
    requires Inv(z) && z.queue != []
    ensures Ready(Popped(z), z.queue[0])
  {
    var t := Popped(z);
    forall id | id in t.clients ensures Informed(t, id) { assert Informed(z, id); }
    assert z.queue == [z.queue[0]] + z.queue[1..];
  }

  lemma AddKeepsInv(z: ZoneState, c: Client)
    requires Ready(z, AddClient(c)) && c.id != 0 && c.player !in z.clients.Values
    ensures Inv(Added(z, c)) && Added(z, c).clients.Keys == Effect(z.clients.Keys, AddClient(c))
  {
    AddReplicates(z, c);
    DrainAppend(z.clients.Keys + {c.id}, z.queue, Tick);
    assert Added(z, c).clients.Keys == z.clients.Keys + {c.id};
  }

  lemma RemoveKeepsInv(z: ZoneState, c: Client)
    requires Ready(z, RemoveClient(c)) && z.clients[c.id] == c.player
    ensures Inv(Removed(z, c)) && Removed(z, c).clients.Keys == Effect(z.clients.Keys, RemoveClient(c))
  {
    RemoveReplicates(z, c);
    assert Removed(z, c).clients.Keys == z.clients.Keys - {c.id};
  }

  /** A packet whose turn comes is handled, never dropped for want of its client, and is all that changes. */
  lemma HandleKeepsInv(z: ZoneState, p: Packet)
    requires Ready(z, HandlePacket(p))
    ensures Inv(Handled(z, p)) && Handled(z, p) == z.(handled := z.handled + [p])
  {
    var t := Handled(z, p);
    forall id | id in t.clients ensures Informed(t, id) { assert Informed(z, id); }
  }

  lemma TickKeepsInv(z: ZoneState, now: int, done: int)
    requires Ready(z, Tick) && now <= done
    ensures Inv(Ticked(z, now, done)) && Ticked(z, now, done).clients == z.clients
  {
    TickReplicates(z, now, done);
    DrainAppend(z.clients.Keys, z.queue, Tick);
  }

  /** What has to be true of the clients named in handlers: one fixed player each, never the reserved id. */
  ghost predicate Known(players: map<ClientId, EntityId>, h: Handler) {
    match h
    case AddClient(c) => c.id in players && players[c.id] == c.player && c.id != 0
    case RemoveClient(c) => c.id in players && players[c.id] == c.player && c.id != 0
    case HandlePacket(p) => p.client.id in players
    case Tick => true
  }

  ghost predicate Agree(players: map<ClientId, EntityId>, z: ZoneState) {
    && (forall id :: id in z.clients ==> id in players && players[id] == z.clients[id])
    && (forall h :: h in z.queue ==> Known(players, h))
  }

  lemma RunNextKeepsInv(players: map<ClientId, EntityId>, z: ZoneState, now: int, done: int)
    requires Inv(z) && z.queue != [] && now <= done
    requires Injective(players) && Agree(players, z)
    ensures Inv(RunNext(z, now, done))
    ensures RunNext(z, now, done).clients.Keys == Effect(z.clients.Keys, z.queue[0])
  {
    PopMakesReady(z);
    assert Known(players, z.queue[0]);
    match z.queue[0]
    case AddClient(c) => AddKeepsInv(Popped(z), c);
    case RemoveClient(c) => RemoveKeepsInv(Popped(z), c);
    case HandlePacket(p) => HandleKeepsInv(Popped(z), p);
    case Tick => TickKeepsInv(Popped(z), now, done);
  }

  lemma RunNextKeepsAgreement(players: map<ClientId, EntityId>, z: ZoneState, now: int, done: int)
    requires z.queue != [] && Agree(players, z)
    ensures Agree(players, RunNext(z, now, done))
  {
    assert z.queue[0] in z.queue;
    var t := RunNext(z, now, done);
    forall h | h in t.queue ensures Known(players, h) { assert h == Tick || h in z.queue; }
  }

  /** What running the oldest handler does to the number of pending ticks: only an add to an empty zone, which starts
      it, makes one more; only a tick that finds the zone stopped makes one less. */
  lemma TicksAfter(z: ZoneState, now: int, done: int)
    requires Inv(z) && z.queue != []
    ensures var t, h := RunNext(z, now, done), z.queue[0];
            Ticks(t.queue) - Ticks(z.queue) == if h.AddClient? && z.clients == map[] then 1
                                               else if h == Tick && z.clients == map[] then -1 else 0
  {
    TicksAppend(z.queue[1..], Tick);
  }

  /** Posting from another strand appends to the queue and touches nothing else. */
  lemma PostKeepsInv(z: ZoneState, h: Handler)
    requires Inv(z) && Fits(Drain(z.clients.Keys, z.queue), h)
    ensures Inv(z.(queue := z.queue + [h]))
  {
    var t := z.(queue := z.queue + [h]);
    DrainAppend(z.clients.Keys, z.queue, h);
    forall id | id in t.clients ensures Informed(t, id) { assert Informed(z, id); }
  }
}
