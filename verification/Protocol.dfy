/** The server strand and all zone strands together: every interleaving of their handlers is a run of events. */
module Protocol {
  import opened Zones
  import opened ZoneInvariants

  type ZoneId = nat

  /** `players` is the player each client has joined with. */
  datatype System = System(
    clients: set<ClientId>,
    currentZone: map<ClientId, ZoneId>,
    players: map<ClientId, EntityId>,
    lastId: ClientId,
    zones: map<ZoneId, ZoneState>)

  datatype Event =
    | Connect
    | Join(id: ClientId, player: EntityId)
    | Enter(id: ClientId, zone: ZoneId)
    | Route(id: ClientId, tag: nat)
    | Disconnect(id: ClientId)
    | RunZone(zone: ZoneId, now: int, done: int)

  // ---------------------------------------------------------------- the server's handlers

  function Posted(zones: map<ZoneId, ZoneState>, zone: ZoneId, h: Handler): map<ZoneId, ZoneState>
    requires zone in zones
  {
    zones[zone := zones[zone].(queue := zones[zone].queue + [h])]
  }

  /** A new client gets the next id, and zone 0: not in any zone yet. */
  function Connected(s: System): System {
    var id := s.lastId + 1;
    s.(clients := s.clients + {id}, currentZone := s.currentZone[id := 0], lastId := id)
  }

  function Joined(s: System, id: ClientId, player: EntityId): System {
    s.(players := s.players[id := player])
  }

  datatype EnterOutcome = NotRegistered | AlreadyThere | Moved | Rejected

  function EnterResult(s: System, id: ClientId, next: ZoneId): EnterOutcome {
    if id !in s.currentZone then NotRegistered
    else if s.currentZone[id] == next then AlreadyThere
    else if (s.currentZone[id] == 0 || s.currentZone[id] in s.zones) && next in s.zones then Moved
    else Rejected
  }

  /** Leaving zone `current`, if it is one, is posted before entering zone `next`. */
  function MovePosted(zones: map<ZoneId, ZoneState>, c: Client, current: ZoneId, next: ZoneId): map<ZoneId, ZoneState>
    requires (current == 0 || current in zones) && next in zones
  {
    var left := if current != 0 then Posted(zones, current, RemoveClient(c)) else zones;
    Posted(left, next, AddClient(c))
  }

  /** Enter a zone. A rejected client is stopped, which leads to its
      disconnect later; a request of an unregistered client fails. Neither changes anything here. */
  function Entered(s: System, id: ClientId, next: ZoneId): System
    requires id in s.currentZone ==> id in s.players
  {
    if EnterResult(s, id, next) != Moved then s else
      var c, current := Client(id, s.players[id]), s.currentZone[id];
      s.(zones := MovePosted(s.zones, c, current, next), currentZone := s.currentZone[id := next])
  }

  /** Default routing: to the zone recorded for the client, if it is authenticated, registered and in a zone. */
  function Routed(s: System, id: ClientId, tag: nat): System {
    if id !in s.players || id !in s.clients || id !in s.currentZone || s.currentZone[id] !in s.zones then s else
      s.(zones := Posted(s.zones, s.currentZone[id], HandlePacket(Packet(Client(id, s.players[id]), tag))))
  }

  function Disconnected(s: System, id: ClientId): System
    requires id in s.currentZone
    requires s.currentZone[id] in s.zones ==> id in s.players
  {
    var zone := s.currentZone[id];
    s.(zones := if zone in s.zones then Posted(s.zones, zone, RemoveClient(Client(id, s.players[id]))) else s.zones,
       clients := s.clients - {id},
       currentZone := s.currentZone - {id})
  }

  // ---------------------------------------------------------------- runs

  /** The assumptions on the environment: a client joins once, with a player of its own, before it enters a zone, and
      disconnects once. Everything else may happen at any time. (That a client in a zone has joined holds in every
      reachable state: `Registry`.) */
  predicate Possible(s: System, e: Event) {
    match e
    case Connect => true
    case Join(id, player) => id in s.currentZone && id !in s.players && player !in s.players.Values
    case Enter(id, _) => id in s.currentZone ==> id in s.players
    case Route(_, _) => true
    case Disconnect(id) => id in s.currentZone && (s.currentZone[id] in s.zones ==> id in s.players)
    case RunZone(zone, now, done) => zone in s.zones && s.zones[zone].queue != [] && now <= done
  }

  function Step(s: System, e: Event): System
    requires Possible(s, e)
  {
    match e
    case Connect => Connected(s)
    case Join(id, player) => Joined(s, id, player)
    case Enter(id, zone) => Entered(s, id, zone)
    case Route(id, tag) => Routed(s, id, tag)
    case Disconnect(id) => Disconnected(s, id)
    case RunZone(zone, now, done) => s.(zones := s.zones[zone := RunNext(s.zones[zone], now, done)])
  }

  ghost predicate Fresh(z: ZoneState) {
    && z.clients == map[] && z.queue == [] && z.handled == [] && z.steps == []
    && !z.running && (forall e :: e in z.entities ==> !z.entities[e])
  }

  /** A server with its zones loaded and nobody connected. Zones may already hold monsters. */
  ghost predicate Initial(s: System) {
    && s.clients == {} && s.currentZone == map[] && s.players == map[] && s.lastId == 0
    && 0 !in s.zones
    && (forall z :: z in s.zones ==> Fresh(s.zones[z]))
  }

  /** Every event is possible when its turn comes. */
  predicate Legal(s: System, events: seq<Event>)
    decreases |events|
  {
    events == [] || (Possible(s, events[0]) && Legal(Step(s, events[0]), events[1..]))
  }

  function Run(s: System, events: seq<Event>): System
    requires Legal(s, events)
    decreases |events|
  {
    if events == [] then s else Run(Step(s, events[0]), events[1..])
  }

  // ---------------------------------------------------------------- the global invariant

  function PacketOf(h: Handler): seq<Packet> {
    if h.HandlePacket? then [h.packet] else []
  }

  function PacketsIn(queue: seq<Handler>): seq<Packet>
    decreases |queue|
  {
    if queue == [] then []
    else PacketOf(queue[0]) + PacketsIn(queue[1..])
  }

  /** Working off the queue of `zone` leaves exactly the clients that the server records there. */
  ghost predicate DrainsTo(s: System, zone: ZoneId)
    requires zone in s.zones
  {
    forall id :: id in Drain(s.zones[zone].clients.Keys, s.zones[zone].queue)
             <==> id in s.currentZone && s.currentZone[id] == zone
  }

  ghost predicate ZoneInv(s: System, zone: ZoneId)
    requires zone in s.zones
  {
    Inv(s.zones[zone]) && Agree(s.players, s.zones[zone]) && DrainsTo(s, zone)
  }

  ghost predicate Registry(s: System) {
    && s.clients == s.currentZone.Keys
    && 0 !in s.zones
    && Injective(s.players)
    && (forall id :: id in s.players || id in s.currentZone ==> 0 < id <= s.lastId)
    && (forall id :: id in s.currentZone && s.currentZone[id] != 0 ==> s.currentZone[id] in s.zones && id in s.players)
  }

  ghost predicate GlobalInv(s: System) {
    Registry(s) && forall zone {:trigger ZoneInv(s, zone)} :: zone in s.zones ==> ZoneInv(s, zone)
  }

  lemma {:induction false} PacketsAppend(queue: seq<Handler>, h: Handler)
    ensures PacketsIn(queue + [h]) == PacketsIn(queue) + PacketOf(h)
    decreases |queue|
  {
    if queue == [] {
      assert (queue + [h])[1..] == [];
    } else {
      assert (queue + [h])[1..] == queue[1..] + [h];
      PacketsAppend(queue[1..], h);
      assert PacketsIn(queue + [h]) == PacketOf(queue[0]) + (PacketsIn(queue[1..]) + PacketOf(h));
    }
  }

  lemma InitialInv(s: System)
    requires Initial(s)
    ensures GlobalInv(s)
  {
  }

  /** A post that fits keeps a zone's own invariant and its agreement with the players. */
  lemma PostKeepsZone(s: System, zone: ZoneId, h: Handler)
    requires zone in s.zones && ZoneInv(s, zone)
    requires Fits(Drain(s.zones[zone].clients.Keys, s.zones[zone].queue), h) && Known(s.players, h)
    ensures var z := Posted(s.zones, zone, h)[zone];
            && Inv(z) && Agree(s.players, z)
            && Drain(z.clients.Keys, z.queue) == Effect(Drain(z.clients.Keys, s.zones[zone].queue), h)
  {
    PostKeepsInv(s.zones[zone], h);
    DrainAppend(s.zones[zone].clients.Keys, s.zones[zone].queue, h);
  }

  lemma ConnectKeeps(s: System)
    requires GlobalInv(s)
    ensures GlobalInv(Connected(s))
  {
    var t := Connected(s);
    forall zone | zone in t.zones ensures ZoneInv(t, zone) { assert ZoneInv(s, zone); }
  }

  lemma JoinKeeps(s: System, id: ClientId, player: EntityId)
    requires GlobalInv(s) && Possible(s, Join(id, player))
    ensures GlobalInv(Joined(s, id, player))
  {
    var t := Joined(s, id, player);
    assert forall k :: k in s.players ==> s.players[k] in s.players.Values;
    forall zone | zone in t.zones ensures ZoneInv(t, zone) {
      assert ZoneInv(s, zone);
      assert Agree(t.players, t.zones[zone]) by {
        forall h | h in t.zones[zone].queue ensures Known(t.players, h) { assert Known(s.players, h); }
      }
    }
  }

  lemma EnterKeepsZone(s: System, id: ClientId, next: ZoneId, zone: ZoneId)
    requires Registry(s) && Possible(s, Enter(id, next)) && EnterResult(s, id, next) == Moved
    requires zone in s.zones && ZoneInv(s, zone)
    ensures ZoneInv(Entered(s, id, next), zone)
  {
    var c, current := Client(id, s.players[id]), s.currentZone[id];
    if zone == current { PostKeepsZone(s, zone, RemoveClient(c)); }
    if zone == next { PostKeepsZone(s, zone, AddClient(c)); }
    var z := Entered(s, id, next).zones[zone];
    assert z == if zone == next then Posted(s.zones, zone, AddClient(c))[zone]
                else if zone == current then Posted(s.zones, zone, RemoveClient(c))[zone] else s.zones[zone];
  }

  lemma EnterKeeps(s: System, id: ClientId, next: ZoneId)
    requires GlobalInv(s) && Possible(s, Enter(id, next))
    ensures GlobalInv(Entered(s, id, next))
  {
    var t := Entered(s, id, next);
    if EnterResult(s, id, next) == Moved {
      forall zone | zone in t.zones ensures ZoneInv(t, zone) {
        assert ZoneInv(s, zone);
        EnterKeepsZone(s, id, next, zone);
      }
    }
  }

  lemma RouteKeeps(s: System, id: ClientId, tag: nat)
    requires GlobalInv(s)
    ensures GlobalInv(Routed(s, id, tag))
  {
    var t := Routed(s, id, tag);
    forall zone | zone in t.zones ensures ZoneInv(t, zone) {
      assert ZoneInv(s, zone);
      if t != s && zone == s.currentZone[id] {
        PostKeepsZone(s, zone, HandlePacket(Packet(Client(id, s.players[id]), tag)));
      }
    }
  }

  lemma DisconnectKeeps(s: System, id: ClientId)
    requires GlobalInv(s) && Possible(s, Disconnect(id))
    ensures GlobalInv(Disconnected(s, id))
  {
    var t := Disconnected(s, id);
    forall zone | zone in t.zones ensures ZoneInv(t, zone) {
      assert ZoneInv(s, zone);
      if zone == s.currentZone[id] { PostKeepsZone(s, zone, RemoveClient(Client(id, s.players[id]))); }
    }
  }

  /** What running the oldest handler does to the queue and to the handled packets. */
  lemma RunNextShape(z: ZoneState, now: int, done: int)
    requires z.queue != [] && Fits(z.clients.Keys, z.queue[0])
    ensures var t, q := RunNext(z, now, done), z.queue[1..];
            && (t.queue == q || t.queue == q + [Tick])
            && t.handled == z.handled + PacketOf(z.queue[0])
  {
  }

  /** A handler moves from the queue into the members, a routed packet into the handled ones. */
  lemma RunNextAccounts(z: ZoneState, now: int, done: int)
    requires z.queue != [] && Fits(z.clients.Keys, z.queue[0])
    requires RunNext(z, now, done).clients.Keys == Effect(z.clients.Keys, z.queue[0])
    ensures var t := RunNext(z, now, done);
            && Drain(t.clients.Keys, t.queue) == Drain(z.clients.Keys, z.queue)
            && t.handled + PacketsIn(t.queue) == z.handled + PacketsIn(z.queue)
  {
    RunNextShape(z, now, done);
    var t, q := RunNext(z, now, done), z.queue[1..];
    TickIsNeutral(t.clients.Keys, t.queue, q);
    assert t.handled + PacketsIn(q) == z.handled + PacketsIn(z.queue);
  }

  lemma TickIsNeutral(members: set<ClientId>, queue: seq<Handler>, q: seq<Handler>)
    requires queue == q || queue == q + [Tick]
    ensures Drain(members, queue) == Drain(members, q) && PacketsIn(queue) == PacketsIn(q)
  {
    DrainAppend(members, q, Tick);
    PacketsAppend(q, Tick);
  }

  lemma RunZoneKeeps(s: System, zone: ZoneId, now: int, done: int)
    requires GlobalInv(s) && Possible(s, RunZone(zone, now, done))
    ensures GlobalInv(Step(s, RunZone(zone, now, done)))
  {
    var t, z := Step(s, RunZone(zone, now, done)), s.zones[zone];
    assert ZoneInv(s, zone);
    RunNextKeepsInv(s.players, z, now, done);
    RunNextKeepsAgreement(s.players, z, now, done);
    RunNextAccounts(z, now, done);
    RunZoneFrame(s, t, zone);
  }

  lemma RunZoneFrame(s: System, t: System, zone: ZoneId)
    requires GlobalInv(s) && zone in s.zones && zone in t.zones && t == s.(zones := s.zones[zone := t.zones[zone]])
    requires Inv(t.zones[zone]) && Agree(s.players, t.zones[zone])
    requires var z, z' := s.zones[zone], t.zones[zone];
             Drain(z'.clients.Keys, z'.queue) == Drain(z.clients.Keys, z.queue)
    ensures GlobalInv(t)
  {
    forall other | other in t.zones ensures ZoneInv(t, other) { assert ZoneInv(s, other); }
  }

  lemma StepKeeps(s: System, e: Event)
    requires GlobalInv(s) && Possible(s, e)
    ensures GlobalInv(Step(s, e))
  {
    match e
    case Connect => ConnectKeeps(s);
    case Join(id, player) => JoinKeeps(s, id, player);
    case Enter(id, zone) => EnterKeeps(s, id, zone);
    case Route(id, tag) => RouteKeeps(s, id, tag);
    case Disconnect(id) => DisconnectKeeps(s, id);
    case RunZone(zone, now, done) => RunZoneKeeps(s, zone, now, done);
  }

  lemma {:induction false} RunKeeps(s: System, events: seq<Event>)
    requires GlobalInv(s) && Legal(s, events)
    ensures GlobalInv(Run(s, events))
    decreases |events|
  {
    if events != [] {
      StepKeeps(s, events[0]);
      RunKeeps(Step(s, events[0]), events[1..]);
    }
  }

  // ---------------------------------------------------------------- the properties of every run

  ghost predicate Reachable(s: System) {
    exists s0, events :: Initial(s0) && Legal(s0, events) && s == Run(s0, events)
  }

  lemma {:induction false} RunAppend(s: System, events: seq<Event>, e: Event)
    requires Legal(s, events) && Possible(Run(s, events), e)
    ensures Legal(s, events + [e]) && Run(s, events + [e]) == Step(Run(s, events), e)
    decreases |events|
  {
    if events == [] {
      assert (events + [e])[1..] == [];
    } else {
      assert (events + [e])[1..] == events[1..] + [e];
      RunAppend(Step(s, events[0]), events[1..], e);
    }
  }

  lemma ReachableStep(s: System, e: Event)
    requires Reachable(s) && Possible(s, e)
    ensures Reachable(Step(s, e))
  {
    var s0, events :| Initial(s0) && Legal(s0, events) && s == Run(s0, events);
    RunAppend(s0, events, e);
  }

  lemma ReachableInv(s: System)
    requires Reachable(s)
    ensures GlobalInv(s)
  {
    var s0, events :| Initial(s0) && Legal(s0, events) && s == Run(s0, events);
    InitialInv(s0);
    RunKeeps(s0, events);
  }

  /** Once a zone has worked off its queue its members are exactly the clients recorded there. */
  lemma MembershipAfterDraining(s: System, zone: ZoneId, id: ClientId)
    requires Reachable(s) && zone in s.zones
    ensures id in Drain(s.zones[zone].clients.Keys, s.zones[zone].queue)
       <==> id in s.clients && id in s.currentZone && s.currentZone[id] == zone
  {
    ReachableInv(s);
    assert ZoneInv(s, zone);
  }

  /** A client drains into at most one zone, although it may momentarily be a member of two. */
  lemma DrainedMembershipIsUnique(s: System, z1: ZoneId, z2: ZoneId, id: ClientId)
    requires Reachable(s) && z1 in s.zones && z2 in s.zones
    requires id in Drain(s.zones[z1].clients.Keys, s.zones[z1].queue)
    requires id in Drain(s.zones[z2].clients.Keys, s.zones[z2].queue)
    ensures z1 == z2
  {
    MembershipAfterDraining(s, z1, id);
    MembershipAfterDraining(s, z2, id);
  }

  /** Whatever is queued at any position of any zone, by the time its turn comes a remove and a packet find their
      client among the members, and an add does not: no routed packet is dropped by the membership check. */
  lemma EveryHandlerFindsItsClient(s: System, zone: ZoneId, k: nat)
    requires Reachable(s) && zone in s.zones && k < |s.zones[zone].queue|
    ensures Fits(Drain(s.zones[zone].clients.Keys, s.zones[zone].queue[..k]), s.zones[zone].queue[k])
  {
    ReachableInv(s);
    assert ZoneInv(s, zone);
    WellQueuedAt(s.zones[zone].clients.Keys, s.zones[zone].queue, k);
  }

  /** What a zone has told a member adds up to exactly the other players now in the zone, and the subworld
      holds exactly the players of the members. */
  lemma ReplicatedView(s: System, zone: ZoneId, id: ClientId)
    requires Reachable(s) && zone in s.zones && id in s.zones[zone].clients
    ensures var z := s.zones[zone];
            && View(Log(z.sent, id)) == (set other | other in z.clients && other != id :: z.clients[other])
            && (set e | e in z.entities && z.entities[e]) == z.clients.Values
  {
    ReachableInv(s);
    assert ZoneInv(s, zone);
    var z := s.zones[zone];
    assert Informed(z, id);
    var others := set other | other in z.clients && other != id :: z.clients[other];
    forall e | e in z.clients.Values - {z.clients[id]} ensures e in others {
      var k :| k in z.clients && z.clients[k] == e;
    }
  }

  /** A zone runs exactly while it has members; then a tick is pending; and simulation steps keep their distance
      however many tick chains have been started. */
  lemma TickDiscipline(s: System, zone: ZoneId)
    requires Reachable(s) && zone in s.zones
    ensures var z := s.zones[zone];
            && (z.running <==> z.clients != map[])
            && (z.running ==> Tick in z.queue)
            && forall i, j :: 0 <= i < j < |z.steps| ==> z.steps[i].1 + TICK_INTERVAL <= z.steps[j].0
  {
    ReachableInv(s);
    assert ZoneInv(s, zone);
    var z := s.zones[zone];
    forall i, j | 0 <= i < j < |z.steps| ensures z.steps[i].1 + TICK_INTERVAL <= z.steps[j].0 {
      StepsApart(z, i, j);
    }
  }

  lemma {:induction false} StepsApart(z: ZoneState, i: nat, j: nat)
    requires Spaced(z) && i < j < |z.steps|
    ensures z.steps[i].1 + TICK_INTERVAL <= z.steps[j].0
  {
    if i < j - 1 {
      StepsApart(z, i, j - 1);
      assert z.steps[j - 1].1 + TICK_INTERVAL <= z.steps[j].0;
    }
  }

  // ---------------------------------------------------------------- who is where, and how many ticks are pending

  /** What the queue and the server's records say about `id` in `zone`: its first queued change is a remove, or it has
      none and is recorded there. */
  predicate Stays(s: System, zone: ZoneId, id: ClientId)
    requires zone in s.zones
  {
    var queue := s.zones[zone].queue;
    var k := FirstChange(queue, id);
    if k < |queue| then queue[k].RemoveClient? else id in s.currentZone && s.currentZone[id] == zone
  }

  /** Exactly when a client is a member of a zone, at any moment of any run. */
  lemma MembershipByQueue(s: System, zone: ZoneId, id: ClientId)
    requires Reachable(s) && zone in s.zones
    ensures id in s.zones[zone].clients <==> Stays(s, zone, id)
  {
    ReachableInv(s);
    assert ZoneInv(s, zone);
    MemberByQueue(s.zones[zone].clients.Keys, s.zones[zone].queue, id);
  }

  /** The zones of which a client is a member. */
  function Homes(s: System, id: ClientId): set<ZoneId> {
    set z | z in s.zones && id in s.zones[z].clients
  }

  /** Exactly when a client is a member of two zones. In one of the two at least, its removal is still queued. */
  lemma TwoHomesByQueue(s: System, id: ClientId, z1: ZoneId, z2: ZoneId)
    requires Reachable(s) && z1 in s.zones && z2 in s.zones && z1 != z2
    ensures {z1, z2} <= Homes(s, id) <==> Stays(s, z1, id) && Stays(s, z2, id)
    ensures {z1, z2} <= Homes(s, id) ==>
              exists z, k :: z in {z1, z2} && 0 <= k < |s.zones[z].queue| && s.zones[z].queue[k].RemoveClient?
                             && s.zones[z].queue[k].client.id == id
  {
    MembershipByQueue(s, z1, id);
    MembershipByQueue(s, z2, id);
    if {z1, z2} <= Homes(s, id) {
      assert z1 in Homes(s, id) && z2 in Homes(s, id);
      var z := if FirstChange(s.zones[z1].queue, id) < |s.zones[z1].queue| then z1 else z2;
      assert s.zones[z].queue[FirstChange(s.zones[z].queue, id)].RemoveClient?;
    }
  }

  /** The homes of a client change only when a zone runs a handler that adds or removes it. */
  lemma HomesAfter(s: System, e: Event, id: ClientId)
    requires Reachable(s) && Possible(s, e)
    ensures Homes(Step(s, e), id) ==
            if !e.RunZone? || !Changes(s.zones[e.zone].queue[0], id) then Homes(s, id)
            else if s.zones[e.zone].queue[0].AddClient? then Homes(s, id) + {e.zone} else Homes(s, id) - {e.zone}
  {
    if e.RunZone? {
      ReachableInv(s);
      assert ZoneInv(s, e.zone);
      RunNextKeepsInv(s.players, s.zones[e.zone], e.now, e.done);
      HandlerMovesHome(s, Step(s, e), e.zone, s.zones[e.zone].queue[0], id);
    } else {
      ServerOnlyQueues(s, e);
    }
  }

  lemma HandlerMovesHome(s: System, t: System, zone: ZoneId, h: Handler, id: ClientId)
    requires zone in s.zones && zone in t.zones && t == s.(zones := s.zones[zone := t.zones[zone]])
    requires t.zones[zone].clients.Keys == Effect(s.zones[zone].clients.Keys, h)
    ensures Homes(t, id) == if !Changes(h, id) then Homes(s, id)
                            else if h.AddClient? then Homes(s, id) + {zone} else Homes(s, id) - {zone}
  {
    assert id in t.zones[zone].clients <==> id in Effect(s.zones[zone].clients.Keys, h);
    forall z | z in s.zones && z != zone ensures t.zones[z] == s.zones[z] {}
  }

  /** The same zones but for their queues. */
  ghost predicate SameButQueues(a: map<ZoneId, ZoneState>, b: map<ZoneId, ZoneState>) {
    a.Keys == b.Keys && forall z :: z in a ==> b[z] == a[z].(queue := b[z].queue)
  }

  lemma PostOnlyQueues(zones: map<ZoneId, ZoneState>, zone: ZoneId, h: Handler)
    requires zone in zones
    ensures SameButQueues(zones, Posted(zones, zone, h))
  {
  }

  lemma MoveOnlyQueues(zones: map<ZoneId, ZoneState>, c: Client, current: ZoneId, next: ZoneId)
    requires (current == 0 || current in zones) && next in zones
    ensures SameButQueues(zones, MovePosted(zones, c, current, next))
  {
    var left := if current != 0 then Posted(zones, current, RemoveClient(c)) else zones;
    if current != 0 { PostOnlyQueues(zones, current, RemoveClient(c)); }
    PostOnlyQueues(left, next, AddClient(c));
  }

  /** What the server does changes nothing of a zone but its queue. */
  lemma ServerOnlyQueues(s: System, e: Event)
    requires Possible(s, e) && !e.RunZone?
    ensures SameButQueues(s.zones, Step(s, e).zones)
  {
    match e
    case Enter(id, next) =>
      if EnterResult(s, id, next) == Moved {
        MoveOnlyQueues(s.zones, Client(id, s.players[id]), s.currentZone[id], next);
      }
    case _ =>
  }

  /** Exactly which steps bring a client that has a home into a second one: a zone runs the client's queued add while
      it still stays in another. */
  lemma EntersSecondZone(s: System, e: Event, id: ClientId, home: ZoneId)
    requires Reachable(s) && Possible(s, e) && Homes(s, id) == {home}
    ensures |Homes(Step(s, e), id)| > 1 <==>
            && e.RunZone? && s.zones[e.zone].queue[0].AddClient? && s.zones[e.zone].queue[0].client.id == id
            && e.zone != home
    ensures home in s.zones && Stays(s, home, id)
  {
    HomesAfter(s, e, id);
    assert home in Homes(s, id);
    MembershipByQueue(s, home, id);
  }

  /** In every reachable state, between two queued adds of a client to a zone there is a remove, and conversely. */
  lemma QueuedChangesAlternate(s: System, zone: ZoneId, id: ClientId, i: nat, j: nat) returns (k: nat)
    requires Reachable(s) && zone in s.zones && i < j < |s.zones[zone].queue|
    requires Changes(s.zones[zone].queue[i], id) && Changes(s.zones[zone].queue[j], id)
    requires s.zones[zone].queue[i].AddClient? <==> s.zones[zone].queue[j].AddClient?
    ensures i < k < j && Changes(s.zones[zone].queue[k], id)
    ensures s.zones[zone].queue[k].AddClient? <==> !s.zones[zone].queue[i].AddClient?
  {
    ReachableInv(s);
    assert ZoneInv(s, zone);
    k := ChangesAlternate(s.zones[zone].clients.Keys, s.zones[zone].queue, id, i, j);
  }

  /** How a step changes the number of a zone's pending ticks: one more exactly when the zone runs an add while it has
      no members, one less exactly when it runs a tick then. Nothing the server does changes it. */
  lemma PendingTicks(s: System, e: Event, zone: ZoneId)
    requires Reachable(s) && Possible(s, e) && zone in s.zones
    ensures zone in Step(s, e).zones
    ensures var z, t := s.zones[zone], Step(s, e).zones[zone];
            Ticks(t.queue) - Ticks(z.queue) ==
              if e.RunZone? && e.zone == zone && z.clients == map[] && z.queue[0].AddClient? then 1
              else if e.RunZone? && e.zone == zone && z.clients == map[] && z.queue[0] == Tick then -1 else 0
  {
    ReachableInv(s);
    assert ZoneInv(s, zone);
    match e
    case RunZone(other, now, done) => if other == zone { TicksAfter(s.zones[zone], now, done); }
    case Enter(id, next) => if EnterResult(s, id, next) == Moved { TicksPosted(s, zone, id); }
    case Route(id, tag) => if Routed(s, id, tag) != s { TicksRouted(s, zone, id, tag); }
    case Disconnect(id) => if s.currentZone[id] in s.zones { TicksPosted(s, zone, id); }
    case Connect =>
    case Join(_, _) =>
  }

  lemma TicksPosted(s: System, zone: ZoneId, id: ClientId)
    requires zone in s.zones && id in s.players
    ensures var q, c := s.zones[zone].queue, Client(id, s.players[id]);
            Ticks(q + [AddClient(c)]) == Ticks(q) == Ticks(q + [RemoveClient(c)])
  {
    TicksAppend(s.zones[zone].queue, AddClient(Client(id, s.players[id])));
    TicksAppend(s.zones[zone].queue, RemoveClient(Client(id, s.players[id])));
  }

  lemma TicksRouted(s: System, zone: ZoneId, id: ClientId, tag: nat)
    requires zone in s.zones && id in s.players
    ensures var q, p := s.zones[zone].queue, Packet(Client(id, s.players[id]), tag);
            Ticks(q + [HandlePacket(p)]) == Ticks(q)
  {
    TicksAppend(s.zones[zone].queue, HandlePacket(Packet(Client(id, s.players[id]), tag)));
  }

  /** Exactly when a second tick chain begins: a zone is entered again, with nobody in it, before the tick of its
      stopped chain has run. */
  lemma SecondTickChain(s: System, e: Event, zone: ZoneId)
    requires Reachable(s) && Possible(s, e) && zone in s.zones && Ticks(s.zones[zone].queue) <= 1
    ensures zone in Step(s, e).zones
    ensures Ticks(Step(s, e).zones[zone].queue) > 1 <==>
            && e.RunZone? && e.zone == zone
            && s.zones[zone].queue[0].AddClient? && s.zones[zone].clients == map[] && Tick in s.zones[zone].queue
  {
    PendingTicks(s, e, zone);
    TickIsCounted(s.zones[zone].queue);
  }

  lemma {:induction false} TickIsCounted(queue: seq<Handler>)
    ensures Ticks(queue) > 0 <==> Tick in queue
    decreases |queue|
  {
    if queue != [] { TickIsCounted(queue[1..]); }
  }

  // ---------------------------------------------------------------- what is not true of every run

  /** The zone data as loaded. */
  function LoadedZone(): ZoneState {
    ZoneState(map[], map[], false, 0, [], map[], [], [])
  }

  function TwoZones(): System {
    System({}, map[], map[], 0, map[1 := LoadedZone(), 2 := LoadedZone()])
  }

  lemma OneClientJoined() returns (s: System)
    ensures Reachable(s)
    ensures s == TwoZones().(clients := {1}, currentZone := map[1 := 0], players := map[1 := 7], lastId := 1)
  {
    var s0 := TwoZones();
    assert Run(s0, []) == s0 && Legal(s0, []);
    ReachableStep(s0, Connect);
    ReachableStep(Step(s0, Connect), Join(1, 7));
    s := Step(Step(s0, Connect), Join(1, 7));
  }

  lemma FirstEnterPosted() returns (s: System)
    ensures Reachable(s) && s.zones.Keys == {1, 2}
    ensures s.zones[1] == LoadedZone().(queue := [AddClient(Client(1, 7))]) && s.zones[2] == LoadedZone()
    ensures s.currentZone == map[1 := 1] && s.players == map[1 := 7]
  {
    var s0 := OneClientJoined();
    ReachableStep(s0, Enter(1, 1));
    s := Step(s0, Enter(1, 1));
    assert s.zones[1].queue == [] + [AddClient(Client(1, 7))];
  }

  lemma ClientInFirstZone() returns (s: System)
    ensures Reachable(s) && s.zones.Keys == {1, 2}
    ensures s.currentZone == map[1 := 1] && s.players == map[1 := 7]
    ensures s.zones[1].clients == map[1 := 7] && s.zones[1].queue == [Tick] && s.zones[1].running
    ensures s.zones[1].lastTick == 0 && s.zones[2] == LoadedZone()
  {
    var s0 := FirstEnterPosted();
    ReachableStep(s0, RunZone(1, 0, 0));
    s := Step(s0, RunZone(1, 0, 0));
  }

  /** A client may be a member of two zones at once: the new zone can run its add before the old one its remove. */
  lemma ClientInTwoZones() returns (s: System)
    ensures Reachable(s) && s.zones.Keys == {1, 2}
    ensures 1 in s.zones[1].clients && 1 in s.zones[2].clients
  {
    var s0 := ClientInFirstZone();
    ReachableStep(s0, Enter(1, 2));
    var s1 := Step(s0, Enter(1, 2));
    assert s1.zones[2].queue == [AddClient(Client(1, 7))];
    ReachableStep(s1, RunZone(2, 0, 0));
    s := Step(s1, RunZone(2, 0, 0));
  }

  lemma LeftAndBack() returns (s: System)
    ensures Reachable(s) && s.zones.Keys == {1, 2}
    ensures var z, c := s.zones[1], Client(1, 7);
            && z.clients == map[1 := 7] && z.running && z.lastTick == 0
            && z.queue == [Tick, RemoveClient(c), AddClient(c)]
  {
    var s0 := ClientInFirstZone();
    ReachableStep(s0, Enter(1, 2));
    var s1 := Step(s0, Enter(1, 2));
    ReachableStep(s1, Enter(1, 1));
    s := Step(s1, Enter(1, 1));
  }

  /** Running the oldest handler of zone 1 at time 0. */
  lemma RunFirstZone(s: System) returns (t: System)
    requires Reachable(s) && s.zones.Keys == {1, 2} && s.zones[1].queue != []
    ensures Reachable(t) && t.zones.Keys == {1, 2}
    ensures t.zones[1] == RunNext(s.zones[1], 0, 0)
  {
    ReachableStep(s, RunZone(1, 0, 0));
    t := Step(s, RunZone(1, 0, 0));
  }

  lemma StoppedWithTickPending() returns (s: System)
    ensures Reachable(s) && s.zones.Keys == {1, 2}
    ensures s.zones[1].queue == [AddClient(Client(1, 7)), Tick]
    ensures s.zones[1].clients == map[] && !s.zones[1].running
  {
    var c := Client(1, 7);
    s := LeftAndBack();
    s := RunFirstZone(s);
    assert s.zones[1].queue == [RemoveClient(c), AddClient(c), Tick];
    s := RunFirstZone(s);
  }

  /** Two tick chains may be pending at once: leaving and entering again restarts the zone before the first chain
      has noticed that it stopped. */
  lemma TwoTicksPending() returns (s: System)
    ensures Reachable(s) && s.zones.Keys == {1, 2}
    ensures s.zones[1].queue == [Tick, Tick]
  {
    s := StoppedWithTickPending();
    assert s.zones[1].queue[1..] == [Tick];
    s := RunFirstZone(s);
  }
}
