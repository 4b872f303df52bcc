/** A zone: an actor that runs the handlers posted to its strand one at a time, in the order they were posted. */
module Zones {

  type ClientId = nat
  type EntityId = nat

  const TICK_INTERVAL := 100  // milliseconds

  /** A connected client and the entity id of the player it has joined with. */
  datatype Client = Client(id: ClientId, player: EntityId)

  datatype Packet = Packet(client: Client, tag: nat)

  datatype Handler = AddClient(client: Client) | RemoveClient(client: Client) | HandlePacket(packet: Packet) | Tick

  datatype Message =
    | PlayerSpawns(players: set<EntityId>)
    | EntitySpawns(others: set<EntityId>)
    | PlayerSpawn(player: EntityId)
    | EntityDespawn(entity: EntityId)
    | EntityMovements(moved: set<EntityId>)

  /** `entities` tells players (true) from other entities of the subworld; `sent` holds, per client, everything this
      zone has sent it; `handled` the packets that passed the membership check; `steps` the begin and end of every
      simulation step. */
  datatype ZoneState = ZoneState(
    clients: map<ClientId, EntityId>,
    entities: map<EntityId, bool>,
    running: bool,
    lastTick: int,
    queue: seq<Handler>,
    sent: map<ClientId, seq<Message>>,
    handled: seq<Packet>,
    steps: seq<(int, int)>)

  // ---------------------------------------------------------------- what each handler does

  function Log(sent: map<ClientId, seq<Message>>, id: ClientId): seq<Message> {
    if id in sent then sent[id] else []
  }

  function Send(sent: map<ClientId, seq<Message>>, id: ClientId, m: Message): map<ClientId, seq<Message>> {
    sent[id := Log(sent, id) + [m]]
  }

  function SendAll(sent: map<ClientId, seq<Message>>, ids: set<ClientId>, m: Message): map<ClientId, seq<Message>> {
    map id | id in sent.Keys + ids :: if id in ids then Log(sent, id) + [m] else sent[id]
  }

  function Start(z: ZoneState): ZoneState {
    if z.running then z else z.(running := true, queue := z.queue + [Tick])
  }

  function Others(entities: map<EntityId, bool>): set<EntityId> {
    set e | e in entities && !entities[e]
  }

  function Added(z: ZoneState, c: Client): ZoneState {
    var z1 := if z.clients == map[] then Start(z) else z;
    var clients := z.clients[c.id := c.player];
    var entities := z.entities[c.player := true];
    var sent1 := Send(z.sent, c.id, PlayerSpawns(clients.Values - {c.player}));
    var sent2 := Send(sent1, c.id, EntitySpawns(Others(entities)));
    var sent3 := SendAll(sent2, clients.Keys - {c.id}, PlayerSpawn(c.player));
    z1.(clients := clients, entities := entities, sent := sent3)
  }

  function Removed(z: ZoneState, c: Client): ZoneState {
    if c.id !in z.clients then z else
      var clients := z.clients - {c.id};
      z.(clients := clients,
         entities := z.entities - {c.player},
         sent := SendAll(z.sent, clients.Keys - {0}, EntityDespawn(c.player)),
         running := z.running && clients != map[])
  }

  function Handled(z: ZoneState, p: Packet): ZoneState {
    if p.client.id !in z.clients then z else z.(handled := z.handled + [p])
  }

  /** `now` is when the handler reads the clock, `done` when the simulation step is over. */
  function Ticked(z: ZoneState, now: int, done: int): ZoneState {
    if !z.running then z
    else if now < z.lastTick + TICK_INTERVAL then z.(queue := z.queue + [Tick])
    else z.(sent := SendAll(z.sent, z.clients.Keys - {0}, EntityMovements(z.entities.Keys)),
            lastTick := done, steps := z.steps + [(now, done)], queue := z.queue + [Tick])
  }

  function Worked(z: ZoneState, h: Handler, now: int, done: int): ZoneState {
    match h
    case AddClient(c) => Added(z, c)
    case RemoveClient(c) => Removed(z, c)
    case HandlePacket(p) => Handled(z, p)
    case Tick => Ticked(z, now, done)
  }

  /** The strand takes its oldest handler and runs it. */
  function RunNext(z: ZoneState, now: int, done: int): ZoneState
    requires z.queue != []
  {
    Worked(z.(queue := z.queue[1..]), z.queue[0], now, done)
  }

  // ---------------------------------------------------------------- the actor

  class Zone {
    var clients: map<ClientId, EntityId>
    var entities: map<EntityId, bool>
    var running: bool
    var lastTick: int
    var queue: seq<Handler>
    var sent: map<ClientId, seq<Message>>
    var handled: seq<Packet>
    var steps: seq<(int, int)>

    function State(): ZoneState
      reads this
    {
      ZoneState(clients, entities, running, lastTick, queue, sent, handled, steps)
    }

    method Post(h: Handler)
      modifies this`queue
      ensures State() == old(State()).(queue := old(queue) + [h])
    {
      queue := queue + [h];
    }

    method StartTicking()
      modifies this`running, this`queue
      ensures State() == Start(old(State()))
    {
      if running { return; }
      running := true;
      Post(Tick);
    }

    method SendPacket(id: ClientId, m: Message)
      modifies this`sent
      ensures sent == Send(old(sent), id, m)
    {
      sent := sent[id := Log(sent, id) + [m]];
    }

    /** Sends to every member but `except`; client ids start at 1, so the default excludes nobody. */
    method Broadcast(m: Message, except: ClientId := 0)
      modifies this`sent
      ensures sent == SendAll(old(sent), clients.Keys - {except}, m)
    {
      var todo := clients.Keys;
      ghost var reached := {};
      while todo != {}
        invariant todo <= clients.Keys && reached == clients.Keys - todo - {except}
        invariant sent == SendAll(old(sent), reached, m)
        decreases todo
      {
        var id :| id in todo;
        todo := todo - {id};
        if id == except { continue; }
        ExtendSendAll(old(sent), reached, id, m);
        reached := reached + {id};
        SendPacket(id, m);
      }
    }

    /** Every player in the zone except the one with entity id `player`. */
    method ListPlayers(player: EntityId) returns (spawns: set<EntityId>)
      ensures spawns == clients.Values - {player}
    {
      spawns := {};
      var todo := clients.Keys;
      while todo != {}
        invariant todo <= clients.Keys
        invariant forall e :: e in spawns <==> e != player && exists id :: id in clients.Keys - todo && clients[id] == e
        decreases todo
      {
        var id :| id in todo;
        todo := todo - {id};
        if clients[id] == player { continue; }
        spawns := spawns + {clients[id]};
      }
    }

    method ListOthers() returns (others: set<EntityId>)
      ensures others == Others(entities)
    {
      others := {};
      var todo := entities.Keys;
      while todo != {}
        invariant todo <= entities.Keys
        invariant others == set e | e in entities.Keys - todo && !entities[e]
        decreases todo
      {
        var e :| e in todo;
        todo := todo - {e};
        if entities[e] { continue; }
        others := others + {e};
      }
    }

    method AddClientNow(c: Client)
      modifies this
      ensures State() == Added(old(State()), c)
    {
      if clients == map[] { StartTicking(); }
      clients := clients[c.id := c.player];
      entities := entities[c.player := true];
      var spawns := ListPlayers(c.player);
      SendPacket(c.id, PlayerSpawns(spawns));
      var others := ListOthers();
      SendPacket(c.id, EntitySpawns(others));
      Broadcast(PlayerSpawn(c.player), c.id);
    }

    method RemoveClientNow(c: Client)
      modifies this
      ensures State() == Removed(old(State()), c)
    {
      if c.id !in clients { return; }
      entities := entities - {c.player};
      clients := clients - {c.id};
      Broadcast(EntityDespawn(c.player));
      if clients == map[] { running := false; }
    }

    method HandlePacketNow(p: Packet)
      modifies this`handled
      ensures State() == Handled(old(State()), p)
    {
      if p.client.id !in clients { return; }
      handled := handled + [p];
    }

    method TickNow(now: int, done: int)
      modifies this
      ensures State() == Ticked(old(State()), now, done)
    {
      if !running { return; }
      if now < lastTick + TICK_INTERVAL {
        Post(Tick);
        return;
      }
      Broadcast(EntityMovements(entities.Keys));
      steps := steps + [(now, done)];
      lastTick := done;
      Post(Tick);
    }

    method RunNextHandler(now: int, done: int)
      requires queue != []
      modifies this
      ensures State() == RunNext(old(State()), now, done)
    {
      var h := queue[0];
      queue := queue[1..];
      match h
      case AddClient(c) => AddClientNow(c);
      case RemoveClient(c) => RemoveClientNow(c);
      case HandlePacket(p) => HandlePacketNow(p);
      case Tick => TickNow(now, done);
    }
  }

  lemma ExtendSendAll(sent: map<ClientId, seq<Message>>, ids: set<ClientId>, id: ClientId, m: Message)
    requires id !in ids
    ensures Send(SendAll(sent, ids, m), id, m) == SendAll(sent, ids + {id}, m)
  {
  }
}
