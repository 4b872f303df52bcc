/** The server as the object whose handlers, run on its own strand, make the server steps of a run. */
module Servers {
  import opened Zones
  import opened Protocol

  class Server {
    var clients: set<ClientId>
    var currentZone: map<ClientId, ZoneId>
    var players: map<ClientId, EntityId>
    var lastId: ClientId
    const zones: map<ZoneId, Zone>

    /** Every zone is an object of its own. */
    ghost predicate Valid()
      reads this
    {
      forall a, b :: a in zones && b in zones && a != b ==> zones[a] != zones[b]
    }

    function ZoneStates(): map<ZoneId, ZoneState>
      reads zones.Values
    {
      map z | z in zones :: zones[z].State()
    }

    function State(): System
      reads this, zones.Values
    {
      System(clients, currentZone, players, lastId, ZoneStates())
    }

    method PostTo(zone: ZoneId, h: Handler)
      requires Valid() && zone in zones
      modifies zones.Values
      ensures ZoneStates() == Posted(old(ZoneStates()), zone, h)
    {
      zones[zone].Post(h);
    }

    /** The handler posted by `add_client_deferred`. */
    method AddClientNow()
      requires Valid()
      modifies this
      ensures Valid() && State() == Connected(old(State()))
    {
      lastId := lastId + 1;
      clients := clients + {lastId};
      currentZone := currentZone[lastId := 0];
    }

    method JoinClient(id: ClientId, player: EntityId)
      requires Valid()
      modifies this
      ensures Valid() && State() == Joined(old(State()), id, player)
    {
      players := players[id := player];
    }

    /** Leaving is posted before entering. */
    method PostMove(c: Client, current: ZoneId, next: ZoneId)
      requires Valid() && (current == 0 || current in zones) && next in zones
      modifies zones.Values
      ensures ZoneStates() == MovePosted(old(ZoneStates()), c, current, next)
    {
      if current != 0 { PostTo(current, RemoveClient(c)); }
      PostTo(next, AddClient(c));
    }

    method MoveClient(id: ClientId, next: ZoneId)
      requires Valid() && id in currentZone && id in players
      requires (currentZone[id] == 0 || currentZone[id] in zones) && next in zones
      modifies this`currentZone, zones.Values
      ensures Valid() && currentZone == old(currentZone)[id := next]
      ensures ZoneStates() == MovePosted(old(ZoneStates()), Client(id, players[id]), old(currentZone)[id], next)
    {
      PostMove(Client(id, players[id]), currentZone[id], next);
      currentZone := currentZone[id := next];
    }

    method HandlePlayerEnterZone(id: ClientId, next: ZoneId) returns (outcome: EnterOutcome)
      requires Valid() && (id in currentZone ==> id in players)
      modifies this, zones.Values
      ensures Valid() && State() == Entered(old(State()), id, next)
      ensures outcome == EnterResult(old(State()), id, next)
    {
      if id !in currentZone { return NotRegistered; }
      var current := currentZone[id];
      if current == next { return AlreadyThere; }
      if !((current == 0 || current in zones) && next in zones) { return Rejected; }
      MoveClient(id, next);
      return Moved;
    }

    /** The default case of `handle_packet`. */
    method RoutePacket(id: ClientId, tag: nat)
      requires Valid()
      modifies zones.Values
      ensures Valid() && State() == Routed(old(State()), id, tag)
    {
      if id !in players || id !in clients { return; }
      if id !in currentZone || currentZone[id] !in zones { return; }
      PostTo(currentZone[id], HandlePacket(Packet(Client(id, players[id]), tag)));
    }

    method PostLeave(id: ClientId, zone: ZoneId)
      requires Valid() && (zone in zones ==> id in players)
      modifies zones.Values
      ensures ZoneStates() ==
              if zone in zones then Posted(old(ZoneStates()), zone, RemoveClient(Client(id, players[id])))
              else old(ZoneStates())
    {
      if zone in zones { PostTo(zone, RemoveClient(Client(id, players[id]))); }
    }

    /** The handler posted by `remove_client_deferred`. */
    method RemoveClientNow(id: ClientId)
      requires Valid() && id in currentZone && (currentZone[id] in zones ==> id in players)
      modifies this, zones.Values
      ensures Valid() && State() == Disconnected(old(State()), id)
    {
      PostLeave(id, currentZone[id]);
      clients := clients - {id};
      currentZone := currentZone - {id};
    }

    /** One zone's strand runs its oldest handler; no other zone and nothing of the server changes. */
    method RunZoneHandler(zone: ZoneId, now: int, done: int)
      requires Valid() && zone in zones && zones[zone].queue != []
      modifies zones.Values
      ensures Valid()
      ensures State() == old(State()).(zones := old(ZoneStates())[zone := RunNext(old(zones[zone].State()), now, done)])
    {
      zones[zone].RunNextHandler(now, done);
    }
  }
}
