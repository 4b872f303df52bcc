/** What can be read off the events of a run alone: who is registered, where, as whom, and what has been sent there. The
    states of the run agree with it. */
module Histories {
  import opened Options
  import opened Zones
  import opened ZoneInvariants
  import opened Protocol

  // ---------------------------------------------------------------- reading events

  function Connects(events: seq<Event>): nat {
    if events == [] then 0 else Connects(events[..|events| - 1]) + if events[|events| - 1] == Connect then 1 else 0
  }

  /** The clients are numbered as they connect; `id` has connected, and has not disconnected. */
  predicate Registered(events: seq<Event>, id: ClientId) {
    1 <= id <= Connects(events) && Disconnect(id) !in events
  }

  /** The player that `id` has joined with. */
  function JoinedAs(events: seq<Event>, id: ClientId): Option<EntityId> {
    if events == [] then None else
      match events[|events| - 1]
      case Join(i, player) => if i == id then Some(player) else JoinedAs(events[..|events| - 1], id)
      case _ => JoinedAs(events[..|events| - 1], id)
  }

  /** The existing zone that `id` has last asked to enter since it connected, or 0. */
  function LastZone(zones: set<ZoneId>, events: seq<Event>, id: ClientId): ZoneId {
    if events == [] then 0 else
      var before := LastZone(zones, events[..|events| - 1], id);
      match events[|events| - 1]
      case Connect => if Connects(events) == id then 0 else before
      case Enter(i, zone) => if i == id && zone in zones then zone else before
      case _ => before
  }

  /** The packet that the last event sends to `zone`, if it does: one of a registered client that has joined and whose
      last zone that is. */
  function SentLast(zones: set<ZoneId>, events: seq<Event>, zone: ZoneId): seq<Packet>
    requires events != []
  {
    var before := events[..|events| - 1];
    match events[|events| - 1]
    case Route(id, tag) =>
      if Registered(before, id) && JoinedAs(before, id).Some? && LastZone(zones, before, id) == zone
      then [Packet(Client(id, JoinedAs(before, id).value), tag)] else []
    case _ => []
  }

  /** All the packets sent to `zone`, in the order of the events. */
  function Sent(zones: set<ZoneId>, events: seq<Event>, zone: ZoneId): seq<Packet> {
    if events == [] then [] else Sent(zones, events[..|events| - 1], zone) + SentLast(zones, events, zone)
  }

  // ---------------------------------------------------------------- the states of the run agree

  /** A run, seen from its last event. */
  lemma {:induction false} RunLast(s: System, events: seq<Event>)
    requires Legal(s, events) && events != []
    ensures var before, e := events[..|events| - 1], events[|events| - 1];
            Legal(s, before) && Possible(Run(s, before), e) && Run(s, events) == Step(Run(s, before), e)
    decreases |events|
  {
    if |events| > 1 {
      RunLast(Step(s, events[0]), events[1..]);
      assert events[..|events| - 1][1..] == events[1..][..|events[1..]| - 1];
    }
  }

  /** The server's records are what the events say. */
  ghost predicate TellsOf(zones: set<ZoneId>, events: seq<Event>, s: System, id: ClientId) {
    && (id in s.clients <==> Registered(events, id))
    && (id in s.currentZone <==> Registered(events, id))
    && (id in s.currentZone ==> s.currentZone[id] == LastZone(zones, events, id))
    && (JoinedAs(events, id) == if id in s.players then Some(s.players[id]) else None)
    && (Disconnect(id) in events ==> id <= Connects(events))
  }

  ghost predicate Tells(zones: set<ZoneId>, events: seq<Event>, s: System) {
    && s.zones.Keys == zones && s.lastId == Connects(events)
    && forall id {:trigger TellsOf(zones, events, s, id)} :: TellsOf(zones, events, s, id)
  }

  /** One more event. */
  lemma ReadNext(zones: set<ZoneId>, events: seq<Event>, e: Event, id: ClientId)
    ensures var more := events + [e];
            && Connects(more) == Connects(events) + (if e == Connect then 1 else 0)
            && (Disconnect(id) in more <==> Disconnect(id) in events || e == Disconnect(id))
            && JoinedAs(more, id) == (if e.Join? && e.id == id then Some(e.player) else JoinedAs(events, id))
            && LastZone(zones, more, id) ==
               if e == Connect && Connects(events) + 1 == id then 0
               else if e.Enter? && e.id == id && e.zone in zones then e.zone else LastZone(zones, events, id)
  {
    var more := events + [e];
    assert more[..|more| - 1] == events;
  }

  lemma NextTells(zones: set<ZoneId>, events: seq<Event>, e: Event, s: System)
    requires Tells(zones, events, s) && Registry(s) && Possible(s, e)
    ensures Tells(zones, events + [e], Step(s, e))
  {
    ReadNext(zones, events, e, 0);
    forall id ensures TellsOf(zones, events + [e], Step(s, e), id) {
      assert TellsOf(zones, events, s, id);
      ReadNext(zones, events, e, id);
    }
  }

  lemma {:induction false} RunTells(s0: System, events: seq<Event>)
    requires Initial(s0) && Legal(s0, events)
    ensures Tells(s0.zones.Keys, events, Run(s0, events)) && GlobalInv(Run(s0, events))
    decreases |events|
  {
    if events == [] {
      InitialInv(s0);
    } else {
      var before, e := events[..|events| - 1], events[|events| - 1];
      RunLast(s0, events);
      RunTells(s0, before);
      NextTells(s0.zones.Keys, before, e, Run(s0, before));
      StepKeeps(Run(s0, before), e);
      assert events == before + [e];
    }
  }

  /** In every run the server has registered exactly the clients that have connected and not disconnected, each in the
      zone it last asked for, and with the player it has joined with. */
  lemma RecordsOfRun(s0: System, events: seq<Event>, id: ClientId)
    requires Initial(s0) && Legal(s0, events)
    ensures var s := Run(s0, events);
            && s.clients == s.currentZone.Keys && s.zones.Keys == s0.zones.Keys
            && (id in s.clients <==> Registered(events, id))
            && (id in s.clients ==> s.currentZone[id] == LastZone(s0.zones.Keys, events, id))
            && (id in s.players <==> JoinedAs(events, id).Some?)
            && (id in s.players ==> Some(s.players[id]) == JoinedAs(events, id))
  {
    RunTells(s0, events);
    assert TellsOf(s0.zones.Keys, events, Run(s0, events), id);
  }

  /** So once a zone has worked off its queue, its members are those clients of whom the events say so. */
  lemma MembersOfRun(s0: System, events: seq<Event>, zone: ZoneId, id: ClientId)
    requires Initial(s0) && Legal(s0, events) && zone in s0.zones
    ensures zone in Run(s0, events).zones
    ensures var z := Run(s0, events).zones[zone];
            id in Drain(z.clients.Keys, z.queue) <==>
            Registered(events, id) && LastZone(s0.zones.Keys, events, id) == zone
  {
    RunTells(s0, events);
    assert TellsOf(s0.zones.Keys, events, Run(s0, events), id);
    assert ZoneInv(Run(s0, events), zone);
  }

  /** What a request to enter a zone comes to. */
  lemma OutcomeOfRun(s0: System, events: seq<Event>, id: ClientId, next: ZoneId)
    requires Initial(s0) && Legal(s0, events)
    ensures var result, last := EnterResult(Run(s0, events), id, next), LastZone(s0.zones.Keys, events, id);
            && (result == NotRegistered <==> !Registered(events, id))
            && (result == AlreadyThere <==> Registered(events, id) && last == next)
            && (result == Rejected <==> Registered(events, id) && last != next && next !in s0.zones)
            && (result == Moved <==> Registered(events, id) && last != next && next in s0.zones)
  {
    RunTells(s0, events);
    assert TellsOf(s0.zones.Keys, events, Run(s0, events), id);
  }

  // ---------------------------------------------------------------- packets

  /** A step adds to what a zone has handled and queued exactly the packet that it sends there. */
  lemma StepAccounts(s: System, e: Event, zone: ZoneId)
    requires GlobalInv(s) && Possible(s, e) && zone in s.zones
    ensures zone in Step(s, e).zones
    ensures var z, t := s.zones[zone], Step(s, e).zones[zone];
            t.handled + PacketsIn(t.queue) == z.handled + PacketsIn(z.queue) +
              if e.Route? && e.id in s.players && e.id in s.clients && e.id in s.currentZone
                 && s.currentZone[e.id] == zone
              then [Packet(Client(e.id, s.players[e.id]), e.tag)] else []
  {
    assert ZoneInv(s, zone);
    var z := s.zones[zone];
    match e
    case RunZone(other, now, done) =>
      if other == zone {
        RunNextKeepsInv(s.players, z, now, done);
        RunNextAccounts(z, now, done);
      }
    case Enter(id, next) =>
      if EnterResult(s, id, next) == Moved { ChangesAreNoPackets(z.queue, Client(id, s.players[id])); }
    case Disconnect(id) =>
      if s.currentZone[id] in s.zones { ChangesAreNoPackets(z.queue, Client(id, s.players[id])); }
    case Route(id, tag) =>
      if id in s.players { PacketsAppend(z.queue, HandlePacket(Packet(Client(id, s.players[id]), tag))); }
    case Connect =>
    case Join(_, _) =>
  }

  lemma ChangesAreNoPackets(queue: seq<Handler>, c: Client)
    ensures PacketsIn(queue + [AddClient(c)]) == PacketsIn(queue) == PacketsIn(queue + [RemoveClient(c)])
  {
    PacketsAppend(queue, AddClient(c));
    PacketsAppend(queue, RemoveClient(c));
  }

  /** In every run a zone has handled, or has still queued, exactly the packets that were sent to it, in the order in
      which they were sent: none is dropped, none arrives anywhere else, and none overtakes another. */
  lemma {:induction false} PacketsArrive(s0: System, events: seq<Event>, zone: ZoneId)
    requires Initial(s0) && Legal(s0, events) && zone in s0.zones
    ensures zone in Run(s0, events).zones
    ensures var z := Run(s0, events).zones[zone];
            z.handled + PacketsIn(z.queue) == Sent(s0.zones.Keys, events, zone)
    decreases |events|
  {
    if events != [] {
      var before, e := events[..|events| - 1], events[|events| - 1];
      RunLast(s0, events);
      RunTells(s0, before);
      if e.Route? { assert TellsOf(s0.zones.Keys, before, Run(s0, before), e.id); }
      PacketsArrive(s0, before, zone);
      StepAccounts(Run(s0, before), e, zone);
    }
  }

  /** Each event changes only the zones it concerns. */
  lemma OtherZonesStay(s: System, e: Event, zone: ZoneId)
    requires Possible(s, e) && zone in s.zones
    requires match e
             case Connect => true
             case Join(_, _) => true
             case Enter(id, next) => zone != next && !(id in s.currentZone && s.currentZone[id] == zone)
             case Route(id, _) => !(id in s.currentZone && s.currentZone[id] == zone)
             case Disconnect(id) => s.currentZone[id] != zone
             case RunZone(other, _, _) => other != zone
    ensures zone in Step(s, e).zones && Step(s, e).zones[zone] == s.zones[zone]
  {
  }
}
