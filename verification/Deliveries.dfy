/** What a zone sends, to whom and when: handler by handler in every reachable state, and what it adds up to. */
module Deliveries {
  import opened Zones
  import opened ZoneInvariants
  import opened Protocol
  import opened Histories

  /** When the last simulation step of `z` ended; before the first, what the clock was loaded with. */
  function LastEnd(loaded: ZoneState, z: ZoneState): int {
    if z.steps == [] then loaded.lastTick else z.steps[|z.steps| - 1].1
  }

  /** The non-player entities of a zone. */
  function Scenery(z: ZoneState): set<EntityId> {
    set e | e in z.entities && !z.entities[e]
  }

  /** What `id` is sent while `z` runs the handler `h`. */
  function SentTo(z: ZoneState, h: Handler, due: bool, id: ClientId): seq<Message> {
    match h
    case AddClient(c) =>
      if id == c.id then [PlayerSpawns(z.clients.Values), EntitySpawns(Scenery(z) - {c.player})]
      else if id in z.clients then [PlayerSpawn(c.player)] else []
    case RemoveClient(c) => if id in z.clients && id != c.id then [EntityDespawn(c.player)] else []
    case HandlePacket(_) => []
    case Tick => if due && id in z.clients then [EntityMovements(z.entities.Keys)] else []
  }

  // ---------------------------------------------------------------- the clock of a run

  /** A zone's clock shows the end of its last step. */
  ghost predicate OnTime(s0: System, s: System) {
    s.zones.Keys == s0.zones.Keys
    && forall zone :: zone in s.zones ==> s.zones[zone].lastTick == LastEnd(s0.zones[zone], s.zones[zone])
  }

  lemma ZoneClock(loaded: ZoneState, z: ZoneState, now: int, done: int)
    requires z.queue != [] && z.lastTick == LastEnd(loaded, z)
    ensures var t := RunNext(z, now, done); t.lastTick == LastEnd(loaded, t)
  {
  }

  lemma StepOnTime(s0: System, s: System, e: Event)
    requires OnTime(s0, s) && Possible(s, e)
    ensures OnTime(s0, Step(s, e))
  {
    if e.RunZone? { ZoneClock(s0.zones[e.zone], s.zones[e.zone], e.now, e.done); } else { ServerOnlyQueues(s, e); }
  }

  lemma {:induction false} RunOnTime(s0: System, events: seq<Event>)
    requires Initial(s0) && Legal(s0, events)
    ensures OnTime(s0, Run(s0, events)) && GlobalInv(Run(s0, events))
    decreases |events|
  {
    RunTells(s0, events);
    if events != [] {
      RunLast(s0, events);
      RunOnTime(s0, events[..|events| - 1]);
      StepOnTime(s0, Run(s0, events[..|events| - 1]), events[|events| - 1]);
    }
  }

  // ---------------------------------------------------------------- ticks

  /** In every run, when a zone comes to a tick: with members it simulates a step exactly if the last one ended at least
      100 ms before, and posts the next tick in any case. Without members it drops the tick. Nothing else changes but
      what is sent. */
  lemma TickWhenDue(s0: System, events: seq<Event>, zone: ZoneId, now: int, done: int)
    requires Initial(s0) && Legal(s0, events) && Possible(Run(s0, events), RunZone(zone, now, done))
    requires Run(s0, events).zones[zone].queue[0] == Tick
    ensures zone in s0.zones && zone in Step(Run(s0, events), RunZone(zone, now, done)).zones
    ensures var z, t := Run(s0, events).zones[zone], Step(Run(s0, events), RunZone(zone, now, done)).zones[zone];
            && (t.steps == z.steps + [(now, done)] <==> z.clients != map[] && LastEnd(s0.zones[zone], z) + 100 <= now)
            && (t.steps == z.steps + [(now, done)] || (t.steps == z.steps && t.sent == z.sent))
            && t.queue == (if z.clients == map[] then z.queue[1..] else z.queue[1..] + [Tick])
            && t.clients == z.clients && t.entities == z.entities && t.handled == z.handled
            && t.running == z.running
  {
    RunOnTime(s0, events);
    var z := Run(s0, events).zones[zone];
    assert ZoneInv(Run(s0, events), zone);
    assert |z.steps + [(now, done)]| > |z.steps|;
  }

  /** Whatever a zone runs next, each client is sent what it is due, and nothing else: the newcomer all the others,
      each other member the newcomer or the leaver, and every member the movements of a simulation step. What has been
      sent before stays. */
  lemma SentWhenDue(s0: System, events: seq<Event>, zone: ZoneId, now: int, done: int, id: ClientId)
    requires Initial(s0) && Legal(s0, events) && Possible(Run(s0, events), RunZone(zone, now, done))
    ensures zone in s0.zones && zone in Step(Run(s0, events), RunZone(zone, now, done)).zones
    ensures var z, t := Run(s0, events).zones[zone], Step(Run(s0, events), RunZone(zone, now, done)).zones[zone];
            Log(t.sent, id) ==
            Log(z.sent, id) + SentTo(z, z.queue[0], LastEnd(s0.zones[zone], z) + 100 <= now, id)
  {
    RunOnTime(s0, events);
    assert ZoneInv(Run(s0, events), zone);
    HandlerSends(Run(s0, events).players, Run(s0, events).zones[zone], now, done, id);
  }

  lemma HandlerSends(players: map<ClientId, EntityId>, z: ZoneState, now: int, done: int, id: ClientId)
    requires Inv(z) && z.queue != [] && Injective(players) && Agree(players, z)
    ensures Log(RunNext(z, now, done).sent, id) ==
            Log(z.sent, id) + SentTo(z, z.queue[0], z.lastTick + 100 <= now, id)
  {
    var h := z.queue[0];
    assert h in z.queue && Known(players, h) && Fits(z.clients.Keys, h);
    match h
    case AddClient(c) => AddSends(Popped(z), c, id);
    case RemoveClient(c) => RemoveSends(Popped(z), c, id);
    case HandlePacket(_) =>
    case Tick => TickSends(Popped(z), now, done, id);
  }

  lemma AddSends(z: ZoneState, c: Client, id: ClientId)
    requires c.id !in z.clients && c.player !in z.clients.Values
    ensures Log(Added(z, c).sent, id) == Log(z.sent, id) + SentTo(z, AddClient(c), false, id)
  {
    ValuesAfterAdd(z.clients, c.id, c.player);
    assert Others(z.entities[c.player := true]) == Scenery(z) - {c.player};
    assert z.clients[c.id := c.player].Values - {c.player} == z.clients.Values;
  }

  lemma RemoveSends(z: ZoneState, c: Client, id: ClientId)
    requires c.id in z.clients && 0 !in z.clients
    ensures Log(Removed(z, c).sent, id) == Log(z.sent, id) + SentTo(z, RemoveClient(c), false, id)
  {
    assert (z.clients - {c.id}).Keys - {0} == z.clients.Keys - {c.id};
  }

  lemma TickSends(z: ZoneState, now: int, done: int, id: ClientId)
    requires 0 !in z.clients && (z.running <==> z.clients != map[])
    ensures Log(Ticked(z, now, done).sent, id) == Log(z.sent, id) + SentTo(z, Tick, z.lastTick + 100 <= now, id)
  {
  }

  // ---------------------------------------------------------------- the entities that are not players

  /** The non-player entities that a client believes to be around after reading `log`. */
  function Backdrop(log: seq<Message>): set<EntityId> {
    if log == [] then {} else
      var before := Backdrop(log[..|log| - 1]);
      match log[|log| - 1]
      case EntitySpawns(others) => others
      case EntityDespawn(entity) => before - {entity}
      case _ => before
  }

  lemma BackdropAppend(log: seq<Message>, m: Message)
    ensures Backdrop(log + [m]) ==
            if m.EntitySpawns? then m.others else if m.EntityDespawn? then Backdrop(log) - {m.entity} else Backdrop(log)
  {
    assert (log + [m])[..|log|] == log;
  }

  /** The scenery of a zone is `still`, and every member knows it. */
  ghost predicate Shown(z: ZoneState, still: set<EntityId>) {
    Scenery(z) == still
    && forall id {:trigger Log(z.sent, id)} :: id in z.clients ==> Backdrop(Log(z.sent, id)) == still
  }

  lemma MemberShown(z: ZoneState, h: Handler, due: bool, id: ClientId, still: set<EntityId>)
    requires Shown(z, still) && Fits(z.clients.Keys, h) && id in Effect(z.clients.Keys, h)
    requires h.AddClient? || h.RemoveClient? ==> h.client.player !in still
    ensures Backdrop(Log(z.sent, id) + SentTo(z, h, due, id)) == still
  {
    var log, told := Log(z.sent, id), SentTo(z, h, due, id);
    assert log + [] == log;
    if h.AddClient? && id == h.client.id {
      BackdropAppend(log, told[0]);
      BackdropAppend(log + [told[0]], told[1]);
      assert log + told == (log + [told[0]]) + [told[1]];
    } else if told != [] {
      BackdropAppend(log, told[0]);
      assert told == [told[0]];
    }
  }

  lemma SceneryStays(players: map<ClientId, EntityId>, z: ZoneState, now: int, done: int)
    requires z.queue != [] && Agree(players, z) && players.Values !! Scenery(z)
    ensures Scenery(RunNext(z, now, done)) == Scenery(z)
  {
    var h := z.queue[0];
    assert h in z.queue && Known(players, h);
    if h.AddClient? || h.RemoveClient? { assert h.client.player in players.Values; }
  }

  lemma HandlerShows(players: map<ClientId, EntityId>, z: ZoneState, now: int, done: int, still: set<EntityId>)
    requires Inv(z) && z.queue != [] && now <= done && Injective(players) && Agree(players, z)
    requires Shown(z, still) && players.Values !! still
    ensures Shown(RunNext(z, now, done), still)
  {
    var t, h := RunNext(z, now, done), z.queue[0];
    assert h in z.queue && Known(players, h);
    SceneryStays(players, z, now, done);
    RunNextKeepsInv(players, z, now, done);
    forall id | id in t.clients ensures Backdrop(Log(t.sent, id)) == still {
      HandlerSends(players, z, now, done, id);
      if h.AddClient? || h.RemoveClient? { assert h.client.player in players.Values; }
      MemberShown(z, h, z.lastTick + 100 <= now, id, still);
    }
  }

  lemma PlayersGrow(s: System, e: Event)
    requires Possible(s, e)
    ensures s.players.Values <= Step(s, e).players.Values
  {
    forall p | p in s.players.Values ensures p in Step(s, e).players.Values {
      var id :| id in s.players && s.players[id] == p;
      assert id in Step(s, e).players && Step(s, e).players[id] == p;
    }
  }

  /** In every run in which no player has the id of another entity of the zone (ids are never given twice), the zone
      keeps the entities it was loaded with, and every member has been shown exactly those. */
  lemma {:induction false} SceneryIsShown(s0: System, events: seq<Event>, zone: ZoneId)
    requires Initial(s0) && Legal(s0, events) && zone in s0.zones
    requires Run(s0, events).players.Values !! s0.zones[zone].entities.Keys
    ensures zone in Run(s0, events).zones && Shown(Run(s0, events).zones[zone], s0.zones[zone].entities.Keys)
    decreases |events|
  {
    if events != [] {
      var before, e := events[..|events| - 1], events[|events| - 1];
      RunLast(s0, events);
      RunTells(s0, before);
      var s := Run(s0, before);
      PlayersGrow(s, e);
      SceneryIsShown(s0, before, zone);
      assert ZoneInv(s, zone);
      if !e.RunZone? { ServerOnlyQueues(s, e); }
      else if e.zone == zone { HandlerShows(s.players, s.zones[zone], e.now, e.done, s0.zones[zone].entities.Keys); }
    }
  }
}
