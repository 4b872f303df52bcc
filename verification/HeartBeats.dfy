/** The dead-client detector: a 5 s periodic timer, and the beats that an authenticated client's packets count as. */
module HeartBeats {

  const MAX_DEAD_BEATS := 3
  const BEAT_INTERVAL := 5.0

  /** `probes` counts the HeartBeat packets sent; `stopped` says that the detector has stopped its client. */
  datatype Beater = Beater(lastBeat: real, deadBeats: nat, probes: nat, stopped: bool)

  function Started(now: real): Beater {
    Beater(now, 0, 0, false)
  }

  function Beaten(b: Beater, now: real): Beater {
    b.(lastBeat := now, deadBeats := 0)
  }

  function TimedOut(b: Beater, now: real): Beater {
    if b.deadBeats >= MAX_DEAD_BEATS then b.(stopped := true)
    else if now <= b.lastBeat + BEAT_INTERVAL then b
    else b.(deadBeats := b.deadBeats + 1, probes := b.probes + 1)
  }

  // ---------------------------------------------------------------- timed runs

  /** A received packet, from a client that is authenticated by then or not, or the timer firing. */
  datatype Event = Packet(at: real, authenticated: bool) | Timeout(at: real)

  /** The detector together with the clock and the instant at which the timer fires next. */
  datatype Timed = Timed(beater: Beater, now: real, nextFire: real)

  function Init(start: real): Timed {
    Timed(Started(start), start, start + BEAT_INTERVAL)
  }

  /** Time does not run backwards, the timer is never late, and nothing happens after the stop. */
  predicate Possible(s: Timed, e: Event) {
    && !s.beater.stopped
    && match e
       case Packet(at, _) => s.now <= at <= s.nextFire
       case Timeout(at) => at == s.nextFire
  }

  function Step(s: Timed, e: Event): Timed {
    match e
    case Packet(at, authenticated) => s.(beater := if authenticated then Beaten(s.beater, at) else s.beater, now := at)
    case Timeout(at) => Timed(TimedOut(s.beater, at), at, at + BEAT_INTERVAL)
  }

  predicate Legal(s: Timed, events: seq<Event>)
    decreases |events|
  {
    events == [] || (Possible(s, events[0]) && Legal(Step(s, events[0]), events[1..]))
  }

  function Run(s: Timed, events: seq<Event>): Timed
    decreases |events|
  {
    if events == [] then s else Run(Step(s, events[0]), events[1..])
  }

  /** The instant of the last authenticated packet, or of the start when none has arrived. */
  function LastPacket(start: real, events: seq<Event>): real
    decreases |events|
  {
    if events == [] then start
    else LastPacket(if events[0].Packet? && events[0].authenticated then events[0].at else start, events[1..])
  }

  /** While the client is alive, k missed beats pin the next timeout to one 5 s window after the last beat. */
  ghost predicate Inv(s: Timed) {
    var silent := s.nextFire - s.beater.lastBeat;
    && s.beater.lastBeat <= s.now <= s.nextFire <= s.now + BEAT_INTERVAL
    && s.beater.deadBeats <= MAX_DEAD_BEATS
    && (s.beater.deadBeats == 0 ==> 0.0 <= silent <= 2.0 * BEAT_INTERVAL)
    && (s.beater.deadBeats > 0 ==>
          var k := s.beater.deadBeats as real;
          (k + 1.0) * BEAT_INTERVAL < silent <= (k + 2.0) * BEAT_INTERVAL)
  }

  ghost predicate StoppedInTime(s: Timed) {
    s.beater.lastBeat + 20.0 < s.now <= s.beater.lastBeat + 25.0 && s.beater.deadBeats == MAX_DEAD_BEATS
  }

  lemma StepKeepsInv(s: Timed, e: Event)
    requires !s.beater.stopped && Inv(s) && Possible(s, e)
    ensures var t := Step(s, e); if t.beater.stopped then StoppedInTime(t) else Inv(t)
  {
  }

  // ---------------------------------------------------------------- the actor

  class HeartBeater {
    var lastBeat: real
    var deadBeats: nat
    var probes: nat
    var stopped: bool
    ghost var now: real
    ghost var nextFire: real

    function State(): Beater
      reads this
    {
      Beater(lastBeat, deadBeats, probes, stopped)
    }

    ghost function Clocked(): Timed
      reads this
    {
      Timed(State(), now, nextFire)
    }

    /** The client is alive, and its missed beats tell how long ago its last beat was. */
    ghost predicate Valid()
      reads this
    {
      !stopped && Inv(Clocked())
    }

    constructor Start(now: real)
      ensures Valid() && Clocked() == Init(now)
    {
      lastBeat, deadBeats, probes, stopped := now, 0, 0, false;
      this.now, nextFire := now, now + BEAT_INTERVAL;
    }

    method Beat(now: real)
      requires Valid() && this.now <= now <= nextFire
      modifies this
      ensures Valid() && Clocked() == Step(old(Clocked()), Packet(now, true))
    {
      lastBeat := now;
      deadBeats := 0;
      this.now := now;
    }

    /** The connection received something: only an authenticated client's packets count as beats. */
    method OnReceived(now: real, authenticated: bool)
      requires Valid() && this.now <= now <= nextFire
      modifies this
      ensures Valid() && Clocked() == Step(old(Clocked()), Packet(now, authenticated))
      ensures lastBeat == if authenticated then now else old(lastBeat)
    {
      if authenticated {
        Beat(now);
      } else {
        this.now := now;
      }
    }

    /** The timer callback: it stops a client only more than 20 s and at most 25 s after its last beat, and never
        leaves a longer silence unpunished. */
    method OnTimeout(now: real)
      requires Valid() && now == nextFire
      modifies this
      ensures Clocked() == Step(old(Clocked()), Timeout(now)) && lastBeat == old(lastBeat)
      ensures if stopped then lastBeat + 20.0 < now <= lastBeat + 25.0 else Valid()
      ensures now > lastBeat + 20.0 ==> stopped
      ensures probes == old(probes) + if !stopped && now > lastBeat + BEAT_INTERVAL then 1 else 0
    {
      this.now, nextFire := now, now + BEAT_INTERVAL;
      if deadBeats >= MAX_DEAD_BEATS {
        stopped := true;
        return;
      }
      if now <= lastBeat + BEAT_INTERVAL { return; }
      deadBeats := deadBeats + 1;
      probes := probes + 1;
    }
  }

  // ---------------------------------------------------------------- whole runs

  lemma {:induction false} RunKeepsInv(s: Timed, events: seq<Event>)
    requires !s.beater.stopped && Inv(s) && Legal(s, events)
    ensures var t := Run(s, events);
            && t.beater.lastBeat == LastPacket(s.beater.lastBeat, events)
            && if t.beater.stopped then StoppedInTime(t) else Inv(t)
    decreases |events|
  {
    if events != [] {
      StepKeepsInv(s, events[0]);
      var t := Step(s, events[0]);
      if !t.beater.stopped { RunKeepsInv(t, events[1..]); }
    }
  }

  /** A client is stopped only more than 20 s after its last authenticated packet (or its start), and one that stays
      silent or unauthenticated is stopped within 25 s of it: no run gets past that instant with the client alive. */
  lemma HeartbeatBounds(start: real, events: seq<Event>)
    requires Legal(Init(start), events)
    ensures var t := Run(Init(start), events);
            var last := LastPacket(start, events);
            && (t.beater.stopped ==> last + 20.0 < t.now <= last + 25.0)
            && (!t.beater.stopped ==> t.now <= t.nextFire <= last + 25.0)
  {
    RunKeepsInv(Init(start), events);
  }
}
