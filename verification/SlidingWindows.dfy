/** The heuristic detector on values: per-source deques that are trimmed lazily, and a periodic sweep. */
module SlidingWindows {
  import opened Options
  import opened Packets
  import opened Lists

  const BURST_WINDOW := 2.0
  const BURST_THRESHOLD := 40
  const PORT_WINDOW := 5.0
  const PORT_THRESHOLD := 15
  const SYN_WINDOW := 3.0
  const SYN_THRESHOLD := 20
  const SENSITIVE_PORTS := {21, 22, 23, 25, 53, 80, 110, 135, 139, 143, 443, 445, 3389}

  /** One remembered instant; `port` is 0 in the windows that remember no port. */
  datatype Event = Event(time: real, port: int)

  datatype Config = Config(maxTracked: Positive, pruneInterval: Positive)

  type Deques = map<string, seq<Event>>

  datatype Tracker = Tracker(times: Deques, ports: Deques, syns: Deques, lastSeen: map<string, real>, lastPruned: Option<real>)

  const NOTHING_TRACKED := Tracker(map[], map[], map[], map[], None)

  /** Python's `popleft` while the oldest event precedes the cutoff. */
  function DropOlder(events: seq<Event>, cutoff: real): seq<Event> {
    if events != [] && events[0].time < cutoff then DropOlder(events[1..], cutoff) else events
  }

  function Get(deques: Deques, src: string): seq<Event> {
    if src in deques then deques[src] else []
  }

  function Append(deques: Deques, src: string, e: Event, window: real): Deques {
    deques[src := DropOlder(Get(deques, src) + [e], e.time - window)]
  }

  predicate SynOnly(p: Packet) {
    p.tcpFlags.Some? && HasFlag(p.tcpFlags.value, 2) && !HasFlag(p.tcpFlags.value, 16)
  }

  function Observe(st: Tracker, p: Packet): Tracker {
    var t := p.timestamp;
    Tracker(
      Append(st.times, p.srcIp, Event(t, 0), BURST_WINDOW),
      if p.dstPort.Some? then Append(st.ports, p.srcIp, Event(t, p.dstPort.value), PORT_WINDOW) else st.ports,
      if SynOnly(p) then Append(st.syns, p.srcIp, Event(t, 0), SYN_WINDOW) else st.syns,
      st.lastSeen[p.srcIp := t],
      st.lastPruned)
  }

  function TrimAll(deques: Deques, cutoff: real): Deques {
    map src | src in deques :: DropOlder(deques[src], cutoff)
  }

  function Tracked(st: Tracker): set<string> {
    st.times.Keys + st.ports.Keys + st.syns.Keys
  }

  function Trim(st: Tracker, now: real): Tracker {
    st.(times := TrimAll(st.times, now - BURST_WINDOW),
        ports := TrimAll(st.ports, now - PORT_WINDOW),
        syns := TrimAll(st.syns, now - SYN_WINDOW))
  }

  function IdleSources(st: Tracker): set<string> {
    set src | src in Tracked(st) && Get(st.times, src) == [] && Get(st.ports, src) == [] && Get(st.syns, src) == []
  }

  function Forget(st: Tracker, gone: set<string>): Tracker {
    st.(times := st.times - gone, ports := st.ports - gone, syns := st.syns - gone, lastSeen := st.lastSeen - gone)
  }

  /** Trims every window and forgets the sources with nothing left. */
  function Collect(st: Tracker, now: real): Tracker {
    Forget(Trim(st, now), IdleSources(Trim(st, now)))
  }

  function Seen(st: Tracker, src: string): real {
    if src in st.lastSeen then st.lastSeen[src] else 0.0
  }

  /** `victims` may be evicted from `st`: as many as needed, and none seen later than a survivor. Sorting
      leaves ties open. */
  ghost predicate MayEvict(c: Config, st: Tracker, victims: set<string>) {
    && victims <= Tracked(st)
    && |victims| == (if |Tracked(st)| > c.maxTracked then |Tracked(st)| - c.maxTracked else 0)
    && forall v, u :: v in victims && u in Tracked(st) - victims ==> Seen(st, v) <= Seen(st, u)
  }

  predicate SweepDue(c: Config, st: Tracker, now: real) {
    st.lastPruned.None? || now - st.lastPruned.value >= c.pruneInterval as real
  }

  function Sweep(st: Tracker, now: real, victims: set<string>): Tracker {
    Forget(Collect(st, now), victims).(lastPruned := Some(now))
  }

  /** The choice of victims that a packet leaves to the sweep; none if no sweep is due. */
  ghost predicate Allowed(c: Config, st: Tracker, p: Packet, victims: set<string>) {
    var seen := Observe(st, p);
    if SweepDue(c, st, p.timestamp) then MayEvict(c, Collect(seen, p.timestamp), victims) else victims == {}
  }

  function Step(c: Config, st: Tracker, p: Packet, victims: set<string>): Tracker {
    var seen := Observe(st, p);
    if SweepDue(c, st, p.timestamp) then Sweep(seen, p.timestamp, victims) else seen
  }

  function PortsOf(events: seq<Event>): set<int> {
    set i | 0 <= i < |events| :: events[i].port
  }

  /** The part of the score that depends on the packet alone. */
  function BaseScore(p: Packet): nat {
    (if p.srcPort.None? && p.dstPort.None? then 2 else 0) +
    (if p.packetSize <= 0 then 3 else 0) +
    (if p.packetSize < 40 then 1 else 0) +
    (if p.dstPort.Some? && p.dstPort.value in SENSITIVE_PORTS then 1 else 0)
  }

  function Score(p: Packet, times: seq<Event>, ports: seq<Event>, syns: seq<Event>): nat {
    BaseScore(p) +
    (if |times| >= BURST_THRESHOLD then 3 else 0) +
    (if |PortsOf(ports)| >= PORT_THRESHOLD then 3 else 0) +
    (if |syns| >= SYN_THRESHOLD then 4 else 0)
  }

  /** The score that evaluate_packet returns, from the state after the packet. */
  function ScoreIn(st: Tracker, p: Packet): nat {
    Score(p, Get(st.times, p.srcIp), Get(st.ports, p.srcIp), Get(st.syns, p.srcIp))
  }

  /** The state after a run; `evictions` are the sweep's choices, one per packet. */
  function Run(c: Config, ps: seq<Packet>, evictions: seq<set<string>>): Tracker
    requires |evictions| == |ps|
  {
    if ps == [] then NOTHING_TRACKED
    else Step(c, Run(c, ps[..|ps| - 1], evictions[..|ps| - 1]), ps[|ps| - 1], evictions[|ps| - 1])
  }

  ghost predicate ValidRun(c: Config, ps: seq<Packet>, evictions: seq<set<string>>)
    requires |evictions| == |ps|
  {
    ps != [] ==>
      && ValidRun(c, ps[..|ps| - 1], evictions[..|ps| - 1])
      && Allowed(c, Run(c, ps[..|ps| - 1], evictions[..|ps| - 1]), ps[|ps| - 1], evictions[|ps| - 1])
  }
}
