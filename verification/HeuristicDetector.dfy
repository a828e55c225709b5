/** The detector as an object: its methods change the deques in place and refine the value model. */
module HeuristicDetector {
  import opened Options
  import opened Packets
  import opened Lists
  import opened SlidingWindows

  datatype Decision = Decision(suspicious: bool, score: nat)

  // ----- The sweep, one source at a time

  function TrimOnly(deques: Deques, sources: set<string>, cutoff: real): Deques {
    map src | src in deques :: if src in sources then DropOlder(deques[src], cutoff) else deques[src]
  }

  /** The sweep when only the sources in `done` have been visited. */
  function CollectOnly(st: Tracker, now: real, done: set<string>): Tracker {
    Forget(st.(times := TrimOnly(st.times, done, now - BURST_WINDOW),
               ports := TrimOnly(st.ports, done, now - PORT_WINDOW),
               syns := TrimOnly(st.syns, done, now - SYN_WINDOW)),
           done * IdleSources(Trim(st, now)))
  }

  function Trimmed(deques: Deques, src: string, cutoff: real): Deques {
    if src in deques then deques[src := DropOlder(deques[src], cutoff)] else deques
  }

  predicate Idle(st: Tracker, src: string) {
    Get(st.times, src) == [] && Get(st.ports, src) == [] && Get(st.syns, src) == []
  }

  function TrimSource(st: Tracker, src: string, now: real): Tracker {
    st.(times := Trimmed(st.times, src, now - BURST_WINDOW),
        ports := Trimmed(st.ports, src, now - PORT_WINDOW),
        syns := Trimmed(st.syns, src, now - SYN_WINDOW))
  }

  function CollectSource(st: Tracker, src: string, now: real): Tracker {
    var trimmed := TrimSource(st, src, now);
    if Idle(trimmed, src) then Forget(trimmed, {src}) else trimmed
  }

  lemma CollectNone(st: Tracker, now: real)
    ensures CollectOnly(st, now, {}) == st
  {
    hide DropOlder;
    var none := CollectOnly(st, now, {});
    assert none.times == st.times && none.ports == st.ports && none.syns == st.syns && none.lastSeen == st.lastSeen;
  }

  lemma TrimOnlyAll(deques: Deques, sources: set<string>, cutoff: real)
    requires deques.Keys <= sources
    ensures TrimOnly(deques, sources, cutoff) == TrimAll(deques, cutoff)
  {
    hide DropOlder;
  }

  /** Visiting every tracked source completes the sweep. */
  lemma CollectEveryone(st: Tracker, now: real)
    ensures CollectOnly(st, now, Tracked(st)) == Collect(st, now)
  {
    hide DropOlder;
    TrimOnlyAll(st.times, Tracked(st), now - BURST_WINDOW);
    TrimOnlyAll(st.ports, Tracked(st), now - PORT_WINDOW);
    TrimOnlyAll(st.syns, Tracked(st), now - SYN_WINDOW);
    var idle := IdleSources(Trim(st, now));
    assert Tracked(Trim(st, now)) == Tracked(st);
    assert Tracked(st) * idle == idle;
  }

  lemma TrimOnlyOneMore(deques: Deques, done: set<string>, gone: set<string>, src: string, cutoff: real)
    requires src !in done && gone <= done
    ensures Trimmed(TrimOnly(deques, done, cutoff) - gone, src, cutoff) == TrimOnly(deques, done + {src}, cutoff) - gone
  {
    hide DropOlder;
  }

  lemma IdleWhenVisited(st: Tracker, now: real, done: set<string>, src: string)
    requires src in Tracked(st) && src !in done
    ensures Idle(TrimSource(CollectOnly(st, now, done), src, now), src) <==> src in IdleSources(Trim(st, now))
  {
    var trimmed, gone := TrimSource(CollectOnly(st, now, done), src, now), done * IdleSources(Trim(st, now));
    hide DropOlder, IdleSources;
    assert Get(trimmed.times, src) == Get(Trim(st, now).times, src);
    assert Get(trimmed.ports, src) == Get(Trim(st, now).ports, src);
    assert Get(trimmed.syns, src) == Get(Trim(st, now).syns, src);
    hide TrimSource, CollectOnly, Trim;
    InIdleSources(Trim(st, now), src);
    assert src in Tracked(Trim(st, now)) by { TrimTracks(st, now); }
  }

  lemma TrimTracks(st: Tracker, now: real)
    ensures Tracked(Trim(st, now)) == Tracked(st)
  {
    hide DropOlder;
  }

  lemma InIdleSources(st: Tracker, src: string)
    ensures src in IdleSources(st) <==> src in Tracked(st) && Idle(st, src)
  {
  }

  lemma CollectOneMore(st: Tracker, now: real, done: set<string>, src: string)
    requires src in Tracked(st) && src !in done
    ensures CollectSource(CollectOnly(st, now, done), src, now) == CollectOnly(st, now, done + {src})
  {
    IdleWhenVisited(st, now, done, src);
    var idle := IdleSources(Trim(st, now));
    TrimOnlyOneMore(st.times, done, done * idle, src, now - BURST_WINDOW);
    TrimOnlyOneMore(st.ports, done, done * idle, src, now - PORT_WINDOW);
    TrimOnlyOneMore(st.syns, done, done * idle, src, now - SYN_WINDOW);
    hide Trimmed, TrimOnly, DropOlder, IdleSources, Trim;
    var visited := TrimSource(CollectOnly(st, now, done), src, now);
    if src in idle {
      assert (done + {src}) * idle == done * idle + {src};
      ForgetTwice(st.(times := TrimOnly(st.times, done + {src}, now - BURST_WINDOW),
                      ports := TrimOnly(st.ports, done + {src}, now - PORT_WINDOW),
                      syns := TrimOnly(st.syns, done + {src}, now - SYN_WINDOW)), done * idle, {src});
    } else {
      assert (done + {src}) * idle == done * idle;
    }
  }

  lemma ForgetTwice(st: Tracker, first: set<string>, second: set<string>)
    ensures Forget(Forget(st, first), second) == Forget(st, first + second)
  {
    assert st.times - first - second == st.times - (first + second);
    assert st.ports - first - second == st.ports - (first + second);
    assert st.syns - first - second == st.syns - (first + second);
    assert st.lastSeen - first - second == st.lastSeen - (first + second);
  }

  // ----- Sorting by last-seen time

  /** `ordered` lists each of `sources` once, the least recently seen first. */
  ghost predicate OldestFirst(ordered: seq<string>, sources: set<string>, st: Tracker) {
    && (forall i :: 0 <= i < |ordered| ==> ordered[i] in sources)
    && (forall i, j :: 0 <= i < j < |ordered| ==> ordered[i] != ordered[j] && Seen(st, ordered[i]) <= Seen(st, ordered[j]))
    && forall src :: src in sources ==> src in ordered
  }

  method Oldest(sources: set<string>, st: Tracker) returns (oldest: string)
    requires sources != {}
    ensures oldest in sources && forall src :: src in sources ==> Seen(st, oldest) <= Seen(st, src)
  {
    oldest :| oldest in sources;
    var rest := sources - {oldest};
    while rest != {}
      invariant rest <= sources && oldest in sources
      invariant forall src :: src in sources - rest ==> Seen(st, oldest) <= Seen(st, src)
    {
      var src :| src in rest;
      if Seen(st, src) < Seen(st, oldest) {
        oldest := src;
      }
      rest := rest - {src};
    }
  }

  method SortByLastSeen(sources: set<string>, st: Tracker) returns (ordered: seq<string>)
    ensures OldestFirst(ordered, sources, st)
  {
    ordered := [];
    var rest := sources;
    while rest != {}
      invariant rest <= sources
      invariant OldestFirst(ordered, sources - rest, st)
      invariant forall i, src :: 0 <= i < |ordered| && src in rest ==> Seen(st, ordered[i]) <= Seen(st, src)
    {
      var oldest := Oldest(rest, st);
      ordered := ordered + [oldest];
      rest := rest - {oldest};
    }
  }

  /** The first `overflow` sources of the sorted list are a proper choice of victims. */
  lemma FirstOldestMayGo(c: Config, st: Tracker, ordered: seq<string>, overflow: nat)
    requires OldestFirst(ordered, Tracked(st), st)
    requires overflow == if |Tracked(st)| > c.maxTracked then |Tracked(st)| - c.maxTracked else 0
    ensures overflow <= |ordered| && MayEvict(c, st, SetOf(ordered[..overflow]))
  {
    hide Tracked, Seen;
    assert SetOf(ordered) == Tracked(st);
    DistinctCount(ordered);
    var victims := SetOf(ordered[..overflow]);
    DistinctCount(ordered[..overflow]);
    assert forall k :: 0 <= k < overflow ==> ordered[k] == ordered[..overflow][k] && ordered[k] in victims;
    forall v, u | v in victims && u in Tracked(st) - victims ensures Seen(st, v) <= Seen(st, u) {
      var i :| 0 <= i < overflow && ordered[i] == v;
      var j :| 0 <= j < |ordered| && ordered[j] == u;
    }
  }

  // ----- The object

  method PopOlder(events: seq<Event>, cutoff: real) returns (kept: seq<Event>)
    ensures kept == DropOlder(events, cutoff)
  {
    kept := events;
    while kept != [] && kept[0].time < cutoff
      invariant DropOlder(kept, cutoff) == DropOlder(events, cutoff)
    {
      kept := kept[1..];
    }
  }

  class HeuristicDetector {
    const config: Config
    var times: Deques
    var ports: Deques
    var syns: Deques
    var lastSeen: map<string, real>
    var lastPrunedAt: Option<real>

    function View(): Tracker
      reads this
    {
      Tracker(times, ports, syns, lastSeen, lastPrunedAt)
    }

    constructor (c: Config)
      ensures config == c && View() == NOTHING_TRACKED
    {
      config := c;
      times, ports, syns, lastSeen, lastPrunedAt := map[], map[], map[], map[], None;
    }

    method AppendTime(src: string, timestamp: real)
      modifies this`times, this`lastSeen
      ensures times == Append(old(times), src, Event(timestamp, 0), BURST_WINDOW)
      ensures lastSeen == old(lastSeen)[src := timestamp]
    {
      var kept := PopOlder(Get(times, src) + [Event(timestamp, 0)], timestamp - BURST_WINDOW);
      times := times[src := kept];
      lastSeen := lastSeen[src := timestamp];
    }

    method AppendDstPort(src: string, dstPort: Option<int>, timestamp: real)
      modifies this`ports, this`lastSeen
      ensures ports == if dstPort.None? then old(ports)
                       else Append(old(ports), src, Event(timestamp, dstPort.value), PORT_WINDOW)
      ensures lastSeen == if dstPort.None? then old(lastSeen) else old(lastSeen)[src := timestamp]
    {
      if dstPort.Some? {
        var kept := PopOlder(Get(ports, src) + [Event(timestamp, dstPort.value)], timestamp - PORT_WINDOW);
        ports := ports[src := kept];
        lastSeen := lastSeen[src := timestamp];
      }
    }

    method AppendSynOnly(p: Packet)
      modifies this`syns, this`lastSeen
      ensures syns == if SynOnly(p) then Append(old(syns), p.srcIp, Event(p.timestamp, 0), SYN_WINDOW) else old(syns)
      ensures lastSeen == if SynOnly(p) then old(lastSeen)[p.srcIp := p.timestamp] else old(lastSeen)
    {
      if SynOnly(p) {
        var kept := PopOlder(Get(syns, p.srcIp) + [Event(p.timestamp, 0)], p.timestamp - SYN_WINDOW);
        syns := syns[p.srcIp := kept];
        lastSeen := lastSeen[p.srcIp := p.timestamp];
      }
    }

    /** The body of the first loop of the sweep: trim one source's deques, forget it if all are empty. */
    method VisitSource(src: string, now: real)
      modifies this
      ensures View() == CollectSource(old(View()), src, now)
    {
      hide DropOlder;
      if src in times {
        var kept := PopOlder(times[src], now - BURST_WINDOW);
        times := times[src := kept];
      }
      if src in ports {
        var kept := PopOlder(ports[src], now - PORT_WINDOW);
        ports := ports[src := kept];
      }
      if src in syns {
        var kept := PopOlder(syns[src], now - SYN_WINDOW);
        syns := syns[src := kept];
      }
      if Get(times, src) == [] && Get(ports, src) == [] && Get(syns, src) == [] {
        Pop(src);
      }
    }

    method Pop(src: string)
      modifies this
      ensures View() == Forget(old(View()), {src})
    {
      times, ports, syns, lastSeen := times - {src}, ports - {src}, syns - {src}, lastSeen - {src};
    }

    /** `victims` are the sources evicted for overflow. */
    method PruneTrackedIps(now: real) returns (ghost victims: set<string>)
      modifies this
      ensures MayEvict(config, Collect(old(View()), now), victims)
      ensures View() == Forget(Collect(old(View()), now), victims)
    {
      CollectIdle(now);
      victims := EvictOverflow();
    }

    /** The first half of the sweep: every tracked source in turn, in no particular order. */
    method CollectIdle(now: real)
      modifies this
      ensures View() == Collect(old(View()), now)
    {
      hide Collect, CollectOnly, CollectSource, Tracked;
      ghost var before := View();
      var todo := times.Keys + ports.Keys + syns.Keys;
      TrackedIs(before);
      ghost var done := {};
      CollectNone(before, now);
      while todo != {}
        invariant done !! todo && done + todo == Tracked(before)
        invariant View() == CollectOnly(before, now, done)
      {
        var src :| src in todo;
        CollectOneMore(before, now, done, src);
        VisitSource(src, now);
        todo, done := todo - {src}, done + {src};
      }
      CollectEveryone(before, now);
    }

    /** The second half: forget the least recently seen sources above the limit. */
    method EvictOverflow() returns (ghost victims: set<string>)
      modifies this
      ensures MayEvict(config, old(View()), victims)
      ensures View() == Forget(old(View()), victims)
    {
      hide MayEvict, Tracked, Forget, OldestFirst, SetOf;
      ghost var before := View();
      var tracked := times.Keys + ports.Keys + syns.Keys;
      TrackedIs(before);
      var ordered := SortByLastSeen(tracked, View());
      var overflow := if |tracked| > config.maxTracked then |tracked| - config.maxTracked else 0;
      FirstOldestMayGo(config, before, ordered, overflow);
      victims := SetOf(ordered[..overflow]);
      ForgetNone(before);
      assert ordered[..0] == [];
      for i := 0 to overflow
        invariant View() == Forget(before, SetOf(ordered[..i]))
      {
        ForgetTwice(before, SetOf(ordered[..i]), {ordered[i]});
        OneMoreVictim(ordered, i);
        Pop(ordered[i]);
      }
    }

    method EvaluatePacket(p: Packet) returns (decision: Decision, ghost victims: set<string>)
      modifies this
      ensures Allowed(config, old(View()), p, victims)
      ensures View() == Step(config, old(View()), p, victims)
      ensures decision.score == ScoreIn(View(), p)
      ensures decision.suspicious <==> ScoreIn(View(), p) >= 2
    {
      hide Append, SynOnly, Collect, MayEvict, Forget;
      AppendTime(p.srcIp, p.timestamp);
      AppendDstPort(p.srcIp, p.dstPort, p.timestamp);
      AppendSynOnly(p);
      assert View() == Observe(old(View()), p);
      victims := {};
      if lastPrunedAt.None? || p.timestamp - lastPrunedAt.value >= config.pruneInterval as real {
        victims := PruneTrackedIps(p.timestamp);
        lastPrunedAt := Some(p.timestamp);
      }
      var score := ScorePacket(p);
      decision := Decision(score >= 2, score);
    }

    /** A fresh detector over a stream, packet by packet: what it decides is what the run of the model gives. */
    method EvaluatePackets(ps: seq<Packet>) returns (decisions: seq<Decision>, ghost evictions: seq<set<string>>)
      requires View() == NOTHING_TRACKED
      modifies this
      ensures |decisions| == |evictions| == |ps| && ValidRun(config, ps, evictions)
      ensures View() == Run(config, ps, evictions)
      ensures forall i :: 0 <= i < |ps| ==>
                var score := ScoreIn(Run(config, ps[..i + 1], evictions[..i + 1]), ps[i]);
                decisions[i].score == score && (decisions[i].suspicious <==> score >= 2)
    {
      hide Step, ScoreIn, Allowed;
      decisions, evictions := [], [];
      for n := 0 to |ps|
        invariant |decisions| == |evictions| == n && ValidRun(config, ps[..n], evictions)
        invariant View() == Run(config, ps[..n], evictions)
        invariant forall i :: 0 <= i < n ==>
                    var score := ScoreIn(Run(config, ps[..i + 1], evictions[..i + 1]), ps[i]);
                    decisions[i].score == score && (decisions[i].suspicious <==> score >= 2)
      {
        ghost var before := evictions;
        var decision, victims := EvaluatePacket(ps[n]);
        decisions, evictions := decisions + [decision], evictions + [victims];
        assert ps[..n + 1][..n] == ps[..n] && evictions[..n] == before && evictions[..n + 1] == evictions;
        assert forall i :: 0 <= i <= n ==> evictions[..i] == before[..i];
      }
      assert ps[..|ps|] == ps;
    }

    /** The score accumulator of evaluate_packet. */
    method ScorePacket(p: Packet) returns (score: nat)
      ensures score == ScoreIn(View(), p)
    {
      score := 0;
      if p.srcPort.None? && p.dstPort.None? {
        score := score + 2;
      }
      if p.packetSize <= 0 {
        score := score + 3;
      }
      if p.packetSize < 40 {
        score := score + 1;
      }
      if p.dstPort.Some? && p.dstPort.value in SENSITIVE_PORTS {
        score := score + 1;
      }
      if |Get(times, p.srcIp)| >= BURST_THRESHOLD {
        score := score + 3;
      }
      var recent := Get(ports, p.srcIp);
      var uniquePorts := set i | 0 <= i < |recent| :: recent[i].port;
      if |uniquePorts| >= PORT_THRESHOLD {
        score := score + 3;
      }
      if |Get(syns, p.srcIp)| >= SYN_THRESHOLD {
        score := score + 4;
      }
    }
  }

  lemma TrackedIs(st: Tracker)
    ensures Tracked(st) == st.times.Keys + st.ports.Keys + st.syns.Keys
  {
  }

  lemma OneMoreVictim(xs: seq<string>, i: nat)
    requires i < |xs|
    ensures SetOf(xs[..i + 1]) == SetOf(xs[..i]) + {xs[i]}
  {
  }

  lemma ForgetNone(st: Tracker)
    ensures Forget(st, SetOf([])) == st
  {
    assert st.times - {} == st.times && st.ports - {} == st.ports && st.syns - {} == st.syns && st.lastSeen - {} == st.lastSeen;
    assert SetOf<string>([]) == {};
  }
}
