/** What the detector's score means, in terms of the packets of the stream. */
module Scoring {
  import opened Options
  import opened Packets
  import opened SlidingWindows
  import opened WindowGuarantees

  // ----- The windows, over packets

  /** How many packets `src` sent at `from` or later. */
  function PacketsSince(ps: seq<Packet>, src: string, from: real): nat {
    if ps == [] then 0
    else
      var p := ps[|ps| - 1];
      PacketsSince(ps[..|ps| - 1], src, from) + if p.srcIp == src && p.timestamp >= from then 1 else 0
  }

  /** The destination ports that `src` tried at `from` or later. */
  function PortsSince(ps: seq<Packet>, src: string, from: real): set<int> {
    if ps == [] then {}
    else
      var p := ps[|ps| - 1];
      PortsSince(ps[..|ps| - 1], src, from) +
      if p.srcIp == src && p.timestamp >= from && p.dstPort.Some? then {p.dstPort.value} else {}
  }

  /** SYN set and ACK clear. */
  predicate OnlySyn(p: Packet) {
    p.tcpFlags.Some? && (p.tcpFlags.value / 2) % 2 == 1 && (p.tcpFlags.value / 16) % 2 == 0
  }

  /** How many SYN-only packets `src` sent at `from` or later. */
  function SynsSince(ps: seq<Packet>, src: string, from: real): nat {
    if ps == [] then 0
    else
      var p := ps[|ps| - 1];
      SynsSince(ps[..|ps| - 1], src, from) + if p.srcIp == src && p.timestamp >= from && OnlySyn(p) then 1 else 0
  }

  lemma {:induction false} RecentConcat(a: seq<Event>, b: seq<Event>, from: real)
    ensures Recent(a + b, from) == Recent(a, from) + Recent(b, from)
  {
    if b == [] {
      assert a + b == a;
    } else {
      assert (a + b)[..|a + b| - 1] == a + b[..|b| - 1];
      RecentConcat(a, b[..|b| - 1], from);
    }
  }

  lemma RecentOne(e: Event, from: real)
    ensures Recent([e], from) == if e.time >= from then [e] else []
  {
    assert [e][..0] == [];
  }

  lemma HistoryStep(kind: Kind, src: string, ps: seq<Packet>, from: real)
    requires ps != []
    ensures var n := |ps| - 1;
            var added := EventsOf(kind, src, ps[n]);
            Recent(History(kind, src, ps), from)
              == Recent(History(kind, src, ps[..n]), from) + (if added != [] && ps[n].timestamp >= from then added else [])
  {
    hide SynOnly, Recent;
    var n := |ps| - 1;
    RecentConcat(History(kind, src, ps[..n]), EventsOf(kind, src, ps[n]), from);
    if EventsOf(kind, src, ps[n]) != [] {
      RecentOne(EventsOf(kind, src, ps[n])[0], from);
      assert EventsOf(kind, src, ps[n]) == [EventsOf(kind, src, ps[n])[0]];
    } else {
      NoneRecent([], from);
    }
  }

  lemma {:induction false} TimesAre(src: string, ps: seq<Packet>, from: real)
    ensures |Recent(History(Time, src, ps), from)| == PacketsSince(ps, src, from)
  {
    hide Recent, SynOnly;
    if ps == [] {
      NoneRecent([], from);
    } else {
      TimesAre(src, ps[..|ps| - 1], from);
      HistoryStep(Time, src, ps, from);
      hide History;
    }
  }

  lemma {:induction false} SynsAre(src: string, ps: seq<Packet>, from: real)
    ensures |Recent(History(Syn, src, ps), from)| == SynsSince(ps, src, from)
  {
    hide Recent;
    if ps == [] {
      NoneRecent([], from);
    } else {
      SynsAre(src, ps[..|ps| - 1], from);
      HistoryStep(Syn, src, ps, from);
      SynIs(ps[|ps| - 1]);
      hide History, SynOnly, OnlySyn;
    }
  }

  lemma SynIs(p: Packet)
    ensures SynOnly(p) <==> OnlySyn(p)
  {
  }

  lemma PortsConcat(a: seq<Event>, b: seq<Event>)
    ensures PortsOf(a + b) == PortsOf(a) + PortsOf(b)
  {
    forall port | port in PortsOf(a) + PortsOf(b) ensures port in PortsOf(a + b) {
      if i :| 0 <= i < |a| && a[i].port == port {
        assert (a + b)[i].port == port;
      }
      if i :| 0 <= i < |b| && b[i].port == port {
        assert (a + b)[|a| + i].port == port;
      }
    }
  }

  lemma PortsOfOne(e: Event)
    ensures PortsOf([e]) == {e.port} && PortsOf([]) == {}
  {
    assert [e][0].port == e.port;
  }

  lemma {:induction false} PortsAre(src: string, ps: seq<Packet>, from: real)
    ensures PortsOf(Recent(History(Port, src, ps), from)) == PortsSince(ps, src, from)
  {
    hide Recent, SynOnly, PortsOf;
    PortsOfOne(Event(0.0, 0));
    if ps == [] {
      NoneRecent([], from);
    } else {
      var n := |ps| - 1;
      PortsAre(src, ps[..n], from);
      HistoryStep(Port, src, ps, from);
      var added := EventsOf(Port, src, ps[n]);
      PortsConcat(Recent(History(Port, src, ps[..n]), from), if added != [] && ps[n].timestamp >= from then added else []);
      if added != [] {
        PortsOfOne(added[0]);
        assert added == [added[0]];
      }
      hide History;
    }
  }

  // ----- The score, rule by rule

  predicate NoPorts(p: Packet) { p.srcPort.None? && p.dstPort.None? }

  predicate SensitivePort(p: Packet) {
    p.dstPort.Some? && p.dstPort.value in {21, 22, 23, 25, 53, 80, 110, 135, 139, 143, 443, 445, 3389}
  }

  predicate Burst(ps: seq<Packet>)
    requires ps != []
  {
    var p := ps[|ps| - 1];
    PacketsSince(ps, p.srcIp, p.timestamp - 2.0) >= 40
  }

  predicate PortSweep(ps: seq<Packet>, slack: real)
    requires ps != []
  {
    var p := ps[|ps| - 1];
    |PortsSince(ps, p.srcIp, p.timestamp - 5.0 - slack)| >= 15
  }

  predicate SynSurge(ps: seq<Packet>, slack: real)
    requires ps != []
  {
    var p := ps[|ps| - 1];
    SynsSince(ps, p.srcIp, p.timestamp - 3.0 - slack) >= 20
  }

  /** The score of the last packet by the rules, the two lazy windows widened by `slack`. */
  function RuleScore(ps: seq<Packet>, slack: real): nat
    requires ps != []
  {
    var p := ps[|ps| - 1];
    (if NoPorts(p) then 2 else 0) +
    (if p.packetSize <= 0 then 3 else 0) +
    (if p.packetSize < 40 then 1 else 0) +
    (if SensitivePort(p) then 1 else 0) +
    (if Burst(ps) then 3 else 0) +
    (if PortSweep(ps, slack) then 3 else 0) +
    (if SynSurge(ps, slack) then 4 else 0)
  }

  lemma HistoryScoreIsRuleScore(ps: seq<Packet>, slack: real)
    requires ps != []
    ensures HistoryScore(ps, slack) == RuleScore(ps, slack)
  {
    hide Recent, History, PortsOf, PacketsSince, PortsSince, SynsSince;
    var p := ps[|ps| - 1];
    TimesAre(p.srcIp, ps, p.timestamp - 2.0 - 0.0);
    assert p.timestamp - 2.0 - 0.0 == p.timestamp - 2.0;
    PortsAre(p.srcIp, ps, p.timestamp - 5.0 - slack);
    SynsAre(p.srcIp, ps, p.timestamp - 3.0 - slack);
  }

  /** The detector's score of the last packet, for an ordered stream and a source never evicted: at least every
      rule that the packets in the exact windows call for, and none that the widened windows do not; and
      exactly the rules of the exact windows when the packet enters all of them. */
  lemma ScoreIsByRules(c: Config, ps: seq<Packet>, evictions: seq<set<string>>)
    requires |evictions| == |ps| > 0 && Monotone(ps) && NeverEvicted(ps[|ps| - 1].srcIp, evictions)
    ensures var p, score := ps[|ps| - 1], ScoreIn(Run(c, ps, evictions), ps[|ps| - 1]);
            && RuleScore(ps, 0.0) <= score <= RuleScore(ps, c.pruneInterval as real)
            && (p.dstPort.Some? && OnlySyn(p) ==> score == RuleScore(ps, 0.0))
  {
    hide Run, Monotone, NeverEvicted, ScoreIn, HistoryScore, RuleScore, SynOnly, OnlySyn;
    ScoreSandwich(c, ps, evictions);
    SynIs(ps[|ps| - 1]);
    HistoryScoreIsRuleScore(ps, 0.0);
    HistoryScoreIsRuleScore(ps, c.pruneInterval as real);
  }

  /** The same in every run of a stream with few enough sources. */
  lemma FewSourcesScore(c: Config, ps: seq<Packet>, evictions: seq<set<string>>)
    requires |evictions| == |ps| > 0 && Monotone(ps) && ValidRun(c, ps, evictions) && |Sources(ps)| <= c.maxTracked
    ensures var p, score := ps[|ps| - 1], ScoreIn(Run(c, ps, evictions), ps[|ps| - 1]);
            && RuleScore(ps, 0.0) <= score <= RuleScore(ps, c.pruneInterval as real)
            && (p.dstPort.Some? && OnlySyn(p) ==> score == RuleScore(ps, 0.0))
  {
    hide Run, Monotone, ScoreIn, RuleScore, OnlySyn, ValidRun, Sources;
    FewSourcesNeverEvict(c, ps, evictions);
    ScoreIsByRules(c, ps, evictions);
  }

  /** What a flood costs: twenty SYN-only packets in 3 s score at least 4, forty packets in 2 s at least 3,
      fifteen ports in 5 s at least 3; a packet without ports scores at least 2 and an empty one at least 4.
      Each of these alone makes the packet suspicious. A tiny packet or a sensitive port scores at least 1. */
  lemma FloodsAreSuspicious(c: Config, ps: seq<Packet>, evictions: seq<set<string>>)
    requires |evictions| == |ps| > 0 && Monotone(ps) && NeverEvicted(ps[|ps| - 1].srcIp, evictions)
    ensures var p, score := ps[|ps| - 1], ScoreIn(Run(c, ps, evictions), ps[|ps| - 1]);
            && (SynsSince(ps, p.srcIp, p.timestamp - 3.0) >= 20 ==> score >= 4)
            && (PacketsSince(ps, p.srcIp, p.timestamp - 2.0) >= 40 ==> score >= 3)
            && (|PortsSince(ps, p.srcIp, p.timestamp - 5.0)| >= 15 ==> score >= 3)
            && (p.srcPort.None? && p.dstPort.None? ==> score >= 2)
            && (p.packetSize <= 0 ==> score >= 4)
            && (p.packetSize < 40 || SensitivePort(p) ==> score >= 1)
  {
    hide Run, Monotone, NeverEvicted, ScoreIn, PacketsSince, PortsSince, SynsSince, OnlySyn;
    ScoreIsByRules(c, ps, evictions);
    var p := ps[|ps| - 1];
    assert p.timestamp - 3.0 - 0.0 == p.timestamp - 3.0 && p.timestamp - 5.0 - 0.0 == p.timestamp - 5.0;
  }

  predicate SomeRule(ps: seq<Packet>, slack: real)
    requires ps != []
  {
    var p := ps[|ps| - 1];
    NoPorts(p) || p.packetSize < 40 || SensitivePort(p) || Burst(ps) || PortSweep(ps, slack) || SynSurge(ps, slack)
  }

  /** A packet scores 0 only if no rule applies to the exact windows, and if none applies to the widened ones. */
  lemma CleanIff(c: Config, ps: seq<Packet>, evictions: seq<set<string>>)
    requires |evictions| == |ps| > 0 && Monotone(ps) && NeverEvicted(ps[|ps| - 1].srcIp, evictions)
    ensures var p, score := ps[|ps| - 1], ScoreIn(Run(c, ps, evictions), ps[|ps| - 1]);
            && (score == 0 ==> !SomeRule(ps, 0.0))
            && (!SomeRule(ps, c.pruneInterval as real) ==> score == 0)
            && (p.dstPort.Some? && OnlySyn(p) ==> (score == 0 <==> !SomeRule(ps, 0.0)))
  {
    hide Run, Monotone, NeverEvicted, ScoreIn, OnlySyn, Burst, PortSweep, SynSurge, SensitivePort, NoPorts;
    ScoreIsByRules(c, ps, evictions);
  }

  // ----- A flood, packet by packet

  /** The `n`-th of a series of SYN-only packets to port 8080, a tenth of a second apart. */
  function SynAt(n: nat): Packet {
    Packet("10.0.0.5", "10.0.0.9", 6, Some(40000), Some(8080), n as real * 0.1, 60, None, None, None, Some(2))
  }

  function SynFlood(n: nat): seq<Packet> {
    seq(n, i requires 0 <= i < n => SynAt(i))
  }

  lemma {:induction false} FloodCounts(n: nat, from: real)
    requires from <= 0.0
    ensures SynsSince(SynFlood(n), "10.0.0.5", from) == n && PacketsSince(SynFlood(n), "10.0.0.5", from) == n
    ensures PortsSince(SynFlood(n), "10.0.0.5", from) <= {8080}
  {
    if n > 0 {
      assert SynFlood(n)[..n - 1] == SynFlood(n - 1);
      FloodCounts(n - 1, from);
    }
  }

  /** The nineteenth packet of the flood scores 0, the twentieth exactly 4. */
  lemma TwentiethSyn()
    ensures RuleScore(SynFlood(19), 0.0) == 0 && RuleScore(SynFlood(20), 0.0) == 4
  {
    hide SynsSince, PacketsSince, PortsSince;
    forall n | n == 19 || n == 20 ensures RuleScore(SynFlood(n), 0.0) == if n == 20 then 4 else 0 {
      var p := SynFlood(n)[n - 1];
      assert p == SynAt(n - 1);
      FloodCounts(n, p.timestamp - 2.0);
      FloodCounts(n, p.timestamp - 3.0 - 0.0);
      FloodCounts(n, p.timestamp - 5.0 - 0.0);
      FewPorts(PortsSince(SynFlood(n), "10.0.0.5", p.timestamp - 5.0 - 0.0));
    }
  }

  lemma FewPorts(ports: set<int>)
    requires ports <= {8080}
    ensures |ports| < 15
  {
    assert {8080} == ports + ({8080} - ports);
  }
}
