/** Main results about the detector's windows, over every run. */
module WindowGuarantees {
  import opened Options
  import opened Packets
  import opened Lists
  import opened SlidingWindows

  // ----- Which sources are tracked

  /** Every tracked source has a time deque and a last-seen time. */
  ghost predicate Consistent(st: Tracker) {
    && st.lastSeen.Keys == st.times.Keys
    && st.ports.Keys <= st.times.Keys
    && st.syns.Keys <= st.times.Keys
  }

  lemma StepConsistent(c: Config, st: Tracker, p: Packet, victims: set<string>)
    requires Consistent(st)
    ensures Consistent(Step(c, st, p, victims))
  {
    hide DropOlder;
  }

  lemma {:induction false} RunConsistent(c: Config, ps: seq<Packet>, evictions: seq<set<string>>)
    requires |evictions| == |ps|
    ensures Consistent(Run(c, ps, evictions))
  {
    if ps != [] {
      hide Step, Consistent;
      RunConsistent(c, ps[..|ps| - 1], evictions[..|ps| - 1]);
      StepConsistent(c, Run(c, ps[..|ps| - 1], evictions[..|ps| - 1]), ps[|ps| - 1], evictions[|ps| - 1]);
    } else {
      assert Consistent(NOTHING_TRACKED);
    }
  }

  lemma {:induction false} DropOlderIs(events: seq<Event>, cutoff: real)
    ensures var r := DropOlder(events, cutoff);
            && |r| <= |events| && r == events[|events| - |r|..]
            && (forall i :: 0 <= i < |events| - |r| ==> events[i].time < cutoff)
            && (r != [] ==> r[0].time >= cutoff)
  {
    if events != [] && events[0].time < cutoff {
      DropOlderIs(events[1..], cutoff);
    }
  }

  datatype Kind = Time | Port | Syn

  function Window(kind: Kind): real {
    match kind
    case Time => BURST_WINDOW
    case Port => PORT_WINDOW
    case Syn => SYN_WINDOW
  }

  function DequesOf(kind: Kind, st: Tracker): Deques {
    match kind
    case Time => st.times
    case Port => st.ports
    case Syn => st.syns
  }

  /** Some window of `src` holds an event that is inside it at `now`. */
  ghost predicate HasRecentEvent(st: Tracker, src: string, now: real) {
    exists kind :: var d := Get(DequesOf(kind, st), src); d != [] && d[0].time >= now - Window(kind)
  }

  lemma FirstIsRecent(deques: Deques, src: string, cutoff: real)
    ensures var d := Get(TrimAll(deques, cutoff), src); d != [] ==> d[0].time >= cutoff
  {
    if src in deques {
      DropOlderIs(deques[src], cutoff);
    }
  }

  lemma CollectedAreRecent(st: Tracker, now: real, src: string)
    requires src in Tracked(Collect(st, now))
    ensures HasRecentEvent(Collect(st, now), src, now)
  {
    FirstIsRecent(st.times, src, now - BURST_WINDOW);
    FirstIsRecent(st.ports, src, now - PORT_WINDOW);
    FirstIsRecent(st.syns, src, now - SYN_WINDOW);
    hide DropOlder, TrimAll;
    var collected := Collect(st, now);
    assert forall kind :: Get(DequesOf(kind, collected), src) == Get(DequesOf(kind, Trim(st, now)), src);
    if Get(collected.times, src) != [] {
      assert Get(DequesOf(Time, collected), src)[0].time >= now - Window(Time);
    } else if Get(collected.ports, src) != [] {
      assert Get(DequesOf(Port, collected), src)[0].time >= now - Window(Port);
    } else {
      assert Get(DequesOf(Syn, collected), src)[0].time >= now - Window(Syn);
    }
  }

  lemma ForgetKeeps(st: Tracker, gone: set<string>, src: string)
    requires src !in gone
    ensures forall kind :: Get(DequesOf(kind, Forget(st, gone)), src) == Get(DequesOf(kind, st), src)
  {
  }

  lemma SweepTracks(st: Tracker, now: real, victims: set<string>)
    ensures Tracked(Sweep(st, now, victims)) == Tracked(Collect(st, now)) - victims
  {
    hide Collect;
  }

  /** After a sweep at most `maxTracked` sources remain, and no more were evicted than that takes. */
  lemma SweepCountsSources(c: Config, st: Tracker, now: real, victims: set<string>)
    requires MayEvict(c, Collect(st, now), victims)
    ensures var active, left := |Tracked(Collect(st, now))|, |Tracked(Sweep(st, now, victims))|;
            left == if active > c.maxTracked then c.maxTracked else active
  {
    SweepTracks(st, now, victims);
    hide Collect, Sweep, Tracked;
    var before := Tracked(Collect(st, now));
    assert before == (before - victims) + victims;
    assert |before| == |before - victims| + |victims|;
  }

  /** Whoever survives a sweep has an event inside one of its windows. */
  lemma SurvivorsAreActive(st: Tracker, now: real, victims: set<string>, src: string)
    requires src in Tracked(Sweep(st, now, victims))
    ensures HasRecentEvent(Sweep(st, now, victims), src, now)
  {
    SweepTracks(st, now, victims);
    hide Collect, Tracked, HasRecentEvent;
    CollectedAreRecent(st, now, src);
    RecentAfterForget(Collect(st, now), victims, src, now, Sweep(st, now, victims));
  }

  lemma RecentAfterForget(st: Tracker, gone: set<string>, src: string, now: real, after: Tracker)
    requires src !in gone && HasRecentEvent(st, src, now)
    requires after == Forget(st, gone).(lastPruned := after.lastPruned)
    ensures HasRecentEvent(after, src, now)
  {
    ForgetKeeps(st, gone, src);
    var kind :| var d := Get(DequesOf(kind, st), src); d != [] && d[0].time >= now - Window(kind);
    assert Get(DequesOf(kind, after), src) == Get(DequesOf(kind, st), src);
  }

  // ----- Who is evicted

  /** The time of the last packet of `src`, if it sent any. */
  function LastTime(src: string, ps: seq<Packet>): Option<real> {
    if ps == [] then None
    else if ps[|ps| - 1].srcIp == src then Some(ps[|ps| - 1].timestamp)
    else LastTime(src, ps[..|ps| - 1])
  }

  /** Every tracked source is remembered with the time of its last packet. */
  ghost predicate RemembersLast(st: Tracker, ps: seq<Packet>) {
    forall src :: src in Tracked(st) ==> src in st.lastSeen && LastTime(src, ps) == Some(st.lastSeen[src])
  }

  lemma ObserveRemembers(st: Tracker, ps: seq<Packet>, p: Packet)
    requires RemembersLast(st, ps)
    ensures RemembersLast(Observe(st, p), ps + [p])
  {
    hide DropOlder, SynOnly;
    assert (ps + [p])[..|ps|] == ps;
  }

  lemma CollectRemembers(st: Tracker, now: real, ps: seq<Packet>)
    requires RemembersLast(st, ps)
    ensures RemembersLast(Collect(st, now), ps)
  {
    hide TrimAll, DropOlder, LastTime;
    forall src | src in Tracked(Collect(st, now))
      ensures src in Collect(st, now).lastSeen && LastTime(src, ps) == Some(Collect(st, now).lastSeen[src])
    {
      CollectTracks(st, now, src);
    }
  }

  lemma CollectTracks(st: Tracker, now: real, src: string)
    requires src in Tracked(Collect(st, now))
    ensures src in Tracked(st) && src !in IdleSources(Trim(st, now))
  {
    hide DropOlder;
  }

  lemma ForgetRemembers(st: Tracker, gone: set<string>, now: real, ps: seq<Packet>)
    requires RemembersLast(st, ps)
    ensures RemembersLast(Forget(st, gone).(lastPruned := Some(now)), ps)
  {
    hide LastTime;
  }

  lemma StepRemembers(c: Config, st: Tracker, p: Packet, victims: set<string>, ps: seq<Packet>)
    requires RemembersLast(st, ps)
    ensures RemembersLast(Step(c, st, p, victims), ps + [p])
    ensures RemembersLast(Collect(Observe(st, p), p.timestamp), ps + [p])
  {
    hide RemembersLast, Observe, Collect, Forget;
    ObserveRemembers(st, ps, p);
    CollectRemembers(Observe(st, p), p.timestamp, ps + [p]);
    ForgetRemembers(Collect(Observe(st, p), p.timestamp), victims, p.timestamp, ps + [p]);
  }

  lemma NothingRemembered()
    ensures RemembersLast(NOTHING_TRACKED, [])
  {
  }

  /** In every run a tracked source's last-seen time is the time of its last packet. */
  lemma {:induction false} LastSeenIsLastPacket(c: Config, ps: seq<Packet>, evictions: seq<set<string>>)
    requires |evictions| == |ps|
    ensures RemembersLast(Run(c, ps, evictions), ps)
  {
    hide RemembersLast, Step, NOTHING_TRACKED;
    if ps != [] {
      var n := |ps| - 1;
      LastSeenIsLastPacket(c, ps[..n], evictions[..n]);
      StepRemembers(c, Run(c, ps[..n], evictions[..n]), ps[n], evictions[n], ps[..n]);
      assert ps == ps[..n] + [ps[n]];
    } else {
      NothingRemembered();
    }
  }

  lemma VictimIsOlder(c: Config, collected: Tracker, victims: set<string>, ps: seq<Packet>, survivor: string, victim: string)
    requires MayEvict(c, collected, victims) && RemembersLast(collected, ps)
    requires victim in victims && survivor in Tracked(collected) - victims
    ensures LastTime(victim, ps).Some? && LastTime(survivor, ps).Some?
    ensures LastTime(victim, ps).value <= LastTime(survivor, ps).value
  {
    hide Tracked, LastTime;
    assert victim in Tracked(collected);
    assert Seen(collected, victim) <= Seen(collected, survivor);
  }

  /** In every run, the last packet of a source evicted for overflow is no later than that of any source
      still tracked. */
  lemma EvictsLeastRecentlySeen(c: Config, ps: seq<Packet>, evictions: seq<set<string>>, survivor: string, victim: string)
    requires |evictions| == |ps| > 0 && ValidRun(c, ps, evictions)
    requires victim in evictions[|ps| - 1] && survivor in Tracked(Run(c, ps, evictions))
    ensures LastTime(victim, ps).Some? && LastTime(survivor, ps).Some?
    ensures LastTime(victim, ps).value <= LastTime(survivor, ps).value
  {
    hide Observe, MayEvict, Tracked, Sweep, Collect, LastTime, RemembersLast, SweepDue;
    var n := |ps| - 1;
    var before, p, victims := Run(c, ps[..n], evictions[..n]), ps[n], evictions[n];
    LastSeenIsLastPacket(c, ps[..n], evictions[..n]);
    StepRemembers(c, before, p, victims, ps[..n]);
    assert ps == ps[..n] + [p];
    SweepTracks(Observe(before, p), p.timestamp, victims);
    VictimIsOlder(c, Collect(Observe(before, p), p.timestamp), victims, ps, survivor, victim);
  }

  /** The time of the last sweep: the first packet sweeps, and then each packet at least `interval` later. */
  function LastSweep(ps: seq<Packet>, interval: real): Option<real> {
    if ps == [] then None
    else
      var last, now := LastSweep(ps[..|ps| - 1], interval), ps[|ps| - 1].timestamp;
      if last.None? || now - last.value >= interval then Some(now) else last
  }

  /** The last packet of `ps` makes a sweep due. */
  predicate Sweeps(c: Config, ps: seq<Packet>)
    requires ps != []
  {
    var last := LastSweep(ps[..|ps| - 1], c.pruneInterval as real);
    last.None? || ps[|ps| - 1].timestamp - last.value >= c.pruneInterval as real
  }

  /** In every run the sweeps come at these times, and nobody is evicted at any other. */
  lemma {:induction false} SweepClock(c: Config, ps: seq<Packet>, evictions: seq<set<string>>)
    requires |evictions| == |ps|
    ensures Run(c, ps, evictions).lastPruned == LastSweep(ps, c.pruneInterval as real)
    ensures ps != [] ==>
              (SweepDue(c, Run(c, ps[..|ps| - 1], evictions[..|ps| - 1]), ps[|ps| - 1].timestamp) <==> Sweeps(c, ps))
    ensures ps != [] && ValidRun(c, ps, evictions) && !Sweeps(c, ps) ==> evictions[|ps| - 1] == {}
  {
    hide Observe, MayEvict, Collect;
    if ps != [] {
      var n := |ps| - 1;
      SweepClock(c, ps[..n], evictions[..n]);
      StepPrunes(c, Run(c, ps[..n], evictions[..n]), ps[n], evictions[n]);
      hide Step;
    }
  }

  /** In every run, whenever the last packet made a sweep due, at most `maxTracked` sources are tracked, each
      of them has an event inside one of its windows, and no evicted source sent a packet after the last one
      of any of them. */
  lemma SweptRunIsBounded(c: Config, ps: seq<Packet>, evictions: seq<set<string>>)
    requires |evictions| == |ps| > 0 && ValidRun(c, ps, evictions) && Sweeps(c, ps)
    ensures var st := Run(c, ps, evictions);
            && |Tracked(st)| <= c.maxTracked
            && (forall src :: src in Tracked(st) ==> HasRecentEvent(st, src, ps[|ps| - 1].timestamp))
            && (forall u, v :: u in Tracked(st) && v in evictions[|ps| - 1] ==>
                  LastTime(v, ps).Some? && LastTime(u, ps).Some? && LastTime(v, ps).value <= LastTime(u, ps).value)
  {
    hide Observe, MayEvict, Tracked, HasRecentEvent, Sweep, Collect, LastTime, ValidRun, Sweeps, SweepDue;
    SweepClock(c, ps, evictions);
    var p, victims, st := ps[|ps| - 1], evictions[|ps| - 1], Run(c, ps, evictions);
    var seen := Observe(Run(c, ps[..|ps| - 1], evictions[..|ps| - 1]), p);
    assert st == Sweep(seen, p.timestamp, victims);
    LastChoiceMay(c, ps, evictions);
    SweepCountsSources(c, seen, p.timestamp, victims);
    forall src | src in Tracked(st) ensures HasRecentEvent(st, src, p.timestamp) {
      SurvivorsAreActive(seen, p.timestamp, victims, src);
    }
    forall u, v | u in Tracked(st) && v in victims
      ensures LastTime(v, ps).Some? && LastTime(u, ps).Some? && LastTime(v, ps).value <= LastTime(u, ps).value
    {
      EvictsLeastRecentlySeen(c, ps, evictions, u, v);
    }
  }

  lemma LastChoiceMay(c: Config, ps: seq<Packet>, evictions: seq<set<string>>)
    requires |evictions| == |ps| > 0 && ValidRun(c, ps, evictions)
    requires SweepDue(c, Run(c, ps[..|ps| - 1], evictions[..|ps| - 1]), ps[|ps| - 1].timestamp)
    ensures var p := ps[|ps| - 1];
            MayEvict(c, Collect(Observe(Run(c, ps[..|ps| - 1], evictions[..|ps| - 1]), p), p.timestamp), evictions[|ps| - 1])
  {
    hide Observe, MayEvict, Collect;
  }

  // ----- Runs

  /** The distinct sources of a stream. */
  function Sources(ps: seq<Packet>): set<string> {
    set i | 0 <= i < |ps| :: ps[i].srcIp
  }

  lemma {:induction false} LastTimeOfSource(src: string, ps: seq<Packet>)
    ensures LastTime(src, ps).Some? ==> src in Sources(ps)
  {
    if ps != [] {
      var n := |ps| - 1;
      LastTimeOfSource(src, ps[..n]);
      assert forall i :: 0 <= i < n ==> ps[..n][i] == ps[i];
    }
  }

  lemma TrackedAreSources(st: Tracker, ps: seq<Packet>)
    requires RemembersLast(st, ps)
    ensures |Tracked(st)| <= |Sources(ps)|
  {
    hide Tracked, Sources, LastTime;
    forall src | src in Tracked(st) ensures src in Sources(ps) {
      LastTimeOfSource(src, ps);
    }
    SubsetCount(Tracked(st), Sources(ps));
  }

  lemma MoreSources(ps: seq<Packet>)
    requires ps != []
    ensures |Sources(ps[..|ps| - 1])| <= |Sources(ps)|
  {
    var init := ps[..|ps| - 1];
    assert forall i :: 0 <= i < |init| ==> init[i] == ps[i];
    SubsetCount(Sources(init), Sources(ps));
  }

  lemma FewTrackedNoVictims(c: Config, collected: Tracker, victims: set<string>)
    requires MayEvict(c, collected, victims) && |Tracked(collected)| <= c.maxTracked
    ensures victims == {}
  {
  }

  lemma VictimsMay(c: Config, st: Tracker, p: Packet, victims: set<string>)
    requires Allowed(c, st, p, victims)
    ensures victims == {} || MayEvict(c, Collect(Observe(st, p), p.timestamp), victims)
  {
    hide Observe, Collect, MayEvict;
  }

  /** A stream of at most `maxTracked` sources evicts nobody, in any run. */
  lemma {:induction false} FewSourcesNeverEvict(c: Config, ps: seq<Packet>, evictions: seq<set<string>>)
    requires |evictions| == |ps| && ValidRun(c, ps, evictions) && |Sources(ps)| <= c.maxTracked
    ensures forall i :: 0 <= i < |evictions| ==> evictions[i] == {}
  {
    hide Observe, Collect, MayEvict, Tracked, RemembersLast, Sources, Step, Allowed;
    if ps != [] {
      var n := |ps| - 1;
      var before, p, victims := Run(c, ps[..n], evictions[..n]), ps[n], evictions[n];
      MoreSources(ps);
      FewSourcesNeverEvict(c, ps[..n], evictions[..n]);
      assert forall i :: 0 <= i < n ==> evictions[i] == evictions[..n][i];
      LastSeenIsLastPacket(c, ps[..n], evictions[..n]);
      StepRemembers(c, before, p, victims, ps[..n]);
      assert ps == ps[..n] + [p];
      TrackedAreSources(Collect(Observe(before, p), p.timestamp), ps);
      VictimsMay(c, before, p, victims);
      if victims != {} {
        FewTrackedNoVictims(c, Collect(Observe(before, p), p.timestamp), victims);
      }
    }
  }

  lemma LeastRecentlySeen(st: Tracker, sources: set<string>) returns (least: string)
    requires sources != {}
    ensures least in sources && forall src :: src in sources ==> Seen(st, least) <= Seen(st, src)
  {
    hide Seen;
    var first :| first in sources;
    var rest := sources - {first};
    least := first;
    if rest != {} {
      var other := LeastRecentlySeen(st, rest);
      least := if Seen(st, other) < Seen(st, first) then other else first;
    }
    forall src | src in sources ensures Seen(st, least) <= Seen(st, src) {
      assert src == first || src in rest;
    }
  }

  lemma {:induction false} VictimsExist(st: Tracker, sources: set<string>, n: nat) returns (victims: set<string>)
    requires n <= |sources|
    ensures victims <= sources && |victims| == n
    ensures forall v, u :: v in victims && u in sources - victims ==> Seen(st, v) <= Seen(st, u)
  {
    hide Seen;
    victims := {};
    if n > 0 {
      var least := LeastRecentlySeen(st, sources);
      var others := VictimsExist(st, sources - {least}, n - 1);
      victims := others + {least};
    }
  }

  /** Every stream has a run: a sweep always finds the victims it needs. */
  lemma {:induction false} ValidRunExists(c: Config, ps: seq<Packet>) returns (evictions: seq<set<string>>)
    ensures |evictions| == |ps| && ValidRun(c, ps, evictions)
  {
    hide Observe, Collect, Tracked, Step, SweepDue, Seen;
    evictions := [];
    if ps != [] {
      var n := |ps| - 1;
      var before := ValidRunExists(c, ps[..n]);
      var st := Run(c, ps[..n], before);
      var victims := {};
      if SweepDue(c, st, ps[n].timestamp) {
        var collected := Collect(Observe(st, ps[n]), ps[n].timestamp);
        victims := VictimsExist(collected, Tracked(collected),
          if |Tracked(collected)| > c.maxTracked then |Tracked(collected)| - c.maxTracked else 0);
      }
      evictions := before + [victims];
      assert evictions[..n] == before;
    }
  }

  // ----- Histories

  /** The event of kind `kind` that packet `p` adds to the windows of `src`, if any. */
  function EventsOf(kind: Kind, src: string, p: Packet): seq<Event> {
    if p.srcIp != src then []
    else match kind
      case Time => [Event(p.timestamp, 0)]
      case Port => if p.dstPort.Some? then [Event(p.timestamp, p.dstPort.value)] else []
      case Syn => if SynOnly(p) then [Event(p.timestamp, 0)] else []
  }

  /** All events of a source, in arrival order. */
  function History(kind: Kind, src: string, ps: seq<Packet>): seq<Event> {
    if ps == [] then []
    else History(kind, src, ps[..|ps| - 1]) + EventsOf(kind, src, ps[|ps| - 1])
  }

  /** The events of the full history inside a window that starts at `cutoff`. */
  function Recent(events: seq<Event>, cutoff: real): seq<Event> {
    if events == [] then []
    else
      Recent(events[..|events| - 1], cutoff) +
      if events[|events| - 1].time >= cutoff then [events[|events| - 1]] else []
  }

  ghost predicate NeverEvicted(src: string, evictions: seq<set<string>>) {
    forall i :: 0 <= i < |evictions| ==> src !in evictions[i]
  }

  /** The lazily trimmed deque: an end piece of the history that lacks only events older than the window,
      and holds nothing older than `floor`. */
  ghost predicate Lazy(deque: seq<Event>, history: seq<Event>, cutoff: real, floor: real) {
    && |deque| <= |history|
    && deque == history[|history| - |deque|..]
    && (forall i :: 0 <= i < |history| - |deque| ==> history[i].time < cutoff)
    && (forall i :: 0 <= i < |deque| ==> deque[i].time >= floor)
  }

  ghost predicate Ordered(events: seq<Event>) {
    forall i, j :: 0 <= i < j < |events| ==> events[i].time <= events[j].time
  }

  lemma {:induction false} HistoryOrdered(kind: Kind, src: string, ps: seq<Packet>, latest: real)
    requires Monotone(ps)
    requires forall i :: 0 <= i < |ps| ==> ps[i].timestamp <= latest
    ensures Ordered(History(kind, src, ps))
    ensures forall i :: 0 <= i < |History(kind, src, ps)| ==> History(kind, src, ps)[i].time <= latest
  {
    if ps != [] {
      hide SynOnly;
      HistoryOrdered(kind, src, ps[..|ps| - 1], ps[|ps| - 1].timestamp);
    }
  }

  lemma LazyTrim(deque: seq<Event>, history: seq<Event>, cutoff: real, floor: real, to: real)
    requires Lazy(deque, history, cutoff, floor) && cutoff <= to && Ordered(history)
    ensures Lazy(DropOlder(deque, to), history, to, to)
  {
    var d, n := DropOlder(deque, to), |history|;
    DropOlderIs(deque, to);
    hide DropOlder;
    assert d == history[n - |d|..];
    forall i | 0 <= i < n - |d| ensures history[i].time < to {
      if i >= n - |deque| {
        assert history[i] == deque[i - (n - |deque|)];
      }
    }
    forall i | 0 <= i < |d| ensures d[i].time >= to {
      assert d[i] == history[n - |d| + i] && d[0] == history[n - |d|];
    }
  }

  lemma LazyAppend(deque: seq<Event>, history: seq<Event>, cutoff: real, floor: real, e: Event)
    requires Lazy(deque, history, cutoff, floor) && e.time >= floor
    ensures Lazy(deque + [e], history + [e], cutoff, floor)
  {
  }

  lemma LazyLater(deque: seq<Event>, history: seq<Event>, cutoff: real, floor: real, later: real, lower: real)
    requires Lazy(deque, history, cutoff, floor) && cutoff <= later && lower <= floor
    ensures Lazy(deque, history, later, lower)
  {
  }

  // ----- Every run

  /** What one packet does to one deque of one source. */
  lemma StepDeque(c: Config, st: Tracker, p: Packet, victims: set<string>, kind: Kind, src: string)
    requires src !in victims
    ensures var t, d := p.timestamp, Get(DequesOf(kind, st), src);
            var added := EventsOf(kind, src, p);
            var observed := if added == [] then d else DropOlder(d + added, t - Window(kind));
            Get(DequesOf(kind, Step(c, st, p, victims)), src)
              == (if SweepDue(c, st, t) then DropOlder(observed, t - Window(kind)) else observed)
  {
    ObserveDeque(st, p, kind, src);
    hide Observe, EventsOf, SynOnly;
    if SweepDue(c, st, p.timestamp) {
      var seen := Observe(st, p);
      SweepDeque(seen, p.timestamp, victims, kind, src);
    }
  }

  lemma ObserveDeque(st: Tracker, p: Packet, kind: Kind, src: string)
    ensures var d, added := Get(DequesOf(kind, st), src), EventsOf(kind, src, p);
            Get(DequesOf(kind, Observe(st, p)), src)
              == if added == [] then d else DropOlder(d + added, p.timestamp - Window(kind))
  {
    hide DropOlder, SynOnly;
  }

  lemma SweepDeque(st: Tracker, now: real, victims: set<string>, kind: Kind, src: string)
    requires src !in victims
    ensures Get(DequesOf(kind, Sweep(st, now, victims)), src) == DropOlder(Get(DequesOf(kind, st), src), now - Window(kind))
  {
    var trimmed := Trim(st, now);
    assert DropOlder([], now - Window(kind)) == [];
    hide DropOlder;
    assert Get(DequesOf(kind, trimmed), src) == DropOlder(Get(DequesOf(kind, st), src), now - Window(kind));
    hide Trim;
    assert Get(DequesOf(kind, Collect(st, now)), src) == Get(DequesOf(kind, trimmed), src);
    hide Collect;
  }

  /** Between packets: the last sweep is less than one interval old, and each deque is lazy since then. */
  ghost predicate LazySince(c: Config, st: Tracker, ps: seq<Packet>, kind: Kind, src: string, now: real) {
    && st.lastPruned.Some?
    && st.lastPruned.value <= now < st.lastPruned.value + c.pruneInterval as real
    && Lazy(Get(DequesOf(kind, st), src), History(kind, src, ps), now - Window(kind), st.lastPruned.value - Window(kind))
  }

  /** One deque through one packet: `added` is what the packet appends, `due` says whether a sweep follows. */
  lemma LazyPacket(d: seq<Event>, h: seq<Event>, before: real, floor: real, added: seq<Event>, cutoff: real, due: bool)
    requires Lazy(d, h, before, floor) && before <= cutoff && floor <= cutoff
    requires |added| <= 1 && (added != [] ==> added[0].time >= cutoff)
    requires Ordered(h + added)
    ensures var observed := if added == [] then d else DropOlder(d + added, cutoff);
            var after := if due then DropOlder(observed, cutoff) else observed;
            && Lazy(after, h + added, cutoff, if due then cutoff else floor)
            && (added != [] ==> Lazy(after, h + added, cutoff, cutoff))
  {
    hide Ordered, DropOlder;
    LazyLater(d, h, before, floor, cutoff, floor);
    if added == [] {
      assert h + added == h;
      if due { LazyTrim(d, h, cutoff, floor, cutoff); }
    } else {
      assert added == [added[0]];
      LazyAppend(d, h, cutoff, floor, added[0]);
      LazyTrimTwice(d + added, h + added, cutoff, floor, due);
    }
  }

  lemma LazyTrimTwice(deque: seq<Event>, history: seq<Event>, cutoff: real, floor: real, due: bool)
    requires Lazy(deque, history, cutoff, floor) && Ordered(history) && floor <= cutoff
    ensures var once := DropOlder(deque, cutoff);
            var after := if due then DropOlder(once, cutoff) else once;
            Lazy(after, history, cutoff, cutoff) && Lazy(after, history, cutoff, floor)
  {
    hide Ordered, DropOlder, Lazy;
    var once := DropOlder(deque, cutoff);
    LazyTrim(deque, history, cutoff, floor, cutoff);
    LazyTrim(once, history, cutoff, cutoff, cutoff);
    LazyLater(once, history, cutoff, cutoff, cutoff, floor);
    LazyLater(DropOlder(once, cutoff), history, cutoff, cutoff, cutoff, floor);
  }

  lemma NothingIsLazy(kind: Kind, src: string, cutoff: real)
    ensures Lazy(Get(DequesOf(kind, NOTHING_TRACKED), src), History(kind, src, []), cutoff, cutoff)
  {
  }

  lemma HistoryExtends(kind: Kind, src: string, ps: seq<Packet>, p: Packet)
    ensures History(kind, src, ps + [p]) == History(kind, src, ps) + EventsOf(kind, src, p)
    ensures |EventsOf(kind, src, p)| <= 1
    ensures EventsOf(kind, src, p) != [] ==> EventsOf(kind, src, p)[0].time == p.timestamp
  {
    hide SynOnly;
    assert (ps + [p])[..|ps|] == ps;
  }

  lemma LatestIsLast(ps: seq<Packet>, p: Packet)
    requires Monotone(ps + [p])
    ensures forall i :: 0 <= i <= |ps| ==> (ps + [p])[i].timestamp <= p.timestamp
    ensures ps != [] ==> ps[|ps| - 1].timestamp <= p.timestamp
  {
    assert (ps + [p])[|ps|] == p;
    assert ps != [] ==> (ps + [p])[|ps| - 1] == ps[|ps| - 1];
  }

  lemma HistoryGrows(kind: Kind, src: string, ps: seq<Packet>, p: Packet)
    requires Monotone(ps + [p])
    ensures History(kind, src, ps + [p]) == History(kind, src, ps) + EventsOf(kind, src, p)
    ensures Ordered(History(kind, src, ps + [p]))
    ensures |EventsOf(kind, src, p)| <= 1
    ensures EventsOf(kind, src, p) != [] ==> EventsOf(kind, src, p)[0].time == p.timestamp
    ensures ps != [] ==> ps[|ps| - 1].timestamp <= p.timestamp
  {
    hide Ordered, Monotone, History, EventsOf;
    HistoryExtends(kind, src, ps, p);
    LatestIsLast(ps, p);
    HistoryOrdered(kind, src, ps + [p], p.timestamp);
  }

  lemma LazySinceStep(c: Config, st: Tracker, ps: seq<Packet>, p: Packet, victims: set<string>, kind: Kind, src: string)
    requires Monotone(ps + [p]) && src !in victims
    requires if ps == [] then st == NOTHING_TRACKED else LazySince(c, st, ps, kind, src, ps[|ps| - 1].timestamp)
    ensures LazySince(c, Step(c, st, p, victims), ps + [p], kind, src, p.timestamp)
    ensures EventsOf(kind, src, p) != [] ==>
              Lazy(Get(DequesOf(kind, Step(c, st, p, victims)), src), History(kind, src, ps + [p]),
                   p.timestamp - Window(kind), p.timestamp - Window(kind))
  {
    hide Step, EventsOf, DropOlder, History, SynOnly, DequesOf, Monotone, Ordered, Lazy, Get;
    var t, d, h := p.timestamp, Get(DequesOf(kind, st), src), History(kind, src, ps);
    var cutoff, added := t - Window(kind), EventsOf(kind, src, p);
    var before := if ps == [] then cutoff else ps[|ps| - 1].timestamp - Window(kind);
    var floor := if ps == [] then cutoff else st.lastPruned.value - Window(kind);
    HistoryGrows(kind, src, ps, p);
    StepDeque(c, st, p, victims, kind, src);
    StepPrunes(c, st, p, victims);
    if ps == [] { NothingIsLazy(kind, src, cutoff); }
    LazyPacket(d, h, before, floor, added, cutoff, SweepDue(c, st, t));
  }

  lemma StepPrunes(c: Config, st: Tracker, p: Packet, victims: set<string>)
    ensures Step(c, st, p, victims).lastPruned
         == if SweepDue(c, st, p.timestamp) then Some(p.timestamp) else st.lastPruned
  {
    hide Collect, Append, SynOnly;
  }

  lemma FirstPackets(ps: seq<Packet>, src: string, evictions: seq<set<string>>)
    requires |evictions| == |ps| > 0 && Monotone(ps) && NeverEvicted(src, evictions)
    ensures Monotone(ps[..|ps| - 1]) && NeverEvicted(src, evictions[..|ps| - 1]) && src !in evictions[|ps| - 1]
  {
  }

  lemma {:induction false} RunIsLazy(c: Config, ps: seq<Packet>, evictions: seq<set<string>>, kind: Kind, src: string)
    requires |evictions| == |ps| > 0 && Monotone(ps) && NeverEvicted(src, evictions)
    ensures var st, now := Run(c, ps, evictions), ps[|ps| - 1].timestamp;
            && LazySince(c, st, ps, kind, src, now)
            && (EventsOf(kind, src, ps[|ps| - 1]) != [] ==>
                  Lazy(Get(DequesOf(kind, st), src), History(kind, src, ps), now - Window(kind), now - Window(kind)))
  {
    hide Step, LazySince, EventsOf, Lazy, History, Get, DequesOf, Window, Monotone, NeverEvicted;
    var rest, p, choices := ps[..|ps| - 1], ps[|ps| - 1], evictions[..|ps| - 1];
    assert ps == rest + [p];
    FirstPackets(ps, src, evictions);
    if rest != [] {
      RunIsLazy(c, rest, choices, kind, src);
    }
    LazySinceStep(c, Run(c, rest, choices), rest, p, evictions[|ps| - 1], kind, src);
  }

  lemma {:induction false} RecentIsSuffix(events: seq<Event>, cutoff: real)
    requires Ordered(events)
    ensures var r := Recent(events, cutoff);
            && |r| <= |events| && r == events[|events| - |r|..]
            && (forall i :: 0 <= i < |events| - |r| ==> events[i].time < cutoff)
            && (forall i :: |events| - |r| <= i < |events| ==> events[i].time >= cutoff)
  {
    hide Recent, Ordered;
    if events != [] {
      var n := |events| - 1;
      OrderedEnd(events);
      if events[n].time < cutoff {
        NoneRecent(events, cutoff);
      } else {
        RecentIsSuffix(events[..n], cutoff);
        RecentSnoc(events, cutoff);
        assert events == events[..n] + [events[n]];
      }
    } else {
      NoneRecent(events, cutoff);
    }
  }

  lemma OrderedEnd(events: seq<Event>)
    requires Ordered(events) && events != []
    ensures Ordered(events[..|events| - 1])
    ensures forall i :: 0 <= i < |events| ==> events[i].time <= events[|events| - 1].time
  {
  }

  lemma RecentSnoc(events: seq<Event>, cutoff: real)
    requires events != [] && events[|events| - 1].time >= cutoff
    ensures Recent(events, cutoff) == Recent(events[..|events| - 1], cutoff) + [events[|events| - 1]]
  {
  }

  lemma {:induction false} NoneRecent(events: seq<Event>, cutoff: real)
    requires forall i :: 0 <= i < |events| ==> events[i].time < cutoff
    ensures Recent(events, cutoff) == []
  {
    if events != [] {
      NoneRecent(events[..|events| - 1], cutoff);
    }
  }

  ghost predicate IsSuffix(short: seq<Event>, long: seq<Event>) {
    |short| <= |long| && short == long[|long| - |short|..]
  }

  lemma LazyBetween(deque: seq<Event>, history: seq<Event>, cutoff: real, floor: real)
    requires Lazy(deque, history, cutoff, floor) && Ordered(history)
    ensures IsSuffix(Recent(history, cutoff), deque)
    ensures IsSuffix(deque, Recent(history, floor))
  {
    hide Recent, Ordered, IsSuffix;
    ExactInDeque(deque, history, cutoff, floor);
    DequeInWide(deque, history, cutoff, floor);
  }

  lemma SuffixesNest(history: seq<Event>, short: seq<Event>, long: seq<Event>)
    requires IsSuffix(short, history) && IsSuffix(long, history) && |short| <= |long|
    ensures IsSuffix(short, long)
  {
    var n := |history|;
    assert history[n - |long|..][|long| - |short|..] == history[n - |short|..];
  }

  lemma ExactInDeque(deque: seq<Event>, history: seq<Event>, cutoff: real, floor: real)
    requires Lazy(deque, history, cutoff, floor) && Ordered(history)
    ensures IsSuffix(Recent(history, cutoff), deque)
  {
    hide Recent, Ordered;
    var exact, n := Recent(history, cutoff), |history|;
    RecentIsSuffix(history, cutoff);
    if exact != [] {
      var first := history[n - |exact|];
      assert first.time >= cutoff;
    }
    SuffixesNest(history, exact, deque);
  }

  lemma DequeInWide(deque: seq<Event>, history: seq<Event>, cutoff: real, floor: real)
    requires Lazy(deque, history, cutoff, floor) && Ordered(history)
    ensures IsSuffix(deque, Recent(history, floor))
  {
    hide Recent, Ordered;
    var wide, n := Recent(history, floor), |history|;
    RecentIsSuffix(history, floor);
    if deque != [] {
      assert history[n - |deque|] == deque[0];
    }
    SuffixesNest(history, deque, wide);
  }

  /** The exact window of the full history at time `now`, widened to the past by `slack`. */
  function Exact(kind: Kind, src: string, ps: seq<Packet>, now: real, slack: real): seq<Event> {
    Recent(History(kind, src, ps), now - Window(kind) - slack)
  }

  /** For non-decreasing timestamps and a source that was never evicted, every deque lies between the exact
      window of the full history and that window widened by one prune interval. The deque a packet is added
      to is exact. */
  lemma WindowsSandwichHistory(c: Config, ps: seq<Packet>, evictions: seq<set<string>>, kind: Kind, src: string)
    requires |evictions| == |ps| > 0 && Monotone(ps) && NeverEvicted(src, evictions)
    ensures var now, deque := ps[|ps| - 1].timestamp, Get(DequesOf(kind, Run(c, ps, evictions)), src);
            && IsSuffix(Exact(kind, src, ps, now, 0.0), deque)
            && IsSuffix(deque, Exact(kind, src, ps, now, c.pruneInterval as real))
            && (EventsOf(kind, src, ps[|ps| - 1]) != [] ==> deque == Exact(kind, src, ps, now, 0.0))
  {
    hide Run, History, EventsOf, Recent, DequesOf, Window, Ordered, Lazy, IsSuffix, Get, NeverEvicted;
    var st, now, h := Run(c, ps, evictions), ps[|ps| - 1].timestamp, History(kind, src, ps);
    var deque, cutoff, floor := Get(DequesOf(kind, st), src), now - Window(kind), now - Window(kind) - c.pruneInterval as real;
    RunIsLazy(c, ps, evictions, kind, src);
    HistoryOrdered(kind, src, ps, now);
    LazyLater(deque, h, cutoff, st.lastPruned.value - Window(kind), cutoff, floor);
    LazyBetween(deque, h, cutoff, floor);
    assert now - Window(kind) - 0.0 == cutoff;
    if EventsOf(kind, src, ps[|ps| - 1]) != [] {
      LazyBetween(deque, h, cutoff, cutoff);
      SuffixBothWays(deque, Recent(h, cutoff));
    }
  }

  lemma SuffixBothWays(a: seq<Event>, b: seq<Event>)
    requires IsSuffix(a, b) && IsSuffix(b, a)
    ensures a == b
  {
  }

  // ----- The score

  lemma SuffixPorts(short: seq<Event>, long: seq<Event>)
    requires IsSuffix(short, long)
    ensures |PortsOf(short)| <= |PortsOf(long)|
  {
    forall port | port in PortsOf(short) ensures port in PortsOf(long) {
      var i :| 0 <= i < |short| && short[i].port == port;
      assert long[|long| - |short| + i].port == port;
    }
    SubsetCount(PortsOf(short), PortsOf(long));
  }

  /** More remembered events never lower the score. */
  lemma ScoreMonotone(p: Packet, times: seq<Event>, ports: seq<Event>, syns: seq<Event>, ports': seq<Event>, syns': seq<Event>)
    requires IsSuffix(ports, ports') && IsSuffix(syns, syns')
    ensures Score(p, times, ports, syns) <= Score(p, times, ports', syns')
  {
    SuffixPorts(ports, ports');
  }

  /** The score of the last packet that full-history windows would give, the port and SYN windows widened to
      the past by `slack`. */
  function HistoryScore(ps: seq<Packet>, slack: real): nat
    requires ps != []
  {
    var p := ps[|ps| - 1];
    Score(p, Exact(Time, p.srcIp, ps, p.timestamp, 0.0), Exact(Port, p.srcIp, ps, p.timestamp, slack),
          Exact(Syn, p.srcIp, ps, p.timestamp, slack))
  }

  /** The score of the last packet lies between the score of the exact windows and that of the windows
      widened by one prune interval; it is the exact score when the packet is itself in all three windows. */
  lemma ScoreSandwich(c: Config, ps: seq<Packet>, evictions: seq<set<string>>)
    requires |evictions| == |ps| > 0 && Monotone(ps) && NeverEvicted(ps[|ps| - 1].srcIp, evictions)
    ensures var p, score := ps[|ps| - 1], ScoreIn(Run(c, ps, evictions), ps[|ps| - 1]);
            && HistoryScore(ps, 0.0) <= score <= HistoryScore(ps, c.pruneInterval as real)
            && (p.dstPort.Some? && SynOnly(p) ==> score == HistoryScore(ps, 0.0))
  {
    hide Run, Exact, PortsOf, EventsOf, Score, IsSuffix, SynOnly, DequesOf, NeverEvicted, Monotone;
    var st, p := Run(c, ps, evictions), ps[|ps| - 1];
    var src, now, slack := p.srcIp, p.timestamp, c.pruneInterval as real;
    forall kind ensures Sandwiched(kind, st, ps, slack) {
      WindowsSandwichHistory(c, ps, evictions, kind, src);
    }
    SandwichedScore(st, ps, slack);
  }

  ghost predicate Sandwiched(kind: Kind, st: Tracker, ps: seq<Packet>, slack: real)
    requires ps != []
  {
    var p := ps[|ps| - 1];
    var deque := Get(DequesOf(kind, st), p.srcIp);
    && IsSuffix(Exact(kind, p.srcIp, ps, p.timestamp, 0.0), deque)
    && IsSuffix(deque, Exact(kind, p.srcIp, ps, p.timestamp, slack))
    && (EventsOf(kind, p.srcIp, p) != [] ==> deque == Exact(kind, p.srcIp, ps, p.timestamp, 0.0))
  }

  lemma SandwichedScore(st: Tracker, ps: seq<Packet>, slack: real)
    requires ps != [] && forall kind :: Sandwiched(kind, st, ps, slack)
    ensures HistoryScore(ps, 0.0) <= ScoreIn(st, ps[|ps| - 1]) <= HistoryScore(ps, slack)
    ensures ps[|ps| - 1].dstPort.Some? && SynOnly(ps[|ps| - 1]) ==> ScoreIn(st, ps[|ps| - 1]) == HistoryScore(ps, 0.0)
  {
    hide Exact, PortsOf, Score, IsSuffix, SynOnly, Get;
    var p := ps[|ps| - 1];
    var src, now := p.srcIp, p.timestamp;
    var times, ports, syns := Get(st.times, src), Get(st.ports, src), Get(st.syns, src);
    assert Sandwiched(Time, st, ps, slack) && Sandwiched(Port, st, ps, slack) && Sandwiched(Syn, st, ps, slack);
    ScoreMonotone(p, times, Exact(Port, src, ps, now, 0.0), Exact(Syn, src, ps, now, 0.0), ports, syns);
    ScoreMonotone(p, times, ports, syns, Exact(Port, src, ps, now, slack), Exact(Syn, src, ps, now, slack));
  }

  /** Without any hypothesis on evictions: in every run of an ordered stream of at most `maxTracked` sources the
      windows and the score of the last packet's source are sandwiched. */
  lemma FewSourcesSandwich(c: Config, ps: seq<Packet>, evictions: seq<set<string>>, kind: Kind, src: string)
    requires |evictions| == |ps| > 0 && Monotone(ps) && ValidRun(c, ps, evictions) && |Sources(ps)| <= c.maxTracked
    ensures var p, deque := ps[|ps| - 1], Get(DequesOf(kind, Run(c, ps, evictions)), src);
            && IsSuffix(Exact(kind, src, ps, p.timestamp, 0.0), deque)
            && IsSuffix(deque, Exact(kind, src, ps, p.timestamp, c.pruneInterval as real))
            && (EventsOf(kind, src, p) != [] ==> deque == Exact(kind, src, ps, p.timestamp, 0.0))
    ensures var score := ScoreIn(Run(c, ps, evictions), ps[|ps| - 1]);
            HistoryScore(ps, 0.0) <= score <= HistoryScore(ps, c.pruneInterval as real)
  {
    hide Run, ValidRun, Monotone, Exact, IsSuffix, HistoryScore, ScoreIn, DequesOf, EventsOf, Get, Sources;
    FewSourcesNeverEvict(c, ps, evictions);
    WindowsSandwichHistory(c, ps, evictions, kind, src);
    ScoreSandwich(c, ps, evictions);
  }
}
