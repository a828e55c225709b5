/** When the sessions of a flow depend on that flow's packets alone: the exact condition. */
module FlowIndependence {
  import opened Options
  import opened Packets
  import opened TrafficSession
  import opened Sessionizer
  import opened FlowSegmentation
  import opened SessionGuarantees

  // ----- When the last segment of a flow is still active

  /** The packets after the last one of flow `k`. */
  function Tail(k: SessionKey, ps: seq<Packet>): seq<Packet> {
    if ps == [] || KeyOf(Last(ps)) == k then [] else Tail(k, ps[..|ps| - 1]) + [Last(ps)]
  }

  /** One of the packets `qs` finds `seg` stale. */
  ghost predicate Expires(seg: seq<Packet>, qs: seq<Packet>)
    requires seg != []
  {
    exists i :: 0 <= i < |qs| && StaleSegment(seg, qs[i].timestamp)
  }

  ghost predicate StillActive(segs: seq<seq<Packet>>, later: seq<Packet>)
    requires NonEmpty(segs)
  {
    segs != [] && !EndsFlow(Last(Last(segs))) && !Expires(Last(segs), later)
  }

  lemma ExpiresSnoc(seg: seq<Packet>, qs: seq<Packet>, q: Packet)
    requires seg != []
    ensures Expires(seg, qs + [q]) <==> Expires(seg, qs) || StaleSegment(seg, q.timestamp)
  {
    hide StaleSegment;
    if Expires(seg, qs) {
      var i :| 0 <= i < |qs| && StaleSegment(seg, qs[i].timestamp);
      assert (qs + [q])[i] == qs[i];
    }
    assert (qs + [q])[|qs|] == q;
  }

  lemma TakeEndsWith(v: Trace, p: Packet)
    requires NonEmpty(v.segs)
    ensures var w := Take(v, p); w.segs != [] && Last(w.segs) != [] && Last(Last(w.segs)) == p && w.live == !EndsFlow(p)
  {
    hide EndsFlow;
  }

  /** A flow's last segment is active unless it ended or some packet after it found it stale. */
  lemma {:induction false} LiveIff(k: SessionKey, ps: seq<Packet>)
    ensures Project(k, ps).live <==> StillActive(Project(k, ps).segs, Tail(k, ps))
  {
    if ps != [] {
      hide EndsFlow, StaleSegment, Expires, Take;
      var init, p := ps[..|ps| - 1], Last(ps);
      LiveIff(k, init);
      var v := Project(k, init);
      if KeyOf(p) == k {
        TakeEndsWith(Tick(v, p.timestamp), p);
        NothingExpires(Last(Project(k, ps).segs));
      } else if v.segs != [] {
        ExpiresSnoc(Last(v.segs), Tail(k, init), p);
      }
    }
  }

  lemma NothingExpires(seg: seq<Packet>)
    requires seg != []
    ensures !Expires(seg, [])
  {
  }

  // ----- The exact condition

  /** The last packet of `ps` would join its flow's segment, had no packet in between found that stale. */
  ghost predicate CutByOthers(k: SessionKey, ps: seq<Packet>)
    requires ps != []
  {
    var init, p := ps[..|ps| - 1], Last(ps);
    var segs := Segment(Flow(k, init));
    KeyOf(p) == k && segs != [] && !MustCut(Last(segs), p) && Expires(Last(segs), Tail(k, init))
  }

  /** No packet of flow `k` is cut off from its predecessors by a packet of another flow. */
  ghost predicate Undisturbed(k: SessionKey, ps: seq<Packet>) {
    forall n :: 0 < n <= |ps| ==> !CutByOthers(k, ps[..n])
  }

  lemma UndisturbedSnoc(k: SessionKey, ps: seq<Packet>)
    requires ps != []
    ensures Undisturbed(k, ps) <==> Undisturbed(k, ps[..|ps| - 1]) && !CutByOthers(k, ps)
  {
    hide CutByOthers;
    var init := ps[..|ps| - 1];
    assert forall n :: 0 < n <= |init| ==> init[..n] == ps[..n];
    assert ps[..|ps|] == ps;
    if Undisturbed(k, init) && !CutByOthers(k, ps) {
      forall n | 0 < n <= |ps| ensures !CutByOthers(k, ps[..n]) {
        assert n < |ps| ==> ps[..n] == init[..n];
      }
    }
  }

  /** Both ways of cutting take one packet at a time: they extend the last segment or open a new one. */
  function Grow(segs: seq<seq<Packet>>, join: bool, p: Packet): seq<seq<Packet>> {
    if join && segs != [] then ExtendLast(segs, p) else segs + [[p]]
  }

  lemma GrowInjective(a: seq<seq<Packet>>, joinA: bool, b: seq<seq<Packet>>, joinB: bool, p: Packet)
    requires NonEmpty(a) && NonEmpty(b)
    ensures Grow(a, joinA, p) == Grow(b, joinB, p) <==> a == b && (a != [] ==> joinA == joinB)
  {
    var x, y := Grow(a, joinA, p), Grow(b, joinB, p);
    if x == y {
      assert |Last(x)| > 1 <==> joinA && a != [];
      assert |Last(y)| > 1 <==> joinB && b != [];
      var rest := x[..|x| - 1];
      if joinA && a != [] {
        assert rest == a[..|a| - 1] == b[..|b| - 1];
        assert Last(x) == Last(a) + [p] == Last(b) + [p];
        assert Last(a) == Last(x)[..|Last(x)| - 1] == Last(b);
        assert a == a[..|a| - 1] + [Last(a)] && b == b[..|b| - 1] + [Last(b)];
      } else {
        assert rest == a == b;
      }
    }
  }

  lemma SegmentGrows(flow: seq<Packet>, p: Packet)
    ensures var segs := Segment(flow);
            Segment(flow + [p]) == Grow(segs, segs != [] && !MustCut(Last(segs), p), p)
  {
    hide MustCut;
    assert (flow + [p])[..|flow|] == flow;
  }

  lemma ProjectGrows(k: SessionKey, ps: seq<Packet>)
    requires ps != [] && KeyOf(Last(ps)) == k
    ensures var v, p := Project(k, ps[..|ps| - 1]), Last(ps);
            Project(k, ps).segs
              == Grow(v.segs, v.segs != [] && !MustCut(Last(v.segs), p) && !Expires(Last(v.segs), Tail(k, ps[..|ps| - 1])), p)
  {
    LiveIff(k, ps[..|ps| - 1]);
    hide EndsFlow, StaleSegment, Expires;
  }

  /** A stream cuts flow `k` as that flow's packets alone would be cut, if and only if it is undisturbed. */
  lemma {:induction false} ProjectIsSegment(k: SessionKey, ps: seq<Packet>)
    ensures Project(k, ps).segs == Segment(Flow(k, ps)) <==> Undisturbed(k, ps)
  {
    if ps != [] {
      hide MustCut, Expires, Segment, Project, Grow, Undisturbed, NonEmpty;
      var init, p := ps[..|ps| - 1], Last(ps);
      ProjectIsSegment(k, init);
      UndisturbedSnoc(k, ps);
      if KeyOf(p) == k {
        var a, b := Project(k, init).segs, Segment(Flow(k, init));
        ProjectGrows(k, ps);
        SegmentGrows(Flow(k, init), p);
        GrowInjective(a, a != [] && !MustCut(Last(a), p) && !Expires(Last(a), Tail(k, init)),
                      b, b != [] && !MustCut(Last(b), p), p);
      } else {
        ProjectSkips(k, ps);
        assert Flow(k, ps) == Flow(k, init);
      }
    }
  }

  lemma ProjectSkips(k: SessionKey, ps: seq<Packet>)
    requires ps != [] && KeyOf(Last(ps)) != k
    ensures Project(k, ps).segs == Project(k, ps[..|ps| - 1]).segs
  {
  }

  // ----- Session records determine the segments

  lemma {:induction false} SegmentFlattens(flow: seq<Packet>)
    ensures Flatten(Segment(flow)) == flow
  {
    hide MustCut, Segment, Flatten;
    if flow != [] {
      var init, p := flow[..|flow| - 1], Last(flow);
      assert flow == init + [p];
      SegmentFlattens(init);
      SegmentGrows(init, p);
      if Segment(init) != [] {
        FlattenExtendLast(Segment(init), p);
      }
      FlattenSnoc(Segment(init), [p]);
    } else {
      NothingFlattens();
    }
  }

  lemma NothingFlattens()
    ensures Segment([]) == [] && Flatten<Packet>([]) == []
  {
  }

  lemma {:induction false} PacketCountIsLength(seg: seq<Packet>)
    requires seg != []
    ensures SessionOf(seg).packetCount == |seg|
  {
    if |seg| > 1 {
      PacketCountIsLength(seg[..|seg| - 1]);
    }
  }

  lemma {:induction false} LengthsDetermine(a: seq<seq<Packet>>, b: seq<seq<Packet>>)
    requires Flatten(a) == Flatten(b) && |a| == |b|
    requires forall i :: 0 <= i < |a| ==> |a[i]| == |b[i]|
    ensures a == b
  {
    if a != [] {
      var n := |a| - 1;
      var x, y := Flatten(a[..n]), Flatten(b[..n]);
      assert Flatten(a) == x + a[n] && Flatten(b) == y + b[n];
      assert |x| == |y|;
      assert x == (x + a[n])[..|x|] && y == (y + b[n])[..|y|];
      assert a[n] == (x + a[n])[|x|..] && b[n] == (y + b[n])[|y|..];
      LengthsDetermine(a[..n], b[..n]);
      assert a == a[..n] + [a[n]] && b == b[..n] + [b[n]];
    }
  }

  lemma SessionsDetermine(a: seq<seq<Packet>>, b: seq<seq<Packet>>)
    requires NonEmpty(a) && NonEmpty(b) && Flatten(a) == Flatten(b)
    ensures SessionsOf(a) == SessionsOf(b) <==> a == b
  {
    hide SessionOf, Flatten;
    if SessionsOf(a) == SessionsOf(b) {
      forall i | 0 <= i < |a| ensures |a[i]| == |b[i]| {
        assert SessionsOf(a)[i] == SessionsOf(b)[i];
        PacketCountIsLength(a[i]);
        PacketCountIsLength(b[i]);
      }
      LengthsDetermine(a, b);
    }
  }

  // ----- Main results

  /** Interleaving independence, for every stream in any time order: the sessions made of flow `k` are the
      segments of its own packets if and only if no packet of another flow comes between two packets of one
      segment, late enough to find that segment stale. */
  lemma InterleavingIndependence(k: SessionKey, ps: seq<Packet>)
    ensures SessionsFor(k, Run(ps)) == SessionsOf(Segment(Flow(k, ps))) <==> Undisturbed(k, ps)
    ensures k in Run(ps).state.sessions <==> StillActive(Project(k, ps).segs, Tail(k, ps))
  {
    hide Run, Segment, Project, Flow, SessionsFor, SessionsOf, Undisturbed, StillActive, Tail;
    FlowProjection(k, ps);
    ProjectIsSegment(k, ps);
    LiveIff(k, ps);
    SegmentsPartitionFlow(k, ps);
    SegmentFlattens(Flow(k, ps));
    SessionsDetermine(Project(k, ps).segs, Segment(Flow(k, ps)));
  }

  /** Two undisturbed streams that carry the same packets of flow `k` make the same sessions of it. */
  lemma SameFlowSameSessions(k: SessionKey, ps: seq<Packet>, qs: seq<Packet>)
    requires Undisturbed(k, ps) && Undisturbed(k, qs) && Flow(k, ps) == Flow(k, qs)
    ensures SessionsFor(k, Run(ps)) == SessionsFor(k, Run(qs))
  {
    InterleavingIndependence(k, ps);
    InterleavingIndependence(k, qs);
  }

  lemma StaleLater(seg: seq<Packet>, now: real, later: real)
    requires seg != [] && now <= later && StaleSegment(seg, now)
    ensures StaleSegment(seg, later)
  {
  }

  lemma {:induction false} TailIsEarlier(k: SessionKey, ps: seq<Packet>, latest: real)
    requires forall i :: 0 <= i < |ps| ==> ps[i].timestamp <= latest
    ensures forall i :: 0 <= i < |Tail(k, ps)| ==> Tail(k, ps)[i].timestamp <= latest
  {
    if ps != [] {
      TailIsEarlier(k, ps[..|ps| - 1], latest);
    }
  }

  /** Whoever finds a segment stale makes it stale for every later time. */
  lemma ExpiresLater(k: SessionKey, ps: seq<Packet>, seg: seq<Packet>, latest: real)
    requires seg != [] && forall i :: 0 <= i < |ps| ==> ps[i].timestamp <= latest
    ensures Expires(seg, Tail(k, ps)) ==> StaleSegment(seg, latest)
  {
    TailIsEarlier(k, ps, latest);
    hide StaleSegment, Tail;
    if Expires(seg, Tail(k, ps)) {
      var i :| 0 <= i < |Tail(k, ps)| && StaleSegment(seg, Tail(k, ps)[i].timestamp);
      StaleLater(seg, Tail(k, ps)[i].timestamp, latest);
    }
  }

  /** Non-decreasing timestamps are enough. */
  lemma OrderedIsUndisturbed(k: SessionKey, ps: seq<Packet>)
    requires Monotone(ps)
    ensures Undisturbed(k, ps)
  {
    hide Segment, Flow, StaleSegment, EndsFlow, Expires, Tail;
    forall n | 0 < n <= |ps| ensures !CutByOthers(k, ps[..n]) {
      var init, p := ps[..n][..n - 1], Last(ps[..n]);
      var segs := Segment(Flow(k, init));
      if segs != [] {
        ExpiresLater(k, init, Last(segs), p.timestamp);
      }
    }
  }

  /** So under non-decreasing timestamps the sessions of a flow are those of its own packets, and the last
      one is active exactly when it has neither ended nor gone stale by the time of the last packet. */
  lemma OrderedTimesAreIndependent(k: SessionKey, ps: seq<Packet>)
    requires Monotone(ps)
    ensures var segs, r := Segment(Flow(k, ps)), Run(ps);
            && SessionsFor(k, r) == SessionsOf(segs)
            && (k in r.state.sessions <==>
                  ps != [] && segs != [] && !EndsFlow(Last(Last(segs))) && !StaleSegment(Last(segs), Last(ps).timestamp))
  {
    hide Run, Segment, Flow, Project, SessionsFor, SessionsOf, EndsFlow, StaleSegment, Undisturbed, Expires, Tail;
    OrderedIsUndisturbed(k, ps);
    InterleavingIndependence(k, ps);
    ProjectIsSegment(k, ps);
    LiveIff(k, ps);
    SegmentsWellShaped(k, ps);
    hide AllWellShaped;
    FlowOfNothing(k);
    var segs := Segment(Flow(k, ps));
    if ps != [] && segs != [] {
      if Expires(Last(segs), Tail(k, ps)) {
        ExpiresLater(k, ps, Last(segs), Last(ps).timestamp);
      }
    }
  }

  // ----- A stream on either side of the condition

  function SamplePacket(src: string, timestamp: real): Packet {
    Packet(src, "host", 17, None, None, timestamp, 60, None, None, None, None)
  }

  lemma OneMore(k: SessionKey, ps: seq<Packet>, p: Packet)
    ensures Flow(k, ps + [p]) == Flow(k, ps) + if KeyOf(p) == k then [p] else []
    ensures Tail(k, ps + [p]) == if KeyOf(p) == k then [] else Tail(k, ps) + [p]
  {
    assert (ps + [p])[..|ps|] == ps;
  }

  lemma TwoPackets(k: SessionKey, a: Packet, other: Packet)
    requires KeyOf(a) == k && KeyOf(other) != k
    ensures Flow(k, [a]) == Flow(k, [a, other]) == [a] && Tail(k, [a]) == [] && Tail(k, [a, other]) == [other]
    ensures Segment([a]) == [[a]]
  {
    OneMore(k, [], a);
    OneMore(k, [a], other);
    assert [] + [a] == [a] && [a] + [other] == [a, other];
    assert [a][..0] == [];
  }

  /** A flow of two packets with one packet of another flow between them is disturbed if and only if the one
      between finds the first stale although the second does not. */
  lemma DisturbedIff(k: SessionKey, a: Packet, other: Packet, b: Packet)
    requires KeyOf(a) == KeyOf(b) == k && KeyOf(other) != k
    ensures Undisturbed(k, [a, other, b]) <==>
              EndsFlow(a) || StaleSegment([a], b.timestamp) || !StaleSegment([a], other.timestamp)
  {
    TwoPackets(k, a, other);
    hide Flow, Tail, Segment, EndsFlow, StaleSegment;
    var ps := [a, other, b];
    UndisturbedSnoc(k, ps);
    UndisturbedSnoc(k, [a, other]);
    UndisturbedSnoc(k, [a]);
    assert ps[..2] == [a, other] && [a, other][..1] == [a] && [a][..0] == [];
    assert Expires([a], [other]) <==> StaleSegment([a], other.timestamp) by {
      assert [other][0] == other;
    }
    FlowOfNothing(k);
  }

  lemma FlowOfNothing(k: SessionKey)
    ensures Segment(Flow(k, [])) == [] && Undisturbed(k, [])
  {
  }

  lemma NoFlagsNoEnd(p: Packet)
    requires p.tcpFlags.None?
    ensures !EndsFlow(p)
  {
  }

  /** Out-of-order times can break independence, and need not: a packet of another flow dated 40 s splits a
      flow with packets at 0 s and 10 s, one dated 20 s does not. */
  lemma OutOfOrderTimesBreakIndependence()
    ensures var a, b := SamplePacket("a", 0.0), SamplePacket("a", 10.0);
            var k, late, early := KeyOf(a), SamplePacket("b", 40.0), SamplePacket("b", 20.0);
            && SessionsFor(k, Run([a, late, b])) != SessionsOf(Segment(Flow(k, [a, late, b])))
            && SessionsFor(k, Run([a, early, b])) == SessionsOf(Segment(Flow(k, [a, early, b])))
            && !Monotone([a, early, b])
  {
    var a, b := SamplePacket("a", 0.0), SamplePacket("a", 10.0);
    var k, late, early := KeyOf(a), SamplePacket("b", 40.0), SamplePacket("b", 20.0);
    assert "a"[0] != "b"[0];
    assert KeyOf(late).srcIp == KeyOf(early).srcIp == "b" && k.srcIp == "a";
    NoFlagsNoEnd(a);
    DisturbedIff(k, a, late, b);
    DisturbedIff(k, a, early, b);
    hide Run, Segment, Flow, SessionsFor, SessionsOf, Undisturbed;
    InterleavingIndependence(k, [a, late, b]);
    InterleavingIndependence(k, [a, early, b]);
    assert [a, early, b][1].timestamp > [a, early, b][2].timestamp;
  }
}
