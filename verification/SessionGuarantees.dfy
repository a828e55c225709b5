/** Main results about the sessionizer, over every packet stream. */
module SessionGuarantees {
  import opened Packets
  import opened TrafficSession
  import opened Sessionizer
  import opened FlowSegmentation

  // ----- The pure per-flow segmenter

  /** The packet `p` cannot join `seg`: the segment has ended, has been idle too long or is too old. */
  predicate MustCut(seg: seq<Packet>, p: Packet)
    requires seg != []
  {
    EndsFlow(Last(seg)) || StaleSegment(seg, p.timestamp)
  }

  /** Cuts the packets of one flow, looking at nothing else. */
  function Segment(flow: seq<Packet>): (segs: seq<seq<Packet>>)
    ensures NonEmpty(segs)
  {
    if flow == [] then []
    else
      var before, p := Segment(flow[..|flow| - 1]), Last(flow);
      if before == [] || MustCut(Last(before), p) then before + [[p]] else ExtendLast(before, p)
  }

  // ----- Conservation and shape

  function Flatten<T>(segs: seq<seq<T>>): seq<T> {
    if segs == [] then [] else Flatten(segs[..|segs| - 1]) + Last(segs)
  }

  lemma FlattenExtendLast(segs: seq<seq<Packet>>, p: Packet)
    requires segs != []
    ensures Flatten(ExtendLast(segs, p)) == Flatten(segs) + [p]
  {
    var r := ExtendLast(segs, p);
    assert r[..|r| - 1] == segs[..|segs| - 1];
  }

  lemma FlattenSnoc<T>(segs: seq<seq<T>>, seg: seq<T>)
    ensures Flatten(segs + [seg]) == Flatten(segs) + seg
  {
    assert (segs + [seg])[..|segs|] == segs;
  }

  /** Nothing is lost, invented or reordered: the segments of flow `k` are its packets in arrival order. */
  lemma {:induction false} SegmentsPartitionFlow(k: SessionKey, ps: seq<Packet>)
    ensures Flatten(Project(k, ps).segs) == Flow(k, ps)
  {
    if ps != [] {
      hide EndsFlow, StaleSegment;
      var init, p := ps[..|ps| - 1], Last(ps);
      SegmentsPartitionFlow(k, init);
      var t := Tick(Project(k, init), p.timestamp);
      if KeyOf(p) == k {
        if t.live && t.segs != [] {
          FlattenExtendLast(t.segs, p);
        } else {
          FlattenSnoc(t.segs, [p]);
        }
      }
    }
  }

  /** No gap of 30 seconds, no packet 120 seconds after the first, no packet after FIN or RST. */
  ghost predicate WellShaped(k: SessionKey, seg: seq<Packet>) {
    && seg != []
    && (forall i :: 0 <= i < |seg| ==> KeyOf(seg[i]) == k)
    && (forall i :: 0 < i < |seg| ==> seg[i].timestamp - seg[i - 1].timestamp < 30.0)
    && (forall i :: 0 <= i < |seg| ==> seg[i].timestamp - seg[0].timestamp < 120.0)
    && (forall i :: 0 <= i < |seg| - 1 ==> !EndsFlow(seg[i]))
  }

  lemma WellShapedExtends(k: SessionKey, seg: seq<Packet>, p: Packet)
    requires WellShaped(k, seg) && KeyOf(p) == k && !MustCut(seg, p)
    ensures WellShaped(k, seg + [p])
  {
    hide EndsFlow;
  }

  ghost predicate AllWellShaped(k: SessionKey, segs: seq<seq<Packet>>) {
    forall i :: 0 <= i < |segs| ==> WellShaped(k, segs[i])
  }

  lemma AdvanceShaped(k: SessionKey, v: Trace, p: Packet)
    requires AllWellShaped(k, v.segs)
    requires v.live ==> v.segs != [] && !EndsFlow(Last(Last(v.segs)))
    ensures NonEmpty(v.segs)
    ensures var w := Advance(k, v, p);
            && AllWellShaped(k, w.segs)
            && (w.live ==> w.segs != [] && !EndsFlow(Last(Last(w.segs))) && !StaleSegment(Last(w.segs), p.timestamp))
  {
    hide EndsFlow;
    var t := Tick(v, p.timestamp);
    if KeyOf(p) == k && t.live {
      WellShapedExtends(k, Last(t.segs), p);
    }
  }

  /** Every segment of every stream is well shaped, and an active one is not stale at the last packet. */
  lemma {:induction false} SegmentsWellShaped(k: SessionKey, ps: seq<Packet>)
    ensures var v := Project(k, ps);
            && AllWellShaped(k, v.segs)
            && (v.live ==> ps != [] && v.segs != [] && !EndsFlow(Last(Last(v.segs))) && !StaleSegment(Last(v.segs), Last(ps).timestamp))
  {
    if ps != [] {
      hide AllWellShaped, EndsFlow, StaleSegment, Advance;
      SegmentsWellShaped(k, ps[..|ps| - 1]);
      AdvanceShaped(k, Project(k, ps[..|ps| - 1]), Last(ps));
    }
  }

  // ----- What the session records say

  /** A session record with well-shaped timing, agreeing counters and the flags of its packets. */
  ghost predicate SoundRecord(k: SessionKey, s: Session) {
    exists seg :: WellShaped(k, seg) && Records(s, seg) && RecordsTransport(s, seg)
  }

  lemma WellShapedRecords(k: SessionKey, seg: seq<Packet>)
    requires WellShaped(k, seg)
    ensures Records(SessionOf(seg), seg) && RecordsTransport(SessionOf(seg), seg)
    ensures SessionOf(seg).finished == EndsFlow(Last(seg))
  {
    hide EndsFlow, RecordsTransport, SessionOf;
    SessionRecordsItsPackets(seg);
    SessionRecordsTransport(seg);
    assert EndsFlow(seg[|seg| - 1]) ==> SessionOf(seg).finished;
  }

  function AllLengths(ss: seq<Session>): seq<int> {
    if ss == [] then [] else AllLengths(ss[..|ss| - 1]) + Last(ss).packetLengths
  }

  function AllTimestamps(ss: seq<Session>): seq<real> {
    if ss == [] then [] else AllTimestamps(ss[..|ss| - 1]) + Last(ss).packetTimestamps
  }

  function AllBytes(ss: seq<Session>): int {
    if ss == [] then 0 else AllBytes(ss[..|ss| - 1]) + Last(ss).totalBytes
  }

  function AllPackets(ss: seq<Session>): nat {
    if ss == [] then 0 else AllPackets(ss[..|ss| - 1]) + Last(ss).packetCount
  }

  lemma {:induction false} TotalConcat(a: seq<int>, b: seq<int>)
    ensures Total(a + b) == Total(a) + Total(b)
  {
    if b == [] {
      assert a + b == a;
    } else {
      assert (a + b)[..|a + b| - 1] == a + b[..|b| - 1];
      TotalConcat(a, b[..|b| - 1]);
    }
  }

  lemma TotalsSnoc(ss: seq<Session>, s: Session)
    ensures AllLengths(ss + [s]) == AllLengths(ss) + s.packetLengths
    ensures AllTimestamps(ss + [s]) == AllTimestamps(ss) + s.packetTimestamps
    ensures AllBytes(ss + [s]) == AllBytes(ss) + s.totalBytes
    ensures AllPackets(ss + [s]) == AllPackets(ss) + s.packetCount
  {
    assert (ss + [s])[..|ss|] == ss;
  }

  /** The records `ss` hold the packets `ps`, in order. */
  ghost predicate AddUpTo(ss: seq<Session>, ps: seq<Packet>) {
    && AllLengths(ss) == Sizes(ps)
    && AllTimestamps(ss) == Times(ps)
    && AllBytes(ss) == Total(Sizes(ps))
    && AllPackets(ss) == |ps|
  }

  lemma AddUpSnoc(ss: seq<Session>, ps: seq<Packet>, s: Session, seg: seq<Packet>)
    requires AddUpTo(ss, ps) && seg != [] && Records(s, seg)
    ensures AddUpTo(ss + [s], ps + seg)
  {
    TotalsSnoc(ss, s);
    ListsConcat(ps, seg);
  }

  lemma {:induction false} RecordsAddUp(k: SessionKey, segs: seq<seq<Packet>>)
    requires AllWellShaped(k, segs) && NonEmpty(segs)
    ensures AddUpTo(SessionsOf(segs), Flatten(segs))
  {
    if segs != [] {
      var init, seg := segs[..|segs| - 1], Last(segs);
      RecordsAddUp(k, init);
      WellShapedRecords(k, seg);
      SessionsOfSnoc(init, seg);
      hide SessionOf, SessionsOf, WellShaped, AddUpTo, Records, RecordsTransport;
      assert segs == init + [seg];
      AddUpSnoc(SessionsOf(init), Flatten(init), SessionOf(seg), seg);
    }
  }

  lemma ListsConcat(a: seq<Packet>, b: seq<Packet>)
    ensures Sizes(a + b) == Sizes(a) + Sizes(b)
    ensures Times(a + b) == Times(a) + Times(b)
    ensures Total(Sizes(a + b)) == Total(Sizes(a)) + Total(Sizes(b))
  {
    hide Total;
    assert Sizes(a + b) == Sizes(a) + Sizes(b);
    TotalConcat(Sizes(a), Sizes(b));
  }

  /** Conservation at every reachable state, for every stream: the records made of flow `k`, emitted ones in
      order and then the active one, hold exactly its packet sizes and timestamps in arrival order, so
      packet and byte totals add up. */
  lemma PacketConservation(k: SessionKey, ps: seq<Packet>)
    ensures AddUpTo(SessionsFor(k, Run(ps)), Flow(k, ps))
  {
    FlowProjection(k, ps);
    SegmentsPartitionFlow(k, ps);
    SegmentsWellShaped(k, ps);
    RecordsAddUp(k, Project(k, ps).segs);
  }

  /** Every session ever made of any stream records some well-shaped packets of its flow. */
  lemma EverySessionIsSound(k: SessionKey, ps: seq<Packet>)
    ensures forall s :: s in SessionsFor(k, Run(ps)) ==> SoundRecord(k, s)
  {
    FlowProjection(k, ps);
    SegmentsWellShaped(k, ps);
    hide Run, SessionsFor, SessionOf, Records, RecordsTransport, WellShaped;
    var segs := Project(k, ps).segs;
    forall s | s in SessionsFor(k, Run(ps)) ensures SoundRecord(k, s) {
      var i :| 0 <= i < |segs| && SessionsOf(segs)[i] == s;
      WellShapedRecords(k, segs[i]);
    }
  }

  /** Between packets no active session has ended, none is stale at the last packet's time, and no
      finalization is pending. */
  lemma SettledBetweenPackets(ps: seq<Packet>)
    requires ps != []
    ensures var st := Run(ps).state;
            && st.pending == []
            && forall k :: k in st.sessions ==> !st.sessions[k].finished && !StaleAt(st.sessions[k], Last(ps).timestamp)
  {
    hide Run, EndsFlow, SessionOf;
    RunConsistent(ps);
    var st := Run(ps).state;
    forall k | k in st.sessions ensures !st.sessions[k].finished && !StaleAt(st.sessions[k], Last(ps).timestamp) {
      FlowProjection(k, ps);
      SegmentsWellShaped(k, ps);
      OpenSegmentSession(k, Last(Project(k, ps).segs));
    }
  }

  // ----- Predictions

  ghost predicate NothingDue(st: State) {
    forall k :: k in st.sessions && k in st.prediction ==> !PredictionDue(st.sessions[k], st.prediction[k])
  }

  lemma AddPacketKeepsOthers(st: State, p: Packet)
    requires Consistent(st)
    ensures var built, k := AddPacket(st, p), KeyOf(p);
            && k in built.sessions && k in built.prediction
            && built.sessions[k].packetCount > 0
            && forall x :: x != k && x in built.sessions ==>
                 && x in st.sessions && built.sessions[x] == st.sessions[x]
                 && x in st.prediction && x in built.prediction && built.prediction[x] == st.prediction[x]
  {
    hide UpdateForward, CountFlags, EndsFlow;
  }

  lemma TailNothingDue(built: State, k: SessionKey)
    requires k in built.sessions && k in built.prediction && built.sessions[k].packetCount > 0
    requires NothingDue(built.(sessions := built.sessions - {k}))
    ensures var (asked, predicted) := ShouldPredict(built, k);
            && NothingDue(FinalizeIfNeeded(asked, k).0)
            && (built.sessions[k].finished ==> predicted)
  {
  }

  /** One packet leaves no prediction overdue, and a packet that ends its session triggers one. */
  lemma ProcessNothingDue(st: State, p: Packet)
    requires Consistent(st) && NothingDue(st)
    ensures NothingDue(Process(st, p).state)
    ensures var built := ProcessPacket(st, p);
            KeyOf(p) in built.sessions && (built.sessions[KeyOf(p)].finished ==> Process(st, p).predicted)
  {
    ExpireConsistent(st, p.timestamp);
    var expired := Expire(st, p.timestamp);
    AddPacketKeepsOthers(expired, p);
    hide AddPacket, ShouldPredict, FinalizeIfNeeded, PredictionDue, StaleAt, StaleItems, StaleKeys, Drop;
    var built, k := ProcessPacket(st, p).(pending := []), KeyOf(p);
    var others := built.(sessions := built.sessions - {k});
    forall x | x in others.sessions && x in others.prediction
      ensures !PredictionDue(others.sessions[x], others.prediction[x])
    {
      assert st.sessions[x] == others.sessions[x] && st.prediction[x] == others.prediction[x];
    }
    TailNothingDue(built, k);
  }

  /** No reachable state holds an overdue prediction: every active session that is old and long enough was
      predicted less than five of its packets and less than one second of its own time ago. */
  lemma {:induction false} NoOverduePrediction(ps: seq<Packet>)
    ensures NothingDue(Run(ps).state)
  {
    if ps != [] {
      hide Process, Consistent, NothingDue;
      RunConsistent(ps[..|ps| - 1]);
      NoOverduePrediction(ps[..|ps| - 1]);
      ProcessNothingDue(Run(ps[..|ps| - 1]).state, Last(ps));
    } else {
      assert NothingDue(EMPTY);
    }
  }

  // ----- Why a session was finalized

  /** Each finalized record says why: the flow ended exactly when the record is finished; otherwise the
      triggering packet found it idle, or else too old. */
  ghost predicate Explained(item: Finalized, now: real) {
    && item.key == item.session.key
    && (item.reason == FlowEnd <==> item.session.finished)
    && (item.reason == IdleTimeout ==> now - item.session.lastSeen >= 30.0)
    && (item.reason == MaxDuration ==> now - item.session.startTime >= 120.0 && now - item.session.lastSeen < 30.0)
  }

  lemma {:induction false} StaleItemsExplained(order: seq<SessionKey>, sessions: map<SessionKey, Session>, now: real)
    requires forall k :: k in sessions ==> sessions[k].key == k && !sessions[k].finished
    ensures forall item :: item in StaleItems(order, sessions, now) ==> Explained(item, now)
  {
    if order != [] {
      StaleItemsExplained(order[..|order| - 1], sessions, now);
    }
  }

  lemma EmissionsExplained(ps: seq<Packet>, p: Packet)
    ensures forall item :: item in Process(Run(ps).state, p).emitted ==> Explained(item, p.timestamp)
  {
    hide Run, AddPacket, ShouldPredict, FinalizeIfNeeded, StaleItems, StaleKeys, Drop, StaleAt;
    var st := Run(ps).state;
    RunConsistent(ps);
    if ps != [] {
      SettledBetweenPackets(ps);
    } else {
      EmptyRun();
    }
    StaleItemsExplained(st.order, st.sessions, p.timestamp);
    var expired, k := Expire(st, p.timestamp), KeyOf(p);
    ExpireConsistent(st, p.timestamp);
    AddPacketConsistent(expired, p);
    AddPacketOpens(expired, p);
    assert expired.pending == StaleItems(st.order, st.sessions, p.timestamp);
    TailKeeps(ProcessPacket(st, p).(pending := []), k);
  }

  lemma EmptyRun()
    ensures Run([]).state == EMPTY
  {
  }
}
