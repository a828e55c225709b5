/** When a prediction fires: a function of the packets of the session alone. */
module Predictions {
  import opened Packets
  import opened TrafficSession
  import opened Sessionizer
  import opened FlowSegmentation
  import opened SessionGuarantees

  /** The last prediction of a session: at which of its packets, and when; none yet if `count` is 0. */
  datatype Asked = Asked(count: nat, time: real)

  /** The last packet of `seg` triggers a prediction: it ends the session, or the session is at least 1 s old
      and five packets long, and has had no prediction yet, or none for five packets or for 1 s. */
  predicate FiresAfter(a: Asked, seg: seq<Packet>)
    requires seg != []
  {
    var first, last, n := seg[0], seg[|seg| - 1], |seg|;
    || EndsFlow(last)
    || (last.timestamp - first.timestamp >= 1.0 && n >= 5
        && (a.count == 0 || n - a.count >= 5 || last.timestamp - a.time >= 1.0))
  }

  function Before(seg: seq<Packet>): Asked
    requires seg != []
    decreases |seg|, 0
  {
    if |seg| == 1 then Asked(0, seg[0].timestamp) else LastAsked(seg[..|seg| - 1])
  }

  function LastAsked(seg: seq<Packet>): Asked
    requires seg != []
    decreases |seg|, 1
  {
    if FiresAfter(Before(seg), seg) then Asked(|seg|, seg[|seg| - 1].timestamp) else Before(seg)
  }

  predicate Fires(seg: seq<Packet>)
    requires seg != []
  {
    FiresAfter(Before(seg), seg)
  }

  function StateOf(a: Asked): PredictionState { PredictionState(a.count, a.time) }

  /** The builder remembers the last prediction of the active session of `k`. */
  ghost predicate Remembers(k: SessionKey, st: State, v: Trace)
    requires NonEmpty(v.segs)
  {
    v.live ==> v.segs != [] && k in st.prediction && st.prediction[k] == StateOf(LastAsked(Last(v.segs)))
  }

  lemma ExpireRemembers(k: SessionKey, st: State, v: Trace, now: real)
    requires Consistent(st) && Shows(k, st, v) && Remembers(k, st, v)
    ensures Remembers(k, Expire(st, now), Tick(v, now))
  {
    hide LastAsked, OpenSegment, SessionOf, StaleSegment, StaleAt;
    ExpireShows(k, st, v, now);
  }

  lemma SegmentGrows(v: Trace, p: Packet)
    requires NonEmpty(v.segs)
    ensures var seg := Last(Take(v, p).segs);
            seg != [] && Before(seg) == if v.live && v.segs != [] then LastAsked(Last(v.segs)) else Asked(0, p.timestamp)
  {
    hide LastAsked, EndsFlow;
    if v.live && v.segs != [] {
      var seg := Last(v.segs) + [p];
      assert seg[..|seg| - 1] == Last(v.segs);
    }
  }

  lemma AddPacketRemembers(k: SessionKey, st: State, v: Trace, p: Packet)
    requires Consistent(st) && Shows(k, st, v) && Remembers(k, st, v) && KeyOf(p) == k
    ensures var built := AddPacket(st, p);
            && k in built.sessions && k in built.prediction
            && (!built.sessions[k].finished ==> built.prediction[k] == StateOf(Before(Last(Take(v, p).segs))))
  {
    hide LastAsked, Before, OpenSegment, SessionOf, UpdateSession, EndsFlow, Take;
    SegmentGrows(v, p);
  }

  lemma SegmentSession(k: SessionKey, seg: seq<Packet>)
    requires seg != [] && forall i :: 0 <= i < |seg| ==> KeyOf(seg[i]) == k
    ensures var s := SessionOf(seg);
            && s.packetCount == |seg| && s.startTime == seg[0].timestamp && s.lastSeen == seg[|seg| - 1].timestamp
  {
    hide SessionOf;
    SessionRecordsItsPackets(seg);
  }

  lemma DueIffFires(k: SessionKey, seg: seq<Packet>, last: PredictionState)
    requires seg != [] && forall i :: 0 <= i < |seg| ==> KeyOf(seg[i]) == k
    requires SessionOf(seg).finished == EndsFlow(seg[|seg| - 1])
    requires !SessionOf(seg).finished ==> last == StateOf(Before(seg))
    ensures PredictionDue(SessionOf(seg), last) <==> Fires(seg)
  {
    SegmentSession(k, seg);
    hide SessionOf, Before, EndsFlow;
  }

  /** What the tail of a packet's processing leaves of the prediction state. */
  lemma TailRemembers(built: State, k: SessionKey)
    requires k in built.sessions && k in built.prediction
    ensures var (asked, predicted) := ShouldPredict(built, k);
            var done := FinalizeIfNeeded(asked, k).0;
            && predicted == PredictionDue(built.sessions[k], built.prediction[k])
            && (!built.sessions[k].finished ==>
                  && k in done.prediction
                  && done.prediction[k] == (if predicted then PredictionState(built.sessions[k].packetCount, built.sessions[k].lastSeen)
                                            else built.prediction[k]))
            && forall x :: x != k && x in built.prediction ==> x in done.prediction && done.prediction[x] == built.prediction[x]
  {
    hide PredictionDue;
  }

  lemma OwnRemembers(k: SessionKey, st: State, v: Trace, p: Packet)
    requires Consistent(st) && Shows(k, st, v) && st.pending == [] && Remembers(k, st, v) && KeyOf(p) == k
    requires AllOf(k, Last(Take(Tick(v, p.timestamp), p).segs))
    ensures Remembers(k, Process(st, p).state, Take(Tick(v, p.timestamp), p))
    ensures NonEmpty(Take(Tick(v, p.timestamp), p).segs)
    ensures Process(st, p).predicted <==> Fires(Last(Take(Tick(v, p.timestamp), p).segs))
  {
    hide AddPacket, Expire, ShouldPredict, FinalizeIfNeeded, PredictionDue, EndsFlow, SessionOf, Before, FiresAfter, OpenSegment,
         Tick, StaleSegment, AllOf, Consistent;
    var now := p.timestamp;
    var expired, t := Expire(st, now), Tick(v, now);
    ExpireConsistent(st, now);
    ExpireShows(k, st, v, now);
    ExpireRemembers(k, st, v, now);
    AddPacketShows(k, expired, t, p);
    AddPacketRemembers(k, expired, t, p);
    TakeIsNonEmpty(t, p);
    TakeEnds(t, p);
    var built, seg := ProcessPacket(st, p).(pending := []), Last(Take(t, p).segs);
    TailRemembers(built, k);
    AllOfMeans(k, seg);
    SegmentSession(k, seg);
    DueIffFires(k, seg, built.prediction[k]);
  }

  lemma TakeEnds(v: Trace, p: Packet)
    requires NonEmpty(v.segs)
    ensures Take(v, p).segs != [] && Last(Take(v, p).segs) != [] && Last(Last(Take(v, p).segs)) == p
    ensures Take(v, p).live == !EndsFlow(p)
  {
    hide EndsFlow;
  }

  ghost predicate AllOf(k: SessionKey, seg: seq<Packet>) {
    forall i :: 0 <= i < |seg| ==> KeyOf(seg[i]) == k
  }

  lemma AllOfMeans(k: SessionKey, seg: seq<Packet>)
    requires AllOf(k, seg)
    ensures forall i :: 0 <= i < |seg| ==> KeyOf(seg[i]) == k
  {
  }

  lemma OthersRemember(k: SessionKey, st: State, v: Trace, p: Packet)
    requires Consistent(st) && Shows(k, st, v) && Remembers(k, st, v) && KeyOf(p) != k
    ensures Remembers(k, Process(st, p).state, Tick(v, p.timestamp))
  {
    hide Expire, ShouldPredict, FinalizeIfNeeded, PredictionDue, SessionOf, LastAsked, OpenSegment, Tick, UpdateSession, Consistent, NonEmpty;
    var expired, q := Expire(st, p.timestamp), KeyOf(p);
    ExpireConsistent(st, p.timestamp);
    ExpireRemembers(k, st, v, p.timestamp);
    AddPacketConsistent(expired, p);
    AddPacketOpens(expired, p);
    ConsistentPrediction(AddPacket(expired, p));
    TailRemembers(ProcessPacket(st, p).(pending := []), q);
  }

  lemma ConsistentPrediction(st: State)
    requires Consistent(st)
    ensures st.prediction.Keys == st.sessions.Keys
  {
  }

  lemma LastIsAllOf(k: SessionKey, ps: seq<Packet>)
    requires ps != [] && KeyOf(Last(ps)) == k
    ensures AllOf(k, Last(Take(Tick(Project(k, ps[..|ps| - 1]), Last(ps).timestamp), Last(ps)).segs))
    ensures Project(k, ps) == Take(Tick(Project(k, ps[..|ps| - 1]), Last(ps).timestamp), Last(ps))
  {
    hide Take, Tick;
    SegmentsWellShaped(k, ps);
    TakeEnds(Tick(Project(k, ps[..|ps| - 1]), Last(ps).timestamp), Last(ps));
    ShapedIsAllOf(k, Project(k, ps).segs, |Project(k, ps).segs| - 1);
  }

  lemma ShapedIsAllOf(k: SessionKey, segs: seq<seq<Packet>>, i: nat)
    requires AllWellShaped(k, segs) && i < |segs|
    ensures AllOf(k, segs[i])
  {
    hide EndsFlow;
    assert WellShaped(k, segs[i]);
  }

  lemma {:induction false} RunRemembers(k: SessionKey, ps: seq<Packet>)
    ensures Remembers(k, Run(ps).state, Project(k, ps))
  {
    hide Process, Remembers, Take, Tick, Shows, Consistent;
    if ps == [] {
      NothingRemembered(k);
    } else {
      var init, p := ps[..|ps| - 1], Last(ps);
      RunRemembers(k, init);
      RunConsistent(init);
      FlowProjection(k, init);
      if KeyOf(p) == k {
        LastIsAllOf(k, ps);
        OwnRemembers(k, Run(init).state, Project(k, init), p);
      } else {
        OthersRemember(k, Run(init).state, Project(k, init), p);
      }
    }
  }

  lemma NothingRemembered(k: SessionKey)
    ensures Remembers(k, EMPTY, Trace([], false))
  {
  }

  /** In every run, for every packet: it triggers a prediction if and only if it fires one in the session it is
      in, seen as a list of packets. */
  lemma PredictsExactly(ps: seq<Packet>, p: Packet)
    ensures Project(KeyOf(p), ps + [p]).segs != []
    ensures Process(Run(ps).state, p).predicted <==> Fires(Last(Project(KeyOf(p), ps + [p]).segs))
  {
    hide Process, Remembers, Take, Tick, Shows, Consistent, Fires, Run;
    var k := KeyOf(p);
    assert (ps + [p])[..|ps|] == ps;
    RunRemembers(k, ps);
    RunConsistent(ps);
    FlowProjection(k, ps);
    LastIsAllOf(k, ps + [p]);
    TakeEnds(Tick(Project(k, ps), p.timestamp), p);
    OwnRemembers(k, Run(ps).state, Project(k, ps), p);
  }

  /** No prediction before the fifth packet or the first second, except at the end of the flow. */
  lemma NeverTooEarly(ps: seq<Packet>, p: Packet)
    requires Process(Run(ps).state, p).predicted && !EndsFlow(p)
    ensures var seg := Last(Project(KeyOf(p), ps + [p]).segs);
            |seg| >= 5 && p.timestamp - seg[0].timestamp >= 1.0
  {
    hide Process, Run, EndsFlow, Before, Take, Tick;
    PredictsExactly(ps, p);
    LastIsAllOf(KeyOf(p), ps + [p]);
    assert (ps + [p])[..|ps|] == ps;
    TakeEnds(Tick(Project(KeyOf(p), ps), p.timestamp), p);
  }
}
