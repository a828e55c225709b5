/** What the sessionizer guarantees over whole packet streams. */
module FlowSegmentation {
  import opened Options
  import opened Packets
  import opened TrafficSession
  import opened Sessionizer

  // ----- Consistency of the builder's containers

  ghost predicate NoDuplicates(order: seq<SessionKey>) {
    forall i, j :: 0 <= i < j < |order| ==> order[i] != order[j]
  }

  ghost predicate Consistent(st: State) {
    && NoDuplicates(st.order)
    && (forall k :: k in st.order <==> k in st.sessions)
    && st.prediction.Keys == st.sessions.Keys
    && (forall k :: k in st.sessions ==> st.sessions[k].key == k)
  }

  lemma {:induction false} DropIs(order: seq<SessionKey>, gone: set<SessionKey>)
    requires NoDuplicates(order)
    ensures var r := Drop(order, gone);
            NoDuplicates(r) && forall k :: k in r <==> k in order && k !in gone
  {
    if order != [] {
      var init, k := order[..|order| - 1], order[|order| - 1];
      DropIs(init, gone);
      assert order == init + [k];
      assert k !in init;
    }
  }

  lemma ExpireConsistent(st: State, now: real)
    requires Consistent(st)
    ensures Consistent(Expire(st, now))
    ensures forall k :: k in Expire(st, now).sessions <==> k in st.sessions && !StaleAt(st.sessions[k], now)
    ensures forall k :: k in Expire(st, now).sessions ==> Expire(st, now).sessions[k] == st.sessions[k]
  {
    DropIs(st.order, StaleKeys(st.sessions, now));
  }

  lemma AddPacketConsistent(st: State, p: Packet)
    requires Consistent(st)
    ensures Consistent(AddPacket(st, p))
  {
    hide HasFlag, CountFlags, UpdateForward, EndsFlow;
  }

  lemma ShouldPredictConsistent(st: State, k: SessionKey)
    requires Consistent(st)
    ensures Consistent(ShouldPredict(st, k).0)
  {
    hide PredictionDue;
  }

  lemma FinalizeConsistent(st: State, k: SessionKey)
    requires Consistent(st)
    ensures Consistent(FinalizeIfNeeded(st, k).0)
  {
    DropIs(st.order, {k});
  }

  lemma ProcessConsistent(st: State, p: Packet)
    requires Consistent(st)
    ensures Consistent(Process(st, p).state)
  {
    hide AddPacket, Expire, ShouldPredict, FinalizeIfNeeded;
    ExpireConsistent(st, p.timestamp);
    AddPacketConsistent(Expire(st, p.timestamp), p);
    var built := ProcessPacket(st, p).(pending := []);
    ShouldPredictConsistent(built, KeyOf(p));
    FinalizeConsistent(ShouldPredict(built, KeyOf(p)).0, KeyOf(p));
  }

  /** Session keys, insertion order and prediction-state keys always coincide, and nothing is left pending
      between packets. */
  lemma {:induction false} RunConsistent(ps: seq<Packet>)
    ensures Consistent(Run(ps).state) && Run(ps).state.pending == []
  {
    if ps != [] {
      hide AddPacket, Expire, Consistent;
      RunConsistent(ps[..|ps| - 1]);
      ProcessConsistent(Run(ps[..|ps| - 1]).state, ps[|ps| - 1]);
    }
  }

  // ----- One flow's view of a stream

  /** The packets of flow `k`, in arrival order. */
  function Flow(k: SessionKey, ps: seq<Packet>): seq<Packet> {
    if ps == [] then []
    else Flow(k, ps[..|ps| - 1]) + if KeyOf(ps[|ps| - 1]) == k then [ps[|ps| - 1]] else []
  }

  /** The packets of one flow grouped into sessions; `live` says that the last group is still active. */
  datatype Trace = Trace(segs: seq<seq<Packet>>, live: bool)

  predicate StaleSegment(seg: seq<Packet>, now: real)
    requires seg != []
  {
    || now - seg[|seg| - 1].timestamp >= 30.0
    || now - seg[0].timestamp >= 120.0
  }

  predicate NonEmpty(segs: seq<seq<Packet>>) {
    forall i :: 0 <= i < |segs| ==> segs[i] != []
  }

  function Last<T>(s: seq<T>): T
    requires s != []
  {
    s[|s| - 1]
  }

  function Tick(v: Trace, now: real): (t: Trace)
    requires NonEmpty(v.segs)
    ensures t.segs == v.segs
  {
    if v.live && v.segs != [] && StaleSegment(Last(v.segs), now) then v.(live := false) else v
  }

  function ExtendLast(segs: seq<seq<Packet>>, p: Packet): seq<seq<Packet>>
    requires segs != []
  {
    segs[..|segs| - 1] + [Last(segs) + [p]]
  }

  function Take(v: Trace, p: Packet): Trace {
    Trace(if v.live && v.segs != [] then ExtendLast(v.segs, p) else v.segs + [[p]], !EndsFlow(p))
  }

  function Advance(k: SessionKey, v: Trace, p: Packet): (w: Trace)
    requires NonEmpty(v.segs)
    ensures NonEmpty(w.segs)
  {
    var t := Tick(v, p.timestamp);
    if KeyOf(p) == k then Take(t, p) else t
  }

  /** How the stream `ps` cuts flow `k`: of the other flows only the packet times matter. */
  function Project(k: SessionKey, ps: seq<Packet>): (v: Trace)
    ensures NonEmpty(v.segs)
  {
    if ps == [] then Trace([], false)
    else
      Advance(k, Project(k, ps[..|ps| - 1]), ps[|ps| - 1])
  }

  function SessionsOf(segs: seq<seq<Packet>>): seq<Session>
    requires NonEmpty(segs)
  {
    seq(|segs|, i requires 0 <= i < |segs| => SessionOf(segs[i]))
  }

  /** The sessions of flow `k` among finalized records, in emission order. */
  function EmittedFor(k: SessionKey, items: seq<Finalized>): seq<Session> {
    if items == [] then []
    else EmittedFor(k, items[..|items| - 1]) + if Last(items).key == k then [Last(items).session] else []
  }

  function ActiveFor(k: SessionKey, st: State): seq<Session> {
    if k in st.sessions then [st.sessions[k]] else []
  }

  /** Everything a run made of flow `k`: emitted sessions in order, then the active one if there is one. */
  function SessionsFor(k: SessionKey, r: Outcome): seq<Session> {
    EmittedFor(k, r.emitted) + ActiveFor(k, r.state)
  }

  lemma {:induction false} EmittedForConcat(k: SessionKey, a: seq<Finalized>, b: seq<Finalized>)
    ensures EmittedFor(k, a + b) == EmittedFor(k, a) + EmittedFor(k, b)
  {
    if b == [] {
      assert a + b == a;
    } else {
      EmittedForConcat(k, a, b[..|b| - 1]);
      assert (a + b)[..|a + b| - 1] == a + b[..|b| - 1];
    }
  }

  lemma EmittedForOne(k: SessionKey, item: Finalized)
    ensures EmittedFor(k, [item]) == if item.key == k then [item.session] else []
  {
    assert [item][..0] == [];
  }

  lemma StaleItemFor(k: SessionKey, x: SessionKey, sessions: map<SessionKey, Session>, now: real)
    ensures EmittedFor(k, StaleItem(x, sessions, now)) ==
            if k == x && StaleKey(sessions, k, now) then [sessions[k]] else []
  {
    if StaleKey(sessions, x, now) {
      EmittedForOne(k, Finalized(sessions[x], x, StaleReason(sessions[x], now)));
    }
  }

  lemma NoDuplicatesSnoc(order: seq<SessionKey>)
    requires order != [] && NoDuplicates(order)
    ensures var init := order[..|order| - 1];
            && NoDuplicates(init)
            && Last(order) !in init
            && forall k :: k in order <==> k in init || k == Last(order)
  {
    assert order == order[..|order| - 1] + [Last(order)];
  }

  lemma {:induction false} StaleItemsFor(k: SessionKey, order: seq<SessionKey>, sessions: map<SessionKey, Session>, now: real)
    requires NoDuplicates(order)
    ensures EmittedFor(k, StaleItems(order, sessions, now)) ==
            if k in order && StaleKey(sessions, k, now) then [sessions[k]] else []
  {
    if order != [] {
      hide NoDuplicates, StaleItem, EmittedFor, StaleAt;
      var init, x := order[..|order| - 1], Last(order);
      NoDuplicatesSnoc(order);
      StaleItemsFor(k, init, sessions, now);
      EmittedForConcat(k, StaleItems(init, sessions, now), StaleItem(x, sessions, now));
      StaleItemFor(k, x, sessions, now);
    } else {
      assert EmittedFor(k, []) == [];
    }
  }

  // ----- The run, seen from one flow, is its projection

  /** The segments that are no longer active. */
  function Closed(v: Trace): seq<seq<Packet>> {
    if v.live && v.segs != [] then v.segs[..|v.segs| - 1] else v.segs
  }

  /** The sessions of the closed segments. */
  function ClosedSessions(v: Trace): seq<Session>
    requires NonEmpty(v.segs)
  {
    SessionsOf(Closed(v))
  }

  ghost predicate OpenSegment(k: SessionKey, seg: seq<Packet>) {
    && seg != []
    && (forall i :: 0 <= i < |seg| ==> KeyOf(seg[i]) == k && !EndsFlow(seg[i]))
  }

  /** State `st` holds for flow `k` exactly what trace `v` says. */
  ghost predicate Shows(k: SessionKey, st: State, v: Trace) {
    && NonEmpty(v.segs)
    && (k in st.sessions <==> v.live)
    && (v.live ==> v.segs != [] && OpenSegment(k, Last(v.segs)) && st.sessions[k] == SessionOf(Last(v.segs)))
  }

  lemma OpenSegmentSession(k: SessionKey, seg: seq<Packet>)
    requires OpenSegment(k, seg)
    ensures var s := SessionOf(seg);
            && s.key == k && !s.finished
            && s.lastSeen == Last(seg).timestamp && s.startTime == seg[0].timestamp
  {
    SessionRecordsItsPackets(seg);
  }

  lemma ExpireShows(k: SessionKey, st: State, v: Trace, now: real)
    requires Consistent(st) && Shows(k, st, v)
    ensures Shows(k, Expire(st, now), Tick(v, now))
    ensures StaleKey(st.sessions, k, now) == (v.live && !Tick(v, now).live)
  {
    hide SessionOf, EndsFlow;
    ExpireConsistent(st, now);
    if v.live {
      OpenSegmentSession(k, Last(v.segs));
    }
  }

  lemma SessionsOfSnoc(segs: seq<seq<Packet>>, seg: seq<Packet>)
    requires NonEmpty(segs) && seg != []
    ensures NonEmpty(segs + [seg])
    ensures SessionsOf(segs + [seg]) == SessionsOf(segs) + [SessionOf(seg)]
  {
    hide SessionOf;
  }

  lemma ClosedIsNonEmpty(v: Trace)
    requires NonEmpty(v.segs)
    ensures NonEmpty(Closed(v))
    ensures v.live && v.segs != [] ==> v.segs == Closed(v) + [Last(v.segs)] && Last(v.segs) != []
  {
  }

  lemma ExpireEmits(k: SessionKey, st: State, v: Trace, now: real)
    requires Consistent(st) && Shows(k, st, v) && st.pending == []
    ensures ClosedSessions(Tick(v, now)) == ClosedSessions(v) + EmittedFor(k, Expire(st, now).pending)
  {
    ExpireShows(k, st, v, now);
    StaleItemsFor(k, st.order, st.sessions, now);
    hide SessionOf, SessionsOf, OpenSegment, EmittedFor, StaleItems, StaleKeys, Drop, StaleSegment, StaleAt, NoDuplicates, NonEmpty;
    assert Expire(st, now).pending == StaleItems(st.order, st.sessions, now);
    ClosedIsNonEmpty(v);
    if v.live {
      SessionsOfSnoc(Closed(v), Last(v.segs));
    }
  }

  lemma AddPacketShows(k: SessionKey, st: State, v: Trace, p: Packet)
    requires Consistent(st) && Shows(k, st, v)
    ensures KeyOf(p) != k ==> Shows(k, AddPacket(st, p), v)
    ensures KeyOf(p) == k ==>
              var t := Take(v, p);
              && k in AddPacket(st, p).sessions
              && AddPacket(st, p).sessions[k] == SessionOf(Last(t.segs))
              && AddPacket(st, p).sessions[k].finished == EndsFlow(p)
              && t.segs[..|t.segs| - 1] == Closed(v)
              && (!EndsFlow(p) ==> OpenSegment(k, Last(t.segs)))
  {
    hide EndsFlow, UpdateForward, CountFlags;
    if KeyOf(p) == k {
      var seg := Last(Take(v, p).segs);
      if v.live {
        assert seg[..|seg| - 1] == Last(v.segs);
        OpenSegmentSession(k, Last(v.segs));
      }
    }
  }

  /** Asking for a prediction and finalizing: the packet's own session goes exactly when it has ended. */
  lemma TailKeeps(built: State, k: SessionKey)
    requires k in built.sessions
    ensures var (st, ended) := FinalizeIfNeeded(ShouldPredict(built, k).0, k);
            && (forall x :: x != k ==> (x in st.sessions <==> x in built.sessions))
            && (forall x :: x != k && x in st.sessions ==> st.sessions[x] == built.sessions[x])
            && (k in st.sessions <==> !built.sessions[k].finished)
            && (k in st.sessions ==> st.sessions[k] == built.sessions[k])
            && ended == (if built.sessions[k].finished then Some(Finalized(built.sessions[k], k, FlowEnd)) else None)
  {
    hide PredictionDue;
  }

  lemma AddPacketOpens(st: State, p: Packet)
    ensures KeyOf(p) in AddPacket(st, p).sessions
    ensures AddPacket(st, p).pending == st.pending
  {
  }

  lemma EmittedAtEnd(k: SessionKey, drained: seq<Finalized>, ended: Option<Finalized>)
    ensures EmittedFor(k, drained + if ended.Some? then [ended.value] else []) ==
            EmittedFor(k, drained) + if ended.Some? && ended.value.key == k then [ended.value.session] else []
  {
    if ended.Some? {
      EmittedForConcat(k, drained, [ended.value]);
      EmittedForOne(k, ended.value);
    } else {
      assert drained + [] == drained;
    }
  }

  /** A packet of another flow: only the clock matters to flow `k`. */
  lemma OthersShow(k: SessionKey, st: State, v: Trace, p: Packet)
    requires Consistent(st) && Shows(k, st, v) && st.pending == [] && KeyOf(p) != k
    ensures Shows(k, Process(st, p).state, Tick(v, p.timestamp))
    ensures EmittedFor(k, Process(st, p).emitted) == EmittedFor(k, Expire(st, p.timestamp).pending)
  {
    hide AddPacket, Expire, ShouldPredict, FinalizeIfNeeded, Tick, SessionOf, OpenSegment, EmittedFor, Consistent, NonEmpty;
    var q, expired := KeyOf(p), Expire(st, p.timestamp);
    ExpireConsistent(st, p.timestamp);
    ExpireShows(k, st, v, p.timestamp);
    AddPacketShows(k, expired, Tick(v, p.timestamp), p);
    AddPacketOpens(expired, p);
    var built := ProcessPacket(st, p).(pending := []);
    TailKeeps(built, q);
    EmittedAtEnd(k, expired.pending, FinalizeIfNeeded(ShouldPredict(built, q).0, q).1);
    assert EmittedFor(k, expired.pending) + [] == EmittedFor(k, expired.pending);
  }

  /** A packet of flow `k` itself: it joins or opens the last session, and ends it with FIN or RST. */
  lemma OwnShows(k: SessionKey, st: State, v: Trace, p: Packet)
    requires Consistent(st) && Shows(k, st, v) && st.pending == [] && KeyOf(p) == k
    ensures var w := Take(Tick(v, p.timestamp), p);
            && Shows(k, Process(st, p).state, w)
            && EmittedFor(k, Process(st, p).emitted)
                 == EmittedFor(k, Expire(st, p.timestamp).pending) + if EndsFlow(p) then [SessionOf(Last(w.segs))] else []
  {
    hide AddPacket, Expire, ShouldPredict, FinalizeIfNeeded, EndsFlow, Tick, SessionOf, OpenSegment, EmittedFor, Consistent, NonEmpty;
    var expired, t := Expire(st, p.timestamp), Tick(v, p.timestamp);
    ExpireConsistent(st, p.timestamp);
    ExpireShows(k, st, v, p.timestamp);
    AddPacketShows(k, expired, t, p);
    AddPacketOpens(expired, p);
    var built := ProcessPacket(st, p).(pending := []);
    TailKeeps(built, k);
    EmittedAtEnd(k, expired.pending, FinalizeIfNeeded(ShouldPredict(built, k).0, k).1);
    TakeIsNonEmpty(t, p);
  }

  lemma TakeIsNonEmpty(v: Trace, p: Packet)
    requires NonEmpty(v.segs)
    ensures var w := Take(v, p);
            && NonEmpty(w.segs) && w.segs != [] && Last(w.segs) != []
            && w.segs == Closed(v) + [Last(w.segs)]
            && Closed(w) == (if EndsFlow(p) then w.segs else Closed(v))
  {
    hide EndsFlow;
  }

  lemma TakeCloses(v: Trace, p: Packet)
    requires NonEmpty(v.segs)
    ensures var w := Take(v, p);
            && NonEmpty(w.segs) && w.segs != [] && Last(w.segs) != []
            && ClosedSessions(w) == ClosedSessions(v) + if EndsFlow(p) then [SessionOf(Last(w.segs))] else []
  {
    TakeIsNonEmpty(v, p);
    ClosedIsNonEmpty(v);
    hide Take, Closed, SessionOf, SessionsOf, EndsFlow, NonEmpty;
    SessionsOfSnoc(Closed(v), Last(Take(v, p).segs));
    assert SessionsOf(Closed(v)) + [] == SessionsOf(Closed(v));
  }

  lemma ShowsNonEmpty(k: SessionKey, st: State, v: Trace)
    requires Shows(k, st, v)
    ensures NonEmpty(v.segs)
  {
  }

  /** One packet moves the state and the trace in step, and emits for flow `k` what the trace closes. */
  lemma ProcessShows(k: SessionKey, st: State, v: Trace, p: Packet)
    requires Consistent(st) && Shows(k, st, v) && st.pending == []
    ensures Shows(k, Process(st, p).state, Advance(k, v, p))
    ensures ClosedSessions(Advance(k, v, p)) == ClosedSessions(v) + EmittedFor(k, Process(st, p).emitted)
  {
    hide Process, Expire, Tick, Take, ClosedSessions, KeyOf, Shows, SessionOf, EmittedFor, Consistent, NonEmpty, EndsFlow;
    ShowsNonEmpty(k, st, v);
    var t, expired := Tick(v, p.timestamp), EmittedFor(k, Expire(st, p.timestamp).pending);
    ExpireEmits(k, st, v, p.timestamp);
    if KeyOf(p) == k {
      OwnShows(k, st, v, p);
      TakeCloses(t, p);
      var ended := if EndsFlow(p) then [SessionOf(Last(Take(t, p).segs))] else [];
      assert (ClosedSessions(v) + expired) + ended == ClosedSessions(v) + (expired + ended);
    } else {
      OthersShow(k, st, v, p);
    }
  }

  /** For every packet stream, in any time order, what the processor makes of flow `k` is what the
      projection of the stream onto that flow makes of it. */
  lemma {:induction false} FlowProjection(k: SessionKey, ps: seq<Packet>)
    ensures var v, r := Project(k, ps), Run(ps);
            && Shows(k, r.state, v)
            && EmittedFor(k, r.emitted) == ClosedSessions(v)
            && SessionsFor(k, r) == SessionsOf(v.segs)
  {
    hide Process, Advance, Shows;
    if ps == [] {
      EmptyShows(k);
    } else {
      var init, p := ps[..|ps| - 1], ps[|ps| - 1];
      FlowProjection(k, init);
      RunConsistent(init);
      ProcessShows(k, Run(init).state, Project(k, init), p);
      EmittedForConcat(k, Run(init).emitted, Process(Run(init).state, p).emitted);
    }
    ShowsSessions(k, Run(ps), Project(k, ps));
  }

  lemma EmptyShows(k: SessionKey)
    ensures Shows(k, EMPTY, Trace([], false))
  {
  }

  lemma ShowsSessions(k: SessionKey, r: Outcome, v: Trace)
    requires Shows(k, r.state, v) && EmittedFor(k, r.emitted) == ClosedSessions(v)
    ensures SessionsFor(k, r) == SessionsOf(v.segs)
  {
    if v.live {
      assert v.segs == Closed(v) + [Last(v.segs)];
    }
  }
}
