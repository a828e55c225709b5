/** In which order expired sessions of different flows are handed on. */
module EmissionOrder {
  import opened Options
  import opened Packets
  import opened TrafficSession
  import opened Sessionizer
  import opened FlowSegmentation

  /** The position in the stream at which the last session of flow `k` was opened. */
  function OpenedAt(k: SessionKey, ps: seq<Packet>): nat {
    if ps == [] then 0
    else
      var init := ps[..|ps| - 1];
      if |Project(k, ps).segs| > |Project(k, init).segs| then |init| else OpenedAt(k, init)
  }

  /** The keys are in the order in which their sessions were opened. */
  ghost predicate ByOpening(order: seq<SessionKey>, ps: seq<Packet>) {
    && (forall i, j :: 0 <= i < j < |order| ==> OpenedAt(order[i], ps) < OpenedAt(order[j], ps))
    && (forall i :: 0 <= i < |order| ==> OpenedAt(order[i], ps) < |ps|)
  }

  lemma ByOpeningSnoc(order: seq<SessionKey>, k: SessionKey, ps: seq<Packet>)
    ensures ByOpening(order + [k], ps) <==>
              ByOpening(order, ps) && OpenedAt(k, ps) < |ps| && forall x :: x in order ==> OpenedAt(x, ps) < OpenedAt(k, ps)
  {
    hide OpenedAt;
    var all := order + [k];
    assert all[|order|] == k && forall i :: 0 <= i < |order| ==> all[i] == order[i];
    if ByOpening(all, ps) {
      assert OpenedAt(all[|order|], ps) < |ps|;
      forall x | x in order ensures OpenedAt(x, ps) < OpenedAt(k, ps) {
        var i :| 0 <= i < |order| && order[i] == x;
        assert OpenedAt(all[i], ps) < OpenedAt(all[|order|], ps);
      }
      assert ByOpening(order, ps) by { PrefixByOpening(order, k, ps); }
    } else if ByOpening(order, ps) {
      assert forall i :: 0 <= i < |order| ==> order[i] in order;
    }
  }

  lemma PrefixByOpening(order: seq<SessionKey>, k: SessionKey, ps: seq<Packet>)
    requires ByOpening(order + [k], ps)
    ensures ByOpening(order, ps)
  {
    hide OpenedAt;
    var all := order + [k];
    forall i, j | 0 <= i < j < |order| ensures OpenedAt(order[i], ps) < OpenedAt(order[j], ps) {
      assert OpenedAt(all[i], ps) < OpenedAt(all[j], ps);
    }
    forall i | 0 <= i < |order| ensures OpenedAt(order[i], ps) < |ps| {
      assert OpenedAt(all[i], ps) < |ps|;
    }
  }

  lemma {:induction false} DropKeepsOrder(order: seq<SessionKey>, gone: set<SessionKey>, ps: seq<Packet>)
    requires ByOpening(order, ps)
    ensures ByOpening(Drop(order, gone), ps)
    ensures forall k :: k in Drop(order, gone) ==> k in order
  {
    hide OpenedAt, ByOpening;
    if order != [] {
      var init, k := order[..|order| - 1], order[|order| - 1];
      assert order == init + [k];
      ByOpeningSnoc(init, k, ps);
      DropKeepsOrder(init, gone, ps);
      ByOpeningSnoc(Drop(init, gone), k, ps);
      assert Drop(init, gone) + [] == Drop(init, gone);
    }
  }

  lemma OtherOpened(k: SessionKey, ps: seq<Packet>, p: Packet)
    ensures KeyOf(p) != k ==> OpenedAt(k, ps + [p]) == OpenedAt(k, ps)
    ensures KeyOf(p) == k ==>
              var t := Tick(Project(k, ps), p.timestamp);
              OpenedAt(k, ps + [p]) == if t.live && t.segs != [] then OpenedAt(k, ps) else |ps|
  {
    hide EndsFlow, StaleSegment;
    assert (ps + [p])[..|ps|] == ps;
  }

  /** Later packets keep the order of the sessions that they do not open. */
  lemma OrderGrows(order: seq<SessionKey>, ps: seq<Packet>, p: Packet)
    requires ByOpening(order, ps)
    requires KeyOf(p) in order ==> Tick(Project(KeyOf(p), ps), p.timestamp).live
    requires KeyOf(p) in order ==> Project(KeyOf(p), ps).segs != []
    ensures ByOpening(order, ps + [p])
  {
    hide OpenedAt, KeyOf;
    forall i | 0 <= i < |order| ensures OpenedAt(order[i], ps + [p]) == OpenedAt(order[i], ps) {
      OtherOpened(order[i], ps, p);
    }
  }

  lemma OpensLast(order: seq<SessionKey>, ps: seq<Packet>, p: Packet)
    requires ByOpening(order, ps) && KeyOf(p) !in order && !Tick(Project(KeyOf(p), ps), p.timestamp).live
    ensures ByOpening(order + [KeyOf(p)], ps + [p])
  {
    hide OpenedAt;
    OtherOpened(KeyOf(p), ps, p);
    OrderGrows(order, ps, p);
    forall i | 0 <= i < |order| ensures OpenedAt(order[i], ps + [p]) < |ps| {
      OtherOpened(order[i], ps, p);
    }
  }

  /** How the insertion order changes with one packet. */
  lemma ProcessOrder(st: State, p: Packet)
    requires Consistent(st)
    ensures var kept, k := Drop(st.order, StaleKeys(st.sessions, p.timestamp)), KeyOf(p);
            var grown := if k in Expire(st, p.timestamp).sessions then kept else kept + [k];
            Process(st, p).state.order == grown || Process(st, p).state.order == Drop(grown, {k})
  {
    hide StaleItems, PredictionDue, UpdateSession, StaleKeys, Drop, EndsFlow;
  }

  lemma {:induction false} RunByOpening(ps: seq<Packet>)
    ensures ByOpening(Run(ps).state.order, ps)
  {
    hide Process, ByOpening, Drop, Expire, Consistent, Shows, Tick, StaleKeys, KeyOf;
    if ps == [] {
      NothingOpened();
    } else {
      var init, p := ps[..|ps| - 1], ps[|ps| - 1];
      assert ps == init + [p];
      var st, k := Run(init).state, KeyOf(p);
      RunByOpening(init);
      RunConsistent(init);
      FlowProjection(k, init);
      ExpireShows(k, st, Project(k, init), p.timestamp);
      ProcessOrder(st, p);
      StepByOpening(st, Project(k, init), init, p);
    }
  }

  lemma NothingOpened()
    ensures ByOpening(EMPTY.order, [])
  {
  }

  lemma ShowsLive(k: SessionKey, st: State, v: Trace)
    requires Shows(k, st, v)
    ensures k in st.sessions <==> v.live
    ensures v.live ==> v.segs != []
  {
  }

  lemma ConsistentOrder(st: State, k: SessionKey)
    requires Consistent(st)
    ensures k in st.order <==> k in st.sessions
  {
  }

  lemma StepByOpening(st: State, v: Trace, ps: seq<Packet>, p: Packet)
    requires Consistent(st) && ByOpening(st.order, ps) && v == Project(KeyOf(p), ps)
    requires Shows(KeyOf(p), Expire(st, p.timestamp), Tick(v, p.timestamp))
    ensures var kept, k := Drop(st.order, StaleKeys(st.sessions, p.timestamp)), KeyOf(p);
            var grown := if k in Expire(st, p.timestamp).sessions then kept else kept + [k];
            ByOpening(grown, ps + [p]) && ByOpening(Drop(grown, {k}), ps + [p])
  {
    var expired, k := Expire(st, p.timestamp), KeyOf(p);
    assert expired.order == Drop(st.order, StaleKeys(st.sessions, p.timestamp));
    hide ByOpening, Drop, Expire, Consistent, Shows, Tick, StaleKeys, KeyOf, OpenedAt;
    ExpireConsistent(st, p.timestamp);
    DropKeepsOrder(st.order, StaleKeys(st.sessions, p.timestamp), ps);
    ShowsLive(k, expired, Tick(v, p.timestamp));
    ConsistentOrder(expired, k);
    if k in expired.sessions {
      OrderGrows(expired.order, ps, p);
      DropKeepsOrder(expired.order, {k}, ps + [p]);
    } else {
      OpensLast(expired.order, ps, p);
      DropKeepsOrder(expired.order + [k], {k}, ps + [p]);
    }
  }

  /** The records are in the order in which their sessions were opened. */
  ghost predicate ItemsByOpening(items: seq<Finalized>, ps: seq<Packet>) {
    forall i, j :: 0 <= i < j < |items| ==> OpenedAt(items[i].key, ps) < OpenedAt(items[j].key, ps)
  }

  lemma ItemsSnoc(items: seq<Finalized>, item: Finalized, ps: seq<Packet>)
    requires ItemsByOpening(items, ps) && forall x :: x in items ==> OpenedAt(x.key, ps) < OpenedAt(item.key, ps)
    ensures ItemsByOpening(items + [item], ps)
  {
    hide OpenedAt;
    assert forall i :: 0 <= i < |items| ==> items[i] in items;
  }

  lemma {:induction false} StaleItemsByOpening(order: seq<SessionKey>, sessions: map<SessionKey, Session>, now: real, ps: seq<Packet>)
    requires ByOpening(order, ps)
    ensures ItemsByOpening(StaleItems(order, sessions, now), ps)
    ensures forall item :: item in StaleItems(order, sessions, now) ==> item.key in order && item.reason != FlowEnd
  {
    hide OpenedAt, StaleAt, IdleAt, ByOpening;
    if order != [] {
      var init, k := order[..|order| - 1], order[|order| - 1];
      assert order == init + [k];
      ByOpeningSnoc(init, k, ps);
      StaleItemsByOpening(init, sessions, now, ps);
      var items := StaleItems(init, sessions, now);
      if StaleKey(sessions, k, now) {
        ItemsSnoc(items, Finalized(sessions[k], k, StaleReason(sessions[k], now)), ps);
      } else {
        assert items + [] == items;
      }
    }
  }

  /** With each packet of any stream, the expired sessions are handed on in the order in which they were opened,
      and the packet's own session, if it ended, comes last. */
  lemma ExpiredInOpeningOrder(ps: seq<Packet>, p: Packet)
    ensures var emitted := Process(Run(ps).state, p).emitted;
            && (forall i :: 0 <= i < |emitted| - 1 ==> emitted[i].reason != FlowEnd)
            && (forall i, j :: 0 <= i < j < |emitted| && emitted[j].reason != FlowEnd ==>
                  OpenedAt(emitted[i].key, ps) < OpenedAt(emitted[j].key, ps))
  {
    hide Run, OpenedAt, ByOpening, StaleItems, Consistent, Process;
    var st := Run(ps).state;
    RunByOpening(ps);
    RunConsistent(ps);
    StaleItemsByOpening(st.order, st.sessions, p.timestamp, ps);
    EmittedParts(st, p);
    var items, emitted := StaleItems(st.order, st.sessions, p.timestamp), Process(st, p).emitted;
    assert forall i :: 0 <= i < |items| ==> emitted[i] == emitted[..|items|][i] && items[i] in items;
  }

  lemma EmittedParts(st: State, p: Packet)
    requires Consistent(st) && st.pending == []
    ensures var items, emitted := StaleItems(st.order, st.sessions, p.timestamp), Process(st, p).emitted;
            && |items| <= |emitted| <= |items| + 1 && emitted[..|items|] == items
            && (|emitted| > |items| ==> emitted[|items|].reason == FlowEnd)
  {
    hide StaleItems, PredictionDue, UpdateSession, StaleKeys, Drop, EndsFlow;
    AddPacketOpens(Expire(st, p.timestamp), p);
  }
}
