/** The sessionizer as it runs: dictionaries and lists updated in place, refining the value-level machine. */
module SessionBuilder {
  import opened Options
  import opened Packets
  import opened TrafficSession
  import opened Sessionizer
  import opened FlowSegmentation

  /** The records for the stale keys `stale`, each with its reason. */
  function Tagged(stale: seq<(SessionKey, Reason)>, sessions: map<SessionKey, Session>): seq<Finalized>
    requires forall i :: 0 <= i < |stale| ==> stale[i].0 in sessions
  {
    seq(|stale|, i requires 0 <= i < |stale| => Finalized(sessions[stale[i].0], stale[i].0, stale[i].1))
  }

  function KeysOf(stale: seq<(SessionKey, Reason)>): set<SessionKey> {
    set i | 0 <= i < |stale| :: stale[i].0
  }

  class SessionBuilder {
    var order: seq<SessionKey>
    var sessions: map<SessionKey, Session>
    var predictionState: map<SessionKey, PredictionState>
    var pendingFinalizations: seq<Finalized>

    ghost function View(): State
      reads this
    {
      State(order, sessions, predictionState, pendingFinalizations)
    }

    ghost predicate Valid()
      reads this
    {
      Consistent(View())
    }

    constructor ()
      ensures Valid() && View() == EMPTY
    {
      order, sessions, predictionState, pendingFinalizations := [], map[], map[], [];
    }

    /** The first loop of _expire_stale_sessions: which sessions are stale, and why. */
    method CollectStale(now: real) returns (stale: seq<(SessionKey, Reason)>)
      requires Valid()
      ensures forall i :: 0 <= i < |stale| ==> stale[i].0 in sessions
      ensures Tagged(stale, sessions) == StaleItems(order, sessions, now)
    {
      stale := [];
      for i := 0 to |order|
        invariant forall j :: 0 <= j < |stale| ==> stale[j].0 in sessions
        invariant Tagged(stale, sessions) == StaleItems(order[..i], sessions, now)
      {
        var key := order[i];
        assert key in sessions;
        hide Consistent, Tagged, StaleItems;
        var session := sessions[key];
        StaleItemsPrefix(order, i, sessions, now);
        if now - session.lastSeen >= IDLE_TIMEOUT_SECONDS {
          TaggedSnoc(stale, (key, IdleTimeout), sessions);
          stale := stale + [(key, IdleTimeout)];
        } else if now - session.startTime >= MAX_SESSION_DURATION_SECONDS {
          TaggedSnoc(stale, (key, MaxDuration), sessions);
          stale := stale + [(key, MaxDuration)];
        }
      }
      assert order[..|order|] == order;
    }

    /** Pops one stale session into the pending finalizations. */
    method PopStale(key: SessionKey, reason: Reason)
      modifies this
      ensures sessions == old(sessions) - {key} && predictionState == old(predictionState) - {key}
      ensures order == if key in old(sessions) then Drop(old(order), {key}) else old(order)
      ensures pendingFinalizations ==
              old(pendingFinalizations) + if key in old(sessions) then [Finalized(old(sessions)[key], key, reason)] else []
    {
      predictionState := predictionState - {key};
      if key in sessions {
        var staleSession := sessions[key];
        sessions := sessions - {key};
        order := Drop(order, {key});
        pendingFinalizations := pendingFinalizations + [Finalized(staleSession, key, reason)];
      }
    }

    /** The second loop of _expire_stale_sessions. */
    method PopAll(stale: seq<(SessionKey, Reason)>)
      requires forall j :: 0 <= j < |stale| ==> stale[j].0 in sessions
      requires forall j, l :: 0 <= j < l < |stale| ==> stale[j].0 != stale[l].0
      modifies this
      ensures order == Drop(old(order), KeysOf(stale))
      ensures sessions == old(sessions) - KeysOf(stale)
      ensures predictionState == old(predictionState) - KeysOf(stale)
      ensures pendingFinalizations == old(pendingFinalizations) + Tagged(stale, old(sessions))
    {
      ghost var before := View();
      hide Tagged, KeysOf;
      PrefixStart(stale, before);
      for i := 0 to |stale|
        invariant order == Drop(before.order, KeysOf(stale[..i]))
        invariant sessions == before.sessions - KeysOf(stale[..i])
        invariant predictionState == before.prediction - KeysOf(stale[..i])
        invariant pendingFinalizations == before.pending + Tagged(stale[..i], before.sessions)
      {
        PrefixStep(stale, i, before);
        PopStale(stale[i].0, stale[i].1);
      }
      assert stale[..|stale|] == stale;
    }

    /** Moves every stale session to the pending finalizations. */
    method ExpireStaleSessions(now: real)
      requires Valid()
      modifies this
      ensures Valid()
      ensures View() == Expire(old(View()), now)
    {
      ExpireConsistent(View(), now);
      var stale := CollectStale(now);
      StaleTags(View(), stale, now);
      hide Consistent, StaleItems, StaleKeys, Tagged, KeysOf;
      PopAll(stale);
    }

    method MarkSessionForFinalPrediction(key: SessionKey)
      modifies this`predictionState
      ensures predictionState == MarkForFinalPrediction(old(predictionState), key)
    {
      if key in predictionState {
        predictionState := predictionState[key := predictionState[key].(lastCount := 0)];
      }
    }

    method ProcessPacket(p: Packet) returns (session: Session)
      requires Valid()
      modifies this
      ensures Valid()
      ensures View() == Sessionizer.ProcessPacket(old(View()), p)
      ensures KeyOf(p) in sessions && session == sessions[KeyOf(p)]
    {
      hide Consistent, Expire, AddPacket;
      ExpireConsistent(View(), p.timestamp);
      AddPacketConsistent(Expire(View(), p.timestamp), p);
      ExpireStaleSessions(p.timestamp);
      session := AddToSession(p);
    }

    /** The part of process_packet after the sweep: open a session if there is none, and update it. */
    method AddToSession(p: Packet) returns (session: Session)
      modifies this
      ensures View() == AddPacket(old(View()), p)
      ensures KeyOf(p) in sessions && session == sessions[KeyOf(p)]
    {
      hide UpdateSession, NewSession;
      var key := KeyOf(p);
      if key !in sessions {
        order := order + [key];
        sessions := sessions[key := NewSession(p)];
        predictionState := predictionState[key := PredictionState(0, p.timestamp)];
      }
      session := UpdateSession(sessions[key], p);
      sessions := sessions[key := session];
      if session.finished {
        MarkSessionForFinalPrediction(key);
      }
    }

    method ShouldPredict(p: Packet) returns (due: bool)
      requires Valid()
      modifies this`predictionState
      ensures Valid()
      ensures (View(), due) == Sessionizer.ShouldPredict(old(View()), KeyOf(p))
    {
      ShouldPredictConsistent(View(), KeyOf(p));
      hide Consistent;
      var key := KeyOf(p);
      due := false;
      if key in sessions && key in predictionState {
        var session, last := sessions[key], predictionState[key];
        var ageTrigger := session.Duration() >= MIN_PREDICTION_AGE_SECONDS;
        var packetTrigger := session.packetCount >= MIN_PREDICTION_PACKET_COUNT;
        var periodicPacketTrigger := session.packetCount - last.lastCount >= PREDICT_EVERY_N_PACKETS;
        var periodicTimeTrigger := session.lastSeen - last.lastTime >= PREDICT_EVERY_M_SECONDS;
        var minimumReady := ageTrigger && packetTrigger;
        var firstReadyPrediction := minimumReady && last.lastCount == 0;
        var periodicPrediction := minimumReady && (periodicPacketTrigger || periodicTimeTrigger);
        due := firstReadyPrediction || periodicPrediction || session.finished;
        if due {
          predictionState := predictionState[key := PredictionState(session.packetCount, session.lastSeen)];
        }
      }
    }

    method FinalizeSessionIfNeeded(p: Packet) returns (ended: Option<Finalized>)
      requires Valid()
      modifies this
      ensures Valid()
      ensures (View(), ended) == FinalizeIfNeeded(old(View()), KeyOf(p))
    {
      FinalizeConsistent(View(), KeyOf(p));
      hide Consistent;
      var key := KeyOf(p);
      ended := None;
      if key in sessions {
        var session := sessions[key];
        if session.finished {
          predictionState := predictionState - {key};
          sessions := sessions - {key};
          order := Drop(order, {key});
          ended := Some(Finalized(session, key, FlowEnd));
        }
      }
    }

    method DrainFinalizedSessions() returns (finalized: seq<Finalized>)
      requires Valid()
      modifies this`pendingFinalizations
      ensures Valid()
      ensures finalized == old(pendingFinalizations)
      ensures View() == old(View()).(pending := [])
    {
      finalized := pendingFinalizations;
      pendingFinalizations := [];
    }
  }

  /** The session part of the packet processor. */
  class PacketProcessor {
    const builder: SessionBuilder

    constructor ()
      ensures fresh(builder) && builder.Valid() && builder.View() == EMPTY
    {
      builder := new SessionBuilder();
    }

    /** Build, drain, predict, finalize; `emitted` are the records handed on for final processing. */
    method Process(p: Packet) returns (emitted: seq<Finalized>, predicted: bool)
      requires builder.Valid()
      modifies builder
      ensures builder.Valid()
      ensures Outcome(builder.View(), emitted, predicted) == Sessionizer.Process(old(builder.View()), p)
    {
      hide ProcessPacket, ShouldPredict, FinalizeIfNeeded, Consistent;
      var session := builder.ProcessPacket(p);
      emitted := builder.DrainFinalizedSessions();
      predicted := builder.ShouldPredict(p);
      var ended := builder.FinalizeSessionIfNeeded(p);
      if ended.Some? {
        emitted := emitted + [ended.value];
      }
    }
  }

  // ----- Lemmas the loops need

  ghost predicate HasKey(items: seq<Finalized>, k: SessionKey) {
    exists i :: 0 <= i < |items| && items[i].key == k
  }

  ghost predicate DistinctKeys(items: seq<Finalized>) {
    forall i, j :: 0 <= i < j < |items| ==> items[i].key != items[j].key
  }

  lemma HasKeySnoc(items: seq<Finalized>, item: Finalized, k: SessionKey)
    ensures HasKey(items + [item], k) <==> HasKey(items, k) || item.key == k
  {
    if HasKey(items, k) {
      var i :| 0 <= i < |items| && items[i].key == k;
      assert (items + [item])[i].key == k;
    }
    assert (items + [item])[|items|] == item;
  }

  lemma DistinctSnoc(items: seq<Finalized>, item: Finalized)
    requires DistinctKeys(items) && !HasKey(items, item.key)
    ensures DistinctKeys(items + [item])
  {
  }

  lemma {:induction false} StaleItemKeys(order: seq<SessionKey>, sessions: map<SessionKey, Session>, now: real)
    requires NoDuplicates(order)
    ensures DistinctKeys(StaleItems(order, sessions, now))
    ensures forall k :: HasKey(StaleItems(order, sessions, now), k) <==> k in order && StaleKey(sessions, k, now)
  {
    if order != [] {
      hide StaleAt, NoDuplicates, HasKey, DistinctKeys;
      var init, x := order[..|order| - 1], Last(order);
      NoDuplicatesSnoc(order);
      StaleItemKeys(init, sessions, now);
      if StaleKey(sessions, x, now) {
        var item := StaleItem(x, sessions, now)[0];
        assert StaleItems(order, sessions, now) == StaleItems(init, sessions, now) + [item];
        DistinctSnoc(StaleItems(init, sessions, now), item);
        forall k ensures HasKey(StaleItems(order, sessions, now), k) <==> HasKey(StaleItems(init, sessions, now), k) || k == x {
          HasKeySnoc(StaleItems(init, sessions, now), item, k);
        }
      } else {
        assert StaleItems(order, sessions, now) == StaleItems(init, sessions, now);
      }
    }
  }

  lemma StaleItemsPrefix(order: seq<SessionKey>, i: nat, sessions: map<SessionKey, Session>, now: real)
    requires i < |order|
    ensures StaleItems(order[..i + 1], sessions, now) == StaleItems(order[..i], sessions, now) + StaleItem(order[i], sessions, now)
  {
    assert order[..i + 1][..i] == order[..i];
  }

  lemma TaggedKeys(stale: seq<(SessionKey, Reason)>, sessions: map<SessionKey, Session>)
    requires forall i :: 0 <= i < |stale| ==> stale[i].0 in sessions
    ensures forall k :: k in KeysOf(stale) <==> HasKey(Tagged(stale, sessions), k)
    ensures DistinctKeys(Tagged(stale, sessions)) ==> forall i, j :: 0 <= i < j < |stale| ==> stale[i].0 != stale[j].0
  {
    var items := Tagged(stale, sessions);
    assert forall i :: 0 <= i < |stale| ==> items[i].key == stale[i].0;
    forall k ensures k in KeysOf(stale) <==> HasKey(items, k) {
      if k in KeysOf(stale) {
        var i :| 0 <= i < |stale| && stale[i].0 == k;
        assert items[i].key == k;
      }
    }
  }

  lemma StaleTags(st: State, stale: seq<(SessionKey, Reason)>, now: real)
    requires Consistent(st)
    requires forall i :: 0 <= i < |stale| ==> stale[i].0 in st.sessions
    requires Tagged(stale, st.sessions) == StaleItems(st.order, st.sessions, now)
    ensures KeysOf(stale) == StaleKeys(st.sessions, now)
    ensures forall i, j :: 0 <= i < j < |stale| ==> stale[i].0 != stale[j].0
  {
    hide Tagged, StaleItems, HasKey, DistinctKeys, KeysOf, StaleAt;
    StaleItemKeys(st.order, st.sessions, now);
    TaggedKeys(stale, st.sessions);
  }

  lemma TaggedSnoc(stale: seq<(SessionKey, Reason)>, item: (SessionKey, Reason), sessions: map<SessionKey, Session>)
    requires forall i :: 0 <= i < |stale| ==> stale[i].0 in sessions
    requires item.0 in sessions
    ensures forall i :: 0 <= i < |stale + [item]| ==> (stale + [item])[i].0 in sessions
    ensures Tagged(stale + [item], sessions) == Tagged(stale, sessions) + [Finalized(sessions[item.0], item.0, item.1)]
    ensures KeysOf(stale + [item]) == KeysOf(stale) + {item.0}
  {
    var all := stale + [item];
    forall k ensures k in KeysOf(all) <==> k in KeysOf(stale) + {item.0} {
      if k in KeysOf(stale) {
        var i :| 0 <= i < |stale| && stale[i].0 == k;
        assert all[i].0 == k;
      }
      assert all[|stale|].0 == item.0;
    }
  }

  lemma KeysSnoc(stale: seq<(SessionKey, Reason)>, i: nat)
    requires i < |stale|
    requires forall j, l :: 0 <= j < l < |stale| ==> stale[j].0 != stale[l].0
    ensures stale[i].0 !in KeysOf(stale[..i])
  {
  }

  lemma PrefixStart(stale: seq<(SessionKey, Reason)>, before: State)
    ensures KeysOf(stale[..0]) == {} && Tagged(stale[..0], before.sessions) == []
    ensures Drop(before.order, {}) == before.order
  {
    DropNone(before.order);
  }

  /** The effect of popping the i-th stale key after the earlier ones. */
  lemma PrefixStep(stale: seq<(SessionKey, Reason)>, i: nat, before: State)
    requires i < |stale|
    requires forall j :: 0 <= j < |stale| ==> stale[j].0 in before.sessions
    requires forall j, l :: 0 <= j < l < |stale| ==> stale[j].0 != stale[l].0
    ensures stale[i].0 in before.sessions - KeysOf(stale[..i])
    ensures KeysOf(stale[..i + 1]) == KeysOf(stale[..i]) + {stale[i].0}
    ensures Drop(before.order, KeysOf(stale[..i + 1])) == Drop(Drop(before.order, KeysOf(stale[..i])), {stale[i].0})
    ensures Tagged(stale[..i + 1], before.sessions) ==
            Tagged(stale[..i], before.sessions) + [Finalized(before.sessions[stale[i].0], stale[i].0, stale[i].1)]
  {
    assert stale[..i + 1] == stale[..i] + [stale[i]];
    KeysSnoc(stale, i);
    TaggedSnoc(stale[..i], stale[i], before.sessions);
    DropMore(before.order, KeysOf(stale[..i]), stale[i].0);
  }

  lemma {:induction false} DropMore(order: seq<SessionKey>, gone: set<SessionKey>, k: SessionKey)
    ensures Drop(Drop(order, gone), {k}) == Drop(order, gone + {k})
  {
    if order != [] {
      var init, x := order[..|order| - 1], order[|order| - 1];
      DropMore(init, gone, k);
      var kept := Drop(order, gone);
      if x in gone {
        assert kept == Drop(init, gone);
      } else {
        assert kept[..|kept| - 1] == Drop(init, gone);
      }
    }
  }

  lemma {:induction false} DropNone(order: seq<SessionKey>)
    ensures Drop(order, {}) == order
  {
    if order != [] {
      DropNone(order[..|order| - 1]);
    }
  }
}
