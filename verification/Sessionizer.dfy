/** The sessionizer: which packet opens, extends, expires or ends which session. */
module Sessionizer {
  import opened Options
  import opened Packets
  import opened TrafficSession

  const IDLE_TIMEOUT_SECONDS := 30.0
  const MAX_SESSION_DURATION_SECONDS := 120.0
  const MIN_PREDICTION_AGE_SECONDS := 1.0
  const MIN_PREDICTION_PACKET_COUNT := 5
  const PREDICT_EVERY_N_PACKETS := 5
  const PREDICT_EVERY_M_SECONDS := 1.0

  datatype PredictionState = PredictionState(lastCount: nat, lastTime: real)

  datatype Reason = IdleTimeout | MaxDuration | FlowEnd

  datatype Finalized = Finalized(session: Session, key: SessionKey, reason: Reason)

  /** `order` lists the keys of `sessions` in insertion order, as a Python dictionary does. */
  datatype State = State(
    order: seq<SessionKey>,
    sessions: map<SessionKey, Session>,
    prediction: map<SessionKey, PredictionState>,
    pending: seq<Finalized>)

  const EMPTY := State([], map[], map[], [])

  predicate IdleAt(s: Session, now: real) {
    now - s.lastSeen >= IDLE_TIMEOUT_SECONDS
  }

  predicate StaleAt(s: Session, now: real) {
    IdleAt(s, now) || now - s.startTime >= MAX_SESSION_DURATION_SECONDS
  }

  function StaleReason(s: Session, now: real): Reason {
    if IdleAt(s, now) then IdleTimeout else MaxDuration
  }

  predicate StaleKey(sessions: map<SessionKey, Session>, k: SessionKey, now: real) {
    k in sessions && StaleAt(sessions[k], now)
  }

  /** The finalization record of `k` if its session is stale. */
  function StaleItem(k: SessionKey, sessions: map<SessionKey, Session>, now: real): seq<Finalized> {
    if StaleKey(sessions, k, now) then [Finalized(sessions[k], k, StaleReason(sessions[k], now))] else []
  }

  function StaleItems(order: seq<SessionKey>, sessions: map<SessionKey, Session>, now: real): seq<Finalized> {
    if order == [] then []
    else StaleItems(order[..|order| - 1], sessions, now) + StaleItem(order[|order| - 1], sessions, now)
  }

  /** The insertion order after the keys in `gone` have been popped. */
  function Drop(order: seq<SessionKey>, gone: set<SessionKey>): seq<SessionKey> {
    if order == [] then []
    else Drop(order[..|order| - 1], gone) + if order[|order| - 1] in gone then [] else [order[|order| - 1]]
  }

  function StaleKeys(sessions: map<SessionKey, Session>, now: real): set<SessionKey> {
    set k | k in sessions && StaleAt(sessions[k], now)
  }

  function Expire(st: State, now: real): State {
    var stale := StaleKeys(st.sessions, now);
    State(Drop(st.order, stale), st.sessions - stale, st.prediction - stale,
          st.pending + StaleItems(st.order, st.sessions, now))
  }

  function Open(st: State, p: Packet): State {
    var k := KeyOf(p);
    if k in st.sessions then st
    else st.(order := st.order + [k],
             sessions := st.sessions[k := NewSession(p)],
             prediction := st.prediction[k := PredictionState(0, p.timestamp)])
  }

  function MarkForFinalPrediction(prediction: map<SessionKey, PredictionState>, k: SessionKey): map<SessionKey, PredictionState> {
    if k in prediction then prediction[k := prediction[k].(lastCount := 0)] else prediction
  }

  function AddPacket(st: State, p: Packet): State {
    var k := KeyOf(p);
    var began := Open(st, p);
    var session := UpdateSession(began.sessions[k], p);
    began.(sessions := began.sessions[k := session],
            prediction := if session.finished then MarkForFinalPrediction(began.prediction, k) else began.prediction)
  }

  function ProcessPacket(st: State, p: Packet): State {
    AddPacket(Expire(st, p.timestamp), p)
  }

  /** Ready for any prediction at all: old enough and long enough. */
  predicate MinimumReady(s: Session) {
    s.Duration() >= MIN_PREDICTION_AGE_SECONDS && s.packetCount >= MIN_PREDICTION_PACKET_COUNT
  }

  predicate PeriodicTrigger(s: Session, last: PredictionState) {
    || s.packetCount - last.lastCount >= PREDICT_EVERY_N_PACKETS
    || s.lastSeen - last.lastTime >= PREDICT_EVERY_M_SECONDS
  }

  predicate PredictionDue(s: Session, last: PredictionState) {
    || (MinimumReady(s) && (last.lastCount == 0 || PeriodicTrigger(s, last)))
    || s.finished
  }

  function ShouldPredict(st: State, k: SessionKey): (State, bool) {
    if k !in st.sessions || k !in st.prediction then (st, false)
    else
      var s := st.sessions[k];
      if PredictionDue(s, st.prediction[k])
      then (st.(prediction := st.prediction[k := PredictionState(s.packetCount, s.lastSeen)]), true)
      else (st, false)
  }

  function FinalizeIfNeeded(st: State, k: SessionKey): (State, Option<Finalized>) {
    if k in st.sessions && st.sessions[k].finished then
      (st.(order := Drop(st.order, {k}), sessions := st.sessions - {k}, prediction := st.prediction - {k}),
       Some(Finalized(st.sessions[k], k, FlowEnd)))
    else
      (st, None)
  }

  /** What one packet does to the processor's session state, what it finalizes and whether it triggers a
      prediction: build, drain, predict, finalize, in that order. */
  datatype Outcome = Outcome(state: State, emitted: seq<Finalized>, predicted: bool)

  function Process(st: State, p: Packet): Outcome {
    var built := ProcessPacket(st, p);
    var (asked, predicted) := ShouldPredict(built.(pending := []), KeyOf(p));
    var (done, ended) := FinalizeIfNeeded(asked, KeyOf(p));
    Outcome(done, built.pending + if ended.Some? then [ended.value] else [], predicted)
  }

  /** A whole run from an empty processor; `emitted` accumulates over the run. */
  function Run(ps: seq<Packet>): Outcome {
    if ps == [] then Outcome(EMPTY, [], false)
    else
      var before := Run(ps[..|ps| - 1]);
      var after := Process(before.state, ps[|ps| - 1]);
      after.(emitted := before.emitted + after.emitted)
  }
}
