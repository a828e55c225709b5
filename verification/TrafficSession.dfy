/** The directional session key, and the per-flow record a packet updates. */
module TrafficSession {
  import opened Options
  import opened Packets
  import opened RunningStats

  datatype SessionKey = SessionKey(srcIp: string, dstIp: string, protocol: int, srcPort: Option<int>, dstPort: Option<int>)

  function KeyOf(p: Packet): SessionKey {
    SessionKey(p.srcIp, p.dstIp, p.protocol, p.srcPort, p.dstPort)
  }

  datatype FlagCounts = FlagCounts(fin: nat, syn: nat, rst: nat, psh: nat, ack: nat, urg: nat)

  /** The forward-direction fields of a session. */
  datatype Forward = Forward(
    packetCount: nat,
    totalBytes: int,
    packetLengths: seq<int>,
    packetTimestamps: seq<real>,
    packetLengthStats: Moments,
    headerLength: int,
    initWinBytes: Option<int>,
    actDataPkt: nat,
    minSegSize: Option<int>)

  /** The value of a session record. */
  datatype Session = Session(
    key: SessionKey,
    startTime: real,
    lastSeen: real,
    packetCount: nat,
    totalBytes: int,
    packetLengths: seq<int>,
    packetTimestamps: seq<real>,
    packetLengthStats: Moments,
    fwd: Forward,
    flagCounts: FlagCounts,
    finished: bool)
  {
    function Duration(): real {
      if lastSeen - startTime > 0.0 then lastSeen - startTime else 0.0
    }

    function AveragePacketSize(): real {
      if packetCount == 0 then 0.0 else totalBytes as real / packetCount as real
    }
  }

  const NO_FORWARD := Forward(0, 0, [], [], NO_MOMENTS, 0, None, 0, None)
  const NO_FLAGS := FlagCounts(0, 0, 0, 0, 0, 0)

  function NewSession(p: Packet): Session {
    Session(KeyOf(p), p.timestamp, p.timestamp, 0, 0, [], [], NO_MOMENTS, NO_FORWARD, NO_FLAGS, false)
  }

  function Bump(n: nat, b: bool): nat { if b then n + 1 else n }

  /** FIN or RST. */
  predicate EndsFlow(p: Packet) {
    p.tcpFlags.Some? && (HasFlag(p.tcpFlags.value, 1) || HasFlag(p.tcpFlags.value, 4))
  }

  function CountFlags(c: FlagCounts, p: Packet): FlagCounts {
    if p.tcpFlags.None? then c else
      var f := p.tcpFlags.value;
      FlagCounts(Bump(c.fin, HasFlag(f, 1)), Bump(c.syn, HasFlag(f, 2)), Bump(c.rst, HasFlag(f, 4)),
                 Bump(c.psh, HasFlag(f, 8)), Bump(c.ack, HasFlag(f, 16)), Bump(c.urg, HasFlag(f, 32)))
  }

  predicate IsForward(key: SessionKey, p: Packet) {
    p.srcIp == key.srcIp && p.dstIp == key.dstIp
  }

  predicate CarriesData(p: Packet) {
    p.payloadSize.Some? && p.payloadSize.value > 0
  }

  function FirstSome(a: Option<int>, b: Option<int>): Option<int> {
    if a.None? then b else a
  }

  /** The least positive payload size so far. */
  function SmallerSegment(least: Option<int>, p: Packet): Option<int> {
    if CarriesData(p) && (least.None? || p.payloadSize.value < least.value) then p.payloadSize else least
  }

  function UpdateForward(f: Forward, p: Packet): Forward {
    Forward(
      f.packetCount + 1,
      f.totalBytes + p.packetSize,
      f.packetLengths + [p.packetSize],
      f.packetTimestamps + [p.timestamp],
      Push(f.packetLengthStats, p.packetSize as real),
      f.headerLength + p.transportHeaderLength.GetOr(0),
      FirstSome(f.initWinBytes, p.tcpWindowSize),
      Bump(f.actDataPkt, CarriesData(p)),
      SmallerSegment(f.minSegSize, p))
  }

  function UpdateSession(s: Session, p: Packet): Session {
    Session(
      s.key,
      s.startTime,
      p.timestamp,
      s.packetCount + 1,
      s.totalBytes + p.packetSize,
      s.packetLengths + [p.packetSize],
      s.packetTimestamps + [p.timestamp],
      Push(s.packetLengthStats, p.packetSize as real),
      if IsForward(s.key, p) then UpdateForward(s.fwd, p) else s.fwd,
      CountFlags(s.flagCounts, p),
      s.finished || EndsFlow(p))
  }

  class TrafficSession {
    const key: SessionKey
    const startTime: real
    var lastSeen: real
    var packetCount: nat
    var totalBytes: int
    var packetLengths: seq<int>
    var fwdPacketLengths: seq<int>
    var packetTimestamps: seq<real>
    var fwdPacketTimestamps: seq<real>
    const packetLengthStats: RunningStats
    const fwdPacketLengthStats: RunningStats
    var fwdPacketCount: nat
    var fwdTotalBytes: int
    var flagCounts: FlagCounts
    var fwdHeaderLength: int
    var initWinBytesForward: Option<int>
    var actDataPktFwd: nat
    var minSegSizeForward: Option<int>
    var finished: bool

    ghost function Repr(): set<object> {
      {this, packetLengthStats, fwdPacketLengthStats}
    }

    ghost predicate Valid() {
      packetLengthStats != fwdPacketLengthStats
    }

    ghost function FwdView(): Forward
      reads this, fwdPacketLengthStats
    {
      Forward(fwdPacketCount, fwdTotalBytes, fwdPacketLengths, fwdPacketTimestamps, fwdPacketLengthStats.View(),
              fwdHeaderLength, initWinBytesForward, actDataPktFwd, minSegSizeForward)
    }

    ghost function View(): Session
      reads Repr()
    {
      Session(key, startTime, lastSeen, packetCount, totalBytes, packetLengths, packetTimestamps,
              packetLengthStats.View(), FwdView(), flagCounts, finished)
    }

    constructor (p: Packet)
      ensures Valid() && fresh(Repr())
      ensures View() == NewSession(p)
    {
      key := KeyOf(p);
      startTime, lastSeen := p.timestamp, p.timestamp;
      packetCount, totalBytes, fwdPacketCount, fwdTotalBytes := 0, 0, 0, 0;
      packetLengths, fwdPacketLengths, packetTimestamps, fwdPacketTimestamps := [], [], [], [];
      packetLengthStats := new RunningStats();
      fwdPacketLengthStats := new RunningStats();
      flagCounts := FlagCounts(0, 0, 0, 0, 0, 0);
      fwdHeaderLength, initWinBytesForward, actDataPktFwd, minSegSizeForward := 0, None, 0, None;
      finished := false;
    }

    method Update(p: Packet)
      requires Valid()
      modifies Repr()
      ensures View() == UpdateSession(old(View()), p)
    {
      hide HasFlag, Push, CountFlags, EndsFlow, UpdateForward;
      ghost var fwd := FwdView();
      UpdateTotals(p);
      assert FwdView() == fwd;
      if p.srcIp == key.srcIp && p.dstIp == key.dstIp {
        UpdateForwardCounters(p);
      }
      assert FwdView() == if IsForward(key, p) then UpdateForward(fwd, p) else fwd;
      UpdateTcpFlags(p);
    }

    /** The direction-independent half of Update. */
    method UpdateTotals(p: Packet)
      requires Valid()
      modifies this`packetCount, this`totalBytes, this`lastSeen, this`packetLengths, this`packetTimestamps, packetLengthStats
      ensures packetCount == old(packetCount) + 1 && totalBytes == old(totalBytes) + p.packetSize
      ensures lastSeen == p.timestamp
      ensures packetLengths == old(packetLengths) + [p.packetSize]
      ensures packetTimestamps == old(packetTimestamps) + [p.timestamp]
      ensures packetLengthStats.View() == Push(old(packetLengthStats.View()), p.packetSize as real)
    {
      hide Push;
      packetCount := packetCount + 1;
      totalBytes := totalBytes + p.packetSize;
      lastSeen := p.timestamp;
      packetLengths := packetLengths + [p.packetSize];
      packetTimestamps := packetTimestamps + [p.timestamp];
      packetLengthStats.Update(p.packetSize as real);
    }

    /** The forward-direction half of Update. */
    method UpdateForwardCounters(p: Packet)
      requires Valid()
      modifies this`fwdPacketCount, this`fwdTotalBytes, this`fwdPacketLengths, this`fwdPacketTimestamps,
               this`fwdHeaderLength, this`initWinBytesForward, this`actDataPktFwd, this`minSegSizeForward,
               fwdPacketLengthStats
      ensures FwdView() == UpdateForward(old(FwdView()), p)
    {
      hide Push, FirstSome, Bump, SmallerSegment;
      fwdPacketLengthStats.Update(p.packetSize as real);
      fwdPacketCount := fwdPacketCount + 1;
      fwdTotalBytes := fwdTotalBytes + p.packetSize;
      fwdPacketLengths := fwdPacketLengths + [p.packetSize];
      fwdPacketTimestamps := fwdPacketTimestamps + [p.timestamp];
      UpdateForwardTransport(p);
    }

    method UpdateForwardTransport(p: Packet)
      modifies this`fwdHeaderLength, this`initWinBytesForward, this`actDataPktFwd, this`minSegSizeForward
      ensures fwdHeaderLength == old(fwdHeaderLength) + p.transportHeaderLength.GetOr(0)
      ensures initWinBytesForward == FirstSome(old(initWinBytesForward), p.tcpWindowSize)
      ensures actDataPktFwd == Bump(old(actDataPktFwd), CarriesData(p))
      ensures minSegSizeForward == SmallerSegment(old(minSegSizeForward), p)
    {
      if p.transportHeaderLength.Some? {
        fwdHeaderLength := fwdHeaderLength + p.transportHeaderLength.value;
      }
      if initWinBytesForward.None? && p.tcpWindowSize.Some? {
        initWinBytesForward := Some(p.tcpWindowSize.value);
      }
      if p.payloadSize.Some? && p.payloadSize.value > 0 {
        actDataPktFwd := actDataPktFwd + 1;
        if minSegSizeForward.None? || p.payloadSize.value < minSegSizeForward.value {
          minSegSizeForward := Some(p.payloadSize.value);
        }
      }
    }

    method UpdateTcpFlags(p: Packet)
      modifies this`flagCounts, this`finished
      ensures flagCounts == CountFlags(old(flagCounts), p)
      ensures finished == (old(finished) || EndsFlow(p))
    {
      hide HasFlag;
      if p.tcpFlags.None? {
        return;
      }
      var flags := p.tcpFlags.value;
      var counts := flagCounts;
      if HasFlag(flags, 1) {
        counts := counts.(fin := counts.fin + 1);
        finished := true;
      }
      if HasFlag(flags, 2) {
        counts := counts.(syn := counts.syn + 1);
      }
      if HasFlag(flags, 4) {
        counts := counts.(rst := counts.rst + 1);
        finished := true;
      }
      if HasFlag(flags, 8) {
        counts := counts.(psh := counts.psh + 1);
      }
      if HasFlag(flags, 16) {
        counts := counts.(ack := counts.ack + 1);
      }
      if HasFlag(flags, 32) {
        counts := counts.(urg := counts.urg + 1);
      }
      flagCounts := counts;
    }
  }

  // ----- What a session built from a list of packets holds

  /** The session that a non-empty run of packets builds, in arrival order. */
  function SessionOf(ps: seq<Packet>): Session
    requires ps != []
  {
    if |ps| == 1 then UpdateSession(NewSession(ps[0]), ps[0])
    else UpdateSession(SessionOf(ps[..|ps| - 1]), ps[|ps| - 1])
  }

  function Sizes(ps: seq<Packet>): seq<int> {
    seq(|ps|, i requires 0 <= i < |ps| => ps[i].packetSize)
  }

  function Times(ps: seq<Packet>): seq<real> {
    seq(|ps|, i requires 0 <= i < |ps| => ps[i].timestamp)
  }

  function Reals(xs: seq<int>): seq<real> {
    seq(|xs|, i requires 0 <= i < |xs| => xs[i] as real)
  }

  function Total(xs: seq<int>): int {
    if xs == [] then 0 else Total(xs[..|xs| - 1]) + xs[|xs| - 1]
  }

  ghost predicate OneFlow(ps: seq<Packet>) {
    forall i, j :: 0 <= i < |ps| && 0 <= j < |ps| ==> KeyOf(ps[i]) == KeyOf(ps[j])
  }

  /** A session record of one flow is its packets: the raw lists are the packets in arrival order, the
      counters and running statistics agree with the lists, and, the key being directional, every
      forward list, counter and statistic equals its whole-flow counterpart. */
  ghost predicate Records(s: Session, ps: seq<Packet>)
    requires ps != []
  {
    && s.key == KeyOf(ps[0])
    && s.startTime == ps[0].timestamp
    && s.lastSeen == ps[|ps| - 1].timestamp
    && s.packetLengths == s.fwd.packetLengths == Sizes(ps)
    && s.packetTimestamps == s.fwd.packetTimestamps == Times(ps)
    && s.packetCount == s.fwd.packetCount == |ps|
    && s.totalBytes == s.fwd.totalBytes == Total(Sizes(ps))
    && s.packetLengthStats == s.fwd.packetLengthStats == PushAll(Reals(Sizes(ps)))
    && s.finished == (exists i :: 0 <= i < |ps| && EndsFlow(ps[i]))
  }

  lemma SnocLists(ps: seq<Packet>, p: Packet)
    ensures Sizes(ps + [p]) == Sizes(ps) + [p.packetSize]
    ensures Times(ps + [p]) == Times(ps) + [p.timestamp]
    ensures Reals(Sizes(ps + [p])) == Reals(Sizes(ps)) + [p.packetSize as real]
    ensures Total(Sizes(ps + [p])) == Total(Sizes(ps)) + p.packetSize
    ensures PushAll(Reals(Sizes(ps + [p]))) == Push(PushAll(Reals(Sizes(ps))), p.packetSize as real)
  {
    var sizes, reals := Sizes(ps + [p]), Reals(Sizes(ps + [p]));
    assert sizes[..|ps|] == Sizes(ps);
    assert reals[..|ps|] == Reals(Sizes(ps));
  }

  lemma RecordsSnoc(s: Session, ps: seq<Packet>, p: Packet)
    requires ps != [] && Records(s, ps) && KeyOf(p) == KeyOf(ps[0])
    ensures Records(UpdateSession(s, p), ps + [p])
  {
    hide EndsFlow, Push, CountFlags, PushAll;
    SnocLists(ps, p);
    var qs := ps + [p];
    assert qs[|ps|] == p;
    if s.finished {
      var i :| 0 <= i < |ps| && EndsFlow(ps[i]);
      assert EndsFlow(qs[i]);
    }
    if i :| 0 <= i < |qs| && EndsFlow(qs[i]) {
      assert i < |ps| ==> EndsFlow(ps[i]);
    }
  }

  lemma RecordsFirst(p: Packet)
    ensures Records(UpdateSession(NewSession(p), p), [p])
  {
    hide EndsFlow, Push, CountFlags;
    SnocLists([], p);
    assert [] + [p] == [p];
    assert EndsFlow([p][0]) == EndsFlow(p);
  }

  lemma {:induction false} SessionRecordsItsPackets(ps: seq<Packet>)
    requires ps != [] && OneFlow(ps)
    ensures Records(SessionOf(ps), ps)
  {
    hide Records, UpdateSession, KeyOf;
    var p := ps[|ps| - 1];
    if |ps| == 1 {
      assert ps == [p];
      RecordsFirst(p);
    } else {
      var init := ps[..|ps| - 1];
      assert ps == init + [p] && init[0] == ps[0];
      SessionRecordsItsPackets(init);
      RecordsSnoc(SessionOf(init), init, p);
    }
  }

  // ----- Flags and transport fields

  /** How many packets carry the flag of that weight. */
  function FlagTotal(ps: seq<Packet>, weight: int): nat
    requires weight > 0
  {
    if ps == [] then 0
    else
      var p := ps[|ps| - 1];
      FlagTotal(ps[..|ps| - 1], weight) + if p.tcpFlags.Some? && HasFlag(p.tcpFlags.value, weight) then 1 else 0
  }

  function HeaderTotal(ps: seq<Packet>): int {
    if ps == [] then 0 else HeaderTotal(ps[..|ps| - 1]) + ps[|ps| - 1].transportHeaderLength.GetOr(0)
  }

  function DataTotal(ps: seq<Packet>): nat {
    if ps == [] then 0 else DataTotal(ps[..|ps| - 1]) + if ps[|ps| - 1].payloadSize.GetOr(0) > 0 then 1 else 0
  }

  /** Each flag counter is the number of packets with that flag. */
  ghost predicate CountsFlags(c: FlagCounts, ps: seq<Packet>) {
    && c.fin == FlagTotal(ps, 1) && c.syn == FlagTotal(ps, 2) && c.rst == FlagTotal(ps, 4)
    && c.psh == FlagTotal(ps, 8) && c.ack == FlagTotal(ps, 16) && c.urg == FlagTotal(ps, 32)
  }

  /** `w` is the window of the first packet that has one. */
  ghost predicate FirstWindow(w: Option<int>, ps: seq<Packet>) {
    if w.None? then forall i :: 0 <= i < |ps| ==> ps[i].tcpWindowSize.None?
    else exists i :: 0 <= i < |ps| && ps[i].tcpWindowSize == w && forall j :: 0 <= j < i ==> ps[j].tcpWindowSize.None?
  }

  /** `least` is the smallest positive payload size. */
  ghost predicate LeastSegment(least: Option<int>, ps: seq<Packet>) {
    && (least.None? <==> forall i :: 0 <= i < |ps| ==> ps[i].payloadSize.GetOr(0) <= 0)
    && (least.Some? ==> exists i :: 0 <= i < |ps| && ps[i].payloadSize == least && least.value > 0)
    && (least.Some? ==> forall i :: 0 <= i < |ps| && ps[i].payloadSize.GetOr(0) > 0 ==> least.value <= ps[i].payloadSize.value)
  }

  ghost predicate RecordsTransport(s: Session, ps: seq<Packet>) {
    && CountsFlags(s.flagCounts, ps)
    && s.fwd.headerLength == HeaderTotal(ps)
    && s.fwd.actDataPkt == DataTotal(ps)
    && FirstWindow(s.fwd.initWinBytes, ps)
    && LeastSegment(s.fwd.minSegSize, ps)
  }

  lemma CountsFlagsSnoc(c: FlagCounts, ps: seq<Packet>, p: Packet)
    requires CountsFlags(c, ps)
    ensures CountsFlags(CountFlags(c, p), ps + [p])
  {
    hide HasFlag;
    assert (ps + [p])[..|ps|] == ps;
  }

  lemma TransportTotalsSnoc(ps: seq<Packet>, p: Packet)
    ensures HeaderTotal(ps + [p]) == HeaderTotal(ps) + p.transportHeaderLength.GetOr(0)
    ensures DataTotal(ps + [p]) == Bump(DataTotal(ps), CarriesData(p))
  {
    assert (ps + [p])[..|ps|] == ps;
  }

  lemma FirstWindowSnoc(w: Option<int>, ps: seq<Packet>, p: Packet)
    requires FirstWindow(w, ps)
    ensures FirstWindow(FirstSome(w, p.tcpWindowSize), ps + [p])
  {
    var qs := ps + [p];
    assert qs[|ps|] == p && forall i :: 0 <= i < |ps| ==> qs[i] == ps[i];
    if w.Some? {
      var i :| 0 <= i < |ps| && ps[i].tcpWindowSize == w && forall j :: 0 <= j < i ==> ps[j].tcpWindowSize.None?;
      assert qs[i].tcpWindowSize == w;
    }
  }

  lemma LeastSegmentSnoc(least: Option<int>, ps: seq<Packet>, p: Packet)
    requires LeastSegment(least, ps)
    ensures LeastSegment(SmallerSegment(least, p), ps + [p])
  {
    var qs := ps + [p];
    assert qs[|ps|] == p && forall i :: 0 <= i < |ps| ==> qs[i] == ps[i];
    assert qs[|ps|].payloadSize == p.payloadSize;
    if least.Some? {
      var i :| 0 <= i < |ps| && ps[i].payloadSize == least && least.value > 0;
      assert qs[i].payloadSize == least;
    }
  }

  lemma TransportSnoc(s: Session, ps: seq<Packet>, p: Packet)
    requires RecordsTransport(s, ps) && IsForward(s.key, p)
    ensures RecordsTransport(UpdateSession(s, p), ps + [p])
  {
    hide CountsFlags, FirstWindow, LeastSegment, CountFlags, FirstSome, SmallerSegment, Push, EndsFlow, CarriesData;
    CountsFlagsSnoc(s.flagCounts, ps, p);
    TransportTotalsSnoc(ps, p);
    FirstWindowSnoc(s.fwd.initWinBytes, ps, p);
    LeastSegmentSnoc(s.fwd.minSegSize, ps, p);
  }

  lemma NoTransport(p: Packet)
    ensures RecordsTransport(NewSession(p), [])
  {
  }

  lemma {:induction false} SessionKeyOf(ps: seq<Packet>)
    requires ps != []
    ensures SessionOf(ps).key == KeyOf(ps[0])
  {
    if |ps| > 1 {
      SessionKeyOf(ps[..|ps| - 1]);
    }
  }

  /** In a session of one flow every flag counter and transport field is what its packets say. */
  lemma {:induction false} SessionRecordsTransport(ps: seq<Packet>)
    requires ps != [] && OneFlow(ps)
    ensures RecordsTransport(SessionOf(ps), ps)
  {
    hide RecordsTransport, UpdateSession;
    var init, p := ps[..|ps| - 1], ps[|ps| - 1];
    assert ps == init + [p];
    if |ps| == 1 {
      NoTransport(p);
      TransportSnoc(NewSession(p), [], p);
      assert ps == [] + [p];
    } else {
      SessionRecordsTransport(init);
      SessionKeyOf(init);
      assert KeyOf(init[0]) == KeyOf(ps[0]) == KeyOf(p);
      TransportSnoc(SessionOf(init), init, p);
    }
  }

  /** A session is finished exactly when it has counted a FIN or a RST. */
  lemma FinishedIff(ps: seq<Packet>)
    requires ps != [] && OneFlow(ps)
    ensures SessionOf(ps).finished <==> SessionOf(ps).flagCounts.fin > 0 || SessionOf(ps).flagCounts.rst > 0
  {
    hide SessionOf, HasFlag;
    SessionRecordsItsPackets(ps);
    SessionRecordsTransport(ps);
    SomeFlag(ps, 1);
    SomeFlag(ps, 4);
    if i :| 0 <= i < |ps| && EndsFlow(ps[i]) {
      assert Carries(ps[i], 1) || Carries(ps[i], 4);
    }
    if j :| 0 <= j < |ps| && (Carries(ps[j], 1) || Carries(ps[j], 4)) {
      assert EndsFlow(ps[j]);
    }
  }

  predicate Carries(p: Packet, weight: int)
    requires weight > 0
  {
    p.tcpFlags.Some? && HasFlag(p.tcpFlags.value, weight)
  }

  lemma {:induction false} SomeFlag(ps: seq<Packet>, weight: int)
    requires weight > 0
    ensures FlagTotal(ps, weight) > 0 <==> exists i :: 0 <= i < |ps| && Carries(ps[i], weight)
  {
    hide HasFlag;
    if ps != [] {
      var n := |ps| - 1;
      SomeFlag(ps[..n], weight);
      if i :| 0 <= i < n && Carries(ps[..n][i], weight) {
        assert Carries(ps[i], weight);
      }
      if i :| 0 <= i < |ps| && Carries(ps[i], weight) {
        assert i < n ==> Carries(ps[..n][i], weight);
      }
    }
  }

  // ----- Both directions in one session

  /** The packets from `a` to `b`. */
  function Between(a: string, b: string, ps: seq<Packet>): seq<Packet> {
    if ps == [] then []
    else
      var p := ps[|ps| - 1];
      Between(a, b, ps[..|ps| - 1]) + if p.srcIp == a && p.dstIp == b then [p] else []
  }

  /** Whatever packets a session is given, its forward fields record those in the direction of the first. */
  ghost predicate RecordsForward(f: Forward, qs: seq<Packet>) {
    && f.packetLengths == Sizes(qs) && f.packetTimestamps == Times(qs)
    && f.packetCount == |qs| && f.totalBytes == Total(Sizes(qs))
    && f.packetLengthStats == PushAll(Reals(Sizes(qs)))
    && f.headerLength == HeaderTotal(qs) && f.actDataPkt == DataTotal(qs)
    && FirstWindow(f.initWinBytes, qs) && LeastSegment(f.minSegSize, qs)
  }

  lemma ForwardSnoc(f: Forward, qs: seq<Packet>, p: Packet)
    requires RecordsForward(f, qs)
    ensures RecordsForward(UpdateForward(f, p), qs + [p])
  {
    hide FirstWindow, LeastSegment, FirstSome, SmallerSegment, Push, PushAll, CarriesData;
    SnocLists(qs, p);
    TransportTotalsSnoc(qs, p);
    FirstWindowSnoc(f.initWinBytes, qs, p);
    LeastSegmentSnoc(f.minSegSize, qs, p);
  }

  lemma NothingForward()
    ensures RecordsForward(NO_FORWARD, [])
  {
  }

  lemma {:induction false} SessionSplitsDirections(ps: seq<Packet>)
    requires ps != []
    ensures SessionOf(ps).packetLengths == Sizes(ps) && SessionOf(ps).packetTimestamps == Times(ps)
    ensures RecordsForward(SessionOf(ps).fwd, Between(ps[0].srcIp, ps[0].dstIp, ps))
  {
    hide RecordsForward, UpdateForward, CountFlags, EndsFlow, Push;
    var n := |ps| - 1;
    var init, p, a, b := ps[..n], ps[n], ps[0].srcIp, ps[0].dstIp;
    assert ps == init + [p];
    SnocLists(init, p);
    if n == 0 {
      NothingForward();
      ForwardSnoc(NO_FORWARD, [], p);
      assert Between(a, b, init) == [] && [] + [p] == [p];
    } else {
      SessionSplitsDirections(init);
      SessionKeyOf(init);
      assert init[0] == ps[0];
      ForwardSnoc(SessionOf(init).fwd, Between(a, b, init), p);
      assert Between(a, b, init) + [] == Between(a, b, init);
    }
  }
}
