/** Which packets share a session, in terms of the packet fields. */
module Connections {
  import opened Packets
  import opened TrafficSession
  import opened Sessionizer
  import opened FlowSegmentation
  import opened SessionGuarantees

  /** The two packets agree in addresses, protocol and ports, each in its own place. */
  predicate SameConnection(p: Packet, q: Packet) {
    && p.srcIp == q.srcIp && p.dstIp == q.dstIp && p.protocol == q.protocol
    && p.srcPort == q.srcPort && p.dstPort == q.dstPort
  }

  /** Packets share a key if and only if they belong to one directed connection. */
  lemma KeyIff(p: Packet, q: Packet)
    ensures KeyOf(p) == KeyOf(q) <==> SameConnection(p, q)
  {
  }

  /** The packets of the stream that belong to the connection of `p`, in arrival order. */
  function Connection(p: Packet, ps: seq<Packet>): seq<Packet> {
    if ps == [] then []
    else Connection(p, ps[..|ps| - 1]) + if SameConnection(p, ps[|ps| - 1]) then [ps[|ps| - 1]] else []
  }

  lemma {:induction false} FlowIsConnection(p: Packet, ps: seq<Packet>)
    ensures Flow(KeyOf(p), ps) == Connection(p, ps)
  {
    hide KeyOf, SameConnection;
    if ps != [] {
      FlowIsConnection(p, ps[..|ps| - 1]);
      KeyIff(p, ps[|ps| - 1]);
    }
  }

  /** The session names the connection of `p`, each field in its own place. */
  ghost predicate Names(s: Session, p: Packet) {
    && s.key.srcIp == p.srcIp && s.key.dstIp == p.dstIp && s.key.protocol == p.protocol
    && s.key.srcPort == p.srcPort && s.key.dstPort == p.dstPort
  }

  /** All the packets of one connection and no others are in that connection's sessions, and each of those
      names it. */
  lemma ConnectionConservation(p: Packet, ps: seq<Packet>)
    ensures AddUpTo(SessionsFor(KeyOf(p), Run(ps)), Connection(p, ps))
    ensures forall s :: s in SessionsFor(KeyOf(p), Run(ps)) ==> Names(s, p)
  {
    hide Run, SessionsFor, AddUpTo;
    FlowIsConnection(p, ps);
    PacketConservation(KeyOf(p), ps);
    EverySessionIsSound(KeyOf(p), ps);
    forall s | s in SessionsFor(KeyOf(p), Run(ps)) ensures Names(s, p) {
      SoundNames(p, s);
    }
  }

  lemma SoundNames(p: Packet, s: Session)
    requires SoundRecord(KeyOf(p), s)
    ensures Names(s, p)
  {
    hide RecordsTransport, EndsFlow;
    var seg :| WellShaped(KeyOf(p), seg) && Records(s, seg) && RecordsTransport(s, seg);
    assert KeyOf(seg[0]) == KeyOf(p);
  }

  /** The sessions a run has made: emitted or active. */
  ghost predicate Made(s: Session, r: Outcome) {
    (exists item :: item in r.emitted && item.session == s) || (exists k :: k in r.state.sessions && r.state.sessions[k] == s)
  }

  /** Every session a run has made records packets of one connection only, which it names. */
  ghost predicate OneConnection(s: Session) {
    exists seg: seq<Packet> :: seg != [] && Records(s, seg) && forall i :: 0 <= i < |seg| ==> Names(s, seg[i])
  }

  lemma {:induction false} EmittedIsFor(item: Finalized, items: seq<Finalized>)
    requires item in items
    ensures item.session in EmittedFor(item.key, items)
  {
    if item != Last(items) {
      assert item in items[..|items| - 1];
      EmittedIsFor(item, items[..|items| - 1]);
    }
  }

  lemma SoundIsOneConnection(k: SessionKey, s: Session)
    requires SoundRecord(k, s)
    ensures OneConnection(s)
  {
    hide RecordsTransport, EndsFlow;
    var seg :| WellShaped(k, seg) && Records(s, seg) && RecordsTransport(s, seg);
    forall i | 0 <= i < |seg| ensures Names(s, seg[i]) {
      assert KeyOf(seg[i]) == KeyOf(seg[0]) == k;
    }
  }

  lemma EverySessionIsOneConnection(ps: seq<Packet>, s: Session)
    requires Made(s, Run(ps))
    ensures OneConnection(s)
  {
    hide Run, SoundRecord, OneConnection;
    var r := Run(ps);
    if item :| item in r.emitted && item.session == s {
      EmittedIsFor(item, r.emitted);
      EverySessionIsSound(item.key, ps);
      SoundIsOneConnection(item.key, s);
    } else {
      var k :| k in r.state.sessions && r.state.sessions[k] == s;
      assert s in ActiveFor(k, r.state);
      EverySessionIsSound(k, ps);
      SoundIsOneConnection(k, s);
    }
  }
}
