/** The packets that both the sessionizer and the heuristic detector see. */
module Packets {
  import opened Options

  datatype Packet = Packet(
    srcIp: string,
    dstIp: string,
    protocol: int,
    srcPort: Option<int>,
    dstPort: Option<int>,
    timestamp: real,
    packetSize: int,
    transportHeaderLength: Option<int>,
    tcpWindowSize: Option<int>,
    payloadSize: Option<int>,
    tcpFlags: Option<int>)

  /** Python's `flags & weight` for a power of two `weight`, on integers of any sign. */
  predicate HasFlag(flags: int, weight: int)
    requires weight > 0
  {
    (flags / weight) % 2 == 1
  }

  /** No packet is dated before an earlier one. */
  ghost predicate Monotone(ps: seq<Packet>) {
    forall i, j :: 0 <= i < j < |ps| ==> ps[i].timestamp <= ps[j].timestamp
  }

  function Bit(b: bool): int { if b then 1 else 0 }

  /** The flags of a TCP header as a number: FIN 1, SYN 2, RST 4, PSH 8, ACK 16, URG 32, and the rest above. */
  function FlagsOf(fin: bool, syn: bool, rst: bool, psh: bool, ack: bool, urg: bool, rest: int): int {
    Bit(fin) + 2 * Bit(syn) + 4 * Bit(rst) + 8 * Bit(psh) + 16 * Bit(ack) + 32 * Bit(urg) + 64 * rest
  }

  lemma Halves(f: int, b: bool, r: int)
    requires f == Bit(b) + 2 * r
    ensures f / 2 == r && (f % 2 == 1 <==> b)
  {
  }

  lemma Shifts(f: int)
    ensures f / 1 == f && f / 4 == f / 2 / 2 && f / 8 == f / 4 / 2 && f / 16 == f / 8 / 2 && f / 32 == f / 16 / 2 && f / 64 == f / 32 / 2
  {
  }

  /** Testing a flag finds exactly the bit that was put there. */
  lemma FlagsAreBits(fin: bool, syn: bool, rst: bool, psh: bool, ack: bool, urg: bool, rest: int)
    ensures var f := FlagsOf(fin, syn, rst, psh, ack, urg, rest);
            && HasFlag(f, 1) == fin && HasFlag(f, 2) == syn && HasFlag(f, 4) == rst
            && HasFlag(f, 8) == psh && HasFlag(f, 16) == ack && HasFlag(f, 32) == urg
  {
    hide Bit;
    var f := FlagsOf(fin, syn, rst, psh, ack, urg, rest);
    var f5 := Bit(urg) + 2 * rest;
    var f4 := Bit(ack) + 2 * f5;
    var f3 := Bit(psh) + 2 * f4;
    var f2 := Bit(rst) + 2 * f3;
    var f1 := Bit(syn) + 2 * f2;
    Shifts(f);
    Halves(f, fin, f1);
    Halves(f1, syn, f2);
    Halves(f2, rst, f3);
    Halves(f3, psh, f4);
    Halves(f4, ack, f5);
    Halves(f5, urg, rest);
  }

  lemma Rejoins(f: int)
    ensures f == Bit(f % 2 == 1) + 2 * (f / 2)
  {
  }

  lemma Collapses(f: int, b0: int, b1: int, b2: int, b3: int, b4: int, b5: int, h1: int, h2: int, h3: int, h4: int, h5: int, rest: int)
    requires f == b0 + 2 * h1 && h1 == b1 + 2 * h2 && h2 == b2 + 2 * h3
    requires h3 == b3 + 2 * h4 && h4 == b4 + 2 * h5 && h5 == b5 + 2 * rest
    ensures f == b0 + 2 * b1 + 4 * b2 + 8 * b3 + 16 * b4 + 32 * b5 + 64 * rest
  {
  }

  /** Every number is the flags it tests positive for. */
  lemma BitsAreFlags(f: int)
    ensures f == FlagsOf(HasFlag(f, 1), HasFlag(f, 2), HasFlag(f, 4), HasFlag(f, 8), HasFlag(f, 16), HasFlag(f, 32), f / 64)
  {
    hide Bit, HasFlag;
    FlagSteps(f);
    Collapses(f, Bit(HasFlag(f, 1)), Bit(HasFlag(f, 2)), Bit(HasFlag(f, 4)), Bit(HasFlag(f, 8)), Bit(HasFlag(f, 16)), Bit(HasFlag(f, 32)),
              f / 2, f / 4, f / 8, f / 16, f / 32, f / 64);
  }

  lemma FirstSteps(f: int)
    ensures f == Bit(HasFlag(f, 1)) + 2 * (f / 2) && f / 2 == Bit(HasFlag(f, 2)) + 2 * (f / 4)
    ensures f / 4 == Bit(HasFlag(f, 4)) + 2 * (f / 8)
  {
    hide Bit;
    Shifts(f);
    Rejoins(f);
    Rejoins(f / 2);
    Rejoins(f / 4);
  }

  lemma FlagSteps(f: int)
    ensures f == Bit(HasFlag(f, 1)) + 2 * (f / 2) && f / 2 == Bit(HasFlag(f, 2)) + 2 * (f / 4)
    ensures f / 4 == Bit(HasFlag(f, 4)) + 2 * (f / 8) && f / 8 == Bit(HasFlag(f, 8)) + 2 * (f / 16)
    ensures f / 16 == Bit(HasFlag(f, 16)) + 2 * (f / 32) && f / 32 == Bit(HasFlag(f, 32)) + 2 * (f / 64)
  {
    hide Bit;
    FirstSteps(f);
    Shifts(f);
    Rejoins(f / 8);
    Rejoins(f / 16);
    Rejoins(f / 32);
  }
}
