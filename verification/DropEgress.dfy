/** The egress filter: a bounds-checked walk over Ethernet, IPv4 and TCP/UDP headers, rule expiry and counters. */
module DropEgress {
  import opened Prelude
  import opened RuleTables

  type Packet = seq<Byte>

  /** Destination address as it stands in the packet, port in host order. */
  datatype Target = Target(ip: seq<Byte>, port: U16)

  type DropTables = Tables<Target>

  const PROTO_TCP: Byte := 6
  const PROTO_UDP: Byte := 17

  /** Big-endian 16-bit field. */
  function Port(pkt: Packet, at: nat): U16
    requires at + 2 <= |pkt|
  {
    var high: nat, low: nat := pkt[at], pkt[at + 1];
    256 * high + low
  }

  // ---- what the filter means -----------------------------------------------------------------

  /** An Ethernet frame (14 bytes) carrying a complete minimal IPv4 header (20 bytes). */
  predicate IsIPv4(pkt: Packet) {
    |pkt| >= 34 && pkt[12] == 0x08 && pkt[13] == 0x00
  }

  /** Bytes a transport header needs after the IPv4 header. */
  function TransportBytes(proto: Byte): nat {
    if proto == PROTO_TCP then 20 else if proto == PROTO_UDP then 8 else 0
  }

  /** The packet goes to the target: address matches and, for TCP and UDP, a complete header names the port. */
  predicate GoesTo(pkt: Packet, target: Target)
    requires IsIPv4(pkt)
  {
    && pkt[30..34] == target.ip
    && (pkt[23] == PROTO_TCP || pkt[23] == PROTO_UDP ==>
          |pkt| >= 34 + TransportBytes(pkt[23]) && Port(pkt, 36) == target.port)
  }

  predicate Drops(t: DropTables, pkt: Packet, cgroup: U64, now: U64) {
    IsIPv4(pkt) && InForce(t, cgroup, now).Some? && GoesTo(pkt, InForce(t, cgroup, now).value.payload)
  }

  datatype Stats = Stats(dropped: U64, processed: U64, bytesDropped: U64)

  function Counted(s: Stats, pkt: Packet, dropped: bool): Stats {
    Stats(if dropped then WrapAdd(s.dropped, 1) else s.dropped,
          WrapAdd(s.processed, 1),
          if dropped then WrapAdd(s.bytesDropped, |pkt|) else s.bytesDropped)
  }

  // ---- the program -----------------------------------------------------------------------------

  class DropProgram {
    var dropConfigs: map<U32, Config<Target>>
    var cgroupRules: map<U64, U32>
    var stats: Stats

    function Contents(): DropTables
      reads this
    {
      Tables(dropConfigs, cgroupRules)
    }

    method OnPacket(pkt: Packet, cgroup: U64, now: U64) returns (drop: bool)
      modifies this
      ensures drop == Drops(old(Contents()), pkt, cgroup, now)
      ensures Contents() == if IsIPv4(pkt) then HookExpiry(old(Contents()), cgroup, now) else old(Contents())
      ensures stats == Counted(old(stats), pkt, drop)
    {
      drop := false;
      stats := stats.(processed := WrapAdd(stats.processed, 1));
      var dataEnd := |pkt|;
      var ip := 14;
      if ip > dataEnd {
        return;
      }
      if pkt[12] != 0x08 || pkt[13] != 0x00 {
        return;
      }
      var transport := ip + 20;
      if transport > dataEnd {
        return;
      }
      if cgroup !in cgroupRules {
        return;
      }
      var rule := cgroupRules[cgroup];
      if rule !in dropConfigs {
        return;
      }
      var cfg := dropConfigs[rule];
      if Expired(cfg, now) {
        dropConfigs := dropConfigs - {rule};
        cgroupRules := cgroupRules - {cgroup};
        return;
      }
      if pkt[ip + 16..ip + 20] != cfg.payload.ip {
        return;
      }
      var proto := pkt[ip + 9];
      if proto == PROTO_TCP || proto == PROTO_UDP {
        if transport + 1 > dataEnd {
          return;
        }
        var dstPort: U16 := 0;
        if proto == PROTO_TCP {
          if transport + 20 > dataEnd {
            return;
          }
          dstPort := Port(pkt, transport + 2);
        } else {
          if transport + 8 > dataEnd {
            return;
          }
          dstPort := Port(pkt, transport + 2);
        }
        if dstPort != cfg.payload.port {
          return;
        }
      }
      stats := stats.(dropped := WrapAdd(stats.dropped, 1));
      stats := stats.(bytesDropped := WrapAdd(stats.bytesDropped, |pkt|));
      drop := true;
    }
  }

  // ---- counters over runs ------------------------------------------------------------------------

  datatype Arrival = Arrival(pkt: Packet, cgroup: U64, now: U64)

  function TablesAfter(t: DropTables, a: Arrival): DropTables {
    if IsIPv4(a.pkt) then HookExpiry(t, a.cgroup, a.now) else t
  }

  /** The packets dropped in a run, in order. */
  function Dropped(t: DropTables, run: seq<Arrival>): seq<Packet>
    decreases |run|
  {
    if run == [] then []
    else (if Drops(t, run[0].pkt, run[0].cgroup, run[0].now) then [run[0].pkt] else []) + Dropped(TablesAfter(t, run[0]), run[1..])
  }

  function StatsAfter(t: DropTables, s: Stats, run: seq<Arrival>): Stats
    decreases |run|
  {
    if run == [] then s
    else StatsAfter(TablesAfter(t, run[0]), Counted(s, run[0].pkt, Drops(t, run[0].pkt, run[0].cgroup, run[0].now)), run[1..])
  }

  function TotalBytes(pkts: seq<Packet>): nat {
    if pkts == [] then 0 else |pkts[0]| + TotalBytes(pkts[1..])
  }

  /** The three counters are exactly the number of packets, of dropped packets, and of dropped bytes, modulo 2^64. */
  lemma {:induction false} CountersAreExact(t: DropTables, s: Stats, run: seq<Arrival>)
    ensures var gone := Dropped(t, run);
            StatsAfter(t, s, run) == Stats(WrapAdd(s.dropped, |gone|), WrapAdd(s.processed, |run|), WrapAdd(s.bytesDropped, TotalBytes(gone)))
    decreases |run|
  {
    if run == [] {
      WrapAddNone(s.dropped);
      WrapAddNone(s.processed);
      WrapAddNone(s.bytesDropped);
    } else {
      var a := run[0];
      var drop := Drops(t, a.pkt, a.cgroup, a.now);
      var rest := Dropped(TablesAfter(t, a), run[1..]);
      CountersAreExact(TablesAfter(t, a), Counted(s, a.pkt, drop), run[1..]);
      WrapAddTwice(s.processed, 1, |run| - 1);
      WrapAddTwice(s.dropped, 1, |rest|);
      WrapAddTwice(s.bytesDropped, |a.pkt|, TotalBytes(rest));
      assert Dropped(t, run) == (if drop then [a.pkt] else []) + rest;
      if drop {
        assert ([a.pkt] + rest)[1..] == rest;
      } else {
        assert [] + rest == rest;
      }
    }
  }

  // ---- packets built from their fields -----------------------------------------------------------

  /**
   An Ethernet frame of type IPv4 with a 20-byte header: two addresses, the header up to the protocol,
   the protocol, checksum and source, the destination, source port, destination port in network order.
   */
  function Frame(macs: seq<Byte>, head: seq<Byte>, proto: Byte, middle: seq<Byte>, dst: seq<Byte>, src: seq<Byte>, port: U16,
                 rest: seq<Byte>): Packet
  {
    macs + ([0x08, 0x00] + (head + ([proto] + (middle + (dst + (src + ([port / 256, port % 256] + rest)))))))
  }

  lemma FrameFields(macs: seq<Byte>, head: seq<Byte>, proto: Byte, middle: seq<Byte>, dst: seq<Byte>, src: seq<Byte>, port: U16,
                    rest: seq<Byte>)
    requires |macs| == 12 && |head| == 9 && |middle| == 6 && |dst| == 4 && |src| == 2
    ensures var p := Frame(macs, head, proto, middle, dst, src, port, rest);
            && |p| == 38 + |rest| && p[12] == 0x08 && p[13] == 0x00 && p[23] == proto && p[30..34] == dst
            && p[36] == port / 256 && p[37] == port % 256
  {
  }

  /**
   A packet is dropped exactly when the rule in force for its cgroup names its destination address and,
   for TCP (6) with a whole 20-byte header and UDP (17) with a whole 8-byte one, its destination port;
   with any other protocol the address alone decides, and a cut-off TCP or UDP header never matches.
   */
  lemma BuiltPacketIsDroppedIff(t: DropTables, macs: seq<Byte>, head: seq<Byte>, proto: Byte, middle: seq<Byte>, dst: seq<Byte>,
                                src: seq<Byte>, port: U16, rest: seq<Byte>, cgroup: U64, now: U64)
    requires |macs| == 12 && |head| == 9 && |middle| == 6 && |dst| == 4 && |src| == 2
    ensures var p, rule := Frame(macs, head, proto, middle, dst, src, port, rest), InForce(t, cgroup, now);
            Drops(t, p, cgroup, now) <==>
            && rule.Some? && rule.value.payload.ip == dst
            && (proto == 6 ==> |rest| >= 16 && rule.value.payload.port == port)
            && (proto == 17 ==> |rest| >= 4 && rule.value.payload.port == port)
  {
    FrameFields(macs, head, proto, middle, dst, src, port, rest);
    assert port == 256 * (port / 256) + port % 256;
  }
}
