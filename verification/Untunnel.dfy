/** Finding a GTP version 1 header in a captured packet and removing the tunnel, in place.
    Offsets are 32-bit unsigned and wrap, as in the code. */
module Untunnel {
  import opened Wrappers
  import opened TrafficMonitor

  const U32: int := 0x1_0000_0000

  newtype Byte = x: int | 0 <= x < 256

  const ETHER_LENGTH := 14
  const TAG_LENGTH := 4
  const IP_LENGTH := 20
  const UDP_LENGTH := 8
  const GTP_LENGTH := 8
  const GTP_OPTIONAL_LENGTH := 4
  const ETHERTYPE_IP := 0x0800
  const ETHERTYPE_VLAN := 0x8100
  const PROTOCOL_UDP := 17
  const GTP_C_PORT := 2123
  const GTP_U_PORT := 2152
  const GTP_V1_TYPEVER := 3

  /** How far past the captured bytes the header search may read. */
  const ROOM := 80

  function Sub32(a: int, b: int): int { (a - b) % U32 }

  function U16(d: seq<Byte>, i: nat): int
    requires i + 1 < |d|
  {
    d[i] as int * 256 + d[i + 1] as int
  }

  // ----- fields, at a given offset

  function HasTag(d: seq<Byte>): bool
    requires |d| >= ROOM + ETHER_LENGTH
  {
    U16(d, 12) == ETHERTYPE_VLAN
  }

  function EtherLength(d: seq<Byte>): nat
    requires |d| >= ROOM + ETHER_LENGTH
  {
    if HasTag(d) then ETHER_LENGTH + TAG_LENGTH else ETHER_LENGTH
  }

  function EtherType(d: seq<Byte>): int
    requires |d| >= ROOM + ETHER_LENGTH
  {
    if HasTag(d) then U16(d, 16) else U16(d, 12)
  }

  /** Length of the outer IP header in bytes, as its own field states it. */
  function IpHeaderLength(d: seq<Byte>): nat
    requires |d| >= ROOM + ETHER_LENGTH
  {
    (d[EtherLength(d)] % 16) as int * 4
  }

  predicate IsGtpPort(port: int) {
    port == GTP_U_PORT || port == GTP_C_PORT
  }

  /** Offset of the GTP header, or None. Every length test subtracts in 32 bits. */
  function GetHeader(length: nat, d: seq<Byte>): Option<nat>
    requires length < U32 && |d| >= length + ROOM
  {
    if length < ETHER_LENGTH then None
    else
      var ip := EtherLength(d);
      if EtherType(d) != ETHERTYPE_IP then None
      else if Sub32(length, ip) < IP_LENGTH then None
      else if d[ip] / 16 != 4 then None
      else if d[ip + 9] as int != PROTOCOL_UDP then None
      else
        var udp := ip + IpHeaderLength(d);
        if Sub32(length, udp) < UDP_LENGTH then None
        else if !IsGtpPort(U16(d, udp)) && !IsGtpPort(U16(d, udp + 2)) then None
        else
          var gtp := udp + UDP_LENGTH;
          if Sub32(length, gtp) < GTP_LENGTH then None
          else if d[gtp] as int / 16 != GTP_V1_TYPEVER then None
          else Some(gtp)
  }

  /** The outer IP header ends within the captured bytes. */
  predicate OuterHeaderCaptured(length: nat, d: seq<Byte>)
    requires |d| >= ROOM + ETHER_LENGTH
  {
    EtherLength(d) + IpHeaderLength(d) <= length
  }

  /** A header that is found lies within the captured bytes exactly when the outer IP
      header's own length field does not point past them. */
  lemma FoundInsideIff(length: nat, d: seq<Byte>)
    requires length < U32 && |d| >= length + ROOM
    requires GetHeader(length, d).Some?
    ensures GetHeader(length, d).value + GTP_LENGTH <= length <==> OuterHeaderCaptured(length, d)
  {
    var udp := EtherLength(d) + IpHeaderLength(d);
    if udp <= length {
      assert Sub32(length, udp) == length - udp;
      assert Sub32(length, udp + UDP_LENGTH) == length - udp - UDP_LENGTH;
    }
  }

  // ----- which bytes the search reads

  /** One more than the position of the last byte that the search reads. */
  function Reach(length: nat, d: seq<Byte>): nat
    requires length < U32 && |d| >= length + ROOM
  {
    if length < ETHER_LENGTH then 0
    else
      var ip := EtherLength(d);
      if EtherType(d) != ETHERTYPE_IP || Sub32(length, ip) < IP_LENGTH then ip
      else if d[ip] / 16 != 4 then ip + 1
      else
        var udp := ip + IpHeaderLength(d);
        if d[ip + 9] as int != PROTOCOL_UDP || Sub32(length, udp) < UDP_LENGTH then ip + 10
        else if !IsGtpPort(U16(d, udp)) && !IsGtpPort(U16(d, udp + 2)) then Max(ip + 10, udp + 4)
        else if Sub32(length, udp + UDP_LENGTH) < GTP_LENGTH then Max(ip + 10, udp + 4)
        else Max(ip + 10, udp + UDP_LENGTH + 1)
  }

  function Max(a: nat, b: nat): nat {
    if a < b then b else a
  }

  /** A buffer continued by zeros, so that functions may speak of bytes past its end. */
  function Padded(d: seq<Byte>): seq<Byte> {
    d + seq(ROOM, i => 0)
  }

  lemma PaddedPrefix(d: seq<Byte>)
    ensures |Padded(d)| == |d| + ROOM && forall i :: 0 <= i < |d| ==> Padded(d)[i] == d[i]
  {
  }

  lemma HeaderWithinReach(length: nat, d: seq<Byte>)
    requires length < U32 && |d| >= length + ROOM
    ensures GetHeader(length, d).Some? ==> length >= ETHER_LENGTH && GetHeader(length, d).value < Reach(length, d)
  {
    hide EtherType, HasTag, U16, IpHeaderLength;
  }

  /** The search stays within the capture if the outer header is captured, and in any case it
      does not go further than ROOM bytes past it. */
  lemma ReachBounds(length: nat, d: seq<Byte>)
    requires length < U32 && |d| >= length + ROOM
    ensures Reach(length, d) <= length + ROOM
    ensures length >= ETHER_LENGTH && EtherLength(d) <= length && OuterHeaderCaptured(length, d)
            ==> Reach(length, d) <= length
  {
    if length >= ETHER_LENGTH && OuterHeaderCaptured(length, d) {
      var ip, udp := EtherLength(d), EtherLength(d) + IpHeaderLength(d);
      assert Sub32(length, ip) == length - ip && Sub32(length, udp) == length - udp;
      if udp + 8 <= length {
        assert Sub32(length, udp + 8) == length - udp - 8;
      }
    }
  }

  // ----- when the captured bytes alone decide

  /** The search reads no byte past the capture that could change its answer. */
  predicate LooksInside(length: nat, d: seq<Byte>)
    requires length < U32 && |d| >= length + ROOM
  {
    length < ETHER_LENGTH
    || (var ip := EtherLength(d);
        if ip > length then length == ETHER_LENGTH + 3 && d[16] != 0x08
        else EtherType(d) == ETHERTYPE_IP && ip + IP_LENGTH <= length
             && d[ip] / 16 == 4 && d[ip + 9] as int == PROTOCOL_UDP
             ==> OuterHeaderCaptured(length, d))
  }

  /** Buffers with the same captured bytes. */
  predicate SameCapture(length: nat, d: seq<Byte>, d': seq<Byte>)
    requires length <= |d|
  {
    |d'| == |d| && d'[..length] == d[..length]
  }

  lemma SameBytes(length: nat, d: seq<Byte>, d': seq<Byte>)
    requires length <= |d| && SameCapture(length, d, d')
    ensures forall i :: 0 <= i < length ==> d[i] == d'[i]
  {
    forall i | 0 <= i < length ensures d[i] == d'[i] {
      assert d[..length][i] == d'[..length][i];
    }
  }

  lemma CaptureDecides(length: nat, d: seq<Byte>, d': seq<Byte>)
    requires length < U32 && |d| >= length + ROOM && LooksInside(length, d) && SameCapture(length, d, d')
    ensures GetHeader(length, d') == GetHeader(length, d)
  {
    SameBytes(length, d, d');
    hide SameCapture;
    if length < ETHER_LENGTH {
      return;
    }
    assert HasTag(d') == HasTag(d);
    var ip := EtherLength(d);
    if ip > length {
      assert EtherType(d') != ETHERTYPE_IP && EtherType(d) != ETHERTYPE_IP;
    } else {
      assert EtherType(d') == EtherType(d) && Sub32(length, ip) == length - ip;
      if EtherType(d) == ETHERTYPE_IP && ip + IP_LENGTH <= length && OuterHeaderCaptured(length, d) {
        CapturedDecides(length, d, d');
      }
    }
  }

  lemma CapturedDecides(length: nat, d: seq<Byte>, d': seq<Byte>)
    requires ETHER_LENGTH <= length < U32 && |d'| == |d| >= length + ROOM
    requires forall i :: 0 <= i < length ==> d[i] == d'[i]
    requires EtherLength(d) + IP_LENGTH <= length && OuterHeaderCaptured(length, d)
    ensures GetHeader(length, d') == GetHeader(length, d)
  {
    assert HasTag(d') == HasTag(d);
    var ip, udp := EtherLength(d), EtherLength(d) + IpHeaderLength(d);
    assert EtherType(d') == EtherType(d) && d[ip] == d'[ip];
    assert IpHeaderLength(d') == IpHeaderLength(d);
    assert Sub32(length, udp) == length - udp;
    if udp + UDP_LENGTH <= length {
      assert U16(d', udp) == U16(d, udp) && U16(d', udp + 2) == U16(d, udp + 2);
      assert Sub32(length, udp + 8) == length - udp - 8;
    }
    hide HasTag, U16, EtherLength, EtherType, IpHeaderLength, OuterHeaderCaptured;
  }

  /** The answer depends on the captured bytes alone exactly when the search looks inside. */
  lemma CaptureDecidesIff(length: nat, d: seq<Byte>)
    requires length < U32 && |d| >= length + ROOM
    ensures LooksInside(length, d)
            <==> forall d' :: SameCapture(length, d, d') ==> GetHeader(length, d') == GetHeader(length, d)
  {
    if LooksInside(length, d) {
      forall d' | SameCapture(length, d, d') ensures GetHeader(length, d') == GetHeader(length, d) {
        CaptureDecides(length, d, d');
      }
    } else {
      var ip := EtherLength(d);
      if ip > length {
        UncapturedTag(length, d);
      } else {
        UncapturedHeader(length, d);
      }
      hide GetHeader, LooksInside;
      var found: seq<Byte>, missed: seq<Byte> :| SameCapture(length, d, found) && SameCapture(length, d, missed)
        && GetHeader(length, found) != GetHeader(length, missed);
    }
  }

  lemma SameHeaders(length: nat, d: seq<Byte>, d': seq<Byte>)
    requires ETHER_LENGTH <= length < U32 && |d| >= length + ROOM && SameCapture(length, d, d')
    requires EtherLength(d) + IP_LENGTH <= length
    ensures EtherLength(d') == EtherLength(d) && EtherType(d') == EtherType(d)
    ensures IpHeaderLength(d') == IpHeaderLength(d)
    ensures d'[EtherLength(d)] == d[EtherLength(d)] && d'[EtherLength(d) + 9] == d[EtherLength(d) + 9]
  {
    SameBytes(length, d, d');
    hide SameCapture;
  }

  /** The tag is captured in part: what follows it may turn out to be anything. */
  lemma UncapturedTag(length: nat, d: seq<Byte>)
    requires ETHER_LENGTH <= length < U32 && |d| >= length + ROOM
    requires EtherLength(d) > length && !(length == ETHER_LENGTH + 3 && d[16] != 0x08)
    ensures exists found: seq<Byte>, missed: seq<Byte> ::
              && SameCapture(length, d, found) && SameCapture(length, d, missed)
              && GetHeader(length, found) != GetHeader(length, missed)
  {
    var found := d[16 := 0x08][17 := 0x00][18 := 0x45][27 := 17][38 := 0x08][39 := 0x68][46 := 0x30];
    var missed := d[17 := 0x01];
    assert SameCapture(length, d, found) && SameCapture(length, d, missed);
    assert HasTag(found) && HasTag(missed);
    assert GetHeader(length, missed) == None;
    assert U16(found, 16) == ETHERTYPE_IP && U16(found, 38) == GTP_U_PORT && IpHeaderLength(found) == 20;
    assert GetHeader(length, found) == Some(46);
  }

  lemma PastCapture(length: nat, d: seq<Byte>)
    requires ETHER_LENGTH <= length < U32 && |d| >= length + ROOM
    requires var ip := EtherLength(d);
             && ip + IP_LENGTH <= length && EtherType(d) == ETHERTYPE_IP && d[ip] / 16 == 4
             && d[ip + 9] as int == PROTOCOL_UDP && !OuterHeaderCaptured(length, d)
    ensures var udp := EtherLength(d) + IpHeaderLength(d);
            && (d[udp + 8] as int / 16 != GTP_V1_TYPEVER ==> GetHeader(length, d) == None)
            && (IsGtpPort(U16(d, udp)) && d[udp + 8] as int / 16 == GTP_V1_TYPEVER
                ==> GetHeader(length, d) == Some(udp + 8))
  {
    var ip, udp := EtherLength(d), EtherLength(d) + IpHeaderLength(d);
    assert Sub32(length, ip) == length - ip && Sub32(length, udp) == length - udp + U32;
    assert Sub32(length, udp + 8) == length - udp - 8 + U32;
    hide Sub32, EtherLength, EtherType, U16, IpHeaderLength;
  }

  /** The outer IP header claims to end past the capture: ports and GTP version are read there. */
  lemma UncapturedHeader(length: nat, d: seq<Byte>)
    requires ETHER_LENGTH <= length < U32 && |d| >= length + ROOM
    requires var ip := EtherLength(d);
             && ip + IP_LENGTH <= length && EtherType(d) == ETHERTYPE_IP && d[ip] / 16 == 4
             && d[ip + 9] as int == PROTOCOL_UDP && !OuterHeaderCaptured(length, d)
    ensures exists found: seq<Byte>, missed: seq<Byte> ::
              && SameCapture(length, d, found) && SameCapture(length, d, missed)
              && GetHeader(length, found) != GetHeader(length, missed)
  {
    var ip, udp := EtherLength(d), EtherLength(d) + IpHeaderLength(d);
    var found := d[udp := 0x08][udp + 1 := 0x68][udp + 8 := 0x30];
    var missed := d[udp + 8 := 0x00];
    assert SameCapture(length, d, found) && SameCapture(length, d, missed);
    SameHeaders(length, d, found);
    SameHeaders(length, d, missed);
    assert U16(found, udp) == GTP_U_PORT && found[udp + 8] == 0x30 && missed[udp + 8] == 0x00;
    hide GetHeader, EtherType, EtherLength, HasTag, IpHeaderLength, U16, SameCapture;
    PastCapture(length, found);
    PastCapture(length, missed);
  }

  /** Where a header is found, in the bytes themselves, when the outer IP header is captured. */
  lemma HeaderIff(length: nat, d: seq<Byte>, g: nat)
    requires length < 0x1_0000_0000 && |d| >= length + 80
    requires var ip := if d[12] == 0x81 && d[13] == 0x00 then 18 else 14;
             length < 14 || ip + (d[ip] % 16) as int * 4 <= length
    ensures var ip := if d[12] == 0x81 && d[13] == 0x00 then 18 else 14;
            GetHeader(length, d) == Some(g) <==>
              && d[ip - 2] == 0x08 && d[ip - 1] == 0x00
              && d[ip] / 16 == 4 && d[ip + 9] == 17 && ip + 20 <= length
              && g == ip + (d[ip] % 16) as int * 4 + 8 && g + 8 <= length
              && ((d[g - 8] == 0x08 && (d[g - 7] == 0x68 || d[g - 7] == 0x4B))
                  || (d[g - 6] == 0x08 && (d[g - 5] == 0x68 || d[g - 5] == 0x4B)))
              && d[g] / 16 == 3
  {
    if length >= 14 {
      var ip := EtherLength(d);
      var udp := ip + IpHeaderLength(d);
      Word(d, 12);
      Word(d, 16);
      Word(d, udp);
      Word(d, udp + 2);
      assert Sub32(length, ip) == length - ip && Sub32(length, udp) == length - udp;
      if udp + 8 <= length {
        assert Sub32(length, udp + 8) == length - udp - 8;
      }
      hide U16, Sub32;
    }
  }

  /** Two bytes in network order, against the four numbers that matter. */
  lemma Word(d: seq<Byte>, i: nat)
    requires i + 1 < |d|
    ensures U16(d, i) == ETHERTYPE_IP <==> d[i] == 0x08 && d[i + 1] == 0x00
    ensures U16(d, i) == ETHERTYPE_VLAN <==> d[i] == 0x81 && d[i + 1] == 0x00
    ensures IsGtpPort(U16(d, i)) <==> d[i] == 0x08 && (d[i + 1] == 0x68 || d[i + 1] == 0x4B)
  {
  }

  // ----- tunnelled packets as layers

  /** A packet cut at its layers; rest is everything after the mandatory GTP header. */
  datatype Frame = Frame(ether: seq<Byte>, ip: seq<Byte>, udp: seq<Byte>, gtp: seq<Byte>, rest: seq<Byte>)

  function Bytes(f: Frame): seq<Byte> {
    f.ether + f.ip + f.udp + f.gtp + f.rest
  }

  predicate WellFormedEther(e: seq<Byte>) {
    || (|e| == ETHER_LENGTH && U16(e, 12) == ETHERTYPE_IP)
    || (|e| == ETHER_LENGTH + TAG_LENGTH && U16(e, 12) == ETHERTYPE_VLAN && U16(e, 16) == ETHERTYPE_IP)
  }

  /** IPv4 over Ethernet, optionally tagged, carrying UDP to or from a GTP port, carrying GTP version 1. */
  predicate WellFormed(f: Frame) {
    && WellFormedEther(f.ether)
    && |f.ip| >= IP_LENGTH && |f.ip| == (f.ip[0] % 16) as int * 4
    && f.ip[0] / 16 == 4 && f.ip[9] as int == PROTOCOL_UDP
    && |f.udp| == UDP_LENGTH && (IsGtpPort(U16(f.udp, 0)) || IsGtpPort(U16(f.udp, 2)))
    && |f.gtp| == GTP_LENGTH && f.gtp[0] as int / 16 == GTP_V1_TYPEVER
  }

  function GtpOffset(f: Frame): nat {
    |f.ether| + |f.ip| + |f.udp|
  }

  /** Every well-formed tunnelled packet is recognised, at the right offset. */
  lemma RecognisesFrame(f: Frame, d: seq<Byte>)
    requires WellFormed(f) && |Bytes(f)| < U32
    requires |d| >= |Bytes(f)| + ROOM && d[..|Bytes(f)|] == Bytes(f)
    ensures GetHeader(|Bytes(f)|, d) == Some(GtpOffset(f))
    ensures EtherLength(d) == |f.ether| && IpHeaderLength(d) == |f.ip|
    ensures d[GtpOffset(f)] == f.gtp[0]
  {
    FrameLayers(f, d);
    hide Bytes, GetHeader;
    var ether, ip, udp, gtp := f.ether, f.ip, f.udp, f.gtp;
    var a, b, c, n := |ether|, |ether| + |ip|, GtpOffset(f), |Bytes(f)|;
    assert U16(d, 12) == U16(ether, 12) && (a == 18 ==> U16(d, 16) == U16(ether, 16));
    assert EtherLength(d) == a && EtherType(d) == ETHERTYPE_IP;
    assert d[a + 0] == ip[0] && d[a + 9] == ip[9] && IpHeaderLength(d) == |ip|;
    assert U16(d, b) == U16(udp, 0) && U16(d, b + 2) == U16(udp, 2) by {
      assert d[b + 0] == udp[0] && d[b + 1] == udp[1] && d[b + 2] == udp[2] && d[b + 3] == udp[3];
    }
    assert d[c + 0] == gtp[0];
    assert n >= c + GTP_LENGTH;
    AcceptsFields(n, d, a, b);
  }

  /** The search succeeds once every test it makes is known to pass. */
  lemma AcceptsFields(length: nat, d: seq<Byte>, ip: nat, udp: nat)
    requires ETHER_LENGTH <= length < U32 && |d| >= length + ROOM
    requires ip == EtherLength(d) && udp == ip + IpHeaderLength(d) && EtherType(d) == ETHERTYPE_IP
    requires udp + 16 <= length && ip + IP_LENGTH <= length
    requires d[ip] / 16 == 4 && d[ip + 9] as int == PROTOCOL_UDP
    requires IsGtpPort(U16(d, udp)) || IsGtpPort(U16(d, udp + 2))
    requires d[udp + 8] as int / 16 == GTP_V1_TYPEVER
    ensures GetHeader(length, d) == Some(udp + 8)
  {
    assert Sub32(length, ip) == length - ip && Sub32(length, udp) == length - udp
           && Sub32(length, udp + 8) == length - udp - 8;
  }

  lemma FrameLayers(f: Frame, d: seq<Byte>)
    requires |d| >= |Bytes(f)| && d[..|Bytes(f)|] == Bytes(f)
    ensures |Bytes(f)| == |f.ether| + |f.ip| + |f.udp| + |f.gtp| + |f.rest|
    ensures forall i :: 0 <= i < |f.ether| ==> d[i] == f.ether[i]
    ensures forall i :: 0 <= i < |f.ip| ==> d[|f.ether| + i] == f.ip[i]
    ensures forall i :: 0 <= i < |f.udp| ==> d[|f.ether| + |f.ip| + i] == f.udp[i]
    ensures forall i :: 0 <= i < |f.gtp| ==> d[GtpOffset(f) + i] == f.gtp[i]
  {
    var p := Bytes(f);
    var a, b, c := f.ether, f.ether + f.ip, f.ether + f.ip + f.udp;
    hide *;
    Layered(f);
    LayerAt(d, p, [], f.ether, f.ip + f.udp + f.gtp + f.rest);
    LayerAt(d, p, a, f.ip, f.udp + f.gtp + f.rest);
    LayerAt(d, p, b, f.udp, f.gtp + f.rest);
    LayerAt(d, p, c, f.gtp, f.rest);
  }

  lemma Layered(f: Frame)
    ensures var p := Bytes(f);
            && p == [] + f.ether + (f.ip + f.udp + f.gtp + f.rest)
            && p == f.ether + f.ip + (f.udp + f.gtp + f.rest)
            && p == f.ether + f.ip + f.udp + (f.gtp + f.rest)
            && p == f.ether + f.ip + f.udp + f.gtp + f.rest
    ensures GtpOffset(f) == |f.ether + f.ip + f.udp|
  {
  }

  lemma LayerAt(d: seq<Byte>, p: seq<Byte>, before: seq<Byte>, layer: seq<Byte>, after: seq<Byte>)
    requires p == before + layer + after && |p| <= |d| && d[..|p|] == p
    ensures forall i :: 0 <= i < |layer| ==> d[|before| + i] == layer[i]
    ensures d[|before|..|before| + |layer|] == layer
  {
    forall i | 0 <= i < |layer| ensures d[|before| + i] == layer[i] {
      assert p[|before| + i] == d[..|p|][|before| + i];
    }
  }

  /** The layers of a recognised packet. */
  function Dissect(length: nat, d: seq<Byte>): Frame
    requires length <= |d| && |d| >= ROOM + ETHER_LENGTH
    requires OuterHeaderCaptured(length, d) && EtherLength(d) + IpHeaderLength(d) + 16 <= length
  {
    var a, b := EtherLength(d), EtherLength(d) + IpHeaderLength(d);
    Frame(d[..a], d[a..b], d[b..b + 8], d[b + 8..b + 16], d[b + 16..length])
  }

  /** And nothing else is: a packet in which a header is found inside the capture, under a
      legal IP header length, has exactly these layers. */
  lemma RecognisedIsFrame(length: nat, d: seq<Byte>)
    requires length < U32 && |d| >= length + ROOM
    requires GetHeader(length, d).Some? && OuterHeaderCaptured(length, d) && IpHeaderLength(d) >= IP_LENGTH
    ensures EtherLength(d) + IpHeaderLength(d) + 16 <= length
    ensures var f := Dissect(length, d);
            WellFormed(f) && Bytes(f) == d[..length] && GetHeader(length, d) == Some(GtpOffset(f))
  {
    FoundInsideIff(length, d);
    FoundFields(length, d);
    hide GetHeader;
    assert EtherLength(d) + IpHeaderLength(d) + 16 <= length;
    hide *;
    DissectIsWellFormed(length, d);
    DissectBytes(length, d);
  }

  lemma DissectIsWellFormed(length: nat, d: seq<Byte>)
    requires ETHER_LENGTH <= length && |d| >= length + ROOM
    requires OuterHeaderCaptured(length, d) && EtherLength(d) + IpHeaderLength(d) + 16 <= length
    requires FieldsSeen(d) && IpHeaderLength(d) >= IP_LENGTH
    ensures WellFormed(Dissect(length, d))
    ensures GtpOffset(Dissect(length, d)) == EtherLength(d) + IpHeaderLength(d) + UDP_LENGTH
  {
    var a, b := EtherLength(d), EtherLength(d) + IpHeaderLength(d);
    var f := Dissect(length, d);
    assert f.ip[0] == d[a] && f.ip[9] == d[a + 9] && f.gtp[0] == d[b + 8];
    assert U16(f.udp, 0) == U16(d, b) && U16(f.udp, 2) == U16(d, b + 2);
    assert WellFormedEther(f.ether) by {
      assert U16(f.ether, 12) == U16(d, 12) && (HasTag(d) ==> U16(f.ether, 16) == U16(d, 16));
    }
    hide WellFormedEther, U16, EtherType, IsGtpPort;
  }

  lemma DissectBytes(length: nat, d: seq<Byte>)
    requires ETHER_LENGTH <= length && |d| >= length + ROOM
    requires OuterHeaderCaptured(length, d) && EtherLength(d) + IpHeaderLength(d) + 16 <= length
    ensures Bytes(Dissect(length, d)) == d[..length]
  {
    hide EtherLength, IpHeaderLength;
    var a, b := EtherLength(d), EtherLength(d) + IpHeaderLength(d);
    var s, f := d[..length], Dissect(length, d);
    Rejoin(s, a, b, b + 8, b + 16);
    SliceOfPrefix(d, length, 0, a);
    SliceOfPrefix(d, length, a, b);
    SliceOfPrefix(d, length, b, b + 8);
    SliceOfPrefix(d, length, b + 8, b + 16);
    SliceOfPrefix(d, length, b + 16, length);
  }

  lemma SliceOfPrefix(d: seq<Byte>, n: nat, i: nat, j: nat)
    requires i <= j <= n <= |d|
    ensures d[..n][i..j] == d[i..j]
  {
  }

  lemma Rejoin(s: seq<Byte>, i: nat, j: nat, k: nat, l: nat)
    requires i <= j <= k <= l <= |s|
    ensures s[..i] + s[i..j] + s[j..k] + s[k..l] + s[l..] == s
  {
  }

  /** What a successful search has seen. */
  predicate FieldsSeen(d: seq<Byte>)
    requires |d| >= ROOM + ETHER_LENGTH
  {
    var ip := EtherLength(d);
    var udp := ip + IpHeaderLength(d);
    && EtherType(d) == ETHERTYPE_IP && d[ip] / 16 == 4 && d[ip + 9] as int == PROTOCOL_UDP
    && (IsGtpPort(U16(d, udp)) || IsGtpPort(U16(d, udp + 2)))
    && d[udp + UDP_LENGTH] as int / 16 == GTP_V1_TYPEVER
  }

  lemma FoundFields(length: nat, d: seq<Byte>)
    requires length < U32 && |d| >= length + ROOM
    requires GetHeader(length, d).Some?
    ensures length >= ETHER_LENGTH && FieldsSeen(d)
    ensures GetHeader(length, d).value == EtherLength(d) + IpHeaderLength(d) + UDP_LENGTH
  {
  }

  // ----- removing the tunnel

  function OptionFlags(first: Byte): int { (first % 8) as int }

  /** The three flag bits as the monitor receives them. */
  function OptionBits(flags: int): bv32 {
    (if flags / 4 % 2 == 1 then 4 else 0) | (if flags / 2 % 2 == 1 then 2 else 0) | (if flags % 2 == 1 then 1 else 0)
  }

  /** Where the tunnelled packet starts and where it is moved to. */
  datatype Plan = Keep | Move(source: nat, target: nat)

  function PlanFor(caplen: nat, d: seq<Byte>): Plan
    requires caplen < U32 && |d| >= caplen + ROOM
  {
    var h := GetHeader(caplen, d);
    if h.None? then Keep
    else
      var flags := OptionFlags(d[h.value]);
      if flags / 4 % 2 == 1 then Keep // an extension header follows
      else Move(h.value + GTP_LENGTH + (if flags != 0 then GTP_OPTIONAL_LENGTH else 0), EtherLength(d))
  }

  /** The number of bytes the move copies: the new captured length, not what follows source. */
  function MoveCount(caplen: nat, plan: Plan): nat
    requires plan.Move?
  {
    Sub32(caplen, plan.source - plan.target)
  }

  /** A buffer of n bytes reaches as far as the copy does. */
  predicate CopyWithin(caplen: nat, d: seq<Byte>, n: nat)
    requires caplen < U32 && |d| >= caplen + ROOM
  {
    var plan := PlanFor(caplen, d);
    plan.Move? ==> plan.source + MoveCount(caplen, plan) <= n
  }

  function Moved(d: seq<Byte>, source: nat, target: nat, count: nat): seq<Byte>
    requires target <= source && source + count <= |d|
  {
    d[..target] + d[source..source + count] + d[target + count..]
  }

  lemma PlanMovesDown(caplen: nat, d: seq<Byte>)
    requires caplen < U32 && |d| >= caplen + ROOM && PlanFor(caplen, d).Move?
    ensures var p := PlanFor(caplen, d); p.target + 16 <= p.source <= p.target + 80
  {
  }

  /** When the move can be done at all: exactly when it does not drop more than was captured,
      and the buffer goes on past the capture for as long as the Ethernet header is. Otherwise
      the copy's length wraps, or it ends too late. A captured outer IP header is enough for the
      first. */
  lemma CopyWithinIff(caplen: nat, d: seq<Byte>, n: nat)
    requires caplen <= n <= U32 && caplen < U32 && |d| >= caplen + ROOM
    ensures var plan := PlanFor(caplen, d);
            && (CopyWithin(caplen, d, n) <==>
                plan.Move? ==> plan.source <= caplen + plan.target <= n)
            && (plan.Move? ==> plan.target == EtherLength(d))
            && (plan.Move? && OuterHeaderCaptured(caplen, d) ==> plan.source <= caplen + plan.target)
  {
    var plan := PlanFor(caplen, d);
    if plan.Move? {
      PlanMovesDown(caplen, d);
      FoundInsideIff(caplen, d);
      hide GetHeader, OuterHeaderCaptured, IpHeaderLength, HasTag, U16;
      var dropped := plan.source - plan.target;
      assert Sub32(caplen, dropped) == if dropped <= caplen then caplen - dropped else caplen - dropped + U32;
    }
  }

  /** A capture of 42 bytes on which both fail: its IP header length points past the capture,
      where the bytes happen to look like a tunnel. */
  function Misleading(): seq<Byte> {
    seq(122, i => 0)[12 := 0x08][14 := 0x4F][23 := 17][74 := 0x08][75 := 0x68][82 := 0x30]
  }

  lemma MayLookPastCapture()
    ensures var d := Misleading();
            && GetHeader(42, d) == Some(82) && !OuterHeaderCaptured(42, d)
            && !LooksInside(42, d) && Reach(42, d) == 83
            && forall n :: 42 <= n <= U32 ==> !CopyWithin(42, d, n)
  {
    var d := Misleading();
    assert U16(d, 12) == ETHERTYPE_IP && U16(d, 74) == GTP_U_PORT && IpHeaderLength(d) == 60;
    assert GetHeader(42, d) == Some(82);
    forall n | 42 <= n <= U32 ensures !CopyWithin(42, d, n) {
      CopyWithinIff(42, d, n);
    }
    hide GetHeader, LooksInside;
  }

  method MemMove(data: array<Byte>, target: nat, source: nat, count: nat)
    requires target <= source && source + count <= data.Length
    modifies data
    ensures data[..] == Moved(old(data[..]), source, target, count)
  {
    hide *;
    ghost var d := data[..];
    for k := 0 to count
      invariant forall i :: target <= i < target + k ==> data[i] == d[i + (source - target)]
      invariant forall i :: target + k <= i < data.Length ==> data[i] == d[i]
      invariant forall i :: 0 <= i < target ==> data[i] == d[i]
    {
      data[target + k] := data[source + k];
    }
    MovedIs(data[..], d, source, target, count);
  }

  lemma MovedIs(s: seq<Byte>, d: seq<Byte>, source: nat, target: nat, count: nat)
    requires target <= source && source + count <= |d| == |s|
    requires forall i :: target <= i < target + count ==> s[i] == d[i + (source - target)]
    requires forall i :: target + count <= i < |d| ==> s[i] == d[i]
    requires forall i :: 0 <= i < target ==> s[i] == d[i]
    ensures s == Moved(d, source, target, count)
  {
    assert s[..target] == d[..target];
    assert s[target..target + count] == d[source..source + count];
    assert s[target + count..] == d[target + count..];
    assert s == s[..target] + s[target..target + count] + s[target + count..];
  }

  /** Padding a buffer does not change what a copy within it brings to the front. */
  lemma MovedPadded(d: seq<Byte>, source: nat, target: nat, count: nat)
    requires target <= source && source + count <= |d|
    ensures Moved(Padded(d), source, target, count)[..count] == Moved(d, source, target, count)[..count]
  {
    var p := Padded(d);
    assert p[..target] == d[..target] && p[source..source + count] == d[source..source + count];
    var front := d[..target] + d[source..source + count];
    assert Moved(p, source, target, count)[..target + count] == front;
    assert Moved(d, source, target, count)[..target + count] == front;
    hide *;
    assert forall s: seq<Byte> :: |s| >= target + count ==> s[..count] == s[..target + count][..count];
  }

  /** The plan, from the header, its flags and the Ethernet type. */
  lemma PlanParts(caplen: nat, d: seq<Byte>)
    requires caplen < U32 && |d| >= caplen + ROOM
    ensures var h := GetHeader(caplen, d);
            if h.None? then PlanFor(caplen, d) == Keep
            else
              var flags := OptionFlags(d[h.value]);
              var source := h.value + GTP_LENGTH + if flags != 0 then GTP_OPTIONAL_LENGTH else 0;
              var tag := if d[12] as int * 256 + d[13] as int == ETHERTYPE_VLAN then TAG_LENGTH else 0;
              PlanFor(caplen, d) == if flags / 4 % 2 == 1 then Keep else Move(source, ETHER_LENGTH + tag)
  {
    hide GetHeader;
  }

  /** The buffer and the lengths after a plan is carried out. */
  function Rearranged(d: seq<Byte>, caplen: nat, plan: Plan): seq<Byte>
    requires Fits(caplen, plan, |d|)
  {
    if plan.Keep? then d else Moved(d, plan.source, plan.target, MoveCount(caplen, plan))
  }

  function Shortened(length: nat, plan: Plan): nat {
    if plan.Keep? then length else Sub32(length, plan.source - plan.target)
  }

  predicate Fits(caplen: nat, plan: Plan, n: nat) {
    plan.Move? ==> plan.target <= plan.source && plan.source + MoveCount(caplen, plan) <= n
  }

  lemma CopyFits(caplen: nat, d: seq<Byte>, n: nat)
    requires caplen < U32 && |d| >= caplen + ROOM && CopyWithin(caplen, d, n)
    ensures Fits(caplen, PlanFor(caplen, d), n)
  {
    if PlanFor(caplen, d).Move? {
      PlanMovesDown(caplen, d);
    }
    hide PlanFor, MoveCount;
  }

  /** A monitor that has counted one tunnelled packet of a given length, whose first GTP byte
      holds the three option bits at its low end. */
  function Counted(r: Record, len: nat, first: Byte): Record {
    var c, b := r.counters, first as int;
    r.(counters := c.(gtpPackets := c.gtpPackets + 1, gtpBytes := c.gtpBytes + len,
                      gtpExt := c.gtpExt + b / 4 % 2, gtpSeqno := c.gtpSeqno + b / 2 % 2,
                      gtpNpdu := c.gtpNpdu + b % 2))
  }

  lemma BitsOf(e: bool, s: bool, n: bool)
    ensures var o: bv32 := (if e then 4 else 0) | (if s then 2 else 0) | (if n then 1 else 0);
            (o & 4 != 0 <==> e) && (o & 2 != 0 <==> s) && (o & 1 != 0 <==> n)
  {
  }

  lemma FlagsOf(first: Byte)
    ensures var f, b := OptionFlags(first), first as int;
            f / 4 % 2 == b / 4 % 2 && f / 2 % 2 == b / 2 % 2 && f % 2 == b % 2 && 0 <= f < 8
  {
    var b := first as int;
    var q, f := b / 8, b % 8;
    assert OptionFlags(first) == f && b == 8 * q + f;
    assert b / 4 == 2 * q + f / 4 && b / 2 == 4 * q + f / 2;
    hide OptionFlags;
  }

  lemma CountedIs(r: Record, len: nat, first: Byte)
    ensures IncrementGtp(r, 1, len, OptionBits(OptionFlags(first))) == Counted(r, len, first)
  {
    FlagsOf(first);
    var f := OptionFlags(first);
    BitsOf(f / 4 % 2 == 1, f / 2 % 2 == 1, f % 2 == 1);
    var o := OptionBits(f);
    assert (o & 4 != 0 <==> f / 4 % 2 == 1) && (o & 2 != 0 <==> f / 2 % 2 == 1) && (o & 1 != 0 <==> f % 2 == 1);
    hide OptionFlags, OptionBits, IncrementGtp;
    GtpRecord(r, 1, len, o);
    hide One;
    OneIsBit(f / 4 % 2);
    OneIsBit(f / 2 % 2);
    OneIsBit(f % 2);
  }

  lemma OneIsBit(b: int)
    requires 0 <= b < 2
    ensures One(b == 1) == b
  {
  }

  /** Untunnels a packet in its capture buffer; returns the adjusted header lengths. It needs
      no more of the buffer than the search reads and the move copies. */
  method UntunnelPacket(monitor: MonitorStruct?, caplen: nat, len: nat, data: array<Byte>)
    returns (newCaplen: nat, newLen: nat)
    requires caplen < U32 && len < U32 && data.Length >= caplen
    requires data.Length >= Reach(caplen, Padded(data[..]))
    requires CopyWithin(caplen, Padded(data[..]), data.Length)
    modifies data, monitor
    ensures var d := old(data[..]); var plan := PlanFor(caplen, Padded(d));
            && data[..] == (CopyFits(caplen, Padded(d), |d|); Rearranged(d, caplen, plan))
            && newCaplen == Shortened(caplen, plan) && newLen == Shortened(len, plan)
    ensures monitor != null ==>
      var p := Padded(old(data[..]));
      var h := GetHeader(caplen, p);
      monitor.View() ==
        if h.None? then old(monitor.View()) else Counted(old(monitor.View()), len, p[h.value])
  {
    newCaplen, newLen := caplen, len;
    ghost var d, p := data[..], Padded(data[..]);
    HeaderBytes(caplen, d);
    PlanParts(caplen, p);
    CopyFits(caplen, p, data.Length);
    KeepChangesNothing(d, caplen);
    KeepChangesNothing(d, len);
    hide GetHeader, Reach, IncrementGtp, OptionBits, OptionFlags, Padded, PlanFor, Fits, Rearranged, Shortened;
    hide Counted;
    var header := FindHeader(caplen, data);
    if header.None? {
      return;
    }
    if monitor != null {
      CountedIs(monitor.View(), len, data[header.value]);
    }
    var flags := OptionFlags(data[header.value]);
    MonitorIncrementGtp(monitor, 1, len, OptionBits(flags));
    if flags / 4 % 2 == 1 {
      return;
    }
    var source := header.value + GTP_LENGTH;
    if flags != 0 {
      source := source + GTP_OPTIONAL_LENGTH;
    }
    var target := ETHER_LENGTH;
    if data[12] as int * 256 + data[13] as int == ETHERTYPE_VLAN {
      target := target + TAG_LENGTH;
    }
    newCaplen, newLen := CutOut(caplen, len, data, source, target);
  }

  lemma KeepChangesNothing(d: seq<Byte>, length: nat)
    ensures Rearranged(d, length, Keep) == d && Shortened(length, Keep) == length
  {
  }

  /** Moves what starts at source to target and takes the difference off both lengths. */
  method CutOut(caplen: nat, len: nat, data: array<Byte>, source: nat, target: nat)
    returns (newCaplen: nat, newLen: nat)
    requires Fits(caplen, Move(source, target), data.Length)
    modifies data
    ensures data[..] == Rearranged(old(data[..]), caplen, Move(source, target))
    ensures newCaplen == Shortened(caplen, Move(source, target)) && newLen == Shortened(len, Move(source, target))
  {
    var dropped := source - target;
    MemMove(data, target, source, Sub32(caplen, dropped));
    newCaplen := Sub32(caplen, dropped);
    newLen := Sub32(len, dropped);
  }

  lemma HeaderBytes(length: nat, d: seq<Byte>)
    requires length < U32 && |d| >= length && |d| >= Reach(length, Padded(d))
    ensures GetHeader(length, Padded(d)).Some? ==>
              var h := GetHeader(length, Padded(d)).value;
              && ETHER_LENGTH <= |d| && h < |d|
              && Padded(d)[h] == d[h] && Padded(d)[12] == d[12] && Padded(d)[13] == d[13]
  {
    PaddedPrefix(d);
    HeaderWithinReach(length, Padded(d));
    hide GetHeader, Reach, Padded;
  }

  /** The search itself, step by step over the buffer. */
  method FindHeader(length: nat, data: array<Byte>) returns (header: Option<nat>)
    requires length < U32 && data.Length >= length
    requires data.Length >= Reach(length, Padded(data[..]))
    ensures header == GetHeader(length, Padded(data[..]))
    ensures header.Some? ==> header.value < data.Length
  {
    ghost var p := Padded(data[..]);
    PaddedPrefix(data[..]);
    hide Padded;
    var offset := 0;
    if Sub32(length, offset) < ETHER_LENGTH {
      return None;
    }
    var etherType := data[12] as int * 256 + data[13] as int;
    if etherType == ETHERTYPE_VLAN {
      etherType := data[16] as int * 256 + data[17] as int;
      offset := offset + ETHER_LENGTH + TAG_LENGTH;
    } else {
      offset := offset + ETHER_LENGTH;
    }
    assert offset == EtherLength(p) && etherType == EtherType(p);
    hide EtherLength, EtherType, HasTag;
    if etherType != ETHERTYPE_IP {
      return None;
    }
    if Sub32(length, offset) < IP_LENGTH {
      return None;
    }
    if data[offset] / 16 != 4 {
      return None;
    }
    if data[offset + 9] as int != PROTOCOL_UDP {
      return None;
    }
    assert (data[offset] % 16) as int * 4 == IpHeaderLength(p);
    hide IpHeaderLength;
    offset := offset + (data[offset] % 16) as int * 4;
    if Sub32(length, offset) < UDP_LENGTH {
      return None;
    }
    var sport := data[offset] as int * 256 + data[offset + 1] as int;
    var dport := data[offset + 2] as int * 256 + data[offset + 3] as int;
    assert sport == U16(p, offset) && dport == U16(p, offset + 2);
    hide U16;
    if sport != GTP_U_PORT && dport != GTP_U_PORT && sport != GTP_C_PORT && dport != GTP_C_PORT {
      return None;
    }
    offset := offset + UDP_LENGTH;
    if Sub32(length, offset) < GTP_LENGTH {
      return None;
    }
    if data[offset] as int / 16 != GTP_V1_TYPEVER {
      return None;
    }
    return Some(offset);
  }

  // ----- what untunnelling means

  /** The optional GTP fields present, and the tunnelled packet after them. */
  function OptionalLength(f: Frame): nat
    requires |f.gtp| == GTP_LENGTH
  {
    if OptionFlags(f.gtp[0]) != 0 then GTP_OPTIONAL_LENGTH else 0
  }

  /** No extension header, and the optional fields are complete. */
  predicate Untunnellable(f: Frame) {
    WellFormed(f) && OptionFlags(f.gtp[0]) / 4 % 2 == 0 && |f.rest| >= OptionalLength(f)
  }

  /** The packet that was put in the tunnel, directly under the Ethernet header. */
  function Inner(f: Frame): seq<Byte>
    requires Untunnellable(f)
  {
    f.ether + f.rest[OptionalLength(f)..]
  }

  /** For every tunnelled packet, what UntunnelPacket leaves within the new captured length
      is the Ethernet header and the whole inner packet, byte for byte; the captured and the
      original length shrink by the same amount. To do so it reads as many bytes past the
      capture as the Ethernet header is long, which is the room a buffer must have. */
  lemma UntunnelsFrame(f: Frame, len: nat, d: seq<Byte>)
    requires Untunnellable(f) && |Bytes(f)| <= len < U32
    requires |d| >= |Bytes(f)| + ROOM && d[..|Bytes(f)|] == Bytes(f)
    ensures var caplen, plan := |Bytes(f)|, PlanFor(|Bytes(f)|, d);
            && plan.Move? && plan.target <= plan.source
            && plan.source + MoveCount(caplen, plan) == caplen + |f.ether|
            && CopyWithin(caplen, d, |d|)
            && MoveCount(caplen, plan) == |Inner(f)|
            && len - Sub32(len, plan.source - plan.target) == caplen - |Inner(f)|
            && Moved(d, plan.source, plan.target, MoveCount(caplen, plan))[..|Inner(f)|] == Inner(f)
  {
    hide *;
    FramePlan(f, len, d);
    FrameContent(f, d);
  }

  /** The same for a buffer that goes on for just that long: it meets what UntunnelPacket
      requires, and holds the Ethernet header and the inner packet afterwards. */
  lemma UntunnelsInPlace(f: Frame, len: nat, d: seq<Byte>)
    requires Untunnellable(f) && |Bytes(f)| <= len < U32
    requires |d| >= |Bytes(f)| + |f.ether| && d[..|Bytes(f)|] == Bytes(f)
    ensures var caplen, p := |Bytes(f)|, Padded(d); var plan := PlanFor(caplen, p);
            && Reach(caplen, p) <= |d| && CopyWithin(caplen, p, |d|) && Fits(caplen, plan, |d|)
            && Shortened(caplen, plan) == |Inner(f)|
            && len - Shortened(len, plan) == caplen - |Inner(f)|
            && Rearranged(d, caplen, plan)[..|Inner(f)|] == Inner(f)
  {
    var caplen, p := |Bytes(f)|, Padded(d);
    assert |p| >= caplen + ROOM && p[..caplen] == d[..caplen];
    assert WellFormed(f);
    FrameFits(f, p);
    hide Bytes, Padded, WellFormed, PlanFor, Moved, Reach, Inner, MoveCount, Sub32;
    UntunnelsFrame(f, len, p);
    var plan := PlanFor(caplen, p);
    assert CopyWithin(caplen, p, |d|);
    MovedPadded(d, plan.source, plan.target, |Inner(f)|);
    MoveShortens(caplen, plan);
  }

  lemma MoveShortens(caplen: nat, plan: Plan)
    requires plan.Move?
    ensures MoveCount(caplen, plan) == Shortened(caplen, plan)
  {
  }

  /** The first GTP byte, by its bits: version and protocol type, a reserved bit, and the
      extension, sequence and N-PDU bits. */
  predicate HasBits(first: Byte, r: int, e: int, s: int, n: int) {
    && 0 <= r <= 1 && 0 <= e <= 1 && 0 <= s <= 1 && 0 <= n <= 1
    && first as int == 0x30 + 8 * r + 4 * e + 2 * s + n
  }

  /** A tunnelled packet is left alone exactly when its extension bit is set. */
  lemma KeptByBits(f: Frame, d: seq<Byte>, r: int, e: int, s: int, n: int)
    requires WellFormed(f) && |Bytes(f)| < U32 && HasBits(f.gtp[0], r, e, s, n)
    requires |d| >= |Bytes(f)| + ROOM && d[..|Bytes(f)|] == Bytes(f)
    ensures PlanFor(|Bytes(f)|, d).Keep? <==> e == 1
    ensures GetHeader(|Bytes(f)|, d) == Some(|f.ether| + |f.ip| + 8) && d[|f.ether| + |f.ip| + 8] == f.gtp[0]
  {
    BitsOfByte(f.gtp[0], r, e, s, n);
    assert |f.udp| == 8;
    hide Bytes, WellFormed, PlanFor, GetHeader, EtherLength, IpHeaderLength, OptionFlags, HasBits;
    RecognisesFrame(f, d);
    PlanParts(|Bytes(f)|, d);
  }

  /** Otherwise the optional field of 4 bytes is dropped as well if one of the other two bits is
      set, and the inner packet is what follows. */
  lemma UntunnelsByBits(f: Frame, len: nat, d: seq<Byte>, r: int, s: int, n: int)
    requires WellFormed(f) && |Bytes(f)| <= len < U32 && HasBits(f.gtp[0], r, 0, s, n)
    requires |d| >= |Bytes(f)| + |f.ether| && d[..|Bytes(f)|] == Bytes(f)
    requires |f.rest| >= if s == 1 || n == 1 then 4 else 0
    ensures var caplen, p := |Bytes(f)|, Padded(d); var plan := PlanFor(caplen, p);
            var inner := f.ether + f.rest[if s == 1 || n == 1 then 4 else 0..];
            && Reach(caplen, p) <= |d| && CopyWithin(caplen, p, |d|) && Fits(caplen, plan, |d|)
            && Shortened(caplen, plan) == |inner| && len - Shortened(len, plan) == caplen - |inner|
            && Rearranged(d, caplen, plan)[..|inner|] == inner
  {
    BitsOfByte(f.gtp[0], r, 0, s, n);
    var k := if s == 1 || n == 1 then 4 else 0;
    BitsInner(f, k);
    hide *;
    UntunnelsInPlace(f, len, d);
  }

  /** And the monitor counts the packet and each bit that is set. */
  lemma CountedByBits(m: Record, len: nat, first: Byte, r: int, e: int, s: int, n: int)
    requires HasBits(first, r, e, s, n)
    ensures var c := m.counters;
            Counted(m, len, first)
            == m.(counters := c.(gtpPackets := c.gtpPackets + 1, gtpBytes := c.gtpBytes + len,
                                 gtpExt := c.gtpExt + e, gtpSeqno := c.gtpSeqno + s, gtpNpdu := c.gtpNpdu + n))
  {
    BitsOfByte(first, r, e, s, n);
  }

  lemma BitsOfByte(first: Byte, r: int, e: int, s: int, n: int)
    requires HasBits(first, r, e, s, n)
    ensures var b := first as int; b / 4 % 2 == e && b / 2 % 2 == s && b % 2 == n
    ensures OptionFlags(first) == 4 * e + 2 * s + n
  {
  }

  lemma BitsInner(f: Frame, k: nat)
    requires WellFormed(f) && OptionFlags(f.gtp[0]) / 4 % 2 == 0 && |f.rest| >= k
    requires k == if OptionFlags(f.gtp[0]) != 0 then 4 else 0
    ensures Untunnellable(f) && Inner(f) == f.ether + f.rest[k..]
  {
    hide WellFormed, OptionFlags;
  }

  lemma FrameFits(f: Frame, d: seq<Byte>)
    requires WellFormed(f) && |Bytes(f)| < U32
    requires |d| >= |Bytes(f)| + ROOM && d[..|Bytes(f)|] == Bytes(f)
    ensures Reach(|Bytes(f)|, d) <= |Bytes(f)|
  {
    RecognisesFrame(f, d);
    FrameLayers(f, d);
    hide Bytes, GetHeader, Reach, EtherLength, IpHeaderLength;
    ReachBounds(|Bytes(f)|, d);
  }

  lemma FramePlan(f: Frame, len: nat, d: seq<Byte>)
    requires Untunnellable(f) && |Bytes(f)| <= len < U32
    requires |d| >= |Bytes(f)| + ROOM && d[..|Bytes(f)|] == Bytes(f)
    ensures var caplen, plan := |Bytes(f)|, PlanFor(|Bytes(f)|, d);
            && plan == Move(|f.ether| + HeadLength(f), |f.ether|)
            && MoveCount(caplen, plan) == |Inner(f)|
            && plan.source + |Inner(f)| == caplen + |f.ether|
            && len - Sub32(len, plan.source - plan.target) == caplen - |Inner(f)|
            && CopyWithin(caplen, d, |d|) && |d| >= caplen + |f.ether|
  {
    RecognisesFrame(f, d);
    PlanForFrame(f, d);
    FrameLayers(f, d);
    hide Bytes, GetHeader, EtherLength, PlanFor, IpHeaderLength, U16;
    FrameMove(f, len, d);
  }

  lemma FrameContent(f: Frame, d: seq<Byte>)
    requires Untunnellable(f) && |d| >= |Bytes(f)| + |f.ether| && d[..|Bytes(f)|] == Bytes(f)
    ensures |f.ether| + HeadLength(f) + |Inner(f)| <= |d|
    ensures Moved(d, |f.ether| + HeadLength(f), |f.ether|, |Inner(f)|)[..|Inner(f)|] == Inner(f)
  {
    var opt := OptionalLength(f);
    SplitFrame(f, opt, d);
    hide Bytes, WellFormed, Moved;
    CopiedPrefix(d, f.ether, HeadLength(f), f.rest[opt..]);
  }

  /** The bytes between the Ethernet header and the inner packet. */
  function HeadLength(f: Frame): nat
    requires |f.gtp| == GTP_LENGTH
  {
    |f.ip| + |f.udp| + |f.gtp| + OptionalLength(f)
  }

  /** The numbers of the move, once its plan is known. */
  lemma FrameMove(f: Frame, len: nat, d: seq<Byte>)
    requires Untunnellable(f) && |Bytes(f)| <= len < U32 && |d| >= |Bytes(f)| + ROOM
    requires |Bytes(f)| == |f.ether| + HeadLength(f) + |f.rest| - OptionalLength(f)
    requires PlanFor(|Bytes(f)|, d) == Move(|f.ether| + HeadLength(f), |f.ether|)
    ensures var caplen, plan := |Bytes(f)|, PlanFor(|Bytes(f)|, d);
            && MoveCount(caplen, plan) == |f.ether| + |f.rest| - OptionalLength(f) == |Inner(f)|
            && plan.source + MoveCount(caplen, plan) == caplen + |f.ether|
            && Sub32(len, plan.source - plan.target) == len - HeadLength(f)
            && CopyWithin(caplen, d, |d|)
            && |f.ether| <= ETHER_LENGTH + TAG_LENGTH
  {
    hide Bytes, PlanFor, GetHeader, OptionalLength, U16;
  }

  lemma PlanForFrame(f: Frame, d: seq<Byte>)
    requires Untunnellable(f) && |Bytes(f)| < U32 && |d| >= |Bytes(f)| + ROOM
    requires GetHeader(|Bytes(f)|, d) == Some(GtpOffset(f))
    requires EtherLength(d) == |f.ether| && d[GtpOffset(f)] == f.gtp[0]
    ensures PlanFor(|Bytes(f)|, d)
            == Move(|f.ether| + HeadLength(f), |f.ether|)
  {
    hide GetHeader, Bytes, EtherLength;
  }

  lemma SplitFrame(f: Frame, opt: nat, d: seq<Byte>)
    requires opt <= |f.rest| && |d| >= |Bytes(f)| && d[..|Bytes(f)|] == Bytes(f)
    ensures var h := |f.ip| + |f.udp| + |f.gtp| + opt;
            && |Bytes(f)| == |f.ether| + h + (|f.rest| - opt)
            && d[..|f.ether|] == f.ether
            && d[|f.ether| + h..|f.ether| + h + |f.rest[opt..]|] == f.rest[opt..]
  {
    FrameLayers(f, d);
    var a := f.ether + f.ip + f.udp + f.gtp;
    assert Bytes(f) == a + f.rest;
    hide *;
    assert a + f.rest == a + f.rest[..opt] + f.rest[opt..] + [];
    LayerAt(d, Bytes(f), a + f.rest[..opt], f.rest[opt..], []);
  }

  /** A copy towards the front brings the wanted bytes to the front. */
  lemma CopiedPrefix(d: seq<Byte>, ether: seq<Byte>, skip: nat, rest: seq<Byte>)
    requires |d| >= |ether| + skip + |rest| + |ether|
    requires d[..|ether|] == ether && d[|ether| + skip..|ether| + skip + |rest|] == rest
    ensures var n := |ether| + |rest|; Moved(d, |ether| + skip, |ether|, n)[..n] == ether + rest
  {
    var s, n := |ether| + skip, |ether| + |rest|;
    assert d[s..s + n][..|rest|] == d[s..s + |rest|];
  }
}
