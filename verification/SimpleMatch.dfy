/** The simple match: flows that match only on the fields that every packet has are found by a 64-bit mark. */
module SimpleMatch {
  import opened FlowModel

  // ---------------------------------------------------------------- the mark

  /** Port, Ethernet type, fragment bits and VLAN tag side by side. */
  function Join(p: bv64, d: bv64, f: bv64, v: bv64): bv64 { (p << 32) | (d << 16) | f | v }

  function PortPart(mark: bv64): bv64 { mark >> 32 }

  function TypePart(mark: bv64): bv64 { (mark >> 16) & 0xffff }

  function Part(mark: bv64, mask: bv64): bv64 { mark & mask }

  function Port64(p: bv32): bv64 { p as bv64 }

  function Type64(d: bv16): bv64 { d as bv64 }

  function FragLE(f: bv8): bv64 { ((f & 3) as bv64) << 5 }

  function FragBE(f: bv8): bv64 { ((f & 3) as bv64) << 13 }

  function VlanLE(v: bv16): bv64 { (v & 0xff1f) as bv64 }

  function VlanBE(v: bv16): bv64 { (v & 0x1fff) as bv64 }

  /** dp_netdev_simple_match_mark() on a little-endian host; `dlType` and `vlanTci` are in network byte order, so that
      the bits VID and CFI of the tag are those of 0xff1f. */
  function MarkLE(inPort: bv32, dlType: bv16, nwFrag: bv8, vlanTci: bv16): bv64 {
    Join(Port64(inPort), Type64(dlType), FragLE(nwFrag), VlanLE(vlanTci))
  }

  /** The same on a big-endian host. */
  function MarkBE(inPort: bv32, dlType: bv16, nwFrag: bv8, vlanTci: bv16): bv64 {
    Join(Port64(inPort), Type64(dlType), FragBE(nwFrag), VlanBE(vlanTci))
  }

  predicate Fits(x: bv64, mask: bv64) { x & mask == x }

  lemma JoinPortLE(p: bv64, d: bv64, f: bv64, v: bv64)
    requires Fits(p, 0xffff_ffff) && Fits(d, 0xffff) && Fits(f, 0x60) && Fits(v, 0xff1f)
    ensures PortPart(Join(p, d, f, v)) == p
  {
  }

  lemma JoinTypeLE(p: bv64, d: bv64, f: bv64, v: bv64)
    requires Fits(p, 0xffff_ffff) && Fits(d, 0xffff) && Fits(f, 0x60) && Fits(v, 0xff1f)
    ensures TypePart(Join(p, d, f, v)) == d
  {
  }

  lemma JoinFragLE(p: bv64, d: bv64, f: bv64, v: bv64)
    requires Fits(p, 0xffff_ffff) && Fits(d, 0xffff) && Fits(f, 0x60) && Fits(v, 0xff1f)
    ensures Part(Join(p, d, f, v), 0x60) == f
  {
  }

  lemma JoinVlanLE(p: bv64, d: bv64, f: bv64, v: bv64)
    requires Fits(p, 0xffff_ffff) && Fits(d, 0xffff) && Fits(f, 0x60) && Fits(v, 0xff1f)
    ensures Part(Join(p, d, f, v), 0xff1f) == v
  {
  }

  lemma JoinPortBE(p: bv64, d: bv64, f: bv64, v: bv64)
    requires Fits(p, 0xffff_ffff) && Fits(d, 0xffff) && Fits(f, 0x6000) && Fits(v, 0x1fff)
    ensures PortPart(Join(p, d, f, v)) == p
  {
  }

  lemma JoinTypeBE(p: bv64, d: bv64, f: bv64, v: bv64)
    requires Fits(p, 0xffff_ffff) && Fits(d, 0xffff) && Fits(f, 0x6000) && Fits(v, 0x1fff)
    ensures TypePart(Join(p, d, f, v)) == d
  {
  }

  lemma JoinFragBE(p: bv64, d: bv64, f: bv64, v: bv64)
    requires Fits(p, 0xffff_ffff) && Fits(d, 0xffff) && Fits(f, 0x6000) && Fits(v, 0x1fff)
    ensures Part(Join(p, d, f, v), 0x6000) == f
  {
  }

  lemma JoinVlanBE(p: bv64, d: bv64, f: bv64, v: bv64)
    requires Fits(p, 0xffff_ffff) && Fits(d, 0xffff) && Fits(f, 0x6000) && Fits(v, 0x1fff)
    ensures Part(Join(p, d, f, v), 0x1fff) == v
  {
  }

  lemma PortWide(p: bv32, q: bv32)
    ensures Fits(Port64(p), 0xffff_ffff) && (Port64(p) == Port64(q) ==> p == q)
  {
  }

  lemma TypeWide(d: bv16, e: bv16)
    ensures Fits(Type64(d), 0xffff) && (Type64(d) == Type64(e) ==> d == e)
  {
  }

  lemma FragWide(f: bv8, g: bv8)
    ensures Fits(FragLE(f), 0x60) && (FragLE(f) == FragLE(g) <==> Same8(f, g, 3))
    ensures Fits(FragBE(f), 0x6000) && (FragBE(f) == FragBE(g) <==> Same8(f, g, 3))
  {
  }

  lemma VlanFitsLE(v: bv16)
    ensures Fits(VlanLE(v), 0xff1f)
  {
  }

  lemma VlanWideLE(v: bv16, w: bv16)
    ensures VlanLE(v) == VlanLE(w) <==> Same16(v, w, 0xff1f)
  {
  }

  lemma VlanFitsBE(v: bv16)
    ensures Fits(VlanBE(v), 0x1fff)
  {
  }

  lemma VlanWideBE(v: bv16, w: bv16)
    ensures VlanBE(v) == VlanBE(w) <==> Same16(v, w, 0x1fff)
  {
  }

  lemma SplitLE(p: bv32, d: bv16, f: bv8, v: bv16)
    ensures PortPart(MarkLE(p, d, f, v)) == Port64(p) && TypePart(MarkLE(p, d, f, v)) == Type64(d)
    ensures Part(MarkLE(p, d, f, v), 0x60) == FragLE(f) && Part(MarkLE(p, d, f, v), 0xff1f) == VlanLE(v)
  {
    PortWide(p, p);
    TypeWide(d, d);
    FragWide(f, f);
    VlanFitsLE(v);
    hide Fits;
    hide Join;
    hide PortPart;
    hide TypePart;
    hide Part;
    hide Port64;
    hide Type64;
    hide FragLE;
    hide VlanLE;
    JoinPortLE(Port64(p), Type64(d), FragLE(f), VlanLE(v));
    JoinTypeLE(Port64(p), Type64(d), FragLE(f), VlanLE(v));
    JoinFragLE(Port64(p), Type64(d), FragLE(f), VlanLE(v));
    JoinVlanLE(Port64(p), Type64(d), FragLE(f), VlanLE(v));
  }

  lemma SplitBE(p: bv32, d: bv16, f: bv8, v: bv16)
    ensures PortPart(MarkBE(p, d, f, v)) == Port64(p) && TypePart(MarkBE(p, d, f, v)) == Type64(d)
    ensures Part(MarkBE(p, d, f, v), 0x6000) == FragBE(f) && Part(MarkBE(p, d, f, v), 0x1fff) == VlanBE(v)
  {
    PortWide(p, p);
    TypeWide(d, d);
    FragWide(f, f);
    VlanFitsBE(v);
    hide Fits;
    hide Join;
    hide PortPart;
    hide TypePart;
    hide Part;
    hide Port64;
    hide Type64;
    hide FragBE;
    hide VlanBE;
    JoinPortBE(Port64(p), Type64(d), FragBE(f), VlanBE(v));
    JoinTypeBE(Port64(p), Type64(d), FragBE(f), VlanBE(v));
    JoinFragBE(Port64(p), Type64(d), FragBE(f), VlanBE(v));
    JoinVlanBE(Port64(p), Type64(d), FragBE(f), VlanBE(v));
  }

  /** Equal marks mean equal ports, Ethernet types, fragment bits and VLAN id with CFI: the fields do not run into
      each other. */
  lemma MarkLEInjective(p: bv32, q: bv32, d: bv16, e: bv16, f: bv8, g: bv8, v: bv16, w: bv16)
    ensures MarkLE(p, d, f, v) == MarkLE(q, e, g, w) <==>
            p == q && d == e && Same8(f, g, 3) && Same16(v, w, 0xff1f)
  {
    FragWide(f, g);
    VlanWideLE(v, w);
    hide Same8;
    hide Same16;
    hide Fits;
    hide Join;
    hide PortPart;
    hide TypePart;
    hide Part;
    hide Port64;
    hide Type64;
    hide FragLE;
    hide VlanLE;
    SplitLE(p, d, f, v);
    SplitLE(q, e, g, w);
    PortWide(p, q);
    TypeWide(d, e);
  }

  lemma MarkBEInjective(p: bv32, q: bv32, d: bv16, e: bv16, f: bv8, g: bv8, v: bv16, w: bv16)
    ensures MarkBE(p, d, f, v) == MarkBE(q, e, g, w) <==>
            p == q && d == e && Same8(f, g, 3) && Same16(v, w, 0x1fff)
  {
    FragWide(f, g);
    VlanWideBE(v, w);
    hide Same8;
    hide Same16;
    hide Fits;
    hide Join;
    hide PortPart;
    hide TypePart;
    hide Part;
    hide Port64;
    hide Type64;
    hide FragBE;
    hide VlanBE;
    SplitBE(p, d, f, v);
    SplitBE(q, e, g, w);
    PortWide(p, q);
    TypeWide(d, e);
  }

  // ---------------------------------------------------------------- flows and packets by mark

  datatype Host = LittleEndian | BigEndian

  /** dp_netdev_simple_match_mark() of a packet or flow. */
  function MarkOf(h: Host, inPort: Port, l: L2): bv64 {
    match h
    case LittleEndian => MarkLE(inPort.no, l.dlType, l.nwFrag, l.vlanTci)
    case BigEndian => MarkBE(inPort.no, l.dlType, l.nwFrag, l.vlanTci)
  }

  /** htons(VLAN_VID_MASK | VLAN_CFI). */
  function VlanMask(h: Host): bv16 {
    if h.LittleEndian? then 0xff1f else 0x1fff
  }

  /** The Ethernet types of IPv4 and IPv6 as the host sees them in network byte order. */
  function Ip4(h: Host): bv16 {
    if h.LittleEndian? then 0x0008 else 0x0800
  }

  function Ip6(h: Host): bv16 {
    if h.LittleEndian? then 0xdd86 else 0x86dd
  }

  /** htons(). */
  function Htons(h: Host, x: bv16): bv16 {
    if h.LittleEndian? then (x << 8) | (x >> 8) else x
  }

  /** These are the types of IPv4 and IPv6, and VLAN id with CFI, in network byte order. */
  lemma NetworkOrder(h: Host)
    ensures Ip4(h) == Htons(h, 0x0800) && Ip6(h) == Htons(h, 0x86dd) && VlanMask(h) == Htons(h, 0x1fff)
  {
  }

  predicate IsIp(h: Host, dlType: bv16) {
    dlType == Ip4(h) || dlType == Ip6(h)
  }

  /** Equal in all that the mark is computed from. */
  predicate SameSource(h: Host, p: Port, a: L2, q: Port, b: L2) {
    p == q && a.dlType == b.dlType && Same8(a.nwFrag, b.nwFrag, 3) && Same16(a.vlanTci, b.vlanTci, VlanMask(h))
  }

  lemma MarkInjective(h: Host, p: Port, a: L2, q: Port, b: L2)
    ensures MarkOf(h, p, a) == MarkOf(h, q, b) <==> SameSource(h, p, a, q, b)
  {
    hide MarkLE;
    hide MarkBE;
    hide Same8;
    hide Same16;
    match h
    case LittleEndian => MarkLEInjective(p.no, q.no, a.dlType, b.dlType, a.nwFrag, b.nwFrag, a.vlanTci, b.vlanTci);
    case BigEndian => MarkBEInjective(p.no, q.no, a.dlType, b.dlType, a.nwFrag, b.nwFrag, a.vlanTci, b.vlanTci);
  }

  function Range(lo: nat, n: nat): (r: set<nat>)
    ensures forall i :: i in r <==> lo <= i < lo + n
  {
    if n == 0 then {} else Range(lo, n - 1) + {lo + n - 1}
  }

  /** Where recirc_id and packet_type lie among the further bits. */
  const RECIRC := Range(0, 32)
  const PACKET_TYPE := Range(32, 32)

  /** Not recirculated, and an Ethernet packet. */
  predicate NotRecirculated(bits: set<nat>) {
    bits * RECIRC == {} && bits * PACKET_TYPE == {}
  }

  predicate Within8(mask: bv8, minimal: bv8) { mask & minimal == mask }

  /** dp_netdev_flow_is_simple_match(): not recirculated, Ethernet, VLAN id and CFI matched and no more of the tag, and
      nothing else but fields that every packet has. */
  predicate IsSimple(h: Host, m: Match) {
    && NotRecirculated(m.fields.bits)
    && m.mask.bits <= RECIRC + PACKET_TYPE
    && Within8(m.mask.l2.nwFrag, 3)
    && m.mask.l2.vlanTci == VlanMask(h)
  }

  /** What packets have: only IP packets are fragments.  The first fragment bit is set for any fragment, the second for
      the later ones as well. */
  predicate Receivable(h: Host, l: L2) {
    l.nwFrag in {0, 1, 3} && (l.nwFrag != 0 ==> IsIp(h, l.dlType))
  }

  /** The packets that the simple match is used for. */
  predicate PlainPacket(h: Host, k: Key) {
    NotRecirculated(k.fields.bits) && Receivable(h, k.fields.l2)
  }

  predicate AnyBit(mask: bv8) { mask & 1 != 0 }

  predicate LaterBit(mask: bv8) { mask & 2 != 0 }

  /** The flow matches enough of type and fragment bits.  A flow for unfragmented packets: the type, and for an IP type
      whether the packet is a fragment.  A flow for fragments: that they are fragments, whether they are later ones,
      and which IP they are of. */
  predicate ExactFields(h: Host, l: L2, mask: L2) {
    if l.nwFrag == 0 then
      mask.dlType == 0xffff && (IsIp(h, l.dlType) ==> AnyBit(mask.nwFrag))
    else
      !Same8(l.nwFrag, 0, mask.nwFrag) && LaterBit(mask.nwFrag) && !Same16(Ip4(h), Ip6(h), mask.dlType)
  }

  predicate Exact(h: Host, m: Match) { ExactFields(h, m.fields.l2, m.mask.l2) }

  /** A flow that matches the type and, for an IP type, all fragment bits - as the flows of this datapath are said to -
      is exact. */
  lemma MatchedFieldsExact(h: Host, m: Match)
    requires Receivable(h, m.fields.l2) && m.mask.l2.dlType == 0xffff
    requires IsIp(h, m.fields.l2.dlType) ==> m.mask.l2.nwFrag == 3
    ensures Exact(h, m)
  {
    assert !Same16(Ip4(h), Ip6(h), 0xffff);
    assert AnyBit(3) && LaterBit(3) && !Same8(1, 0, 3) && !Same8(3, 0, 3);
  }

  lemma SameWithin8(a: bv8, b: bv8, mask: bv8)
    requires Same8(a, b, 3) && Within8(mask, 3)
    ensures Same8(a, b, mask)
  {
  }

  lemma SameAll16(a: bv16, b: bv16)
    ensures Same16(a, b, 0xffff) <==> a == b
  {
  }

  /** Packets with the mark of a simple flow are matched by it. */
  lemma SameMarkMatches(h: Host, m: Match, k: Key)
    requires IsSimple(h, m) && NotRecirculated(k.fields.bits)
    requires MarkOf(h, k.inPort, k.fields.l2) == MarkOf(h, m.inPort, m.fields.l2)
    ensures Matches(m, k)
  {
    hide MarkOf;
    hide Same8;
    hide Same16;
    hide Within8;
    MarkInjective(h, k.inPort, k.fields.l2, m.inPort, m.fields.l2);
    SameWithin8(k.fields.l2.nwFrag, m.fields.l2.nwFrag, m.mask.l2.nwFrag);
    SameValue16(k.fields.l2.dlType, m.mask.l2.dlType);
    hide VlanMask;
    hide Range;
    NothingCompared(k.fields.bits, m.mask.bits);
    NothingCompared(m.fields.bits, m.mask.bits);
  }

  /** A flow is simple exactly if it is for packets not recirculated, matches VLAN id and CFI and no more of the tag,
      and compares nothing that two packets of the same mark may differ in. */
  lemma SimpleIff(h: Host, m: Match)
    ensures IsSimple(h, m) <==>
            && NotRecirculated(m.fields.bits) && m.mask.l2.vlanTci == VlanMask(h)
            && forall k: Key | NotRecirculated(k.fields.bits) &&
                               MarkOf(h, k.inPort, k.fields.l2) == MarkOf(h, m.inPort, m.fields.l2) ::
                 Matches(m, k)
  {
    hide MarkOf;
    hide VlanMask;
    hide Matches;
    if IsSimple(h, m) {
      forall k: Key | NotRecirculated(k.fields.bits) &&
                      MarkOf(h, k.inPort, k.fields.l2) == MarkOf(h, m.inPort, m.fields.l2)
        ensures Matches(m, k)
      {
        SameMarkMatches(h, m, k);
      }
    } else if NotRecirculated(m.fields.bits) && m.mask.l2.vlanTci == VlanMask(h) {
      var k := NotCompared(h, m);
      assert !Matches(m, k);
    }
  }

  /** For a flow that compares more, a packet of its mark that differs there. */
  lemma NotCompared(h: Host, m: Match) returns (k: Key)
    requires NotRecirculated(m.fields.bits)
    requires !(m.mask.bits <= RECIRC + PACKET_TYPE && Within8(m.mask.l2.nwFrag, 3))
    ensures NotRecirculated(k.fields.bits) && !Matches(m, k)
    ensures MarkOf(h, k.inPort, k.fields.l2) == MarkOf(h, m.inPort, m.fields.l2)
  {
    hide MarkOf;
    hide Range;
    hide Same16;
    hide VlanMask;
    var l := m.fields.l2;
    SameValue16(l.vlanTci, VlanMask(h));
    SameValue8(l.nwFrag, 3);
    if !Within8(m.mask.l2.nwFrag, 3) {
      HighFrag(l.nwFrag, m.mask.l2.nwFrag);
      k := Key(m.inPort, Fields(l.(nwFrag := l.nwFrag ^ 0xfc), m.fields.bits));
    } else {
      var b :| b in m.mask.bits && b !in RECIRC + PACKET_TYPE;
      var bits := if b in m.fields.bits then m.fields.bits - {b} else m.fields.bits + {b};
      k := Key(m.inPort, Fields(l, bits));
      assert b in bits * m.mask.bits <==> b !in m.fields.bits * m.mask.bits;
      assert bits * RECIRC <= m.fields.bits * RECIRC + {b} * RECIRC;
      assert bits * PACKET_TYPE <= m.fields.bits * PACKET_TYPE + {b} * PACKET_TYPE;
    }
    MarkInjective(h, k.inPort, k.fields.l2, m.inPort, l);
  }

  lemma HighFrag(a: bv8, mask: bv8)
    requires !Within8(mask, 3)
    ensures Same8(a ^ 0xfc, a, 3) && !Same8(a ^ 0xfc, a, mask)
  {
  }

  lemma SameValue16(a: bv16, mask: bv16)
    ensures Same16(a, a, mask)
  {
  }

  lemma NothingCompared(bits: set<nat>, mask: set<nat>)
    requires NotRecirculated(bits) && mask <= RECIRC + PACKET_TYPE
    ensures bits * mask == {}
  {
    hide Range;
    assert bits * mask <= bits * RECIRC + bits * PACKET_TYPE;
  }

  /** Two simple flows of the same mark have a packet in common. */
  lemma SameMarkOverlap(h: Host, a: Match, b: Match)
    requires IsSimple(h, a) && IsSimple(h, b) && MarkOf(h, a.inPort, a.fields.l2) == MarkOf(h, b.inPort, b.fields.l2)
    ensures !Disjoint(a, b)
  {
    hide MarkOf;
    hide NotRecirculated;
    var k := Key(a.inPort, a.fields);
    SameMarkMatches(h, a, k);
    SameMarkMatches(h, b, k);
    hide Matches;
    assert Matches(a, k) && Matches(b, k);
  }

  /** Fragment bits of packets, under the fragment bits of a mask. */
  lemma FragBits(a: bv8, b: bv8, mask: bv8)
    requires a in {0, 1, 3} && b in {0, 1, 3} && Within8(mask, 3) && Same8(b, a, mask)
    ensures a == 0 && AnyBit(mask) ==> b == 0
    ensures !Same8(a, 0, mask) && LaterBit(mask) ==> a == b
    ensures !Same8(a, 0, mask) ==> b != 0
  {
  }

  /** A simple flow that is exact matches only packets with its mark. */
  lemma ExactMatchesSameMark(h: Host, m: Match, k: Key)
    requires IsSimple(h, m) && Receivable(h, m.fields.l2) && Exact(h, m) && PlainPacket(h, k) && Matches(m, k)
    ensures MarkOf(h, k.inPort, k.fields.l2) == MarkOf(h, m.inPort, m.fields.l2)
  {
    hide MarkOf;
    hide Same8;
    hide Same16;
    hide Within8;
    hide AnyBit;
    hide LaterBit;
    hide NotRecirculated;
    hide VlanMask;
    var l, f, mask := k.fields.l2, m.fields.l2, m.mask.l2;
    MarkInjective(h, k.inPort, l, m.inPort, f);
    FragBits(f.nwFrag, l.nwFrag, mask.nwFrag);
    SameAll16(l.dlType, f.dlType);
    SameValue8(l.nwFrag, 3);
    hide Ip4;
    hide Ip6;
    if f.nwFrag != 0 {
      SameIp(h, l.dlType, f.dlType, mask.dlType);
    }
  }

  lemma SameValue8(a: bv8, mask: bv8)
    ensures Same8(a, a, mask)
  {
  }

  lemma SameIp(h: Host, a: bv16, b: bv16, mask: bv16)
    requires Same16(a, b, mask) && !Same16(Ip4(h), Ip6(h), mask) && IsIp(h, a) && IsIp(h, b)
    ensures a == b
  {
  }

  /** The Ethernet type with all bits flipped that the mask leaves open. */
  function Flipped(t: bv16, mask: bv16): (r: bv16)
    ensures Same16(r, t, mask) && (mask != 0xffff ==> r != t)
  {
    t ^ !mask
  }

  /** What another packet may have in place of the type and fragment bits of an inexact flow. */
  function Missed(h: Host, l: L2, mask: L2): L2 {
    if l.nwFrag == 0 then
      if mask.dlType != 0xffff then l.(dlType := Flipped(l.dlType, mask.dlType)) else l.(nwFrag := 1)
    else if Same8(l.nwFrag, 0, mask.nwFrag) then l.(nwFrag := 0)
    else if !LaterBit(mask.nwFrag) then l.(nwFrag := if l.nwFrag == 1 then 3 else 1)
    else l.(dlType := if l.dlType == Ip4(h) then Ip6(h) else Ip4(h))
  }

  lemma OtherFrag(a: bv8, mask: bv8)
    requires Within8(mask, 3)
    ensures !AnyBit(mask) ==> Same8(1, 0, mask)
    ensures !LaterBit(mask) ==> Same8(1, 3, mask)
    ensures Same8(a, 0, mask) ==> Same8(0, a, mask)
    ensures !LaterBit(mask) ==> Same8(3, 1, mask)
    ensures !Same8(0, 1, 3) && !Same8(1, 0, 3) && !Same8(0, 3, 3) && !Same8(1, 3, 3) && !Same8(3, 1, 3)
  {
  }

  lemma OtherIp(h: Host, mask: bv16)
    ensures Ip4(h) != Ip6(h) && (Same16(Ip4(h), Ip6(h), mask) ==> Same16(Ip6(h), Ip4(h), mask))
  {
  }

  lemma MissedAgrees(h: Host, l: L2, mask: L2)
    requires Receivable(h, l) && Within8(mask.nwFrag, 3) && !ExactFields(h, l, mask)
    ensures var other := Missed(h, l, mask);
            && Receivable(h, other) && SameL2(other, l, mask)
            && (other.dlType == l.dlType ==> !Same8(other.nwFrag, l.nwFrag, 3))
  {
    hide Same8;
    hide Same16;
    hide Within8;
    hide AnyBit;
    hide LaterBit;
    hide Flipped;
    hide Ip4;
    hide Ip6;
    OtherFrag(l.nwFrag, mask.nwFrag);
    OtherIp(h, mask.dlType);
    SameValue16(l.dlType, mask.dlType);
    SameValue16(l.vlanTci, mask.vlanTci);
    SameValue8(l.nwFrag, mask.nwFrag);
  }

  /** Such a packet can be received, is matched by the flow, and has another mark. */
  lemma MissedIsMatched(h: Host, m: Match)
    requires IsSimple(h, m) && Receivable(h, m.fields.l2) && !Exact(h, m)
    ensures var k := Key(m.inPort, Fields(Missed(h, m.fields.l2, m.mask.l2), m.fields.bits));
            && PlainPacket(h, k) && NotRecirculated(k.fields.bits) && Matches(m, k)
            && MarkOf(h, k.inPort, k.fields.l2) != MarkOf(h, m.inPort, m.fields.l2)
  {
    hide MarkOf;
    hide Same8;
    hide Missed;
    hide SameL2;
    hide Receivable;
    hide NotRecirculated;
    hide ExactFields;
    hide VlanMask;
    MissedAgrees(h, m.fields.l2, m.mask.l2);
    MarkInjective(h, m.inPort, Missed(h, m.fields.l2, m.mask.l2), m.inPort, m.fields.l2);
  }

  /** For a simple flow, the decision by mark is right for all plain packets exactly if the flow is exact. */
  lemma MarkRightIffExact(h: Host, m: Match)
    requires IsSimple(h, m) && Receivable(h, m.fields.l2)
    ensures Exact(h, m) <==>
            forall k :: PlainPacket(h, k) ==>
              (Matches(m, k) <==> MarkOf(h, k.inPort, k.fields.l2) == MarkOf(h, m.inPort, m.fields.l2))
  {
    hide MarkOf;
    hide IsSimple;
    hide Exact;
    hide Receivable;
    hide Matches;
    if Exact(h, m) {
      forall k | PlainPacket(h, k)
        ensures Matches(m, k) <==> MarkOf(h, k.inPort, k.fields.l2) == MarkOf(h, m.inPort, m.fields.l2)
      {
        if Matches(m, k) {
          ExactMatchesSameMark(h, m, k);
        } else if MarkOf(h, k.inPort, k.fields.l2) == MarkOf(h, m.inPort, m.fields.l2) {
          SameMarkMatches(h, m, k);
        }
      }
    } else {
      MissedIsMatched(h, m);
    }
  }

  /** A flow for untagged IPv4 packets that leaves the fragment bits open, on a little-endian host. */
  function AnyFragment(): Match {
    Match(Port(1), Fields(L2(0x0008, 0, 0), {}), Fields(L2(0xffff, 0, 0xff1f), {}))
  }

  /** It is simple, and matches a fragment that the lookup by mark does not find. */
  lemma FragmentMissed()
    ensures var k := Key(Port(1), Fields(L2(0x0008, 1, 0), {}));
            && IsSimple(LittleEndian, AnyFragment()) && PlainPacket(LittleEndian, k) && Matches(AnyFragment(), k)
            && MarkOf(LittleEndian, k.inPort, k.fields.l2) != MarkOf(LittleEndian, Port(1), AnyFragment().fields.l2)
  {
    hide MarkOf;
    MarkInjective(LittleEndian, Port(1), L2(0x0008, 1, 0), Port(1), L2(0x0008, 0, 0));
  }
}
