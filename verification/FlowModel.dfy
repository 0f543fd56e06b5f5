/** Packet keys and flow matches, unpacked.  (`PackedKeys` proves that packed matching compares every masked bit.) */
module FlowModel {
  /** The number of a datapath port. */
  datatype Port = Port(no: bv32)

  /** Ethernet type, IP fragment bits and VLAN tag, with type and tag in network byte order. */
  datatype L2 = L2(dlType: bv16, nwFrag: bv8, vlanTci: bv16)

  /** The fields of a packet or a flow; `bits` are those bits of all further fields that are 1.  As a mask: the bits
      that are compared. */
  datatype Fields = Fields(l2: L2, bits: set<nat>)

  /** A packet key: the port it came in by, and its fields. */
  datatype Key = Key(inPort: Port, fields: Fields)

  /** A flow and its wildcard mask.  The input port is always matched exactly. */
  datatype Match = Match(inPort: Port, fields: Fields, mask: Fields)

  predicate Same16(a: bv16, b: bv16, mask: bv16) { a & mask == b & mask }

  predicate Same8(a: bv8, b: bv8, mask: bv8) { a & mask == b & mask }

  predicate SameL2(a: L2, b: L2, mask: L2) {
    && Same16(a.dlType, b.dlType, mask.dlType)
    && Same8(a.nwFrag, b.nwFrag, mask.nwFrag)
    && Same16(a.vlanTci, b.vlanTci, mask.vlanTci)
  }

  /** dpcls_rule_matches_key(): the key agrees with the flow on every masked bit.  There is a classifier for each
      port, so its rules do not compare the port. */
  predicate RuleMatches(m: Match, k: Key) {
    && SameL2(k.fields.l2, m.fields.l2, m.mask.l2)
    && k.fields.bits * m.mask.bits == m.fields.bits * m.mask.bits
  }

  /** The flow matches the packet. */
  predicate Matches(m: Match, k: Key) {
    m.inPort == k.inPort && RuleMatches(m, k)
  }

  ghost predicate RulesApart(a: Match, b: Match) {
    forall k :: !(RuleMatches(a, k) && RuleMatches(b, k))
  }

  /** No packet is matched by both flows. */
  ghost predicate Disjoint(a: Match, b: Match) {
    forall k :: !(Matches(a, k) && Matches(b, k))
  }

  /** Flows of one port are disjoint exactly if their rules are. */
  lemma SamePortApart(a: Match, b: Match)
    requires a.inPort == b.inPort
    ensures Disjoint(a, b) <==> RulesApart(a, b)
  {
    hide SameL2;
    if k :| RuleMatches(a, k) && RuleMatches(b, k) {
      var k' := Key(a.inPort, k.fields);
      assert Matches(a, k') && Matches(b, k');
    }
  }
}
