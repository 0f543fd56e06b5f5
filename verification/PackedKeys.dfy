/** Packed flow keys (miniflows): a bitmap says which 64-bit fields are present, an array holds just those
    fields, in the order of their bits.  Rules are built and matched on the packed forms; here this is proved
    to be the comparison of the unpacked flows under the wildcard mask. */
module PackedKeys {
  import opened Words

  /** The fields of one flowmap unit, by their bit. */
  type Fields = Word -> Word

  /** From slot `at` on, `values` holds the fields present in `m`, in the order of their bits. */
  ghost predicate Holds(values: seq<Word>, at: nat, f: Fields, m: Word) {
    at + Pop(m) <= |values| && forall i :: 0 <= i < Pop(m) ==> values[at + i] == f(BitsOf(m)[i])
  }

  /** Counting the bits of the map below `b` gives the slot of `b` in the packed array. */
  lemma SlotOf(values: seq<Word>, at: nat, f: Fields, m: Word, b: Word)
    requires Holds(values, at, f, m) && IsBit(b) && Has(m, b)
    ensures Pop(And(m, Below(b))) < Pop(m) && values[at + Pop(And(m, Below(b)))] == f(b)
  {
    hide IsBit;
    hide Has;
    hide And;
    hide Below;
    hide BitsOf;
    BitsListed(m, b);
  }

  // ---------------------------------------------------------------- mask generation

  /** dpcls_flow_key_gen_mask_unit(): for the i-th selected bit 2^p, the mask 2^p - 1, stored from slot `at` on
      (dpcls_flow_key_gen_masks() calls it once for each unit).  The assertion at the end is the one of the C
      code; it holds because `count` is the number of bits. */
  method GenMaskUnit(map_: Word, count: nat, masks: array<Word>, at: nat)
    requires count == Pop(map_) && at + count <= masks.Length
    modifies masks
    ensures forall i :: 0 <= i < count ==> masks[at + i] == Below(BitsOf(map_)[i])
    ensures forall i :: 0 <= i < masks.Length && !(at <= i < at + count) ==> masks[i] == old(masks[i])
  {
    hide Zero;
    hide Low;
    hide AndNot;
    hide Below;
    hide BitsOf;
    var iter := map_;
    var i := 0;
    while i < count
      invariant 0 <= i <= count
      invariant BitsOf(iter) == BitsOf(map_)[i..]
      invariant forall k :: 0 <= k < i ==> masks[at + k] == Below(BitsOf(map_)[k])
      invariant forall k :: 0 <= k < masks.Length && !(at <= k < at + i) ==> masks[k] == old(masks[k])
    {
      BitsStep(iter);
      var lowest := Low(iter);
      iter := AndNot(iter, lowest);
      masks[at + i] := Below(lowest);
      i := i + 1;
    }
    BitsStep(iter);
    assert iter == Zero();
  }

  /** The generated masks are all that a subtable lookup needs: the count of packet map AND mask is the slot of
      the field in the packet. */
  lemma GeneratedMaskFindsField(values: seq<Word>, at: nat, f: Fields, packetMap: Word, map_: Word, i: nat)
    requires Holds(values, at, f, packetMap) && i < Pop(map_) && Has(packetMap, BitsOf(map_)[i])
    ensures Pop(And(packetMap, Below(BitsOf(map_)[i]))) < Pop(packetMap)
    ensures values[at + Pop(And(packetMap, Below(BitsOf(map_)[i])))] == f(BitsOf(map_)[i])
  {
    hide Holds;
    hide IsBit;
    hide Has;
    hide And;
    hide Below;
    hide BitsOf;
    BitsAreBits(map_, i);
    SlotOf(values, at, f, packetMap, BitsOf(map_)[i]);
  }

  // ---------------------------------------------------------------- keys, masks and rules

  /** A flow as two units of fields; a packed flow as two maps and one array. */
  datatype Flow = Flow(u0: Fields, u1: Fields)

  datatype Miniflow = Miniflow(map0: Word, map1: Word, values: seq<Word>)

  ghost predicate Packs(mf: Miniflow, f: Flow) {
    && |mf.values| == Pop(mf.map0) + Pop(mf.map1)
    && Holds(mf.values, 0, f.u0, mf.map0) && Holds(mf.values, Pop(mf.map0), f.u1, mf.map1)
  }

  ghost predicate ZeroOutside(f: Fields, m: Word) {
    forall b :: IsBit(b) && !Has(m, b) ==> f(b) == Zero()
  }

  /** The packed form of packet `f`: the fields that are not in the map are zero. */
  ghost predicate IsKeyOf(mf: Miniflow, f: Flow) {
    Packs(mf, f) && ZeroOutside(f.u0, mf.map0) && ZeroOutside(f.u1, mf.map1)
  }

  function Masked(f: Fields, wc: Fields): Fields {
    (b: Word) => And(f(b), wc(b))
  }

  lemma MaskedAt(f: Fields, wc: Fields, b: Word)
    ensures Masked(f, wc)(b) == And(f(b), wc(b))
  {
    hide And;
  }

  /** The map of a mask: the fields of `fmap` in which `wc` has some bit. */
  ghost predicate IsMaskMap(m: Word, wc: Fields, fmap: Word) {
    forall b :: IsBit(b) ==> (Has(m, b) <==> Has(fmap, b) && wc(b) != Zero())
  }

  /** The rule that is built for flow `f` with mask `wc`, where `fmap` are the fields that make sense for `f`: the
      packed mask, and the flow masked and packed with the same maps. */
  ghost predicate IsRuleFor(rule: Miniflow, mask: Miniflow, f: Flow, wc: Flow, fmap0: Word, fmap1: Word) {
    && rule.map0 == mask.map0 && rule.map1 == mask.map1
    && IsMaskMap(mask.map0, wc.u0, fmap0) && IsMaskMap(mask.map1, wc.u1, fmap1)
    && Packs(mask, wc) && Packs(rule, Flow(Masked(f.u0, wc.u0), Masked(f.u1, wc.u1)))
  }

  /** A field added above the others goes to the end of the array. */
  lemma HoldsSnoc(values: seq<Word>, f: Fields, m: Word, b: Word)
    requires IsBit(b) && AllBelow(m, b) && |values| == Pop(m) && Holds(values, 0, f, m)
    ensures |values| + 1 == Pop(Or(m, b)) && Holds(values + [f(b)], 0, f, Or(m, b))
  {
    hide IsBit;
    hide AllBelow;
    hide Or;
    hide BitsOf;
    BitsSnoc(m, b);
  }

  /** The bits that the mask loop has dealt with: all of `fmap` that is not left in `iter`. */
  ghost predicate MaskInv(m: Word, iter: Word, wc: Fields, fmap: Word) {
    && (forall b :: IsBit(b) ==> (Has(m, b) <==> Has(fmap, b) && !Has(iter, b) && wc(b) != Zero()))
    && (forall b :: IsBit(b) && Has(iter, b) ==> Has(fmap, b))
    && (iter != Zero() ==> AllBelow(m, Low(iter)))
  }

  /** netdev_flow_mask_init(), one unit: appends the mask fields of `fmap` that have some bit. */
  method MaskUnit(wc: Fields, fmap: Word) returns (m: Word, values: seq<Word>)
    ensures IsMaskMap(m, wc, fmap) && |values| == Pop(m) && Holds(values, 0, wc, m)
  {
    hide *;
    m, values := Zero(), [];
    var iter := fmap;
    MaskStart(wc, fmap);
    while iter != Zero()
      invariant |values| == Pop(m) && Holds(values, 0, wc, m)
      invariant MaskInv(m, iter, wc, fmap)
      decreases |BitsOf(iter)|
    {
      var low := Low(iter);
      LowIsBit(iter);
      BitsStep(iter);
      MaskStep(m, iter, wc, fmap);
      if wc(low) != Zero() {
        HoldsSnoc(values, wc, m, low);
        m := Or(m, low);
        values := values + [wc(low)];
      }
      iter := Rest(iter);
    }
    MaskEnd(m, wc, fmap);
  }

  lemma MaskStart(wc: Fields, fmap: Word)
    ensures Pop(Zero()) == 0 && Holds([], 0, wc, Zero()) && MaskInv(Zero(), fmap, wc, fmap)
  {
    hide Low;
    hide IsBit;
    hide Has;
    hide AllBelow;
    forall b
      ensures !Has(Zero(), b)
    {
      HasNothing(b);
    }
    if fmap != Zero() {
      LowIsBit(fmap);
      LowOfBit(Low(fmap));
    }
  }

  lemma MaskEnd(m: Word, wc: Fields, fmap: Word)
    requires MaskInv(m, Zero(), wc, fmap)
    ensures IsMaskMap(m, wc, fmap)
  {
    hide Low;
    hide IsBit;
    hide Has;
    hide AllBelow;
    forall b
      ensures !Has(Zero(), b)
    {
      HasNothing(b);
    }
  }

  lemma TakeLow(m: Word, iter: Word)
    requires iter != Zero()
    ensures IsBit(Low(iter)) && Has(iter, Low(iter))
    ensures forall b :: IsBit(b) ==> (Has(Rest(iter), b) <==> Has(iter, b) && b != Low(iter))
    ensures forall b :: IsBit(b) ==> (Has(Or(m, Low(iter)), b) <==> Has(m, b) || b == Low(iter))
  {
    hide Zero;
    hide Low;
    hide Rest;
    hide IsBit;
    hide Has;
    hide Or;
    LowIsBit(iter);
    LowNotInRest(iter);
    forall b | IsBit(b)
      ensures Has(Rest(iter), b) <==> Has(iter, b) && b != Low(iter)
      ensures Has(Or(m, Low(iter)), b) <==> Has(m, b) || b == Low(iter)
    {
      if b != Low(iter) {
        HasInRest(iter, b);
      }
      HasOr(m, Low(iter), b);
      HasBit(Low(iter), b);
    }
  }

  lemma MaskStep(m: Word, iter: Word, wc: Fields, fmap: Word)
    requires iter != Zero() && MaskInv(m, iter, wc, fmap)
    ensures IsBit(Low(iter)) && AllBelow(m, Low(iter))
    ensures MaskInv(if wc(Low(iter)) != Zero() then Or(m, Low(iter)) else m, Rest(iter), wc, fmap)
  {
    hide Zero;
    hide Low;
    hide Rest;
    hide IsBit;
    hide Has;
    hide Or;
    hide AllBelow;
    TakeLow(m, iter);
    if Rest(iter) != Zero() {
      BelowRest(m, iter);
    }
  }

  /** netdev_flow_key_init_masked(), one unit: the masked fields of the mask's map, in order. */
  method MaskedUnit(f: Fields, m: Word, mask: seq<Word>, at: nat, ghost wc: Fields) returns (values: seq<Word>)
    requires Holds(mask, at, wc, m)
    ensures |values| == Pop(m) && Holds(values, 0, Masked(f, wc), m)
  {
    hide Zero;
    hide Low;
    hide Rest;
    hide And;
    hide BitsOf;
    hide Masked;
    values := [];
    var iter, k := m, 0;
    while iter != Zero()
      invariant 0 <= k <= Pop(m) && BitsOf(iter) == BitsOf(m)[k..]
      invariant |values| == k && forall i :: 0 <= i < k ==> values[i] == Masked(f, wc)(BitsOf(m)[i])
      decreases |BitsOf(iter)|
    {
      BitsStep(iter);
      assert BitsOf(m)[k] == Low(iter);
      MaskedAt(f, wc, Low(iter));
      values := values + [And(f(Low(iter)), mask[at + k])];
      k := k + 1;
      iter := Rest(iter);
    }
    BitsStep(iter);
  }

  lemma HoldsConcat(a: seq<Word>, b: seq<Word>, f: Fields, m: Word, g: Fields, n: Word)
    requires |a| == Pop(m) && Holds(a, 0, f, m) && |b| == Pop(n) && Holds(b, 0, g, n)
    ensures Holds(a + b, 0, f, m) && Holds(a + b, Pop(m), g, n)
  {
    hide BitsOf;
  }

  /** Builds the mask and the masked key of a flow, as dp_netdev_flow_add() does for a new rule. */
  method BuildRule(f: Flow, wc: Flow, fmap0: Word, fmap1: Word) returns (rule: Miniflow, mask: Miniflow)
    ensures IsRuleFor(rule, mask, f, wc, fmap0, fmap1)
  {
    hide BitsOf;
    hide IsMaskMap;
    hide Holds;
    var m0, v0 := MaskUnit(wc.u0, fmap0);
    var m1, v1 := MaskUnit(wc.u1, fmap1);
    HoldsConcat(v0, v1, wc.u0, m0, wc.u1, m1);
    mask := Miniflow(m0, m1, v0 + v1);
    var k0 := MaskedUnit(f.u0, m0, mask.values, 0, wc.u0);
    var k1 := MaskedUnit(f.u1, m1, mask.values, Pop(m0), wc.u1);
    HoldsConcat(k0, k1, Masked(f.u0, wc.u0), m0, Masked(f.u1, wc.u1), m1);
    rule := Miniflow(m0, m1, k0 + k1);
  }

  // ---------------------------------------------------------------- matching

  /** The value of field `b` in a packed key, 0 if it is not there; `at` is where the unit starts. */
  function Get(m: Word, values: seq<Word>, at: nat, b: Word): Word
    requires at + Pop(m) <= |values| && IsBit(b)
  {
    if Has(m, b) then BitsListed(m, b); values[at + Pop(And(m, Below(b)))] else Zero()
  }

  lemma GetIsField(f: Fields, m: Word, values: seq<Word>, at: nat, b: Word)
    requires IsBit(b) && Holds(values, at, f, m) && ZeroOutside(f, m)
    ensures at + Pop(m) <= |values| && Get(m, values, at, b) == f(b)
  {
    hide Zero;
    hide IsBit;
    hide Has;
    hide And;
    hide Below;
    hide BitsOf;
    if Has(m, b) {
      SlotOf(values, at, f, m, b);
    }
  }

  ghost predicate AgreeUnit(g: Fields, f: Fields, wc: Fields, fmap: Word) {
    forall b :: IsBit(b) && Has(fmap, b) ==> And(g(b), wc(b)) == And(f(b), wc(b))
  }

  /** Packet `g` agrees with flow `f` on every bit of the mask in the fields of the flow's own map. */
  ghost predicate Agree(g: Flow, f: Flow, wc: Flow, fmap0: Word, fmap1: Word) {
    AgreeUnit(g.u0, f.u0, wc.u0, fmap0) && AgreeUnit(g.u1, f.u1, wc.u1, fmap1)
  }

  predicate FieldMatches(m: Word, keys: seq<Word>, masks: seq<Word>, at: nat, tmap: Word, tvalues: seq<Word>, tat: nat,
                         i: nat)
    requires i < Pop(m) && at + Pop(m) <= |keys| && at + Pop(m) <= |masks| && tat + Pop(tmap) <= |tvalues|
  {
    BitsAreBits(m, i);
    And(Get(tmap, tvalues, tat, BitsOf(m)[i]), masks[at + i]) == keys[at + i]
  }

  /** The loop of dpcls_rule_matches_key() over one unit: walks the rule's map, the mask and the key in step. */
  method MatchUnit(m: Word, keys: seq<Word>, masks: seq<Word>, at: nat, tmap: Word, tvalues: seq<Word>, tat: nat)
    returns (ok: bool)
    requires at + Pop(m) <= |keys| && at + Pop(m) <= |masks| && tat + Pop(tmap) <= |tvalues|
    ensures ok <==> forall i :: 0 <= i < Pop(m) ==> FieldMatches(m, keys, masks, at, tmap, tvalues, tat, i)
  {
    hide Zero;
    hide Low;
    hide Rest;
    hide IsBit;
    hide Has;
    hide And;
    hide Get;
    hide BitsOf;
    var iter, k := m, 0;
    while iter != Zero()
      invariant 0 <= k <= Pop(m) && BitsOf(iter) == BitsOf(m)[k..]
      invariant forall i :: 0 <= i < k ==> FieldMatches(m, keys, masks, at, tmap, tvalues, tat, i)
      decreases |BitsOf(iter)|
    {
      BitsStep(iter);
      LowIsBit(iter);
      var value := Get(tmap, tvalues, tat, Low(iter));
      assert BitsOf(m)[k] == Low(iter);
      if And(value, masks[at + k]) != keys[at + k] {
        assert !FieldMatches(m, keys, masks, at, tmap, tvalues, tat, k);
        return false;
      }
      k := k + 1;
      iter := Rest(iter);
    }
    BitsStep(iter);
    return true;
  }

  lemma FieldAgrees(m: Word, keys: seq<Word>, masks: seq<Word>, at: nat, tmap: Word, tvalues: seq<Word>, tat: nat,
                    g: Fields, f: Fields, wc: Fields, i: nat)
    requires i < Pop(m) && Holds(keys, at, Masked(f, wc), m) && Holds(masks, at, wc, m)
    requires Holds(tvalues, tat, g, tmap) && ZeroOutside(g, tmap)
    ensures IsBit(BitsOf(m)[i]) && Has(m, BitsOf(m)[i])
    ensures FieldMatches(m, keys, masks, at, tmap, tvalues, tat, i) <==>
            And(g(BitsOf(m)[i]), wc(BitsOf(m)[i])) == And(f(BitsOf(m)[i]), wc(BitsOf(m)[i]))
  {
    hide IsBit;
    hide Has;
    hide And;
    hide Get;
    hide ZeroOutside;
    hide BitsOf;
    hide Masked;
    BitsAreBits(m, i);
    MaskedAt(f, wc, BitsOf(m)[i]);
    GetIsField(g, tmap, tvalues, tat, BitsOf(m)[i]);
  }

  lemma UnitAgrees(m: Word, keys: seq<Word>, masks: seq<Word>, at: nat, tmap: Word, tvalues: seq<Word>, tat: nat,
                   g: Fields, f: Fields, wc: Fields, fmap: Word)
    requires Holds(keys, at, Masked(f, wc), m) && Holds(masks, at, wc, m)
    requires Holds(tvalues, tat, g, tmap) && ZeroOutside(g, tmap) && IsMaskMap(m, wc, fmap)
    ensures (forall i :: 0 <= i < Pop(m) ==> FieldMatches(m, keys, masks, at, tmap, tvalues, tat, i))
            <==> AgreeUnit(g, f, wc, fmap)
  {
    hide Zero;
    hide IsBit;
    hide Has;
    hide And;
    hide Below;
    hide BitsOf;
    hide Masked;
    hide ZeroOutside;
    hide FieldMatches;
    hide IsMaskMap;
    hide AgreeUnit;
    if AgreeUnit(g, f, wc, fmap) {
      forall i | 0 <= i < Pop(m)
        ensures FieldMatches(m, keys, masks, at, tmap, tvalues, tat, i)
      {
        FieldAgrees(m, keys, masks, at, tmap, tvalues, tat, g, f, wc, i);
        AgreesAt(g, f, wc, fmap, m, BitsOf(m)[i]);
      }
    } else {
      var b := Disagreement(g, f, wc, fmap, m);
      BitsListed(m, b);
      FieldAgrees(m, keys, masks, at, tmap, tvalues, tat, g, f, wc, Pop(And(m, Below(b))));
    }
  }

  lemma AgreesAt(g: Fields, f: Fields, wc: Fields, fmap: Word, m: Word, b: Word)
    requires AgreeUnit(g, f, wc, fmap) && IsMaskMap(m, wc, fmap) && IsBit(b) && Has(m, b)
    ensures And(g(b), wc(b)) == And(f(b), wc(b))
  {
    hide IsBit;
    hide Has;
    hide And;
  }

  /** Packets that disagree with the flow do so in a field of the mask. */
  lemma Disagreement(g: Fields, f: Fields, wc: Fields, fmap: Word, m: Word) returns (b: Word)
    requires !AgreeUnit(g, f, wc, fmap) && IsMaskMap(m, wc, fmap)
    ensures IsBit(b) && Has(m, b) && And(g(b), wc(b)) != And(f(b), wc(b))
  {
    hide Zero;
    hide IsBit;
    hide Has;
    hide And;
    b :| IsBit(b) && Has(fmap, b) && And(g(b), wc(b)) != And(f(b), wc(b));
    AndZero(g(b));
    AndZero(f(b));
  }

  /** dpcls_rule_matches_key() accepts exactly the packets that agree with the flow under its mask. */
  method RuleMatchesKey(rule: Miniflow, mask: Miniflow, target: Miniflow,
                        ghost g: Flow, ghost f: Flow, ghost wc: Flow, ghost fmap0: Word, ghost fmap1: Word)
    returns (ok: bool)
    requires IsRuleFor(rule, mask, f, wc, fmap0, fmap1) && IsKeyOf(target, g)
    ensures ok <==> Agree(g, f, wc, fmap0, fmap1)
  {
    hide IsMaskMap;
    hide ZeroOutside;
    hide AgreeUnit;
    hide FieldMatches;
    hide Holds;
    hide BitsOf;
    var n0, t0 := Pop(rule.map0), Pop(target.map0);
    UnitAgrees(rule.map0, rule.values, mask.values, 0, target.map0, target.values, 0, g.u0, f.u0, wc.u0, fmap0);
    UnitAgrees(rule.map1, rule.values, mask.values, n0, target.map1, target.values, t0, g.u1, f.u1, wc.u1, fmap1);
    ok := MatchUnit(rule.map0, rule.values, mask.values, 0, target.map0, target.values, 0);
    if ok {
      ok := MatchUnit(rule.map1, rule.values, mask.values, n0, target.map1, target.values, t0);
    }
  }

  /** `g` agrees with `f` on every bit of the mask, in whatever field. */
  ghost predicate AgreeAll(g: Fields, f: Fields, wc: Fields) {
    forall b :: IsBit(b) ==> And(g(b), wc(b)) == And(f(b), wc(b))
  }

  ghost predicate AgreeWhole(g: Flow, f: Flow, wc: Flow) {
    AgreeAll(g.u0, f.u0, wc.u0) && AgreeAll(g.u1, f.u1, wc.u1)
  }

  /** The packet has no masked bit in fields that make no sense for the flow. */
  ghost predicate NothingBeyond(g: Fields, wc: Fields, fmap: Word) {
    forall b :: IsBit(b) && !Has(fmap, b) ==> And(g(b), wc(b)) == Zero()
  }

  /** netdev_flow_mask_init() leaves out the mask bits of fields that make no sense for the flow (`fmap0`, `fmap1`).
      A packet agrees with the flow under the whole mask exactly if the rule accepts it and it has no masked bit in
      those fields. */
  lemma WholeMaskIff(g: Flow, f: Flow, wc: Flow, fmap0: Word, fmap1: Word)
    requires ZeroOutside(f.u0, fmap0) && ZeroOutside(f.u1, fmap1)
    ensures AgreeWhole(g, f, wc) <==>
            && Agree(g, f, wc, fmap0, fmap1)
            && NothingBeyond(g.u0, wc.u0, fmap0) && NothingBeyond(g.u1, wc.u1, fmap1)
  {
    hide ZeroOutside;
    hide AgreeUnit;
    hide AgreeAll;
    hide NothingBeyond;
    WholeUnitIff(g.u0, f.u0, wc.u0, fmap0);
    WholeUnitIff(g.u1, f.u1, wc.u1, fmap1);
  }

  lemma WholeUnitIff(g: Fields, f: Fields, wc: Fields, fmap: Word)
    requires ZeroOutside(f, fmap)
    ensures AgreeAll(g, f, wc) <==> AgreeUnit(g, f, wc, fmap) && NothingBeyond(g, wc, fmap)
  {
    hide Zero;
    hide IsBit;
    hide Has;
    hide And;
    forall b | IsBit(b) && !Has(fmap, b)
      ensures And(f(b), wc(b)) == Zero()
    {
      AndZero(wc(b));
    }
  }

  /** So for packets whose own fields fit the flow's type, the rule means its whole mask. */
  lemma WholeMaskForType(g: Flow, f: Flow, wc: Flow, fmap0: Word, fmap1: Word)
    requires ZeroOutside(f.u0, fmap0) && ZeroOutside(f.u1, fmap1)
    requires ZeroOutside(g.u0, fmap0) && ZeroOutside(g.u1, fmap1)
    ensures AgreeWhole(g, f, wc) <==> Agree(g, f, wc, fmap0, fmap1)
  {
    hide AgreeUnit;
    hide AgreeAll;
    hide Zero;
    hide IsBit;
    hide Has;
    hide And;
    WholeMaskIff(g, f, wc, fmap0, fmap1);
    forall b | IsBit(b) && !Has(fmap0, b)
      ensures And(g.u0(b), wc.u0(b)) == Zero()
    {
      AndZero(wc.u0(b));
    }
    forall b | IsBit(b) && !Has(fmap1, b)
      ensures And(g.u1(b), wc.u1(b)) == Zero()
    {
      AndZero(wc.u1(b));
    }
  }

  /** Bit `c` of field `b` is the same in packet and flow, if the mask has it. */
  predicate SameBit(g: Fields, f: Fields, wc: Fields, b: Word, c: Word) {
    Has(wc(b), c) ==> (Has(g(b), c) <==> Has(f(b), c))
  }

  /** Agreement is agreement bit by bit, on every bit of the mask in the fields of the flow. */
  lemma AgreesBitwise(g: Fields, f: Fields, wc: Fields, fmap: Word)
    ensures AgreeUnit(g, f, wc, fmap) <==>
            forall b, c :: IsBit(b) && Has(fmap, b) && IsBit(c) ==> SameBit(g, f, wc, b, c)
  {
    hide IsBit;
    hide Has;
    hide And;
    hide DifferAt;
    if AgreeUnit(g, f, wc, fmap) {
      forall b, c | IsBit(b) && Has(fmap, b) && IsBit(c)
        ensures SameBit(g, f, wc, b, c)
      {
        if Has(wc(b), c) {
          SameUnderMask(g(b), f(b), wc(b), c);
        }
      }
    } else {
      var b :| IsBit(b) && Has(fmap, b) && And(g(b), wc(b)) != And(f(b), wc(b));
      DifferSomewhere(g(b), f(b), wc(b));
      assert !SameBit(g, f, wc, b, DifferAt(g(b), f(b), wc(b)));
    }
  }
}
