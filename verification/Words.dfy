/** 64-bit words as bitmaps: the bit tricks of the C code and what they mean.  The words are wrapped, so that
    only the lemmas of this module look inside. */
module Words {
  datatype Word = Word(v: bv64)

  function Zero(): Word { Word(0) }

  function And(a: Word, b: Word): Word { Word(a.v & b.v) }

  function Or(a: Word, b: Word): Word { Word(a.v | b.v) }

  function AndNot(a: Word, b: Word): Word { Word(a.v & !b.v) }

  /** The lowest set bit: `x & -x`. */
  function Low(x: Word): Word { Word(x.v & (0 - x.v)) }

  /** `x` without its lowest bit. */
  function Rest(x: Word): Word { AndNot(x, Low(x)) }

  /** For a bit 2^p, the mask 2^p - 1 of everything below. */
  function Below(b: Word): Word { Word(b.v - 1) }

  /** `b` is a power of two. */
  predicate IsBit(b: Word) { b.v != 0 && b.v & (b.v - 1) == 0 }

  predicate Has(m: Word, b: Word) { m.v & b.v != 0 }

  /** Every bit of `m` is below `b`. */
  predicate AllBelow(m: Word, b: Word) { m.v & (b.v - 1) == m.v }

  lemma LowIsBit(x: Word)
    requires x != Zero()
    ensures IsBit(Low(x)) && Has(x, Low(x)) && And(Low(x), x) == Low(x)
  {
  }

  lemma NothingBelowLow(x: Word)
    requires x != Zero()
    ensures And(x, Below(Low(x))) == Zero()
  {
  }

  lemma RestSmaller(x: Word)
    requires x != Zero()
    ensures Rest(x).v < x.v
  {
  }

  lemma HasNothing(b: Word)
    ensures !Has(Zero(), b)
  {
  }

  lemma AnyBit(m: Word, b: Word)
    requires Has(m, b)
    ensures m != Zero()
  {
  }

  lemma BitsApart(a: Word, b: Word)
    requires IsBit(a) && IsBit(b) && a != b
    ensures And(a, b) == Zero()
  {
  }

  lemma HasIff(m: Word, b: Word)
    ensures Has(m, b) <==> And(m, b) != Zero()
  {
  }

  lemma RestKeeps(m: Word, l: Word, b: Word)
    requires And(l, b) == Zero()
    ensures And(AndNot(m, l), b) == And(m, b)
  {
  }

  /** A bit other than the lowest is one of the rest, and the other way round. */
  lemma HasInRest(m: Word, b: Word)
    requires m != Zero() && IsBit(b) && b != Low(m)
    ensures Has(Rest(m), b) <==> Has(m, b)
  {
    hide Low;
    hide IsBit;
    hide And;
    hide AndNot;
    hide Has;
    LowIsBit(m);
    BitsApart(Low(m), b);
    RestKeeps(m, Low(m), b);
    HasIff(m, b);
    HasIff(Rest(m), b);
  }

  lemma LowNotInRest(m: Word)
    requires m != Zero()
    ensures !Has(Rest(m), Low(m))
  {
  }

  /** A bit of `m` with nothing of `m` below it is the lowest. */
  lemma LowUnique(m: Word, l: Word)
    requires IsBit(l) && And(l, m) == l && And(m, Below(l)) == Zero()
    ensures Low(m) == l
  {
  }

  lemma LowBelow(m: Word, b: Word)
    requires m != Zero() && IsBit(b) && Has(m, b) && b != Low(m)
    ensures And(Low(m), Below(b)) == Low(m)
  {
  }

  lemma AndPart(m: Word, l: Word, k: Word)
    requires And(l, m) == l && And(l, k) == l
    ensures And(l, And(m, k)) == l
  {
  }

  lemma AndLess(m: Word, k: Word, n: Word)
    requires And(m, n) == Zero()
    ensures And(And(m, k), n) == Zero()
  {
  }

  lemma AndNonzero(m: Word, l: Word)
    requires IsBit(l) && And(l, m) == l
    ensures m != Zero()
  {
  }

  lemma AndNotSwap(m: Word, l: Word, k: Word)
    ensures AndNot(And(m, k), l) == And(AndNot(m, l), k)
  {
  }

  /** Taking the lowest bit off `m` takes it off what lies below a higher bit `b`. */
  lemma RestBelow(m: Word, b: Word)
    requires m != Zero() && IsBit(b) && Has(m, b) && b != Low(m)
    ensures And(m, Below(b)) != Zero() && Rest(And(m, Below(b))) == And(Rest(m), Below(b))
  {
    hide Low;
    hide And;
    hide AndNot;
    hide Below;
    hide IsBit;
    hide Has;
    LowIsBit(m);
    NothingBelowLow(m);
    LowBelow(m, b);
    AndPart(m, Low(m), Below(b));
    AndLess(m, Below(b), Below(Low(m)));
    AndNonzero(And(m, Below(b)), Low(m));
    AndNotSwap(m, Low(m), Below(b));
    LowUnique(And(m, Below(b)), Low(m));
  }

  lemma OrPart(m: Word, l: Word, b: Word)
    requires And(l, m) == l
    ensures And(l, Or(m, b)) == l
  {
  }

  lemma OrLess(m: Word, b: Word, k: Word)
    requires And(m, k) == Zero() && And(b, k) == Zero()
    ensures And(Or(m, b), k) == Zero()
  {
  }

  lemma OrNot(m: Word, l: Word, b: Word)
    requires And(b, l) == Zero()
    ensures AndNot(Or(m, b), l) == Or(AndNot(m, l), b)
  {
  }

  lemma AllBelowPart(m: Word, l: Word, b: Word)
    requires AllBelow(m, b)
    ensures AllBelow(AndNot(m, l), b)
  {
  }

  /** A bit of `m` and a bit above `m`. */
  lemma AboveBits(m: Word, l: Word, b: Word)
    requires IsBit(b) && IsBit(l) && AllBelow(m, b) && And(l, m) == l
    ensures And(b, l) == Zero() && And(b, Below(l)) == Zero()
  {
  }

  /** A bit added above the others leaves the lowest one the lowest. */
  lemma LowOfOr(m: Word, b: Word)
    requires m != Zero() && IsBit(b) && AllBelow(m, b)
    ensures Or(m, b) != Zero() && Low(Or(m, b)) == Low(m) && Rest(Or(m, b)) == Or(Rest(m), b) && AllBelow(Rest(m), b)
  {
    hide Low;
    hide And;
    hide AndNot;
    hide Below;
    hide IsBit;
    hide Has;
    hide AllBelow;
    hide Or;
    LowIsBit(m);
    NothingBelowLow(m);
    AboveBits(m, Low(m), b);
    OrPart(m, Low(m), b);
    OrLess(m, b, Below(Low(m)));
    OrNot(m, Low(m), b);
    AllBelowPart(m, Low(m), b);
    AndNonzero(Or(m, b), Low(m));
    LowUnique(Or(m, b), Low(m));
  }

  lemma LowOfBit(b: Word)
    requires IsBit(b)
    ensures Low(b) == b && Rest(b) == Zero() && Or(Zero(), b) == b && b != Zero() && AllBelow(Zero(), b)
  {
  }

  /** Bits below the lowest of `iter` are below every bit of `iter`. */
  lemma BelowRest(m: Word, iter: Word)
    requires iter != Zero() && Rest(iter) != Zero() && AllBelow(m, Low(iter))
    ensures AllBelow(m, Low(Rest(iter))) && AllBelow(Or(m, Low(iter)), Low(Rest(iter)))
  {
    hide Low;
    hide And;
    hide AndNot;
    hide Below;
    hide IsBit;
    hide Has;
    hide AllBelow;
    hide Or;
    LowIsBit(iter);
    LowIsBit(Rest(iter));
    NothingBelowLow(iter);
    BitOrder(Low(iter), Low(Rest(iter)), iter);
    BelowTrans(m, Low(iter), Low(Rest(iter)));
    BelowOr(m, Low(iter), Low(Rest(iter)));
  }

  lemma BitOrder(a: Word, b: Word, iter: Word)
    requires IsBit(a) && IsBit(b) && And(iter, Below(a)) == Zero() && And(b, AndNot(iter, a)) == b
    ensures AllBelow(a, b)
  {
  }

  lemma BelowTrans(m: Word, a: Word, b: Word)
    requires IsBit(a) && IsBit(b) && AllBelow(m, a) && AllBelow(a, b)
    ensures AllBelow(m, b)
  {
  }

  lemma BelowOr(m: Word, a: Word, b: Word)
    requires AllBelow(m, b) && AllBelow(a, b)
    ensures AllBelow(Or(m, a), b)
  {
  }

  lemma AndOr(m: Word, a: Word, b: Word)
    ensures And(Or(m, a), b) == Or(And(m, b), And(a, b))
  {
  }

  lemma OrZero(a: Word, b: Word)
    ensures Or(a, b) == Zero() <==> a == Zero() && b == Zero()
  {
  }

  lemma HasOr(m: Word, a: Word, b: Word)
    ensures Has(Or(m, a), b) <==> Has(m, b) || Has(a, b)
  {
    hide And;
    hide Or;
    hide Has;
    AndOr(m, a, b);
    OrZero(And(m, b), And(a, b));
    HasIff(Or(m, a), b);
    HasIff(m, b);
    HasIff(a, b);
  }

  lemma HasBit(a: Word, b: Word)
    requires IsBit(a) && IsBit(b)
    ensures Has(a, b) <==> a == b
  {
  }

  /** The lowest bit of `m` in which the words differ, zero if there is none. */
  function DifferAt(a: Word, b: Word, m: Word): Word { Low(Word((a.v ^ b.v) & m.v)) }

  lemma DifferSomewhere(a: Word, b: Word, m: Word)
    requires And(a, m) != And(b, m)
    ensures IsBit(DifferAt(a, b, m)) && Has(m, DifferAt(a, b, m))
    ensures Has(a, DifferAt(a, b, m)) != Has(b, DifferAt(a, b, m))
  {
  }

  lemma SameUnderMask(a: Word, b: Word, m: Word, bit: Word)
    requires And(a, m) == And(b, m) && IsBit(bit) && Has(m, bit)
    ensures Has(a, bit) <==> Has(b, bit)
  {
  }

  lemma AndZero(a: Word)
    ensures And(a, Zero()) == Zero() && And(Zero(), a) == Zero()
  {
  }

  // ---------------------------------------------------------------- the bits of a word

  /** The bits of `m`, lowest first. */
  function BitsOf(m: Word): seq<Word>
    decreases m.v
  {
    if m == Zero() then [] else RestSmaller(m); [Low(m)] + BitsOf(Rest(m))
  }

  /** count_1bits(). */
  function Pop(m: Word): nat { |BitsOf(m)| }

  lemma BitsStep(m: Word)
    ensures m == Zero() <==> BitsOf(m) == []
    ensures m != Zero() ==> BitsOf(m) == [Low(m)] + BitsOf(Rest(m))
  {
  }

  /** The bits of `m` are what its name says. */
  lemma {:induction false} BitsAreBits(m: Word, i: nat)
    requires i < |BitsOf(m)|
    ensures IsBit(BitsOf(m)[i]) && Has(m, BitsOf(m)[i])
    decreases |BitsOf(m)|
  {
    hide Zero;
    hide Low;
    hide Rest;
    hide IsBit;
    hide Has;
    LowIsBit(m);
    BitsStep(m);
    if i > 0 {
      BitsAreBits(Rest(m), i - 1);
      LowNotInRest(m);
      HasInRest(m, BitsOf(Rest(m))[i - 1]);
    }
  }

  /** Every bit of `m` is listed, and the number of bits below it is its place in the list. */
  lemma {:induction false} BitsListed(m: Word, b: Word)
    requires IsBit(b) && Has(m, b)
    ensures Pop(And(m, Below(b))) < |BitsOf(m)| && BitsOf(m)[Pop(And(m, Below(b)))] == b
    decreases |BitsOf(m)|
  {
    hide Zero;
    hide Low;
    hide Rest;
    hide IsBit;
    hide Has;
    hide And;
    hide Below;
    hide BitsOf;
    AnyBit(m, b);
    BitsStep(m);
    BitsStep(And(m, Below(b)));
    if b == Low(m) {
      NothingBelowLow(m);
    } else {
      RestBelow(m, b);
      HasInRest(m, b);
      BitsListed(Rest(m), b);
    }
  }

  /** A bit added above the others goes to the end of the list. */
  lemma {:induction false} BitsSnoc(m: Word, b: Word)
    requires IsBit(b) && AllBelow(m, b)
    ensures BitsOf(Or(m, b)) == BitsOf(m) + [b]
    decreases |BitsOf(m)|
  {
    hide Zero;
    hide Low;
    hide Rest;
    hide IsBit;
    hide AllBelow;
    hide Or;
    hide BitsOf;
    LowOfBit(b);
    BitsStep(m);
    BitsStep(Or(m, b));
    if m == Zero() {
      BitsStep(Zero());
    } else {
      LowOfOr(m, b);
      BitsSnoc(Rest(m), b);
    }
  }
}
