/** A bucket of the signature match cache: a fixed number of signatures, each with a 16-bit index into the flow
    table. */
module SmcBucket {
  import opened Base

  const NO_INDEX: nat := 0xffff

  type U16 = x: nat | x <= 0xffff

  /** The first entry with the signature, `|sig|` if there is none. */
  function First(sig: seq<U16>, s: U16): (i: nat)
    ensures i <= |sig| && (i < |sig| ==> sig[i] == s)
    ensures forall j :: 0 <= j < i ==> sig[j] != s
  {
    if sig == [] then 0 else if sig[0] == s then 0 else 1 + First(sig[1..], s)
  }

  /** What the bucket holds for a signature. */
  function Held(sig: seq<U16>, idx: seq<U16>, s: U16): (r: Option<U16>)
    requires |sig| == |idx|
  {
    var i := First(sig, s);
    if i < |sig| && idx[i] != NO_INDEX then Some(idx[i]) else None
  }

  /** An entry in use is the first of its signature, so no index is hidden behind another entry. */
  predicate NoneHidden(sig: seq<U16>, idx: seq<U16>)
    requires |sig| == |idx|
  {
    forall i :: 0 <= i < |sig| && idx[i] != NO_INDEX ==> First(sig, sig[i]) == i
  }

  class Bucket {
    const sig: array<U16>
    const idx: array<U16>

    predicate Valid()
      reads sig, idx
    {
      sig != idx && sig.Length == idx.Length && sig.Length > 0 && NoneHidden(sig[..], idx[..])
    }

    constructor (entries: nat)
      requires entries > 0
      ensures Valid() && fresh(sig) && fresh(idx) && sig.Length == entries
      ensures forall s: U16 :: Held(sig[..], idx[..], s) == None
    {
      sig := new U16[entries](_ => 0);
      idx := new U16[entries](_ => NO_INDEX);
    }

    /** smc_entry_get() without the lookup of the index in the flow table. */
    method Get(s: U16) returns (r: Option<U16>)
      requires Valid()
      ensures r == Held(sig[..], idx[..], s)
    {
      for i := 0 to sig.Length
        invariant forall j :: 0 <= j < i ==> sig[j] != s
      {
        if sig[i] == s {
          FirstIs(sig[..], s, i);
          return if idx[i] != NO_INDEX then Some(idx[i]) else None;
        }
      }
      return None;
    }

    /** smc_insert(): afterwards the signature has the index, and every other signature has what it had, but for one
        that may have been evicted - only from a full bucket, and only if the signature was new.  Indices too large
        are not inserted.  `random` picks the entry to evict. */
    method Insert(s: U16, index: nat, random: nat)
      requires Valid()
      modifies sig, idx
      ensures Valid()
      ensures index >= NO_INDEX ==> sig[..] == old(sig[..]) && idx[..] == old(idx[..])
      ensures index < NO_INDEX ==> Held(sig[..], idx[..], s) == Some(index)
      ensures forall t: U16 :: t != s ==>
        var was, now := old(Held(sig[..], idx[..], t)), Held(sig[..], idx[..], t);
        now == was || (now == None && t == old(sig[random % sig.Length])
                       && old(First(sig[..], s) == sig.Length && NO_INDEX !in idx[..]))
    {
      if index >= NO_INDEX {
        return;
      }
      for i := 0 to sig.Length
        invariant forall j :: 0 <= j < i ==> sig[j] != s
        invariant sig[..] == old(sig[..]) && idx[..] == old(idx[..])
      {
        if sig[i] == s {
          FirstIs(sig[..], s, i);
          WrittenHeld(sig[..], idx[..], i, s, index);
          idx[i] := index;
          assert sig[..] == old(sig[..])[i := s] && idx[..] == old(idx[..])[i := index];
          return;
        }
      }
      for i := 0 to idx.Length
        invariant forall j :: 0 <= j < i ==> idx[j] != NO_INDEX
        invariant sig[..] == old(sig[..]) && idx[..] == old(idx[..])
      {
        if idx[i] == NO_INDEX {
          WrittenHeld(sig[..], idx[..], i, s, index);
          sig[i], idx[i] := s, index;
          assert sig[..] == old(sig[..])[i := s] && idx[..] == old(idx[..])[i := index];
          return;
        }
      }
      var i := random % sig.Length;
      WrittenHeld(sig[..], idx[..], i, s, index);
      sig[i], idx[i] := s, index;
      assert sig[..] == old(sig[..])[i := s] && idx[..] == old(idx[..])[i := index];
    }
  }

  lemma FirstIs(sig: seq<U16>, s: U16, i: nat)
    requires i < |sig| && sig[i] == s && forall j :: 0 <= j < i ==> sig[j] != s
    ensures First(sig, s) == i
  {
  }

  /** Writing an entry, which must be the one of the signature if there is one. */
  lemma WrittenHeld(sig: seq<U16>, idx: seq<U16>, i: nat, s: U16, index: U16)
    requires |sig| == |idx| && i < |sig| && NoneHidden(sig, idx) && index != NO_INDEX
    requires First(sig, s) == i || First(sig, s) == |sig|
    ensures var sig', idx' := sig[i := s], idx[i := index];
            && NoneHidden(sig', idx') && Held(sig', idx', s) == Some(index)
            && forall t: U16 :: t != s ==>
                 Held(sig', idx', t) == if idx[i] != NO_INDEX && t == sig[i] then None else Held(sig, idx, t)
  {
    hide First;
    var sig', idx' := sig[i := s], idx[i := index];
    WrittenNoneHidden(sig, idx, i, s, index);
    FirstIs(sig', s, i);
    forall t: U16 | t != s
      ensures Held(sig', idx', t) == if idx[i] != NO_INDEX && t == sig[i] then None else Held(sig, idx, t)
    {
      OtherHeld(sig, idx, i, s, index, t);
    }
  }

  lemma WrittenNoneHidden(sig: seq<U16>, idx: seq<U16>, i: nat, s: U16, index: U16)
    requires |sig| == |idx| && i < |sig| && NoneHidden(sig, idx) && index != NO_INDEX
    requires First(sig, s) == i || First(sig, s) == |sig|
    ensures NoneHidden(sig[i := s], idx[i := index])
  {
    hide First;
    var sig', idx' := sig[i := s], idx[i := index];
    forall j | 0 <= j < |sig| && idx'[j] != NO_INDEX
      ensures First(sig', sig'[j]) == j
    {
      assert First(sig, sig[j]) == j || j == i;
      FirstIs(sig', sig'[j], j);
    }
  }

  lemma OtherHeld(sig: seq<U16>, idx: seq<U16>, i: nat, s: U16, index: U16, t: U16)
    requires |sig| == |idx| && i < |sig| && NoneHidden(sig, idx) && t != s
    ensures Held(sig[i := s], idx[i := index], t) ==
            if idx[i] != NO_INDEX && t == sig[i] then None else Held(sig, idx, t)
  {
    hide First;
    var sig' := sig[i := s];
    var a := First(sig, t);
    if a < |sig| && a != i {
      FirstIs(sig', t, a);
    }
  }
}
