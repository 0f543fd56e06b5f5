/** Meters: a token bucket for each band (OpenFlow Switch Specification 1.3, section 5.7).  A bucket counts 1/1000
    packets, or bits. */
module Meter {
  import opened Base

  const NETDEV_MAX_BURST: nat := 32

  datatype Packet = Packet(id: nat, size: nat)

  datatype Band = Band(rate: nat, burst: nat, bucket: nat, packetCount: nat, byteCount: nat)

  function Capacity(b: Band): nat { b.burst * 1000 }

  predicate BandOk(b: Band) {
    0 < b.rate <= U32_MAX && b.burst <= U32_MAX && b.bucket <= Capacity(b)
  }

  predicate BandsOk(bands: seq<Band>) {
    forall m :: 0 <= m < |bands| ==> BandOk(bands[m])
  }

  // ---------------------------------------------------------------- one band

  /** The bucket after `delta` milliseconds, in 64-bit arithmetic. */
  function Refilled(b: Band, delta: nat): (r: nat)
    ensures r <= Capacity(b)
  {
    var sum := (b.bucket + delta * b.rate) % (U64_MAX + 1);
    if sum > Capacity(b) then Capacity(b) else sum
  }

  /** What a packet takes out of a bucket. */
  function Volume(pktps: bool, p: Packet): nat {
    if pktps then 1000 else p.size * 8
  }

  function TotalVolume(pktps: bool, packets: seq<Packet>): nat {
    if packets == [] then 0 else TotalVolume(pktps, packets[..|packets| - 1]) + Volume(pktps, packets[|packets| - 1])
  }

  /** The same in the code's 32-bit arithmetic. */
  function Volume32(pktps: bool, packets: seq<Packet>): nat {
    TotalVolume(pktps, packets) % (U32_MAX + 1)
  }

  /** The bytes of the batch, added up in 32 bits. */
  function Bytes32(packets: seq<Packet>): nat {
    TotalVolume(false, packets) / 8 % (U32_MAX + 1)
  }

  function Bits32(p: Packet): nat { p.size * 8 % (U32_MAX + 1) }

  /** The bucket that packet `i` meets when packets are processed one by one. */
  function BucketAt(bucket: nat, packets: seq<Packet>, i: nat): nat
    requires i <= |packets|
  {
    if i == 0 then bucket
    else
      var b := BucketAt(bucket, packets, i - 1);
      var bits := Bits32(packets[i - 1]);
      if b >= bits then b - bits else b
  }

  /** Packet `i` exceeds a band with that (refilled) bucket. */
  predicate Exceeds(pktps: bool, bucket: nat, packets: seq<Packet>, i: nat)
    requires i < |packets|
  {
    && bucket < Volume32(pktps, packets)
    && if pktps then i >= bucket / 1000 else BucketAt(bucket, packets, i) < Bits32(packets[i])
  }

  /** The bucket after the batch. */
  function Drained(pktps: bool, bucket: nat, packets: seq<Packet>): nat {
    if bucket >= Volume32(pktps, packets) then bucket - Volume32(pktps, packets)
    else if pktps then bucket % 1000
    else BucketAt(bucket, packets, |packets|)
  }

  /** The packets among the first `n` that do not exceed the band. */
  function Passed(pktps: bool, bucket: nat, packets: seq<Packet>, n: nat): seq<Packet>
    requires n <= |packets|
  {
    if n == 0 then []
    else if Exceeds(pktps, bucket, packets, n - 1) then Passed(pktps, bucket, packets, n - 1)
    else Passed(pktps, bucket, packets, n - 1) + [packets[n - 1]]
  }

  /** The volume of the batch is computed without wrapping around. */
  predicate Fits32(pktps: bool, packets: seq<Packet>) {
    TotalVolume(pktps, packets) <= U32_MAX
  }

  /** Conservation: what the passed packets take is exactly what leaves the bucket. */
  lemma BandConserves(pktps: bool, bucket: nat, packets: seq<Packet>)
    requires Fits32(pktps, packets)
    ensures TotalVolume(pktps, Passed(pktps, bucket, packets, |packets|)) + Drained(pktps, bucket, packets) == bucket
  {
    if bucket >= Volume32(pktps, packets) {
      AllPass(pktps, bucket, packets, |packets|);
      assert packets[..|packets|] == packets;
    } else if pktps {
      PacketsConserve(bucket, packets);
    } else {
      hide Passed;
      BitsPass(bucket, packets, |packets|);
    }
  }

  lemma {:induction false} AllPass(pktps: bool, bucket: nat, packets: seq<Packet>, n: nat)
    requires bucket >= Volume32(pktps, packets) && n <= |packets|
    ensures Passed(pktps, bucket, packets, n) == packets[..n]
  {
    if n > 0 {
      AllPass(pktps, bucket, packets, n - 1);
      assert packets[..n - 1] + [packets[n - 1]] == packets[..n];
    }
  }

  lemma {:induction false} PacketsCount(packets: seq<Packet>)
    ensures TotalVolume(true, packets) == |packets| * 1000
  {
    if packets != [] {
      PacketsCount(packets[..|packets| - 1]);
    }
  }

  lemma SnocVolume(pktps: bool, s: seq<Packet>, p: Packet)
    ensures TotalVolume(pktps, s + [p]) == TotalVolume(pktps, s) + Volume(pktps, p)
  {
    assert (s + [p])[..|s|] == s;
  }

  lemma {:induction false} FirstPass(bucket: nat, packets: seq<Packet>, n: nat)
    requires bucket < Volume32(true, packets) && n <= |packets|
    ensures TotalVolume(true, Passed(true, bucket, packets, n)) ==
            1000 * if n <= bucket / 1000 then n else bucket / 1000
  {
    if n > 0 {
      FirstPass(bucket, packets, n - 1);
      var before := Passed(true, bucket, packets, n - 1);
      SnocVolume(true, before, packets[n - 1]);
    }
  }

  lemma PacketsConserve(bucket: nat, packets: seq<Packet>)
    requires bucket < Volume32(true, packets) && Fits32(true, packets)
    ensures TotalVolume(true, Passed(true, bucket, packets, |packets|)) + bucket % 1000 == bucket
  {
    hide Passed;
    PacketsCount(packets);
    FirstPass(bucket, packets, |packets|);
  }

  lemma BitsExceeds(bucket: nat, packets: seq<Packet>, i: nat)
    requires bucket < Volume32(false, packets) && i < |packets|
    ensures Exceeds(false, bucket, packets, i) <==> BucketAt(bucket, packets, i) < Bits32(packets[i])
  {
  }

  lemma {:induction false} BitsPass(bucket: nat, packets: seq<Packet>, n: nat)
    requires bucket < Volume32(false, packets) && n <= |packets| && Fits32(false, packets)
    ensures TotalVolume(false, Passed(false, bucket, packets, n)) + BucketAt(bucket, packets, n) == bucket
  {
    if n > 0 {
      BitsPass(bucket, packets, n - 1);
      VolumeWithin(packets, n - 1);
      FitsBits(packets[n - 1]);
      BitsExceeds(bucket, packets, n - 1);
      hide Exceeds;
      hide TotalVolume;
      hide Bits32;
      hide Volume32;
      var before := Passed(false, bucket, packets, n - 1);
      SnocVolume(false, before, packets[n - 1]);
    }
  }

  lemma FitsBits(p: Packet)
    requires p.size * 8 <= U32_MAX
    ensures Bits32(p) == p.size * 8
  {
  }

  lemma {:induction false} VolumeWithin(packets: seq<Packet>, i: nat)
    requires i < |packets|
    ensures packets[i].size * 8 <= TotalVolume(false, packets)
  {
    if i < |packets| - 1 {
      VolumeWithin(packets[..|packets| - 1], i);
    }
  }

  /** Packets pass as long as there is room: a packet exceeds the band exactly if the bucket does not hold it beside the
      packets that have passed before it. */
  lemma ExceedsIff(pktps: bool, bucket: nat, packets: seq<Packet>, i: nat)
    requires Fits32(pktps, packets) && i < |packets|
    ensures Exceeds(pktps, bucket, packets, i) <==>
            TotalVolume(pktps, Passed(pktps, bucket, packets, i)) + Volume(pktps, packets[i]) > bucket
  {
    hide *;
    if bucket >= Volume32(pktps, packets) {
      NoneExceeds(pktps, bucket, packets, i);
    } else if pktps {
      LateExceed(bucket, packets, i);
    } else {
      BitsExceedIff(bucket, packets, i);
    }
  }

  lemma NoneExceeds(pktps: bool, bucket: nat, packets: seq<Packet>, i: nat)
    requires Fits32(pktps, packets) && i < |packets| && bucket >= Volume32(pktps, packets)
    ensures !Exceeds(pktps, bucket, packets, i)
    ensures TotalVolume(pktps, Passed(pktps, bucket, packets, i)) + Volume(pktps, packets[i]) <= bucket
  {
    AllPass(pktps, bucket, packets, i);
    PrefixVolume(pktps, packets, i + 1);
    assert packets[..i + 1] == packets[..i] + [packets[i]];
    SnocVolume(pktps, packets[..i], packets[i]);
    hide TotalVolume;
  }

  lemma LateExceed(bucket: nat, packets: seq<Packet>, i: nat)
    requires i < |packets| && bucket < Volume32(true, packets)
    ensures Exceeds(true, bucket, packets, i) <==>
            TotalVolume(true, Passed(true, bucket, packets, i)) + Volume(true, packets[i]) > bucket
  {
    FirstPass(bucket, packets, i);
    hide TotalVolume;
    hide Passed;
  }

  lemma BitsExceedIff(bucket: nat, packets: seq<Packet>, i: nat)
    requires Fits32(false, packets) && i < |packets| && bucket < Volume32(false, packets)
    ensures Exceeds(false, bucket, packets, i) <==>
            TotalVolume(false, Passed(false, bucket, packets, i)) + Volume(false, packets[i]) > bucket
  {
    BitsPass(bucket, packets, i);
    BitsExceeds(bucket, packets, i);
    VolumeWithin(packets, i);
    FitsBits(packets[i]);
    hide Passed;
    hide TotalVolume;
    hide BucketAt;
    hide Exceeds;
    hide Bits32;
  }

  lemma {:induction false} PrefixVolume(pktps: bool, packets: seq<Packet>, n: nat)
    requires n <= |packets|
    ensures TotalVolume(pktps, packets[..n]) <= TotalVolume(pktps, packets)
  {
    if n < |packets| {
      var rest := packets[..|packets| - 1];
      PrefixVolume(pktps, rest, n);
      assert rest[..n] == packets[..n];
    } else {
      assert packets[..n] == packets;
    }
  }

  /** In bits, a batch is metered right for every bucket exactly if its volume does not wrap around. */
  lemma MeteredRightIffFits(packets: seq<Packet>)
    ensures Fits32(false, packets) <==>
            forall bucket: nat :: TotalVolume(false, Passed(false, bucket, packets, |packets|)) <= bucket
  {
    if Fits32(false, packets) {
      forall bucket: nat
        ensures TotalVolume(false, Passed(false, bucket, packets, |packets|)) <= bucket
      {
        BandConserves(false, bucket, packets);
      }
    } else {
      var bucket := Volume32(false, packets);
      AllPass(false, bucket, packets, |packets|);
      assert packets[..|packets|] == packets;
      assert TotalVolume(false, Passed(false, bucket, packets, |packets|)) > bucket;
    }
  }

  // ---------------------------------------------------------------- time

  /** The milliseconds since the meter was used, none if time went back. */
  function Elapsed(used: nat, now: nat): nat {
    if now / 1000 < used / 1000 then 0 else now / 1000 - used / 1000
  }

  function Clamped(elapsed: nat, maxDelta: nat): nat {
    if elapsed > maxDelta then maxDelta else elapsed
  }

  /** The refill without clamping and with unbounded arithmetic. */
  function IdealRefill(b: Band, elapsed: nat): nat {
    var sum := b.bucket + elapsed * b.rate;
    if sum > Capacity(b) then Capacity(b) else sum
  }

  lemma MulMono(a: nat, b: nat, r: nat)
    requires a <= b
    ensures a * r <= b * r
  {
    assert b * r == a * r + (b - a) * r;
  }

  /** The 64-bit refill cannot wrap around for any bucket and time exactly if it does not for the full bucket and the
      longest time. */
  lemma NoWrapIff(b: Band, maxDelta: nat)
    requires BandOk(b)
    ensures Capacity(b) + maxDelta * b.rate <= U64_MAX <==>
            forall bucket: nat, delta: nat :: bucket <= Capacity(b) && delta <= maxDelta ==>
              NoWrap(bucket, delta, b.rate)
  {
    if Capacity(b) + maxDelta * b.rate <= U64_MAX {
      forall bucket: nat, delta: nat | bucket <= Capacity(b) && delta <= maxDelta
        ensures NoWrap(bucket, delta, b.rate)
      {
        MulMono(delta, maxDelta, b.rate);
      }
    } else {
      assert !NoWrap(Capacity(b), maxDelta, b.rate);
    }
  }

  predicate NoWrap(bucket: nat, delta: nat, rate: nat) {
    bucket + delta * rate <= U64_MAX
  }

  /** ... which is so for all rates up to 2^31. */
  lemma NoWrapSlow(b: Band, maxDelta: nat)
    requires BandOk(b) && b.rate <= 0x8000_0000 && maxDelta <= U32_MAX
    ensures Capacity(b) + maxDelta * b.rate <= U64_MAX
  {
    MulMono(maxDelta, U32_MAX, b.rate);
    MulMono(b.rate, 0x8000_0000, U32_MAX);
  }

  /** ... but not for all rates: a fast band beside one that takes long to fill. */
  lemma FastWraps()
    ensures var slow, fast := Band(1, 4294967, 0, 0, 0), Band(U32_MAX, U32_MAX, 0, 0, 0);
            BandOk(slow) && BandOk(fast) && !NoWrap(Capacity(fast), BandDelta(slow), fast.rate)
  {
    assert BandDelta(Band(1, 4294967, 0, 0, 0)) == 4294967000;
  }

  /** As long as nothing wraps around, a refill adds the rate for every millisecond, up to the bucket size. */
  lemma RefillsIdeal(b: Band, delta: nat)
    requires BandOk(b) && NoWrap(b.bucket, delta, b.rate)
    ensures Refilled(b, delta) == IdealRefill(b, delta)
  {
    SmallMod(b.bucket + delta * b.rate);
  }

  lemma SmallMod(x: nat)
    requires x <= U64_MAX
    ensures x % (U64_MAX + 1) == x
  {
  }

  /** All refills up to the longest time are right exactly if the one of the full bucket for that time does not wrap. */
  lemma RefillRightIff(b: Band, maxDelta: nat)
    requires BandOk(b) && maxDelta <= U32_MAX
    ensures Capacity(b) + maxDelta * b.rate <= U64_MAX <==>
            forall bucket: nat, delta: nat :: bucket <= Capacity(b) && delta <= maxDelta ==>
              Refilled(b.(bucket := bucket), delta) == IdealRefill(b.(bucket := bucket), delta)
  {
    if Capacity(b) + maxDelta * b.rate <= U64_MAX {
      forall bucket: nat, delta: nat | bucket <= Capacity(b) && delta <= maxDelta
        ensures Refilled(b.(bucket := bucket), delta) == IdealRefill(b.(bucket := bucket), delta)
      {
        MulMono(delta, maxDelta, b.rate);
        RefillsIdeal(b.(bucket := bucket), delta);
      }
    } else {
      WrappedRefill(b, maxDelta);
      assert Refilled(b.(bucket := Capacity(b)), maxDelta) != IdealRefill(b.(bucket := Capacity(b)), maxDelta);
    }
  }

  lemma WrappedRefill(b: Band, maxDelta: nat)
    requires BandOk(b) && maxDelta <= U32_MAX && Capacity(b) + maxDelta * b.rate > U64_MAX
    ensures Refilled(b.(bucket := Capacity(b)), maxDelta) < Capacity(b)
  {
    MulMono(maxDelta, U32_MAX, b.rate);
    MulMono(b.rate, U32_MAX, U32_MAX);
    var sum := Capacity(b) + maxDelta * b.rate;
    assert sum % (U64_MAX + 1) == sum - (U64_MAX + 1);
  }

  /** Clamping the time leaves every refill less than one rate unit below the ideal one exactly if the longest time
      is enough to fill the bucket but for less than one unit. */
  lemma ClampIff(b: Band, maxDelta: nat)
    requires BandOk(b)
    ensures maxDelta >= Capacity(b) / b.rate <==>
            forall bucket: nat, elapsed: nat :: bucket <= Capacity(b) ==>
              CloseTo(b.(bucket := bucket), elapsed, maxDelta, b.rate)
  {
    var q := Capacity(b) / b.rate;
    if maxDelta >= q {
      forall bucket: nat, elapsed: nat | bucket <= Capacity(b)
        ensures CloseTo(b.(bucket := bucket), elapsed, maxDelta, b.rate)
      {
        ClampClose(b.(bucket := bucket), elapsed, maxDelta);
      }
    } else {
      ClampFar(b, maxDelta);
      assert !CloseTo(b.(bucket := 0), q, maxDelta, b.rate);
    }
  }

  lemma ClampClose(b: Band, elapsed: nat, maxDelta: nat)
    requires BandOk(b) && maxDelta >= Capacity(b) / b.rate
    ensures CloseTo(b, elapsed, maxDelta, b.rate)
  {
    var q := Capacity(b) / b.rate;
    if elapsed > maxDelta {
      QuotientBounds(Capacity(b), b.rate);
      assert (q + 1) * b.rate == q * b.rate + b.rate;
      MulMono(q, maxDelta, b.rate);
      MulMono(q + 1, elapsed, b.rate);
      hide Capacity;
      var x, y := maxDelta * b.rate, elapsed * b.rate;
    }
  }

  lemma ClampFar(b: Band, maxDelta: nat)
    requires BandOk(b) && maxDelta < Capacity(b) / b.rate
    ensures !CloseTo(b.(bucket := 0), Capacity(b) / b.rate, maxDelta, b.rate)
  {
    var q := Capacity(b) / b.rate;
    QuotientBounds(Capacity(b), b.rate);
    assert (maxDelta + 1) * b.rate == maxDelta * b.rate + b.rate;
    MulMono(maxDelta + 1, q, b.rate);
    hide Capacity;
  }

  /** ... and changes no refill at all exactly if the longest time is enough to fill the bucket; where the rate divides
      the bucket size, that is the same condition. */
  lemma ClampExactIff(b: Band, maxDelta: nat)
    requires BandOk(b)
    ensures maxDelta * b.rate >= Capacity(b) <==>
            forall bucket: nat, elapsed: nat :: bucket <= Capacity(b) ==>
              CloseTo(b.(bucket := bucket), elapsed, maxDelta, 1)
    ensures Capacity(b) % b.rate == 0 ==> (maxDelta * b.rate >= Capacity(b) <==> maxDelta >= Capacity(b) / b.rate)
  {
    QuotientBounds(Capacity(b), b.rate);
    ScaledOrder(maxDelta, Capacity(b) / b.rate, b.rate);
    if maxDelta * b.rate >= Capacity(b) {
      forall bucket: nat, elapsed: nat | bucket <= Capacity(b)
        ensures CloseTo(b.(bucket := bucket), elapsed, maxDelta, 1)
      {
        if elapsed > maxDelta {
          MulMono(maxDelta, elapsed, b.rate);
        }
      }
    } else {
      assert (maxDelta + 1) * b.rate == maxDelta * b.rate + b.rate;
      assert !CloseTo(b.(bucket := 0), maxDelta + 1, maxDelta, 1);
    }
  }

  lemma ScaledOrder(d: nat, q: nat, r: nat)
    requires r > 0
    ensures d * r >= q * r <==> d >= q
  {
    if d >= q {
      MulMono(q, d, r);
    } else {
      MulMono(d + 1, q, r);
      assert (d + 1) * r == d * r + r;
    }
  }

  /** A longest time that is at least the stored filling time of the band, as meter setup leaves it, keeps every refill
      within a rate unit exactly if the filling time fits 32 bits. */
  lemma SetupClampIff(b: Band, maxDelta: nat)
    requires BandOk(b) && BandDelta(b) <= maxDelta <= U32_MAX
    ensures Capacity(b) / b.rate <= U32_MAX <==>
            forall bucket: nat, elapsed: nat :: bucket <= Capacity(b) ==>
              CloseTo(b.(bucket := bucket), elapsed, maxDelta, b.rate)
  {
    StoredTime(Capacity(b) / b.rate);
    var q := Capacity(b) / b.rate;
    assert BandDelta(b) == q % (U32_MAX + 1);
    ClampIff(b, maxDelta);
    hide *;
  }

  lemma StoredTime(q: nat)
    ensures q % (U32_MAX + 1) <= U32_MAX && (q <= U32_MAX ==> q % (U32_MAX + 1) == q)
  {
  }

  /** If the rate divides the bucket size, then no refill is changed at all, again exactly if it fits. */
  lemma SetupClampExactIff(b: Band, maxDelta: nat)
    requires BandOk(b) && BandDelta(b) <= maxDelta <= U32_MAX && Capacity(b) % b.rate == 0
    ensures Capacity(b) / b.rate <= U32_MAX <==>
            forall bucket: nat, elapsed: nat :: bucket <= Capacity(b) ==>
              CloseTo(b.(bucket := bucket), elapsed, maxDelta, 1)
  {
    StoredTime(Capacity(b) / b.rate);
    var q := Capacity(b) / b.rate;
    assert BandDelta(b) == q % (U32_MAX + 1);
    ClampExactIff(b, maxDelta);
    hide *;
  }

  /** A slow band with a large burst: its filling time is stored as 704 milliseconds, and ten seconds refill no more. */
  lemma ClampShort()
    ensures var b := Band(1, 4_294_968, 0, 0, 0);
            && BandOk(b) && BandDelta(b) == 704 && !CloseTo(b, 10_000, 704, b.rate)
            && IdealRefill(b, 10_000) == 10_000 && IdealRefill(b, Clamped(10_000, 704)) == 704
  {
  }

  /** The clamped refill is less than `margin` below the ideal one. */
  predicate CloseTo(b: Band, elapsed: nat, maxDelta: nat, margin: nat) {
    IdealRefill(b, elapsed) - margin < IdealRefill(b, Clamped(elapsed, maxDelta)) <= IdealRefill(b, elapsed)
  }

  lemma QuotientBounds(c: nat, r: nat)
    requires r > 0
    ensures c / r * r <= c < (c / r + 1) * r
    ensures c % r == c - c / r * r
  {
  }

  /** The time that meter setup computes for a band, as stored in 32 bits. */
  function BandDelta(b: Band): nat
    requires b.rate > 0
  {
    Capacity(b) / b.rate % (U32_MAX + 1)
  }

  // ---------------------------------------------------------------- one batch

  /** Packet `i` exceeds band `m` of a meter refilled for `delta` milliseconds. */
  predicate ExceedsBand(pktps: bool, bands: seq<Band>, delta: nat, packets: seq<Packet>, m: nat, i: nat)
    requires m < |bands| && i < |packets|
  {
    Exceeds(pktps, Refilled(bands[m], delta), packets, i)
  }

  /** `r` is the band of the highest rate that packet `i` exceeds, the first of these, or -1 if it exceeds none of the
      first `n` bands. */
  ghost predicate IsCharge(pktps: bool, bands: seq<Band>, delta: nat, packets: seq<Packet>, i: nat, n: nat, r: int)
    requires i < |packets| && n <= |bands|
  {
    if r < 0 then
      r == -1 && forall m :: 0 <= m < n ==> !ExceedsBand(pktps, bands, delta, packets, m, i)
    else
      && r < n && ExceedsBand(pktps, bands, delta, packets, r, i)
      && forall m :: 0 <= m < n && ExceedsBand(pktps, bands, delta, packets, m, i) ==>
           bands[m].rate < bands[r].rate || (bands[m].rate == bands[r].rate && r <= m)
  }

  /** The accepted packets among the first `n`. */
  function Kept(packets: seq<Packet>, charges: seq<int>, n: nat): seq<Packet>
    requires n <= |packets| == |charges|
  {
    if n == 0 then []
    else if charges[n - 1] >= 0 then Kept(packets, charges, n - 1)
    else Kept(packets, charges, n - 1) + [packets[n - 1]]
  }

  /** How many of the first `n` packets are charged to band `m`, and their bytes. */
  function Charged(charges: seq<int>, m: int, n: nat): (c: nat)
    requires n <= |charges|
    ensures c <= n
  {
    if n == 0 then 0 else Charged(charges, m, n - 1) + if charges[n - 1] == m then 1 else 0
  }

  function ChargedBytes(packets: seq<Packet>, charges: seq<int>, m: int, n: nat): nat
    requires n <= |packets| == |charges|
  {
    if n == 0 then 0
    else ChargedBytes(packets, charges, m, n - 1) + if charges[n - 1] == m then packets[n - 1].size else 0
  }

  function Wrap64(x: nat): nat { x % (U64_MAX + 1) }

  ghost predicate BandMetered(pktps: bool, before: Band, delta: nat, packets: seq<Packet>, after: Band) {
    && after.rate == before.rate && after.burst == before.burst
    && after.bucket == Drained(pktps, Refilled(before, delta), packets)
  }

  ghost predicate BandsMetered(pktps: bool, before: seq<Band>, delta: nat, packets: seq<Packet>, after: seq<Band>) {
    |after| == |before| && forall m :: 0 <= m < |before| ==> BandMetered(pktps, before[m], delta, packets, after[m])
  }

  ghost predicate AllCharged(pktps: bool, bands: seq<Band>, delta: nat, packets: seq<Packet>, n: nat, charges: seq<int>)
    requires n <= |bands|
  {
    |charges| == |packets| && forall i :: 0 <= i < |packets| ==>
      IsCharge(pktps, bands, delta, packets, i, n, charges[i])
  }

  /** The drop counters of the bands count the charges of the first `n` packets. */
  ghost predicate Counted(before: seq<Band>, after: seq<Band>, packets: seq<Packet>, charges: seq<int>, n: nat)
    requires n <= |packets| == |charges|
  {
    |before| == |after| && forall m :: 0 <= m < |before| ==>
      && after[m].packetCount == Wrap64(before[m].packetCount + Charged(charges, m, n))
      && after[m].byteCount == Wrap64(before[m].byteCount + ChargedBytes(packets, charges, m, n))
  }

  predicate CountersOk(bands: seq<Band>) {
    forall m :: 0 <= m < |bands| ==> bands[m].packetCount <= U64_MAX && bands[m].byteCount <= U64_MAX
  }

  class Meter {
    const pktps: bool
    var bands: seq<Band>
    var maxDelta: nat
    var used: nat
    var packetCount: nat
    var byteCount: nat

    ghost predicate Valid()
      reads this
    {
      BandsOk(bands) && CountersOk(bands) && maxDelta <= U32_MAX
    }

    /** dpif_netdev_meter_set(): each band is given as its rate and burst size; rates are positive. */
    constructor (pktps: bool, config: seq<(nat, nat)>, now: nat)
      requires forall i :: 0 <= i < |config| ==> 0 < config[i].0 <= U32_MAX && config[i].1 <= U32_MAX
      ensures Valid() && used == now && this.pktps == pktps && |bands| == |config|
      ensures forall i :: 0 <= i < |config| ==>
                && bands[i].rate == config[i].0
                && bands[i].burst == (if config[i].1 == 0 then config[i].0 else config[i].1)
                && bands[i].bucket == Capacity(bands[i])
      ensures forall i :: 0 <= i < |config| ==> BandDelta(bands[i]) <= maxDelta
      ensures maxDelta == 0 || exists i :: 0 <= i < |config| && maxDelta == BandDelta(bands[i])
    {
      this.pktps := pktps;
      packetCount, byteCount, used, maxDelta, bands := 0, 0, now, 0, [];
      new;
      for i := 0 to |config|
        invariant |bands| == i && used == now && maxDelta <= U32_MAX
        invariant forall j :: 0 <= j < i ==>
                    && bands[j].rate == config[j].0
                    && bands[j].burst == (if config[j].1 == 0 then config[j].0 else config[j].1)
                    && bands[j].bucket == Capacity(bands[j])
        invariant BandsOk(bands) && CountersOk(bands)
        invariant forall j :: 0 <= j < i ==> BandDelta(bands[j]) <= maxDelta
        invariant maxDelta == 0 || exists j :: 0 <= j < i && maxDelta == BandDelta(bands[j])
      {
        hide BandDelta;
        var burst := if config[i].1 == 0 then config[i].0 else config[i].1;
        var band := Band(config[i].0, burst, burst * 1000, 0, 0);
        DeltaFits(band);
        bands := bands + [band];
        assert bands[i] == band;
        if BandDelta(band) > maxDelta {
          maxDelta := BandDelta(band);
        }
      }
    }

    /** The batch passes one band, whose refilled bucket is given: the bucket is drained, and the packets that exceed
        the band are noted if its rate is higher than that of the band noted before. */
    method PassBand(bucket: nat, rate: nat, m: nat, packets: seq<Packet>, volume: nat, exceededRate: array<nat>,
                    exceededBand: array<int>) returns (rest: nat)
      requires exceededRate.Length == exceededBand.Length == |packets| && volume == Volume32(pktps, packets)
      modifies exceededRate, exceededBand
      ensures rest == Drained(pktps, bucket, packets)
      ensures forall i :: 0 <= i < |packets| ==>
                Noted(Exceeds(pktps, bucket, packets, i), rate, m, old(exceededRate[i]), old(exceededBand[i]),
                      exceededRate[i], exceededBand[i])
    {
      hide Volume32;
      hide BucketAt;
      hide Bits32;
      if bucket >= volume {
        rest := bucket - volume;
      } else if pktps {
        PassPackets(bucket / 1000, rate, m, exceededRate, exceededBand);
        rest := bucket % 1000;
      } else {
        rest := PassBits(bucket, rate, m, packets, exceededRate, exceededBand);
      }
    }

    /** The packets from `first` on exceed the band. */
    method PassPackets(first: nat, rate: nat, m: nat, exceededRate: array<nat>, exceededBand: array<int>)
      requires exceededRate.Length == exceededBand.Length
      modifies exceededRate, exceededBand
      ensures forall i :: 0 <= i < exceededRate.Length ==>
                Noted(i >= first, rate, m, old(exceededRate[i]), old(exceededBand[i]), exceededRate[i], exceededBand[i])
    {
      var n := exceededRate.Length;
      var start := if first <= n then first else n;
      for i := start to n
        invariant forall j :: 0 <= j < i ==>
                    Noted(j >= first, rate, m, old(exceededRate[j]), old(exceededBand[j]), exceededRate[j],
                          exceededBand[j])
        invariant forall j :: i <= j < n ==>
                    exceededRate[j] == old(exceededRate[j]) && exceededBand[j] == old(exceededBand[j])
      {
        if rate > exceededRate[i] {
          exceededRate[i], exceededBand[i] := rate, m;
        }
      }
    }

    /** Packet by packet in bits. */
    method PassBits(bucket: nat, rate: nat, m: nat, packets: seq<Packet>, exceededRate: array<nat>,
                    exceededBand: array<int>)
      returns (rest: nat)
      requires exceededRate.Length == exceededBand.Length == |packets|
      modifies exceededRate, exceededBand
      ensures rest == BucketAt(bucket, packets, |packets|)
      ensures forall i :: 0 <= i < |packets| ==>
                Noted(BucketAt(bucket, packets, i) < Bits32(packets[i]), rate, m, old(exceededRate[i]),
                      old(exceededBand[i]), exceededRate[i], exceededBand[i])
    {
      hide Bits32;
      hide BucketAt;
      BucketStart(bucket, packets);
      rest := bucket;
      for i := 0 to |packets|
        invariant rest == BucketAt(bucket, packets, i)
        invariant forall j :: 0 <= j < i ==>
                    Noted(BucketAt(bucket, packets, j) < Bits32(packets[j]), rate, m, old(exceededRate[j]),
                          old(exceededBand[j]), exceededRate[j], exceededBand[j])
        invariant forall j :: i <= j < |packets| ==>
                    exceededRate[j] == old(exceededRate[j]) && exceededBand[j] == old(exceededBand[j])
      {
        BucketNext(bucket, packets, i);
        var bits := Bits32(packets[i]);
        ghost var exceeds := rest < bits;
        if rest >= bits {
          rest := rest - bits;
        } else if rate > exceededRate[i] {
          exceededRate[i], exceededBand[i] := rate, m;
        }
        assert Noted(exceeds, rate, m, old(exceededRate[i]), old(exceededBand[i]), exceededRate[i], exceededBand[i]);
        hide Noted;
      }
    }

    /** The volume of the batch, added up in 32 bits. */
    method BatchVolume(packets: seq<Packet>) returns (bytes: nat, volume: nat)
      requires |packets| <= NETDEV_MAX_BURST
      ensures volume == Volume32(pktps, packets)
      ensures bytes == Bytes32(packets)
    {
      bytes := 0;
      ghost var sum := 0;
      for i := 0 to |packets|
        invariant bytes == sum % (U32_MAX + 1) && TotalVolume(false, packets[..i]) == sum * 8
      {
        assert packets[..i + 1] == packets[..i] + [packets[i]];
        SnocVolume(false, packets[..i], packets[i]);
        hide TotalVolume;
        WrapSum(sum, packets[i].size);
        bytes := (bytes + packets[i].size) % (U32_MAX + 1);
        sum := sum + packets[i].size;
      }
      assert packets[..|packets|] == packets;
      PacketsCount(packets);
      hide TotalVolume;
      WrapBits(sum);
      if pktps {
        volume := |packets| * 1000;
      } else {
        volume := bytes * 8 % (U32_MAX + 1);
      }
    }

    /** All bands are refilled, drained and tested. */
    method PassBands(delta: nat, packets: array<Packet>, volume: nat, exceededBand: array<int>)
      requires Valid() && exceededBand.Length == packets.Length && volume == Volume32(pktps, packets[..])
      requires forall i :: 0 <= i < exceededBand.Length ==> exceededBand[i] == -1
      modifies this`bands, exceededBand
      ensures BandsMetered(pktps, old(bands), delta, packets[..], bands) && BandsOk(bands) && |bands| == |old(bands)|
      ensures Counted(old(bands), bands, packets[..], exceededBand[..], 0)
      ensures AllCharged(pktps, old(bands), delta, packets[..], |old(bands)|, exceededBand[..])
    {
      var exceededRate := new nat[packets.Length](_ => 0);
      ghost var before := bands;
      hide Refilled;
      hide Exceeds;
      hide Drained;
      hide BandOk;
      for m := 0 to |bands|
        invariant |bands| == |before|
        invariant forall k :: 0 <= k < |bands| ==> bands[k] == before[k].(bucket :=
                    if k < m then Drained(pktps, Refilled(before[k], delta), packets[..]) else before[k].bucket)
        invariant AllCharged(pktps, before, delta, packets[..], m, exceededBand[..])
        invariant RatesOf(before, exceededRate[..], exceededBand[..])
      {
        assert BandOk(before[m]);
        ghost var rates, charges := exceededRate[..], exceededBand[..];
        var rest := PassBand(Refilled(bands[m], delta), bands[m].rate, m, packets[..], volume, exceededRate,
                             exceededBand);
        ChargedMore(pktps, before, delta, packets[..], m, rates, charges, exceededRate[..], exceededBand[..]);
        bands := bands[m := bands[m].(bucket := rest)];
      }
      DrainedOk(pktps, before, delta, packets[..], bands);
      assert Counted(before, bands, packets[..], exceededBand[..], 0);
    }

    /** The end of dp_netdev_run_meter(): packets charged to a band are dropped and counted there, the others move up in
        the batch. */
    method DropCharged(packets: array<Packet>, charges: seq<int>) returns (kept: nat)
      requires packets.Length == |charges| && CountersOk(bands)
      requires forall i :: 0 <= i < packets.Length ==> charges[i] < |bands|
      modifies this`bands, packets
      ensures kept <= packets.Length && packets[..kept] == Kept(old(packets[..]), charges, packets.Length)
      ensures Counted(old(bands), bands, old(packets[..]), charges, packets.Length)
      ensures SameButCounts(old(bands), bands)
    {
      ghost var before, was := bands, packets[..];
      hide CountersOk;
      hide Counted;
      hide Kept;
      hide CountDrop;
      hide SameButCounts;
      hide Wrap64;
      NoneCounted(bands, was, charges);
      KeptStart(was, charges);
      kept := 0;
      for j := 0 to packets.Length
        invariant kept <= j && kept == |Kept(was, charges, j)|
        invariant forall k :: 0 <= k < kept ==> packets[k] == Kept(was, charges, j)[k]
        invariant forall k :: j <= k < packets.Length ==> packets[k] == was[k]
        invariant SameButCounts(before, bands)
        invariant Counted(before, bands, was, charges, j)
      {
        CountedMore(before, bands, was, charges, j, CountDrop(bands, charges[j], packets[j].size));
        CountDropKeeps(before, bands, charges[j], packets[j].size);
        KeptNext(was, charges, j);
        if charges[j] >= 0 {
          bands := CountDrop(bands, charges[j], packets[j].size);
        } else {
          packets[kept] := packets[j];
          kept := kept + 1;
        }
      }
    }

    /** dp_netdev_run_meter() for a meter that exists. */
    method RunMeter(packets: array<Packet>, now: nat) returns (kept: nat, ghost charges: seq<int>)
      requires Valid() && packets.Length <= NETDEV_MAX_BURST
      modifies this, packets
      ensures Valid() && used == now && maxDelta == old(maxDelta)
      ensures packetCount == Wrap64(old(packetCount) + packets.Length)
      ensures byteCount == Wrap64(old(byteCount) + Bytes32(old(packets[..])))
      ensures BatchMetered(pktps, old(bands), Clamped(Elapsed(old(used), now), maxDelta), old(packets[..]), bands,
                           charges)
      ensures kept <= packets.Length && packets[..kept] == Kept(old(packets[..]), charges, packets.Length)
      ensures |bands| == |old(bands)| && kept + CountersGrown(old(bands), bands, |bands|) == packets.Length
      ensures forall ms: nat ::
                HasRoom(pktps, old(bands), old(used), now, ms, maxDelta, old(packets[..])) ==>
                kept == packets.Length && packets[..] == old(packets[..]) &&
                BucketsLess(old(bands), ms, TotalVolume(pktps, old(packets[..])), bands)
    {
      hide HasRoom;
      hide BucketsLess;
      hide BandsOk;
      hide CountersGrown;
      hide Volume32;
      hide Bytes32;
      hide Elapsed;
      hide Clamped;
      ghost var before, was := bands, packets[..];
      var delta := Clamped(Elapsed(used, now), maxDelta);
      used := now;
      packetCount := Wrap64(packetCount + packets.Length);
      var bytes, volume := BatchVolume(packets[..]);
      byteCount := Wrap64(byteCount + bytes);
      var exceededBand := new int[packets.Length](_ => -1);
      PassBands(delta, packets, volume, exceededBand);
      charges := exceededBand[..];
      ghost var middle := bands;
      ChargesInRange(pktps, before, delta, was, charges);
      CountsStart(before, middle, was, charges);
      kept := DropCharged(packets, exceededBand[..]);
      BatchDone(pktps, before, delta, was, middle, charges, bands);
      EachPacketOnce(pktps, before, delta, was, bands, charges);
      forall ms: nat | HasRoom(pktps, before, old(used), now, ms, maxDelta, was)
        ensures kept == packets.Length && packets[..] == was &&
                BucketsLess(before, ms, TotalVolume(pktps, was), bands)
      {
        WholeBatchKept(pktps, before, old(used), now, ms, maxDelta, was, bands, charges);
        assert packets[..kept] == packets[..];
      }
    }
  }

  /** `ms` milliseconds have gone by; none, if the clock went back. */
  predicate IsElapsed(used: nat, now: nat, ms: nat) {
    now / 1000 == used / 1000 + ms || (now / 1000 < used / 1000 && ms == 0)
  }

  /** After `ms` milliseconds the bucket has room for the whole batch. */
  predicate Affords(pktps: bool, b: Band, ms: nat, packets: seq<Packet>) {
    && TotalVolume(pktps, packets) <= Capacity(b) && TotalVolume(pktps, packets) <= b.bucket + ms * b.rate
    && NoWrap(b.bucket, ms, b.rate)
  }

  /** With `ms` milliseconds gone by, no more than the longest time, every band has room for the batch. */
  ghost predicate HasRoom(pktps: bool, bands: seq<Band>, used: nat, now: nat, ms: nat, maxDelta: nat,
                          packets: seq<Packet>) {
    && IsElapsed(used, now, ms) && ms <= maxDelta && Fits32(pktps, packets)
    && forall m :: 0 <= m < |bands| ==> Affords(pktps, bands[m], ms, packets)
  }

  /** Each bucket holds what `ms` milliseconds at its rate make of it, less the volume. */
  ghost predicate BucketsLess(before: seq<Band>, ms: nat, volume: nat, after: seq<Band>) {
    |before| == |after| && forall m :: 0 <= m < |before| ==>
      after[m].bucket + volume == IdealRefill(before[m], ms)
  }

  /** A batch for which every band has room is kept whole, and leaves its volume less in every bucket. */
  lemma WholeBatchKept(pktps: bool, before: seq<Band>, used: nat, now: nat, ms: nat, maxDelta: nat,
                       packets: seq<Packet>, after: seq<Band>, charges: seq<int>)
    requires BandsOk(before) && HasRoom(pktps, before, used, now, ms, maxDelta, packets)
    requires BatchMetered(pktps, before, Clamped(Elapsed(used, now), maxDelta), packets, after, charges)
    ensures Kept(packets, charges, |packets|) == packets
    ensures BucketsLess(before, ms, TotalVolume(pktps, packets), after)
  {
    assert Clamped(Elapsed(used, now), maxDelta) == ms;
    hide Refilled;
    hide IdealRefill;
    forall m | 0 <= m < |before|
      ensures after[m].bucket + TotalVolume(pktps, packets) == IdealRefill(before[m], ms)
      ensures forall i :: 0 <= i < |packets| ==> !ExceedsBand(pktps, before, ms, packets, m, i)
    {
      assert Affords(pktps, before[m], ms, packets) && BandOk(before[m]);
      assert BandMetered(pktps, before[m], ms, packets, after[m]);
      RefillsIdeal(before[m], ms);
      RoomForAll(pktps, before[m], ms, packets);
    }
    forall i | 0 <= i < |packets|
      ensures charges[i] < 0
    {
      assert IsCharge(pktps, before, ms, packets, i, |before|, charges[i]);
    }
    NoneCharged(packets, charges, |packets|);
    assert packets[..|packets|] == packets;
  }

  lemma RoomForAll(pktps: bool, b: Band, ms: nat, packets: seq<Packet>)
    requires Affords(pktps, b, ms, packets) && Fits32(pktps, packets)
    ensures IdealRefill(b, ms) >= Volume32(pktps, packets) == TotalVolume(pktps, packets)
  {
  }

  lemma {:induction false} NoneCharged(packets: seq<Packet>, charges: seq<int>, n: nat)
    requires n <= |packets| == |charges| && forall i :: 0 <= i < n ==> charges[i] < 0
    ensures Kept(packets, charges, n) == packets[..n]
  {
    if n > 0 {
      NoneCharged(packets, charges, n - 1);
      assert packets[..n - 1] + [packets[n - 1]] == packets[..n];
    }
  }

  /** What a batch does to the bands. */
  ghost predicate BatchMetered(pktps: bool, before: seq<Band>, delta: nat, packets: seq<Packet>, after: seq<Band>,
                               charges: seq<int>) {
    && BandsMetered(pktps, before, delta, packets, after)
    && AllCharged(pktps, before, delta, packets, |before|, charges)
    && Counted(before, after, packets, charges, |packets|)
  }

  // ---------------------------------------------------------------- steps of a batch

  /** A packet is noted for band `m` if it exceeds it and the rate is higher than that noted before. */
  predicate Noted(exceeds: bool, rate: nat, m: int, rate0: nat, band0: int, rate1: nat, band1: int) {
    if exceeds && rate > rate0 then rate1 == rate && band1 == m else rate1 == rate0 && band1 == band0
  }

  lemma BucketStart(bucket: nat, packets: seq<Packet>)
    ensures BucketAt(bucket, packets, 0) == bucket
  {
  }

  lemma BucketNext(bucket: nat, packets: seq<Packet>, i: nat)
    requires i < |packets|
    ensures var b, bits := BucketAt(bucket, packets, i), Bits32(packets[i]);
            BucketAt(bucket, packets, i + 1) == if b >= bits then b - bits else b
  {
  }

  lemma WrapSum(a: nat, b: nat)
    ensures (a % (U32_MAX + 1) + b) % (U32_MAX + 1) == (a + b) % (U32_MAX + 1)
  {
  }

  lemma WrapBits(a: nat)
    ensures a % (U32_MAX + 1) * 8 % (U32_MAX + 1) == a * 8 % (U32_MAX + 1)
  {
    var q, r := a / (U32_MAX + 1), a % (U32_MAX + 1);
    var q8, r8 := r * 8 / (U32_MAX + 1), r * 8 % (U32_MAX + 1);
    assert a * 8 == (8 * q + q8) * (U32_MAX + 1) + r8;
  }

  lemma DeltaFits(b: Band)
    requires b.rate > 0
    ensures BandDelta(b) <= U32_MAX
  {
  }

  /** The rates noted are those of the bands noted, 0 for none. */
  ghost predicate RatesOf(bands: seq<Band>, rates: seq<nat>, charges: seq<int>) {
    |rates| == |charges| && forall i :: 0 <= i < |rates| ==>
      charges[i] < |bands| && rates[i] == if charges[i] >= 0 then bands[charges[i]].rate else 0
  }

  lemma ChargedMore(pktps: bool, bands: seq<Band>, delta: nat, packets: seq<Packet>, m: nat, rates: seq<nat>,
                    charges: seq<int>, rates': seq<nat>, charges': seq<int>)
    requires m < |bands| && bands[m].rate > 0
    requires AllCharged(pktps, bands, delta, packets, m, charges) && RatesOf(bands, rates, charges)
    requires |rates'| == |charges'| == |packets|
    requires forall i :: 0 <= i < |packets| ==>
               Noted(Exceeds(pktps, Refilled(bands[m], delta), packets, i), bands[m].rate, m, rates[i], charges[i],
                     rates'[i], charges'[i])
    ensures AllCharged(pktps, bands, delta, packets, m + 1, charges') && RatesOf(bands, rates', charges')
  {
    hide Exceeds;
    hide Refilled;
    forall i | 0 <= i < |packets|
      ensures IsCharge(pktps, bands, delta, packets, i, m + 1, charges'[i])
    {
      assert IsCharge(pktps, bands, delta, packets, i, m, charges[i]);
    }
  }

  lemma DrainedLess(pktps: bool, bucket: nat, packets: seq<Packet>)
    ensures Drained(pktps, bucket, packets) <= bucket
  {
    AtMostBucket(bucket, packets, |packets|);
  }

  lemma {:induction false} AtMostBucket(bucket: nat, packets: seq<Packet>, n: nat)
    requires n <= |packets|
    ensures BucketAt(bucket, packets, n) <= bucket
  {
    if n > 0 {
      AtMostBucket(bucket, packets, n - 1);
    }
  }

  lemma DrainedOk(pktps: bool, before: seq<Band>, delta: nat, packets: seq<Packet>, after: seq<Band>)
    requires BandsOk(before) && |after| == |before|
    requires forall m :: 0 <= m < |before| ==>
               after[m] == before[m].(bucket := Drained(pktps, Refilled(before[m], delta), packets))
    ensures BandsOk(after) && BandsMetered(pktps, before, delta, packets, after)
  {
    hide Drained;
    hide Refilled;
    forall m | 0 <= m < |before|
      ensures BandOk(after[m])
    {
      DrainedLess(pktps, Refilled(before[m], delta), packets);
    }
  }

  lemma ChargesInRange(pktps: bool, bands: seq<Band>, delta: nat, packets: seq<Packet>, charges: seq<int>)
    requires AllCharged(pktps, bands, delta, packets, |bands|, charges)
    ensures forall i :: 0 <= i < |charges| ==> charges[i] < |bands|
  {
    hide ExceedsBand;
    forall i | 0 <= i < |charges|
      ensures charges[i] < |bands|
    {
      assert IsCharge(pktps, bands, delta, packets, i, |bands|, charges[i]);
    }
  }

  lemma CountsStart(before: seq<Band>, after: seq<Band>, packets: seq<Packet>, charges: seq<int>)
    requires CountersOk(before) && |packets| == |charges| && Counted(before, after, packets, charges, 0)
    ensures CountersOk(after) && forall m :: 0 <= m < |before| ==>
              after[m].packetCount == before[m].packetCount && after[m].byteCount == before[m].byteCount
  {
  }

  /** A dropped packet is counted by its band. */
  function CountDrop(bands: seq<Band>, m: int, size: nat): seq<Band> {
    if 0 <= m < |bands| then
      bands[m := bands[m].(packetCount := Wrap64(bands[m].packetCount + 1),
                           byteCount := Wrap64(bands[m].byteCount + size))]
    else bands
  }

  lemma CountDropKeeps(before: seq<Band>, bands: seq<Band>, m: int, size: nat)
    requires SameButCounts(before, bands)
    ensures SameButCounts(before, CountDrop(bands, m, size))
    ensures m < 0 ==> CountDrop(bands, m, size) == bands
  {
  }

  lemma KeptStart(packets: seq<Packet>, charges: seq<int>)
    requires |packets| == |charges|
    ensures Kept(packets, charges, 0) == []
  {
  }

  lemma KeptNext(packets: seq<Packet>, charges: seq<int>, j: nat)
    requires j < |packets| == |charges|
    ensures Kept(packets, charges, j + 1) ==
            if charges[j] >= 0 then Kept(packets, charges, j) else Kept(packets, charges, j) + [packets[j]]
  {
  }

  ghost predicate SameButCounts(a: seq<Band>, b: seq<Band>) {
    |a| == |b| && forall m :: 0 <= m < |a| ==>
      b[m] == a[m].(packetCount := b[m].packetCount, byteCount := b[m].byteCount)
  }

  lemma NoneCounted(bands: seq<Band>, packets: seq<Packet>, charges: seq<int>)
    requires CountersOk(bands) && |packets| == |charges|
    ensures Counted(bands, bands, packets, charges, 0)
  {
  }

  lemma CountedMore(before: seq<Band>, bands: seq<Band>, packets: seq<Packet>, charges: seq<int>, j: nat,
                    after: seq<Band>)
    requires |packets| == |charges| && j < |packets| && charges[j] < |before|
    requires Counted(before, bands, packets, charges, j)
    requires after == CountDrop(bands, charges[j], packets[j].size)
    ensures Counted(before, after, packets, charges, j + 1)
  {
    hide Wrap64;
    forall m | 0 <= m < |before|
      ensures after[m].packetCount == Wrap64(before[m].packetCount + Charged(charges, m, j + 1))
      ensures after[m].byteCount == Wrap64(before[m].byteCount + ChargedBytes(packets, charges, m, j + 1))
    {
      WrapTwice(before[m].packetCount + Charged(charges, m, j), 1);
      WrapTwice(before[m].byteCount + ChargedBytes(packets, charges, m, j), packets[j].size);
    }
  }

  lemma WrapTwice(a: nat, b: nat)
    ensures Wrap64(Wrap64(a) + b) == Wrap64(a + b)
  {
  }

  lemma BatchDone(pktps: bool, before: seq<Band>, delta: nat, packets: seq<Packet>, middle: seq<Band>,
                  charges: seq<int>, after: seq<Band>)
    requires |charges| == |packets| && BandsMetered(pktps, before, delta, packets, middle)
    requires BandsOk(middle) && CountersOk(before)
    requires forall m :: 0 <= m < |before| ==>
               middle[m].packetCount == before[m].packetCount && middle[m].byteCount == before[m].byteCount
    requires AllCharged(pktps, before, delta, packets, |before|, charges)
    requires Counted(middle, after, packets, charges, |packets|)
    requires SameButCounts(middle, after)
    ensures BatchMetered(pktps, before, delta, packets, after, charges) && BandsOk(after) && CountersOk(after)
    ensures |after| == |before|
  {
    hide Drained;
    hide Refilled;
    hide AllCharged;
    forall m | 0 <= m < |after|
      ensures BandOk(after[m])
    {
      assert BandOk(middle[m]);
    }
  }

  // ---------------------------------------------------------------- whole runs

  /** One call of the meter. */
  datatype Event = Event(now: nat, packets: seq<Packet>, charges: seq<int>, after: seq<Band>)

  ghost function BandsAfter(bands: seq<Band>, events: seq<Event>): seq<Band> {
    if events == [] then bands else events[|events| - 1].after
  }

  ghost function UsedAfter(used: nat, events: seq<Event>): nat {
    if events == [] then used else events[|events| - 1].now
  }

  /** The events are what the meter does on their batches, one after the other. */
  ghost predicate IsRun(pktps: bool, maxDelta: nat, bands: seq<Band>, used: nat, events: seq<Event>) {
    events == [] ||
    var rest, e := events[..|events| - 1], events[|events| - 1];
    && IsRun(pktps, maxDelta, bands, used, rest)
    && BatchMetered(pktps, BandsAfter(bands, rest), Clamped(Elapsed(UsedAfter(used, rest), e.now), maxDelta), e.packets,
                    e.after, e.charges)
  }

  ghost predicate AllFit(pktps: bool, events: seq<Event>) {
    forall k :: 0 <= k < |events| ==> Fits32(pktps, events[k].packets)
  }

  /** The packets that the meter lets through in a call; there is a charge for each packet. */
  function Accepted(e: Event): seq<Packet> {
    if |e.charges| == |e.packets| then Kept(e.packets, e.charges, |e.packets|) else []
  }

  /** The volume that the meter accepts in a run. */
  ghost function AcceptedVolume(pktps: bool, events: seq<Event>): nat {
    if events == [] then 0
    else AcceptedVolume(pktps, events[..|events| - 1]) + TotalVolume(pktps, Accepted(events[|events| - 1]))
  }

  /** The milliseconds by which time goes forward in a run. */
  ghost function ForwardTime(used: nat, events: seq<Event>): nat {
    if events == [] then 0
    else
      var rest := events[..|events| - 1];
      ForwardTime(used, rest) + Elapsed(UsedAfter(used, rest), events[|events| - 1].now)
  }

  /** In a run of any calls, whatever their times, the meter accepts for each of its bands no more than the starting
      bucket and the rate times the time gone forward, less what is left in the bucket. */
  lemma {:induction false} RateBound(pktps: bool, maxDelta: nat, bands: seq<Band>, used: nat, events: seq<Event>,
                                     m: nat)
    requires IsRun(pktps, maxDelta, bands, used, events) && AllFit(pktps, events) && m < |bands|
    ensures |BandsAfter(bands, events)| == |bands| && BandsAfter(bands, events)[m].rate == bands[m].rate
    ensures AcceptedVolume(pktps, events) + BandsAfter(bands, events)[m].bucket <=
            bands[m].bucket + ForwardTime(used, events) * bands[m].rate
  {
    hide *;
    if events == [] {
      EmptyRun(pktps, bands, used, m);
    } else {
      var rest, e := events[..|events| - 1], events[|events| - 1];
      RunStep(pktps, maxDelta, bands, used, events);
      RateBound(pktps, maxDelta, bands, used, rest, m);
      var elapsed := Elapsed(UsedAfter(used, rest), e.now);
      var before := BandsAfter(bands, rest)[m];
      BatchBound(pktps, BandsAfter(bands, rest), elapsed, maxDelta, e, m);
      BoundsAdd(AcceptedVolume(pktps, rest), before.bucket, bands[m].bucket, ForwardTime(used, rest),
                TotalVolume(pktps, Accepted(e)), e.after[m].bucket, elapsed, bands[m].rate);
    }
  }

  lemma EmptyRun(pktps: bool, bands: seq<Band>, used: nat, m: nat)
    requires m < |bands|
    ensures BandsAfter(bands, []) == bands && AcceptedVolume(pktps, []) == 0 && ForwardTime(used, []) == 0
    ensures 0 * bands[m].rate == 0
  {
  }

  lemma BoundsAdd(v: nat, b: nat, b0: nat, t: nat, v': nat, b': nat, t': nat, r: nat)
    requires v + b <= b0 + t * r && v' + b' <= b + t' * r
    ensures v + v' + b' <= b0 + (t + t') * r
  {
    assert (t + t') * r == t * r + t' * r;
  }

  lemma RunStep(pktps: bool, maxDelta: nat, bands: seq<Band>, used: nat, events: seq<Event>)
    requires IsRun(pktps, maxDelta, bands, used, events) && AllFit(pktps, events) && events != []
    ensures var rest, e := events[..|events| - 1], events[|events| - 1];
            && IsRun(pktps, maxDelta, bands, used, rest) && AllFit(pktps, rest) && Fits32(pktps, e.packets)
            && BatchMetered(pktps, BandsAfter(bands, rest), Clamped(Elapsed(UsedAfter(used, rest), e.now), maxDelta),
                            e.packets, e.after, e.charges)
            && |e.after| == |BandsAfter(bands, rest)| && |e.charges| == |e.packets|
            && AcceptedVolume(pktps, events) == AcceptedVolume(pktps, rest) + TotalVolume(pktps, Accepted(e))
            && ForwardTime(used, events) == ForwardTime(used, rest) + Elapsed(UsedAfter(used, rest), e.now)
            && BandsAfter(bands, events) == e.after
  {
    hide Elapsed;
    hide Clamped;
    hide TotalVolume;
    hide Accepted;
    hide Fits32;
    hide IsCharge;
    hide Counted;
    hide BandMetered;
  }

  lemma BatchBound(pktps: bool, before: seq<Band>, elapsed: nat, maxDelta: nat, e: Event, m: nat)
    requires BatchMetered(pktps, before, Clamped(elapsed, maxDelta), e.packets, e.after, e.charges)
    requires Fits32(pktps, e.packets) && m < |before|
    ensures e.after[m].rate == before[m].rate
    ensures TotalVolume(pktps, Accepted(e)) + e.after[m].bucket <=
            before[m].bucket + elapsed * before[m].rate
  {
    var delta := Clamped(elapsed, maxDelta);
    RefilledLess(before[m], elapsed, maxDelta);
    hide Refilled;
    BandConserves(pktps, Refilled(before[m], delta), e.packets);
    forall i | 0 <= i < |e.packets| && e.charges[i] < 0
      ensures !Exceeds(pktps, Refilled(before[m], delta), e.packets, i)
    {
      assert IsCharge(pktps, before, delta, e.packets, i, |before|, e.charges[i]);
      assert !ExceedsBand(pktps, before, delta, e.packets, m, i);
    }
    KeptPass(pktps, Refilled(before[m], delta), e.packets, e.charges, |e.packets|);
    assert BandMetered(pktps, before[m], delta, e.packets, e.after[m]);
  }

  lemma RefilledLess(b: Band, elapsed: nat, maxDelta: nat)
    ensures Refilled(b, Clamped(elapsed, maxDelta)) <= b.bucket + elapsed * b.rate
  {
    MulMono(Clamped(elapsed, maxDelta), elapsed, b.rate);
    ModLess(b.bucket + Clamped(elapsed, maxDelta) * b.rate);
  }

  lemma ModLess(x: nat)
    ensures x % (U64_MAX + 1) <= x
  {
  }

  lemma {:induction false} KeptPass(pktps: bool, bucket: nat, packets: seq<Packet>, charges: seq<int>, n: nat)
    requires |charges| == |packets| && n <= |packets|
    requires forall i :: 0 <= i < |packets| && charges[i] < 0 ==> !Exceeds(pktps, bucket, packets, i)
    ensures TotalVolume(pktps, Kept(packets, charges, n)) <= TotalVolume(pktps, Passed(pktps, bucket, packets, n))
  {
    hide Exceeds;
    if n > 0 {
      KeptPass(pktps, bucket, packets, charges, n - 1);
      SnocVolume(pktps, Kept(packets, charges, n - 1), packets[n - 1]);
      SnocVolume(pktps, Passed(pktps, bucket, packets, n - 1), packets[n - 1]);
    }
  }

  function TimeBefore(used: nat, events: seq<Event>, k: nat): nat
    requires k < |events|
  {
    if k == 0 then used else events[k - 1].now
  }

  ghost predicate NeverBack(used: nat, events: seq<Event>) {
    forall k :: 0 <= k < |events| ==> TimeBefore(used, events, k) <= events[k].now
  }

  lemma {:induction false} ForwardIsElapsed(used: nat, events: seq<Event>)
    requires NeverBack(used, events)
    ensures used <= UsedAfter(used, events)
    ensures ForwardTime(used, events) == UsedAfter(used, events) / 1000 - used / 1000
  {
    if events != [] {
      var rest := events[..|events| - 1];
      assert forall k :: 0 <= k < |rest| ==> TimeBefore(used, rest, k) == TimeBefore(used, events, k);
      ForwardIsElapsed(used, rest);
      assert TimeBefore(used, events, |rest|) == UsedAfter(used, rest);
      assert UsedAfter(used, rest) <= events[|events| - 1].now;
    }
  }

  /** No packet is near to 16 megabytes. */
  const MAX_SIZE: nat := 0xFF_FFFF

  predicate Receivable(packets: seq<Packet>) {
    |packets| <= NETDEV_MAX_BURST && forall i :: 0 <= i < |packets| ==> packets[i].size <= MAX_SIZE
  }

  ghost predicate AllReceivable(events: seq<Event>) {
    forall k :: 0 <= k < |events| ==> Receivable(events[k].packets)
  }

  /** The volume of a batch that can be received never wraps around. */
  lemma ReceivableFits(pktps: bool, packets: seq<Packet>)
    requires Receivable(packets)
    ensures Fits32(pktps, packets)
  {
    if pktps {
      PacketsCount(packets);
    } else {
      VolumeAtMost(packets);
    }
  }

  lemma {:induction false} VolumeAtMost(packets: seq<Packet>)
    requires forall i :: 0 <= i < |packets| ==> packets[i].size <= MAX_SIZE
    ensures TotalVolume(false, packets) <= |packets| * (MAX_SIZE * 8)
  {
    if packets != [] {
      VolumeAtMost(packets[..|packets| - 1]);
    }
  }

  /** Over any calls with time never going back, a meter that starts with `bands` accepts for each band at most the
      band's bucket and the rate times the milliseconds elapsed, as long as no batch volume wraps around. */
  lemma RateBoundElapsed(pktps: bool, maxDelta: nat, bands: seq<Band>, used: nat, events: seq<Event>, m: nat)
    requires IsRun(pktps, maxDelta, bands, used, events) && AllFit(pktps, events) && m < |bands|
    requires NeverBack(used, events)
    ensures AcceptedVolume(pktps, events) <=
            bands[m].bucket + (UsedAfter(used, events) / 1000 - used / 1000) * bands[m].rate
  {
    hide *;
    RateBound(pktps, maxDelta, bands, used, events, m);
    ForwardIsElapsed(used, events);
  }

  /** ... so for all batches that can be received. */
  lemma RateBoundReceivable(pktps: bool, maxDelta: nat, bands: seq<Band>, used: nat, events: seq<Event>, m: nat)
    requires IsRun(pktps, maxDelta, bands, used, events) && AllReceivable(events) && m < |bands|
    requires NeverBack(used, events)
    ensures AcceptedVolume(pktps, events) <=
            bands[m].bucket + (UsedAfter(used, events) / 1000 - used / 1000) * bands[m].rate
  {
    hide *;
    ReceivableAllFit(pktps, events);
    RateBoundElapsed(pktps, maxDelta, bands, used, events, m);
  }

  lemma ReceivableAllFit(pktps: bool, events: seq<Event>)
    requires AllReceivable(events)
    ensures AllFit(pktps, events)
  {
    hide Fits32;
    forall k | 0 <= k < |events|
      ensures Fits32(pktps, events[k].packets)
    {
      ReceivableFits(pktps, events[k].packets);
    }
  }

  function SumCharged(charges: seq<int>, bands: nat, n: nat): nat
    requires n <= |charges|
  {
    if bands == 0 then 0 else SumCharged(charges, bands - 1, n) + Charged(charges, bands - 1, n)
  }

  lemma {:induction false} KeptOrCharged(packets: seq<Packet>, charges: seq<int>, bands: nat, n: nat)
    requires |charges| == |packets| && n <= |packets| && forall i :: 0 <= i < n ==> -1 <= charges[i] < bands
    ensures |Kept(packets, charges, n)| + SumCharged(charges, bands, n) == n
  {
    if n == 0 {
      SumNone(charges, bands);
    } else {
      KeptOrCharged(packets, charges, bands, n - 1);
      SumOneMore(charges, bands, n);
    }
  }

  lemma {:induction false} SumNone(charges: seq<int>, bands: nat)
    ensures SumCharged(charges, bands, 0) == 0
  {
    if bands > 0 {
      SumNone(charges, bands - 1);
    }
  }

  lemma {:induction false} SumOneMore(charges: seq<int>, bands: nat, n: nat)
    requires 0 < n <= |charges| && -1 <= charges[n - 1]
    ensures SumCharged(charges, bands, n) ==
            SumCharged(charges, bands, n - 1) + if 0 <= charges[n - 1] < bands then 1 else 0
  {
    if bands > 0 {
      SumOneMore(charges, bands - 1, n);
    }
  }

  function Grown64(before: nat, after: nat): nat { (after - before) % (U64_MAX + 1) }

  /** By how much the drop counters of the first `n` bands have grown. */
  function CountersGrown(before: seq<Band>, after: seq<Band>, n: nat): nat
    requires n <= |before| == |after|
  {
    if n == 0 then 0
    else CountersGrown(before, after, n - 1) + Grown64(before[n - 1].packetCount, after[n - 1].packetCount)
  }

  /** Each packet of a batch is accepted or counted by exactly one band. */
  lemma EachPacketOnce(pktps: bool, before: seq<Band>, delta: nat, packets: seq<Packet>, after: seq<Band>,
                       charges: seq<int>)
    requires BatchMetered(pktps, before, delta, packets, after, charges)
    requires CountersOk(before) && |packets| <= NETDEV_MAX_BURST && |before| == |after| && |packets| == |charges|
    ensures |Kept(packets, charges, |packets|)| + CountersGrown(before, after, |before|) == |packets|
  {
    hide ExceedsBand;
    hide Kept;
    hide BandMetered;
    forall i | 0 <= i < |packets|
      ensures -1 <= charges[i] < |before|
    {
      assert IsCharge(pktps, before, delta, packets, i, |before|, charges[i]);
    }
    KeptOrCharged(packets, charges, |before|, |packets|);
    GrownByCharges(before, after, packets, charges, |before|);
  }

  lemma {:induction false} GrownByCharges(before: seq<Band>, after: seq<Band>, packets: seq<Packet>, charges: seq<int>,
                                          n: nat)
    requires |packets| == |charges| <= NETDEV_MAX_BURST && Counted(before, after, packets, charges, |packets|)
    requires CountersOk(before) && n <= |before|
    ensures CountersGrown(before, after, n) == SumCharged(charges, n, |packets|)
  {
    if n > 0 {
      GrownByCharges(before, after, packets, charges, n - 1);
      WrapBack(before[n - 1].packetCount, Charged(charges, n - 1, |packets|));
    }
  }

  lemma WrapBack(a: nat, b: nat)
    requires a <= U64_MAX && b <= U64_MAX
    ensures Grown64(a, Wrap64(a + b)) == b
  {
  }
}
