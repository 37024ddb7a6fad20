/** main/discovery.c, the sweep: which addresses a pass probes, and how often it pauses to drain. */
module Sweep {
  import opened Prelude

  const MAX_HOSTS := 1022
  const DRAIN_EVERY := 16
  const DRAIN_MS := 30
  const FINAL_DRAIN_MS := 1000

  datatype Op = Send(ip: nat, seqno: nat) | Drain(ms: nat)

  /** Our address and the number of host bits of a contiguous netmask. */
  datatype Subnet = Subnet(self: nat, hostBits: nat)

  predicate ValidSubnet(s: Subnet) {
    s.self < TWO_TO_THE_32 && s.hostBits <= 32
  }

  function PowerOfTwo(n: nat): (p: nat)
    ensures p > 0
  {
    if n == 0 then 1 else 2 * PowerOfTwo(n - 1)
  }

  /** Bitwise and with a mask whose low `bits` bits are clear. */
  function ClearLow(x: nat, bits: nat): (r: nat)
    ensures r <= x < r + PowerOfTwo(bits)
  {
    if bits == 0 then x else 2 * ClearLow(x / 2, bits - 1)
  }

  function Network(s: Subnet): nat {
    ClearLow(s.self, s.hostBits)
  }

  /** The inverted mask, clamped: hosts 1 up to but not including this are probed. */
  function HostCount(s: Subnet): nat {
    Min(PowerOfTwo(s.hostBits) - 1, MAX_HOSTS)
  }

  function SendCount(ops: seq<Op>): nat {
    if |ops| == 0 then 0 else SendCount(Front(ops)) + if Last(ops).Send? then 1 else 0
  }

  /** The operations for one host number. */
  function Probe(s: Subnet, seqno: nat, h: nat): seq<Op> {
    var ip := (Network(s) + h) % TWO_TO_THE_32;
    if ip == s.self then []
    else if h % DRAIN_EVERY == 0 then [Send(ip, seqno), Drain(DRAIN_MS)]
    else [Send(ip, seqno)]
  }

  function Step(s: Subnet, ops: seq<Op>, h: nat): seq<Op> {
    ops + Probe(s, SendCount(ops) % 65536, h)
  }

  /** A step sends at most once, and the sequence number counts the sends. */
  lemma {:induction false} StepSends(s: Subnet, ops: seq<Op>, h: nat, send: Op)
    requires send == Send((Network(s) + h) % TWO_TO_THE_32, SendCount(ops) % 65536)
    ensures Step(s, ops, h) == if send.ip == s.self then ops
                               else if h % DRAIN_EVERY == 0 then ops + [send] + [Drain(DRAIN_MS)]
                               else ops + [send]
    ensures SendCount(Step(s, ops, h)) == SendCount(ops) + if send.ip == s.self then 0 else 1
  {
    TargetsPush(ops, send);
    TargetsPush(ops + [send], Drain(DRAIN_MS));
    assert Step(s, ops, h) == if send.ip == s.self then ops
                              else if h % DRAIN_EVERY == 0 then ops + [send] + [Drain(DRAIN_MS)]
                              else ops + [send];
  }

  /** The operations of the hosts below `h`. */
  function SweepTo(s: Subnet, h: nat): seq<Op> {
    if h <= 1 then [] else Step(s, SweepTo(s, h - 1), h - 1)
  }

  function SweepOps(s: Subnet): seq<Op> {
    SweepTo(s, HostCount(s)) + [Drain(FINAL_DRAIN_MS)]
  }

  function Targets(ops: seq<Op>): seq<nat> {
    if |ops| == 0 then [] else
      Targets(Front(ops)) + if Last(ops).Send? then [Last(ops).ip] else []
  }

  lemma {:induction false} TargetsPush(ops: seq<Op>, op: Op)
    ensures Targets(ops + [op]) == Targets(ops) + if op.Send? then [op.ip] else []
    ensures SendCount(ops + [op]) == SendCount(ops) + if op.Send? then 1 else 0
  {
    assert Front(ops + [op]) == ops;
  }

  lemma {:induction false} TargetsStep(s: Subnet, ops: seq<Op>, h: nat)
    ensures var ip := (Network(s) + h) % TWO_TO_THE_32;
            Targets(Step(s, ops, h)) == if ip == s.self then Targets(ops) else Targets(ops) + [ip]
  {
    var send := Send((Network(s) + h) % TWO_TO_THE_32, SendCount(ops) % 65536);
    StepSends(s, ops, h, send);
    TargetsPush(ops, send);
    TargetsPush(ops + [send], Drain(DRAIN_MS));
  }

  lemma {:induction false} PowerOfTwoSplits(a: nat, b: nat)
    ensures PowerOfTwo(a + b) == PowerOfTwo(a) * PowerOfTwo(b)
  {
    if a > 0 {
      PowerOfTwoSplits(a - 1, b);
    }
  }

  lemma {:induction false} AlignedFits(x: nat, bits: nat, width: nat)
    requires bits <= width && x < PowerOfTwo(width)
    ensures ClearLow(x, bits) + PowerOfTwo(bits) <= PowerOfTwo(width)
  {
    if bits > 0 {
      AlignedFits(x / 2, bits - 1, width - 1);
    }
  }

  /** The subnet lies inside the address space, so no probe wraps around. */
  lemma SubnetFits(s: Subnet)
    requires ValidSubnet(s)
    ensures Network(s) + PowerOfTwo(s.hostBits) <= TWO_TO_THE_32
  {
    PowerOfTwo32();
    hide PowerOfTwo;
    AlignedFits(s.self, s.hostBits, 32);
  }

  lemma PowerOfTwo32()
    ensures PowerOfTwo(32) == TWO_TO_THE_32
  {
    assert PowerOfTwo(8) == 256;
    PowerOfTwoSplits(8, 8);
    PowerOfTwoSplits(16, 16);
  }

  /** The addresses probed by the hosts below `h`: each once, in ascending order, ours left out. */
  lemma {:induction false} SweepToExact(s: Subnet, h: nat)
    requires ValidSubnet(s) && h <= HostCount(s)
    ensures forall ip :: ip in Targets(SweepTo(s, h)) <==> Network(s) < ip < Network(s) + h && ip != s.self
    ensures forall i, j :: 0 <= i < j < |Targets(SweepTo(s, h))| ==>
                             Targets(SweepTo(s, h))[i] < Targets(SweepTo(s, h))[j]
  {
    hide PowerOfTwo, ClearLow, Step;
    if h > 1 {
      SweepToExact(s, h - 1);
      SubnetFits(s);
      TargetsStep(s, SweepTo(s, h - 1), h - 1);
      var before := Targets(SweepTo(s, h - 1));
      assert forall i :: 0 <= i < |before| ==> before[i] in before;
      assert (Network(s) + (h - 1)) % TWO_TO_THE_32 == Network(s) + (h - 1);
    }
  }

  // ---- The probed addresses, by quotient and remainder ----

  lemma {:induction false} ClearLowAligned(x: nat, bits: nat) returns (q: nat)
    ensures ClearLow(x, bits) == q * PowerOfTwo(bits)
  {
    if bits == 0 {
      q := x;
    } else {
      q := ClearLowAligned(x / 2, bits - 1);
      assert 2 * (q * PowerOfTwo(bits - 1)) == q * (2 * PowerOfTwo(bits - 1));
    }
  }

  lemma MulGrows(a: nat, b: nat, p: nat)
    requires a < b
    ensures a * p + p <= b * p
  {
    assert b * p == a * p + (b - a) * p;
    assert (b - a) * p == p + (b - a - 1) * p;
  }

  lemma QuotientUnique(q: nat, r: nat, q': nat, r': nat, p: nat)
    requires q * p + r == q' * p + r' && r < p && r' < p
    ensures q == q' && r == r'
  {
    if q < q' {
      MulGrows(q, q', p);
    } else if q' < q {
      MulGrows(q', q, p);
    }
  }

  lemma DivUnique(x: nat, q: nat, r: nat, p: nat)
    requires x == q * p + r && r < p
    ensures x / p == q && x % p == r
  {
    QuotientUnique(q, r, x / p, x % p, p);
  }

  /** How many addresses the subnet has. */
  function Size(s: Subnet): (p: nat)
    ensures p > 0
  {
    PowerOfTwo(s.hostBits)
  }

  /** The network address is the aligned one at or below ours. */
  lemma NetworkAligned(s: Subnet)
    ensures Network(s) == s.self / Size(s) * Size(s) && s.self - Network(s) == s.self % Size(s)
  {
    var q := ClearLowAligned(s.self, s.hostBits);
    DivUnique(s.self, q, s.self - Network(s), Size(s));
  }

  /** A host address of our subnet: neither the network nor the broadcast address. */
  predicate UsableHost(s: Subnet, ip: nat) {
    ip / Size(s) == s.self / Size(s) && 0 < ip % Size(s) < Size(s) - 1
  }

  lemma UsableIsInside(s: Subnet, ip: nat)
    ensures UsableHost(s, ip) <==> Network(s) < ip < Network(s) + Size(s) - 1
    ensures Network(s) <= ip < Network(s) + Size(s) ==> ip % Size(s) == ip - Network(s)
  {
    NetworkAligned(s);
    hide Network, Size;
    if Network(s) <= ip < Network(s) + Size(s) {
      DivUnique(ip, s.self / Size(s), ip - Network(s), Size(s));
    }
    if UsableHost(s, ip) {
      assert ip == ip / Size(s) * Size(s) + ip % Size(s);
    }
  }

  /** Every probe is a usable host other than ourselves; none is probed twice; the clamp is the only cut. */
  lemma SweepExact(s: Subnet)
    requires ValidSubnet(s)
    ensures forall ip: nat :: ip in Targets(SweepOps(s)) <==>
                         UsableHost(s, ip) && ip != s.self && ip % Size(s) < MAX_HOSTS
    ensures forall i, j :: 0 <= i < j < |Targets(SweepOps(s))| ==> Targets(SweepOps(s))[i] < Targets(SweepOps(s))[j]
  {
    SweepToExact(s, HostCount(s));
    TargetsPush(SweepTo(s, HostCount(s)), Drain(FINAL_DRAIN_MS));
    forall ip: nat
      ensures ip in Targets(SweepOps(s)) <==> UsableHost(s, ip) && ip != s.self && ip % Size(s) < MAX_HOSTS
    {
      UsableIsInside(s, ip);
    }
  }

  lemma {:induction false} PowerOfTwoGrows(n: nat)
    ensures n <= 9 ==> PowerOfTwo(n) <= 512
    ensures n == 10 ==> PowerOfTwo(n) == 1024
    ensures n > 10 ==> PowerOfTwo(n) >= 2048
  {
    if n > 0 {
      PowerOfTwoGrows(n - 1);
      if n <= 9 {
        PowerOfTwoSplits(n, 9 - n);
        assert PowerOfTwo(9) == 512 by { PowerOfTwoSplits(4, 5); }
        assert PowerOfTwo(n) <= PowerOfTwo(n) * PowerOfTwo(9 - n);
      } else if n == 10 {
        PowerOfTwoSplits(5, 5);
        assert PowerOfTwo(5) == 32;
      }
    }
  }

  /**
   * The sweep reaches every usable host but ourselves exactly for prefixes /23 and longer; at /22 one
   * host is out of reach, and it is missed unless it is us.
   */
  lemma CoverageIff(s: Subnet)
    requires ValidSubnet(s)
    ensures (forall ip :: UsableHost(s, ip) && ip != s.self ==> ip in Targets(SweepOps(s)))
            <==> s.hostBits <= 9 || (s.hostBits == 10 && s.self % Size(s) == MAX_HOSTS)
  {
    SweepExact(s);
    PowerOfTwoGrows(s.hostBits);
    var missed := Network(s) + MAX_HOSTS;
    if s.hostBits >= 10 {
      UsableIsInside(s, missed);
      UsableIsInside(s, s.self);
      assert UsableHost(s, missed) && missed !in Targets(SweepOps(s));
      if s.hostBits > 10 {
        UsableIsInside(s, missed + 1);
        assert UsableHost(s, missed + 1) && missed + 1 !in Targets(SweepOps(s));
      }
    }
  }

  // ---- Pacing ----

  predicate AllSends(ops: seq<Op>, i: nat, j: nat)
    requires i <= j <= |ops|
  {
    forall k :: i <= k < j ==> ops[k].Send?
  }

  /** No stretch of sends between drains is longer than `n`. */
  predicate Paced(ops: seq<Op>, n: nat) {
    forall i, j :: 0 <= i <= j <= |ops| && AllSends(ops, i, j) ==> j - i <= n
  }

  /** Sends since the last drain. */
  function Pending(ops: seq<Op>): (n: nat)
    ensures n <= |ops| && AllSends(ops, |ops| - n, |ops|)
    ensures n < |ops| ==> ops[|ops| - n - 1].Drain?
  {
    if |ops| == 0 || Last(ops).Drain? then 0 else
      var n := Pending(Front(ops));
      assert forall k :: 0 <= k < |ops| - 1 ==> Front(ops)[k] == ops[k];
      n + 1
  }

  lemma {:induction false} PacedPush(ops: seq<Op>, op: Op, n: nat)
    requires Paced(ops, n)
    requires op.Send? ==> Pending(ops) < n
    ensures Paced(ops + [op], n)
    ensures Pending(ops + [op]) == if op.Send? then Pending(ops) + 1 else 0
  {
    var ops' := ops + [op];
    assert Front(ops') == ops;
    forall i, j | 0 <= i <= j <= |ops'| && AllSends(ops', i, j) ensures j - i <= n {
      if j <= |ops| {
        assert forall k :: i <= k < j ==> ops[k] == ops'[k];
        assert AllSends(ops, i, j);
      } else if i < j {
        assert ops'[|ops|].Send?;
        assert Pending(ops) < |ops| ==> ops'[|ops| - Pending(ops) - 1] == ops[|ops| - Pending(ops) - 1];
      }
    }
  }

  /** The last drain point at or before host `h` was our own address, so it did not drain. */
  predicate SkippedDrain(s: Subnet, h: nat) {
    h >= DRAIN_EVERY && Network(s) + (h - h % DRAIN_EVERY) == s.self
  }

  /** Our own host number is a drain point. */
  predicate SelfAtDrainPoint(s: Subnet) {
    var h := s.self % Size(s);
    h > 0 && h % 16 == 0
  }

  /** The longest stretch of requests without a drain. */
  function PacingBound(s: Subnet): nat {
    if SelfAtDrainPoint(s) then 31 else 16
  }

  lemma DrainPointBefore(h: nat)
    requires h >= 1
    ensures (h - 1) % DRAIN_EVERY == if h % DRAIN_EVERY == 0 then DRAIN_EVERY - 1 else h % DRAIN_EVERY - 1
  {
  }

  lemma SkippedIsSelf(s: Subnet, h: nat)
    ensures SkippedDrain(s, h) ==> SelfAtDrainPoint(s)
  {
    hide Network, Size;
    NetworkAligned(s);
    MultipleOfSixteen(h);
  }

  lemma MultipleOfSixteen(h: nat)
    ensures (h - h % DRAIN_EVERY) % 16 == 0 && (h >= DRAIN_EVERY ==> h - h % DRAIN_EVERY > 0)
  {
  }

  lemma {:induction false} SweepToPaced(s: Subnet, h: nat)
    requires ValidSubnet(s) && h < HostCount(s)
    ensures Paced(SweepTo(s, h + 1), PacingBound(s))
    ensures Pending(SweepTo(s, h + 1)) <= h % DRAIN_EVERY + if SkippedDrain(s, h) then 15 else 0
  {
    hide Step, Network, HostCount;
    if h >= 1 {
      hide Paced, Pending;
      SweepToPaced(s, h - 1);
      HostFits(s, h);
      DrainPointBefore(h);
      StepPaced(s, SweepTo(s, h), h);
    }
  }

  lemma HostFits(s: Subnet, h: nat)
    requires ValidSubnet(s) && h < HostCount(s)
    ensures Network(s) + h < TWO_TO_THE_32
  {
    SubnetFits(s);
  }

  lemma {:induction false} StepPaced(s: Subnet, ops: seq<Op>, h: nat)
    requires h >= 1 && Network(s) + h < TWO_TO_THE_32
    requires Paced(ops, PacingBound(s))
    requires Pending(ops) <= (h - 1) % DRAIN_EVERY + if SkippedDrain(s, h - 1) then 15 else 0
    ensures Paced(Step(s, ops, h), PacingBound(s))
    ensures Pending(Step(s, ops, h)) <= h % DRAIN_EVERY + if SkippedDrain(s, h) then 15 else 0
  {
    hide Network, Size, Step, SelfAtDrainPoint, Paced, Pending, SendCount;
    DrainPointBefore(h);
    SkippedIsSelf(s, h - 1);
    var send := Send(Network(s) + h, SendCount(ops) % 65536);
    StepSends(s, ops, h, send);
    if send.ip != s.self {
      PacedPush(ops, send, PacingBound(s));
      if h % DRAIN_EVERY == 0 {
        PacedPush(ops + [send], Drain(DRAIN_MS), PacingBound(s));
      }
    }
  }

  /** At most 16 requests go out between two drains, or 31 when our own address swallows a drain point. */
  lemma SweepPaced(s: Subnet)
    requires ValidSubnet(s)
    ensures Paced(SweepOps(s), PacingBound(s))
  {
    if HostCount(s) >= 1 {
      SweepToPaced(s, HostCount(s) - 1);
    }
    PacedPush(SweepTo(s, HostCount(s)), Drain(FINAL_DRAIN_MS), PacingBound(s));
  }

  /** A request is followed by a drain exactly when its host number is a multiple of 16; a drain takes 30 ms. */
  predicate DrainAt(s: Subnet, ops: seq<Op>, i: nat)
    requires i < |ops|
  {
    match ops[i]
    case Send(ip, _) => (i + 1 < |ops| && ops[i + 1].Drain?) <==> ip % Size(s) % 16 == 0
    case Drain(ms) => ms == 30 && i > 0 && ops[i - 1].Send?
  }

  predicate DrainsAfterSixteenth(s: Subnet, ops: seq<Op>) {
    forall i :: 0 <= i < |ops| ==> DrainAt(s, ops, i)
  }

  lemma DrainsPush(s: Subnet, ops: seq<Op>, send: Op)
    requires DrainsAfterSixteenth(s, ops) && send.Send?
    ensures send.ip % Size(s) % 16 != 0 ==> DrainsAfterSixteenth(s, ops + [send])
    ensures send.ip % Size(s) % 16 == 0 ==> DrainsAfterSixteenth(s, ops + [send] + [Drain(DRAIN_MS)])
  {
    hide Size;
    var n := |ops|;
    var drained := ops + [send] + [Drain(DRAIN_MS)];
    forall i | 0 <= i < n ensures DrainAt(s, ops + [send], i) && DrainAt(s, drained, i) {
      assert DrainAt(s, ops, i);
    }
  }

  lemma {:induction false} SweepToDrains(s: Subnet, h: nat)
    requires ValidSubnet(s) && h <= HostCount(s)
    ensures DrainsAfterSixteenth(s, SweepTo(s, h))
  {
    hide Step, Network, Size, HostCount, DrainsAfterSixteenth;
    if h > 1 {
      var ops := SweepTo(s, h - 1);
      var send := Send(Network(s) + (h - 1), SendCount(ops) % 65536);
      SweepToDrains(s, h - 1);
      HostFits(s, h - 1);
      InsideSubnet(s, h - 1);
      StepSends(s, ops, h - 1, send);
      DrainsPush(s, ops, send);
    } else {
      NoDrains(s);
    }
  }

  lemma NoDrains(s: Subnet)
    ensures DrainsAfterSixteenth(s, [])
  {
  }

  lemma InsideSubnet(s: Subnet, h: nat)
    requires h < HostCount(s)
    ensures (Network(s) + h) % Size(s) == h
  {
    UsableIsInside(s, Network(s) + h);
  }

  /** A sweep drains for 30 ms after exactly every sixteenth host it sends to, and for a second at the end. */
  lemma SweepDrains(s: Subnet)
    requires ValidSubnet(s)
    ensures Last(SweepOps(s)) == Drain(1000) && DrainsAfterSixteenth(s, Front(SweepOps(s)))
  {
    SweepToDrains(s, HostCount(s));
    assert Front(SweepOps(s)) == SweepTo(s, HostCount(s));
  }

  // ---- Sequence numbers ----

  function SequenceNumbers(ops: seq<Op>): (ns: seq<nat>)
    ensures |ns| == SendCount(ops)
  {
    if |ops| == 0 then [] else
      SequenceNumbers(Front(ops)) + if Last(ops).Send? then [Last(ops).seqno] else []
  }

  lemma {:induction false} NumbersPush(ops: seq<Op>, op: Op)
    ensures SequenceNumbers(ops + [op]) == SequenceNumbers(ops) + if op.Send? then [op.seqno] else []
  {
    assert Front(ops + [op]) == ops;
  }

  lemma {:induction false} NumbersStep(s: Subnet, ops: seq<Op>, h: nat)
    ensures var ns := SequenceNumbers(ops);
            SequenceNumbers(Step(s, ops, h)) == ns || SequenceNumbers(Step(s, ops, h)) == ns + [|ns| % 65536]
  {
    hide Network, Step;
    var send := Send((Network(s) + h) % TWO_TO_THE_32, SendCount(ops) % 65536);
    StepSends(s, ops, h, send);
    NumbersPush(ops, send);
    NumbersPush(ops + [send], Drain(DRAIN_MS));
  }

  /** The requests of a sweep are numbered 0, 1, 2, ...; the 16-bit number never wraps. */
  lemma {:induction false} SweepNumbered(s: Subnet, h: nat)
    requires h <= HostCount(s)
    ensures |SequenceNumbers(SweepTo(s, h))| <= h
    ensures forall i :: 0 <= i < |SequenceNumbers(SweepTo(s, h))| ==> SequenceNumbers(SweepTo(s, h))[i] == i
  {
    hide Step;
    if h > 1 {
      SweepNumbered(s, h - 1);
      NumbersStep(s, SweepTo(s, h - 1), h - 1);
    }
  }
}
