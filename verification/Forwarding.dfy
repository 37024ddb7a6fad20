/**
 * main/main.c, over whole runs: the watermark forwarder offers every pass's newest events exactly once
 * and in order, although it compares whole seconds.
 */
module Forwarding {
  import opened Prelude
  import opened Inventory
  import opened Discovery
  import opened Anomaly
  import opened Spine
  import Ledger
  import Presence

  predicate Ordered(es: seq<Event>) {
    forall i, j :: 0 <= i < j < |es| ==> es[i].ts <= es[j].ts
  }

  predicate NoneAfter(es: seq<Event>, watermark: nat) {
    forall e :: e in es ==> e.ts <= watermark
  }

  predicate AllAfter(es: seq<Event>, watermark: nat) {
    forall e :: e in es ==> e.ts > watermark
  }

  /** The final drain puts every entry of a pass into a later second than the one the pass started in. */
  lemma EntriesAfterStart(cfg: Cfg, s: State, p: Pass, earliest: nat)
    requires PassTimed(p, earliest)
    ensures AllAfter(Entries(cfg, s, p), Second(earliest))
    ensures NoneAfter(Entries(cfg, s, p), Second(p.end))
    ensures Ordered(Entries(cfg, s, p))
  {
    var alerts, es := Alerts(cfg, s, p), Entries(cfg, s, p);
    forall i | 0 <= i < |es|
      ensures earliest + MICROS_PER_SECOND <= ReadingAt(p, i) <= p.end && es[i].ts == Second(ReadingAt(p, i))
    {
    }
    forall i, j | 0 <= i < j < |es| ensures ReadingAt(p, i) <= ReadingAt(p, j) {
    }
  }

  lemma {:induction false} NewerOfOld(es: seq<Event>, watermark: nat)
    requires NoneAfter(es, watermark)
    ensures Newer(es, watermark) == []
  {
    if |es| > 0 {
      assert Last(es) in es && forall e :: e in Front(es) ==> e in es;
      NewerOfOld(Front(es), watermark);
    }
  }

  lemma {:induction false} NewerOfParts(a: seq<Event>, b: seq<Event>, watermark: nat)
    requires NoneAfter(a, watermark) && AllAfter(b, watermark)
    ensures Newer(a + b, watermark) == b
  {
    if |b| > 0 {
      assert Last(b) in b && forall e :: e in Front(b) ==> e in b;
      NewerOfParts(a, Front(b), watermark);
      assert Front(a + b) == a + Front(b);
    } else {
      assert a + b == a;
      NewerOfOld(a, watermark);
    }
  }

  /** Of the newest entries, exactly those of the latest pass are past the watermark. */
  lemma {:induction false} RecentNewer(log: seq<Event>, slice: seq<Event>, n: nat, watermark: nat)
    requires NoneAfter(log, watermark) && AllAfter(slice, watermark)
    ensures Newer(Newest(log + slice, n), watermark) == Newest(slice, n)
  {
    var recent := Newest(log + slice, n);
    if n < |slice| {
      assert recent == [] + Newest(slice, n);
      NewerOfParts([], Newest(slice, n), watermark);
    } else {
      var older := Newest(log, n - |slice|);
      assert recent == older + slice;
      NewerOfParts(older, slice, watermark);
    }
  }

  lemma {:induction false} LatestIsLast(es: seq<Event>, watermark: nat)
    requires Ordered(es)
    ensures LatestStamp(es, watermark) == if |es| == 0 then watermark else Max(watermark, Last(es).ts)
  {
    if |es| > 1 {
      LatestIsLast(Front(es), watermark);
      assert es[|es| - 2].ts <= es[|es| - 1].ts;
    } else if |es| == 1 {
      assert Front(es) == [];
    }
  }

  // ---- The watermark ----

  /** The newest logged timestamp, or zero. */
  function NewestStamp(log: seq<Event>): nat {
    if |log| == 0 then 0 else Last(log).ts
  }

  /** One pass moves the watermark to the newest stamp, whatever part of the pass was forwarded. */
  lemma {:induction false} WatermarkStep(log: seq<Event>, slice: seq<Event>, watermark: nat, from: nat, to: nat)
    requires Ordered(log) && watermark == NewestStamp(log) && NoneAfter(log, watermark) && watermark <= from <= to
    requires Ordered(slice) && AllAfter(slice, from) && NoneAfter(slice, to)
    ensures var watermark' := LatestStamp(Newest(log + slice, FORWARD_MAX), watermark);
            && Ordered(log + slice) && watermark' == NewestStamp(log + slice)
            && NoneAfter(log + slice, watermark') && watermark' <= to
  {
    var all := log + slice;
    var recent := Newest(all, FORWARD_MAX);
    AppendOrdered(log, slice, watermark, from);
    NewestOrdered(all, FORWARD_MAX);
    LatestIsLast(recent, watermark);
    if |slice| > 0 {
      assert Last(all) == Last(slice) && Last(slice) in slice;
    } else {
      assert all == log;
    }
  }

  lemma NewestOrdered(es: seq<Event>, n: nat)
    requires Ordered(es) && n > 0
    ensures Ordered(Newest(es, n)) && (Newest(es, n) == [] <==> es == [])
    ensures es != [] ==> Last(Newest(es, n)) == Last(es)
  {
  }

  /** After every pass the watermark equals the newest timestamp ever logged. */
  lemma {:induction false} Watermark(cfg: Cfg, ps: seq<Pass>)
    requires WellTimed(ps)
    ensures Ordered(Run(cfg, ps).log)
    ensures Run(cfg, ps).watermark == NewestStamp(Run(cfg, ps).log)
    ensures NoneAfter(Run(cfg, ps).log, Run(cfg, ps).watermark)
    ensures Run(cfg, ps).watermark <= Second(EndOf(ps))
  {
    if |ps| > 0 {
      var s, p, earliest := Run(cfg, Front(ps)), Last(ps), EndOf(Front(ps));
      Watermark(cfg, Front(ps));
      EntriesAfterStart(cfg, s, p, earliest);
      WatermarkStep(s.log, Entries(cfg, s, p), s.watermark, Second(earliest), Second(p.end));
    }
  }

  lemma AppendOrdered(log: seq<Event>, slice: seq<Event>, watermark: nat, bound: nat)
    requires Ordered(log) && Ordered(slice) && watermark <= bound
    requires NoneAfter(log, watermark) && AllAfter(slice, bound)
    ensures Ordered(log + slice)
    ensures |log + slice| > 0 ==> NoneAfter(log + slice, Last(log + slice).ts)
  {
    var all := log + slice;
    forall i, j | 0 <= i < j < |all| ensures all[i].ts <= all[j].ts {
      assert i < |log| ==> log[i] in log;
      assert j >= |log| ==> slice[j - |log|] in slice;
    }
    forall e | e in all ensures e.ts <= Last(all).ts {
      var k :| 0 <= k < |all| && all[k] == e;
    }
  }

  // ---- Exactly once, in order ----

  /** What the forwarder should offer: of every pass, the newest events that fit its buffer. */
  function Due(cfg: Cfg, ps: seq<Pass>): seq<Event> {
    if |ps| == 0 then [] else
      Due(cfg, Front(ps)) + Newest(Entries(cfg, Run(cfg, Front(ps)), Last(ps)), 64)
  }

  /** Every pass offers exactly its own newest events, oldest first, and nothing older. */
  lemma {:induction false} OffersDue(cfg: Cfg, ps: seq<Pass>)
    requires WellTimed(ps)
    ensures Run(cfg, ps).offered == Due(cfg, ps)
  {
    if |ps| > 0 {
      var s, p := Run(cfg, Front(ps)), Last(ps);
      OffersDue(cfg, Front(ps));
      Watermark(cfg, Front(ps));
      EntriesAfterStart(cfg, s, p, EndOf(Front(ps)));
      RecentNewer(s.log, Entries(cfg, s, p), FORWARD_MAX, s.watermark);
    }
  }

  /** The last `n` positions below `total`. */
  function LastPositions(total: nat, n: nat): (at: seq<nat>)
    requires n <= total
    ensures |at| == n
  {
    seq(n, i requires 0 <= i < n => total - n + i)
  }

  /** The positions in the full history of the offered events. */
  function Positions(cfg: Cfg, ps: seq<Pass>): seq<nat> {
    if |ps| == 0 then [] else
      var before, m := |Run(cfg, Front(ps)).log|, |Entries(cfg, Run(cfg, Front(ps)), Last(ps))|;
      Positions(cfg, Front(ps)) + LastPositions(before + m, Min(m, FORWARD_MAX))
  }

  /** `at` lists ascending positions of `log` at which `offered` is found. */
  predicate PicksOnce(offered: seq<Event>, log: seq<Event>, at: seq<nat>) {
    && |at| == |offered|
    && (forall i :: 0 <= i < |at| ==> at[i] < |log| && offered[i] == log[at[i]])
    && (forall i, j :: 0 <= i < j < |at| ==> at[i] < at[j])
  }

  lemma NewestIsSuffix(slice: seq<Event>, n: nat)
    ensures Newest(slice, n) == slice[|slice| - Min(|slice|, n)..]
  {
  }

  lemma PicksMore(offered: seq<Event>, log: seq<Event>, at: seq<nat>, slice: seq<Event>, n: nat)
    requires PicksOnce(offered, log, at) && n <= |slice|
    ensures PicksOnce(offered + slice[|slice| - n..], log + slice, at + LastPositions(|log| + |slice|, n))
  {
    var at', log' := at + LastPositions(|log| + |slice|, n), log + slice;
    forall i | |at| <= i < |at'| ensures at'[i] == |log| + |slice| - n + (i - |at|) {
    }
  }

  lemma {:induction false} LogOfPass(cfg: Cfg, ps: seq<Pass>)
    requires |ps| > 0
    ensures Run(cfg, ps).log == Run(cfg, Front(ps)).log + Entries(cfg, Run(cfg, Front(ps)), Last(ps))
  {
  }

  lemma {:induction false} NothingAtBoot(cfg: Cfg, ps: seq<Pass>)
    requires |ps| == 0
    ensures PicksOnce(Run(cfg, ps).offered, Run(cfg, ps).log, Positions(cfg, ps))
  {
  }

  /** What a pass adds to the offered events and to their positions. */
  lemma {:induction false} OffersOfPass(cfg: Cfg, ps: seq<Pass>)
    requires |ps| > 0 && WellTimed(ps)
    ensures var s, slice := Run(cfg, Front(ps)), Entries(cfg, Run(cfg, Front(ps)), Last(ps));
            var n := Min(|slice|, FORWARD_MAX);
            && Run(cfg, ps).log == s.log + slice
            && Run(cfg, ps).offered == s.offered + slice[|slice| - n..]
            && Positions(cfg, ps) == Positions(cfg, Front(ps)) + LastPositions(|s.log| + |slice|, n)
  {
    hide Run, Spine.RunPass, Entries;
    OffersDue(cfg, ps);
    OffersDue(cfg, Front(ps));
    LogOfPass(cfg, ps);
    NewestIsSuffix(Entries(cfg, Run(cfg, Front(ps)), Last(ps)), FORWARD_MAX);
  }

  /** No event is offered twice, and none out of order: positions in the history strictly ascend. */
  lemma {:induction false} ExactlyOnce(cfg: Cfg, ps: seq<Pass>)
    requires WellTimed(ps)
    ensures PicksOnce(Run(cfg, ps).offered, Run(cfg, ps).log, Positions(cfg, ps))
  {
    hide Run, Entries, PicksOnce, LastPositions, Positions;
    if |ps| == 0 {
      NothingAtBoot(cfg, ps);
    } else {
      ExactlyOnce(cfg, Front(ps));
      OffersOfPass(cfg, ps);
      var s := Run(cfg, Front(ps));
      var slice := Entries(cfg, s, Last(ps));
      PicksMore(s.offered, s.log, Positions(cfg, Front(ps)), slice, Min(|slice|, FORWARD_MAX));
    }
  }

  /** No pass of the run logs more than the forwarder's buffer holds. */
  predicate AllFit(cfg: Cfg, ps: seq<Pass>) {
    |ps| > 0 ==> AllFit(cfg, Front(ps)) && |Entries(cfg, Run(cfg, Front(ps)), Last(ps))| <= 64
  }

  lemma {:induction false} DueIsPartial(cfg: Cfg, ps: seq<Pass>)
    ensures |Due(cfg, ps)| <= |Run(cfg, ps).log|
    ensures AllFit(cfg, ps) ==> Due(cfg, ps) == Run(cfg, ps).log
    ensures !AllFit(cfg, ps) ==> |Due(cfg, ps)| < |Run(cfg, ps).log|
  {
    if |ps| > 0 {
      DueIsPartial(cfg, Front(ps));
    }
  }

  /** The whole history reaches the notifier exactly when no pass overfills the forwarder's buffer. */
  lemma {:induction false} NothingLostIff(cfg: Cfg, ps: seq<Pass>)
    requires WellTimed(ps)
    ensures Run(cfg, ps).offered == Run(cfg, ps).log <==> AllFit(cfg, ps)
  {
    OffersDue(cfg, ps);
    DueIsPartial(cfg, ps);
  }

  lemma TableGrows(cfg: Cfg, s: State, p: Pass)
    requires Distinct(s.table) && |s.table| <= MAX_DEVICES
    ensures |s.table| <= |Spine.RunPass(cfg, s, p).table| <= MAX_DEVICES
  {
    DiscoveredSlots(s.table, p);
  }

  /** Networks of at most 21 devices never overfill it: three events each and one for the network. */
  lemma {:induction false} SmallNetworksFit(cfg: Cfg, ps: seq<Pass>)
    requires WellTimed(ps) && |Run(cfg, ps).table| <= 21
    ensures AllFit(cfg, ps)
  {
    if |ps| > 0 {
      Presence.RunMatchesReference(cfg, Front(ps));
      TableGrows(cfg, Run(cfg, Front(ps)), Last(ps));
      SmallNetworksFit(cfg, Front(ps));
      Ledger.SliceLength(cfg, ps);
    }
  }
}
