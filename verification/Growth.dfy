/** main/anomaly.c: how the growth baseline settles, and when growth alerts stop. */
module Growth {
  import opened Prelude
  import opened Inventory
  import opened Discovery
  import opened Anomaly
  import opened Spine
  import opened Presence
  import Format
  import Ledger

  function Gap(baseline: nat, current: nat): nat {
    if baseline <= current then current - baseline else baseline - current
  }

  /** The baseline after `k` diffs that all count `n` devices online. */
  function Settling(baseline: nat, n: nat, k: nat): nat {
    if k == 0 then baseline else TrackBaseline(Settling(baseline, n, k - 1), n)
  }

  /** One step closes a quarter of the gap, rounded down, and never overshoots. */
  lemma GapStep(baseline: nat, n: nat)
    ensures Gap(TrackBaseline(baseline, n), n) == Gap(baseline, n) - Gap(baseline, n) / 4
    ensures baseline <= n ==> TrackBaseline(baseline, n) <= n
    ensures baseline >= n ==> TrackBaseline(baseline, n) >= n
  {
  }

  lemma {:induction false} NeverOvershoots(baseline: nat, n: nat, k: nat)
    ensures baseline <= n ==> baseline <= Settling(baseline, n, k) <= n
    ensures baseline >= n ==> n <= Settling(baseline, n, k) <= baseline
    ensures Gap(baseline, n) >= 3 ==> Gap(Settling(baseline, n, k), n) >= 3
    ensures Gap(baseline, n) <= 3 ==> Settling(baseline, n, k) == baseline
  {
    if k > 0 {
      NeverOvershoots(baseline, n, k - 1);
      GapStep(Settling(baseline, n, k - 1), n);
    }
  }

  lemma GapShrinks(baseline: nat, n: nat)
    requires Gap(baseline, n) >= 3
    ensures Gap(TrackBaseline(baseline, n), n) >= 3
    ensures 4 * (Gap(TrackBaseline(baseline, n), n) - 3) <= 3 * (Gap(baseline, n) - 3)
  {
    GapStep(baseline, n);
  }

  /** Geometric contraction of the part of the gap above 3. */
  lemma {:induction false} Contraction(baseline: nat, n: nat, k: nat)
    requires Gap(baseline, n) >= 3
    ensures Gap(Settling(baseline, n, k), n) >= 3
    ensures Pow(4, k) * (Gap(Settling(baseline, n, k), n) - 3) <= Pow(3, k) * (Gap(baseline, n) - 3)
  {
    hide Gap, TrackBaseline;
    if k > 0 {
      var b := Settling(baseline, n, k - 1);
      Contraction(baseline, n, k - 1);
      GapShrinks(b, n);
      ContractionStep(Pow(4, k - 1), Pow(3, k - 1), Gap(b, n) - 3, Gap(TrackBaseline(b, n), n) - 3,
                      Gap(baseline, n) - 3);
    }
  }

  lemma ContractionStep(p: nat, q: nat, d: nat, d': nat, d0: nat)
    requires 4 * d' <= 3 * d && p * d <= q * d0
    ensures (4 * p) * d' <= (3 * q) * d0
  {
    MulMonotone(p, 4 * d', 3 * d);
    Regroup(4, p, d');
    Regroup(p, 3, d);
    Regroup(3, q, d0);
  }

  lemma Regroup(a: nat, b: nat, c: nat)
    ensures (a * b) * c == a * (b * c) == b * (a * c)
  {
  }

  lemma MulMonotone(p: nat, a: nat, b: nat)
    requires a <= b
    ensures p * a <= p * b
  {
  }

  lemma PowersAtTwenty()
    ensures Pow(3, 20) == 3486784401 && Pow(4, 20) == 1099511627776
  {
    assert Pow(3, 5) == 243 && Pow(4, 5) == 1024;
    assert Pow(3, 10) == 59049 && Pow(4, 10) == 1048576;
    assert Pow(3, 15) == 14348907 && Pow(4, 15) == 1073741824;
  }

  lemma {:induction false} SettlesFurther(baseline: nat, n: nat, j: nat, k: nat)
    requires j <= k && Gap(Settling(baseline, n, j), n) <= 3
    ensures Settling(baseline, n, k) == Settling(baseline, n, j)
  {
    if j < k {
      SettlesFurther(baseline, n, j, k - 1);
      GapStep(Settling(baseline, n, k - 1), n);
    }
  }

  /** With at most MAX_DEVICES devices, twenty steady passes bring the baseline within 3 for good. */
  lemma {:induction false} SettledAfterTwenty(baseline: nat, n: nat, k: nat)
    requires baseline <= MAX_DEVICES && n <= MAX_DEVICES && k >= 20
    ensures Gap(Settling(baseline, n, k), n) <= 3
  {
    if Gap(baseline, n) >= 3 {
      Contraction(baseline, n, 20);
      NeverOvershoots(baseline, n, 20);
      PowersAtTwenty();
      assert 1099511627776 * (Gap(Settling(baseline, n, 20), n) - 3) <= 3486784401 * (Gap(baseline, n) - 3);
      SettlesFurther(baseline, n, 20, k);
    } else {
      NeverOvershoots(baseline, n, k);
    }
  }

  // ---- Which steady networks stop alerting ----

  /** Where the baseline comes to rest: where it is, or 3 short of a count further away. */
  function Rest(baseline: nat, n: nat): nat {
    if baseline + 3 < n then n - 3 else if baseline > n + 3 then n + 3 else baseline
  }

  lemma {:induction false} ComesToRest(baseline: nat, n: nat, k: nat)
    requires baseline <= MAX_DEVICES && n <= MAX_DEVICES && k >= 20
    ensures Settling(baseline, n, k) == Rest(baseline, n)
  {
    SettledAfterTwenty(baseline, n, k);
    NeverOvershoots(baseline, n, k);
  }

  /**
   * Growth alerts under a steady count n stop: the resting baseline r is zero, is not below n, or has
   * 100·n < r·(100 + pct).
   */
  predicate FallsSilent(baseline: nat, n: nat, pct: Byte) {
    var r := Rest(baseline, n);
    r == 0 || r >= n || 100 * n < r * (100 + pct as int)
  }

  /** From the `from`-th steady pass on there is no growth alert. */
  ghost predicate QuietFrom(baseline: nat, n: nat, pct: Byte, from: nat) {
    forall k :: k >= from ==> !IsGrowth(Settling(baseline, n, k), n, pct)
  }

  /** From the twentieth steady pass on, every pass alerts or none does. */
  lemma {:induction false} SettledAlertsIff(baseline: nat, n: nat, pct: Byte, k: nat)
    requires baseline <= MAX_DEVICES && n <= MAX_DEVICES && k >= 20
    ensures IsGrowth(Settling(baseline, n, k), n, pct) <==> !FallsSilent(baseline, n, pct)
  {
    ComesToRest(baseline, n, k);
  }

  /** Growth alerts under a steady count end, or every pass from the twentieth on alerts, for ever. */
  lemma {:induction false} AlertsEndIff(baseline: nat, n: nat, pct: Byte)
    requires baseline <= MAX_DEVICES && n <= MAX_DEVICES
    ensures (exists from: nat :: QuietFrom(baseline, n, pct, from)) <==> FallsSilent(baseline, n, pct)
    ensures !FallsSilent(baseline, n, pct) ==> forall k :: k >= 20 ==> IsGrowth(Settling(baseline, n, k), n, pct)
  {
    forall k | k >= 20 ensures IsGrowth(Settling(baseline, n, k), n, pct) <==> !FallsSilent(baseline, n, pct) {
      SettledAlertsIff(baseline, n, pct, k);
    }
    if FallsSilent(baseline, n, pct) {
      assert QuietFrom(baseline, n, pct, 20);
    } else {
      forall from: nat ensures !QuietFrom(baseline, n, pct, from) {
        assert IsGrowth(Settling(baseline, n, from + 20), n, pct);
      }
    }
  }

  // ---- Growth events over runs ----

  /** The run without its last `k` passes. */
  function Before(ps: seq<Pass>, k: nat): seq<Pass>
    requires k <= |ps|
  {
    if k == 0 then ps else Before(Front(ps), k - 1)
  }

  /** Each of the last `k` passes of the run counts `n` devices online. */
  predicate Steady(cfg: Cfg, ps: seq<Pass>, k: nat, n: nat)
    requires k <= |ps|
  {
    k > 0 ==> OnlineCount(Run(cfg, ps).table) == n && Steady(cfg, Front(ps), k - 1, n)
  }

  lemma {:induction false} BaselineOfPass(cfg: Cfg, ps: seq<Pass>)
    requires |ps| > 0
    ensures Run(cfg, ps).baseline == Some(NextBaseline(Run(cfg, Front(ps)).baseline, OnlineCount(Run(cfg, ps).table)))
  {
  }

  lemma {:induction false} SteadyBaseline(cfg: Cfg, ps: seq<Pass>, k: nat, n: nat)
    requires k < |ps| && Steady(cfg, ps, k, n)
    ensures Run(cfg, Before(ps, k)).baseline.Some? && Run(cfg, ps).baseline.Some?
    ensures Run(cfg, ps).baseline.value == Settling(Run(cfg, Before(ps, k)).baseline.value, n, k)
  {
    hide Run;
    BaselineOfPass(cfg, ps);
    if k > 0 {
      SteadyBaseline(cfg, Front(ps), k - 1, n);
    }
  }

  lemma {:induction false} BaselineBounded(cfg: Cfg, ps: seq<Pass>)
    requires WellTimed(ps)
    ensures |ps| > 0 ==> Run(cfg, ps).baseline.Some? && Run(cfg, ps).baseline.value <= MAX_DEVICES
  {
    if |ps| > 0 {
      BaselineBounded(cfg, Front(ps));
      RunMatchesReference(cfg, ps);
      OnlineAtMostTotal(Run(cfg, ps).table);
    }
  }

  /** How many growth events a run has logged. */
  function GrowthLogged(cfg: Cfg, ps: seq<Pass>): nat {
    Ledger.CountKind(LogKeys(Run(cfg, ps).log), DeviceGrowth)
  }

  lemma BlockHasNoGrowth(cfg: Cfg, d: Device, night: bool)
    ensures forall a :: a in Block(cfg, d, night) ==> a.kind != DeviceGrowth
  {
    hide NewDetail, PresenceDetail, Format.MacText, WithVendor;
  }

  lemma {:induction false} BlocksHaveNoGrowth(cfg: Cfg, t: seq<Device>, night: bool)
    ensures forall a :: a in Blocks(cfg, t, night) ==> a.kind != DeviceGrowth
  {
    if |t| > 0 {
      BlocksHaveNoGrowth(cfg, Front(t), night);
      BlockHasNoGrowth(cfg, Last(t), night);
      hide Block;
      assert forall a :: a in Blocks(cfg, t, night) ==>
                           a in Blocks(cfg, Front(t), night) || a in Block(cfg, Last(t), night);
    }
  }

  /** A pass logs a growth event exactly when its count is growth over the baseline it finds. */
  lemma {:induction false} GrowthOfPass(cfg: Cfg, ps: seq<Pass>)
    requires |ps| > 0
    ensures var s := Run(cfg, Front(ps));
            GrowthLogged(cfg, ps) == GrowthLogged(cfg, Front(ps))
              + (if s.baseline.Some? && IsGrowth(s.baseline.value, OnlineCount(Run(cfg, ps).table), cfg.growthPct)
                 then 1 else 0)
  {
    var s, p := Run(cfg, Front(ps)), Last(ps);
    var t := Discovered(s.table, p);
    var blocks := Blocks(cfg, t, Night(cfg, p));
    var growth := GrowthAlerts(cfg, s.baseline, OnlineCount(SettleAll(cfg, t)));
    var alerts := Alerts(cfg, s, p);
    StampedKeys(s.log, alerts, Readings(p, |alerts|));
    AlertKeysAppend(blocks, growth);
    Ledger.CountKindAppend(LogKeys(s.log), AlertKeys(alerts), DeviceGrowth);
    Ledger.CountKindAppend(AlertKeys(blocks), AlertKeys(growth), DeviceGrowth);
    BlocksHaveNoGrowth(cfg, t, Night(cfg, p));
    forall k | k in AlertKeys(blocks) ensures k.kind != DeviceGrowth {
      var i :| 0 <= i < |blocks| && AlertKeys(blocks)[i] == k;
      assert blocks[i] in blocks;
    }
    Ledger.CountAbsent(AlertKeys(blocks), DeviceGrowth);
    GrowthMatches(cfg, s.baseline, OnlineCount(SettleAll(cfg, t)));
    Ledger.CountOne(Key(DeviceGrowth, Warning, NO_MAC), DeviceGrowth);
  }

  /**
   * A pass that finds a baseline b and counts n devices online logs a growth event if and only if b is not
   * zero and n exceeds it by at least the threshold; a first pass logs none.
   */
  lemma {:induction false} GrowthLoggedIff(cfg: Cfg, ps: seq<Pass>)
    requires |ps| > 0
    ensures var before, n := Run(cfg, Front(ps)).baseline, OnlineCount(Run(cfg, ps).table);
            GrowthLogged(cfg, ps) - GrowthLogged(cfg, Front(ps)) ==
              if before.Some? && 0 < before.value < n && 100 * (n - before.value) >= before.value * cfg.growthPct
              then 1 else 0
  {
    hide Run, GrowthLogged;
    GrowthOfPass(cfg, ps);
  }

  lemma {:induction false} BeforeIsTimed(ps: seq<Pass>, k: nat)
    requires k < |ps| && WellTimed(ps)
    ensures |Before(ps, k)| > 0 && WellTimed(Before(ps, k))
  {
    if k > 0 {
      BeforeIsTimed(Front(ps), k - 1);
    }
  }

  lemma {:induction false} SteadyFits(cfg: Cfg, ps: seq<Pass>, k: nat, n: nat)
    requires 0 < k < |ps| && WellTimed(ps) && Steady(cfg, ps, k, n)
    ensures n <= MAX_DEVICES
  {
    RunMatchesReference(cfg, ps);
    OnlineAtMostTotal(Run(cfg, ps).table);
  }

  /** The baseline a steady stretch of `k` passes starts from. */
  function Start(cfg: Cfg, ps: seq<Pass>, k: nat): nat
    requires k < |ps| && WellTimed(ps)
  {
    BeforeIsTimed(ps, k);
    BaselineBounded(cfg, Before(ps, k));
    Run(cfg, Before(ps, k)).baseline.value
  }

  /** The last of `k + 1` steady passes logs a growth event exactly when the settling baseline says so. */
  lemma SteadyGrowth(cfg: Cfg, ps: seq<Pass>, k: nat, n: nat)
    requires k + 1 < |ps| && WellTimed(ps) && Steady(cfg, ps, k + 1, n)
    ensures Start(cfg, ps, k + 1) == Start(cfg, Front(ps), k)
    ensures GrowthLogged(cfg, ps) == GrowthLogged(cfg, Front(ps))
              + if IsGrowth(Settling(Start(cfg, ps, k + 1), n, k), n, cfg.growthPct) then 1 else 0
  {
    hide Run, GrowthLogged, Settling;
    SteadyBaseline(cfg, Front(ps), k, n);
    GrowthOfPass(cfg, ps);
  }

  /**
   * The growth events of the last `k` passes of a run, all with the same count: at most 20, however many
   * passes, when alerts fall silent; all but at most 20 of the passes when they do not.
   */
  lemma {:induction false} GrowthEvents(cfg: Cfg, ps: seq<Pass>, k: nat, n: nat)
    requires k < |ps| && WellTimed(ps) && Steady(cfg, ps, k, n)
    ensures var logged := GrowthLogged(cfg, ps) - GrowthLogged(cfg, Before(ps, k));
            if FallsSilent(Start(cfg, ps, k), n, cfg.growthPct)
            then 0 <= logged <= Min(20, k) else Max(0, k - 20) <= logged <= k
  {
    hide Run, GrowthLogged, Settling, FallsSilent, Steady, Start;
    if k > 0 {
      StartBounded(cfg, ps, k);
      SteadyFits(cfg, ps, k, n);
      SteadyUnfolds(cfg, ps, k, n);
      GrowthEvents(cfg, Front(ps), k - 1, n);
      SteadyGrowth(cfg, ps, k - 1, n);
      if k > 20 {
        SettledAlertsIff(Start(cfg, ps, k), n, cfg.growthPct, k - 1);
      }
    }
  }

  lemma {:induction false} StartBounded(cfg: Cfg, ps: seq<Pass>, k: nat)
    requires k < |ps| && WellTimed(ps)
    ensures Start(cfg, ps, k) <= MAX_DEVICES
  {
    BeforeIsTimed(ps, k);
    BaselineBounded(cfg, Before(ps, k));
  }

  lemma SteadyUnfolds(cfg: Cfg, ps: seq<Pass>, k: nat, n: nat)
    requires 0 < k < |ps| && Steady(cfg, ps, k, n)
    ensures Steady(cfg, Front(ps), k - 1, n)
  {
  }

  /** Over a long steady stretch, growth events stay within 20 if and only if the alerts fall silent. */
  lemma {:induction false} GrowthEventsEndIff(cfg: Cfg, ps: seq<Pass>, k: nat, n: nat)
    requires 40 < k < |ps| && WellTimed(ps) && Steady(cfg, ps, k, n)
    ensures GrowthLogged(cfg, ps) <= GrowthLogged(cfg, Before(ps, k)) + 20
            <==> FallsSilent(Start(cfg, ps, k), n, cfg.growthPct)
  {
    GrowthEvents(cfg, ps, k, n);
  }

  /**
   * With the default 50% threshold, a network that holds steady at 10 to 256 devices logs at most 20
   * growth events from then on, however long it stays steady.
   */
  lemma {:induction false} AtMostTwentyGrowthEvents(cfg: Cfg, ps: seq<Pass>, k: nat, n: nat)
    requires k < |ps| && WellTimed(ps) && Steady(cfg, ps, k, n)
    requires cfg.growthPct == DEFAULT_GROWTH_PCT && n >= 10
    ensures GrowthLogged(cfg, ps) <= GrowthLogged(cfg, Before(ps, k)) + Min(20, k)
  {
    hide Run, GrowthLogged, Start;
    GrowthEvents(cfg, ps, k, n);
    assert FallsSilent(Start(cfg, ps, k), n, 50);
  }

  // ---- A small network that never falls silent ----

  const PERIOD := 60_000_000

  function Member(i: Byte): Mac {
    [0, 0, 0, 0, 0, i]
  }

  function Members(n: nat): (ms: seq<Mac>)
    requires n <= 256
    ensures |ms| == n
  {
    seq(n, i requires 0 <= i < n => Member(i))
  }

  /** The first `n` devices, all sighted at one reading. */
  function Crowd(n: nat, at: nat): seq<Sighting>
    requires n <= 256
  {
    seq(n, i requires 0 <= i < n => Sighting(Member(i), i + 1, at))
  }

  function CrowdPass(n: nat, start: nat): Pass
    requires n <= 256
  {
    Pass(start, Crowd(n, start), [], 12, [], start + 20 * MICROS_PER_SECOND)
  }

  /** Six devices in the first pass, and nine in each of the `k` passes after it, a minute apart. */
  function Crowded(k: nat): (ps: seq<Pass>)
    ensures |ps| == k + 1
  {
    if k == 0 then [CrowdPass(6, PERIOD)] else Crowded(k - 1) + [CrowdPass(9, (k + 1) * PERIOD)]
  }

  lemma MembersGrow(n: nat)
    requires n < 256
    ensures Members(n + 1) == Members(n) + [Member(n)]
    ensures forall m :: n <= m < 256 ==> Member(m) !in Members(n)
    ensures forall m :: 0 <= m < n ==> Member(m) in Members(n)
  {
    forall m | 0 <= m < n ensures Member(m) in Members(n) {
      assert Members(n)[m] == Member(m);
    }
    forall m | n <= m < 256 ensures Member(m) !in Members(n) {
      assert forall i :: 0 <= i < n ==> Members(n)[i][5] == i;
    }
  }

  /** Sighting one more device, with all lower ones known. */
  lemma MembersPush(m: nat, n: nat)
    requires m <= 256 && n < 256
    ensures var ms := Members(Max(m, n));
            Members(Max(m, n + 1)) == if Member(n) in ms then ms else ms + [Member(n)]
  {
    if n < m {
      assert Members(m)[n] == Member(n);
    } else {
      MembersGrow(n);
    }
  }

  lemma {:induction false} OrderPush(ss: seq<Sighting>, s: Sighting)
    ensures var ms := FirstSeenOrder(ss);
            FirstSeenOrder(ss + [s]) == if s.mac in ms then ms else ms + [s.mac]
  {
    assert Front(ss + [s]) == ss;
  }

  lemma {:induction false} CrowdOrder(ss: seq<Sighting>, m: nat, n: nat, at: nat)
    requires m <= 256 && n <= 256 && FirstSeenOrder(ss) == Members(m)
    ensures FirstSeenOrder(ss + Crowd(n, at)) == Members(Max(m, n))
  {
    hide FirstSeenOrder, Members, Member;
    if n == 0 {
      assert ss + Crowd(0, at) == ss;
    } else {
      CrowdOrder(ss, m, n - 1, at);
      var s := Sighting(Member(n - 1), n, at);
      assert ss + Crowd(n, at) == ss + Crowd(n - 1, at) + [s];
      OrderPush(ss + Crowd(n - 1, at), s);
      MembersPush(m, n - 1);
    }
  }

  lemma {:induction false} CrowdTimed(ps: seq<Pass>, n: nat, start: nat)
    requires n <= 256 && WellTimed(ps) && EndOf(ps) <= start
    ensures WellTimed(ps + [CrowdPass(n, start)]) && EndOf(ps + [CrowdPass(n, start)]) == start + 20 * MICROS_PER_SECOND
    ensures AllSightings(ps + [CrowdPass(n, start)]) == AllSightings(ps) + Crowd(n, start)
  {
    assert Front(ps + [CrowdPass(n, start)]) == ps;
  }

  /** The crowded run stores six devices, then nine. */
  lemma {:induction false} CrowdedRun(k: nat)
    ensures WellTimed(Crowded(k)) && EndOf(Crowded(k)) <= (k + 2) * PERIOD
    ensures FirstSeenOrder(AllSightings(Crowded(k))) == Members(if k == 0 then 6 else 9)
  {
    if k == 0 {
      assert [] + [CrowdPass(6, PERIOD)] == Crowded(0);
      CrowdTimed([], 6, PERIOD);
      CrowdOrder([], 0, 6, PERIOD);
    } else {
      CrowdedRun(k - 1);
      CrowdTimed(Crowded(k - 1), 9, (k + 1) * PERIOD);
      CrowdOrder(AllSightings(Crowded(k - 1)), if k == 1 then 6 else 9, 9, (k + 1) * PERIOD);
    }
  }

  lemma {:induction false} AllPresent(hits: seq<set<Mac>>, macs: seq<Mac>)
    requires forall mac :: mac in macs ==> In(hits, mac, 0)
    ensures CountInLastThree(hits, macs) == |macs|
  {
    if |macs| > 0 {
      AllPresent(hits, Front(macs));
      assert Last(macs) in macs;
    }
  }

  /** A pass that sights every stored device finds all of them online. */
  lemma {:induction false} CrowdOnline(cfg: Cfg, ps: seq<Pass>, n: nat)
    requires |ps| > 0 && n <= 256 && WellTimed(ps) && Last(ps) == CrowdPass(n, Last(ps).start)
    requires FirstSeenOrder(AllSightings(ps)) == Members(n)
    ensures OnlineCount(Run(cfg, ps).table) == n
  {
    var hits := FreshSets(ps);
    forall mac | mac in Members(n) ensures In(hits, mac, 0) {
      var i :| 0 <= i < n && Members(n)[i] == mac;
      assert Last(ps).sightings[i].mac == mac;
      SightedSlot(ps, Claimed(mac));
    }
    AllPresent(hits, Members(n));
    RunMatchesReference(cfg, ps);
    TrackedOnline(ps, Run(cfg, ps).table);
  }

  lemma {:induction false} CrowdedSteady(cfg: Cfg, k: nat)
    ensures WellTimed(Crowded(k)) && Steady(cfg, Crowded(k), k, 9) && Before(Crowded(k), k) == Crowded(0)
    ensures Start(cfg, Crowded(k), k) == 6
  {
    hide Run, CrowdPass;
    CrowdedRun(k);
    if k == 0 {
      CrowdedFirst(cfg);
    } else {
      CrowdedSteady(cfg, k - 1);
      assert Front(Crowded(k)) == Crowded(k - 1);
      CrowdedOnline(cfg, k);
    }
  }

  lemma {:induction false} CrowdedOnline(cfg: Cfg, k: nat)
    ensures OnlineCount(Run(cfg, Crowded(k)).table) == if k == 0 then 6 else 9
  {
    CrowdedRun(k);
    CrowdOnline(cfg, Crowded(k), if k == 0 then 6 else 9);
  }

  lemma {:induction false} CrowdedFirst(cfg: Cfg)
    ensures Run(cfg, Crowded(0)).baseline == Some(6)
  {
    hide Spine.RunPass;
    CrowdedOnline(cfg, 0);
    BaselineOfPass(cfg, Crowded(0));
    assert Front(Crowded(0)) == [];
  }

  /**
   * Nine devices where the first pass found six: at the default 50% every pass after the first logs a
   * growth event, for ever.
   */
  lemma {:induction false} SmallNetworkAlertsForEver(cfg: Cfg, k: nat)
    requires cfg.growthPct == DEFAULT_GROWTH_PCT
    ensures WellTimed(Crowded(k)) && |Crowded(k)| == k + 1
    ensures GrowthLogged(cfg, Crowded(k)) == k
  {
    hide Run, GrowthLogged, CrowdPass, Start, Steady;
    CrowdedSteady(cfg, k);
    if k == 0 {
      NoFirstGrowth(cfg, Crowded(0));
    } else {
      SmallNetworkAlertsForEver(cfg, k - 1);
      assert Front(Crowded(k)) == Crowded(k - 1);
      SteadyGrowth(cfg, Crowded(k), k - 1, 9);
      NeverOvershoots(6, 9, k - 1);
    }
  }

  lemma NoFirstGrowth(cfg: Cfg, ps: seq<Pass>)
    requires |ps| == 1
    ensures GrowthLogged(cfg, ps) == 0
  {
    GrowthOfPass(cfg, ps);
  }
}
