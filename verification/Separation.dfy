/**
 * When "present" means "harvested in this very pass": exactly when no pass starts within the second in
 * which a MAC it does not see was last seen. Aging compares whole seconds, so a pass triggered by hand
 * right after another can miss its first chance to count an absent device.
 */
module Separation {
  import opened Prelude
  import opened Inventory
  import opened Discovery
  import opened Anomaly
  import opened Spine
  import opened Presence
  import Ledger

  /** The MACs harvested during one pass. */
  function HarvestedSet(p: Pass): set<Mac> {
    set s | s in p.sightings :: s.mac
  }

  function HarvestedSets(ps: seq<Pass>): (hits: seq<set<Mac>>)
    ensures |hits| == |ps|
  {
    if |ps| == 0 then [] else HarvestedSets(Front(ps)) + [HarvestedSet(Last(ps))]
  }

  /** No pass starts in, or before, the second of an earlier sighting of a MAC it does not harvest. */
  predicate Separated(ps: seq<Pass>) {
    |ps| > 0 ==>
      && Separated(Front(ps))
      && forall s :: s in AllSightings(Front(ps)) && s.mac !in HarvestedSet(Last(ps)) ==>
                       Second(s.at) < Second(Last(ps).start)
  }

  lemma {:induction false} FreshIsHarvestedNow(ps: seq<Pass>)
    requires |ps| > 0 && WellTimed(ps)
    ensures FreshSet(ps) == HarvestedSet(Last(ps)) <==>
              forall s :: s in AllSightings(Front(ps)) && s.mac !in HarvestedSet(Last(ps)) ==>
                            Second(s.at) < Second(Last(ps).start)
  {
    var p := Last(ps);
    assert forall s :: s in AllSightings(ps) <==> s in AllSightings(Front(ps)) || s in p.sightings;
    forall s | s in p.sightings ensures s.mac in FreshSet(ps) {
      var k :| 0 <= k < |p.sightings| && p.sightings[k] == s;
    }
    if FreshSet(ps) == HarvestedSet(p) {
      forall s | s in AllSightings(Front(ps)) && s.mac !in HarvestedSet(p) ensures Second(s.at) < Second(p.start) {
        assert s in AllSightings(ps);
        assert s.mac !in FreshSet(ps);
      }
    }
  }

  lemma {:induction false} FreshIsHarvestedIff(ps: seq<Pass>)
    requires WellTimed(ps)
    ensures FreshSets(ps) == HarvestedSets(ps) <==> Separated(ps)
  {
    if |ps| > 0 {
      FreshIsHarvestedIff(Front(ps));
      FreshIsHarvestedNow(ps);
      var f, h := FreshSets(ps), HarvestedSets(ps);
      assert Front(f) == FreshSets(Front(ps)) && Last(f) == FreshSet(ps);
      assert Front(h) == HarvestedSets(Front(ps)) && Last(h) == HarvestedSet(Last(ps));
      assert f == Front(f) + [Last(f)] && h == Front(h) + [Last(h)];
    }
  }

  // ---- When the harvested sets alone decide the log ----

  /**
   * Three passes in a row have not harvested the MAC, and the first of the three started no later than
   * the second in which it was last seen.
   */
  predicate Lingers(ps: seq<Pass>, mac: Mac) {
    |ps| >= 3 && !InLastThree(HarvestedSets(ps), mac) && mac in FreshSet(Front(Front(ps)))
  }

  /** At no time did a stored MAC linger. */
  predicate NoneLingered(ps: seq<Pass>) {
    |ps| > 0 ==> NoneLingered(Front(ps)) && forall mac :: mac in Admitted(ps) ==> !Lingers(ps, mac)
  }

  /** At all times the log was the reference log of the harvested sets. */
  predicate AlwaysMatched(cfg: Cfg, ps: seq<Pass>) {
    && (|ps| > 0 ==> AlwaysMatched(cfg, Front(ps)))
    && LogKeys(Run(cfg, ps).log) == ReferenceLog(cfg, ps, HarvestedSets(ps))
  }

  lemma HarvestedIsSaw(p: Pass, mac: Mac)
    ensures mac in HarvestedSet(p) <==> Saw(p.sightings, mac)
  {
  }

  lemma {:induction false} HarvestedIsFresh(ps: seq<Pass>)
    requires |ps| > 0 && WellTimed(ps)
    ensures HarvestedSet(Last(ps)) <= FreshSet(ps)
  {
    forall mac | mac in HarvestedSet(Last(ps)) ensures mac in FreshSet(ps) {
      SightedSlot(ps, Claimed(mac));
    }
  }

  /** Presence windows, one pass at a time. */
  lemma {:induction false} SetsPush(ps: seq<Pass>, mac: Mac)
    requires |ps| > 0
    ensures FreshSets(ps) == FreshSets(Front(ps)) + [FreshSet(ps)]
    ensures HarvestedSets(ps) == HarvestedSets(Front(ps)) + [HarvestedSet(Last(ps))]
    ensures Front(FreshSets(ps)) == FreshSets(Front(ps)) && Front(HarvestedSets(ps)) == HarvestedSets(Front(ps))
    ensures In(FreshSets(ps), mac, 0) == (mac in FreshSet(ps))
    ensures In(HarvestedSets(ps), mac, 0) == (mac in HarvestedSet(Last(ps)))
    ensures In(FreshSets(ps), mac, 1) == In(FreshSets(Front(ps)), mac, 0)
    ensures In(HarvestedSets(ps), mac, 1) == In(HarvestedSets(Front(ps)), mac, 0)
    ensures In(FreshSets(ps), mac, 2) == In(FreshSets(Front(ps)), mac, 1)
    ensures In(HarvestedSets(ps), mac, 2) == In(HarvestedSets(Front(ps)), mac, 1)
  {
    WindowsPush(FreshSets(Front(ps)), FreshSet(ps), mac);
    WindowsPush(HarvestedSets(Front(ps)), HarvestedSet(Last(ps)), mac);
  }

  /** Present without being harvested: present one pass earlier too. */
  lemma {:induction false} PresentBefore(ps: seq<Pass>, mac: Mac)
    requires |ps| > 0 && WellTimed(ps) && mac in FreshSet(ps) && mac !in HarvestedSet(Last(ps))
    ensures |ps| > 1 && mac in FreshSet(Front(ps))
  {
    HarvestedIsSaw(Last(ps), mac);
    FreshCarriesOver(ps, mac);
  }

  lemma {:induction false} PresentEver(ps: seq<Pass>, mac: Mac)
    requires |ps| > 0 && WellTimed(ps) && mac in FreshSet(ps) && mac !in HarvestedSet(Last(ps))
    ensures EverIn(FreshSets(Front(ps)), mac)
  {
    PresentBefore(ps, mac);
    WindowsPush(FreshSets(Front(Front(ps))), FreshSet(Front(ps)), mac);
  }

  /** Online by presence and by harvests differ exactly for a MAC that lingers. */
  lemma {:induction false} LingersIff(ps: seq<Pass>, mac: Mac)
    requires |ps| > 0 && WellTimed(ps)
    ensures InLastThree(HarvestedSets(ps), mac) ==> InLastThree(FreshSets(ps), mac)
    ensures InLastThree(FreshSets(ps), mac) && !InLastThree(HarvestedSets(ps), mac) <==> Lingers(ps, mac)
  {
    hide FreshSet, HarvestedSet, FreshSets, HarvestedSets, In;
    SetsPush(ps, mac);
    HarvestedIsFresh(ps);
    if |ps| > 1 {
      SetsPush(Front(ps), mac);
      HarvestedIsFresh(Front(ps));
      if |ps| > 2 {
        SetsPush(Front(Front(ps)), mac);
        HarvestedIsFresh(Front(Front(ps)));
      } else {
        NothingYet(mac);
      }
    } else {
      NothingYet(mac);
    }
    if InLastThree(FreshSets(ps), mac) && !InLastThree(HarvestedSets(ps), mac) {
      if mac in FreshSet(ps) {
        PresentBefore(ps, mac);
      }
      assert |ps| > 1;
      if mac in FreshSet(Front(ps)) {
        PresentBefore(Front(ps), mac);
      }
    }
  }

  lemma NothingYet(mac: Mac)
    ensures FreshSets([]) == HarvestedSets([]) == []
    ensures forall ago :: !In([], mac, ago)
  {
  }

  /** While none lingers, both kinds of sets agree on which stored MACs are online. */
  lemma {:induction false} OnlineAgrees(ps: seq<Pass>, mac: Mac)
    requires WellTimed(ps) && NoneLingered(ps) && mac in Admitted(ps)
    ensures InLastThree(FreshSets(ps), mac) == InLastThree(HarvestedSets(ps), mac)
  {
    if |ps| > 0 {
      LingersIff(ps, mac);
    }
  }

  lemma {:induction false} EverHarvested(ps: seq<Pass>, mac: Mac)
    requires WellTimed(ps)
    ensures EverIn(HarvestedSets(ps), mac) <==> EverIn(FreshSets(ps), mac)
  {
    if |ps| > 0 {
      EverHarvested(Front(ps), mac);
      HarvestedIsFresh(ps);
      WindowsPush(FreshSets(Front(ps)), FreshSet(ps), mac);
      WindowsPush(HarvestedSets(Front(ps)), HarvestedSet(Last(ps)), mac);
      if mac in FreshSet(ps) && mac !in HarvestedSet(Last(ps)) {
        PresentEver(ps, mac);
      }
    }
  }

  /**
   * One stored MAC in one pass, no MAC having lingered before: both kinds of sets call for the same
   * block unless the MAC lingers now, and for different ones if it does.
   */
  lemma {:induction false} BlocksAgreeIff(cfg: Cfg, ps: seq<Pass>, mac: Mac, night: bool)
    requires |ps| > 0 && WellTimed(ps) && NoneLingered(Front(ps)) && mac in Admitted(ps)
    ensures BlockKeys(cfg, FreshSets(ps), mac, night) == BlockKeys(cfg, HarvestedSets(ps), mac, night)
            <==> !Lingers(ps, mac)
  {
    hide Lingers, NoneLingered;
    SetsPush(ps, mac);
    EverHarvested(Front(ps), mac);
    LingersIff(ps, mac);
    Ledger.AdmittedMember(ps, mac);
    if EverIn(FreshSets(Front(ps)), mac) {
      OnlineAgrees(Front(ps), mac);
      TransitionWindows(cfg, FreshSets(Front(ps)), FreshSet(ps), mac, night);
      TransitionWindows(cfg, HarvestedSets(Front(ps)), HarvestedSet(Last(ps)), mac, night);
    } else {
      Ledger.NeverInIsOffline(HarvestedSets(Front(ps)), mac);
      if mac !in HarvestedSet(Last(ps)) {
        PresentEver(ps, mac);
      }
    }
  }

  lemma {:induction false} AllBlocksAgree(cfg: Cfg, f: seq<set<Mac>>, h: seq<set<Mac>>, macs: seq<Mac>, night: bool)
    requires |f| > 0 && |h| > 0
    requires forall mac :: mac in macs ==> BlockKeys(cfg, f, mac, night) == BlockKeys(cfg, h, mac, night)
    ensures BlocksKeys(cfg, f, macs, night) == BlocksKeys(cfg, h, macs, night)
  {
    if |macs| > 0 {
      AllBlocksAgree(cfg, f, h, Front(macs), night);
      assert Last(macs) in macs;
    }
  }

  lemma {:induction false} CountsAgree(f: seq<set<Mac>>, h: seq<set<Mac>>, macs: seq<Mac>)
    requires forall mac :: mac in macs ==> InLastThree(f, mac) == InLastThree(h, mac)
    ensures CountInLastThree(f, macs) == CountInLastThree(h, macs)
  {
    if |macs| > 0 {
      CountsAgree(f, h, Front(macs));
      assert Last(macs) in macs;
    }
  }

  lemma {:induction false} OnlineCountsAgree(ps: seq<Pass>)
    requires WellTimed(ps) && NoneLingered(ps)
    ensures CountInLastThree(FreshSets(ps), Admitted(ps)) == CountInLastThree(HarvestedSets(ps), Admitted(ps))
  {
    forall mac | mac in Admitted(ps) ensures InLastThree(FreshSets(ps), mac) == InLastThree(HarvestedSets(ps), mac) {
      OnlineAgrees(ps, mac);
    }
    CountsAgree(FreshSets(ps), HarvestedSets(ps), Admitted(ps));
  }

  lemma {:induction false} BaselinesAgree(ps: seq<Pass>)
    requires WellTimed(ps) && NoneLingered(ps)
    ensures ReferenceBaseline(ps, FreshSets(ps)) == ReferenceBaseline(ps, HarvestedSets(ps))
  {
    if |ps| > 0 {
      BaselinesAgree(Front(ps));
      OnlineCountsAgree(ps);
      SetsPush(ps, NO_MAC);
    }
  }

  /** One pass, no MAC having lingered before: it logs what its harvested sets call for unless one lingers now. */
  lemma {:induction false} SlicesAgreeIff(cfg: Cfg, ps: seq<Pass>)
    requires |ps| > 0 && WellTimed(ps) && NoneLingered(Front(ps))
    ensures ReferenceSlice(cfg, ps, FreshSets(ps)) == ReferenceSlice(cfg, ps, HarvestedSets(ps)) <==> NoneLingered(ps)
  {
    hide Lingers;
    var f, h, night := FreshSets(ps), HarvestedSets(ps), Night(cfg, Last(ps));
    if NoneLingered(ps) {
      forall mac | mac in Admitted(ps) ensures BlockKeys(cfg, f, mac, night) == BlockKeys(cfg, h, mac, night) {
        BlocksAgreeIff(cfg, ps, mac, night);
      }
      AllBlocksAgree(cfg, f, h, Admitted(ps), night);
      OnlineCountsAgree(ps);
      BaselinesAgree(Front(ps));
      SetsPush(ps, NO_MAC);
    } else {
      var mac :| mac in Admitted(ps) && Lingers(ps, mac);
      BlocksAgreeIff(cfg, ps, mac, night);
      Ledger.TraceOfSlice(cfg, ps, f, mac);
      Ledger.TraceOfSlice(cfg, ps, h, mac);
    }
  }

  /** What the latest pass appended to the log of a run, up to times and texts. */
  lemma {:induction false} LogOfPass(cfg: Cfg, ps: seq<Pass>)
    requires |ps| > 0 && WellTimed(ps)
    ensures LogKeys(Run(cfg, ps).log) == LogKeys(Run(cfg, Front(ps)).log) + ReferenceSlice(cfg, ps, FreshSets(ps))
  {
    RunMatchesReference(cfg, ps);
    RunMatchesReference(cfg, Front(ps));
    SetsPush(ps, NO_MAC);
  }

  /**
   * The log follows from the per-pass harvested sets alone, at all times of a run, if and only if no stored
   * MAC ever lingered.
   */
  lemma {:induction false} RunMatchesHarvests(cfg: Cfg, ps: seq<Pass>)
    requires WellTimed(ps)
    ensures AlwaysMatched(cfg, ps) <==> NoneLingered(ps)
  {
    hide ReferenceSlice, Run, NoneLingered;
    if |ps| == 0 {
      AtBoot(cfg);
    } else {
      RunMatchesHarvests(cfg, Front(ps));
      LogOfPass(cfg, ps);
      SetsPush(ps, NO_MAC);
      NoneLingeredBefore(ps);
      if NoneLingered(Front(ps)) {
        SlicesAgreeIff(cfg, ps);
        var before := LogKeys(Run(cfg, Front(ps)).log);
        SameTail(before, ReferenceSlice(cfg, ps, FreshSets(ps)), ReferenceSlice(cfg, ps, HarvestedSets(ps)));
      }
    }
  }

  lemma {:induction false} AtBoot(cfg: Cfg)
    ensures AlwaysMatched(cfg, []) && NoneLingered([])
  {
  }

  lemma {:induction false} NoneLingeredBefore(ps: seq<Pass>)
    requires |ps| > 0
    ensures NoneLingered(ps) ==> NoneLingered(Front(ps))
  {
  }

  lemma SameTail(log: seq<Key>, a: seq<Key>, b: seq<Key>)
    ensures log + a == log + b <==> a == b
  {
    assert (log + a)[|log|..] == a && (log + b)[|log|..] == b;
  }

  /** On separated runs no MAC lingers. */
  lemma {:induction false} SeparatedNeverLingers(ps: seq<Pass>)
    requires WellTimed(ps) && Separated(ps)
    ensures NoneLingered(ps)
  {
    if |ps| > 0 {
      SeparatedNeverLingers(Front(ps));
      FreshIsHarvestedIff(ps);
      forall mac ensures !Lingers(ps, mac) {
        LingersIff(ps, mac);
      }
    }
  }

  /** Each pass starts in a later second than the previous one ended, as scheduled passes do. */
  predicate LaterSeconds(ps: seq<Pass>) {
    |ps| > 1 ==> LaterSeconds(Front(ps)) && Second(EndOf(Front(ps))) < Second(Last(ps).start)
  }

  lemma {:induction false} LaterSecondsSeparate(ps: seq<Pass>)
    requires WellTimed(ps) && LaterSeconds(ps)
    ensures Separated(ps)
  {
    if |ps| > 0 {
      LaterSecondsSeparate(Front(ps));
      forall s | s in AllSightings(Front(ps)) ensures Second(s.at) < Second(Last(ps).start) {
        EarlierSightings(Front(ps), s);
      }
    }
  }

  // ---- The run that shows the difference ----

  const LATE: Mac := [0, 1, 2, 3, 4, 5]

  const FIRST_SIGHTING := Sighting(LATE, 1, 1_500_000)
  const LAST_SIGHTING := Sighting(LATE, 1, 4_500_000)

  /** The first pass names the device, so the later ones query nothing. */
  const FIRST := Pass(1_000_000, [FIRST_SIGHTING], [NameHit(1, "tv", Iot)], 12, [], 3_000_000)
  const SECOND := Pass(3_000_000, [LAST_SIGHTING], [], 12, [], 4_500_000)

  function Quiet(start: nat): Pass {
    Pass(start, [], [], 12, [], start + MICROS_PER_SECOND)
  }

  /** A MAC is last seen, a pass is triggered by hand within the same second, and two scheduled ones follow. */
  const TWO_PASSES := [FIRST] + [SECOND]
  const THREE_PASSES := TWO_PASSES + [Quiet(4_500_000)]
  const FOUR_PASSES := THREE_PASSES + [Quiet(60_000_000)]
  const FIVE_PASSES := FOUR_PASSES + [Quiet(120_000_000)]

  /** The only device is LATE, and it has a name. */
  predicate OnlyNamed(t: seq<Device>) {
    |t| == 1 && t[0].mac == LATE && t[0].hostname != ""
  }

  lemma FirstPass()
    ensures WellTimed([FIRST]) && AllSightings([FIRST]) == [FIRST_SIGHTING]
    ensures FreshSets([FIRST]) == [{LATE}] == HarvestedSets([FIRST])
  {
    assert [] + [FIRST] == [FIRST];
    OnePass([], FIRST, FIRST_SIGHTING);
  }

  /** A pass with one sighting, made after the pass started. */
  lemma {:induction false} OnePass(ps: seq<Pass>, p: Pass, s: Sighting)
    requires WellTimed(ps) && PassTimed(p, EndOf(ps)) && p.sightings == [s]
    requires forall x :: x in AllSightings(ps) ==> x.mac == s.mac
    ensures var ps' := ps + [p];
            && WellTimed(ps') && AllSightings(ps') == AllSightings(ps) + [s]
            && FreshSets(ps') == FreshSets(ps) + [{s.mac}]
            && HarvestedSets(ps') == HarvestedSets(ps) + [{s.mac}]
  {
    var ps' := ps + [p];
    assert Front(ps') == ps;
    assert s in p.sightings && s in AllSightings(ps');
    assert FreshSet(ps') == {s.mac} == HarvestedSet(p);
  }

  lemma FirstPasses()
    ensures WellTimed(TWO_PASSES) && AllSightings(TWO_PASSES) == [FIRST_SIGHTING, LAST_SIGHTING]
    ensures FreshSets(TWO_PASSES) == [{LATE}] + [{LATE}] == HarvestedSets(TWO_PASSES)
  {
    FirstPass();
    OnePass([FIRST], SECOND, LAST_SIGHTING);
  }

  lemma {:induction false} QuietPass(ps: seq<Pass>, start: nat)
    requires WellTimed(ps) && EndOf(ps) <= start && AllSightings(ps) == [FIRST_SIGHTING, LAST_SIGHTING]
    ensures var ps' := ps + [Quiet(start)];
            && WellTimed(ps') && EndOf(ps') == start + MICROS_PER_SECOND
            && AllSightings(ps') == [FIRST_SIGHTING, LAST_SIGHTING]
            && FreshSets(ps') == FreshSets(ps) + [if Second(start) <= 4 then {LATE} else {}]
            && HarvestedSets(ps') == HarvestedSets(ps) + [{}]
  {
    var ps' := ps + [Quiet(start)];
    assert Front(ps') == ps;
    assert AllSightings(ps') == AllSightings(ps) + [] == AllSightings(ps);
    assert LAST_SIGHTING in AllSightings(ps');
    assert FreshSet(ps') == if Second(start) <= 4 then {LATE} else {};
    assert HarvestedSet(Last(ps')) == {};
  }

  /** The third pass, triggered by hand, still finds the MAC present. */
  lemma FivePassSets()
    ensures WellTimed(FIVE_PASSES) && AllSightings(FIVE_PASSES) == [FIRST_SIGHTING, LAST_SIGHTING]
    ensures FreshSets(THREE_PASSES) == [{LATE}] + [{LATE}] + [{LATE}]
    ensures FreshSets(FIVE_PASSES) == FreshSets(THREE_PASSES) + [{}] + [{}]
    ensures HarvestedSets(FIVE_PASSES) == [{LATE}] + [{LATE}] + [{}] + [{}] + [{}]
  {
    FirstPasses();
    QuietPass(TWO_PASSES, 4_500_000);
    QuietPass(THREE_PASSES, 60_000_000);
    QuietPass(FOUR_PASSES, 120_000_000);
  }

  lemma AdmittedLate()
    requires AllSightings(FIVE_PASSES) == [FIRST_SIGHTING, LAST_SIGHTING]
    ensures Admitted(FIVE_PASSES) == [LATE]
  {
    assert Front([FIRST_SIGHTING]) == [] && Front([FIRST_SIGHTING, LAST_SIGHTING]) == [FIRST_SIGHTING];
    assert LATE !in FirstSeenOrder([]);
    assert FirstSeenOrder([FIRST_SIGHTING]) == [] + [LATE] == [LATE];
    assert LATE in FirstSeenOrder([FIRST_SIGHTING]);
  }

  lemma {:induction false} FivePassBlock(cfg: Cfg, hits: seq<set<Mac>>, third: set<Mac>, night: bool)
    requires third == {} || third == {LATE}
    requires hits == [{LATE}] + [{LATE}] + [third] + [{}] + [{}]
    ensures BlocksKeys(cfg, hits, [LATE], night) == if third == {} then [Key(DeviceMissing, Warning, LATE)] else []
  {
    assert Front([LATE]) == [];
    assert Front(hits)[0] == {LATE} && EverIn(Front(hits), LATE);
    assert hits[1] == {LATE} && hits[2] == third && hits[3] == {} && hits[4] == {};
  }

  lemma FivePassSlice(cfg: Cfg, hits: seq<set<Mac>>, third: set<Mac>)
    requires third == {} || third == {LATE}
    requires hits == [{LATE}] + [{LATE}] + [third] + [{}] + [{}] && |FIVE_PASSES| == 5
    requires AllSightings(FIVE_PASSES) == [FIRST_SIGHTING, LAST_SIGHTING]
    ensures Key(DeviceMissing, Warning, LATE) in ReferenceSlice(cfg, FIVE_PASSES, hits) <==> third == {}
  {
    hide BlocksKeys, ReferenceBaseline, CountInLastThree, Admitted;
    AdmittedLate();
    FivePassBlock(cfg, hits, third, Night(cfg, Last(FIVE_PASSES)));
    var blocks := BlocksKeys(cfg, hits, [LATE], Night(cfg, Last(FIVE_PASSES)));
    assert third == {} ==> blocks[0] == Key(DeviceMissing, Warning, LATE);
  }

  /**
   * Three passes have gone by without the MAC, so the harvested sets call for MISSING in the fifth pass;
   * it does not log it, because the pass triggered by hand counted the MAC as still present.
   */
  lemma {:induction false} SameSecondDelaysMissing(cfg: Cfg)
    ensures WellTimed(FIVE_PASSES) && !Separated(FIVE_PASSES) && Lingers(FIVE_PASSES, LATE)
    ensures Key(DeviceMissing, Warning, LATE) in ReferenceSlice(cfg, FIVE_PASSES, HarvestedSets(FIVE_PASSES))
    ensures Key(DeviceMissing, Warning, LATE) !in
              AlertKeys(Alerts(cfg, Run(cfg, Front(FIVE_PASSES)), Last(FIVE_PASSES)))
  {
    hide Run, Alerts, ReferenceSlice, AlertKeys;
    FivePassSets();
    FivePassSlice(cfg, HarvestedSets(FIVE_PASSES), {});
    FivePassSlice(cfg, FreshSets(FIVE_PASSES), {LATE});
    assert FreshSets(FIVE_PASSES)[2] == {LATE} && HarvestedSets(FIVE_PASSES)[2] == {};
    FreshIsHarvestedIff(FIVE_PASSES);
    SliceOfRun(cfg, FIVE_PASSES);
    assert Front(Front(FIVE_PASSES)) == THREE_PASSES;
    SetsPush(THREE_PASSES, LATE);
  }

  lemma {:induction false} FirstNames(cfg: Cfg)
    ensures OnlyNamed(Run(cfg, [FIRST]).table)
  {
    assert Front([FIRST]) == [];
    DiscoveredOne(FIRST);
    hide Discovered;
    assert Take("tv", HOSTNAME_LEN - 1) == "tv";
    SettleKeepsNamed(cfg, Discovered([], FIRST));
  }

  lemma {:induction false} HarvestKeepsNamed(t: seq<Device>, ss: seq<Sighting>)
    requires OnlyNamed(t) && forall i :: 0 <= i < |ss| ==> ss[i].mac == LATE
    ensures OnlyNamed(HarvestAll(t, ss))
  {
    if |ss| > 0 {
      HarvestKeepsNamed(t, Front(ss));
      HarvestStep(HarvestAll(t, Front(ss)), Last(ss));
    }
  }

  lemma StaysNamed(cfg: Cfg, s: State, p: Pass)
    requires OnlyNamed(s.table) && p.names == []
    requires forall i :: 0 <= i < |p.sightings| ==> p.sightings[i].mac == LATE
    ensures OnlyNamed(HarvestAll(s.table, p.sightings)) && OnlyNamed(Spine.RunPass(cfg, s, p).table)
  {
    var t := HarvestAll(s.table, p.sightings);
    HarvestKeepsNamed(s.table, p.sightings);
    hide HarvestAll;
    assert ApplyNames(t, p.names) == t;
    SettleKeepsNamed(cfg, AgeAll(t, Second(p.start)));
  }

  lemma SettleKeepsNamed(cfg: Cfg, t: seq<Device>)
    requires OnlyNamed(t)
    ensures OnlyNamed(SettleAll(cfg, t))
  {
  }

  /** In every pass but the first the sweep leaves no device without a name, so the pass queries nothing. */
  lemma {:induction false} NoQueriesLater(cfg: Cfg)
    ensures !Unnamed(HarvestAll(Run(cfg, [FIRST]).table, SECOND.sightings))
    ensures !Unnamed(Run(cfg, TWO_PASSES).table)
    ensures !Unnamed(Run(cfg, THREE_PASSES).table)
    ensures !Unnamed(Run(cfg, FOUR_PASSES).table)
  {
    hide Run, Spine.RunPass, HarvestAll;
    FirstNames(cfg);
    StaysNamed(cfg, Run(cfg, [FIRST]), SECOND);
    RunPush(cfg, [FIRST], SECOND);
    StaysNamed(cfg, Run(cfg, TWO_PASSES), Quiet(4_500_000));
    RunPush(cfg, TWO_PASSES, Quiet(4_500_000));
    StaysNamed(cfg, Run(cfg, THREE_PASSES), Quiet(60_000_000));
    RunPush(cfg, THREE_PASSES, Quiet(60_000_000));
  }
}
