/**
 * Whole-run refinement: over any well-timed run, the event log is a simple function of the set of
 * MACs seen in each pass, the order in which MACs were first seen, and the hour of each pass.
 */
module Presence {
  import opened Prelude
  import opened Inventory
  import opened Discovery
  import opened Anomaly
  import opened Spine
  import Oui

  /** An event without its time and text. */
  datatype Key = Key(kind: Kind, severity: Severity, mac: Mac)

  function KeyOf(a: Alert): Key {
    Key(a.kind, a.severity, a.mac)
  }

  function AlertKeys(alerts: seq<Alert>): (ks: seq<Key>)
    ensures |ks| == |alerts|
  {
    seq(|alerts|, i requires 0 <= i < |alerts| => KeyOf(alerts[i]))
  }

  function LogKeys(log: seq<Event>): (ks: seq<Key>)
    ensures |ks| == |log|
  {
    seq(|log|, i requires 0 <= i < |log| => KeyOf(log[i].alert))
  }

  // ---- The reference: presence as windows over per-pass sets ----

  function AllSightings(ps: seq<Pass>): seq<Sighting> {
    if |ps| == 0 then [] else AllSightings(Front(ps)) + Last(ps).sightings
  }

  /** The MACs a pass finds present: sighted, in this or any earlier pass, not before the second it started in. */
  function FreshSet(ps: seq<Pass>): set<Mac>
    requires |ps| > 0
  {
    set s | s in AllSightings(ps) && Second(s.at) >= Second(Last(ps).start) :: s.mac
  }

  function FreshSets(ps: seq<Pass>): (hits: seq<set<Mac>>)
    ensures |hits| == |ps|
  {
    if |ps| == 0 then [] else FreshSets(Front(ps)) + [FreshSet(ps)]
  }

  /** Present `ago` passes before the latest one. */
  predicate In(hits: seq<set<Mac>>, mac: Mac, ago: nat) {
    ago < |hits| && mac in hits[|hits| - 1 - ago]
  }

  predicate EverIn(hits: seq<set<Mac>>, mac: Mac) {
    exists hit :: hit in hits && mac in hit
  }

  /** Online means present in at least one of the last three passes. */
  predicate InLastThree(hits: seq<set<Mac>>, mac: Mac) {
    In(hits, mac, 0) || In(hits, mac, 1) || In(hits, mac, 2)
  }

  function IntroKeys(cfg: Cfg, mac: Mac, night: bool): seq<Key> {
    var private := mac[0] % 4 >= 2;
    if private && !cfg.alertRandomized then [] else
      var vendor := Oui.LookupText(cfg.db, mac, VENDOR_LEN);
      [Key(NewDevice, if night then Warning else Info, mac)]
      + (if night then [Key(NightActivity, Warning, mac)] else [])
      + (if !private && (vendor == "" || vendor == "Unknown") then [Key(UnknownVendor, Info, mac)] else [])
  }

  /**
   * What the latest pass says about one stored MAC: introduced by the first pass it is in, MISSING in
   * exactly the third consecutive pass it is not in, RETURNED by exactly the next pass it is in.
   */
  function BlockKeys(cfg: Cfg, hits: seq<set<Mac>>, mac: Mac, night: bool): seq<Key>
    requires |hits| > 0
  {
    if !EverIn(Front(hits), mac) then IntroKeys(cfg, mac, night)
    else if !In(hits, mac, 0) && !In(hits, mac, 1) && !In(hits, mac, 2) && In(hits, mac, 3) then
      [Key(DeviceMissing, Warning, mac)]
    else if In(hits, mac, 0) && !In(hits, mac, 1) && !In(hits, mac, 2) && !In(hits, mac, 3) then
      [Key(DeviceReturned, Info, mac)]
    else []
  }

  function BlocksKeys(cfg: Cfg, hits: seq<set<Mac>>, macs: seq<Mac>, night: bool): seq<Key>
    requires |hits| > 0
  {
    if |macs| == 0 then [] else
      BlocksKeys(cfg, hits, Front(macs), night) + BlockKeys(cfg, hits, Last(macs), night)
  }

  function CountInLastThree(hits: seq<set<Mac>>, macs: seq<Mac>): nat {
    if |macs| == 0 then 0 else
      CountInLastThree(hits, Front(macs)) + if InLastThree(hits, Last(macs)) then 1 else 0
  }

  /** The stored MACs: the first MAX_DEVICES distinct ones ever sighted. */
  function Admitted(ps: seq<Pass>): seq<Mac> {
    Take(FirstSeenOrder(AllSightings(ps)), MAX_DEVICES)
  }

  /** A quarter of the way, rounded toward where it starts. */
  function QuarterStep(from: nat, to: nat): nat {
    if from <= to then from + (to - from) / 4 else from - (from - to) / 4
  }

  function ReferenceBaseline(ps: seq<Pass>, hits: seq<set<Mac>>): Baseline
    requires |hits| == |ps|
  {
    if |ps| == 0 then None else
      var online := CountInLastThree(hits, Admitted(ps));
      var before := ReferenceBaseline(Front(ps), Front(hits));
      Some(if before.None? then online else QuarterStep(before.value, online))
  }

  function GrowthKeys(cfg: Cfg, baseline: Baseline, online: nat): seq<Key> {
    if baseline.Some? && 0 < baseline.value < online
       && 100 * (online - baseline.value) >= baseline.value * cfg.growthPct
    then [Key(DeviceGrowth, Warning, NO_MAC)] else []
  }

  /** What the latest pass logs, up to times and texts. */
  function ReferenceSlice(cfg: Cfg, ps: seq<Pass>, hits: seq<set<Mac>>): seq<Key>
    requires |hits| == |ps| > 0
  {
    BlocksKeys(cfg, hits, Admitted(ps), Night(cfg, Last(ps)))
    + GrowthKeys(cfg, ReferenceBaseline(Front(ps), Front(hits)), CountInLastThree(hits, Admitted(ps)))
  }

  /** The log of a run, up to times and texts, from per-pass presence alone. */
  function ReferenceLog(cfg: Cfg, ps: seq<Pass>, hits: seq<set<Mac>>): seq<Key>
    requires |hits| == |ps|
  {
    if |ps| == 0 then [] else ReferenceLog(cfg, Front(ps), Front(hits)) + ReferenceSlice(cfg, ps, hits)
  }

  // ---- The invariant that ties the table to the reference ----

  /** Consecutive passes, counted back from the latest, in which the MAC was not present. */
  function Streak(hits: seq<set<Mac>>, mac: Mac): nat {
    if |hits| == 0 || mac in Last(hits) then 0 else Streak(Front(hits), mac) + 1
  }

  lemma {:induction false} StreakWindows(hits: seq<set<Mac>>, mac: Mac)
    requires EverIn(hits, mac)
    ensures Streak(hits, mac) < |hits|
    ensures In(hits, mac, Streak(hits, mac))
    ensures forall a :: 0 <= a < Streak(hits, mac) ==> !In(hits, mac, a)
  {
    if mac !in Last(hits) {
      assert hits == Front(hits) + [Last(hits)];
      assert EverIn(Front(hits), mac);
      StreakWindows(Front(hits), mac);
      forall a | 0 <= a < Streak(hits, mac) ensures !In(hits, mac, a) {
        if a > 0 {
          assert !In(Front(hits), mac, a - 1);
        }
      }
    }
  }

  /** A device's miss counter, until it wraps, and its online flag in terms of the presence windows. */
  predicate Counters(hits: seq<set<Mac>>, mac: Mac, misses: nat, online: bool) {
    && (Streak(hits, mac) < TWO_TO_THE_32 ==> misses == Streak(hits, mac))
    && online == InLastThree(hits, mac)
  }

  lemma WindowsPush(hits: seq<set<Mac>>, hit: set<Mac>, mac: Mac)
    ensures var hits' := hits + [hit];
            && Front(hits') == hits && Last(hits') == hit
            && In(hits', mac, 0) == (mac in hit)
            && In(hits', mac, 1) == In(hits, mac, 0)
            && In(hits', mac, 2) == In(hits, mac, 1)
            && In(hits', mac, 3) == In(hits, mac, 2)
            && (EverIn(hits', mac) <==> EverIn(hits, mac) || mac in hit)
  {
    assert forall h :: h in hits + [hit] <==> h in hits || h == hit;
  }

  lemma {:induction false} OnlineIsShortStreak(hits: seq<set<Mac>>, mac: Mac)
    requires EverIn(hits, mac)
    ensures InLastThree(hits, mac) <==> Streak(hits, mac) < MISS_THRESHOLD
  {
    StreakWindows(hits, mac);
  }

  lemma CountersTouched(hits: seq<set<Mac>>, hit: set<Mac>, mac: Mac)
    requires mac in hit
    ensures Counters(hits + [hit], mac, 0, true)
  {
    WindowsPush(hits, hit, mac);
  }

  lemma CountersKept(hits: seq<set<Mac>>, hit: set<Mac>, mac: Mac, misses: nat, online: bool)
    requires Counters(hits, mac, misses, online) && mac in hit && In(hits, mac, 0)
    ensures Counters(hits + [hit], mac, misses, online)
  {
    WindowsPush(hits, hit, mac);
  }

  /** The wrap of the counter at 2^32 never brings a device back online. */
  lemma CountersAged(hits: seq<set<Mac>>, hit: set<Mac>, mac: Mac, misses: nat, online: bool)
    requires Counters(hits, mac, misses, online) && mac !in hit && EverIn(hits, mac)
    ensures var misses' := Increment32(misses);
            Counters(hits + [hit], mac, misses', if misses' >= MISS_THRESHOLD then false else online)
  {
    WindowsPush(hits, hit, mac);
    OnlineIsShortStreak(hits, mac);
    OnlineIsShortStreak(hits + [hit], mac);
    assert Streak(hits + [hit], mac) == Streak(hits, mac) + 1;
  }

  /** What a diff finds in a slot: its counters and flags in terms of the reference. */
  ghost predicate Found(ps: seq<Pass>, d: Device) {
    && EverIn(FreshSets(ps), d.mac)
    && Counters(FreshSets(ps), d.mac, d.missCount, d.online)
    && d.randomized == IsRandomized(d.mac)
    && SeenLast(AllSightings(ps), d)
  }

  ghost predicate SlotTracks(ps: seq<Pass>, d: Device) {
    Found(ps, d) && d.announced && d.wasOnline == d.online
  }

  /** The device remembers the second of its latest sighting. */
  ghost predicate SeenLast(ss: seq<Sighting>, d: Device) {
    && (exists s :: s in ss && s.mac == d.mac && Second(s.at) == d.lastSeen)
    && (forall s :: s in ss && s.mac == d.mac ==> Second(s.at) <= d.lastSeen)
  }

  ghost predicate Tracks(ps: seq<Pass>, t: seq<Device>) {
    && |t| <= MAX_DEVICES && Distinct(t)
    && Macs(t) == Admitted(ps)
    && forall i :: 0 <= i < |t| ==> SlotTracks(ps, t[i])
  }

  /** A MAC is present in some pass exactly when it was ever sighted. */
  lemma {:induction false} SightedIsFresh(ps: seq<Pass>, mac: Mac)
    requires WellTimed(ps)
    ensures EverIn(FreshSets(ps), mac) <==> Saw(AllSightings(ps), mac)
  {
    if |ps| > 0 {
      SightedIsFresh(Front(ps), mac);
      var hits := FreshSets(ps);
      assert Front(hits) == FreshSets(Front(ps)) && Last(hits) == FreshSet(ps);
      assert forall h :: h in hits <==> h in Front(hits) || h == Last(hits) by {
        assert hits == Front(hits) + [Last(hits)];
      }
      forall s | s in Last(ps).sightings ensures s.mac in FreshSet(ps) {
        var k :| 0 <= k < |Last(ps).sightings| && Last(ps).sightings[k] == s;
        assert s in AllSightings(ps);
      }
    }
  }

  /** Present now without a sighting in this pass: then present in the previous pass too. */
  lemma {:induction false} FreshCarriesOver(ps: seq<Pass>, mac: Mac)
    requires WellTimed(ps) && |ps| > 0 && mac in FreshSet(ps) && !Saw(Last(ps).sightings, mac)
    ensures |ps| > 1 && mac in FreshSet(Front(ps))
  {
    var s :| s in AllSightings(ps) && s.mac == mac && Second(s.at) >= Second(Last(ps).start);
    assert s in AllSightings(Front(ps));
    assert Front(ps) != [];
    assert Last(Front(ps)).start <= EndOf(Front(ps)) <= Last(ps).start;
  }

  /** Aging counts exactly the passes a stored MAC is not present in. */
  lemma {:induction false} AgeMatchesFresh(ps: seq<Pass>, d: Device)
    requires |ps| > 0 && SeenLast(AllSightings(ps), d)
    ensures d.lastSeen < Second(Last(ps).start) <==> d.mac !in FreshSet(ps)
  {
  }

  // ---- One pass, one slot ----

  lemma {:induction false} SeenLastPush(ps: seq<Pass>, d: Device)
    requires |ps| > 0 && WellTimed(ps)
    requires SeenLast(AllSightings(Front(ps)), d) || !Saw(AllSightings(Front(ps)), d.mac)
    requires Saw(Last(ps).sightings, d.mac) || SeenLast(AllSightings(Front(ps)), d)
    ensures SeenLast(AllSightings(ps), Touch(d, Last(ps).sightings))
  {
    var p, d' := Last(ps), Touch(d, Last(ps).sightings);
    assert forall s :: s in AllSightings(ps) <==> s in AllSightings(Front(ps)) || s in p.sightings;
    TouchShape(d, p.sightings);
    if Saw(p.sightings, d.mac) {
      TouchTime(d, p.sightings, p.start, p.end);
      forall s | s in AllSightings(Front(ps)) ensures Second(s.at) <= Second(p.start) {
        EarlierSightings(Front(ps), s);
      }
    }
  }

  lemma {:induction false} EarlierSightings(ps: seq<Pass>, s: Sighting)
    requires WellTimed(ps) && s in AllSightings(ps)
    ensures |ps| > 0 && s.at <= EndOf(ps)
  {
    if s in AllSightings(Front(ps)) {
      EarlierSightings(Front(ps), s);
    }
  }

  /** A slot sighted in this pass is reset, and not aged. */
  lemma {:induction false} SightedSlot(ps: seq<Pass>, d: Device)
    requires |ps| > 0 && WellTimed(ps) && Saw(Last(ps).sightings, d.mac)
    ensures var d' := Prepared(d, Last(ps));
            d' == Touch(d, Last(ps).sightings) && Counters(FreshSets(ps), d.mac, d'.missCount, d'.online)
    ensures d.mac in FreshSet(ps)
  {
    var p, d1 := Last(ps), Touch(d, Last(ps).sightings);
    TouchShape(d, p.sightings);
    TouchTime(d, p.sightings, p.start, p.end);
    var s :| s in p.sightings && s.mac == d.mac && Second(s.at) == d1.lastSeen;
    assert s in AllSightings(ps);
    CountersTouched(FreshSets(Front(ps)), FreshSet(ps), d.mac);
  }

  /** A slot still present from an earlier sighting is not aged. */
  lemma {:induction false} CarriedSlot(ps: seq<Pass>, d: Device)
    requires |ps| > 0 && WellTimed(ps) && SlotTracks(Front(ps), d) && !Saw(Last(ps).sightings, d.mac)
    requires SeenLast(AllSightings(ps), d) && d.mac in FreshSet(ps)
    ensures AgeOne(d, Second(Last(ps).start)) == d
    ensures Counters(FreshSets(ps), d.mac, d.missCount, d.online)
  {
    AgeMatchesFresh(ps, d);
    FreshCarriesOver(ps, d.mac);
    WindowsPush(FreshSets(Front(Front(ps))), FreshSet(Front(ps)), d.mac);
    CountersKept(FreshSets(Front(ps)), FreshSet(ps), d.mac, d.missCount, d.online);
  }

  /** Any other slot is aged. */
  lemma {:induction false} MissedSlot(ps: seq<Pass>, d: Device)
    requires |ps| > 0 && SlotTracks(Front(ps), d)
    requires SeenLast(AllSightings(ps), d) && d.mac !in FreshSet(ps)
    ensures var d' := AgeOne(d, Second(Last(ps).start)); Counters(FreshSets(ps), d.mac, d'.missCount, d'.online)
  {
    AgeMatchesFresh(ps, d);
    CountersAged(FreshSets(Front(ps)), FreshSet(ps), d.mac, d.missCount, d.online);
  }

  lemma {:induction false} UnsightedSlot(ps: seq<Pass>, d: Device)
    requires |ps| > 0 && WellTimed(ps) && SlotTracks(Front(ps), d) && !Saw(Last(ps).sightings, d.mac)
    requires SeenLast(AllSightings(ps), d)
    ensures var d' := AgeOne(d, Second(Last(ps).start)); Counters(FreshSets(ps), d.mac, d'.missCount, d'.online)
  {
    if d.mac in FreshSet(ps) {
      CarriedSlot(ps, d);
    } else {
      MissedSlot(ps, d);
    }
  }

  lemma AgeKeeps(d: Device, passStart: nat)
    ensures var d' := AgeOne(d, passStart);
            d' == d.(missCount := d'.missCount, online := d'.online)
  {
  }

  lemma {:induction false} OldSlot(ps: seq<Pass>, d: Device)
    requires |ps| > 0 && WellTimed(ps) && SlotTracks(Front(ps), d)
    ensures Found(ps, Prepared(d, Last(ps)))
  {
    var d1 := Touch(d, Last(ps).sightings);
    WindowsPush(FreshSets(Front(ps)), FreshSet(ps), d.mac);
    SeenLastPush(ps, d);
    TouchShape(d, Last(ps).sightings);
    AgeKeeps(d1, Second(Last(ps).start));
    if Saw(Last(ps).sightings, d.mac) {
      SightedSlot(ps, d);
    } else {
      UnsightedSlot(ps, d);
    }
  }

  lemma {:induction false} NewSlot(ps: seq<Pass>, mac: Mac)
    requires |ps| > 0 && WellTimed(ps)
    requires !Saw(AllSightings(Front(ps)), mac) && Saw(Last(ps).sightings, mac)
    ensures Found(ps, Prepared(Claimed(mac), Last(ps)))
    ensures mac in FreshSet(ps) && !EverIn(FreshSets(Front(ps)), mac)
    ensures IsNew(Prepared(Claimed(mac), Last(ps))) && Prepared(Claimed(mac), Last(ps)).vendor == ""
  {
    var p, d := Last(ps), Claimed(mac);
    WindowsPush(FreshSets(Front(ps)), FreshSet(ps), mac);
    SeenLastPush(ps, d);
    TouchShape(d, p.sightings);
    SightedSlot(ps, d);
    SightedIsFresh(Front(ps), mac);
  }

  lemma TransitionKeys(cfg: Cfg, d: Device, night: bool)
    requires d.announced
    ensures AlertKeys(Block(cfg, d, night)) ==
              if d.wasOnline && !d.online then [Key(DeviceMissing, Warning, d.mac)]
              else if !d.wasOnline && d.online then [Key(DeviceReturned, Info, d.mac)]
              else []
  {
  }

  lemma TransitionWindows(cfg: Cfg, hits: seq<set<Mac>>, hit: set<Mac>, mac: Mac, night: bool)
    requires EverIn(hits, mac)
    ensures BlockKeys(cfg, hits + [hit], mac, night) ==
              if InLastThree(hits, mac) && !InLastThree(hits + [hit], mac) then [Key(DeviceMissing, Warning, mac)]
              else if !InLastThree(hits, mac) && InLastThree(hits + [hit], mac) then [Key(DeviceReturned, Info, mac)]
              else []
  {
    WindowsPush(hits, hit, mac);
  }

  lemma {:induction false} BlockOfOld(cfg: Cfg, ps: seq<Pass>, d: Device, night: bool)
    requires |ps| > 0 && Found(ps, d) && EverIn(FreshSets(Front(ps)), d.mac)
    requires d.announced && d.wasOnline == InLastThree(FreshSets(Front(ps)), d.mac)
    ensures AlertKeys(Block(cfg, d, night)) == BlockKeys(cfg, FreshSets(ps), d.mac, night)
    ensures SlotTracks(ps, Settle(cfg, d))
  {
    TransitionKeys(cfg, d, night);
    TransitionWindows(cfg, FreshSets(Front(ps)), FreshSet(ps), d.mac, night);
  }

  lemma IntroductionKeys(cfg: Cfg, d: Device, night: bool)
    requires d.vendor == "" && d.randomized == IsRandomized(d.mac) && !Suppressed(cfg, d)
    ensures AlertKeys(Introduction(WithVendor(cfg, d), night)) == IntroKeys(cfg, d.mac, night)
  {
  }

  lemma {:induction false} BlockOfNew(cfg: Cfg, ps: seq<Pass>, d: Device, night: bool)
    requires |ps| > 0 && Found(ps, d) && !EverIn(FreshSets(Front(ps)), d.mac)
    requires IsNew(d) && d.vendor == ""
    ensures AlertKeys(Block(cfg, d, night)) == BlockKeys(cfg, FreshSets(ps), d.mac, night)
    ensures SlotTracks(ps, Settle(cfg, d))
  {
    WindowsPush(FreshSets(Front(ps)), FreshSet(ps), d.mac);
    NewDeviceKeys(cfg, d, night);
    SettledNew(cfg, d);
    hide Block, IntroKeys, Settle, IsNew;
  }

  lemma NewDeviceKeys(cfg: Cfg, d: Device, night: bool)
    requires IsNew(d) && d.vendor == "" && d.randomized == IsRandomized(d.mac)
    ensures AlertKeys(Block(cfg, d, night)) == IntroKeys(cfg, d.mac, night)
  {
    if Suppressed(cfg, d) {
      SuppressedKeys(cfg, d, night);
    } else {
      IntroductionKeys(cfg, d, night);
    }
    hide Introduction, IntroKeys, WithVendor;
  }

  lemma SuppressedKeys(cfg: Cfg, d: Device, night: bool)
    requires d.randomized == IsRandomized(d.mac) && Suppressed(cfg, d)
    ensures IntroKeys(cfg, d.mac, night) == []
  {
  }

  lemma SettledNew(cfg: Cfg, d: Device)
    requires IsNew(d)
    ensures var e := Settle(cfg, d); e == d.(vendor := e.vendor, announced := true, wasOnline := true) && e.online
  {
  }

  // ---- One pass, the whole table ----

  lemma AdmittedGrows(ps: seq<Pass>, t: seq<Device>)
    requires |ps| > 0 && Tracks(Front(ps), t)
    ensures Macs(Discovered(t, Last(ps))) == Admitted(ps)
    ensures forall i :: |t| <= i < |Admitted(ps)| ==>
                          !Saw(AllSightings(Front(ps)), Admitted(ps)[i]) && Saw(Last(ps).sightings, Admitted(ps)[i])
  {
    var ss0, p := AllSightings(Front(ps)), Last(ps);
    HarvestMacs(ss0, t, p.sightings);
    DiscoveredSlots(t, p);
    forall i | |t| <= i < |Admitted(ps)|
      ensures !Saw(ss0, Admitted(ps)[i]) && Saw(p.sightings, Admitted(ps)[i])
    {
      NewInOrder(ss0, p.sightings, i);
    }
  }

  /** The stored MACs beyond those of the earlier sightings are all from the later ones. */
  lemma {:induction false} NewInOrder(a: seq<Sighting>, b: seq<Sighting>, i: nat)
    requires |Take(FirstSeenOrder(a), MAX_DEVICES)| <= i < |Take(FirstSeenOrder(a + b), MAX_DEVICES)|
    ensures var mac := Take(FirstSeenOrder(a + b), MAX_DEVICES)[i]; !Saw(a, mac) && Saw(b, mac)
  {
    var order, order' := FirstSeenOrder(a), FirstSeenOrder(a + b);
    OrderGrows(a, b);
    var mac := order'[i];
    forall k | 0 <= k < |order| ensures order[k] != mac {
      assert order'[..|order|][k] == order'[k];
    }
    assert mac !in order && mac in order';
    SawAppend(a, b, mac);
  }

  lemma SawAppend(a: seq<Sighting>, b: seq<Sighting>, mac: Mac)
    ensures Saw(a + b, mac) <==> Saw(a, mac) || Saw(b, mac)
  {
    assert forall s :: s in a + b <==> s in a || s in b;
  }

  lemma {:induction false} OrderGrows(a: seq<Sighting>, b: seq<Sighting>)
    ensures |FirstSeenOrder(a)| <= |FirstSeenOrder(a + b)|
    ensures FirstSeenOrder(a + b)[..|FirstSeenOrder(a)|] == FirstSeenOrder(a)
  {
    if |b| == 0 {
      assert a + b == a;
    } else {
      OrderGrows(a, Front(b));
      assert Front(a + b) == a + Front(b);
    }
  }

  lemma {:induction false} BlocksMatch(cfg: Cfg, hits: seq<set<Mac>>, t: seq<Device>, night: bool)
    requires |hits| > 0
    requires forall i :: 0 <= i < |t| ==> AlertKeys(Block(cfg, t[i], night)) == BlockKeys(cfg, hits, t[i].mac, night)
    ensures AlertKeys(Blocks(cfg, t, night)) == BlocksKeys(cfg, hits, Macs(t), night)
  {
    if |t| > 0 {
      BlocksMatch(cfg, hits, Front(t), night);
      assert Macs(Front(t)) == Front(Macs(t)) && Last(Macs(t)) == Last(t).mac;
      AlertKeysAppend(Blocks(cfg, Front(t), night), Block(cfg, Last(t), night));
    }
  }

  lemma AlertKeysAppend(a: seq<Alert>, b: seq<Alert>)
    ensures AlertKeys(a + b) == AlertKeys(a) + AlertKeys(b)
  {
  }

  lemma {:induction false} OnlineMatches(hits: seq<set<Mac>>, t: seq<Device>)
    requires forall i :: 0 <= i < |t| ==> t[i].online == InLastThree(hits, t[i].mac)
    ensures OnlineCount(t) == CountInLastThree(hits, Macs(t))
  {
    if |t| > 0 {
      OnlineMatches(hits, Front(t));
      assert Macs(Front(t)) == Front(Macs(t)) && Last(Macs(t)) == Last(t).mac;
    }
  }

  /** Every slot of the table a diff finds logs its reference block and settles into the invariant. */
  lemma {:induction false} SlotMatches(cfg: Cfg, ps: seq<Pass>, t: seq<Device>, i: nat)
    requires |ps| > 0 && WellTimed(ps) && Tracks(Front(ps), t)
    requires i < |Discovered(t, Last(ps))|
    ensures var d := Discovered(t, Last(ps))[i];
            && AlertKeys(Block(cfg, d, Night(cfg, Last(ps)))) ==
                 BlockKeys(cfg, FreshSets(ps), d.mac, Night(cfg, Last(ps)))
            && SlotTracks(ps, Settle(cfg, d))
  {
    var p := Last(ps);
    DiscoveredSlots(t, p);
    AdmittedGrows(ps, t);
    var d := Discovered(t, p)[i];
    if i < |t| {
      OldSlot(ps, t[i]);
      TouchShape(t[i], p.sightings);
      BlockOfOld(cfg, ps, d, Night(cfg, p));
    } else {
      assert Macs(Discovered(t, p))[i] == d.mac;
      NewSlot(ps, d.mac);
      BlockOfNew(cfg, ps, d, Night(cfg, p));
    }
  }

  lemma SettledMacs(cfg: Cfg, t: seq<Device>)
    ensures Macs(SettleAll(cfg, t)) == Macs(t)
  {
    forall i | 0 <= i < |t| ensures SettleAll(cfg, t)[i].mac == t[i].mac {
      SettleKeepsMac(cfg, t[i]);
    }
  }

  lemma SettleKeepsMac(cfg: Cfg, d: Device)
    ensures Settle(cfg, d).mac == d.mac
  {
  }

  lemma SameMacsDistinct(t: seq<Device>, t': seq<Device>)
    requires Macs(t) == Macs(t') && Distinct(t)
    ensures |t| == |t'| && Distinct(t')
  {
    assert |t| == |Macs(t')| == |t'|;
    forall i | 0 <= i < |t'| ensures t'[i].mac == t[i].mac {
      assert Macs(t)[i] == Macs(t')[i];
    }
  }

  lemma {:induction false} SettledTable(cfg: Cfg, ps: seq<Pass>, t: seq<Device>)
    requires |ps| > 0 && WellTimed(ps) && Tracks(Front(ps), t)
    ensures Tracks(ps, SettleAll(cfg, Discovered(t, Last(ps))))
  {
    var t1 := Discovered(t, Last(ps));
    var t' := SettleAll(cfg, t1);
    DiscoveredSlots(t, Last(ps));
    AdmittedGrows(ps, t);
    SettledMacs(cfg, t1);
    HarvestSlots(t, Last(ps).sightings);
    SameMacsDistinct(HarvestAll(t, Last(ps).sightings), t');
    forall i | 0 <= i < |t'| ensures SlotTracks(ps, t'[i]) {
      SlotMatches(cfg, ps, t, i);
    }
  }

  lemma {:induction false} TrackedOnline(ps: seq<Pass>, t: seq<Device>)
    requires Tracks(ps, t)
    ensures OnlineCount(t) == CountInLastThree(FreshSets(ps), Admitted(ps))
  {
    forall i | 0 <= i < |t| ensures t[i].online == InLastThree(FreshSets(ps), t[i].mac) {
      assert SlotTracks(ps, t[i]);
    }
    OnlineMatches(FreshSets(ps), t);
  }

  lemma StampedKeys(log: seq<Event>, alerts: seq<Alert>, stamps: seq<nat>)
    requires |stamps| == |alerts|
    ensures LogKeys(log + Stamp(alerts, stamps)) == LogKeys(log) + AlertKeys(alerts)
  {
  }

  lemma GrowthMatches(cfg: Cfg, baseline: Baseline, online: nat)
    ensures AlertKeys(GrowthAlerts(cfg, baseline, online)) == GrowthKeys(cfg, baseline, online)
  {
  }

  lemma {:induction false} TableBlocksMatch(cfg: Cfg, ps: seq<Pass>, t: seq<Device>)
    requires |ps| > 0 && WellTimed(ps) && Tracks(Front(ps), t)
    ensures AlertKeys(Blocks(cfg, Discovered(t, Last(ps)), Night(cfg, Last(ps)))) ==
              BlocksKeys(cfg, FreshSets(ps), Admitted(ps), Night(cfg, Last(ps)))
  {
    var t1, night := Discovered(t, Last(ps)), Night(cfg, Last(ps));
    AdmittedGrows(ps, t);
    forall i | 0 <= i < |t1|
      ensures AlertKeys(Block(cfg, t1[i], night)) == BlockKeys(cfg, FreshSets(ps), t1[i].mac, night)
    {
      SlotMatches(cfg, ps, t, i);
    }
    BlocksMatch(cfg, FreshSets(ps), t1, night);
  }

  /** One pass logs its reference slice. */
  lemma {:induction false} SliceMatches(cfg: Cfg, ps: seq<Pass>, s: State)
    requires |ps| > 0 && WellTimed(ps) && Tracks(Front(ps), s.table)
    requires s.baseline == ReferenceBaseline(Front(ps), FreshSets(Front(ps)))
    ensures AlertKeys(Alerts(cfg, s, Last(ps))) == ReferenceSlice(cfg, ps, FreshSets(ps))
  {
    assert Front(FreshSets(ps)) == FreshSets(Front(ps));
    var t1, night := Discovered(s.table, Last(ps)), Night(cfg, Last(ps));
    SettledTable(cfg, ps, s.table);
    TrackedOnline(ps, SettleAll(cfg, t1));
    TableBlocksMatch(cfg, ps, s.table);
    var online := OnlineCount(SettleAll(cfg, t1));
    GrowthMatches(cfg, s.baseline, online);
    AlertKeysAppend(Blocks(cfg, t1, night), GrowthAlerts(cfg, s.baseline, online));
  }

  /**
   * Whole-run refinement. After any well-timed run the table holds exactly the admitted MACs in order
   * of first sight, the baseline is the reference baseline, and the log is the reference log.
   */
  lemma {:induction false} RunMatchesReference(cfg: Cfg, ps: seq<Pass>)
    requires WellTimed(ps)
    ensures Tracks(ps, Run(cfg, ps).table)
    ensures Run(cfg, ps).baseline == ReferenceBaseline(ps, FreshSets(ps))
    ensures LogKeys(Run(cfg, ps).log) == ReferenceLog(cfg, ps, FreshSets(ps))
  {
    if |ps| > 0 {
      var s, p := Run(cfg, Front(ps)), Last(ps);
      RunMatchesReference(cfg, Front(ps));
      SettledTable(cfg, ps, s.table);
      TrackedOnline(ps, SettleAll(cfg, Discovered(s.table, p)));
      SliceMatches(cfg, ps, s);
      var alerts := Alerts(cfg, s, p);
      StampedKeys(s.log, alerts, Readings(p, |alerts|));
      assert Front(FreshSets(ps)) == FreshSets(Front(ps));
    }
  }

  /** The latest pass of a run logs its reference slice. */
  lemma {:induction false} SliceOfRun(cfg: Cfg, ps: seq<Pass>)
    requires |ps| > 0 && WellTimed(ps)
    ensures AlertKeys(Alerts(cfg, Run(cfg, Front(ps)), Last(ps))) == ReferenceSlice(cfg, ps, FreshSets(ps))
  {
    RunMatchesReference(cfg, Front(ps));
    SliceMatches(cfg, ps, Run(cfg, Front(ps)));
  }
}
