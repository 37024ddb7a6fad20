/**
 * What a stored device remembers after any run, in terms of all its sightings: where and when it was last
 * seen, when it was first seen, and whose device it is.
 */
module Memory {
  import opened Prelude
  import opened Inventory
  import opened Discovery
  import opened Anomaly
  import opened Spine
  import opened Presence
  import Oui

  /** Sighting `i` is the latest one of the MAC. */
  ghost predicate Latest(ss: seq<Sighting>, i: int, mac: Mac) {
    0 <= i < |ss| && ss[i].mac == mac && forall j :: i < j < |ss| ==> ss[j].mac != mac
  }

  /** The device holds the address and the second of its latest sighting. */
  ghost predicate LastSeenWhere(ss: seq<Sighting>, d: Device) {
    exists i :: Latest(ss, i, d.mac) && d.ip == ss[i].ip && d.lastSeen == Second(ss[i].at)
  }

  /** First seen is the earliest second, other than zero, of a sighting of the device. */
  ghost predicate FirstSeenWhen(ss: seq<Sighting>, d: Device) {
    && (d.firstSeen > 0 ==> exists s :: s in ss && s.mac == d.mac && Second(s.at) == d.firstSeen)
    && (forall s :: s in ss && s.mac == d.mac && s.at >= 1_000_000 ==> 0 < d.firstSeen <= Second(s.at))
  }

  predicate InTime(ss: seq<Sighting>) {
    forall i, j :: 0 <= i < j < |ss| ==> ss[i].at <= ss[j].at
  }

  /** One more sighting, of any device. */
  lemma LastSeenStep(ss: seq<Sighting>, d: Device, s: Sighting)
    ensures s.mac == d.mac ==> LastSeenWhere(ss + [s], Refresh(d, s.ip, Second(s.at)))
    ensures s.mac != d.mac && LastSeenWhere(ss, d) ==> LastSeenWhere(ss + [s], d)
  {
    var ss' := ss + [s];
    if s.mac == d.mac {
      assert Latest(ss', |ss|, d.mac);
    } else if LastSeenWhere(ss, d) {
      var i :| Latest(ss, i, d.mac) && d.ip == ss[i].ip && d.lastSeen == Second(ss[i].at);
      assert Latest(ss', i, d.mac);
    }
  }

  lemma FirstSeenStep(ss: seq<Sighting>, d: Device, s: Sighting)
    requires InTime(ss + [s]) && FirstSeenWhen(ss, d)
    ensures FirstSeenWhen(ss + [s], if s.mac == d.mac then Refresh(d, s.ip, Second(s.at)) else d)
  {
    var ss' := ss + [s];
    var d' := if s.mac == d.mac then Refresh(d, s.ip, Second(s.at)) else d;
    assert s in ss' && forall x :: x in ss' <==> x in ss || x == s;
    forall x | x in ss && x.mac == d.mac && x.at >= 1_000_000 ensures 0 < d'.firstSeen <= Second(x.at) {
      assert 0 < d.firstSeen <= Second(x.at);
    }
    if s.mac == d.mac && d.firstSeen > 0 {
      var x :| x in ss && x.mac == d.mac && Second(x.at) == d.firstSeen;
      var k :| 0 <= k < |ss| && ss[k] == x;
      assert ss'[k].at <= ss'[|ss|].at;
    }
  }

  lemma {:induction false} TouchRemembers(ss0: seq<Sighting>, d: Device, ss: seq<Sighting>)
    requires InTime(ss0 + ss) && FirstSeenWhen(ss0, d)
    ensures FirstSeenWhen(ss0 + ss, Touch(d, ss))
    ensures LastSeenWhere(ss0, d) || Saw(ss, d.mac) ==> LastSeenWhere(ss0 + ss, Touch(d, ss))
  {
    hide FirstSeenWhen, LastSeenWhere, Refresh;
    if |ss| == 0 {
      assert ss0 + ss == ss0;
    } else {
      var before := ss0 + Front(ss);
      assert ss0 + ss == before + [Last(ss)];
      InTimePrefix(before, Last(ss));
      TouchRemembers(ss0, d, Front(ss));
      LastSeenStep(before, Touch(d, Front(ss)), Last(ss));
      FirstSeenStep(before, Touch(d, Front(ss)), Last(ss));
      SawPush(ss, d.mac);
    }
  }

  lemma InTimePrefix(ss: seq<Sighting>, s: Sighting)
    requires InTime(ss + [s])
    ensures InTime(ss)
  {
    var ss' := ss + [s];
    assert forall i :: 0 <= i < |ss| ==> ss'[i] == ss[i];
  }

  lemma {:induction false} RunInTime(ps: seq<Pass>)
    requires WellTimed(ps)
    ensures InTime(AllSightings(ps))
  {
    if |ps| > 0 {
      RunInTime(Front(ps));
      var a, all := AllSightings(Front(ps)), AllSightings(ps);
      forall i, j | 0 <= i < j < |all| ensures all[i].at <= all[j].at {
        if i < |a| {
          EarlierSightings(Front(ps), a[i]);
        }
      }
    }
  }

  /** The vendor of a stored device: looked up when it was announced, and left empty when it never was. */
  predicate VendorKnown(cfg: Cfg, d: Device) {
    d.vendor == if d.mac[0] % 4 >= 2 && !cfg.alertRandomized then "" else Oui.LookupText(cfg.db, d.mac, 48)
  }

  ghost predicate Knows(cfg: Cfg, ss: seq<Sighting>, d: Device) {
    LastSeenWhere(ss, d) && FirstSeenWhen(ss, d) && VendorKnown(cfg, d)
  }

  lemma SettleKeepsTimes(cfg: Cfg, d: Device, d': Device, passStart: nat)
    requires SameButName(AgeOne(d, passStart), d')
    ensures var e := Settle(cfg, d');
            e.mac == d.mac && e.ip == d.ip && e.lastSeen == d.lastSeen && e.firstSeen == d.firstSeen
  {
    AgeKeeps(d, passStart);
    hide AgeOne;
  }

  /** Naming, aging and settling leave the sightings alone. */
  lemma SettledFacts(cfg: Cfg, ss: seq<Sighting>, d: Device, d': Device, passStart: nat)
    requires SameButName(AgeOne(d, passStart), d')
    ensures var e := Settle(cfg, d');
            && e.mac == d.mac
            && (LastSeenWhere(ss, d) ==> LastSeenWhere(ss, e))
            && (FirstSeenWhen(ss, d) ==> FirstSeenWhen(ss, e))
  {
    var e := Settle(cfg, d');
    SettleKeepsTimes(cfg, d, d', passStart);
    hide Settle, AgeOne, SameButName;
    if LastSeenWhere(ss, d) {
      var i :| Latest(ss, i, d.mac) && d.ip == ss[i].ip && d.lastSeen == Second(ss[i].at);
      assert Latest(ss, i, e.mac);
    }
  }

  lemma {:induction false} VendorOfOld(cfg: Cfg, d: Device, ss: seq<Sighting>, d': Device, passStart: nat)
    requires VendorKnown(cfg, d) && d.announced && SameButName(AgeOne(Touch(d, ss), passStart), d')
    ensures VendorKnown(cfg, Settle(cfg, d'))
  {
    TouchShape(d, ss);
  }

  lemma VendorOfNew(cfg: Cfg, d: Device)
    requires IsNew(d) && d.vendor == "" && d.randomized == IsRandomized(d.mac)
    ensures VendorKnown(cfg, Settle(cfg, d))
  {
  }

  lemma {:induction false} KnowsOld(cfg: Cfg, ps: seq<Pass>, d: Device, d': Device)
    requires |ps| > 0 && WellTimed(ps) && Knows(cfg, AllSightings(Front(ps)), d) && d.announced
    requires SameButName(Prepared(d, Last(ps)), d')
    ensures Knows(cfg, AllSightings(ps), Settle(cfg, d'))
  {
    hide LastSeenWhere, FirstSeenWhen, Settle, AgeOne, VendorKnown, SameButName;
    var p := Last(ps);
    RunInTime(ps);
    TouchRemembers(AllSightings(Front(ps)), d, p.sightings);
    SettledFacts(cfg, AllSightings(ps), Touch(d, p.sightings), d', Second(p.start));
    VendorOfOld(cfg, d, p.sightings, d', Second(p.start));
  }

  lemma {:induction false} KnowsNew(cfg: Cfg, ps: seq<Pass>, mac: Mac, d': Device)
    requires |ps| > 0 && WellTimed(ps)
    requires !Saw(AllSightings(Front(ps)), mac) && Saw(Last(ps).sightings, mac)
    requires SameButName(Prepared(Claimed(mac), Last(ps)), d')
    ensures Knows(cfg, AllSightings(ps), Settle(cfg, d'))
  {
    var p, ss0, d := Last(ps), AllSightings(Front(ps)), Claimed(mac);
    assert FirstSeenWhen(ss0, d);
    hide LastSeenWhere, FirstSeenWhen, Settle, AgeOne, VendorKnown;
    RunInTime(ps);
    TouchRemembers(ss0, d, p.sightings);
    SettledFacts(cfg, AllSightings(ps), Touch(d, p.sightings), d', Second(p.start));
    NewSlot(ps, mac);
    VendorOfNew(cfg, d');
  }

  /**
   * After every run each stored device holds the address and second of its latest sighting, the first
   * second it was seen in, and the registry's text for its MAC unless it is a suppressed private address.
   */
  lemma {:induction false} RunRemembers(cfg: Cfg, ps: seq<Pass>)
    requires WellTimed(ps)
    ensures forall i :: 0 <= i < |Run(cfg, ps).table| ==> Knows(cfg, AllSightings(ps), Run(cfg, ps).table[i])
  {
    if |ps| > 0 {
      hide Knows, Found, Counters;
      var t, p := Run(cfg, Front(ps)).table, Last(ps);
      RunRemembers(cfg, Front(ps));
      RunMatchesReference(cfg, Front(ps));
      DiscoveredSlots(t, p);
      AdmittedGrows(ps, t);
      var t1 := Discovered(t, p);
      forall i | 0 <= i < |t1| ensures Knows(cfg, AllSightings(ps), Settle(cfg, t1[i])) {
        if i < |t| {
          assert SlotTracks(Front(ps), t[i]);
          KnowsOld(cfg, ps, t[i], t1[i]);
        } else {
          assert Macs(t1)[i] == t1[i].mac;
          KnowsNew(cfg, ps, t1[i].mac, t1[i]);
        }
      }
    }
  }
}
