/** The appliance as a state machine over completed passes: discovery, then diff, then forwarding. */
module Spine {
  import opened Prelude
  import opened Inventory
  import opened Discovery
  import opened Anomaly
  import Wire

  const FORWARD_MAX := 64

  /** Everything the outside world contributes to one completed pass; times are microseconds. */
  datatype Pass = Pass(
    start: nat,
    sightings: seq<Sighting>,
    names: seq<NameHit>,
    hour: Byte,
    stamps: seq<nat>,
    end: nat)

  datatype State = State(
    table: seq<Device>,
    log: seq<Event>,
    baseline: Baseline,
    watermark: nat,
    offered: seq<Event>)

  const BOOT := State([], [], None, 0, [])

  /** The table a diff finds: harvested, named and aged. */
  function Discovered(t: seq<Device>, p: Pass): seq<Device> {
    AgeAll(ApplyNames(HarvestAll(t, p.sightings), p.names), Second(p.start))
  }

  predicate Night(cfg: Cfg, p: Pass) {
    IsNight(p.hour, cfg.nightStart, cfg.nightEnd)
  }

  function Alerts(cfg: Cfg, s: State, p: Pass): seq<Alert> {
    DiffAlerts(cfg, Discovered(s.table, p), Night(cfg, p), s.baseline)
  }

  function ReadingAt(p: Pass, i: nat): nat {
    if i < |p.stamps| then p.stamps[i] else p.end
  }

  /** The clock readings of `n` log entries of a pass. */
  function Readings(p: Pass, n: nat): (r: seq<nat>)
    ensures |r| == n
  {
    seq(n, i requires 0 <= i < n => ReadingAt(p, i))
  }

  /** What a pass appends to the log. */
  function Entries(cfg: Cfg, s: State, p: Pass): seq<Event> {
    var alerts := Alerts(cfg, s, p);
    Stamp(alerts, Readings(p, |alerts|))
  }

  // ---- Forwarding past a watermark ----

  /** The entries stamped after the watermark, in order. */
  function Newer(es: seq<Event>, watermark: nat): seq<Event> {
    if |es| == 0 then [] else
      Newer(Front(es), watermark) + if Last(es).ts > watermark then [Last(es)] else []
  }

  function LatestStamp(es: seq<Event>, watermark: nat): (latest: nat)
    ensures latest >= watermark
  {
    if |es| == 0 then watermark else Max(LatestStamp(Front(es), watermark), Last(es).ts)
  }

  // ---- Runs ----

  function RunPass(cfg: Cfg, s: State, p: Pass): State {
    var t := SettleAll(cfg, Discovered(s.table, p));
    var log := s.log + Entries(cfg, s, p);
    var recent := Newest(log, FORWARD_MAX);
    State(t, log, Some(NextBaseline(s.baseline, OnlineCount(t))),
          LatestStamp(recent, s.watermark), s.offered + Newer(recent, s.watermark))
  }

  function Run(cfg: Cfg, ps: seq<Pass>): State {
    if |ps| == 0 then BOOT else RunPass(cfg, Run(cfg, Front(ps)), Last(ps))
  }

  /** The readings of one pass are in order, and its final drain separates its start from its log entries. */
  predicate PassTimed(p: Pass, earliest: nat) {
    && earliest <= p.start
    && Sighted(p.sightings, p.start, p.end)
    && Timed(p.stamps, p.start + MICROS_PER_SECOND, p.end)
  }

  function EndOf(ps: seq<Pass>): nat {
    if |ps| == 0 then 0 else Last(ps).end
  }

  predicate WellTimed(ps: seq<Pass>) {
    |ps| > 0 ==> WellTimed(Front(ps)) && PassTimed(Last(ps), EndOf(Front(ps)))
  }

  lemma {:induction false} RunPush(cfg: Cfg, ps: seq<Pass>, p: Pass)
    ensures Run(cfg, ps + [p]) == RunPass(cfg, Run(cfg, ps), p)
    ensures WellTimed(ps) && PassTimed(p, EndOf(ps)) ==> WellTimed(ps + [p])
    ensures EndOf(ps + [p]) == p.end
  {
    assert Front(ps + [p]) == ps;
  }

  // ---- What a pass does to one slot ----

  predicate Saw(ss: seq<Sighting>, mac: Mac) {
    exists s :: s in ss && s.mac == mac
  }

  /** The effect of a list of sightings on the device of one MAC. */
  function Touch(d: Device, ss: seq<Sighting>): (d': Device)
    ensures d'.mac == d.mac
  {
    if |ss| == 0 then d else
      var d' := Touch(d, Front(ss));
      if Last(ss).mac == d.mac then Refresh(d', Last(ss).ip, Second(Last(ss).at)) else d'
  }

  /** The MACs of a list of sightings, each once, in the order of first sight. */
  function FirstSeenOrder(ss: seq<Sighting>): (ms: seq<Mac>)
    ensures forall i, j :: 0 <= i < j < |ms| ==> ms[i] != ms[j]
    ensures forall mac :: mac in ms <==> Saw(ss, mac)
  {
    if |ss| == 0 then [] else
      var ms := FirstSeenOrder(Front(ss));
      assert ss == Front(ss) + [Last(ss)];
      assert forall s :: s in ss <==> s in Front(ss) || s == Last(ss);
      if Last(ss).mac in ms then ms else ms + [Last(ss).mac]
  }

  lemma {:induction false} HarvestStep(t: seq<Device>, s: Sighting)
    requires Distinct(t) && |t| <= MAX_DEVICES
    ensures var t', i := Harvest(t, s), IndexOf(t, s.mac);
            && (i < |t| ==> t' == t[i := Refresh(t[i], s.ip, Second(s.at))])
            && (i == |t| < MAX_DEVICES ==> t' == t + [Refresh(Claimed(s.mac), s.ip, Second(s.at))])
            && (i == |t| == MAX_DEVICES ==> t' == t)
    ensures Distinct(Harvest(t, s)) && |Harvest(t, s)| <= MAX_DEVICES
  {
    if IndexOf(t, s.mac) == |t| < MAX_DEVICES {
      HarvestNew(t, s.mac, s.ip, Second(s.at));
    }
  }

  lemma {:induction false} HarvestNew(t: seq<Device>, mac: Mac, ip: nat, now: nat)
    requires IndexOf(t, mac) == |t|
    ensures var t1 := t + [Claimed(mac)];
            && IndexOf(t1, mac) == |t|
            && t1[|t| := Refresh(t1[|t|], ip, now)] == t + [Refresh(Claimed(mac), ip, now)]
  {
    ReplacePushed(t, Claimed(mac), Refresh(Claimed(mac), ip, now));
    IndexOfPushed(t, Claimed(mac));
  }

  lemma {:induction false} IndexOfPushed(t: seq<Device>, d: Device)
    requires IndexOf(t, d.mac) == |t|
    ensures IndexOf(t + [d], d.mac) == |t|
  {
    var t1 := t + [d];
    assert t1[|t|].mac == d.mac;
    assert forall k :: 0 <= k < |t| ==> t1[k] == t[k];
  }

  /** While there is room, every sighted MAC is stored. */
  lemma {:induction false} HarvestStores(t: seq<Device>, ss: seq<Sighting>)
    requires Distinct(t) && |t| <= MAX_DEVICES
    ensures var t' := HarvestAll(t, ss);
            && |t| <= |t'| <= MAX_DEVICES && Distinct(t')
            && (forall i :: 0 <= i < |t| ==> t'[i].mac == t[i].mac)
            && (|t'| < MAX_DEVICES ==> forall s :: s in ss ==> IndexOf(t', s.mac) < |t'|)
  {
    if |ss| > 0 {
      HarvestStores(t, Front(ss));
      var t1, s := HarvestAll(t, Front(ss)), Last(ss);
      HarvestStep(t1, s);
      var t' := HarvestAll(t, ss);
      assert forall i :: 0 <= i < |t1| ==> t'[i].mac == t1[i].mac;
      forall x | x in ss && |t'| < MAX_DEVICES ensures IndexOf(t', x.mac) < |t'| {
        if x in Front(ss) {
          assert t'[IndexOf(t1, x.mac)].mac == x.mac;
        } else {
          assert x == s;
          assert IndexOf(t1, s.mac) == |t1| ==> t'[|t1|].mac == s.mac;
          assert IndexOf(t1, s.mac) < |t1| ==> t'[IndexOf(t1, s.mac)].mac == s.mac;
        }
      }
    }
  }

  /** Harvesting changes each slot by its own sightings only; a new slot starts out zeroed. */
  lemma {:induction false} HarvestSlots(t: seq<Device>, ss: seq<Sighting>)
    requires Distinct(t) && |t| <= MAX_DEVICES
    ensures var t' := HarvestAll(t, ss);
            && |t| <= |t'| <= MAX_DEVICES && Distinct(t')
            && (forall i :: 0 <= i < |t| ==> t'[i] == Touch(t[i], ss))
            && (forall i :: |t| <= i < |t'| ==> t'[i] == Touch(Claimed(t'[i].mac), ss))
  {
    if |ss| > 0 {
      HarvestSlots(t, Front(ss));
      HarvestStores(t, Front(ss));
      var t1, s := HarvestAll(t, Front(ss)), Last(ss);
      HarvestStep(t1, s);
      if IndexOf(t1, s.mac) == |t1| && |t1| < MAX_DEVICES {
        UntouchedBy(Claimed(s.mac), Front(ss));
      }
      hide Harvest, Refresh, Claimed;
      var t' := HarvestAll(t, ss);
      assert t' == Harvest(t1, s);
      forall i | 0 <= i < |t'| ensures t'[i] == Touch(if i < |t| then t[i] else Claimed(t'[i].mac), ss) {
        if i < |t1| {
          assert i != IndexOf(t1, s.mac) ==> t1[i].mac != s.mac;
        }
      }
    }
  }

  lemma {:induction false} UntouchedBy(d: Device, ss: seq<Sighting>)
    requires forall s :: s in ss ==> s.mac != d.mac
    ensures Touch(d, ss) == d
  {
    if |ss| > 0 {
      assert Last(ss) in ss;
      UntouchedBy(d, Front(ss));
    }
  }

  lemma AdmitMacs(t: seq<Device>, s: Sighting)
    ensures Macs(Harvest(t, s)) == if s.mac in Macs(t) || |t| >= MAX_DEVICES then Macs(t) else Macs(t) + [s.mac]
  {
    var i := IndexOf(t, s.mac);
    if i < |t| {
      assert Macs(t)[i] == s.mac;
    } else {
      assert forall k :: 0 <= k < |t| ==> Macs(t)[k] == t[k].mac != s.mac;
    }
  }

  /** Cutting to the table's size: a further MAC is kept while there is room. */
  lemma TakeGrows(order: seq<Mac>, mac: Mac)
    ensures var kept := Take(order, MAX_DEVICES);
            && (|kept| < MAX_DEVICES ==> kept == order && Take(order + [mac], MAX_DEVICES) == order + [mac])
            && (|kept| >= MAX_DEVICES ==> Take(order + [mac], MAX_DEVICES) == kept)
            && (mac in kept ==> mac in order)
  {
  }

  /** The stored keys are the first MAX_DEVICES distinct MACs ever sighted, in order of first sight. */
  lemma {:induction false} HarvestMacs(ss0: seq<Sighting>, t: seq<Device>, ss: seq<Sighting>)
    requires Macs(t) == Take(FirstSeenOrder(ss0), MAX_DEVICES)
    ensures Macs(HarvestAll(t, ss)) == Take(FirstSeenOrder(ss0 + ss), MAX_DEVICES)
  {
    if |ss| == 0 {
      assert ss0 + ss == ss0;
    } else {
      HarvestMacs(ss0, t, Front(ss));
      assert Front(ss0 + ss) == ss0 + Front(ss);
      var order := FirstSeenOrder(ss0 + Front(ss));
      AdmitMacs(HarvestAll(t, Front(ss)), Last(ss));
      hide Harvest, Macs;
      TakeGrows(order, Last(ss).mac);
    }
  }

  /** The same device, up to what a sighting changes. */
  predicate Refreshed(d: Device, d': Device) {
    d' == d.(ip := d'.ip, firstSeen := d'.firstSeen, lastSeen := d'.lastSeen,
             online := d'.online, missCount := d'.missCount)
  }

  lemma RefreshShape(d: Device, d1: Device, s: Sighting)
    requires Refreshed(d, d1)
    ensures var d' := Refresh(d1, s.ip, Second(s.at)); Refreshed(d, d') && d'.online && d'.missCount == 0
  {
  }

  lemma SawPush(ss: seq<Sighting>, mac: Mac)
    requires |ss| > 0
    ensures Saw(ss, mac) <==> Saw(Front(ss), mac) || Last(ss).mac == mac
  {
    assert forall x :: x in ss <==> x in Front(ss) || x == Last(ss);
  }

  /** A sighting refreshes a device; otherwise it is left alone. */
  lemma {:induction false} TouchShape(d: Device, ss: seq<Sighting>)
    ensures Refreshed(d, Touch(d, ss))
    ensures Saw(ss, d.mac) ==> Touch(d, ss).online && Touch(d, ss).missCount == 0
    ensures !Saw(ss, d.mac) ==> Touch(d, ss) == d
  {
    if |ss| > 0 {
      TouchShape(d, Front(ss));
      SawPush(ss, d.mac);
      RefreshShape(d, Touch(d, Front(ss)), Last(ss));
    }
  }

  /** A sighted device remembers the second of its latest sighting. */
  lemma {:induction false} TouchTime(d: Device, ss: seq<Sighting>, from: nat, to: nat)
    requires Sighted(ss, from, to) && Saw(ss, d.mac)
    ensures Touch(d, ss).lastSeen >= Second(from)
    ensures exists s :: s in ss && s.mac == d.mac && Second(s.at) == Touch(d, ss).lastSeen
    ensures forall s :: s in ss ==> Second(s.at) <= Second(Last(ss).at)
    ensures forall s :: s in ss && s.mac == d.mac ==> Second(s.at) <= Touch(d, ss).lastSeen
  {
    var s := Last(ss);
    assert forall x :: x in ss <==> x in Front(ss) || x == s;
    forall x | x in ss ensures Second(x.at) <= Second(s.at) {
      var k :| 0 <= k < |ss| && ss[k] == x;
    }
    if s.mac != d.mac {
      assert Saw(Front(ss), d.mac);
      TouchTime(d, Front(ss), from, to);
    } else {
      assert ss[|ss| - 1] == s;
    }
  }

  predicate SameButName(d: Device, d': Device) {
    d' == d.(hostname := d'.hostname, devClass := d'.devClass)
  }

  lemma {:induction false} ApplyNamesSlots(t: seq<Device>, hits: seq<NameHit>)
    ensures |ApplyNames(t, hits)| == |t|
    ensures forall i :: 0 <= i < |t| ==> SameButName(t[i], ApplyNames(t, hits)[i])
  {
    if |hits| > 0 {
      ApplyNamesSlots(t, Front(hits));
    }
  }

  /** The device a diff finds in a slot that a pass started with `d`, up to its name. */
  function Prepared(d: Device, p: Pass): Device {
    AgeOne(Touch(d, p.sightings), Second(p.start))
  }

  lemma AgeKeepsName(d: Device, d': Device, passStart: nat)
    requires SameButName(d, d')
    ensures SameButName(AgeOne(d, passStart), AgeOne(d', passStart))
    ensures AgeOne(d', passStart).mac == d.mac
  {
  }

  lemma {:induction false} DiscoveredSlots(t: seq<Device>, p: Pass)
    requires Distinct(t) && |t| <= MAX_DEVICES
    ensures var t' := Discovered(t, p);
            && |t| <= |t'| <= MAX_DEVICES
            && Macs(t') == Macs(HarvestAll(t, p.sightings))
            && (forall i :: 0 <= i < |t| ==> SameButName(Prepared(t[i], p), t'[i]))
            && (forall i :: |t| <= i < |t'| ==> SameButName(Prepared(Claimed(t'[i].mac), p), t'[i]))
  {
    var t1 := HarvestAll(t, p.sightings);
    var t2 := ApplyNames(t1, p.names);
    var t' := Discovered(t, p);
    HarvestSlots(t, p.sightings);
    ApplyNamesSlots(t1, p.names);
    forall i | 0 <= i < |t1| ensures t'[i].mac == t1[i].mac && SameButName(AgeOne(t1[i], Second(p.start)), t'[i]) {
      AgeKeepsName(t1[i], t2[i], Second(p.start));
    }
  }

  /** The first pass of a run, when it finds and names one device. */
  lemma DiscoveredOne(p: Pass)
    requires |p.sightings| == 1 && |p.names| == 1 && p.names[0].ip == p.sightings[0].ip
    ensures var s := p.sightings[0];
            var d := SetName(Refresh(Claimed(s.mac), s.ip, Second(s.at)), p.names[0]);
            Discovered([], p) == [AgeOne(d, Second(p.start))]
  {
    var s, hit := p.sightings[0], p.names[0];
    var d := Refresh(Claimed(s.mac), s.ip, Second(s.at));
    assert Front(p.sightings) == [] && Front(p.names) == [];
    HarvestNew([], s.mac, s.ip, Second(s.at));
    assert HarvestAll([], p.sightings) == Harvest([], s) == [d];
    hide Refresh, SetName, AgeOne;
    OnlySlot(d, hit);
    assert ApplyNames([d], p.names) == ApplyName([d], hit);
  }

  lemma OnlySlot(d: Device, hit: NameHit)
    requires d.ip == hit.ip
    ensures ApplyName([d], hit) == [SetName(d, hit)]
  {
  }

  /**
   * When a pass queries mDNS. A device it sighted that has no name yet makes it ask every service; when each
   * nameless device is offline, it asks none.
   */
  lemma {:induction false} NamelessIsQueriedFor(t: seq<Device>, ss: seq<Sighting>, queries: seq<Wire.Io>)
    requires Distinct(t) && |t| <= MAX_DEVICES
    requires Queried(queries, if Unnamed(HarvestAll(t, ss)) then |PROBE_HINTS| else 0)
    ensures var t' := HarvestAll(t, ss);
            && ((exists i :: 0 <= i < |t'| && t'[i].hostname == "" && Saw(ss, t'[i].mac)) ==> |queries| == 10)
            && ((forall i :: 0 <= i < |t'| && t'[i].hostname == "" ==> !t'[i].online) ==> queries == [])
  {
    var t' := HarvestAll(t, ss);
    HarvestSlots(t, ss);
    forall i | 0 <= i < |t'| && Saw(ss, t'[i].mac) ensures t'[i].online {
      TouchShape(if i < |t| then t[i] else Claimed(t'[i].mac), ss);
    }
  }
}
