/** main/anomaly.c: the diff that runs once after each discovery pass. */
module Anomaly {
  import opened Prelude
  import opened Inventory
  import Format
  import Oui

  /** The tunables, and the vendor database consulted when a device is announced. */
  datatype Cfg = Cfg(nightStart: Byte, nightEnd: Byte, growthPct: Byte, alertRandomized: bool, db: Oui.Db)

  /** The threshold a fresh appliance starts with. */
  const DEFAULT_GROWTH_PCT := 50

  predicate IsNight(hour: Byte, start: Byte, end: Byte) {
    if start == end then false
    else if start < end then start <= hour < end
    else hour >= start || hour < end
  }

  /** On the 24-hour clock the window is the hours reached from `start` before `end`, midnight or not. */
  lemma NightWindow(hour: Byte, start: Byte, end: Byte)
    requires hour < 24 && start < 24 && end < 24
    ensures IsNight(hour, start, end) <==> (hour + 24 - start) % 24 < (end + 24 - start) % 24
  {
  }

  /** A rise by at least `pct` percent over a baseline that is not zero. */
  predicate IsGrowth(baseline: nat, current: nat, pct: Byte): (b: bool)
    ensures b <==> 0 < baseline < current && 100 * (current - baseline) >= baseline * pct
  {
    baseline != 0 && current > baseline && current * 100 >= baseline * (100 + pct as int)
  }

  /** A quarter step toward the current count, truncated toward zero. */
  function TrackBaseline(baseline: nat, current: nat): (b: nat)
    ensures b == if baseline <= current then baseline + (current - baseline) / 4
                 else baseline - (baseline - current) / 4
  {
    baseline + TruncatedDiv(current - baseline, 4)
  }

  // ---- One device ----

  predicate Suppressed(cfg: Cfg, d: Device) {
    d.randomized && !cfg.alertRandomized
  }

  predicate IsNew(d: Device) {
    !d.announced && d.online
  }

  /** The vendor is looked up once, when the device is announced. */
  function WithVendor(cfg: Cfg, d: Device): Device {
    if d.vendor == "" then d.(vendor := Oui.LookupText(cfg.db, d.mac, VENDOR_LEN)) else d
  }

  function NewDetail(d: Device): string {
    Take(Format.OrElse(d.hostname, "unnamed"), 40) + " (" +
    Take(Format.OrElse(d.vendor, "unknown vendor"), 30) + ") " + Format.DottedQuad(d.ip)
  }

  function PresenceDetail(d: Device): string {
    Take(Format.OrElse(d.hostname, Format.MacText(d.mac)), 40) + " (" +
    Take(Format.OrElse(d.vendor, "unknown"), 30) + ")"
  }

  /** A detail's address, written out in full. */
  lemma DottedQuadLength(ip: nat)
    ensures |Format.DottedQuad(ip)| <= 15
  {
    Format.DecimalLength(ip / 16777216 % 256, 3);
    Format.DecimalLength(ip / 65536 % 256, 3);
    Format.DecimalLength(ip / 256 % 256, 3);
    Format.DecimalLength(ip % 256, 3);
  }

  /** An address reads as its four octets, most significant first. */
  lemma {:induction false} AddressReads(a: Byte, b: Byte, c: Byte, d: Byte)
    ensures Format.DottedQuad(16777216 * a + 65536 * b + 256 * c + d) ==
              Format.Decimal(a) + "." + Format.Decimal(b) + "." + Format.Decimal(c) + "." + Format.Decimal(d)
  {
    hide Format.Decimal;
    Octets(a, b, c, d);
  }

  lemma Octets(a: Byte, b: Byte, c: Byte, d: Byte)
    ensures var ip := 16777216 * a + 65536 * b + 256 * c + d;
            ip / 16777216 % 256 == a && ip / 65536 % 256 == b && ip / 256 % 256 == c && ip % 256 == d
  {
    var ip := 16777216 * a + 65536 * b + 256 * c + d;
    assert ip / 16777216 == a;
    assert ip / 65536 == 256 * a + b;
    assert ip / 256 == 65536 * a + 256 * b + c;
  }

  /** A detail shows up to 40 characters of the name and 30 of the vendor; what is not known is replaced. */
  lemma DetailsShow(d: Device)
    ensures var name, vendor := Take(d.hostname, 40), Take(d.vendor, 30);
            && NewDetail(d) == (if name == "" then "unnamed" else name)
                               + " (" + (if vendor == "" then "unknown vendor" else vendor) + ") "
                               + Format.DottedQuad(d.ip)
            && PresenceDetail(d) == (if name == "" then Format.MacText(d.mac) else name)
                                    + " (" + (if vendor == "" then "unknown" else vendor) + ")"
  {
  }

  predicate VendorUnknown(d: Device) {
    d.vendor == "" || d.vendor == "Unknown"
  }

  /** The events of a newly announced device, whose vendor is already filled in. */
  function Introduction(d: Device, night: bool): seq<Alert> {
    [Alert(NewDevice, if night then Warning else Info, d.mac, NewDetail(d))]
    + (if night then [Alert(NightActivity, Warning, d.mac, NewDetail(d))] else [])
    + (if !d.randomized && VendorUnknown(d) then [Alert(UnknownVendor, Info, d.mac, Format.MacText(d.mac))] else [])
  }

  function Block(cfg: Cfg, d: Device, night: bool): seq<Alert> {
    if IsNew(d) then
      if Suppressed(cfg, d) then [] else Introduction(WithVendor(cfg, d), night)
    else if d.wasOnline && !d.online then
      [Alert(DeviceMissing, Warning, d.mac, PresenceDetail(d))]
    else if !d.wasOnline && d.online then
      [Alert(DeviceReturned, Info, d.mac, PresenceDetail(d))]
    else []
  }

  function Settle(cfg: Cfg, d: Device): Device {
    if IsNew(d) then
      (if Suppressed(cfg, d) then d else WithVendor(cfg, d)).(announced := true, wasOnline := true)
    else d.(wasOnline := d.online)
  }

  // ---- The whole table ----

  function SettleAll(cfg: Cfg, t: seq<Device>): (t': seq<Device>)
    ensures |t'| == |t|
  {
    seq(|t|, i requires 0 <= i < |t| => Settle(cfg, t[i]))
  }

  /** The table while the diff is at slot `i`. */
  ghost function Partly(cfg: Cfg, t: seq<Device>, i: nat): seq<Device>
    requires i <= |t|
  {
    SettleAll(cfg, t[..i]) + t[i..]
  }

  lemma PartlyStep(cfg: Cfg, t: seq<Device>, i: nat)
    requires i < |t|
    ensures |Partly(cfg, t, i)| == |t| && Partly(cfg, t, i)[i] == t[i]
    ensures Partly(cfg, t, i)[i := Settle(cfg, t[i])] == Partly(cfg, t, i + 1)
  {
  }

  lemma PartlyEnds(cfg: Cfg, t: seq<Device>)
    ensures t[..0] == [] && t[..|t|] == t
    ensures Partly(cfg, t, 0) == t && Partly(cfg, t, |t|) == SettleAll(cfg, t)
  {
    assert t[..|t|] == t;
  }

  lemma {:induction false} BlocksStep(cfg: Cfg, t: seq<Device>, i: nat, night: bool)
    requires i < |t|
    ensures Blocks(cfg, t[..i + 1], night) == Blocks(cfg, t[..i], night) + Block(cfg, t[i], night)
  {
    assert Front(t[..i + 1]) == t[..i];
  }

  function Blocks(cfg: Cfg, t: seq<Device>, night: bool): seq<Alert> {
    if |t| == 0 then [] else Blocks(cfg, Front(t), night) + Block(cfg, Last(t), night)
  }

  function GrowthDetail(cfg: Cfg, baseline: nat, online: nat): string {
    "online devices " + Format.Decimal(baseline) + " -> " + Format.Decimal(online) +
    " (+" + Format.Decimal(cfg.growthPct) + "% baseline)"
  }

  lemma DeviceDetailsFit(d: Device)
    ensures |NewDetail(d)| <= 89 && |PresenceDetail(d)| <= 73 && |Format.MacText(d.mac)| == 17
  {
    hide Format.DottedQuad;
    DottedQuadLength(d.ip);
  }

  /** Neither the formatting nor the copy into the ring ever cuts a device's detail. */
  lemma BlockFits(cfg: Cfg, d: Device, night: bool)
    ensures forall a :: a in Block(cfg, d, night) ==> |a.detail| < DETAIL_LEN && Stored(a) == a
  {
    hide NewDetail, PresenceDetail, Format.MacText, WithVendor;
    DeviceDetailsFit(d);
    DeviceDetailsFit(WithVendor(cfg, d));
  }

  /** Nor that of a growth event, whose numbers are 32-bit; it counts up from the baseline. */
  lemma {:induction false} GrowthFits(cfg: Cfg, baseline: nat, online: nat)
    requires baseline < TWO_TO_THE_32 && online < TWO_TO_THE_32
    ensures |GrowthDetail(cfg, baseline, online)| < DETAIL_LEN
    ensures var from, to := "online devices " + Format.Decimal(baseline), " -> " + Format.Decimal(online);
            GrowthDetail(cfg, baseline, online) == from + to + (" (+" + Format.Decimal(cfg.growthPct) + "% baseline)")
  {
    Format.DecimalLength(baseline, 10);
    Format.DecimalLength(online, 10);
    Format.DecimalLength(cfg.growthPct, 3);
  }

  /** The remembered baseline; None until the first diff has run. */
  type Baseline = Option<nat>

  function GrowthAlerts(cfg: Cfg, baseline: Baseline, online: nat): seq<Alert> {
    if baseline.Some? && IsGrowth(baseline.value, online, cfg.growthPct)
    then [Alert(DeviceGrowth, Warning, NO_MAC, GrowthDetail(cfg, baseline.value, online))] else []
  }

  function NextBaseline(baseline: Baseline, online: nat): nat {
    if baseline.None? then online else TrackBaseline(baseline.value, online)
  }

  /** Everything one diff logs, in order. */
  function DiffAlerts(cfg: Cfg, t: seq<Device>, night: bool, baseline: Baseline): seq<Alert> {
    Blocks(cfg, t, night) + GrowthAlerts(cfg, baseline, OnlineCount(SettleAll(cfg, t)))
  }

  /** The log entries of `alerts`, the i-th stamped with the second of reading `stamps[i]`. */
  function Stamp(alerts: seq<Alert>, stamps: seq<nat>): (es: seq<Event>)
    requires |stamps| == |alerts|
    ensures |es| == |alerts|
  {
    seq(|alerts|, i requires 0 <= i < |alerts| => Event(Second(stamps[i]), Stored(alerts[i])))
  }

  /** Clock readings in the order they were taken, between two instants. */
  predicate Timed(readings: seq<nat>, from: nat, to: nat) {
    && from <= to
    && (forall i :: 0 <= i < |readings| ==> from <= readings[i] <= to)
    && (forall i, j :: 0 <= i < j < |readings| ==> readings[i] <= readings[j])
  }

  /** `history` is `log` followed by `alerts`, stamped in order between two instants. */
  ghost predicate Logged(history: seq<Event>, log: seq<Event>, alerts: seq<Alert>, stamps: seq<nat>,
                         from: nat, to: nat) {
    |stamps| == |alerts| && Timed(stamps, from, to) && history == log + Stamp(alerts, stamps)
  }

  /** Logging two batches one after the other is logging their concatenation. */
  lemma LoggedAppend(h: seq<Event>, log: seq<Event>, a: seq<Alert>, aStamps: seq<nat>, from: nat, mid: nat,
                     h': seq<Event>, b: seq<Alert>, bStamps: seq<nat>, to: nat)
    requires Logged(h, log, a, aStamps, from, mid) && Logged(h', h, b, bStamps, mid, to)
    ensures Logged(h', log, a + b, aStamps + bStamps, from, to)
  {
    assert Stamp(a + b, aStamps + bStamps) == Stamp(a, aStamps) + Stamp(b, bStamps);
  }

  lemma LoggedNone(log: seq<Event>, now: nat)
    ensures Logged(log, log, [], [], now, now)
  {
    assert log + Stamp([], []) == log;
  }

  class Engine {
    const cfg: Cfg
    var baselineOnline: nat
    var baselinePrimed: bool

    ghost function Remembered(): Baseline
      reads this
    {
      if baselinePrimed then Some(baselineOnline) else None
    }

    constructor (cfg: Cfg)
      ensures this.cfg == cfg && Remembered() == None
    {
      this.cfg := cfg;
      baselineOnline, baselinePrimed := 0, false;
    }

    /** Compares one device with its remembered state: logs its block and settles its slot. */
    method DiffDevice(store: Store, clock: Clock, slot: nat, night: bool) returns (ghost stamps: seq<nat>)
      requires store.Valid() && slot < |store.table|
      modifies store`head, store`count, store`history, store.events, store`table, store.devices, clock
      ensures store.Valid()
      ensures store.table == old(store.table)[slot := Settle(cfg, old(store.table)[slot])]
      ensures Logged(store.history, old(store.history), Block(cfg, old(store.table)[slot], night), stamps,
                     old(clock.micros), clock.micros)
    {
      hide Store.Valid;
      var d := store.Read(slot);
      if !d.announced && d.online {
        stamps := [];
        if !(d.randomized && !cfg.alertRandomized) {
          if d.vendor == "" {
            var vendor := LookupVendor(d.mac);
            d := d.(vendor := vendor);
          }
          stamps := Introduce(store, clock, d, night);
        }
        store.Update(slot, d.(announced := true, wasOnline := d.online));
        return;
      }
      stamps := LogTransition(store, clock, d, night);
      store.Update(slot, d.(wasOnline := d.online));
    }

    /** Logs the events of a new device that is not suppressed. */
    method Introduce(store: Store, clock: Clock, d: Device, night: bool) returns (ghost stamps: seq<nat>)
      requires store.Valid()
      modifies store`head, store`count, store`history, store.events, clock
      ensures store.Valid()
      ensures Logged(store.history, old(store.history), Introduction(d, night), stamps, old(clock.micros), clock.micros)
    {
      hide Store.Valid, Logged;
      ghost var log, h1, t1 := store.history, store.history, clock.micros;
      var detail := NewDetail(d);
      var intro := Alert(NewDevice, if night then Warning else Info, d.mac, detail);
      stamps := LogOne(store, clock, intro);
      ghost var done, more := [intro], [];
      h1, t1 := store.history, clock.micros;
      LoggedNone(h1, t1);
      if night {
        more := LogOne(store, clock, Alert(NightActivity, Warning, d.mac, detail));
      }
      ghost var quiet := if night then [Alert(NightActivity, Warning, d.mac, detail)] else [];
      LoggedAppend(h1, log, done, stamps, old(clock.micros), t1, store.history, quiet, more, clock.micros);
      done, stamps, more := done + quiet, stamps + more, [];
      h1, t1 := store.history, clock.micros;
      LoggedNone(h1, t1);
      var unknown := Alert(UnknownVendor, Info, d.mac, Format.MacText(d.mac));
      if !d.randomized && VendorUnknown(d) {
        more := LogOne(store, clock, unknown);
      }
      LoggedAppend(h1, log, done, stamps, old(clock.micros), t1, store.history,
                   if !d.randomized && VendorUnknown(d) then [unknown] else [], more, clock.micros);
      stamps := stamps + more;
    }

    /** Logs the transition of an already announced device, if there is one. */
    method LogTransition(store: Store, clock: Clock, d: Device, ghost night: bool) returns (ghost stamps: seq<nat>)
      requires store.Valid() && !IsNew(d)
      modifies store`head, store`count, store`history, store.events, clock
      ensures store.Valid()
      ensures Logged(store.history, old(store.history), Block(cfg, d, night), stamps, old(clock.micros), clock.micros)
    {
      stamps := [];
      LoggedNone(store.history, clock.micros);
      if d.wasOnline && !d.online {
        stamps := LogOne(store, clock, Alert(DeviceMissing, Warning, d.mac, PresenceDetail(d)));
      } else if !d.wasOnline && d.online {
        stamps := LogOne(store, clock, Alert(DeviceReturned, Info, d.mac, PresenceDetail(d)));
      }
    }

    /** Logs one alert. */
    method LogOne(store: Store, clock: Clock, a: Alert) returns (ghost stamps: seq<nat>)
      requires store.Valid()
      modifies store`head, store`count, store`history, store.events, clock
      ensures store.Valid()
      ensures Logged(store.history, old(store.history), [a], stamps, old(clock.micros), clock.micros)
    {
      ghost var at := store.LogEvent(clock, a);
      stamps := [at];
      assert Stamp([a], [at]) == [Event(Second(at), Stored(a))];
    }

    method LookupVendor(mac: Mac) returns (vendor: string)
      ensures vendor == Oui.LookupText(cfg.db, mac, VENDOR_LEN)
    {
      var buffer := new char[VENDOR_LEN];
      var _ := Oui.Lookup(cfg.db, mac, buffer);
      vendor := Oui.ReadBack(buffer, Oui.LookupText(cfg.db, mac, VENDOR_LEN));
    }

    /** The loop over the occupied slots. */
    method DiffTable(store: Store, clock: Clock, night: bool) returns (ghost stamps: seq<nat>)
      requires store.Valid()
      modifies store`head, store`count, store`history, store.events, store`table, store.devices, clock
      ensures store.Valid()
      ensures store.table == SettleAll(cfg, old(store.table))
      ensures Logged(store.history, old(store.history), Blocks(cfg, old(store.table), night), stamps,
                     old(clock.micros), clock.micros)
    {
      hide Store.Valid, Block, Settle, Stamp, Logged, Partly;
      ghost var t, log, from := store.table, store.history, clock.micros;
      stamps := [];
      PartlyEnds(cfg, t);
      LoggedNone(log, from);
      var idx := 0;
      var slot, idx' := store.Next(idx);
      while slot.Some?
        invariant store.Valid() && 0 <= idx <= |t| == |store.table|
        invariant if idx < |t| then slot == Some(idx) && idx' == idx + 1 else slot.None?
        invariant store.table == Partly(cfg, t, idx)
        invariant Logged(store.history, log, Blocks(cfg, t[..idx], night), stamps, from, clock.micros)
        decreases |t| - idx
      {
        PartlyStep(cfg, t, idx);
        ghost var h, mid := store.history, clock.micros;
        ghost var more := DiffDevice(store, clock, slot.value, night);
        LoggedAppend(h, log, Blocks(cfg, t[..idx], night), stamps, from, mid,
                     store.history, Block(cfg, t[idx], night), more, clock.micros);
        BlocksStep(cfg, t, idx, night);
        stamps := stamps + more;
        idx := idx';
        slot, idx' := store.Next(idx);
      }
    }

    /** One diff over the whole table, under the lock. */
    method Run(store: Store, clock: Clock, hour: Byte) returns (ghost stamps: seq<nat>)
      requires store.Valid()
      modifies this, store`head, store`count, store`history, store.events, store`table, store.devices, clock
      ensures store.Valid()
      ensures store.table == SettleAll(cfg, old(store.table))
      ensures Remembered() == Some(NextBaseline(old(Remembered()), OnlineCount(store.table)))
      ensures Logged(store.history, old(store.history),
                     DiffAlerts(cfg, old(store.table), IsNight(hour, cfg.nightStart, cfg.nightEnd), old(Remembered())),
                     stamps, old(clock.micros), clock.micros)
    {
      hide Store.Valid, Logged;
      var night := IsNight(hour, cfg.nightStart, cfg.nightEnd);
      stamps := DiffTable(store, clock, night);
      ghost var h, mid := store.history, clock.micros;
      var online := store.CountOnline();
      ghost var more := WatchGrowth(store, clock, online);
      LoggedAppend(h, old(store.history), Blocks(cfg, old(store.table), night), stamps, old(clock.micros), mid,
                   store.history, GrowthAlerts(cfg, old(Remembered()), online), more, clock.micros);
      stamps := stamps + more;
    }

    /** The whole-network signal: compares the online count with the baseline, then moves the baseline. */
    method WatchGrowth(store: Store, clock: Clock, online: nat) returns (ghost stamps: seq<nat>)
      requires store.Valid()
      modifies this, store`head, store`count, store`history, store.events, clock
      ensures store.Valid()
      ensures Remembered() == Some(NextBaseline(old(Remembered()), online))
      ensures |stamps| == if old(baselinePrimed) && 0 < old(baselineOnline) < online
                             && 100 * (online - old(baselineOnline)) >= old(baselineOnline) * cfg.growthPct
                          then 1 else 0
      ensures Logged(store.history, old(store.history), GrowthAlerts(cfg, old(Remembered()), online), stamps,
                     old(clock.micros), clock.micros)
    {
      stamps := [];
      LoggedNone(store.history, clock.micros);
      if !baselinePrimed {
        baselineOnline := online;
        baselinePrimed := true;
      } else {
        if IsGrowth(baselineOnline, online, cfg.growthPct) {
          var detail := GrowthDetail(cfg, baselineOnline, online);
          stamps := LogOne(store, clock, Alert(DeviceGrowth, Warning, NO_MAC, detail));
        }
        baselineOnline := baselineOnline + TruncatedDiv(online - baselineOnline, 4);
      }
    }
  }
}
