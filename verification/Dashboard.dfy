/** What a run can serve to the dashboard: a device's own name is enough to break the events feed. */
module Dashboard {
  import opened Prelude
  import opened Inventory
  import opened Discovery
  import opened Anomaly
  import opened Spine
  import Format
  import Json
  import Forwarding
  import Ledger
  import Web
  import Wire

  /** The snapshot the events handler serves after a run. */
  function Served(log: seq<Event>): seq<Event> {
    NewestFirst(log, Min(128, |log|))
  }

  const SPOILER: Mac := [0, 1, 2, 3, 4, 5]

  /** The first pass of a run finds one device, whose mDNS instance is named with a single line feed. */
  const ADVERTISED := Wire.MdnsResult("\n", "", [Some(1)])
  const SPOILT := Pass(1_000_000, [Sighting(SPOILER, 1, 1_500_000)], ResultHits(ADVERTISED, Iot), 12, [], 3_000_000)

  lemma SpoiltNames()
    ensures SPOILT.names == [NameHit(1, "\n", Iot)]
  {
    assert Front([Some(1)]) == [];
    assert AddressHits([Some(1)], "\n", Iot) == [] + [NameHit(1, "\n", Iot)];
  }

  /** The device as the first diff finds it. */
  function Spoilt(): Device {
    Claimed(SPOILER).(ip := 1, hostname := "\n", devClass := Iot, online := true, firstSeen := 1, lastSeen := 1)
  }

  lemma SpoiltTable()
    ensures Discovered([], SPOILT) == [Spoilt()]
  {
    hide Discovered;
    SpoiltNames();
    DiscoveredOne(SPOILT);
    assert Take("\n", HOSTNAME_LEN - 1) == "\n";
  }

  lemma DetailStartsWithName(d: Device)
    requires d.hostname == "\n"
    ensures |NewDetail(d)| > 0 && NewDetail(d)[0] == '\n'
  {
  }

  lemma FirstAlert(cfg: Cfg)
    ensures var alerts := Alerts(cfg, BOOT, SPOILT);
            |alerts| > 0 && |alerts[0].detail| > 0 && alerts[0].detail[0] == '\n'
  {
    hide NewDetail, Discovered;
    SpoiltTable();
    var night := Night(cfg, SPOILT);
    assert Front([Spoilt()]) == [];
    assert Blocks(cfg, [Spoilt()], night) == [] + Block(cfg, Spoilt(), night) == Block(cfg, Spoilt(), night);
    DetailStartsWithName(WithVendor(cfg, Spoilt()));
  }

  lemma ShownFirst(detail: string)
    requires |detail| > 0 && detail[0] == '\n'
    ensures !Web.NoControl(Web.Shown(detail))
  {
    assert Web.Shown(detail)[0] == detail[0];
  }

  lemma {:induction false} FirstRun(cfg: Cfg)
    ensures Run(cfg, [SPOILT]).log == Entries(cfg, BOOT, SPOILT)
    ensures |Entries(cfg, BOOT, SPOILT)| <= 4
  {
    hide Run, Spine.RunPass, Entries;
    assert Front([SPOILT]) == [] && Run(cfg, []) == BOOT by { AtBoot(cfg); }
    Forwarding.LogOfPass(cfg, [SPOILT]);
    RunPush(cfg, [], SPOILT);
    assert [] + [SPOILT] == [SPOILT];
    OneStored(cfg);
    Ledger.SliceLength(cfg, [SPOILT]);
  }

  lemma {:induction false} AtBoot(cfg: Cfg)
    ensures Run(cfg, []) == BOOT
  {
  }

  lemma OneStored(cfg: Cfg)
    ensures |Spine.RunPass(cfg, BOOT, SPOILT).table| == 1
  {
    hide Discovered, Entries, Newest, Newer;
    SpoiltTable();
  }

  lemma {:induction false} SpoiltLog(cfg: Cfg)
    ensures var log := Run(cfg, [SPOILT]).log;
            && 0 < |log| <= 4 && Web.AllFit(log)
            && |log[0].alert.detail| > 0 && log[0].alert.detail[0] == '\n'
  {
    hide Run, Alerts, Pow;
    FirstRun(cfg);
    FirstAlert(cfg);
    SmallStamps();
  }

  lemma SmallStamps()
    ensures Pow(10, 19) > 3
  {
    assert Pow(10, 3) == 1000;
    PowGrows(10, 3, 19);
  }

  lemma {:induction false} PowGrows(b: nat, from: nat, to: nat)
    requires b >= 1 && from <= to
    ensures Pow(b, from) <= Pow(b, to)
  {
    if from < to {
      PowGrows(b, from, to - 1);
      assert Pow(b, to) == b * Pow(b, to - 1) >= Pow(b, to - 1);
    }
  }

  lemma SmallLogServed(log: seq<Event>)
    requires 0 < |log| <= 4 && Web.AllFit(log)
    ensures var es := Served(log); |es| == |log| && es[|log| - 1] == log[0] && Web.AllFit(es)
  {
  }

  lemma SpoiltTimed()
    ensures WellTimed([SPOILT])
  {
    assert Front([SPOILT]) == [];
  }

  /** After this well-timed run the events handler serves a text that is not JSON, whatever the tunables. */
  lemma {:induction false} NameBreaksFeed(cfg: Cfg)
    ensures WellTimed([SPOILT])
    ensures Json.ParseArray(Web.EventsText(Served(Run(cfg, [SPOILT]).log))) == None
  {
    hide Run, WellTimed, Served, Web.EventsText, Web.NoControl, Web.Shown, Web.AllFit, Json.ParseArray, Web.Objects;
    SpoiltTimed();
    SpoiltLog(cfg);
    var log := Run(cfg, [SPOILT]).log;
    SmallLogServed(log);
    ShownFirst(log[0].alert.detail);
    Web.EventsTextReads(Served(log));
  }
}
