/**
 * main/main.c: the running appliance. Its invariant says that the concrete state (tables, ring,
 * baseline, watermark, notifier) is the state of the pass-level machine after some well-timed run, so
 * every theorem about runs is a theorem about the appliance.
 */
module Monitor {
  import opened Prelude
  import opened Inventory
  import opened Anomaly
  import Discovery
  import Sweep
  import Wire
  import Spine
  import Notifier
  import Web
  import Presence
  import Ledger
  import Forwarding

  class Appliance {
    const store: Store
    const engine: Engine
    const clock: Clock
    const link: Wire.Link
    const notifier: Notifier.Queue
    const buffer: array<Event>
    var lastNotified: nat
    /** Every event handed to the notifier, and the outside world of every completed pass. */
    ghost var offered: seq<Event>
    ghost var passes: seq<Spine.Pass>

    ghost function State(): Spine.State
      reads this, store, engine
    {
      Spine.State(store.table, store.history, engine.Remembered(), lastNotified, offered)
    }

    /** What holds at every lock release, in the middle of a pass too; other tasks rely on no more. */
    ghost predicate Running()
      reads this, store, store.devices, store.events, notifier
    {
      && store.Valid() && notifier.Valid()
      && buffer.Length == Spine.FORWARD_MAX && buffer != store.events
      && notifier.offered == Notifier.Contents(offered)
    }

    /** Between passes. */
    ghost predicate Valid()
      reads this, store, store.devices, store.events, engine, clock, link, notifier
    {
      && Running()
      && Spine.WellTimed(passes) && Spine.EndOf(passes) <= clock.micros
      && State() == Spine.Run(engine.cfg, passes)
      && link.Valid() && Presence.AllSightings(passes) == Discovery.Sightings(link.trace)
    }

    constructor (cfg: Cfg, webhook: bool, world: Wire.World)
      ensures Valid() && passes == [] && engine.cfg == cfg && notifier.configured == webhook
      ensures fresh(store) && fresh(store.devices) && fresh(store.events) && fresh(engine) && fresh(clock)
      ensures fresh(link) && link.world == world && link.trace == [] && fresh(notifier) && fresh(buffer)
    {
      store := new Store();
      engine := new Engine(cfg);
      clock := new Clock();
      link := new Wire.Link(world);
      notifier := new Notifier.Queue(webhook);
      buffer := new Event[Spine.FORWARD_MAX](_ => EMPTY_EVENT);
      lastNotified, offered, passes := 0, [], [];
    }

    /** Walks the copied events oldest first and offers those past the watermark. */
    method Forward(n: nat, ghost recent: seq<Event>)
      requires notifier.Valid() && n <= buffer.Length
      requires |recent| == n && buffer[..n] == Reverse(recent)
      requires notifier.offered == Notifier.Contents(offered)
      modifies this`lastNotified, this`offered, notifier
      ensures notifier.Valid()
      ensures notifier.offered == Notifier.Contents(offered)
      ensures offered == old(offered) + Spine.Newer(recent, old(lastNotified))
      ensures lastNotified == Spine.LatestStamp(recent, old(lastNotified))
    {
      hide Notifier.Queue.Valid, Notifier.Content, Notifier.Contents;
      var newestSeen := lastNotified;
      var i := n;
      assert recent[..0] == [];
      while i > 0
        invariant 0 <= i <= n
        invariant notifier.Valid() && notifier.offered == Notifier.Contents(offered)
        invariant lastNotified == old(lastNotified)
        invariant offered == old(offered) + Spine.Newer(recent[..n - i], old(lastNotified))
        invariant newestSeen == Spine.LatestStamp(recent[..n - i], old(lastNotified))
      {
        var e := buffer[i - 1];
        assert e == buffer[..n][i - 1] == recent[n - i];
        assert Front(recent[..n - i + 1]) == recent[..n - i];
        if e.ts > lastNotified {
          notifier.Notify(e);
          ContentsPush(offered, e);
          offered := offered + [e];
          if e.ts > newestSeen {
            newestSeen := e.ts;
          }
        }
        i := i - 1;
      }
      assert recent[..n] == recent;
      lastNotified := newestSeen;
    }

    /** The scan-done hook: diff, copy the newest events under the lock, forward them outside it. */
    method OnScanComplete(hour: Byte) returns (ghost stamps: seq<nat>)
      requires Running()
      modifies this`lastNotified, this`offered, buffer, notifier, engine, clock
      modifies store`head, store`count, store`history, store.events, store`table, store.devices
      ensures Running()
      ensures store.table == SettleAll(engine.cfg, old(store.table))
      ensures engine.Remembered() == Some(NextBaseline(old(engine.Remembered()), OnlineCount(store.table)))
      ensures Logged(store.history, old(store.history),
                     DiffAlerts(engine.cfg, old(store.table),
                                IsNight(hour, engine.cfg.nightStart, engine.cfg.nightEnd), old(engine.Remembered())),
                     stamps, old(clock.micros), clock.micros)
      ensures var recent := Newest(store.history, Spine.FORWARD_MAX);
              && offered == old(offered) + Spine.Newer(recent, old(lastNotified))
              && lastNotified == Spine.LatestStamp(recent, old(lastNotified))
    {
      hide Logged, DiffAlerts, SettleAll, Spine.Newer, Spine.LatestStamp;
      stamps := engine.Run(store, clock, hour);
      var n := store.GetEvents(buffer, Spine.FORWARD_MAX);
      Forward(n, Newest(store.history, Spine.FORWARD_MAX));
    }

    /** The pass-level machine up to the latest pass; `found` is the pass in progress, already discovered. */
    ghost predicate Discovering(found: Spine.Pass)
      reads this, store, engine, clock
    {
      var s := Spine.Run(engine.cfg, passes);
      && Spine.WellTimed(passes) && Spine.EndOf(passes) <= found.start
      && Discovery.Sighted(found.sightings, found.start, clock.micros)
      && found.start + MICROS_PER_SECOND <= clock.micros
      && State() == s.(table := Spine.Discovered(s.table, found))
    }

    /** The rest of a pass after its discovery. */
    method FinishPass(hour: Byte, ghost found: Spine.Pass) returns (ghost stamps: seq<nat>)
      requires Running() && Discovering(found) && found.hour == hour
      modifies this`lastNotified, this`offered, this`passes, buffer, notifier, engine, clock
      modifies store`head, store`count, store`history, store.events, store`table, store.devices
      ensures Running() && Spine.WellTimed(passes)
      ensures State() == Spine.Run(engine.cfg, passes) && Spine.EndOf(passes) == clock.micros
      ensures passes == old(passes) + [found.(stamps := stamps, end := clock.micros)]
    {
      hide Store.Valid, Notifier.Queue.Valid, Notifier.Contents, Spine.Run, Spine.WellTimed, SettleAll, DiffAlerts;
      hide Spine.Newer, Spine.LatestStamp, Spine.Discovered, Logged, Discovery.Sighted;
      ghost var swept := clock.micros;
      stamps := OnScanComplete(hour);
      ghost var p := found.(stamps := stamps, end := clock.micros);
      DiscoveredSame(Spine.Run(engine.cfg, passes).table, found, p);
      PassState(engine.cfg, passes, p, swept, State());
      passes := passes + [p];
    }

    /**
     * One turn of the discovery task. A skipped pass changes nothing but the clock; a completed one is the
     * pass its exchanges with the outside world make up.
     */
    method RunPass(subnet: Option<Sweep.Subnet>, socketOk: bool, hour: Byte)
      returns (done: bool, ghost start: nat, ghost sweep: seq<Wire.Io>, ghost queries: seq<Wire.Io>)
      requires Valid() && (subnet.Some? ==> Sweep.ValidSubnet(subnet.value))
      modifies this`lastNotified, this`offered, this`passes, buffer, notifier, engine, clock, link
      modifies store`head, store`count, store`history, store.events, store`table, store.devices
      ensures Valid()
      ensures done <==> subnet.Some? && socketOk
      ensures link.trace == old(link.trace) + ([Wire.Checked(start)] + sweep + queries)
      ensures !done ==> passes == old(passes) && State() == old(State()) && sweep == queries == []
      ensures done ==> Wire.Realises(sweep, Sweep.SweepOps(subnet.value))
      ensures done ==> Queried(HarvestedFrom(old(store.table), sweep), queries)
      ensures done ==>
                exists stamps ::
                  passes == old(passes) + [Spine.Pass(start, Discovery.Sightings(sweep), Discovery.Hits(queries),
                                                      hour, stamps, clock.micros)]
    {
      hide Store.Valid, Wire.Link.Valid, Notifier.Queue.Valid, Notifier.Contents;
      hide Spine.Run, Spine.WellTimed, Spine.EndOf;
      hide Sweep.SweepOps, Sweep.ValidSubnet, Wire.Realises, Discovery.Sightings, Discovery.Hits, Discovery.Sighted;
      hide Discovery.Unnamed, Presence.AllSightings;
      done, start, sweep, queries := Discovery.RunPass(store, link, clock, subnet, socketOk);
      TraceGrows(old(link.trace), start, sweep, queries);
      if done {
        ghost var found := Spine.Pass(start, Discovery.Sightings(sweep), Discovery.Hits(queries), hour, [], 0);
        ghost var stamps := FinishPass(hour, found);
        PassSightings(old(passes), found.(stamps := stamps, end := clock.micros));
      } else {
        QueriesSightNothing(sweep);
      }
    }

    /** One turn of the posting task, at any time: it leaves the run-level state alone. */
    method PostNext() returns (body: Option<string>)
      requires Running()
      modifies notifier
      ensures Running() && State() == old(State())
      ensures old(Valid()) ==> Valid()
      ensures body.Some? <==> old(notifier.waiting) != []
    {
      hide Store.Valid, Spine.Run, Spine.WellTimed, Presence.AllSightings;
      body := notifier.Receive();
    }

    /** A dashboard read, at any lock release: the newest events of the whole history. */
    method ServeEvents() returns (text: string)
      requires Running()
      ensures Running() && (old(Valid()) ==> Valid())
      ensures text == Web.EventsText(NewestFirst(store.history, Min(128, |store.history|)))
    {
      hide Store.Valid, Spine.Run, Spine.WellTimed, Web.EventsText;
      text := Web.EventsHandler(store);
    }
  }

  ghost function HarvestedFrom(t: seq<Device>, sweep: seq<Wire.Io>): seq<Device> {
    Discovery.HarvestAll(t, Discovery.Sightings(sweep))
  }

  /** Ten queries when a device found by the sweep has no name, and none otherwise. */
  ghost predicate Queried(t: seq<Device>, queries: seq<Wire.Io>) {
    Discovery.Queried(queries, if Discovery.Unnamed(t) then |Discovery.PROBE_HINTS| else 0)
  }

  /** Only the sweep of a pass sights anything. */
  lemma TraceGrows(before: seq<Wire.Io>, start: nat, sweep: seq<Wire.Io>, queries: seq<Wire.Io>)
    requires forall i :: 0 <= i < |queries| ==> queries[i].Answered?
    ensures Discovery.Sightings(before + ([Wire.Checked(start)] + sweep + queries)) ==
              Discovery.Sightings(before) + Discovery.Sightings(sweep)
  {
    hide Discovery.HitsOf;
    Wire.ProjectAppend(Discovery.SightingOf, before, [Wire.Checked(start)] + sweep + queries);
    Wire.ProjectAppend(Discovery.SightingOf, [Wire.Checked(start)] + sweep, queries);
    Wire.ProjectAppend(Discovery.SightingOf, [Wire.Checked(start)], sweep);
    Wire.ProjectOne(Discovery.SightingOf, Wire.Checked(start));
    QueriesSightNothing(queries);
  }

  lemma {:induction false} QueriesSightNothing(queries: seq<Wire.Io>)
    requires forall i :: 0 <= i < |queries| ==> queries[i].Answered?
    ensures Discovery.Sightings(queries) == []
  {
    if |queries| > 0 {
      QueriesSightNothing(Front(queries));
    }
  }

  lemma {:induction false} PassSightings(ps: seq<Spine.Pass>, p: Spine.Pass)
    ensures Presence.AllSightings(ps + [p]) == Presence.AllSightings(ps) + p.sightings
  {
    assert Front(ps + [p]) == ps;
  }

  /** What the run-level theorems say about a valid appliance, in terms of its own state and history. */
  lemma Guarantees(a: Appliance)
    requires a.Valid()
    ensures Presence.LogKeys(a.store.history) ==
              Presence.ReferenceLog(a.engine.cfg, a.passes, Presence.FreshSets(a.passes))
    ensures Macs(a.store.table) == Presence.Admitted(a.passes)
    ensures OnlineCount(a.store.table) ==
              |a.store.table| + Ledger.NetReturns(Presence.LogKeys(a.store.history))
    ensures Forwarding.PicksOnce(a.offered, a.store.history, Forwarding.Positions(a.engine.cfg, a.passes))
    ensures a.lastNotified == Forwarding.NewestStamp(a.store.history)
    ensures a.offered == a.store.history <==> Forwarding.AllFit(a.engine.cfg, a.passes)
  {
    Presence.RunMatchesReference(a.engine.cfg, a.passes);
    Ledger.Conservation(a.engine.cfg, a.passes);
    Forwarding.ExactlyOnce(a.engine.cfg, a.passes);
    Forwarding.Watermark(a.engine.cfg, a.passes);
    Forwarding.NothingLostIff(a.engine.cfg, a.passes);
  }

  lemma ContentsPush(es: seq<Event>, e: Event)
    ensures Notifier.Contents(es + [e]) == Notifier.Contents(es) + [Notifier.Content(e)]
  {
  }

  lemma PassWellTimed(ps: seq<Spine.Pass>, p: Spine.Pass, swept: nat)
    requires Spine.EndOf(ps) <= p.start && p.start + MICROS_PER_SECOND <= swept
    requires Discovery.Sighted(p.sightings, p.start, swept) && Timed(p.stamps, swept, p.end)
    ensures Spine.PassTimed(p, Spine.EndOf(ps))
  {
  }

  lemma DiscoveredSame(t: seq<Device>, p: Spine.Pass, q: Spine.Pass)
    requires q == p.(stamps := q.stamps, end := q.end)
    ensures Spine.Discovered(t, q) == Spine.Discovered(t, p)
  {
  }

  /** The parts a pass leaves behind are the state of the machine one pass later. */
  lemma {:induction false} PassState(cfg: Cfg, ps: seq<Spine.Pass>, p: Spine.Pass, swept: nat, s': Spine.State)
    requires Spine.WellTimed(ps) && Spine.EndOf(ps) <= p.start
    requires Discovery.Sighted(p.sightings, p.start, swept) && p.start + MICROS_PER_SECOND <= swept
    requires var s := Spine.Run(cfg, ps);
             && s'.table == SettleAll(cfg, Spine.Discovered(s.table, p))
             && s'.baseline == Some(NextBaseline(s.baseline, OnlineCount(s'.table)))
             && Logged(s'.log, s.log, Spine.Alerts(cfg, s, p), p.stamps, swept, p.end)
             && s'.offered == s.offered + Spine.Newer(Newest(s'.log, Spine.FORWARD_MAX), s.watermark)
             && s'.watermark == Spine.LatestStamp(Newest(s'.log, Spine.FORWARD_MAX), s.watermark)
    ensures Spine.WellTimed(ps + [p]) && s' == Spine.Run(cfg, ps + [p]) && Spine.EndOf(ps + [p]) == p.end
    ensures Front(ps + [p]) == ps && Last(ps + [p]) == p
  {
    hide SettleAll, Spine.Discovered, Spine.Alerts, Spine.Newer, Spine.LatestStamp, Stamp, NextBaseline, OnlineCount;
    hide Spine.Run;
    PassWellTimed(ps, p, swept);
    Spine.RunPush(cfg, ps, p);
    assert Spine.Readings(p, |p.stamps|) == p.stamps;
  }
}
