/**
 * Every locked section is one atomic step on the table. What holds at every lock release, whatever the
 * interleaving of steps: the device invariant, and that enrichment is write-once.
 */
module LockSteps {
  import opened Prelude
  import opened Inventory
  import opened Discovery
  import opened Anomaly
  import opened Spine
  import opened Presence
  import Ledger

  datatype LockStep = Sight(sighting: Sighting) | Name(hit: NameHit) | Age(passStart: nat) | Diff

  function Apply(cfg: Cfg, t: seq<Device>, step: LockStep): seq<Device> {
    match step
    case Sight(s) => Harvest(t, s)
    case Name(hit) => ApplyName(t, hit)
    case Age(passStart) => AgeAll(t, passStart)
    case Diff => SettleAll(cfg, t)
  }

  function ApplyAll(cfg: Cfg, t: seq<Device>, steps: seq<LockStep>): seq<Device> {
    if |steps| == 0 then t else Apply(cfg, ApplyAll(cfg, t, Front(steps)), Last(steps))
  }

  // ---- Runs of passes are runs of steps ----

  function Sights(ss: seq<Sighting>): seq<LockStep> {
    seq(|ss|, i requires 0 <= i < |ss| => Sight(ss[i]))
  }

  function Names(hits: seq<NameHit>): seq<LockStep> {
    seq(|hits|, i requires 0 <= i < |hits| => Name(hits[i]))
  }

  function PassSteps(p: Pass): seq<LockStep> {
    Sights(p.sightings) + Names(p.names) + [Age(Second(p.start)), Diff]
  }

  function AllSteps(ps: seq<Pass>): seq<LockStep> {
    if |ps| == 0 then [] else AllSteps(Front(ps)) + PassSteps(Last(ps))
  }

  lemma {:induction false} ApplyAppend(cfg: Cfg, t: seq<Device>, a: seq<LockStep>, b: seq<LockStep>)
    ensures ApplyAll(cfg, t, a + b) == ApplyAll(cfg, ApplyAll(cfg, t, a), b)
  {
    if |b| == 0 {
      assert a + b == a;
    } else {
      ApplyAppend(cfg, t, a, Front(b));
      assert Front(a + b) == a + Front(b);
    }
  }

  lemma {:induction false} SightsHarvest(cfg: Cfg, t: seq<Device>, ss: seq<Sighting>)
    ensures ApplyAll(cfg, t, Sights(ss)) == HarvestAll(t, ss)
  {
    if |ss| > 0 {
      SightsHarvest(cfg, t, Front(ss));
      assert Front(Sights(ss)) == Sights(Front(ss));
    }
  }

  lemma {:induction false} NamesApply(cfg: Cfg, t: seq<Device>, hits: seq<NameHit>)
    ensures ApplyAll(cfg, t, Names(hits)) == ApplyNames(t, hits)
  {
    if |hits| > 0 {
      NamesApply(cfg, t, Front(hits));
      assert Front(Names(hits)) == Names(Front(hits));
    }
  }

  lemma {:induction false} AgeThenDiff(cfg: Cfg, t: seq<Device>, passStart: nat)
    ensures ApplyAll(cfg, t, [Age(passStart), Diff]) == SettleAll(cfg, AgeAll(t, passStart))
  {
    var both := [Age(passStart), Diff];
    assert Front(both) == [Age(passStart)];
    assert Front(Front(both)) == [];
    assert ApplyAll(cfg, t, Front(both)) == AgeAll(t, passStart);
  }

  /** The table after a run of passes is the table after its locked sections, one by one. */
  lemma {:induction false} RunIsSteps(cfg: Cfg, ps: seq<Pass>)
    ensures Run(cfg, ps).table == ApplyAll(cfg, [], AllSteps(ps))
  {
    if |ps| > 0 {
      var t, p := Run(cfg, Front(ps)).table, Last(ps);
      RunIsSteps(cfg, Front(ps));
      ApplyAppend(cfg, [], AllSteps(Front(ps)), PassSteps(p));
      ApplyAppend(cfg, t, Sights(p.sightings) + Names(p.names), [Age(Second(p.start)), Diff]);
      ApplyAppend(cfg, t, Sights(p.sightings), Names(p.names));
      SightsHarvest(cfg, t, p.sightings);
      NamesApply(cfg, HarvestAll(t, p.sightings), p.names);
      AgeThenDiff(cfg, ApplyNames(HarvestAll(t, p.sightings), p.names), Second(p.start));
    }
  }

  // ---- Enrichment is write-once ----

  /** What has been learnt about a device stays as it was learnt. */
  predicate Keeps(d: Device, d': Device) {
    && d'.mac == d.mac && d'.inUse == d.inUse && d'.randomized == d.randomized
    && d'.known == d.known && d'.notes == d.notes
    && (d.firstSeen != 0 ==> d'.firstSeen == d.firstSeen)
    && (d.hostname != "" ==> d'.hostname == d.hostname)
    && (d.devClass != UnknownClass ==> d'.devClass == d.devClass)
    && (d.vendor != "" ==> d'.vendor == d.vendor)
    && (d.announced ==> d'.announced)
  }

  predicate KeepsAll(t: seq<Device>, t': seq<Device>) {
    |t| <= |t'| && forall i :: 0 <= i < |t| ==> Keeps(t[i], t'[i])
  }

  lemma StepKeeps(cfg: Cfg, t: seq<Device>, step: LockStep)
    requires Distinct(t) && |t| <= MAX_DEVICES
    ensures KeepsAll(t, Apply(cfg, t, step))
    ensures Distinct(Apply(cfg, t, step)) && |Apply(cfg, t, step)| <= MAX_DEVICES
  {
    match step
    case Sight(s) => HarvestStep(t, s);
    case Name(hit) => NameKeepsMacs(t, hit);
    case Age(passStart) => AgeKeepsMacs(t, passStart);
    case Diff => SettleKeepsAll(cfg, t);
  }

  lemma NameKeepsMacs(t: seq<Device>, hit: NameHit)
    requires Distinct(t)
    ensures KeepsAll(t, ApplyName(t, hit)) && Distinct(ApplyName(t, hit)) && |ApplyName(t, hit)| == |t|
  {
  }

  lemma AgeKeepsMacs(t: seq<Device>, passStart: nat)
    requires Distinct(t)
    ensures KeepsAll(t, AgeAll(t, passStart)) && Distinct(AgeAll(t, passStart))
  {
    forall i | 0 <= i < |t| ensures Keeps(t[i], AgeAll(t, passStart)[i]) {
      AgeKeeps(t[i], passStart);
    }
  }

  lemma SettleKeepsAll(cfg: Cfg, t: seq<Device>)
    requires Distinct(t)
    ensures KeepsAll(t, SettleAll(cfg, t)) && Distinct(SettleAll(cfg, t))
  {
    forall i | 0 <= i < |t| ensures Keeps(t[i], SettleAll(cfg, t)[i]) {
    }
  }

  /** From any table on, no sequence of steps changes what has been learnt, or frees or moves a slot. */
  lemma {:induction false} WriteOnce(cfg: Cfg, t: seq<Device>, steps: seq<LockStep>)
    requires Distinct(t) && |t| <= MAX_DEVICES
    ensures KeepsAll(t, ApplyAll(cfg, t, steps))
    ensures Distinct(ApplyAll(cfg, t, steps)) && |ApplyAll(cfg, t, steps)| <= MAX_DEVICES
  {
    if |steps| > 0 {
      var t1 := ApplyAll(cfg, t, Front(steps));
      WriteOnce(cfg, t, Front(steps));
      StepKeeps(cfg, t1, Last(steps));
      KeepsTransitive(t, t1, ApplyAll(cfg, t, steps));
    }
  }

  lemma KeepsTransitive(a: seq<Device>, b: seq<Device>, c: seq<Device>)
    requires KeepsAll(a, b) && KeepsAll(b, c)
    ensures KeepsAll(a, c)
  {
    forall i | 0 <= i < |a| ensures Keeps(a[i], c[i]) {
      assert Keeps(a[i], b[i]) && Keeps(b[i], c[i]);
    }
  }

  /**
   * An mDNS address alters at most one slot, the first that holds it: an empty name becomes the first 63
   * characters of the one given, and an unknown class the one hinted at.
   */
  lemma NameTouchesFirst(t: seq<Device>, hit: NameHit, i: nat)
    requires i < |t|
    ensures var d, d' := t[i], ApplyName(t, hit)[i];
            if d.ip == hit.ip && (forall k :: 0 <= k < i ==> t[k].ip != hit.ip) then
              && d' == d.(hostname := d'.hostname, devClass := d'.devClass)
              && d'.hostname == (if |d.hostname| > 0 then d.hostname
                                 else if |hit.name| <= 63 then hit.name else hit.name[..63])
              && d'.devClass == (if d.devClass.UnknownClass? then hit.hint else d.devClass)
            else d' == d
  {
    assert IndexOfIp(t, hit.ip) == i || ApplyName(t, hit)[i] == t[i];
  }

  // ---- The device invariant ----

  /** The second of the latest sighting, or zero. */
  function LatestSighting(steps: seq<LockStep>): nat {
    if |steps| == 0 then 0
    else if Last(steps).Sight? then Second(Last(steps).sighting.at)
    else LatestSighting(Front(steps))
  }

  predicate InOrder(steps: seq<LockStep>) {
    |steps| > 0 ==>
      && InOrder(Front(steps))
      && (Last(steps).Sight? ==> LatestSighting(Front(steps)) <= Second(Last(steps).sighting.at))
  }

  /** How many aging sections, one a pass, the steps hold. */
  function Agings(steps: seq<LockStep>): nat {
    if |steps| == 0 then 0 else Agings(Front(steps)) + if Last(steps).Age? then 1 else 0
  }

  /** Online means fewer than three misses; a device was last seen no earlier than first. */
  predicate Sound(d: Device, latest: nat, agings: nat) {
    && d.inUse
    && (d.randomized <==> d.mac[0] % 4 >= 2)
    && d.missCount <= agings
    && (d.online <==> d.missCount < MISS_THRESHOLD)
    && d.firstSeen <= d.lastSeen <= latest
  }

  predicate AllSound(t: seq<Device>, latest: nat, agings: nat) {
    forall i :: 0 <= i < |t| ==> Sound(t[i], latest, agings)
  }

  lemma StepSound(cfg: Cfg, t: seq<Device>, step: LockStep, latest: nat, agings: nat)
    requires Distinct(t) && |t| <= MAX_DEVICES && AllSound(t, latest, agings)
    requires step.Sight? ==> latest <= Second(step.sighting.at)
    requires step.Age? ==> agings + 1 < TWO_TO_THE_32
    ensures AllSound(Apply(cfg, t, step), if step.Sight? then Second(step.sighting.at) else latest,
                     if step.Age? then agings + 1 else agings)
  {
    match step
    case Sight(s) => HarvestSound(t, s, latest, agings);
    case Name(hit) => NameSound(t, hit, latest, agings);
    case Age(passStart) => AgeSound(t, passStart, latest, agings);
    case Diff => SettleSound(cfg, t, latest, agings);
  }

  lemma HarvestSound(t: seq<Device>, s: Sighting, latest: nat, agings: nat)
    requires Distinct(t) && |t| <= MAX_DEVICES && AllSound(t, latest, agings) && latest <= Second(s.at)
    ensures AllSound(Harvest(t, s), Second(s.at), agings)
  {
    HarvestStep(t, s);
  }

  lemma NameSound(t: seq<Device>, hit: NameHit, latest: nat, agings: nat)
    requires AllSound(t, latest, agings)
    ensures AllSound(ApplyName(t, hit), latest, agings)
  {
  }

  lemma AgeSound(t: seq<Device>, passStart: nat, latest: nat, agings: nat)
    requires AllSound(t, latest, agings) && agings + 1 < TWO_TO_THE_32
    ensures AllSound(AgeAll(t, passStart), latest, agings + 1)
  {
    forall i | 0 <= i < |t| ensures Sound(AgeAll(t, passStart)[i], latest, agings + 1) {
      assert Sound(t[i], latest, agings);
    }
  }

  lemma SettleSound(cfg: Cfg, t: seq<Device>, latest: nat, agings: nat)
    requires AllSound(t, latest, agings)
    ensures AllSound(SettleAll(cfg, t), latest, agings)
  {
    forall i | 0 <= i < |t| ensures Sound(SettleAll(cfg, t)[i], latest, agings) {
      assert Sound(t[i], latest, agings);
    }
  }

  /** The device invariant at every lock release, until the 32-bit miss counter could wrap. */
  lemma {:induction false} DeviceInvariant(cfg: Cfg, steps: seq<LockStep>)
    requires InOrder(steps) && Agings(steps) < TWO_TO_THE_32
    ensures AllSound(ApplyAll(cfg, [], steps), LatestSighting(steps), Agings(steps))
  {
    if |steps| > 0 {
      DeviceInvariant(cfg, Front(steps));
      WriteOnce(cfg, [], Front(steps));
      StepSound(cfg, ApplyAll(cfg, [], Front(steps)), Last(steps), LatestSighting(Front(steps)), Agings(Front(steps)));
    }
  }

  // ---- The lock releases of well-timed runs ----

  lemma {:induction false} PrefixInOrder(steps: seq<LockStep>, k: nat)
    requires InOrder(steps) && k <= |steps|
    ensures InOrder(steps[..k])
  {
    if k < |steps| {
      PrefixInOrder(Front(steps), k);
      assert Front(steps)[..k] == steps[..k];
    } else {
      assert steps[..k] == steps;
    }
  }

  lemma {:induction false} QuietInOrder(a: seq<LockStep>, b: seq<LockStep>)
    requires InOrder(a) && forall i :: 0 <= i < |b| ==> !b[i].Sight?
    ensures InOrder(a + b) && LatestSighting(a + b) == LatestSighting(a)
  {
    if |b| == 0 {
      assert a + b == a;
    } else {
      QuietInOrder(a, Front(b));
      assert Front(a + b) == a + Front(b);
    }
  }

  lemma SightsPush(a: seq<LockStep>, ss: seq<Sighting>)
    requires |ss| > 0
    ensures var steps := a + Sights(ss);
            |steps| > 0 && Front(steps) == a + Sights(Front(ss)) && Last(steps) == Sight(Last(ss))
  {
  }

  lemma SecondsAscend(ss: seq<Sighting>, from: nat, to: nat)
    requires Sighted(ss, from, to) && |ss| > 0
    ensures Second(from) <= Second(Last(ss).at) <= Second(to)
    ensures |ss| > 1 ==> Second(Last(Front(ss)).at) <= Second(Last(ss).at)
  {
    assert |ss| > 1 ==> ss[|ss| - 2].at <= ss[|ss| - 1].at;
  }

  lemma {:induction false} SightsInOrder(a: seq<LockStep>, ss: seq<Sighting>, from: nat, to: nat)
    requires InOrder(a) && LatestSighting(a) <= Second(from) && Sighted(ss, from, to)
    ensures InOrder(a + Sights(ss)) && LatestSighting(a + Sights(ss)) <= Second(to)
    ensures LatestSighting(a + Sights(ss)) <= if |ss| > 0 then Second(Last(ss).at) else Second(from)
  {
    if |ss| == 0 {
      assert a + Sights(ss) == a;
    } else {
      SightsInOrder(a, Front(ss), from, to);
      SightsPush(a, ss);
      SecondsAscend(ss, from, to);
    }
  }

  lemma NamesAreQuiet(p: Pass)
    ensures var quiet := Names(p.names) + [Age(Second(p.start)), Diff];
            && (forall i :: 0 <= i < |quiet| ==> !quiet[i].Sight?)
            && PassSteps(p) == Sights(p.sightings) + quiet
  {
  }

  lemma {:induction false} PassInOrder(a: seq<LockStep>, p: Pass, earliest: nat)
    requires InOrder(a) && LatestSighting(a) <= Second(earliest) && PassTimed(p, earliest)
    ensures InOrder(a + PassSteps(p)) && LatestSighting(a + PassSteps(p)) <= Second(p.end)
  {
    var quiet := Names(p.names) + [Age(Second(p.start)), Diff];
    NamesAreQuiet(p);
    SightsInOrder(a, p.sightings, p.start, p.end);
    QuietInOrder(a + Sights(p.sightings), quiet);
    assert a + (Sights(p.sightings) + quiet) == a + Sights(p.sightings) + quiet;
  }

  lemma {:induction false} RunInOrder(ps: seq<Pass>)
    requires WellTimed(ps)
    ensures InOrder(AllSteps(ps)) && LatestSighting(AllSteps(ps)) <= Second(EndOf(ps))
  {
    if |ps| > 0 {
      hide PassSteps;
      RunInOrder(Front(ps));
      PassInOrder(AllSteps(Front(ps)), Last(ps), EndOf(Front(ps)));
    }
  }

  /** At every lock release of every well-timed run, every stored device satisfies the invariant. */
  lemma {:induction false} SoundAtEveryRelease(cfg: Cfg, ps: seq<Pass>, k: nat)
    requires WellTimed(ps) && k <= |AllSteps(ps)| && Agings(AllSteps(ps)[..k]) < TWO_TO_THE_32
    ensures var t := ApplyAll(cfg, [], AllSteps(ps)[..k]);
            && AllSound(t, LatestSighting(AllSteps(ps)[..k]), Agings(AllSteps(ps)[..k]))
            && Distinct(t) && |t| <= MAX_DEVICES && OnlineCount(t) <= |t|
  {
    var steps := AllSteps(ps)[..k];
    RunInOrder(ps);
    PrefixInOrder(AllSteps(ps), k);
    DeviceInvariant(cfg, steps);
    WriteOnce(cfg, [], steps);
    OnlineAtMostTotal(ApplyAll(cfg, [], steps));
  }

  // ---- The history of one MAC at every lock release ----

  /** The table after `k` locked sections of a pass that follows a completed run. */
  function Midway(cfg: Cfg, ps: seq<Pass>, p: Pass, k: nat): seq<Device>
    requires k < |PassSteps(p)|
  {
    ApplyAll(cfg, Run(cfg, ps).table, PassSteps(p)[..k])
  }

  lemma DiffComesLast(p: Pass)
    ensures var k := |PassSteps(p)| - 1;
            k >= 0 && PassSteps(p)[k] == Diff && forall j :: 0 <= j < k ==> !PassSteps(p)[j].Diff?
  {
  }

  /** The last section of a pass is its diff, the only one that logs, and the pass is complete after it. */
  lemma {:induction false} MidwayEnds(cfg: Cfg, ps: seq<Pass>, p: Pass)
    ensures Apply(cfg, Midway(cfg, ps, p, |PassSteps(p)| - 1), Diff) == Run(cfg, ps + [p]).table
  {
    hide PassSteps, Run, Apply;
    DiffComesLast(p);
    RunIsSteps(cfg, ps + [p]);
    RunIsSteps(cfg, ps);
    assert Front(ps + [p]) == ps;
    ApplyAppend(cfg, [], AllSteps(ps), PassSteps(p));
  }

  /** Between diffs a device's announcement and remembered state stand still, and new slots are unannounced. */
  predicate Undiffed(t: seq<Device>, t': seq<Device>) {
    && |t| <= |t'|
    && (forall i :: 0 <= i < |t| ==> t'[i].mac == t[i].mac && t'[i].announced == t[i].announced
                                     && t'[i].wasOnline == t[i].wasOnline)
    && (forall i :: |t| <= i < |t'| ==> !t'[i].announced)
  }

  lemma StepUndiffed(cfg: Cfg, t: seq<Device>, step: LockStep)
    requires Distinct(t) && |t| <= MAX_DEVICES && !step.Diff?
    ensures Undiffed(t, Apply(cfg, t, step))
  {
    if step.Sight? {
      HarvestStep(t, step.sighting);
    }
  }

  lemma {:induction false} StepsUndiffed(cfg: Cfg, t: seq<Device>, steps: seq<LockStep>)
    requires Distinct(t) && |t| <= MAX_DEVICES
    requires forall j :: 0 <= j < |steps| ==> !steps[j].Diff?
    ensures Undiffed(t, ApplyAll(cfg, t, steps))
  {
    if |steps| > 0 {
      WriteOnce(cfg, t, Front(steps));
      StepsUndiffed(cfg, t, Front(steps));
      StepUndiffed(cfg, ApplyAll(cfg, t, Front(steps)), Last(steps));
    }
  }

  /** What the log says about the MAC of a slot is what the slot remembers. */
  predicate Remembers(cfg: Cfg, log: seq<Event>, d: Device, night: bool, n: nat) {
    if d.announced
    then Ledger.Trace(LogKeys(log), d.mac) == IntroKeys(cfg, d.mac, night) + Ledger.Alternation(d.mac, n)
         && (d.wasOnline <==> n % 2 == 0)
    else Ledger.Trace(LogKeys(log), d.mac) == []
  }

  /**
   * The grammar at every lock release, between the sections of a pass too: an announced device is
   * remembered online exactly when its history does not end in MISSING, and a MAC that is not announced
   * or not stored has no history. The log is the one the latest complete pass left behind.
   */
  lemma GrammarAtEveryRelease(cfg: Cfg, ps: seq<Pass>, p: Pass, k: nat, mac: Mac) returns (night: bool, n: nat)
    requires WellTimed(ps) && k < |PassSteps(p)|
    ensures var t, log := Midway(cfg, ps, p, k), Run(cfg, ps).log;
            var i := IndexOf(t, mac);
            if i < |t| then Remembers(cfg, log, t[i], night, n) else Ledger.Trace(LogKeys(log), mac) == []
  {
    var t0, steps := Run(cfg, ps).table, PassSteps(p)[..k];
    night, n := Ledger.Grammar(cfg, ps, mac);
    RunIsSteps(cfg, ps);
    WriteOnce(cfg, [], AllSteps(ps));
    DiffComesLast(p);
    StepsUndiffed(cfg, t0, steps);
    WriteOnce(cfg, t0, steps);
    SameSlot(t0, Midway(cfg, ps, p, k), mac);
  }

  lemma {:induction false} SameSlot(t: seq<Device>, t': seq<Device>, mac: Mac)
    requires Undiffed(t, t') && Distinct(t')
    ensures IndexOf(t, mac) < |t| ==> IndexOf(t', mac) == IndexOf(t, mac)
    ensures IndexOf(t, mac) == |t| ==> IndexOf(t', mac) >= |t|
  {
    var i := IndexOf(t, mac);
    if i < |t| {
      assert t'[i].mac == mac;
      assert IndexOf(t', mac) <= i ==> t'[IndexOf(t', mac)].mac == mac;
    }
  }
}
