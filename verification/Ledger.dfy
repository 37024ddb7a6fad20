/**
 * What the log says about each device and about the whole network, over entire runs: every MAC's
 * history follows one grammar, and the online count balances against the log.
 */
module Ledger {
  import opened Prelude
  import opened Inventory
  import opened Discovery
  import opened Anomaly
  import opened Spine
  import opened Presence

  // ---- How the set of stored MACs grows ----

  /** A pass keeps the stored MACs and appends only MACs that were never present before it. */
  lemma {:induction false} AdmittedStep(ps: seq<Pass>)
    requires |ps| > 0 && WellTimed(ps)
    ensures |Admitted(Front(ps))| <= |Admitted(ps)|
    ensures forall i :: 0 <= i < |Admitted(Front(ps))| ==>
                          Admitted(ps)[i] == Admitted(Front(ps))[i] && EverIn(FreshSets(Front(ps)), Admitted(ps)[i])
    ensures forall i :: |Admitted(Front(ps))| <= i < |Admitted(ps)| ==>
                          !EverIn(FreshSets(Front(ps)), Admitted(ps)[i]) && Admitted(ps)[i] in FreshSet(ps)
  {
    var a, b := AllSightings(Front(ps)), Last(ps).sightings;
    OrderGrows(a, b);
    var order, order' := FirstSeenOrder(a), FirstSeenOrder(a + b);
    forall i | 0 <= i < |Admitted(Front(ps))|
      ensures Admitted(ps)[i] == Admitted(Front(ps))[i] && EverIn(FreshSets(Front(ps)), Admitted(ps)[i])
    {
      assert order'[..|order|][i] == order[i];
      assert order[i] in order;
      SightedIsFresh(Front(ps), order[i]);
    }
    forall i | |Admitted(Front(ps))| <= i < |Admitted(ps)|
      ensures !EverIn(FreshSets(Front(ps)), Admitted(ps)[i]) && Admitted(ps)[i] in FreshSet(ps)
    {
      var mac := Admitted(ps)[i];
      NewInOrder(a, b, i);
      SightedIsFresh(Front(ps), mac);
      SightedSlot(ps, Claimed(mac));
    }
  }

  // ---- Conservation ----

  function CountKind(keys: seq<Key>, kind: Kind): nat {
    if |keys| == 0 then 0 else CountKind(Front(keys), kind) + if Last(keys).kind == kind then 1 else 0
  }

  lemma {:induction false} CountKindAppend(a: seq<Key>, b: seq<Key>, kind: Kind)
    ensures CountKind(a + b, kind) == CountKind(a, kind) + CountKind(b, kind)
  {
    if |b| == 0 {
      assert a + b == a;
    } else {
      CountKindAppend(a, Front(b), kind);
      assert Front(a + b) == a + Front(b);
    }
  }

  lemma {:induction false} CountOne(k: Key, kind: Kind)
    ensures CountKind([k], kind) == if k.kind == kind then 1 else 0
  {
    assert Front([k]) == [];
  }

  lemma {:induction false} CountAbsent(keys: seq<Key>, kind: Kind)
    requires forall k :: k in keys ==> k.kind != kind
    ensures CountKind(keys, kind) == 0
  {
    if |keys| > 0 {
      CountAbsent(Front(keys), kind);
    }
  }

  /** Returns minus losses among some log keys. */
  function NetReturns(keys: seq<Key>): int {
    CountKind(keys, DeviceReturned) - CountKind(keys, DeviceMissing)
  }

  lemma NetReturnsAppend(a: seq<Key>, b: seq<Key>)
    ensures NetReturns(a + b) == NetReturns(a) + NetReturns(b)
  {
    CountKindAppend(a, b, DeviceReturned);
    CountKindAppend(a, b, DeviceMissing);
  }

  function Flag(b: bool): int {
    if b then 1 else 0
  }

  lemma BlockBalance(cfg: Cfg, hits: seq<set<Mac>>, hit: set<Mac>, mac: Mac, night: bool)
    requires EverIn(hits, mac) || mac in hit
    ensures NetReturns(BlockKeys(cfg, hits + [hit], mac, night)) ==
              Flag(InLastThree(hits + [hit], mac)) - if EverIn(hits, mac) then Flag(InLastThree(hits, mac)) else 1
  {
    WindowsPush(hits, hit, mac);
    if EverIn(hits, mac) {
      TransitionWindows(cfg, hits, hit, mac, night);
      CountOne(Key(DeviceMissing, Warning, mac), DeviceReturned);
      CountOne(Key(DeviceMissing, Warning, mac), DeviceMissing);
      CountOne(Key(DeviceReturned, Info, mac), DeviceReturned);
      CountOne(Key(DeviceReturned, Info, mac), DeviceMissing);
    } else {
      CountAbsent(IntroKeys(cfg, mac, night), DeviceReturned);
      CountAbsent(IntroKeys(cfg, mac, night), DeviceMissing);
    }
  }

  function Newcomers(hits: seq<set<Mac>>, macs: seq<Mac>): nat {
    if |macs| == 0 then 0 else Newcomers(hits, Front(macs)) + if EverIn(hits, Last(macs)) then 0 else 1
  }

  lemma NeverInIsOffline(hits: seq<set<Mac>>, mac: Mac)
    requires !EverIn(hits, mac)
    ensures !InLastThree(hits, mac)
  {
    assert forall i :: 0 <= i < |hits| ==> hits[i] in hits;
  }

  lemma {:induction false} BlocksBalance(cfg: Cfg, hits: seq<set<Mac>>, hit: set<Mac>, macs: seq<Mac>, night: bool)
    requires forall mac :: mac in macs ==> EverIn(hits, mac) || mac in hit
    ensures NetReturns(BlocksKeys(cfg, hits + [hit], macs, night)) ==
              CountInLastThree(hits + [hit], macs) - CountInLastThree(hits, macs) - Newcomers(hits, macs)
  {
    if |macs| > 0 {
      var mac := Last(macs);
      BlocksBalance(cfg, hits, hit, Front(macs), night);
      BlockBalance(cfg, hits, hit, mac, night);
      NetReturnsAppend(BlocksKeys(cfg, hits + [hit], Front(macs), night), BlockKeys(cfg, hits + [hit], mac, night));
      if !EverIn(hits, mac) {
        NeverInIsOffline(hits, mac);
      }
    }
  }

  /** Newcomers were offline before, and they are exactly the appended MACs. */
  lemma {:induction false} NewcomersAppended(hits: seq<set<Mac>>, macs: seq<Mac>, old_: nat)
    requires old_ <= |macs|
    requires forall i :: 0 <= i < old_ ==> EverIn(hits, macs[i])
    requires forall i :: old_ <= i < |macs| ==> !EverIn(hits, macs[i])
    ensures Newcomers(hits, macs) == |macs| - old_
    ensures CountInLastThree(hits, macs) == CountInLastThree(hits, macs[..old_])
  {
    if |macs| == old_ {
      assert macs[..old_] == macs;
    }
    if |macs| > 0 {
      if |macs| > old_ {
        NewcomersAppended(hits, Front(macs), old_);
        assert Front(macs)[..old_] == macs[..old_];
        NeverInIsOffline(hits, Last(macs));
      } else {
        NewcomersAppended(hits, Front(macs), old_ - 1);
      }
    }
  }

  lemma GrowthIsNeutral(cfg: Cfg, baseline: Baseline, online: nat)
    ensures NetReturns(GrowthKeys(cfg, baseline, online)) == 0
  {
    CountAbsent(GrowthKeys(cfg, baseline, online), DeviceReturned);
    CountAbsent(GrowthKeys(cfg, baseline, online), DeviceMissing);
  }

  lemma {:induction false} ReferenceBalance(cfg: Cfg, ps: seq<Pass>)
    requires WellTimed(ps)
    ensures CountInLastThree(FreshSets(ps), Admitted(ps)) ==
              |Admitted(ps)| + NetReturns(ReferenceLog(cfg, ps, FreshSets(ps)))
  {
    if |ps| > 0 {
      var before, hit, macs := FreshSets(Front(ps)), FreshSet(ps), Admitted(ps);
      ReferenceBalance(cfg, Front(ps));
      AdmittedStep(ps);
      assert before + [hit] == FreshSets(ps) && Front(FreshSets(ps)) == before;
      forall mac | mac in macs ensures EverIn(before, mac) || mac in hit {
        var i :| 0 <= i < |macs| && macs[i] == mac;
      }
      BlocksBalance(cfg, before, hit, macs, Night(cfg, Last(ps)));
      NewcomersAppended(before, macs, |Admitted(Front(ps))|);
      assert macs[..|Admitted(Front(ps))|] == Admitted(Front(ps));
      SliceBalance(cfg, ps);
    }
  }

  lemma {:induction false} SliceBalance(cfg: Cfg, ps: seq<Pass>)
    requires |ps| > 0
    ensures NetReturns(ReferenceLog(cfg, ps, FreshSets(ps))) ==
              NetReturns(ReferenceLog(cfg, Front(ps), FreshSets(Front(ps))))
              + NetReturns(BlocksKeys(cfg, FreshSets(ps), Admitted(ps), Night(cfg, Last(ps))))
  {
    var hits := FreshSets(ps);
    assert Front(hits) == FreshSets(Front(ps));
    var blocks := BlocksKeys(cfg, hits, Admitted(ps), Night(cfg, Last(ps)));
    var baseline, online := ReferenceBaseline(Front(ps), Front(hits)), CountInLastThree(hits, Admitted(ps));
    GrowthIsNeutral(cfg, baseline, online);
    NetReturnsAppend(blocks, GrowthKeys(cfg, baseline, online));
    NetReturnsAppend(ReferenceLog(cfg, Front(ps), Front(hits)), blocks + GrowthKeys(cfg, baseline, online));
  }

  /**
   * Conservation. After every diff the online count is the number of stored devices, plus all returns,
   * minus all losses ever logged, those the ring has overwritten and suppressed devices included.
   */
  lemma {:induction false} Conservation(cfg: Cfg, ps: seq<Pass>)
    requires WellTimed(ps)
    ensures OnlineCount(Run(cfg, ps).table) == |Run(cfg, ps).table| + NetReturns(LogKeys(Run(cfg, ps).log))
  {
    RunMatchesReference(cfg, ps);
    TrackedOnline(ps, Run(cfg, ps).table);
    ReferenceBalance(cfg, ps);
  }

  // ---- The history of one MAC ----

  predicate About(k: Key, mac: Mac) {
    k.mac == mac && k.kind != DeviceGrowth
  }

  /** The log entries about one device. */
  function Trace(keys: seq<Key>, mac: Mac): seq<Key> {
    if |keys| == 0 then [] else Trace(Front(keys), mac) + if About(Last(keys), mac) then [Last(keys)] else []
  }

  lemma {:induction false} TraceAppend(a: seq<Key>, b: seq<Key>, mac: Mac)
    ensures Trace(a + b, mac) == Trace(a, mac) + Trace(b, mac)
  {
    if |b| == 0 {
      assert a + b == a;
    } else {
      TraceAppend(a, Front(b), mac);
      assert Front(a + b) == a + Front(b);
    }
  }

  lemma {:induction false} TraceWhole(keys: seq<Key>, mac: Mac, mine: bool)
    requires forall k :: k in keys ==> About(k, mac) == mine
    ensures Trace(keys, mac) == if mine then keys else []
  {
    if |keys| > 0 {
      hide About;
      assert keys == Front(keys) + [Last(keys)];
      assert Last(keys) in keys && forall k :: k in Front(keys) ==> k in keys;
      TraceWhole(Front(keys), mac, mine);
    }
  }

  lemma BlockKeysAbout(cfg: Cfg, hits: seq<set<Mac>>, m: Mac, night: bool)
    requires |hits| > 0
    ensures forall k :: k in BlockKeys(cfg, hits, m, night) ==> About(k, m)
    ensures forall k, mac :: k in BlockKeys(cfg, hits, m, night) && m != mac ==> !About(k, mac)
  {
    hide In, EverIn;
  }

  lemma {:induction false} BlockIsAbout(cfg: Cfg, hits: seq<set<Mac>>, m: Mac, mac: Mac, night: bool)
    requires |hits| > 0
    ensures Trace(BlockKeys(cfg, hits, m, night), mac) == if m == mac then BlockKeys(cfg, hits, m, night) else []
  {
    BlockKeysAbout(cfg, hits, m, night);
    hide BlockKeys;
    TraceWhole(BlockKeys(cfg, hits, m, night), mac, m == mac);
  }

  lemma {:induction false} TraceOfBlocks(cfg: Cfg, hits: seq<set<Mac>>, macs: seq<Mac>, mac: Mac, night: bool)
    requires |hits| > 0
    requires forall i, j :: 0 <= i < j < |macs| ==> macs[i] != macs[j]
    ensures Trace(BlocksKeys(cfg, hits, macs, night), mac) ==
              if mac in macs then BlockKeys(cfg, hits, mac, night) else []
  {
    if |macs| > 0 {
      var m := Last(macs);
      assert macs == Front(macs) + [m];
      TraceOfBlocks(cfg, hits, Front(macs), mac, night);
      BlockIsAbout(cfg, hits, m, mac, night);
      TraceAppend(BlocksKeys(cfg, hits, Front(macs), night), BlockKeys(cfg, hits, m, night), mac);
    }
  }

  lemma {:induction false} TraceOfGrowth(cfg: Cfg, baseline: Baseline, online: nat, mac: Mac)
    ensures Trace(GrowthKeys(cfg, baseline, online), mac) == []
  {
    TraceWhole(GrowthKeys(cfg, baseline, online), mac, false);
  }

  lemma {:induction false} TraceOfSlice(cfg: Cfg, ps: seq<Pass>, hits: seq<set<Mac>>, mac: Mac)
    requires |hits| == |ps| > 0
    ensures Trace(ReferenceSlice(cfg, ps, hits), mac) ==
              if mac in Admitted(ps) then BlockKeys(cfg, hits, mac, Night(cfg, Last(ps))) else []
  {
    var blocks := BlocksKeys(cfg, hits, Admitted(ps), Night(cfg, Last(ps)));
    var baseline, online := ReferenceBaseline(Front(ps), Front(hits)), CountInLastThree(hits, Admitted(ps));
    TraceOfBlocks(cfg, hits, Admitted(ps), mac, Night(cfg, Last(ps)));
    TraceOfGrowth(cfg, baseline, online, mac);
    TraceAppend(blocks, GrowthKeys(cfg, baseline, online), mac);
  }

  /** One pass extends a MAC's trace by its block. */
  lemma {:induction false} TraceStep(cfg: Cfg, ps: seq<Pass>, mac: Mac)
    requires |ps| > 0
    ensures Trace(ReferenceLog(cfg, ps, FreshSets(ps)), mac) ==
              Trace(ReferenceLog(cfg, Front(ps), FreshSets(Front(ps))), mac)
              + if mac in Admitted(ps) then BlockKeys(cfg, FreshSets(ps), mac, Night(cfg, Last(ps))) else []
  {
    var hits := FreshSets(ps);
    assert Front(hits) == FreshSets(Front(ps));
    TraceOfSlice(cfg, ps, hits, mac);
    TraceAppend(ReferenceLog(cfg, Front(ps), Front(hits)), ReferenceSlice(cfg, ps, hits), mac);
  }

  /** MISSING, RETURNED, MISSING, ... */
  function Alternation(mac: Mac, n: nat): seq<Key> {
    if n == 0 then [] else
      Alternation(mac, n - 1)
      + [if n % 2 == 1 then Key(DeviceMissing, Warning, mac) else Key(DeviceReturned, Info, mac)]
  }

  lemma AlternationPush(intro: seq<Key>, mac: Mac, n: nat, block: seq<Key>, was: bool, now: bool)
    requires was == (n % 2 == 0)
    requires block == if was && !now then [Key(DeviceMissing, Warning, mac)]
                      else if !was && now then [Key(DeviceReturned, Info, mac)] else []
    ensures var n' := if was == now then n else n + 1;
            intro + Alternation(mac, n) + block == intro + Alternation(mac, n') && now == (n' % 2 == 0)
  {
    if was != now {
      assert intro + Alternation(mac, n) + block == intro + (Alternation(mac, n) + block);
    }
  }

  /** An already stored MAC: its block extends the alternation, or is empty. */
  lemma GrammarStepOld(cfg: Cfg, ps: seq<Pass>, mac: Mac, night: bool, n: nat) returns (n': nat)
    requires |ps| > 0 && EverIn(FreshSets(Front(ps)), mac) && mac in Admitted(ps)
    requires Trace(ReferenceLog(cfg, Front(ps), FreshSets(Front(ps))), mac) ==
               IntroKeys(cfg, mac, night) + Alternation(mac, n)
    requires n % 2 == 0 <==> InLastThree(FreshSets(Front(ps)), mac)
    ensures Trace(ReferenceLog(cfg, ps, FreshSets(ps)), mac) == IntroKeys(cfg, mac, night) + Alternation(mac, n')
    ensures n' % 2 == 0 <==> InLastThree(FreshSets(ps), mac)
  {
    var was, now := InLastThree(FreshSets(Front(ps)), mac), InLastThree(FreshSets(ps), mac);
    n' := if was == now then n else n + 1;
    TraceStep(cfg, ps, mac);
    TransitionWindows(cfg, FreshSets(Front(ps)), FreshSet(ps), mac, Night(cfg, Last(ps)));
    AlternationPush(IntroKeys(cfg, mac, night), mac, n,
                    BlockKeys(cfg, FreshSets(ps), mac, Night(cfg, Last(ps))), was, now);
  }

  /** A newly stored MAC: its trace is its introduction. */
  lemma {:induction false} GrammarStepNew(cfg: Cfg, ps: seq<Pass>, mac: Mac)
    requires |ps| > 0 && !EverIn(FreshSets(Front(ps)), mac) && mac in FreshSet(ps) && mac in Admitted(ps)
    requires Trace(ReferenceLog(cfg, Front(ps), FreshSets(Front(ps))), mac) == []
    ensures Trace(ReferenceLog(cfg, ps, FreshSets(ps)), mac) == IntroKeys(cfg, mac, Night(cfg, Last(ps)))
    ensures InLastThree(FreshSets(ps), mac)
  {
    TraceStep(cfg, ps, mac);
    WindowsPush(FreshSets(Front(ps)), FreshSet(ps), mac);
  }

  /** A MAC in the table was there before this pass, or is present for the first time. */
  lemma {:induction false} AdmittedMember(ps: seq<Pass>, mac: Mac)
    requires |ps| > 0 && WellTimed(ps)
    ensures mac !in Admitted(ps) ==> mac !in Admitted(Front(ps))
    ensures mac in Admitted(ps) ==>
              if EverIn(FreshSets(Front(ps)), mac) then mac in Admitted(Front(ps))
              else mac !in Admitted(Front(ps)) && mac in FreshSet(ps)
  {
    AdmittedStep(ps);
    if mac in Admitted(ps) {
      var i :| 0 <= i < |Admitted(ps)| && Admitted(ps)[i] == mac;
      if i < |Admitted(Front(ps))| {
        assert Admitted(Front(ps))[i] == mac;
      } else {
        NeverAdmitted(Front(ps), mac);
      }
    } else {
      assert forall i :: 0 <= i < |Admitted(Front(ps))| ==> Admitted(Front(ps))[i] == Admitted(ps)[i];
    }
  }

  ghost predicate FollowsGrammar(cfg: Cfg, ps: seq<Pass>, mac: Mac, night: bool, n: nat) {
    var trace := Trace(ReferenceLog(cfg, ps, FreshSets(ps)), mac);
    if mac in Admitted(ps)
    then trace == IntroKeys(cfg, mac, night) + Alternation(mac, n) && (n % 2 == 0 <==> InLastThree(FreshSets(ps), mac))
    else trace == []
  }

  lemma {:induction false} ReferenceGrammar(cfg: Cfg, ps: seq<Pass>, mac: Mac) returns (night: bool, n: nat)
    requires WellTimed(ps)
    ensures FollowsGrammar(cfg, ps, mac, night, n)
  {
    night, n := false, 0;
    if |ps| > 0 {
      hide ReferenceLog, IntroKeys, Alternation, Trace, InLastThree, FreshSets, Admitted;
      night, n := ReferenceGrammar(cfg, Front(ps), mac);
      AdmittedMember(ps, mac);
      if mac !in Admitted(ps) {
        TraceStep(cfg, ps, mac);
      } else if EverIn(FreshSets(Front(ps)), mac) {
        n := GrammarStepOld(cfg, ps, mac, night, n);
      } else {
        GrammarStepNew(cfg, ps, mac);
        night, n := Night(cfg, Last(ps)), 0;
      }
    }
  }

  lemma {:induction false} NeverAdmitted(ps: seq<Pass>, mac: Mac)
    requires WellTimed(ps) && !EverIn(FreshSets(ps), mac)
    ensures mac !in Admitted(ps)
  {
    SightedIsFresh(ps, mac);
    assert mac in Admitted(ps) ==> mac in FirstSeenOrder(AllSightings(ps));
  }

  /**
   * Per-device grammar. A stored MAC's history is its introduction (empty exactly for a suppressed
   * randomized MAC; NEW, NIGHT and UNKNOWN_VENDOR at most once each) followed by MISSING and RETURNED in
   * alternation, and the device is remembered online exactly when the history does not end in MISSING.
   * A MAC that is not stored has no history.
   */
  lemma Grammar(cfg: Cfg, ps: seq<Pass>, mac: Mac) returns (night: bool, n: nat)
    requires WellTimed(ps)
    ensures var s := Run(cfg, ps); var i := IndexOf(s.table, mac);
            if i == |s.table| then Trace(LogKeys(s.log), mac) == [] else
              && Trace(LogKeys(s.log), mac) == IntroKeys(cfg, mac, night) + Alternation(mac, n)
              && s.table[i].announced
              && s.table[i].online == s.table[i].wasOnline == (n % 2 == 0)
  {
    hide Run, ReferenceLog, IntroKeys, Alternation, Trace, InLastThree, FreshSets, WellTimed, Admitted;
    RunMatchesReference(cfg, ps);
    night, n := ReferenceGrammar(cfg, ps, mac);
    var t := Run(cfg, ps).table;
    var i := IndexOf(t, mac);
    if i < |t| {
      assert SlotTracks(ps, t[i]);
      assert Macs(t)[i] == mac;
    } else {
      assert forall k :: 0 <= k < |t| ==> Macs(t)[k] == t[k].mac != mac;
    }
  }

  lemma {:induction false} AlternationKinds(mac: Mac, n: nat, kind: Kind)
    requires kind != DeviceMissing && kind != DeviceReturned
    ensures CountKind(Alternation(mac, n), kind) == 0
  {
    if n > 0 {
      AlternationKinds(mac, n - 1, kind);
      assert Front(Alternation(mac, n)) == Alternation(mac, n - 1);
    }
  }

  lemma {:induction false} IntroKinds(cfg: Cfg, mac: Mac, night: bool, kind: Kind)
    ensures CountKind(IntroKeys(cfg, mac, night), kind) <= 1
  {
    var a := Key(NewDevice, if night then Warning else Info, mac);
    var b := if night then [Key(NightActivity, Warning, mac)] else [];
    var keys := IntroKeys(cfg, mac, night);
    if keys != [] {
      var c := keys[1 + |b|..];
      assert keys == [a] + b + c;
      CountKindAppend([a] + b, c, kind);
      CountKindAppend([a], b, kind);
      CountOne(a, kind);
      CountOne(Key(NightActivity, Warning, mac), kind);
      CountOne(Key(UnknownVendor, Info, mac), kind);
      assert c == [] || c == [Key(UnknownVendor, Info, mac)];
    }
  }

  /** In a whole run each of NEW, NIGHT and UNKNOWN_VENDOR concerns a MAC at most once. */
  lemma {:induction false} IntroducedOnce(cfg: Cfg, ps: seq<Pass>, mac: Mac, kind: Kind)
    requires WellTimed(ps) && kind in {NewDevice, NightActivity, UnknownVendor}
    ensures CountKind(Trace(LogKeys(Run(cfg, ps).log), mac), kind) <= 1
  {
    var night, n := Grammar(cfg, ps, mac);
    CountKindAppend(IntroKeys(cfg, mac, night), Alternation(mac, n), kind);
    IntroKinds(cfg, mac, night, kind);
    AlternationKinds(mac, n, kind);
  }

  lemma IntroducesNew(cfg: Cfg, mac: Mac, night: bool)
    ensures CountKind(IntroKeys(cfg, mac, night), NewDevice) ==
              if mac[0] % 4 >= 2 && !cfg.alertRandomized then 0 else 1
  {
    var keys := IntroKeys(cfg, mac, night);
    if keys != [] {
      var rest := keys[1..];
      assert keys == [keys[0]] + rest;
      CountKindAppend([keys[0]], rest, NewDevice);
      CountOne(keys[0], NewDevice);
      assert forall k :: 1 <= k < |keys| ==> keys[k].kind != NewDevice;
      CountAbsent(rest, NewDevice);
    }
  }

  /**
   * In a whole run a stored MAC is announced exactly once, or never when its first octet marks it as a
   * private address and those are not alerted on.
   */
  lemma {:induction false} AnnouncedUnlessPrivate(cfg: Cfg, ps: seq<Pass>, mac: Mac)
    requires WellTimed(ps) && mac in Macs(Run(cfg, ps).table)
    ensures CountKind(Trace(LogKeys(Run(cfg, ps).log), mac), NewDevice) ==
              if mac[0] % 4 >= 2 && !cfg.alertRandomized then 0 else 1
  {
    var night, n := Grammar(cfg, ps, mac);
    StoredIff(Run(cfg, ps).table, mac);
    hide Run, IntroKeys, Trace;
    CountKindAppend(IntroKeys(cfg, mac, night), Alternation(mac, n), NewDevice);
    IntroducesNew(cfg, mac, night);
    AlternationKinds(mac, n, NewDevice);
  }

  // ---- The shape of one pass ----

  lemma BlockLength(cfg: Cfg, d: Device, night: bool)
    ensures |Block(cfg, d, night)| <= 3
  {
  }

  lemma {:induction false} BlocksLength(cfg: Cfg, t: seq<Device>, night: bool)
    ensures |Blocks(cfg, t, night)| <= 3 * |t|
  {
    if |t| > 0 {
      BlocksLength(cfg, Front(t), night);
      BlockLength(cfg, Last(t), night);
    }
  }

  /** One pass logs at most three events per stored device and one for the network. */
  lemma {:induction false} SliceLength(cfg: Cfg, ps: seq<Pass>)
    requires |ps| > 0
    ensures |Entries(cfg, Run(cfg, Front(ps)), Last(ps))| <= 3 * |Run(cfg, ps).table| + 1
  {
    var s := Run(cfg, Front(ps));
    BlocksLength(cfg, Discovered(s.table, Last(ps)), Night(cfg, Last(ps)));
  }
}
