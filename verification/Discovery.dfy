/** main/discovery.c: one pass of sweep, harvest, naming and aging. */
module Discovery {
  import opened Prelude
  import opened Inventory
  import opened Sweep
  import opened Wire

  const MISS_THRESHOLD := 3

  /** An address found in the ARP cache after a reply, at a clock reading. */
  datatype Sighting = Sighting(mac: Mac, ip: nat, at: nat)

  /** One IPv4 address of a named mDNS result. */
  datatype NameHit = NameHit(ip: nat, name: string, hint: DevClass)

  // ---- Harvest ----

  function Refresh(d: Device, ip: nat, now: nat): Device {
    d.(firstSeen := if d.firstSeen == 0 then now else d.firstSeen,
       ip := ip, lastSeen := now, online := true, missCount := 0)
  }

  function Harvest(t: seq<Device>, s: Sighting): seq<Device> {
    var t' := Admit(t, s.mac);
    var i := IndexOf(t', s.mac);
    if i < |t'| then t'[i := Refresh(t'[i], s.ip, Second(s.at))] else t'
  }

  function HarvestAll(t: seq<Device>, ss: seq<Sighting>): seq<Device> {
    if |ss| == 0 then t else Harvest(HarvestAll(t, Front(ss)), Last(ss))
  }

  lemma {:induction false} HarvestAllAppend(t: seq<Device>, a: seq<Sighting>, b: seq<Sighting>)
    ensures HarvestAll(t, a + b) == HarvestAll(HarvestAll(t, a), b)
  {
    if |b| == 0 {
      assert a + b == a;
    } else {
      HarvestAllAppend(t, a, Front(b));
      assert Front(a + b) == a + Front(b);
    }
  }

  /** Sightings in the order they were made, between two instants. */
  predicate Sighted(ss: seq<Sighting>, from: nat, to: nat) {
    && from <= to
    && (forall i :: 0 <= i < |ss| ==> from <= ss[i].at <= to)
    && (forall i, j :: 0 <= i < j < |ss| ==> ss[i].at <= ss[j].at)
  }

  function SightingOf(io: Io): seq<Sighting> {
    if io.Resolved? && io.mac.Some? then [Sighting(io.mac.value, io.ip, io.at)] else []
  }

  /** The ARP answers of a trace: what a pass sights. */
  function Sightings(tr: seq<Io>): seq<Sighting> {
    Project(SightingOf, tr)
  }

  /** `t` is `t0` after harvesting the ARP answers of a trace, all between two instants. */
  ghost predicate Harvested(t: seq<Device>, t0: seq<Device>, tr: seq<Io>, from: nat, to: nat) {
    t == HarvestAll(t0, Sightings(tr)) && Sighted(Sightings(tr), from, to)
  }

  lemma HarvestedAppend(t0: seq<Device>, a: seq<Io>, t1: seq<Device>, b: seq<Io>, t2: seq<Device>,
                        from: nat, mid: nat, to: nat)
    requires Harvested(t1, t0, a, from, mid) && Harvested(t2, t1, b, mid, to)
    ensures Harvested(t2, t0, a + b, from, to)
  {
    ProjectAppend(SightingOf, a, b);
    HarvestAllAppend(t0, Sightings(a), Sightings(b));
    SightedAppend(Sightings(a), Sightings(b), from, mid, to);
  }

  lemma SightedAppend(a: seq<Sighting>, b: seq<Sighting>, from: nat, mid: nat, to: nat)
    requires Sighted(a, from, mid) && Sighted(b, mid, to)
    ensures Sighted(a + b, from, to)
  {
  }

  lemma SightedLater(ss: seq<Sighting>, from: nat, to: nat, later: nat)
    requires Sighted(ss, from, to) && to <= later
    ensures Sighted(ss, from, later)
  {
  }

  /** Nothing is sighted by an exchange that is no ARP answer. */
  lemma HarvestedNothing(t: seq<Device>, io: Io, from: nat, to: nat)
    requires from <= to && !io.Resolved?
    ensures Harvested(t, t, [io], from, to) && Harvested(t, t, [], from, to)
  {
    ProjectOne(SightingOf, io);
  }

  // ---- Naming ----

  function SetName(d: Device, hit: NameHit): Device {
    d.(hostname := if d.hostname == "" then Take(hit.name, HOSTNAME_LEN - 1) else d.hostname,
       devClass := if d.devClass == UnknownClass then hit.hint else d.devClass)
  }

  function IndexOfIp(t: seq<Device>, ip: nat): (i: nat)
    ensures i <= |t|
    ensures i < |t| ==> t[i].ip == ip
    ensures forall k :: 0 <= k < i ==> t[k].ip != ip
  {
    if |t| == 0 then 0 else if t[0].ip == ip then 0 else 1 + IndexOfIp(t[1..], ip)
  }

  /** Only the first slot holding the address is touched. */
  function ApplyName(t: seq<Device>, hit: NameHit): seq<Device> {
    var i := IndexOfIp(t, hit.ip);
    if i < |t| then t[i := SetName(t[i], hit)] else t
  }

  function ApplyNames(t: seq<Device>, hits: seq<NameHit>): seq<Device> {
    if |hits| == 0 then t else ApplyName(ApplyNames(t, Front(hits)), Last(hits))
  }

  lemma {:induction false} ApplyNamesAppend(t: seq<Device>, a: seq<NameHit>, b: seq<NameHit>)
    ensures ApplyNames(t, a + b) == ApplyNames(ApplyNames(t, a), b)
  {
    if |b| == 0 {
      assert a + b == a;
    } else {
      ApplyNamesAppend(t, a, Front(b));
      assert Front(a + b) == a + Front(b);
    }
  }

  /** The name of a result: that of its instance, or else of its host. */
  function NameOf(r: MdnsResult): string {
    if r.instance != "" then r.instance else r.hostname
  }

  /** The IPv4 addresses of a result's list, in order, under one name. */
  function AddressHits(addresses: seq<Option<nat>>, name: string, hint: DevClass): seq<NameHit> {
    if |addresses| == 0 then [] else
      AddressHits(Front(addresses), name, hint)
      + if Last(addresses).Some? then [NameHit(Last(addresses).value, name, hint)] else []
  }

  function ResultHits(r: MdnsResult, hint: DevClass): seq<NameHit> {
    if NameOf(r) == "" then [] else AddressHits(r.addresses, NameOf(r), hint)
  }

  function AllResultHits(rs: seq<MdnsResult>, hint: DevClass): seq<NameHit> {
    if |rs| == 0 then [] else AllResultHits(Front(rs), hint) + ResultHits(Last(rs), hint)
  }

  const PROBE_HINTS := [Iot, Iot, Iot, Iot, Iot, Iot, Iot, Computer, Computer, Computer]

  function HitsOf(io: Io): seq<NameHit> {
    if io.Answered? && io.service < |PROBE_HINTS| then AllResultHits(io.results, PROBE_HINTS[io.service]) else []
  }

  // ---- What the hits of an answer are ----

  function IPv4Count(addresses: seq<Option<nat>>): nat {
    if |addresses| == 0 then 0 else IPv4Count(Front(addresses)) + if Last(addresses).Some? then 1 else 0
  }

  /** The n-th IPv4 address of a list makes the n-th hit. */
  lemma {:induction false} AddressHitAt(addresses: seq<Option<nat>>, name: string, hint: DevClass, i: nat)
    requires i < |addresses| && addresses[i].Some?
    ensures var hits := AddressHits(addresses, name, hint); var n := IPv4Count(addresses[..i]);
            n < |hits| == IPv4Count(addresses) && hits[n] == NameHit(addresses[i].value, name, hint)
  {
    AddressHitCount(addresses, name, hint);
    if i < |addresses| - 1 {
      AddressHitAt(Front(addresses), name, hint, i);
      assert Front(addresses)[..i] == addresses[..i];
    } else {
      assert Front(addresses) == addresses[..i];
      AddressHitCount(Front(addresses), name, hint);
    }
  }

  lemma {:induction false} AddressHitCount(addresses: seq<Option<nat>>, name: string, hint: DevClass)
    ensures |AddressHits(addresses, name, hint)| == IPv4Count(addresses)
  {
    if |addresses| > 0 {
      AddressHitCount(Front(addresses), name, hint);
    }
  }

  /** Each IPv4 address of a named result makes one hit, in order, under the instance name or else the host name. */
  lemma ResultHitAt(r: MdnsResult, hint: DevClass, i: nat)
    requires i < |r.addresses| && r.addresses[i].Some?
    ensures var hits, n := ResultHits(r, hint), IPv4Count(r.addresses[..i]);
            if r.instance == r.hostname == "" then hits == [] else
              && n < |hits| == IPv4Count(r.addresses)
              && hits[n] == NameHit(r.addresses[i].value, if r.instance == "" then r.hostname else r.instance, hint)
  {
    AddressHitAt(r.addresses, NameOf(r), hint, i);
  }

  lemma {:induction false} AllResultHitsAppend(a: seq<MdnsResult>, b: seq<MdnsResult>, hint: DevClass)
    ensures AllResultHits(a + b, hint) == AllResultHits(a, hint) + AllResultHits(b, hint)
  {
    hide ResultHits;
    if |b| == 0 {
      assert a + b == a;
    } else {
      AllResultHitsAppend(a, Front(b), hint);
      assert Front(a + b) == a + Front(b) && Last(a + b) == Last(b);
    }
  }

  lemma {:induction false} OneResultHits(r: MdnsResult, hint: DevClass)
    ensures AllResultHits([r], hint) == ResultHits(r, hint)
  {
    hide ResultHits;
    assert Front([r]) == [];
  }

  /** The first seven services hint at IoT devices and the last three at computers; no result is left out. */
  lemma {:induction false} AnswerHits(p: nat, a: seq<MdnsResult>, r: MdnsResult, b: seq<MdnsResult>)
    requires p < 10
    ensures var hint := if p < 7 then Iot else Computer;
            HitsOf(Answered(p, a + ([r] + b))) ==
              AllResultHits(a, hint) + (ResultHits(r, hint) + AllResultHits(b, hint))
  {
    var hint := if p < 7 then Iot else Computer;
    assert PROBE_HINTS[p] == hint;
    hide AllResultHits, ResultHits;
    AllResultHitsAppend(a, [r] + b, hint);
    AllResultHitsAppend([r], b, hint);
    OneResultHits(r, hint);
  }

  /** The mDNS answers of a trace: the names and addresses a pass applies. */
  function Hits(tr: seq<Io>): seq<NameHit> {
    Project(HitsOf, tr)
  }

  /** The first `n` services were queried, in order. */
  predicate Queried(tr: seq<Io>, n: nat) {
    |tr| == n && forall p :: 0 <= p < n ==> tr[p].Answered? && tr[p].service == p
  }

  /** Some online device has no name yet. */
  predicate Unnamed(t: seq<Device>): (b: bool)
    ensures !b <==> forall k :: 0 <= k < |t| && t[k].online ==> |t[k].hostname| > 0
  {
    exists k :: 0 <= k < |t| && t[k].online && t[k].hostname == ""
  }

  // ---- Aging ----

  function AgeOne(d: Device, passStart: nat): Device {
    if d.lastSeen < passStart then
      var misses := Increment32(d.missCount);
      d.(missCount := misses, online := if misses >= MISS_THRESHOLD then false else d.online)
    else d
  }

  function AgeAll(t: seq<Device>, passStart: nat): (t': seq<Device>)
    ensures |t'| == |t|
  {
    seq(|t|, i requires 0 <= i < |t| => AgeOne(t[i], passStart))
  }

  // ---- The pass ----

  /** Reads the MAC behind a replying address and upserts it under the lock. */
  method HarvestOne(store: Store, link: Link, clock: Clock, ip: nat) returns (ghost answer: Io)
    requires store.Valid() && link.Valid()
    modifies store`table, store.devices, link, clock
    ensures store.Valid() && link.Valid()
    ensures clock.micros >= old(clock.micros)
    ensures answer.Resolved? && answer.ip == ip && link.trace == old(link.trace) + [answer]
    ensures Harvested(store.table, old(store.table), [answer], old(clock.micros), clock.micros)
    ensures store.table == if answer.mac.None? then old(store.table)
                           else Harvest(old(store.table), Sighting(answer.mac.value, ip, answer.at))
  {
    hide Store.Valid, Link.Valid;
    var mac, t := link.Resolve(ip, clock);
    answer := Resolved(ip, mac, t);
    ProjectOne(SightingOf, answer);
    if mac.None? {
      return;
    }
    var now := Second(t);
    HarvestOnly(store.table, Sighting(mac.value, ip, t));
    var slot := store.FindOrAdd(mac.value);
    if slot.Some? {
      var d := store.Read(slot.value);
      if d.firstSeen == 0 {
        d := d.(firstSeen := now);
      }
      store.Update(slot.value, d.(ip := ip, lastSeen := now, online := true, missCount := 0));
    }
  }

  lemma {:induction false} HarvestOnly(t: seq<Device>, s: Sighting)
    ensures HarvestAll(t, [s]) == Harvest(t, s)
  {
    assert Front([s]) == [];
  }

  /** One turn of a drain that has read the clock before its deadline. */
  method PollOnce(store: Store, link: Link, clock: Clock) returns (ghost tr: seq<Io>)
    requires store.Valid() && link.Valid()
    modifies store`table, store.devices, link, clock
    ensures store.Valid() && link.Valid()
    ensures clock.micros > old(clock.micros) && link.trace == old(link.trace) + tr
    ensures forall check: Io, deadline: nat :: check.Checked? && check.now < deadline ==> Turn([check] + tr, deadline)
    ensures Harvested(store.table, old(store.table), tr, old(clock.micros), clock.micros)
  {
    hide Store.Valid, Link.Valid, Harvested;
    var packet := link.Receive(clock);
    tr := [Received(packet)];
    ghost var mid := clock.micros;
    HarvestedNothing(store.table, Received(packet), old(clock.micros), mid);
    if packet.EchoReply? {
      ghost var answer := HarvestOne(store, link, clock, packet.src);
      HarvestedAppend(old(store.table), tr, old(store.table), [answer], store.table,
                      old(clock.micros), mid, clock.micros);
      assert old(link.trace) + tr + [answer] == old(link.trace) + (tr + [answer]);
      tr := tr + [answer];
    }
  }

  /** Polls for replies until the deadline has passed. */
  method DrainReplies(store: Store, link: Link, clock: Clock, budgetMs: nat) returns (ghost tr: seq<Io>)
    requires store.Valid() && link.Valid()
    modifies store`table, store.devices, link, clock
    ensures store.Valid() && link.Valid()
    ensures clock.micros >= old(clock.micros) + budgetMs * 1000
    ensures link.trace == old(link.trace) + tr && Drained(tr, budgetMs)
    ensures Harvested(store.table, old(store.table), tr, old(clock.micros), clock.micros)
  {
    hide Store.Valid, Link.Valid, Harvested, Turn, Polls, Drained;
    ghost var t0, from, before := store.table, old(clock.micros), link.trace;
    var t := link.Check(clock);
    ghost var first, polls := Checked(t), [];
    var deadline := t + budgetMs * 1000;
    PollsNothing(deadline);
    t := link.Check(clock);
    tr := [first];
    HarvestedNothing(t0, first, from, t);
    while t < deadline
      invariant store.Valid() && link.Valid()
      invariant from <= t == clock.micros
      invariant tr == [first] + polls && link.trace == before + tr + [Checked(t)]
      invariant Polls(polls, deadline)
      invariant Harvested(store.table, t0, tr, from, t)
      decreases deadline - t
    {
      ghost var check, t1, mid := Checked(t), store.table, clock.micros;
      ghost var more := PollOnce(store, link, clock);
      PollsPush(polls, [check] + more, deadline);
      HarvestedNothing(t1, check, mid, mid);
      HarvestedAppend(t1, [check], t1, more, store.table, mid, mid, clock.micros);
      HarvestedAppend(t0, tr, t1, [check] + more, store.table, from, mid, clock.micros);
      tr, polls := tr + ([check] + more), polls + ([check] + more);
      mid := clock.micros;
      t := link.Check(clock);
      HarvestedLater(store.table, t0, tr, from, mid, t);
    }
    DrainedEnds(first, polls, Checked(t), budgetMs);
    HarvestedNothing(store.table, Checked(t), t, t);
    HarvestedAppend(t0, tr, store.table, [Checked(t)], store.table, from, t, t);
    tr := tr + [Checked(t)];
  }

  lemma {:induction false} PollsNothing(deadline: nat)
    ensures Polls([], deadline)
  {
  }

  lemma HarvestedLater(t: seq<Device>, t0: seq<Device>, tr: seq<Io>, from: nat, to: nat, later: nat)
    requires Harvested(t, t0, tr, from, to) && to <= later
    ensures Harvested(t, t0, tr, from, later)
  {
  }

  /** Applies one address of a result, under the lock. */
  method ApplyAddress(store: Store, hit: NameHit)
    requires store.Valid()
    modifies store`table, store.devices
    ensures store.Valid()
    ensures store.table == ApplyName(old(store.table), hit)
  {
    hide Store.Valid;
    var idx := 0;
    var slot, idx' := store.Next(idx);
    while slot.Some?
      invariant store.Valid() && 0 <= idx <= |store.table|
      invariant store.table == old(store.table)
      invariant if idx < |store.table| then slot == Some(idx) && idx' == idx + 1 else slot.None?
      invariant forall k :: 0 <= k < idx ==> store.table[k].ip != hit.ip
      decreases |store.table| - idx
    {
      var d := store.Read(slot.value);
      if d.ip == hit.ip {
        if d.hostname == "" {
          d := d.(hostname := Take(hit.name, HOSTNAME_LEN - 1));
        }
        if d.devClass == UnknownClass {
          d := d.(devClass := hit.hint);
        }
        store.Update(slot.value, d);
        return;
      }
      idx := idx';
      slot, idx' := store.Next(idx);
    }
  }

  /** Applies the addresses of one result, if it has a name. */
  method ApplyResult(store: Store, r: MdnsResult, hint: DevClass)
    requires store.Valid()
    modifies store`table, store.devices
    ensures store.Valid()
    ensures store.table == ApplyNames(old(store.table), ResultHits(r, hint))
  {
    hide Store.Valid, ApplyName;
    var name := if r.instance != "" then r.instance else r.hostname;
    if name == "" {
      return;
    }
    for i := 0 to |r.addresses|
      invariant store.Valid()
      invariant store.table == ApplyNames(old(store.table), AddressHits(r.addresses[..i], name, hint))
    {
      ghost var hits := AddressHits(r.addresses[..i], name, hint);
      assert Front(r.addresses[..i + 1]) == r.addresses[..i] && hits + [] == hits;
      if r.addresses[i].Some? {
        var hit := NameHit(r.addresses[i].value, name, hint);
        ApplyAddress(store, hit);
        assert Front(hits + [hit]) == hits;
      }
    }
    assert r.addresses[..|r.addresses|] == r.addresses;
  }

  /** Applies the results of one query, in order. */
  method ApplyResults(store: Store, results: seq<MdnsResult>, hint: DevClass)
    requires store.Valid()
    modifies store`table, store.devices
    ensures store.Valid()
    ensures store.table == ApplyNames(old(store.table), AllResultHits(results, hint))
  {
    hide Store.Valid, ResultHits;
    for k := 0 to |results|
      invariant store.Valid()
      invariant store.table == ApplyNames(old(store.table), AllResultHits(results[..k], hint))
    {
      ApplyResult(store, results[k], hint);
      ApplyNamesAppend(old(store.table), AllResultHits(results[..k], hint), ResultHits(results[k], hint));
      assert Front(results[..k + 1]) == results[..k];
    }
    assert results[..|results|] == results;
  }

  /** Queries every service in turn, when some online device has no name, and applies every result. */
  method ResolveHostnames(store: Store, link: Link, clock: Clock) returns (ghost tr: seq<Io>)
    requires store.Valid() && link.Valid()
    modifies store`table, store.devices, link, clock
    ensures store.Valid() && link.Valid()
    ensures clock.micros >= old(clock.micros) && link.trace == old(link.trace) + tr
    ensures Queried(tr, if Unnamed(old(store.table)) then |PROBE_HINTS| else 0)
    ensures store.table == ApplyNames(old(store.table), Hits(tr))
  {
    hide Store.Valid, Link.Valid, AllResultHits;
    tr := [];
    var unnamed := AnyUnnamed(store);
    if !unnamed {
      return;
    }
    for p := 0 to |PROBE_HINTS|
      invariant store.Valid() && link.Valid()
      invariant clock.micros >= old(clock.micros) && link.trace == old(link.trace) + tr
      invariant Queried(tr, p) && store.table == ApplyNames(old(store.table), Hits(tr))
    {
      var results := link.Query(p, clock);
      ghost var answer := Answered(p, results);
      ApplyResults(store, results, PROBE_HINTS[p]);
      ProjectAppend(HitsOf, tr, [answer]);
      ProjectOne(HitsOf, answer);
      ApplyNamesAppend(old(store.table), Hits(tr), HitsOf(answer));
      tr := tr + [answer];
    }
  }

  method AnyUnnamed(store: Store) returns (found: bool)
    requires store.Valid()
    ensures found <==> Unnamed(store.table)
  {
    hide Store.Valid;
    var idx := 0;
    var slot, idx' := store.Next(idx);
    while slot.Some?
      invariant 0 <= idx <= |store.table|
      invariant if idx < |store.table| then slot == Some(idx) && idx' == idx + 1 else slot.None?
      invariant forall k :: 0 <= k < idx ==> !(store.table[k].online && store.table[k].hostname == "")
      decreases |store.table| - idx
    {
      var d := store.Read(slot.value);
      if d.online && d.hostname == "" {
        return true;
      }
      idx := idx';
      slot, idx' := store.Next(idx);
    }
    return false;
  }

  method AgeSlot(store: Store, slot: nat, passStart: nat)
    requires store.Valid() && slot < |store.table|
    modifies store`table, store.devices
    ensures store.Valid()
    ensures store.table == old(store.table)[slot := AgeOne(old(store.table)[slot], passStart)]
  {
    hide Store.Valid;
    var d := store.Read(slot);
    if d.lastSeen < passStart {
      d := d.(missCount := Increment32(d.missCount));
      if d.missCount >= MISS_THRESHOLD {
        d := d.(online := false);
      }
    }
    store.Update(slot, d);
  }

  /** One aging sweep over the table, under the lock. */
  method AgeUnseen(store: Store, passStart: nat)
    requires store.Valid()
    modifies store`table, store.devices
    ensures store.Valid()
    ensures store.table == AgeAll(old(store.table), passStart)
  {
    hide Store.Valid, AgeOne;
    ghost var t := store.table;
    var idx := 0;
    var slot, idx' := store.Next(idx);
    while slot.Some?
      invariant store.Valid() && 0 <= idx <= |t| == |store.table|
      invariant if idx < |t| then slot == Some(idx) && idx' == idx + 1 else slot.None?
      invariant forall k :: 0 <= k < idx ==> store.table[k] == AgeOne(t[k], passStart)
      invariant forall k :: idx <= k < |t| ==> store.table[k] == t[k]
      decreases |t| - idx
    {
      AgeSlot(store, slot.value, passStart);
      idx := idx';
      slot, idx' := store.Next(idx);
    }
  }

  /** Sends one request, and drains if it is time to. */
  method SendProbe(store: Store, link: Link, clock: Clock, ip: nat, seqno: nat, drain: bool)
    returns (ghost tr: seq<Io>)
    requires store.Valid() && link.Valid()
    modifies store`table, store.devices, link, clock
    ensures store.Valid() && link.Valid()
    ensures clock.micros >= old(clock.micros) && link.trace == old(link.trace) + tr
    ensures Realises(tr, if drain then [Send(ip, seqno), Drain(DRAIN_MS)] else [Send(ip, seqno)])
    ensures Harvested(store.table, old(store.table), tr, old(clock.micros), clock.micros)
  {
    hide Store.Valid, Link.Valid, Harvested, Realises, Drained;
    tr := [Sent(ip, seqno)];
    link.Send(ip, seqno);
    RealisesOne(tr, Send(ip, seqno));
    HarvestedNothing(store.table, Sent(ip, seqno), clock.micros, clock.micros);
    if drain {
      ghost var more := DrainReplies(store, link, clock, DRAIN_MS);
      RealisesPush(tr, [Send(ip, seqno)], more, Drain(DRAIN_MS));
      assert [Send(ip, seqno)] + [Drain(DRAIN_MS)] == [Send(ip, seqno), Drain(DRAIN_MS)];
      HarvestedAppend(old(store.table), tr, old(store.table), more, store.table,
                      old(clock.micros), old(clock.micros), clock.micros);
      tr := tr + more;
    }
  }

  lemma {:induction false} RealisesOne(tr: seq<Io>, op: Op)
    requires Performs(tr, op)
    ensures Realises(tr, [op]) && Realises([], [])
  {
    RealisesPush([], [], tr, op);
    assert [] + tr == tr && [] + [op] == [op];
  }

  /** Probes one host, unless it is us, and drains after every sixteenth. */
  method ProbeHost(store: Store, link: Link, clock: Clock, subnet: Subnet, h: nat, seqno: nat)
    returns (seqno': nat, ghost tr: seq<Io>)
    requires store.Valid() && link.Valid()
    modifies store`table, store.devices, link, clock
    ensures store.Valid() && link.Valid()
    ensures clock.micros >= old(clock.micros) && link.trace == old(link.trace) + tr
    ensures Realises(tr, Probe(subnet, seqno, h))
    ensures seqno' == if Probe(subnet, seqno, h) == [] then seqno else (seqno + 1) % 65536
    ensures Harvested(store.table, old(store.table), tr, old(clock.micros), clock.micros)
  {
    hide Store.Valid, Link.Valid, Harvested, Network;
    seqno', tr := seqno, [];
    var ip := (Network(subnet) + h) % TWO_TO_THE_32;
    if ip == subnet.self {
      HarvestedNothing(store.table, Checked(0), clock.micros, clock.micros);
      return;
    }
    hide Realises;
    seqno' := (seqno + 1) % 65536;
    tr := SendProbe(store, link, clock, ip, seqno, h % DRAIN_EVERY == 0);
  }

  /** The loop over the host numbers. */
  method ProbeHosts(store: Store, link: Link, clock: Clock, subnet: Subnet) returns (ghost tr: seq<Io>)
    requires store.Valid() && link.Valid() && ValidSubnet(subnet)
    modifies store`table, store.devices, link, clock
    ensures store.Valid() && link.Valid()
    ensures clock.micros >= old(clock.micros) && link.trace == old(link.trace) + tr
    ensures Realises(tr, SweepTo(subnet, HostCount(subnet)))
    ensures Harvested(store.table, old(store.table), tr, old(clock.micros), clock.micros)
  {
    hide Store.Valid, Link.Valid, Harvested, Probe, Realises, SweepTo, NextNumber, HostCount, ValidSubnet;
    tr := [];
    ghost var t0, from, before := store.table, clock.micros, link.trace;
    SweepStarts(subnet);
    HarvestedNothing(t0, Checked(0), from, from);
    var hosts := HostCount(subnet);
    var seqno := 0;
    var h := 1;
    while h < hosts
      invariant h == 1 || h <= hosts
      invariant store.Valid() && link.Valid()
      invariant from <= clock.micros && link.trace == before + tr
      invariant Realises(tr, SweepTo(subnet, h)) && seqno == NextNumber(SweepTo(subnet, h))
      invariant Harvested(store.table, t0, tr, from, clock.micros)
    {
      ghost var t1, mid, more := store.table, clock.micros, [];
      SweepContinues(subnet, h, seqno);
      ghost var probe := Probe(subnet, seqno, h);
      seqno, more := ProbeHost(store, link, clock, subnet, h, seqno);
      RealisesAppend(tr, SweepTo(subnet, h), more, probe);
      HarvestedAppend(t0, tr, t1, more, store.table, from, mid, clock.micros);
      tr := tr + more;
      h := h + 1;
    }
  }

  /** The sequence number of the request after some operations. */
  function NextNumber(ops: seq<Op>): nat {
    SendCount(ops) % 65536
  }

  lemma {:induction false} SweepStarts(s: Subnet)
    ensures SweepTo(s, 0) == SweepTo(s, 1) == [] && NextNumber([]) == 0 && Realises([], [])
  {
  }

  lemma SweepContinues(s: Subnet, h: nat, seqno: nat)
    requires h >= 1 && seqno == NextNumber(SweepTo(s, h))
    ensures SweepTo(s, h + 1) == SweepTo(s, h) + Probe(s, seqno, h)
    ensures NextNumber(SweepTo(s, h + 1)) == if Probe(s, seqno, h) == [] then seqno else (seqno + 1) % 65536
  {
    var send := Send((Network(s) + h) % TWO_TO_THE_32, seqno);
    hide Network;
    StepSends(s, SweepTo(s, h), h, send);
    assert Probe(s, seqno, h) == [] <==> send.ip == s.self;
    hide Step, Probe, SendCount;
    NumberWraps(SendCount(SweepTo(s, h)));
  }

  lemma NumberWraps(n: nat)
    ensures (n + 1) % 65536 == (n % 65536 + 1) % 65536
  {
  }

  /** The sweep: probes every host, draining on the way, and gives stragglers a final drain. */
  method SweepSubnet(store: Store, link: Link, clock: Clock, subnet: Subnet) returns (ghost tr: seq<Io>)
    requires store.Valid() && link.Valid() && ValidSubnet(subnet)
    modifies store`table, store.devices, link, clock
    ensures store.Valid() && link.Valid()
    ensures clock.micros >= old(clock.micros) + MICROS_PER_SECOND && link.trace == old(link.trace) + tr
    ensures Realises(tr, SweepOps(subnet))
    ensures Harvested(store.table, old(store.table), tr, old(clock.micros), clock.micros)
  {
    hide Store.Valid, Link.Valid, Harvested, SweepTo, Realises, Drained;
    tr := ProbeHosts(store, link, clock, subnet);
    ghost var t1, mid := store.table, clock.micros;
    ghost var last := DrainReplies(store, link, clock, FINAL_DRAIN_MS);
    RealisesPush(tr, SweepTo(subnet, HostCount(subnet)), last, Drain(FINAL_DRAIN_MS));
    HarvestedAppend(old(store.table), tr, t1, last, store.table, old(clock.micros), mid, clock.micros);
    tr := tr + last;
  }

  /**
   * A pass up to its scan-done hook; it is skipped without an address or a socket. What it did is on
   * record: a clock reading, the sweep, and the queries.
   */
  method RunPass(store: Store, link: Link, clock: Clock, subnet: Option<Subnet>, socketOk: bool)
    returns (done: bool, ghost start: nat, ghost sweep: seq<Io>, ghost queries: seq<Io>)
    requires store.Valid() && link.Valid() && (subnet.Some? ==> ValidSubnet(subnet.value))
    modifies store`table, store.devices, link, clock
    ensures store.Valid() && link.Valid()
    ensures done <==> subnet.Some? && socketOk
    ensures old(clock.micros) <= start <= clock.micros
    ensures link.trace == old(link.trace) + ([Checked(start)] + sweep + queries)
    ensures !done ==> store.table == old(store.table) && sweep == queries == []
    ensures done ==> Realises(sweep, SweepOps(subnet.value))
    ensures done ==> Sighted(Sightings(sweep), start, clock.micros) && clock.micros >= start + MICROS_PER_SECOND
    ensures done ==> var t := HarvestAll(old(store.table), Sightings(sweep));
                     && Queried(queries, if Unnamed(t) then |PROBE_HINTS| else 0)
                     && store.table == AgeAll(ApplyNames(t, Hits(queries)), Second(start))
  {
    hide Store.Valid, Link.Valid, SweepOps, ValidSubnet, Realises, Queried, Unnamed, Hits, Sightings;
    hide Sighted, HarvestAll, ApplyNames, AgeAll;
    ghost var before := link.trace;
    sweep, queries := [], [];
    var t0 := link.Check(clock);
    start := t0;
    done := false;
    if subnet.None? || !socketOk {
      return;
    }
    sweep := SweepSubnet(store, link, clock, subnet.value);
    ghost var swept := clock.micros;
    queries := ResolveHostnames(store, link, clock);
    SightedLater(Sightings(sweep), start, swept, clock.micros);
    assert before + [Checked(start)] + sweep + queries == before + ([Checked(start)] + sweep + queries);
    AgeUnseen(store, Second(t0));
    done := true;
  }
}
