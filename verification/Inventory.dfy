/** main/inventory.c: the device table and the ring of recent events. */
module Inventory {
  import opened Prelude

  const MAX_DEVICES := 256
  const RING_SIZE := 512
  const HOSTNAME_LEN := 64
  const VENDOR_LEN := 48
  const DETAIL_LEN := 96

  datatype DevClass = UnknownClass | Computer | Mobile | Iot | Infra

  /** One slot of the table. Character arrays hold the text before their NUL. */
  datatype Device = Device(
    mac: Mac,
    inUse: bool,
    randomized: bool,
    ip: nat,
    hostname: string,
    vendor: string,
    notes: string,
    devClass: DevClass,
    known: bool,
    announced: bool,
    online: bool,
    wasOnline: bool,
    firstSeen: nat,
    lastSeen: nat,
    missCount: nat)

  datatype Kind =
    | NoEvent
    | NewDevice
    | DeviceMissing
    | DeviceReturned
    | HostnameChanged
    | IpChanged
    | UnknownVendor
    | DeviceGrowth
    | NightActivity

  datatype Severity = Info | Warning | Critical

  /** What a caller of the log supplies; the log adds the time. */
  datatype Alert = Alert(kind: Kind, severity: Severity, mac: Mac, detail: string)

  datatype Event = Event(ts: nat, alert: Alert)

  /** An alert as the log stores it, with the detail cut to its field. */
  function Stored(a: Alert): Alert {
    a.(detail := Take(a.detail, DETAIL_LEN - 1))
  }

  /** The locally-administered bit, bit 1 of the first octet. */
  predicate IsRandomized(mac: Mac): (b: bool)
    ensures b <==> mac[0] % 4 == 2 || mac[0] % 4 == 3
  {
    mac[0] / 2 % 2 == 1
  }

  /** Nothing is known of the device but its key and whether that is a private address. */
  predicate Blank(d: Device) {
    && d.inUse && (d.randomized <==> d.mac[0] % 4 >= 2)
    && !d.known && !d.announced && !d.online && !d.wasOnline
    && d.hostname == d.vendor == d.notes == "" && d.devClass == UnknownClass
    && d.ip == d.firstSeen == d.lastSeen == d.missCount == 0
  }

  /** A slot as it is claimed: zeroed, then given its key. */
  function Claimed(mac: Mac): (d: Device)
    ensures d.mac == mac && Blank(d)
  {
    Device(mac, true, IsRandomized(mac), 0, "", "", "", UnknownClass,
           false, false, false, false, 0, 0, 0)
  }

  const EMPTY_SLOT := Claimed(NO_MAC).(inUse := false)
  const EMPTY_EVENT := Event(0, Alert(NoEvent, Info, NO_MAC, ""))

  // ---- The table as a value: the devices of the occupied slots, in slot order ----

  function Macs(t: seq<Device>): (ms: seq<Mac>)
    ensures |ms| == |t|
  {
    seq(|t|, i requires 0 <= i < |t| => t[i].mac)
  }

  predicate Distinct(t: seq<Device>) {
    forall i, j :: 0 <= i < j < |t| ==> t[i].mac != t[j].mac
  }

  /** The slot of `mac`, or the length of the table when it is not stored. */
  function IndexOf(t: seq<Device>, mac: Mac): (i: nat)
    ensures i <= |t|
    ensures i < |t| ==> t[i].mac == mac
    ensures forall k :: 0 <= k < i ==> t[k].mac != mac
  {
    if |t| == 0 then 0 else if t[0].mac == mac then 0 else 1 + IndexOf(t[1..], mac)
  }

  lemma {:induction false} StoredIff(t: seq<Device>, mac: Mac)
    ensures mac in Macs(t) <==> IndexOf(t, mac) < |t|
  {
    if IndexOf(t, mac) < |t| {
      assert Macs(t)[IndexOf(t, mac)] == mac;
    } else {
      assert forall k :: 0 <= k < |t| ==> Macs(t)[k] == t[k].mac != mac;
    }
  }

  /** Lookup-or-insert on a map bounded to MAX_DEVICES keys. */
  function Admit(t: seq<Device>, mac: Mac): seq<Device> {
    if IndexOf(t, mac) < |t| || |t| >= MAX_DEVICES then t else t + [Claimed(mac)]
  }

  function OnlineCount(t: seq<Device>): nat {
    if |t| == 0 then 0 else OnlineCount(Front(t)) + if Last(t).online then 1 else 0
  }

  lemma {:induction false} OnlineAtMostTotal(t: seq<Device>)
    ensures OnlineCount(t) <= |t|
  {
    if |t| > 0 {
      OnlineAtMostTotal(Front(t));
    }
  }

  /** The last `n` entries of a log, newest first. */
  function NewestFirst(log: seq<Event>, n: nat): seq<Event> {
    Reverse(Newest(log, n))
  }

  lemma NewestFirstIs(log: seq<Event>, n: nat, out: seq<Event>)
    requires |out| == n <= |log| && forall k :: 0 <= k < n ==> out[k] == log[|log| - 1 - k]
    ensures out == NewestFirst(log, n)
  {
  }

  /** Counting back from the write position and from the end of the history agree modulo the ring. */
  lemma RingPosition(logged: nat, i: nat)
    requires i < logged && i < RING_SIZE
    ensures (logged % RING_SIZE + RING_SIZE - 1 - i) % RING_SIZE == (logged - 1 - i) % RING_SIZE
  {
    var q := logged / RING_SIZE;
    assert logged == q * RING_SIZE + logged % RING_SIZE;
  }

  /** The write position is not that of any entry the ring still holds after the write. */
  lemma RingAdvances(logged: nat, k: nat)
    requires logged - RING_SIZE < k < logged
    ensures k % RING_SIZE != logged % RING_SIZE
  {
    var q, r := logged / RING_SIZE, logged % RING_SIZE;
    assert k == q * RING_SIZE + (r - (logged - k));
    if r < logged - k {
      assert k == (q - 1) * RING_SIZE + (r + RING_SIZE - (logged - k));
    }
  }

  lemma NextPosition(logged: nat)
    ensures (logged % RING_SIZE + 1) % RING_SIZE == (logged + 1) % RING_SIZE
  {
  }

  /** The microsecond clock: it never runs backwards, and may advance at any reading. */
  class Clock {
    var micros: nat

    constructor ()
      ensures micros == 0
    {
      micros := 0;
    }

    method Now() returns (t: nat)
      modifies this
      ensures t == micros >= old(micros)
    {
      var elapsed :| 0 <= elapsed;
      micros := micros + elapsed;
      t := micros;
    }
  }

  class Store {
    const devices: array<Device>
    const events: array<Event>
    var head: nat
    var count: nat
    /** The devices of the occupied slots, in slot order. */
    ghost var table: seq<Device>
    /** Every event ever logged, including those the ring has overwritten. */
    ghost var history: seq<Event>

    /** Occupied slots are a prefix with distinct keys, and the ring holds the end of the history. */
    ghost predicate Valid()
      reads this, devices, events
    {
      TableValid() && RingValid()
    }

    ghost predicate TableValid()
      reads this`table, devices
    {
      && devices.Length == MAX_DEVICES
      && |table| <= MAX_DEVICES
      && (forall i :: 0 <= i < |table| ==> devices[i] == table[i] && table[i].inUse)
      && (forall i :: |table| <= i < MAX_DEVICES ==> !devices[i].inUse)
      && Distinct(table)
    }

    ghost predicate RingValid()
      reads this`head, this`count, this`history, events
    {
      && events.Length == RING_SIZE
      && head == |history| % RING_SIZE
      && count == Min(|history|, RING_SIZE)
      && (forall k :: |history| - count <= k < |history| ==> events[k % RING_SIZE] == history[k])
    }

    constructor ()
      ensures Valid() && fresh(devices) && fresh(events)
      ensures table == [] && history == []
    {
      devices := new Device[MAX_DEVICES](_ => EMPTY_SLOT);
      events := new Event[RING_SIZE](_ => EMPTY_EVENT);
      head, count := 0, 0;
      table, history := [], [];
    }

    method Find(mac: Mac) returns (slot: Option<nat>)
      requires Valid()
      ensures slot == if IndexOf(table, mac) < |table| then Some(IndexOf(table, mac)) else None
    {
      var i := 0;
      while i < MAX_DEVICES
        invariant 0 <= i <= MAX_DEVICES
        invariant forall k :: 0 <= k < i && k < |table| ==> table[k].mac != mac
      {
        if devices[i].inUse && devices[i].mac == mac {
          return Some(i);
        }
        i := i + 1;
      }
      return None;
    }

    /** Fails exactly when the key is absent and every slot is taken. */
    method FindOrAdd(mac: Mac) returns (slot: Option<nat>)
      requires Valid()
      modifies this`table, devices
      ensures Valid()
      ensures table == Admit(old(table), mac)
      ensures slot == if IndexOf(table, mac) < |table| then Some(IndexOf(table, mac)) else None
      ensures slot.None? <==> mac !in Macs(old(table)) && |old(table)| == 256
      ensures if mac in Macs(old(table)) || |old(table)| == 256 then table == old(table)
              else && |table| == |old(table)| + 1 && Front(table) == old(table)
                   && Last(table).mac == mac && Blank(Last(table))
    {
      hide RingValid, Blank;
      StoredIff(table, mac);
      slot := Find(mac);
      if slot.Some? {
        return;
      }
      var i := 0;
      while i < MAX_DEVICES
        invariant 0 <= i <= |table|
      {
        if !devices[i].inUse {
          devices[i] := Claimed(mac);
          table := table + [Claimed(mac)];
          return Some(i);
        }
        i := i + 1;
      }
      return None;
    }

    /** The next occupied slot at or after `idx`, with the index to continue from. */
    method Next(idx: nat) returns (slot: Option<nat>, idx': nat)
      requires Valid()
      ensures if idx < |table| then slot == Some(idx) && idx' == idx + 1 else slot == None && idx' == idx
    {
      var i := idx;
      while i < MAX_DEVICES
        invariant idx <= i
        invariant i == idx || |table| <= idx
      {
        if devices[i].inUse {
          return Some(i), i + 1;
        }
        i := i + 1;
      }
      return None, idx;
    }

    /** Reads one occupied slot. */
    method Read(slot: nat) returns (d: Device)
      requires Valid() && slot < |table|
      ensures d == table[slot] && d.inUse
    {
      d := devices[slot];
    }

    /** Overwrites one occupied slot, keeping its key. */
    method Update(slot: nat, d: Device)
      requires Valid()
      requires slot < |table| && d.inUse && d.mac == table[slot].mac
      modifies this`table, devices
      ensures Valid()
      ensures table == old(table)[slot := d]
    {
      devices[slot] := d;
      table := table[slot := d];
    }

    method CountTotal() returns (n: nat)
      requires Valid()
      ensures n == |table|
    {
      n := 0;
      var i := 0;
      while i < MAX_DEVICES
        invariant 0 <= i <= MAX_DEVICES
        invariant n == Min(i, |table|)
      {
        if devices[i].inUse {
          n := n + 1;
        }
        i := i + 1;
      }
    }

    method CountOnline() returns (n: nat)
      requires Valid()
      ensures n == OnlineCount(table)
    {
      n := 0;
      var i := 0;
      while i < MAX_DEVICES
        invariant 0 <= i <= MAX_DEVICES
        invariant n == OnlineCount(table[..Min(i, |table|)])
      {
        if i < |table| {
          assert Front(table[..i + 1]) == table[..i];
        }
        if devices[i].inUse && devices[i].online {
          n := n + 1;
        }
        i := i + 1;
      }
      assert table[..|table|] == table;
    }

    /** Appends to the history; the ring keeps the newest RING_SIZE entries. */
    method LogEvent(clock: Clock, alert: Alert) returns (ghost at: nat)
      requires Valid()
      modifies this`head, this`count, this`history, events, clock
      ensures Valid()
      ensures old(clock.micros) <= at == clock.micros
      ensures history == old(history) + [Event(Second(at), Stored(alert))]
    {
      hide TableValid, Stored, Second;
      var now := clock.Now();
      at := now;
      var e := Event(Second(now), Stored(alert));
      NextPosition(|history|);
      forall k | |history| - RING_SIZE < k < |history| ensures k >= 0 ==> k % RING_SIZE != head {
        if k >= 0 {
          RingAdvances(|history|, k);
        }
      }
      events[head] := e;
      head := (head + 1) % RING_SIZE;
      if count < RING_SIZE {
        count := count + 1;
      }
      history := history + [e];
    }

    /** Copies out a contiguous, newest-first slice of the history. */
    method GetEvents(out: array<Event>, max: nat) returns (n: nat)
      requires Valid()
      requires max <= out.Length && out != events
      modifies out
      ensures Valid()
      ensures n == Min(max, Min(512, |history|))
      ensures out[..n] == NewestFirst(history, n)
    {
      hide TableValid, NewestFirst;
      n := if max < count then max else count;
      var i := 0;
      while i < n
        invariant 0 <= i <= n
        invariant forall k :: 0 <= k < i ==> out[k] == history[|history| - 1 - k]
      {
        var pos := (head + RING_SIZE - 1 - i) % RING_SIZE;
        RingPosition(|history|, i);
        assert events[pos] == history[|history| - 1 - i];
        out[i] := events[pos];
        i := i + 1;
      }
      NewestFirstIs(history, n, out[..n]);
    }
  }
}
