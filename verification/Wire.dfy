/** What passes between a discovery pass and the outside world: anything may arrive, and everything is on record. */
module Wire {
  import opened Prelude
  import opened Inventory
  import opened Sweep

  datatype Packet = Nothing | NotAReply | EchoReply(src: nat)

  datatype MdnsResult = MdnsResult(instance: string, hostname: string, addresses: seq<Option<nat>>)

  /** One exchange; `now` and `at` are microseconds. */
  datatype Io =
    | Checked(now: nat)
    | Sent(ip: nat, seqno: nat)
    | Received(packet: Packet)
    | Resolved(ip: nat, mac: Option<Mac>, at: nat)
    | Answered(service: nat, results: seq<MdnsResult>)

  /** What the outside world answers, whatever it is asked: a packet, a MAC or results, exchange by exchange. */
  datatype World = World(packets: nat -> Packet, macs: nat -> Option<Mac>, results: nat -> seq<MdnsResult>)

  /** The k-th exchange got the world's answer. */
  predicate Agrees(world: World, io: Io, k: nat) {
    match io
    case Received(packet) => packet == world.packets(k)
    case Resolved(_, mac, _) => mac == world.macs(k)
    case Answered(_, results) => results == world.results(k)
    case _ => true
  }

  /** The raw socket, the ARP cache, the mDNS service and the timer of one device. */
  class Link {
    const world: World
    var exchanges: nat
    /** Every exchange since power-on. */
    ghost var trace: seq<Io>

    ghost predicate Valid()
      reads this
    {
      exchanges == |trace| && forall k :: 0 <= k < |trace| ==> Agrees(world, trace[k], k)
    }

    constructor (world: World)
      ensures Valid() && this.world == world && trace == []
    {
      this.world, exchanges, trace := world, 0, [];
    }

    method Check(clock: Clock) returns (now: nat)
      requires Valid()
      modifies this, clock
      ensures Valid() && now == clock.micros >= old(clock.micros)
      ensures trace == old(trace) + [Checked(now)]
    {
      now := clock.Now();
      exchanges, trace := exchanges + 1, trace + [Checked(now)];
    }

    method Send(ip: nat, seqno: nat)
      requires Valid()
      modifies this
      ensures Valid() && trace == old(trace) + [Sent(ip, seqno)]
    {
      exchanges, trace := exchanges + 1, trace + [Sent(ip, seqno)];
    }

    /** Waits for a packet or for the socket's timeout. */
    method Receive(clock: Clock) returns (packet: Packet)
      requires Valid()
      modifies this, clock
      ensures Valid() && clock.micros > old(clock.micros)
      ensures trace == old(trace) + [Received(packet)]
    {
      var waited :| 0 < waited;
      clock.micros := clock.micros + waited;
      packet := world.packets(exchanges);
      exchanges, trace := exchanges + 1, trace + [Received(packet)];
    }

    /** Looks an address up in the ARP cache, and reads the clock. */
    method Resolve(ip: nat, clock: Clock) returns (mac: Option<Mac>, at: nat)
      requires Valid()
      modifies this, clock
      ensures Valid() && at == clock.micros >= old(clock.micros)
      ensures trace == old(trace) + [Resolved(ip, mac, at)]
    {
      mac := world.macs(exchanges);
      at := clock.Now();
      exchanges, trace := exchanges + 1, trace + [Resolved(ip, mac, at)];
    }

    /** A query that fails has no results. */
    method Query(service: nat, clock: Clock) returns (results: seq<MdnsResult>)
      requires Valid()
      modifies this, clock
      ensures Valid() && clock.micros >= old(clock.micros)
      ensures trace == old(trace) + [Answered(service, results)]
    {
      var _ := clock.Now();
      results := world.results(exchanges);
      exchanges, trace := exchanges + 1, trace + [Answered(service, results)];
    }
  }

  // ---- Reading a trace ----

  /** What the entries of a trace contribute, in order. */
  function Project<T>(part: Io -> seq<T>, tr: seq<Io>): seq<T> {
    if |tr| == 0 then [] else Project(part, Front(tr)) + part(Last(tr))
  }

  lemma {:induction false} ProjectAppend<T>(part: Io -> seq<T>, a: seq<Io>, b: seq<Io>)
    ensures Project(part, a + b) == Project(part, a) + Project(part, b)
  {
    if |b| == 0 {
      assert a + b == a;
    } else {
      ProjectAppend(part, a, Front(b));
      assert Front(a + b) == a + Front(b);
    }
  }

  lemma ProjectOne<T>(part: Io -> seq<T>, io: Io)
    ensures Project(part, [io]) == part(io)
  {
    assert Front([io]) == [];
  }

  function TargetOf(io: Io): seq<nat> {
    if io.Sent? then [io.ip] else []
  }

  function ReplyOf(io: Io): seq<nat> {
    if io.Received? && io.packet.EchoReply? then [io.packet.src] else []
  }

  function LookupOf(io: Io): seq<nat> {
    if io.Resolved? then [io.ip] else []
  }

  // ---- A drain: polls until a reading reaches the deadline ----

  /** A turn reads the clock before the deadline, polls once, and resolves the sender of an echo reply. */
  predicate Turn(tr: seq<Io>, deadline: nat) {
    && |tr| >= 2 && tr[0].Checked? && tr[0].now < deadline && tr[1].Received?
    && if tr[1].packet.EchoReply? then |tr| == 3 && tr[2].Resolved? && tr[2].ip == tr[1].packet.src else |tr| == 2
  }

  predicate Polls(tr: seq<Io>, deadline: nat) {
    |tr| > 0 ==>
      var last := if Last(tr).Resolved? then 3 else 2;
      last <= |tr| && Turn(tr[|tr| - last..], deadline) && Polls(tr[..|tr| - last], deadline)
  }

  /** The budget counts from the first reading, and the last one is the first to have used it up. */
  predicate Drained(tr: seq<Io>, ms: nat) {
    && |tr| >= 2 && tr[0].Checked? && Last(tr).Checked?
    && Last(tr).now >= tr[0].now + ms * 1000
    && Polls(tr[1..|tr| - 1], tr[0].now + ms * 1000)
  }

  lemma {:induction false} PollsPush(tr: seq<Io>, turn: seq<Io>, deadline: nat)
    requires Polls(tr, deadline) && Turn(turn, deadline)
    ensures Polls(tr + turn, deadline)
  {
    assert (tr + turn)[|tr|..] == turn && (tr + turn)[..|tr|] == tr;
  }

  lemma {:induction false} DrainedEnds(first: Io, polls: seq<Io>, last: Io, ms: nat)
    requires first.Checked? && last.Checked? && last.now >= first.now + ms * 1000
    requires Polls(polls, first.now + ms * 1000)
    ensures Drained([first] + polls + [last], ms)
  {
    assert ([first] + polls + [last])[1..|polls| + 1] == polls;
  }

  lemma {:induction false} TurnProjects(turn: seq<Io>, deadline: nat)
    requires Turn(turn, deadline)
    ensures Project(LookupOf, turn) == Project(ReplyOf, turn) && Project(TargetOf, turn) == []
  {
    var reading, packet := [turn[0]], [turn[1]];
    QuietReading(turn[0]);
    PacketProjects(turn[1]);
    SplitProjects(turn, 1);
    SplitProjects(turn[1..], 1);
    assert turn[..1] == reading && turn[1..][..1] == packet;
    if |turn| == 3 {
      assert turn[1..][1..] == [turn[2]];
      LookupProjects(turn[2]);
    } else {
      assert turn[1..][1..] == [];
      NothingProjects();
    }
  }

  lemma PacketProjects(io: Io)
    requires io.Received?
    ensures Project(LookupOf, [io]) == Project(TargetOf, [io]) == []
    ensures Project(ReplyOf, [io]) == if io.packet.EchoReply? then [io.packet.src] else []
  {
    ProjectOne(LookupOf, io);
    ProjectOne(ReplyOf, io);
    ProjectOne(TargetOf, io);
  }

  lemma LookupProjects(io: Io)
    requires io.Resolved?
    ensures Project(LookupOf, [io]) == [io.ip] && Project(ReplyOf, [io]) == Project(TargetOf, [io]) == []
  {
    ProjectOne(LookupOf, io);
    ProjectOne(ReplyOf, io);
    ProjectOne(TargetOf, io);
  }

  /** Every echo reply is resolved, once and in order, and nothing is sent. */
  lemma {:induction false} PollsResolve(tr: seq<Io>, deadline: nat)
    requires Polls(tr, deadline)
    ensures Project(LookupOf, tr) == Project(ReplyOf, tr) && Project(TargetOf, tr) == []
  {
    if |tr| > 0 {
      var k := if Last(tr).Resolved? then |tr| - 3 else |tr| - 2;
      PollsResolve(tr[..k], deadline);
      TurnProjects(tr[k..], deadline);
      SplitProjects(tr, k);
    }
  }

  lemma {:induction false} SplitProjects(tr: seq<Io>, k: nat)
    requires k <= |tr|
    ensures Project(LookupOf, tr) == Project(LookupOf, tr[..k]) + Project(LookupOf, tr[k..])
    ensures Project(ReplyOf, tr) == Project(ReplyOf, tr[..k]) + Project(ReplyOf, tr[k..])
    ensures Project(TargetOf, tr) == Project(TargetOf, tr[..k]) + Project(TargetOf, tr[k..])
  {
    assert tr == tr[..k] + tr[k..];
    ProjectAppend(LookupOf, tr[..k], tr[k..]);
    ProjectAppend(ReplyOf, tr[..k], tr[k..]);
    ProjectAppend(TargetOf, tr[..k], tr[k..]);
  }

  lemma {:induction false} DrainedResolves(tr: seq<Io>, ms: nat)
    requires Drained(tr, ms)
    ensures Project(LookupOf, tr) == Project(ReplyOf, tr) && Project(TargetOf, tr) == []
  {
    hide Project, Polls;
    var rest := tr[1..];
    PollsResolve(tr[1..|tr| - 1], tr[0].now + ms * 1000);
    SplitProjects(tr, 1);
    SplitProjects(rest, |rest| - 1);
    assert rest[..|rest| - 1] == tr[1..|tr| - 1];
    assert tr[..1] == [tr[0]] && rest[|rest| - 1..] == [Last(tr)];
    QuietReading(tr[0]);
    QuietReading(Last(tr));
  }

  lemma QuietReading(io: Io)
    requires io.Checked?
    ensures Project(LookupOf, [io]) == Project(ReplyOf, [io]) == Project(TargetOf, [io]) == []
  {
    ProjectOne(LookupOf, io);
    ProjectOne(ReplyOf, io);
    ProjectOne(TargetOf, io);
  }

  // ---- A sweep: a trace that carries out the operations in order ----

  /** The trace of one operation. */
  predicate Performs(tr: seq<Io>, op: Op) {
    match op
    case Send(ip, seqno) => tr == [Sent(ip, seqno)]
    case Drain(ms) => Drained(tr, ms)
  }

  predicate Realises(tr: seq<Io>, ops: seq<Op>)
    decreases |ops|
  {
    if |ops| == 0 then tr == [] else
      exists k :: 0 <= k <= |tr| && Performs(tr[k..], Last(ops)) && Realises(tr[..k], Front(ops))
  }

  lemma {:induction false} RealisesPush(tr: seq<Io>, ops: seq<Op>, more: seq<Io>, op: Op)
    requires Realises(tr, ops) && Performs(more, op)
    ensures Realises(tr + more, ops + [op])
  {
    assert Front(ops + [op]) == ops;
    assert (tr + more)[|tr|..] == more && (tr + more)[..|tr|] == tr;
  }

  lemma {:induction false} RealisesAppend(a: seq<Io>, ops: seq<Op>, b: seq<Io>, more: seq<Op>)
    requires Realises(a, ops) && Realises(b, more)
    ensures Realises(a + b, ops + more)
    decreases |more|
  {
    hide Performs;
    if |more| == 0 {
      assert a + b == a && ops + more == ops;
    } else {
      var k :| 0 <= k <= |b| && Performs(b[k..], Last(more)) && Realises(b[..k], Front(more));
      RealisesAppend(a, ops, b[..k], Front(more));
      RealisesPush(a + b[..k], ops + Front(more), b[k..], Last(more));
      assert a + b[..k] + b[k..] == a + b;
      assert ops + Front(more) + [Last(more)] == ops + more;
    }
  }

  /** A sweep resolves every echo reply it receives, once and in order, and sends to its targets only. */
  lemma {:induction false} SweepResolves(tr: seq<Io>, ops: seq<Op>)
    requires Realises(tr, ops)
    ensures Project(LookupOf, tr) == Project(ReplyOf, tr) && Project(TargetOf, tr) == Targets(ops)
    decreases |ops|
  {
    hide Project, Drained;
    if |ops| == 0 {
      NothingProjects();
    } else {
      var k :| 0 <= k <= |tr| && Performs(tr[k..], Last(ops)) && Realises(tr[..k], Front(ops));
      SweepResolves(tr[..k], Front(ops));
      SplitProjects(tr, k);
      match Last(ops)
      case Send(ip, seqno) => SendingProjects(ip, seqno);
      case Drain(ms) => DrainedResolves(tr[k..], ms);
    }
  }

  lemma NothingProjects()
    ensures Project(LookupOf, []) == Project(ReplyOf, []) == Project(TargetOf, []) == []
  {
  }

  lemma SendingProjects(ip: nat, seqno: nat)
    ensures var sending := [Sent(ip, seqno)];
            && Project(LookupOf, sending) == Project(ReplyOf, sending) == []
            && Project(TargetOf, sending) == [ip]
  {
    ProjectOne(LookupOf, Sent(ip, seqno));
    ProjectOne(ReplyOf, Sent(ip, seqno));
    ProjectOne(TargetOf, Sent(ip, seqno));
  }

  /**
   * What a pass puts on the wire: a request to each usable host below the clamp but ourselves, once and
   * in ascending order, and an ARP lookup for each echo reply, once and in order.
   */
  lemma {:induction false} SweepOnTheWire(tr: seq<Io>, s: Subnet)
    requires ValidSubnet(s) && Realises(tr, SweepOps(s))
    ensures forall ip: nat :: ip in Project(TargetOf, tr) <==>
                         UsableHost(s, ip) && ip != s.self && ip % Size(s) < MAX_HOSTS
    ensures forall i, j :: 0 <= i < j < |Project(TargetOf, tr)| ==> Project(TargetOf, tr)[i] < Project(TargetOf, tr)[j]
    ensures Project(LookupOf, tr) == Project(ReplyOf, tr)
  {
    hide UsableHost, Project, Realises, SweepOps;
    SweepResolves(tr, SweepOps(s));
    SweepExact(s);
  }
}
