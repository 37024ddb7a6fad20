/** main/web.c: the handlers that read the tables from another task, one locked section each. */
module Web {
  import opened Prelude
  import opened Inventory
  import opened Json
  import Format

  const MAX_EVENTS := 128
  const SAFE_LEN := 120
  const LINE_LEN := 256

  function TypeName(kind: Kind): (s: string)
    ensures |s| <= 16
  {
    match kind
    case NewDevice => "new_device"
    case DeviceMissing => "device_missing"
    case DeviceReturned => "device_returned"
    case HostnameChanged => "hostname_changed"
    case IpChanged => "ip_changed"
    case UnknownVendor => "unknown_vendor"
    case DeviceGrowth => "device_growth"
    case NightActivity => "night_activity"
    case NoEvent => "none"
  }

  function SeverityName(s: Severity): (name: string)
    ensures |name| <= 8
  {
    match s
    case Critical => "critical"
    case Warning => "warning"
    case Info => "info"
  }

  /** None of the literal names needs escaping. */
  lemma NamesArePlain(kind: Kind, severity: Severity)
    ensures Plain("ts") && Plain("type") && Plain("sev") && Plain("detail")
    ensures Plain(TypeName(kind)) && Plain(SeverityName(severity))
  {
    hide Plain;
    MemberNamesArePlain();
    DeviceNamesArePlain();
    ChangeNamesArePlain();
    OtherNamesArePlain();
  }

  lemma MemberNamesArePlain()
    ensures Plain("ts") && Plain("type") && Plain("sev") && Plain("detail")
    ensures Plain("critical") && Plain("warning") && Plain("info")
  {
  }

  lemma DeviceNamesArePlain()
    ensures Plain("new_device") && Plain("device_missing") && Plain("device_returned")
  {
  }

  lemma ChangeNamesArePlain()
    ensures Plain("hostname_changed") && Plain("ip_changed") && Plain("unknown_vendor")
  {
  }

  lemma OtherNamesArePlain()
    ensures Plain("device_growth") && Plain("night_activity") && Plain("none")
  {
  }

  /** What the handler writes for one character of a detail: control characters pass through. */
  function EscapeQuotes(c: char): string {
    if c == '"' || c == '\\' then ['\\', c] else [c]
  }

  function SafeDetail(detail: string): string {
    BoundedEscape(EscapeQuotes, detail, 0, SAFE_LEN)
  }

  /** The part of a detail that is shown. */
  function Shown(detail: string): string {
    detail[..Consumed(EscapeQuotes, detail, 0, SAFE_LEN)]
  }

  /** One event as the format string lays it out, after `lead`. */
  function Line(lead: string, e: Event, safe: string): string {
    lead + (['{'] + (RawNumber("ts", e.ts) + [','] +
    (RawMember("type", TypeName(e.alert.kind)) + [','] +
    (RawMember("sev", SeverityName(e.alert.severity)) + [','] +
    RawMember("detail", safe)))) + ['}'])
  }

  function RawNumber(name: string, n: nat): string {
    ['"'] + name + ['"'] + [':'] + Format.Decimal(n)
  }

  function Lead(i: nat): string {
    if i == 0 then "" else [',']
  }

  /** The chunk sent for event `i`: nothing when the line does not fit its buffer. */
  function Chunk(i: nat, e: Event): string {
    var line := Line(Lead(i), e, SafeDetail(e.alert.detail));
    if |line| < LINE_LEN then line else ""
  }

  function Chunks(es: seq<Event>, i: nat): string
    requires i <= |es|
    decreases |es| - i
  {
    if i == |es| then "" else Chunk(i, es[i]) + Chunks(es, i + 1)
  }

  function EventsText(es: seq<Event>): string {
    ['['] + Chunks(es, 0) + [']']
  }

  method AppendEscaped(safe: string, c: char) returns (safe': string)
    ensures safe' == safe + EscapeQuotes(c)
  {
    safe' := safe;
    if c == '"' || c == '\\' {
      safe' := safe' + ['\\'];
    }
    safe' := safe' + [c];
  }

  /** Escapes quotes and backslashes of one detail into a buffer. */
  method EscapeDetail(detail: string) returns (safe: string)
    ensures safe == SafeDetail(detail)
  {
    hide EscapeQuotes;
    safe := "";
    var k := 0;
    while k < |detail| && detail[k] != '\0' && |safe| + 2 < SAFE_LEN
      invariant 0 <= k <= |detail|
      invariant SafeDetail(detail) == safe + BoundedEscape(EscapeQuotes, detail[k..], |safe|, SAFE_LEN)
    {
      BoundedStep(EscapeQuotes, detail, k, |safe|, SAFE_LEN);
      safe := AppendEscaped(safe, detail[k]);
      k := k + 1;
    }
  }

  method MakeChunk(i: nat, e: Event) returns (chunk: string)
    ensures chunk == Chunk(i, e)
  {
    var safe := EscapeDetail(e.alert.detail);
    var line := Line(Lead(i), e, safe);
    chunk := if |line| < LINE_LEN then line else "";
  }

  method Serialize(es: seq<Event>) returns (text: string)
    ensures text == EventsText(es)
  {
    hide Chunk;
    text := ['['];
    var i := 0;
    while i < |es|
      invariant 0 <= i <= |es|
      invariant text + Chunks(es, i) == ['['] + Chunks(es, 0)
    {
      var chunk := MakeChunk(i, es[i]);
      Regroup(text, chunk, Chunks(es, i + 1), "", "");
      text := text + chunk;
      i := i + 1;
    }
    text := text + [']'];
  }

  /** The events handler: copies a newest-first slice under the lock, then serializes it unlocked. */
  method EventsHandler(store: Store) returns (text: string)
    requires store.Valid()
    ensures store.Valid()
    ensures text == EventsText(NewestFirst(store.history, Min(128, |store.history|)))
  {
    var buffer := new Event[MAX_EVENTS](_ => EMPTY_EVENT);
    var n := store.GetEvents(buffer, MAX_EVENTS);
    text := Serialize(buffer[..n]);
  }

  /** The stats handler: offline is a subtraction that cannot go below zero. */
  method StatsHandler(store: Store) returns (total: nat, online: nat, offline: nat)
    requires store.Valid()
    ensures total == |store.table| && online == OnlineCount(store.table) && offline + online == total
  {
    total := store.CountTotal();
    online := store.CountOnline();
    OnlineAtMostTotal(store.table);
    offline := total - online;
  }

  // ---- Every line fits ----

  lemma SafeFits(detail: string)
    ensures |SafeDetail(detail)| < SAFE_LEN
  {
    BoundedIsPrefix(EscapeQuotes, detail, 0, SAFE_LEN);
  }

  /** With a 64-bit timestamp no event is ever skipped. */
  lemma LineFits(i: nat, e: Event)
    requires e.ts < Pow(10, 19)
    ensures |Line(Lead(i), e, SafeDetail(e.alert.detail))| < LINE_LEN
    ensures Chunk(i, e) == Line(Lead(i), e, SafeDetail(e.alert.detail))
  {
    Format.DecimalLength(e.ts, 19);
    SafeFits(e.alert.detail);
  }

  // ---- What the dashboard reads ----

  function EventObject(e: Event): Object {
    [Member("ts", Number(e.ts)),
     Member("type", Text(TypeName(e.alert.kind))),
     Member("sev", Text(SeverityName(e.alert.severity))),
     Member("detail", Text(Shown(e.alert.detail)))]
  }

  /** The names the dashboard tells events apart by. */
  lemma EventNames(e: Event)
    ensures EventObject(e)[1] == Member("type", Text(
              match e.alert.kind
              case NewDevice => "new_device"
              case DeviceMissing => "device_missing"
              case DeviceReturned => "device_returned"
              case HostnameChanged => "hostname_changed"
              case IpChanged => "ip_changed"
              case UnknownVendor => "unknown_vendor"
              case DeviceGrowth => "device_growth"
              case NightActivity => "night_activity"
              case NoEvent => "none"))
    ensures EventObject(e)[2] == Member("sev", Text(
              match e.alert.severity case Critical => "critical" case Warning => "warning" case Info => "info"))
    ensures EventObject(e)[0] == Member("ts", Number(e.ts)) && EventObject(e)[3].name == "detail"
  {
  }

  predicate NoControl(s: string) {
    forall i :: 0 <= i < |s| ==> s[i] >= ' '
  }

  lemma {:induction false} QuotesAreEnough(s: string)
    requires NoControl(s)
    ensures EscapeAll(EscapeQuotes, s) == Escape(s) && Printable(s)
  {
    if |s| > 0 {
      QuotesAreEnough(s[1..]);
    }
  }

  lemma SafeIsEscaped(detail: string)
    ensures SafeDetail(detail) == EscapeAll(EscapeQuotes, Shown(detail))
  {
    BoundedIsPrefix(EscapeQuotes, detail, 0, SAFE_LEN);
  }

  /** The shown part of a detail ends early only when its escape has filled 118 of the 120 characters. */
  lemma ShownIs(detail: string)
    ensures var k := |Shown(detail)|;
            && k <= |detail| && Shown(detail) == detail[..k]
            && (k == |detail| || detail[k] == '\0' || 118 <= |SafeDetail(detail)| < 120)
  {
    BoundedIsPrefix(EscapeQuotes, detail, 0, SAFE_LEN);
  }

  /** Reading a printed member and then the members after its comma. */
  lemma {:induction false} ReadMemberThen(m: Member, tail: string)
    requires Printable(m.name) && PrintableValue(m.value)
    ensures var r := ReadMembers(tail);
            ReadMembers(PrintMember(m) + ([','] + tail)) == if r.None? then None else Some(([m] + r.value.0, r.value.1))
  {
    ReadPrintedMember(m, [','] + tail);
    assert ([','] + tail)[1..] == tail;
  }

  lemma {:induction false} ReadThreeThen(m1: Member, m2: Member, m3: Member, tail: string)
    requires PrintableObject([m1, m2, m3])
    ensures var r := ReadMembers(tail);
            ReadMembers(PrintMember(m1) + ([','] + (PrintMember(m2) + ([','] + (PrintMember(m3) + ([','] + tail)))))) ==
              if r.None? then None else Some(([m1, m2, m3] + r.value.0, r.value.1))
  {
    hide PrintMember, ReadMembers;
    var ms := [m1, m2, m3];
    assert ms[0] == m1 && ms[1] == m2 && ms[2] == m3;
    var t3 := PrintMember(m3) + ([','] + tail);
    var t2 := PrintMember(m2) + ([','] + t3);
    ReadMemberThen(m3, tail);
    ReadMemberThen(m2, t3);
    ReadMemberThen(m1, t2);
    assert forall ms': Object :: [m1] + ([m2] + ([m3] + ms')) == [m1, m2, m3] + ms';
  }

  /** Reading the members of a line comes down to reading its detail. */
  lemma {:induction false} ReadLineMembers(e: Event, tail: string)
    ensures var r := ReadMembers(tail);
            ReadMembers(RawNumber("ts", e.ts) + ([','] +
                        (RawMember("type", TypeName(e.alert.kind)) + ([','] +
                        (RawMember("sev", SeverityName(e.alert.severity)) + ([','] + tail)))))) ==
              if r.None? then None else Some((EventObject(e)[..3] + r.value.0, r.value.1))
  {
    var m1, m2, m3 := EventObject(e)[0], EventObject(e)[1], EventObject(e)[2];
    HeadIsPrinted(e);
    ReadThreeThen(m1, m2, m3, tail);
    assert EventObject(e)[..3] == [m1, m2, m3];
  }

  lemma HeadIsPrinted(e: Event)
    ensures var o := EventObject(e);
            && PrintMember(o[0]) == RawNumber("ts", e.ts)
            && PrintMember(o[1]) == RawMember("type", TypeName(e.alert.kind))
            && PrintMember(o[2]) == RawMember("sev", SeverityName(e.alert.severity))
            && PrintableObject([o[0], o[1], o[2]])
  {
    NamesArePlain(e.alert.kind, e.alert.severity);
    EscapePlain("ts");
    EscapePlain("type");
    EscapePlain("sev");
    EscapePlain(TypeName(e.alert.kind));
    EscapePlain(SeverityName(e.alert.severity));
    hide Escape, Plain, TypeName, SeverityName, Printable;
    RawIsPrinted("type", TypeName(e.alert.kind));
    RawIsPrinted("sev", SeverityName(e.alert.severity));
  }

  /** A raw control character in a string ends the reading. */
  lemma {:induction false} ControlFails(s: string, rest: string)
    requires !NoControl(s)
    ensures ReadString(EscapeAll(EscapeQuotes, s) + ['"'] + rest).None?
  {
    var whole, tail := EscapeAll(EscapeQuotes, s) + ['"'] + rest, EscapeAll(EscapeQuotes, s[1..]) + ['"'] + rest;
    assert whole == EscapeQuotes(s[0]) + tail;
    if s[0] >= ' ' {
      assert !NoControl(s[1..]) by {
        var i :| 0 <= i < |s| && s[i] < ' ';
        assert s[1..][i - 1] < ' ';
      }
      ControlFails(s[1..], rest);
      if |EscapeQuotes(s[0])| == 2 {
        assert whole[2..] == tail;
      } else {
        assert whole[1..] == tail;
      }
    }
  }

  /** The detail member reads back as shown, or not at all. */
  lemma {:induction false} ReadDetail(e: Event, rest: string)
    ensures var shown := Shown(e.alert.detail);
            ReadMembers(RawMember("detail", SafeDetail(e.alert.detail)) + (['}'] + rest)) ==
              if NoControl(shown) then Some(([Member("detail", Text(shown))], rest)) else None
  {
    var shown, safe := Shown(e.alert.detail), SafeDetail(e.alert.detail);
    var whole := RawMember("detail", safe) + (['}'] + rest);
    NamesArePlain(e.alert.kind, e.alert.severity);
    SafeIsEscaped(e.alert.detail);
    if NoControl(shown) {
      QuotesAreEnough(shown);
      EscapePlain("detail");
      RawIsPrinted("detail", shown);
      ReadPrintedMember(Member("detail", Text(shown)), ['}'] + rest);
      ReadMembersLast(whole, Member("detail", Text(shown)), rest);
    } else {
      ControlFails(shown, ['}'] + rest);
      ReadBadMember("detail", safe, ['}'] + rest);
    }
  }

  lemma {:induction false} ReadBadMember(name: string, escaped: string, rest: string)
    requires Plain(name) && ReadString(escaped + ['"'] + rest).None?
    ensures ReadMember(RawMember(name, escaped) + rest).None?
  {
    hide ReadString, Escape;
    var whole := RawMember(name, escaped) + rest;
    var value := ['"'] + (escaped + ['"'] + rest);
    EscapePlain(name);
    ReadEscaped(name, [':'] + value);
    assert whole[1..] == Escape(name) + ['"'] + ([':'] + value);
    assert ([':'] + value)[1..] == value;
    assert value[1..] == escaped + ['"'] + rest;
  }

  lemma LineLayout(e: Event, safe: string, rest: string)
    ensures Line("", e, safe) + rest ==
              ['{'] + (RawNumber("ts", e.ts) + ([','] +
                       (RawMember("type", TypeName(e.alert.kind)) + ([','] +
                       (RawMember("sev", SeverityName(e.alert.severity)) + ([','] +
                       (RawMember("detail", safe) + (['}'] + rest))))))))
  {
    Layout(RawNumber("ts", e.ts), RawMember("type", TypeName(e.alert.kind)),
           RawMember("sev", SeverityName(e.alert.severity)), RawMember("detail", safe), rest);
  }

  lemma Layout(a: string, b: string, c: string, d: string, rest: string)
    ensures "" + (['{'] + (a + [','] + (b + [','] + (c + [','] + d))) + ['}']) + rest ==
              ['{'] + (a + ([','] + (b + ([','] + (c + ([','] + (d + (['}'] + rest))))))))
  {
  }

  /** One line reads back as its event's object, or, with a control character shown, not at all. */
  lemma ReadLine(e: Event, rest: string)
    ensures ReadObject(Line("", e, SafeDetail(e.alert.detail)) + rest) ==
              if NoControl(Shown(e.alert.detail)) then Some((EventObject(e), rest)) else None
  {
    var safe := SafeDetail(e.alert.detail);
    var tail := RawMember("detail", safe) + (['}'] + rest);
    LineLayout(e, safe, rest);
    ReadDetail(e, rest);
    ReadLineMembers(e, tail);
    var body := RawNumber("ts", e.ts) + ([','] +
                (RawMember("type", TypeName(e.alert.kind)) + ([','] +
                (RawMember("sev", SeverityName(e.alert.severity)) + ([','] + tail)))));
    assert body[0] == '"';
    assert (['{'] + body)[1..] == body;
    assert EventObject(e)[..3] + [EventObject(e)[3]] == EventObject(e);
  }

  // ---- The whole array ----

  /** The text from the object of event `i` to the end. */
  function FromLine(es: seq<Event>, i: nat): string
    requires i < |es|
    decreases |es| - i
  {
    Line("", es[i], SafeDetail(es[i].alert.detail))
    + if i + 1 == |es| then [']'] else [','] + FromLine(es, i + 1)
  }

  predicate AllFit(es: seq<Event>) {
    forall i :: 0 <= i < |es| ==> es[i].ts < Pow(10, 19)
  }

  predicate Clean(es: seq<Event>, i: nat) {
    forall k :: i <= k < |es| ==> NoControl(Shown(es[k].alert.detail))
  }

  function Objects(es: seq<Event>, i: nat): seq<Object>
    requires i <= |es|
    decreases |es| - i
  {
    if i == |es| then [] else [EventObject(es[i])] + Objects(es, i + 1)
  }

  lemma LeadSplits(i: nat, e: Event, safe: string)
    ensures Line(Lead(i), e, safe) == Lead(i) + Line("", e, safe)
  {
  }

  lemma ChunkIsLine(i: nat, e: Event)
    requires e.ts < Pow(10, 19)
    ensures Chunk(i, e) == Lead(i) + Line("", e, SafeDetail(e.alert.detail))
  {
    LineFits(i, e);
    LeadSplits(i, e, SafeDetail(e.alert.detail));
  }

  lemma {:induction false} ChunksAreLines(es: seq<Event>, i: nat)
    requires AllFit(es) && i < |es|
    ensures Chunks(es, i) + [']'] == Lead(i) + FromLine(es, i)
    decreases |es| - i
  {
    hide Chunk, Line;
    var line := Line("", es[i], SafeDetail(es[i].alert.detail));
    ChunkIsLine(i, es[i]);
    if i + 1 < |es| {
      ChunksAreLines(es, i + 1);
      Regroup(Lead(i), line, Chunks(es, i + 1), [']'], "");
      Regroup(Lead(i) + line, Chunks(es, i + 1), [']'], "", "");
      Regroup(Lead(i), line, [','] + FromLine(es, i + 1), "", "");
    } else {
      assert Chunks(es, i) == Chunk(i, es[i]) + "";
      Regroup(Lead(i), line, [']'], "", "");
    }
  }

  lemma {:induction false} ReadLines(es: seq<Event>, i: nat)
    requires i < |es|
    ensures ReadElements(FromLine(es, i)) == if Clean(es, i) then Some((Objects(es, i), "")) else None
    decreases |es| - i
  {
    hide Line, ReadObject, EventObject, NoControl, Shown;
    var e := es[i];
    var rest := if i + 1 == |es| then [']'] else [','] + FromLine(es, i + 1);
    ReadLine(e, rest);
    if i + 1 == |es| {
      assert rest[1..] == "";
      assert Objects(es, i) == [EventObject(e)] + Objects(es, i + 1) == [EventObject(e)];
    } else {
      ReadLines(es, i + 1);
      assert rest[1..] == FromLine(es, i + 1);
      assert Clean(es, i) <==> NoControl(Shown(e.alert.detail)) && Clean(es, i + 1);
    }
  }

  /**
   * Round trip. The text served for a snapshot parses exactly when no shown detail holds a control
   * character, and then it is the array of exactly the snapshot's events, in order.
   */
  lemma {:induction false} EventsTextReads(es: seq<Event>)
    requires AllFit(es)
    ensures ParseArray(EventsText(es)) == if Clean(es, 0) then Some(Objects(es, 0)) else None
    ensures |Objects(es, 0)| == |es|
  {
    hide Chunk, Line, EventObject, NoControl, Shown, ReadElements;
    ObjectsCount(es, 0);
    if |es| == 0 {
      assert EventsText(es)[1..] == "]";
    } else {
      ChunksAreLines(es, 0);
      Regroup(['['], Chunks(es, 0), [']'], "", "");
      assert EventsText(es)[1..] == FromLine(es, 0);
      ReadLines(es, 0);
      StartsWithBrace(es);
    }
  }

  lemma {:induction false} StartsWithBrace(es: seq<Event>)
    requires |es| > 0
    ensures FromLine(es, 0) != "]"
  {
    assert Line("", es[0], SafeDetail(es[0].alert.detail))[0] == '{';
  }

  lemma {:induction false} ObjectsCount(es: seq<Event>, i: nat)
    requires i <= |es|
    ensures |Objects(es, i)| == |es| - i
    decreases |es| - i
  {
    if i < |es| {
      ObjectsCount(es, i + 1);
    }
  }
}
