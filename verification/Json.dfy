/**
 * The JSON the firmware emits, and an independent reader for it: arrays of flat objects whose values are
 * strings or non-negative integers, without insignificant whitespace (sections 4 to 7 of RFC 8259).
 */
module Json {
  import opened Prelude
  import Format

  datatype Value = Text(text: string) | Number(number: nat)
  datatype Member = Member(name: string, value: Value)
  type Object = seq<Member>

  // ---- Printing ----

  function EscapeChar(c: char): string {
    if c == '"' || c == '\\' then ['\\', c] else if c == '\n' then ['\\', 'n'] else [c]
  }

  function Escape(s: string): string {
    if |s| == 0 then "" else EscapeChar(s[0]) + Escape(s[1..])
  }

  function Quoted(s: string): string {
    ['"'] + Escape(s) + ['"']
  }

  function PrintValue(v: Value): string {
    match v
    case Text(s) => Quoted(s)
    case Number(n) => Format.Decimal(n)
  }

  function PrintMember(m: Member): string {
    Quoted(m.name) + [':'] + PrintValue(m.value)
  }

  function PrintMembers(ms: Object): string
    requires |ms| > 0
  {
    if |ms| == 1 then PrintMember(ms[0]) else PrintMember(ms[0]) + [','] + PrintMembers(ms[1..])
  }

  function PrintObject(ms: Object): string
    requires |ms| > 0
  {
    ['{'] + PrintMembers(ms) + ['}']
  }

  /** A member as a format string lays it out: a literal name and a text that is already escaped. */
  function RawMember(name: string, escaped: string): string {
    ['"'] + name + ['"'] + [':'] + (['"'] + escaped + ['"'])
  }

  // ---- Reading ----

  /** Result of reading a prefix: the value and the text after it. */
  type Read<T> = Option<(T, string)>

  /** The two-character escapes; \u is never emitted and not read. */
  function Unescape(c: char): Option<char> {
    if c == '"' || c == '\\' || c == '/' then Some(c)
    else if c == 'n' then Some('\n')
    else if c == 'r' then Some('\r')
    else if c == 't' then Some('\t')
    else if c == 'b' then Some(8 as char)
    else if c == 'f' then Some(12 as char)
    else None
  }

  /** The rest of a string after its opening quote; a raw control character is an error. */
  function ReadString(s: string): (r: Read<string>)
    ensures r.Some? ==> |r.value.1| < |s|
  {
    if |s| == 0 || s[0] < ' ' then None
    else if s[0] == '"' then Some(("", s[1..]))
    else if s[0] == '\\' then
      if |s| < 2 || Unescape(s[1]).None? then None else Prepend(Unescape(s[1]).value, ReadString(s[2..]))
    else Prepend(s[0], ReadString(s[1..]))
  }

  function Prepend(c: char, r: Read<string>): Read<string> {
    if r.None? then None else Some(([c] + r.value.0, r.value.1))
  }

  predicate IsDigit(c: char) {
    '0' <= c <= '9'
  }

  /** The length of the leading run of digits. */
  function DigitRun(s: string): (n: nat)
    ensures n <= |s|
    ensures forall i :: 0 <= i < n ==> IsDigit(s[i])
  {
    if |s| == 0 || !IsDigit(s[0]) then 0 else 1 + DigitRun(s[1..])
  }

  function DigitValue(c: char): nat
    requires IsDigit(c)
  {
    c as int - '0' as int
  }

  function DigitsValue(ds: string): nat
    requires forall i :: 0 <= i < |ds| ==> IsDigit(ds[i])
  {
    if |ds| == 0 then 0 else 10 * DigitsValue(Front(ds)) + DigitValue(ds[|ds| - 1])
  }

  function ReadNumber(s: string): (r: Read<nat>)
    ensures r.Some? ==> |r.value.1| < |s|
  {
    var n := DigitRun(s);
    if n == 0 || (n > 1 && s[0] == '0') then None else Some((DigitsValue(s[..n]), s[n..]))
  }

  function ReadValue(s: string): (r: Read<Value>)
    ensures r.Some? ==> |r.value.1| < |s|
  {
    if |s| > 0 && s[0] == '"' then
      var r := ReadString(s[1..]);
      if r.None? then None else Some((Text(r.value.0), r.value.1))
    else
      var r := ReadNumber(s);
      if r.None? then None else Some((Number(r.value.0), r.value.1))
  }

  function ReadMember(s: string): (r: Read<Member>)
    ensures r.Some? ==> |r.value.1| < |s|
  {
    if |s| == 0 || s[0] != '"' then None else
      var name := ReadString(s[1..]);
      if name.None? || |name.value.1| == 0 || name.value.1[0] != ':' then None else
        var v := ReadValue(name.value.1[1..]);
        if v.None? then None else Some((Member(name.value.0, v.value.0), v.value.1))
  }

  /** One or more members up to and including the closing brace. */
  function ReadMembers(s: string): (r: Read<Object>)
    ensures r.Some? ==> |r.value.1| < |s|
    decreases |s|
  {
    var m := ReadMember(s);
    if m.None? || |m.value.1| == 0 then None
    else if m.value.1[0] == '}' then Some(([m.value.0], m.value.1[1..]))
    else if m.value.1[0] == ',' then
      var more := ReadMembers(m.value.1[1..]);
      if more.None? then None else Some(([m.value.0] + more.value.0, more.value.1))
    else None
  }

  function ReadObject(s: string): (r: Read<Object>)
    ensures r.Some? ==> |r.value.1| < |s|
  {
    if |s| == 0 || s[0] != '{' then None
    else if |s| > 1 && s[1] == '}' then Some(([], s[2..]))
    else ReadMembers(s[1..])
  }

  /** One or more objects up to and including the closing bracket. */
  function ReadElements(s: string): (r: Read<seq<Object>>)
    decreases |s|
  {
    var o := ReadObject(s);
    if o.None? || |o.value.1| == 0 then None
    else if o.value.1[0] == ']' then Some(([o.value.0], o.value.1[1..]))
    else if o.value.1[0] == ',' then
      var more := ReadElements(o.value.1[1..]);
      if more.None? then None else Some(([o.value.0] + more.value.0, more.value.1))
    else None
  }

  /** A whole text that is one array of objects. */
  function ParseArray(s: string): Option<seq<Object>> {
    if |s| == 0 || s[0] != '[' then None
    else if s[1..] == "]" then Some([])
    else
      var r := ReadElements(s[1..]);
      if r.None? || r.value.1 != "" then None else Some(r.value.0)
  }

  /** A whole text that is one object. */
  function ParseObject(s: string): Option<Object> {
    var r := ReadObject(s);
    if r.None? || r.value.1 != "" then None else Some(r.value.0)
  }

  // ---- Reading back what was printed ----

  /** Characters a printed string can carry: no control characters but the newline. */
  predicate Printable(s: string) {
    forall i :: 0 <= i < |s| ==> s[i] >= ' ' || s[i] == '\n'
  }

  /** Characters that are printed as they are. */
  predicate Plain(s: string) {
    forall i :: 0 <= i < |s| ==> s[i] >= ' ' && s[i] != '"' && s[i] != '\\'
  }

  lemma {:induction false} EscapePlain(s: string)
    requires Plain(s)
    ensures Escape(s) == s && Printable(s)
  {
    if |s| > 0 {
      EscapePlain(s[1..]);
      assert s == [s[0]] + s[1..];
    }
  }

  lemma {:induction false} RawIsPrinted(name: string, v: string)
    requires Plain(name)
    ensures RawMember(name, Escape(v)) == PrintMember(Member(name, Text(v)))
  {
    EscapePlain(name);
  }

  lemma {:induction false} ReadStringStep(c: char, tail: string, r: Read<string>)
    requires (c >= ' ' || c == '\n') && ReadString(tail) == r
    ensures ReadString(EscapeChar(c) + tail) == Prepend(c, r)
  {
    var s := EscapeChar(c) + tail;
    if |EscapeChar(c)| == 2 {
      assert s[2..] == tail;
    } else {
      assert s[1..] == tail;
    }
  }

  lemma {:induction false} ReadEscaped(s: string, rest: string)
    requires Printable(s)
    ensures ReadString(Escape(s) + ['"'] + rest) == Some((s, rest))
  {
    if |s| == 0 {
      assert Escape(s) + ['"'] + rest == ['"'] + rest;
    } else {
      var tail := Escape(s[1..]) + ['"'] + rest;
      ReadEscaped(s[1..], rest);
      ReadStringStep(s[0], tail, Some((s[1..], rest)));
      assert Escape(s) + ['"'] + rest == EscapeChar(s[0]) + tail;
      assert s == [s[0]] + s[1..];
    }
  }

  lemma {:induction false} DigitRunOf(ds: string, rest: string)
    requires forall i :: 0 <= i < |ds| ==> IsDigit(ds[i])
    requires |rest| > 0 ==> !IsDigit(rest[0])
    ensures DigitRun(ds + rest) == |ds|
  {
    if |ds| == 0 {
      assert ds + rest == rest;
    } else {
      assert (ds + rest)[1..] == ds[1..] + rest;
      DigitRunOf(ds[1..], rest);
    }
  }

  lemma {:induction false} DecimalValue(n: nat)
    ensures DigitsValue(Format.Decimal(n)) == n
    ensures |Format.Decimal(n)| > 1 ==> Format.Decimal(n)[0] != '0'
    ensures Format.Decimal(n)[0] == '0' ==> n == 0
  {
    if n >= 10 {
      DecimalValue(n / 10);
      var d := Format.Decimal(n);
      assert Front(d) == Format.Decimal(n / 10) && Last(d) == Format.Digit(n % 10);
    } else {
      assert Front(Format.Decimal(n)) == "";
    }
  }

  lemma {:induction false} ReadDecimal(n: nat, rest: string)
    requires |rest| > 0 ==> !IsDigit(rest[0])
    ensures ReadNumber(Format.Decimal(n) + rest) == Some((n, rest))
  {
    var d := Format.Decimal(n);
    DigitRunOf(d, rest);
    DecimalValue(n);
    assert (d + rest)[..|d|] == d && (d + rest)[|d|..] == rest;
  }

  predicate PrintableValue(v: Value) {
    v.Text? ==> Printable(v.text)
  }

  predicate PrintableObject(ms: Object) {
    forall i :: 0 <= i < |ms| ==> Printable(ms[i].name) && PrintableValue(ms[i].value)
  }

  lemma ReadPrintedValue(v: Value, rest: string)
    requires PrintableValue(v) && |rest| > 0 && !IsDigit(rest[0])
    ensures ReadValue(PrintValue(v) + rest) == Some((v, rest))
  {
    var whole := PrintValue(v) + rest;
    if v.Text? {
      assert whole[0] == '"';
      assert whole[1..] == Escape(v.text) + ['"'] + rest;
      ReadEscaped(v.text, rest);
    } else {
      ReadDecimal(v.number, rest);
      assert IsDigit(whole[0]);
    }
  }

  lemma ReadPrintedMember(m: Member, rest: string)
    requires Printable(m.name) && PrintableValue(m.value) && |rest| > 0 && !IsDigit(rest[0])
    ensures ReadMember(PrintMember(m) + rest) == Some((m, rest))
  {
    hide ReadString, ReadValue, Escape, PrintValue;
    var after := [':'] + PrintValue(m.value) + rest;
    assert (PrintMember(m) + rest)[1..] == Escape(m.name) + ['"'] + after;
    ReadEscaped(m.name, after);
    assert after[1..] == PrintValue(m.value) + rest;
    ReadPrintedValue(m.value, rest);
  }

  lemma {:induction false} ReadMembersMore(s: string, m: Member, tail: string, ms: Object, rest: string)
    requires ReadMember(s) == Some((m, [','] + tail)) && ReadMembers(tail) == Some((ms, rest))
    ensures ReadMembers(s) == Some(([m] + ms, rest))
  {
    assert ([','] + tail)[1..] == tail;
  }

  lemma {:induction false} ReadMembersLast(s: string, m: Member, rest: string)
    requires ReadMember(s) == Some((m, ['}'] + rest))
    ensures ReadMembers(s) == Some(([m], rest))
  {
    assert (['}'] + rest)[1..] == rest;
  }

  lemma Regroup(a: string, b: string, c: string, d: string, e: string)
    ensures a + b + c + d + e == a + (b + (c + d + e))
    ensures a + b + c == a + (b + c)
  {
  }

  lemma {:induction false} ReadPrintedMembers(ms: Object, rest: string)
    requires |ms| > 0 && PrintableObject(ms)
    ensures ReadMembers(PrintMembers(ms) + ['}'] + rest) == Some((ms, rest))
  {
    hide ReadMember, ReadMembers, PrintMember;
    var whole := PrintMembers(ms) + ['}'] + rest;
    if |ms| == 1 {
      Regroup(PrintMember(ms[0]), ['}'], rest, "", "");
      ReadPrintedMember(ms[0], ['}'] + rest);
      ReadMembersLast(whole, ms[0], rest);
      assert ms == [ms[0]];
    } else {
      var tail := PrintMembers(ms[1..]) + ['}'] + rest;
      ReadPrintedMembers(ms[1..], rest);
      Regroup(PrintMember(ms[0]), [','], PrintMembers(ms[1..]), ['}'], rest);
      ReadPrintedMember(ms[0], [','] + tail);
      ReadMembersMore(whole, ms[0], tail, ms[1..], rest);
      assert ms == [ms[0]] + ms[1..];
    }
  }

  /** Round trip for one object, whatever follows it. */
  lemma ReadPrintedObject(ms: Object, rest: string)
    requires |ms| > 0 && PrintableObject(ms)
    ensures ReadObject(PrintObject(ms) + rest) == Some((ms, rest))
  {
    var whole := PrintObject(ms) + rest;
    assert whole[1..] == PrintMembers(ms) + ['}'] + rest;
    assert PrintMembers(ms)[0] == '"';
    ReadPrintedMembers(ms, rest);
  }

  // ---- Escaping under an output bound ----

  /**
   * The loop both escapers share: characters are replaced one by one while the input lasts and two more
   * characters and a NUL still fit; `o` characters of `limit` are already used.
   */
  function BoundedEscape(esc: char -> string, s: string, o: nat, limit: nat): string
    decreases |s|
  {
    if |s| == 0 || s[0] == '\0' || o + 2 >= limit then ""
    else esc(s[0]) + BoundedEscape(esc, s[1..], o + |esc(s[0])|, limit)
  }

  /** How many input characters that loop consumes. */
  function Consumed(esc: char -> string, s: string, o: nat, limit: nat): (k: nat)
    ensures k <= |s|
    decreases |s|
  {
    if |s| == 0 || s[0] == '\0' || o + 2 >= limit then 0
    else 1 + Consumed(esc, s[1..], o + |esc(s[0])|, limit)
  }

  function EscapeAll(esc: char -> string, s: string): string {
    if |s| == 0 then "" else esc(s[0]) + EscapeAll(esc, s[1..])
  }

  /** The output is the whole escape of the consumed prefix, within bounds, and stops early only when nearly full. */
  lemma {:induction false} BoundedIsPrefix(esc: char -> string, s: string, o: nat, limit: nat)
    requires forall c :: |esc(c)| <= 2
    requires o < limit
    ensures var k, out := Consumed(esc, s, o, limit), BoundedEscape(esc, s, o, limit);
            && out == EscapeAll(esc, s[..k])
            && o + |out| < limit
            && '\0' !in s[..k]
            && (k == |s| || s[k] == '\0' || o + |out| + 2 >= limit)
    decreases |s|
  {
    if !(|s| == 0 || s[0] == '\0' || o + 2 >= limit) {
      BoundedIsPrefix(esc, s[1..], o + |esc(s[0])|, limit);
      var k := Consumed(esc, s, o, limit);
      assert s[..k][1..] == s[1..][..k - 1];
      assert s[..k] == [s[0]] + s[1..][..k - 1];
    }
  }

  /** One turn of the loop. */
  lemma {:induction false} BoundedStep(esc: char -> string, s: string, i: nat, o: nat, limit: nat)
    requires i < |s| && s[i] != '\0' && o + 2 < limit
    ensures BoundedEscape(esc, s[i..], o, limit) == esc(s[i]) + BoundedEscape(esc, s[i + 1..], o + |esc(s[i])|, limit)
  {
    assert s[i..][1..] == s[i + 1..];
  }

  lemma {:induction false} BoundedNoNul(esc: char -> string, s: string, o: nat, limit: nat)
    requires forall c :: c != '\0' ==> '\0' !in esc(c)
    ensures '\0' !in BoundedEscape(esc, s, o, limit)
    decreases |s|
  {
    if !(|s| == 0 || s[0] == '\0' || o + 2 >= limit) {
      BoundedNoNul(esc, s[1..], o + |esc(s[0])|, limit);
    }
  }
}
