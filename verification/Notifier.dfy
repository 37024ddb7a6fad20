/** main/notifier.c: webhook bodies, and the bounded queue that never blocks its caller. */
module Notifier {
  import opened Prelude
  import opened Inventory
  import opened Json

  const QUEUE_LEN := 8
  const CONTENT_LEN := 160
  const ESCAPED_LEN := 200
  const BODY_LEN := 256

  function Label(kind: Kind): (s: string)
    ensures |s| <= 16
  {
    match kind
    case NewDevice => "New device"
    case DeviceMissing => "Device missing"
    case DeviceReturned => "Device returned"
    case HostnameChanged => "Hostname changed"
    case IpChanged => "IP changed"
    case UnknownVendor => "Unknown vendor"
    case DeviceGrowth => "Device growth"
    case NightActivity => "Night activity"
    case NoEvent => "Alert"
  }

  /** The queued text of an event, cut to its buffer. */
  function Content(e: Event): string {
    Take("**" + Label(e.alert.kind) + "**: " + e.alert.detail, CONTENT_LEN - 1)
  }

  /** A stored detail always fits, and the queued text says in words what happened. */
  lemma ContentIsWhole(e: Event)
    requires |e.alert.detail| < DETAIL_LEN
    ensures Content(e) ==
              "**" + (match e.alert.kind
                      case NewDevice => "New device"
                      case DeviceMissing => "Device missing"
                      case DeviceReturned => "Device returned"
                      case HostnameChanged => "Hostname changed"
                      case IpChanged => "IP changed"
                      case UnknownVendor => "Unknown vendor"
                      case DeviceGrowth => "Device growth"
                      case NightActivity => "Night activity"
                      case NoEvent => "Alert") + "**: " + e.alert.detail
  {
  }

  // ---- Escaping ----

  /** What json_escape writes for one character; other control characters are dropped. */
  function EscapeOrDrop(c: char): string {
    if c == '"' || c == '\\' then ['\\', c]
    else if c == '\n' then ['\\', 'n']
    else if c >= ' ' then [c]
    else ""
  }

  /** A text without the control characters that json_escape drops. */
  function Clean(s: string): string {
    if |s| == 0 then "" else (if s[0] >= ' ' || s[0] == '\n' then [s[0]] else "") + Clean(s[1..])
  }

  lemma {:induction false} EscapesClean(s: string)
    ensures EscapeAll(EscapeOrDrop, s) == Escape(Clean(s))
    ensures Printable(Clean(s))
  {
    if |s| > 0 {
      EscapesClean(s[1..]);
      if s[0] >= ' ' || s[0] == '\n' {
        assert Clean(s)[1..] == Clean(s[1..]);
      } else {
        assert Clean(s) == Clean(s[1..]);
      }
    }
  }

  /** Writes what stands for one character at position `n`; two more characters fit. */
  method PutEscaped(out: array<char>, n: nat, c: char) returns (n': nat)
    requires n + 2 < out.Length
    modifies out
    ensures n' == n + |EscapeOrDrop(c)| <= n + 2
    ensures out[..n'] == old(out[..n]) + EscapeOrDrop(c)
  {
    n' := n;
    if c == '"' || c == '\\' {
      out[n'] := '\\';
      n' := n' + 1;
      out[n'] := c;
      n' := n' + 1;
    } else if c == '\n' {
      if n' + 2 < out.Length {
        out[n'] := '\\';
        n' := n' + 1;
        out[n'] := 'n';
        n' := n' + 1;
      }
    } else if c >= ' ' {
      out[n'] := c;
      n' := n' + 1;
    }
  }

  lemma {:induction false} EscapeLength(input: string, limit: nat)
    requires limit >= 1
    ensures |BoundedEscape(EscapeOrDrop, input, 0, limit)| < limit
  {
    BoundedIsPrefix(EscapeOrDrop, input, 0, limit);
  }

  /** Escapes a NUL-terminated text into a buffer, which it leaves terminated. */
  method JsonEscape(input: string, out: array<char>) returns (ghost o: nat)
    requires out.Length >= 1
    modifies out
    ensures o == |BoundedEscape(EscapeOrDrop, input, 0, out.Length)| < out.Length
    ensures out[..o] == BoundedEscape(EscapeOrDrop, input, 0, out.Length) && out[o] == '\0'
  {
    hide EscapeOrDrop;
    EscapeLength(input, out.Length);
    ghost var whole := BoundedEscape(EscapeOrDrop, input, 0, out.Length);
    var n, i := 0, 0;
    while i < |input| && input[i] != '\0' && n + 2 < out.Length
      invariant 0 <= i <= |input| && 0 <= n < out.Length
      invariant whole == out[..n] + BoundedEscape(EscapeOrDrop, input[i..], n, out.Length)
    {
      BoundedStep(EscapeOrDrop, input, i, n, out.Length);
      n := PutEscaped(out, n, input[i]);
      i := i + 1;
    }
    o := n;
    assert whole == out[..n];
    out[n] := '\0';
  }

  /**
   * Round trip. Between quotes, the escape of any text into any buffer reads back as a prefix of the text
   * without its dropped control characters; the prefix ends early only when the escape is within two of
   * the buffer's end.
   */
  lemma {:induction false} EscapeReads(input: string, limit: nat, rest: string)
    requires limit >= 1
    ensures var k, out := Consumed(EscapeOrDrop, input, 0, limit), BoundedEscape(EscapeOrDrop, input, 0, limit);
            && ReadString(out + ['"'] + rest) == Some((Clean(input[..k]), rest))
            && |out| < limit && (k == |input| || input[k] == '\0' || |out| + 2 >= limit)
  {
    var k := Consumed(EscapeOrDrop, input, 0, limit);
    BoundedIsPrefix(EscapeOrDrop, input, 0, limit);
    EscapesClean(input[..k]);
    ReadEscaped(Clean(input[..k]), rest);
  }

  // ---- The body ----

  /** {"content":"..."} around the escaped text. */
  function Body(content: string): string {
    ['{'] + RawMember("content", BoundedEscape(EscapeOrDrop, content, 0, ESCAPED_LEN)) + ['}']
  }

  /** Builds the body; it always fits its buffer, so no message is skipped. */
  method PostOne(content: string) returns (body: Option<string>)
    ensures body == Some(Body(content)) && |Body(content)| < BODY_LEN
  {
    var escaped := new char[ESCAPED_LEN];
    ghost var o := JsonEscape(content, escaped);
    BoundedIsPrefix(EscapeOrDrop, content, 0, ESCAPED_LEN);
    BoundedNoNul(EscapeOrDrop, content, 0, ESCAPED_LEN);
    assert forall i :: 0 <= i < o ==> escaped[..o][i] in escaped[..o];
    var text := ReadBack(escaped, o);
    var b := ['{'] + RawMember("content", text) + ['}'];
    body := if |b| < BODY_LEN then Some(b) else None;
  }

  /** The %s of a snprintf: the characters of a buffer up to its NUL. */
  method ReadBack(buffer: array<char>, ghost o: nat) returns (text: string)
    requires o < buffer.Length && buffer[o] == '\0'
    requires forall i :: 0 <= i < o ==> buffer[i] != '\0'
    ensures text == buffer[..o]
  {
    text := "";
    var i := 0;
    while buffer[i] != '\0'
      invariant 0 <= i <= o
      invariant text == buffer[..i]
      decreases o - i
    {
      text := text + [buffer[i]];
      i := i + 1;
    }
  }

  /**
   * Round trip. The body is one JSON object whose content is a prefix of the text without its dropped
   * control characters; the prefix is the whole text unless the escape came within two of its limit.
   */
  lemma {:induction false} BodyReads(content: string)
    requires '\0' !in content
    ensures var k := Consumed(EscapeOrDrop, content, 0, ESCAPED_LEN);
            && ParseObject(Body(content)) == Some([Member("content", Text(Clean(content[..k])))])
            && (k == |content| || |Escape(Clean(content[..k]))| >= 198)
  {
    var k := Consumed(EscapeOrDrop, content, 0, ESCAPED_LEN);
    BoundedIsPrefix(EscapeOrDrop, content, 0, ESCAPED_LEN);
    EscapesClean(content[..k]);
    ContentReads(Clean(content[..k]));
  }

  /**
   * A detail that holds nothing to escape is posted in full: the body of a loss reads "Device missing", and
   * that of a return "Device returned".
   */
  lemma LossAndReturnRead(e: Event)
    requires |e.alert.detail| < DETAIL_LEN && Plain(e.alert.detail)
    ensures e.alert.kind == DeviceMissing ==>
              ParseObject(Body(Content(e))) == Some([Member("content", Text("**Device missing**: " + e.alert.detail))])
    ensures e.alert.kind == DeviceReturned ==>
              ParseObject(Body(Content(e))) == Some([Member("content", Text("**Device returned**: " + e.alert.detail))])
  {
    hide ParseObject, Body, Content;
    ContentIsWhole(e);
    if e.alert.kind == DeviceMissing {
      assert "**" + "Device missing" + "**: " == "**Device missing**: ";
      PlainReads("**Device missing**: " + e.alert.detail);
    }
    if e.alert.kind == DeviceReturned {
      assert "**" + "Device returned" + "**: " == "**Device returned**: ";
      PlainReads("**Device returned**: " + e.alert.detail);
    }
  }

  lemma {:induction false} CleanPlain(s: string)
    requires Plain(s)
    ensures Clean(s) == s
  {
    if |s| > 0 {
      CleanPlain(s[1..]);
      assert s == [s[0]] + s[1..];
    }
  }

  lemma PlainReads(content: string)
    requires Plain(content) && |content| <= 120
    ensures ParseObject(Body(content)) == Some([Member("content", Text(content))])
  {
    hide ParseObject, Body;
    assert forall c :: c in content ==> c != '\0';
    BodyReads(content);
    var k := Consumed(EscapeOrDrop, content, 0, ESCAPED_LEN);
    CleanPlain(content[..k]);
    EscapePlain(content[..k]);
    assert k == |content| && content[..k] == content;
  }

  lemma ContentIsPlain()
    ensures Plain("content") && Printable("content")
  {
  }

  lemma {:induction false} ContentReads(v: string)
    requires Printable(v)
    ensures ParseObject(['{'] + RawMember("content", Escape(v)) + ['}']) == Some([Member("content", Text(v))])
  {
    hide ReadObject, PrintMember, RawMember, Escape;
    var ms := [Member("content", Text(v))];
    ContentIsPlain();
    RawIsPrinted("content", v);
    ReadPrintedObject(ms, "");
    assert PrintObject(ms) + "" == PrintObject(ms);
  }

  // ---- The queue ----

  class Queue {
    const configured: bool
    var waiting: seq<string>
    /** Every text offered, the positions of those accepted, and every text posted. */
    ghost var offered: seq<string>
    ghost var accepted: seq<nat>
    ghost var posted: seq<string>

    /** First in, first out, nothing invented: what was posted and what waits are the accepted offers in order. */
    ghost predicate Valid()
      reads this
    {
      && |waiting| <= QUEUE_LEN
      && |accepted| == |posted| + |waiting|
      && (forall i :: 0 <= i < |accepted| ==> accepted[i] < |offered| && (posted + waiting)[i] == offered[accepted[i]])
      && (forall i, j :: 0 <= i < j < |accepted| ==> accepted[i] < accepted[j])
    }

    constructor (configured: bool)
      ensures Valid() && this.configured == configured && waiting == [] && offered == [] && posted == []
    {
      this.configured := configured;
      waiting, offered, accepted, posted := [], [], [], [];
    }

    /** Never waits: the text is dropped exactly when the queue is full or no webhook is configured. */
    method Notify(e: Event)
      requires Valid()
      modifies this
      ensures Valid()
      ensures offered == old(offered) + [Content(e)] && posted == old(posted)
      ensures waiting == if configured && |old(waiting)| < 8 then old(waiting) + [Content(e)] else old(waiting)
      ensures accepted ==
                if configured && |old(waiting)| < 8 then old(accepted) + [|old(offered)|] else old(accepted)
    {
      hide Content;
      offered := offered + [Content(e)];
      if !configured {
        return;
      }
      if |waiting| < QUEUE_LEN {
        waiting := waiting + [Content(e)];
        accepted := accepted + [|offered| - 1];
        assert posted + waiting == old(posted + waiting) + [Content(e)];
      }
    }

    /** One turn of the posting task. */
    method Receive() returns (body: Option<string>)
      requires Valid()
      modifies this
      ensures Valid()
      ensures offered == old(offered) && accepted == old(accepted)
      ensures if old(waiting) == [] then body == None && waiting == [] && posted == old(posted)
              else && body == Some(Body(old(waiting)[0])) && waiting == old(waiting)[1..]
                   && posted == old(posted) + [old(waiting)[0]]
    {
      if |waiting| == 0 {
        return None;
      }
      var content := waiting[0];
      waiting := waiting[1..];
      posted := posted + [content];
      assert posted + waiting == old(posted + waiting);
      body := PostOne(content);
    }
  }

  /** What a burst of offers leaves in the queue when the posting task does not run meanwhile. */
  function Burst(waiting: seq<string>, es: seq<Event>): seq<string> {
    if |es| == 0 then waiting else
      var w := Burst(waiting, Front(es));
      if |w| < QUEUE_LEN then w + [Content(Last(es))] else w
  }

  function Contents(es: seq<Event>): (cs: seq<string>)
    ensures |cs| == |es|
  {
    seq(|es|, i requires 0 <= i < |es| => Content(es[i]))
  }

  /** A burst keeps the earliest offers that fit, in order, and loses the rest. */
  lemma {:induction false} BurstKeepsEarliest(waiting: seq<string>, es: seq<Event>)
    requires |waiting| <= QUEUE_LEN
    ensures Burst(waiting, es) == waiting + Take(Contents(es), QUEUE_LEN - |waiting|)
  {
    hide Content;
    if |es| > 0 {
      BurstKeepsEarliest(waiting, Front(es));
      ContentsSplit(es);
      hide Contents;
      TakePush(waiting, Contents(Front(es)), Content(Last(es)), QUEUE_LEN - |waiting|);
    }
  }

  lemma ContentsSplit(es: seq<Event>)
    requires |es| > 0
    ensures Contents(es) == Contents(Front(es)) + [Content(Last(es))]
  {
    hide Content;
  }

  lemma TakePush(waiting: seq<string>, cs: seq<string>, c: string, room: nat)
    ensures waiting + Take(cs + [c], room) ==
              if |Take(cs, room)| < room then waiting + Take(cs, room) + [c] else waiting + Take(cs, room)
  {
    if |cs| < room {
      assert Take(cs + [c], room) == cs + [c];
    } else {
      assert Take(cs + [c], room) == Take(cs, room);
    }
  }
}
