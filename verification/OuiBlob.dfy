/** tools/build_oui.py: packing the vendor registry into the bytes that Oui searches. */
module OuiBlob {
  import opened Prelude
  import opened Oui
  import Inventory

  datatype Record = Record(oui: Oui24, vendor: string)

  // ---- Sorting and de-duplication ----

  function Insert(r: Record, s: seq<Record>): seq<Record> {
    if |s| == 0 || Number(r.oui) <= Number(s[0].oui) then [r] + s else [s[0]] + Insert(r, s[1..])
  }

  /** A stable sort by OUI, as Python's list.sort is. */
  function StableSort(rs: seq<Record>): seq<Record> {
    if |rs| == 0 then [] else Insert(rs[0], StableSort(rs[1..]))
  }

  predicate Sorted(rs: seq<Record>) {
    forall i, j :: 0 <= i < j < |rs| ==> Number(rs[i].oui) <= Number(rs[j].oui)
  }

  predicate StrictlySorted(rs: seq<Record>) {
    forall i, j :: 0 <= i < j < |rs| ==> Number(rs[i].oui) < Number(rs[j].oui)
  }

  /** The records of one OUI, in their order in the list. */
  function Having(rs: seq<Record>, oui: Oui24): seq<Record> {
    if |rs| == 0 then [] else
      Having(Front(rs), oui) + if Last(rs).oui == oui then [Last(rs)] else []
  }

  function Ouis(rs: seq<Record>): set<Oui24> {
    set r | r in rs :: r.oui
  }

  lemma {:induction false} HavingAppend(a: seq<Record>, b: seq<Record>, oui: Oui24)
    ensures Having(a + b, oui) == Having(a, oui) + Having(b, oui)
  {
    if |b| == 0 {
      assert a + b == a;
    } else {
      assert Front(a + b) == a + Front(b);
      HavingAppend(a, Front(b), oui);
    }
  }

  lemma {:induction false} HavingMembers(rs: seq<Record>, oui: Oui24)
    ensures |Having(rs, oui)| > 0 <==> oui in Ouis(rs)
    ensures forall r :: r in Having(rs, oui) ==> r in rs && r.oui == oui
  {
    if |rs| > 0 {
      HavingMembers(Front(rs), oui);
      assert rs == Front(rs) + [Last(rs)];
      OuisPush(Front(rs), Last(rs));
    }
  }

  lemma {:induction false} InsertSorted(r: Record, s: seq<Record>)
    requires Sorted(s)
    ensures Sorted(Insert(r, s))
    ensures forall x :: x in Insert(r, s) <==> x == r || x in s
  {
    if !(|s| == 0 || Number(r.oui) <= Number(s[0].oui)) {
      InsertSorted(r, s[1..]);
      hide Number;
      assert s == [s[0]] + s[1..];
      assert forall x :: x in Insert(r, s[1..]) ==> Number(s[0].oui) <= Number(x.oui);
    }
  }

  lemma {:induction false} HavingCons(r: Record, s: seq<Record>, oui: Oui24)
    ensures Having([r] + s, oui) == if r.oui == oui then [r] + Having(s, oui) else Having(s, oui)
  {
    HavingAppend([r], s, oui);
    assert Having(Front([r]), oui) == [];
  }

  lemma {:induction false} InsertStable(r: Record, s: seq<Record>, oui: Oui24)
    requires Sorted(s)
    ensures Having(Insert(r, s), oui) == Having([r] + s, oui)
  {
    if !(|s| == 0 || Number(r.oui) <= Number(s[0].oui)) {
      InsertStable(r, s[1..], oui);
      HavingCons(s[0], Insert(r, s[1..]), oui);
      HavingCons(r, s[1..], oui);
      HavingCons(r, s, oui);
      assert s == [s[0]] + s[1..];
      HavingCons(s[0], s[1..], oui);
    }
  }

  /** The sort orders the list, and moves no record past another of the same OUI. */
  lemma {:induction false} StableSortCorrect(rs: seq<Record>)
    ensures Sorted(StableSort(rs))
    ensures forall oui :: Having(StableSort(rs), oui) == Having(rs, oui)
    ensures Ouis(StableSort(rs)) == Ouis(rs)
  {
    if |rs| > 0 {
      var rest := StableSort(rs[1..]);
      StableSortCorrect(rs[1..]);
      InsertSorted(rs[0], rest);
      assert rs == [rs[0]] + rs[1..];
      forall oui ensures Having(StableSort(rs), oui) == Having(rs, oui) {
        InsertStable(rs[0], rest, oui);
        HavingCons(rs[0], rest, oui);
        HavingCons(rs[0], rs[1..], oui);
      }
    }
    forall oui ensures oui in Ouis(StableSort(rs)) <==> oui in Ouis(rs) {
      HavingMembers(StableSort(rs), oui);
      HavingMembers(rs, oui);
    }
  }

  lemma OuisPush(rs: seq<Record>, r: Record)
    ensures Ouis(rs + [r]) == Ouis(rs) + {r.oui}
  {
    assert forall x :: x in rs + [r] <==> x in rs || x == r;
    assert r in rs + [r];
  }

  /** Keeps the first record of each OUI. */
  function Dedup(rs: seq<Record>): (d: seq<Record>)
    ensures Ouis(d) == Ouis(rs)
  {
    if |rs| == 0 then [] else
      assert rs == Front(rs) + [Last(rs)];
      var d := Dedup(Front(rs));
      OuisPush(Front(rs), Last(rs));
      OuisPush(d, Last(rs));
      if Last(rs).oui in Ouis(d) then d else d + [Last(rs)]
  }

  lemma {:induction false} DedupCorrect(rs: seq<Record>)
    requires Sorted(rs)
    ensures StrictlySorted(Dedup(rs))
    ensures forall r :: r in Dedup(rs) ==> |Having(rs, r.oui)| > 0 && r == Having(rs, r.oui)[0]
  {
    if |rs| > 0 {
      DedupCorrect(Front(rs));
      var d, l := Dedup(Front(rs)), Last(rs);
      forall i | 0 <= i < |d| ensures Number(d[i].oui) <= Number(l.oui) {
        assert d[i].oui in Ouis(d);
      }
      HavingMembers(Front(rs), l.oui);
      if l.oui !in Ouis(d) {
        forall i | 0 <= i < |d| ensures Number(d[i].oui) < Number(l.oui) {
          assert d[i].oui in Ouis(d);
          CompareIsNumeric(d[i].oui, l.oui);
        }
      }
    }
  }

  // ---- Truncation and packing ----

  /** How many records fit; Python's // rounds down, and so does / by a positive divisor. */
  function Capacity(maxSize: int): int {
    (maxSize - HEADER_SIZE) / RECORD_SIZE
  }

  /** Python's `s[:m]` when `s` is longer than `m`; a negative `m` counts from the end. */
  function Truncate(s: seq<Record>, m: int): seq<Record> {
    if |s| <= m then s else if m >= 0 then s[..m] else s[..Max(0, |s| + m)]
  }

  function Packed(records: seq<Record>, maxSize: int): seq<Record> {
    Truncate(Dedup(StableSort(records)), Capacity(maxSize))
  }

  /** Encoding to ASCII with every other character replaced by a question mark. */
  function AsciiReplace(v: string): seq<Byte> {
    seq(|v|, i requires 0 <= i < |v| => if v[i] as int < 128 then v[i] as int else 63)
  }

  function Zeros(n: nat): seq<Byte> {
    seq(n, _ => 0)
  }

  function VendorBytes(v: string): (f: seq<Byte>)
    ensures |f| == VENDOR_FIELD
  {
    var b := Take(AsciiReplace(v), VENDOR_FIELD);
    b + Zeros(VENDOR_FIELD - |b|)
  }

  function OuiBytes(o: Oui24): seq<Byte> {
    [o.b0, o.b1, o.b2]
  }

  function RecordBytes(r: Record): (b: seq<Byte>)
    ensures |b| == RECORD_SIZE
  {
    OuiBytes(r.oui) + [0] + VendorBytes(r.vendor)
  }

  function Body(rs: seq<Record>): (b: seq<Byte>)
    ensures |b| == RECORD_SIZE * |rs|
  {
    if |rs| == 0 then [] else Body(Front(rs)) + RecordBytes(Last(rs))
  }

  function PackLittleEndian(n: nat): (b: seq<Byte>)
    requires n < TWO_TO_THE_32
    ensures |b| == 4
  {
    [n % 256, n / 256 % 256, n / 65536 % 256, n / 16777216]
  }

  function Blob(rs: seq<Record>): (b: seq<Byte>)
    requires |rs| < TWO_TO_THE_32
    ensures |b| == HEADER_SIZE + RECORD_SIZE * |rs|
  {
    MAGIC + PackLittleEndian(|rs|) + Body(rs)
  }

  lemma {:induction false} PackedCount(rs: seq<Record>)
    requires StrictlySorted(rs)
    ensures |rs| > 0 ==> Number(Last(rs).oui) >= |rs| - 1
    ensures |rs| <= 0x100_0000
  {
    if |rs| > 1 {
      PackedCount(Front(rs));
    }
  }

  lemma {:induction false} PackedCorrect(records: seq<Record>, maxSize: int)
    ensures StrictlySorted(Packed(records, maxSize))
    ensures |Packed(records, maxSize)| <= 0x100_0000
    ensures forall r :: r in Packed(records, maxSize) ==>
              |Having(records, r.oui)| > 0 && r == Having(records, r.oui)[0]
  {
    StableSortCorrect(records);
    DedupCorrect(StableSort(records));
    PackedCount(Packed(records, maxSize));
  }

  method DedupLoop(sorted: seq<Record>) returns (deduped: seq<Record>)
    ensures deduped == Dedup(sorted)
  {
    var seen: set<Oui24> := {};
    deduped := [];
    var i := 0;
    while i < |sorted|
      invariant 0 <= i <= |sorted|
      invariant deduped == Dedup(sorted[..i])
      invariant seen == Ouis(deduped)
    {
      assert Front(sorted[..i + 1]) == sorted[..i];
      OuisPush(deduped, sorted[i]);
      if sorted[i].oui !in seen {
        seen := seen + {sorted[i].oui};
        deduped := deduped + [sorted[i]];
      }
      i := i + 1;
    }
    assert sorted[..i] == sorted;
  }

  method PackLoop(rs: seq<Record>) returns (body: seq<Byte>)
    ensures body == Body(rs)
  {
    body := [];
    var i := 0;
    while i < |rs|
      invariant 0 <= i <= |rs|
      invariant body == Body(rs[..i])
    {
      assert Front(rs[..i + 1]) == rs[..i];
      ghost var before := body;
      body := body + OuiBytes(rs[i].oui);
      body := body + [0];
      body := body + VendorBytes(rs[i].vendor);
      assert body == before + RecordBytes(rs[i]);
      i := i + 1;
    }
    assert rs[..i] == rs;
  }

  /** The byte a character is packed as. */
  predicate Encodes(c: char, b: Byte) {
    b == if c < 128 as char then c as int else '?' as int
  }

  /** The 32 bytes of a record: its OUI, a zero, and 28 bytes of ASCII name padded with zeros. */
  predicate RecordLaidOut(b: seq<Byte>, r: Record) {
    && |b| == 32
    && b[0] == r.oui.b0 && b[1] == r.oui.b1 && b[2] == r.oui.b2 && b[3] == 0
    && (forall k :: 0 <= k < 28 ==> if k < |r.vendor| then Encodes(r.vendor[k], b[4 + k]) else b[4 + k] == 0)
  }

  /** The file format: "OUI1", the number of records in little-endian order, and the records. */
  predicate LaidOut(blob: seq<Byte>, rs: seq<Record>) {
    && |blob| == 8 + 32 * |rs|
    && blob[..4] == ['O' as int, 'U' as int, 'I' as int, '1' as int]
    && blob[4] as int + 256 * (blob[5] as int + 256 * (blob[6] as int + 256 * blob[7] as int)) == |rs|
    && forall i :: 0 <= i < |rs| ==> RecordLaidOut(blob[8 + 32 * i..40 + 32 * i], rs[i])
  }

  lemma RecordLayout(r: Record)
    ensures RecordLaidOut(RecordBytes(r), r)
  {
    var b, v := RecordBytes(r), Take(AsciiReplace(r.vendor), VENDOR_FIELD);
    forall k | 0 <= k < 28
      ensures if k < |r.vendor| then Encodes(r.vendor[k], b[4 + k]) else b[4 + k] == 0
    {
      assert b[4 + k] == VendorBytes(r.vendor)[k];
      assert k < |v| ==> v[k] == AsciiReplace(r.vendor)[k];
    }
  }

  lemma BlobLayout(rs: seq<Record>)
    requires |rs| <= 0x100_0000
    ensures LaidOut(Blob(rs), rs)
  {
    var blob := Blob(rs);
    CountDecodes(|rs|);
    assert blob[..4] == MAGIC && blob[4..8] == PackLittleEndian(|rs|);
    forall i | 0 <= i < |rs| ensures RecordLaidOut(blob[8 + 32 * i..40 + 32 * i], rs[i]) {
      BodyAt(rs, i);
      RecordLayout(rs[i]);
      assert blob[8 + 32 * i..40 + 32 * i] == Body(rs)[RECORD_SIZE * i..RECORD_SIZE * i + RECORD_SIZE];
    }
  }

  method PackBlob(records: seq<Record>, maxSize: int) returns (blob: seq<Byte>, count: nat)
    ensures |Packed(records, maxSize)| <= 0x100_0000
    ensures blob == Blob(Packed(records, maxSize)) && count == |Packed(records, maxSize)|
    ensures LaidOut(blob, Packed(records, maxSize))
  {
    hide LaidOut;
    PackedCorrect(records, maxSize);
    var sorted := StableSort(records);
    var deduped := DedupLoop(sorted);
    deduped := Truncate(deduped, Capacity(maxSize));
    var body := PackLoop(deduped);
    blob := MAGIC + PackLittleEndian(|deduped|) + body;
    count := |deduped|;
    BlobLayout(deduped);
  }

  /**
   * The blob fits its cap exactly when the cap holds the header; below that the negative slice keeps too
   * much. Within its cap it leaves out a registered OUI only when one more record would not fit.
   */
  lemma BlobFits(records: seq<Record>, maxSize: int)
    ensures |Packed(records, maxSize)| <= 0x100_0000
    ensures |Blob(Packed(records, maxSize))| == HEADER_SIZE + RECORD_SIZE * |Packed(records, maxSize)|
    ensures |Blob(Packed(records, maxSize))| <= maxSize <==> maxSize >= HEADER_SIZE
    ensures maxSize >= HEADER_SIZE && |Packed(records, maxSize)| < |Ouis(records)| ==>
              |Blob(Packed(records, maxSize))| + 32 > maxSize
  {
    PackedCorrect(records, maxSize);
    StableSortCorrect(records);
    DedupCorrect(StableSort(records));
    OuiCount(Dedup(StableSort(records)));
  }

  // ---- What the device reads back ----

  lemma {:induction false} BodyAt(rs: seq<Record>, i: nat)
    requires i < |rs|
    ensures Body(rs)[RECORD_SIZE * i..RECORD_SIZE * i + RECORD_SIZE] == RecordBytes(rs[i])
  {
    if i < |rs| - 1 {
      BodyAt(Front(rs), i);
      assert Body(rs)[RECORD_SIZE * i..RECORD_SIZE * i + RECORD_SIZE]
          == Body(Front(rs))[RECORD_SIZE * i..RECORD_SIZE * i + RECORD_SIZE];
    }
  }

  /** The records region after flashing; `rest` is whatever follows the blob. */
  function Region(rs: seq<Record>, rest: seq<Byte>): seq<Byte> {
    Body(rs) + rest
  }

  function Flashed(rs: seq<Record>, rest: seq<Byte>): Db
    requires |rs| <= 0x100_0000
  {
    Mapped(|rs|, Region(rs, rest))
  }

  /** The device decodes the header that was written. */
  lemma OpenFlashed(rs: seq<Record>, rest: seq<Byte>)
    requires |rs| <= 0x100_0000
    ensures Open(Blob(rs) + rest) == Flashed(rs, rest)
  {
    var f := Blob(rs) + rest;
    CountDecodes(|rs|);
    hide PackLittleEndian, LittleEndian32, Body;
    assert f[..4] == MAGIC;
    assert f[4..8] == PackLittleEndian(|rs|);
    assert f[HEADER_SIZE..] == Region(rs, rest);
  }

  lemma CountDecodes(n: nat)
    requires n < TWO_TO_THE_32
    ensures LittleEndian32(PackLittleEndian(n)) == n
  {
    var q := n / 256;
    assert n == 256 * q + n % 256 && q == 256 * (q / 256) + q % 256;
    assert n / 65536 == q / 256 && n / 16777216 == q / 256 / 256;
  }

  lemma RegionRecord(rs: seq<Record>, rest: seq<Byte>, i: nat)
    requires i < |rs|
    ensures HasRecord(Region(rs, rest), i)
    ensures Region(rs, rest)[RECORD_SIZE * i..RECORD_SIZE * (i + 1)] == RecordBytes(rs[i])
  {
    BodyAt(rs, i);
    assert Region(rs, rest)[RECORD_SIZE * i..RECORD_SIZE * (i + 1)]
        == Body(rs)[RECORD_SIZE * i..RECORD_SIZE * i + RECORD_SIZE];
  }

  /** The reader sees the writer's OUIs, in ascending order. */
  lemma ReaderSeesRecords(rs: seq<Record>, rest: seq<Byte>)
    requires StrictlySorted(rs)
    ensures forall i :: 0 <= i < |rs| ==> OuiAt(Region(rs, rest), i) == rs[i].oui
    ensures Ascending(Region(rs, rest), |rs|)
  {
    forall i | 0 <= i < |rs| ensures OuiAt(Region(rs, rest), i) == rs[i].oui {
      RegionRecord(rs, rest, i);
      var rec := Region(rs, rest)[RECORD_SIZE * i..RECORD_SIZE * (i + 1)];
      assert OuiAt(Region(rs, rest), i) == Oui24(rec[0], rec[1], rec[2]);
    }
  }

  /** How many distinct registered OUIs come before this one. */
  function Rank(records: seq<Record>, oui: Oui24): nat {
    |set o | o in Ouis(records) && Number(o) < Number(oui)|
  }

  lemma {:induction false} OuiCount(rs: seq<Record>)
    requires StrictlySorted(rs)
    ensures |Ouis(rs)| == |rs|
  {
    if |rs| > 0 {
      OuiCount(Front(rs));
      assert rs == Front(rs) + [Last(rs)];
      OuisPush(Front(rs), Last(rs));
      forall r | r in Front(rs) ensures r.oui != Last(rs).oui {
        var i :| 0 <= i < |Front(rs)| && Front(rs)[i] == r;
        assert Number(rs[i].oui) < Number(Last(rs).oui);
      }
    }
  }

  lemma RankIsIndex(records: seq<Record>, kept: seq<Record>, i: nat)
    requires StrictlySorted(kept) && Ouis(kept) == Ouis(records) && i < |kept|
    ensures Rank(records, kept[i].oui) == i
  {
    var below := set o | o in Ouis(records) && Number(o) < Number(kept[i].oui);
    forall o ensures o in below <==> o in Ouis(kept[..i]) {
      if o in below {
        var r :| r in kept && r.oui == o;
        var j :| 0 <= j < |kept| && kept[j] == r;
        assert j < i;
        assert kept[..i][j].oui == o;
      }
      if o in Ouis(kept[..i]) {
        var r :| r in kept[..i] && r.oui == o;
        var j :| 0 <= j < i && kept[..i][j] == r;
        assert kept[j] == r && r in kept;
        assert Number(kept[j].oui) < Number(kept[i].oui);
      }
    }
    assert below == Ouis(kept[..i]);
    OuiCount(kept[..i]);
  }

  /** Registered, and among the lowest OUIs that fit. */
  predicate Survives(records: seq<Record>, maxSize: int, oui: Oui24) {
    oui in Ouis(records) && Rank(records, oui) < Capacity(maxSize)
  }

  lemma SurvivesIffPacked(records: seq<Record>, maxSize: int, oui: Oui24)
    requires maxSize >= HEADER_SIZE
    ensures Survives(records, maxSize, oui) <==> oui in Ouis(Packed(records, maxSize))
  {
    StableSortCorrect(records);
    DedupCorrect(StableSort(records));
    var kept := Dedup(StableSort(records));
    var packed := Packed(records, maxSize);
    if oui in Ouis(packed) {
      var r :| r in packed && r.oui == oui;
      var i :| 0 <= i < |packed| && packed[i] == r;
      assert kept[i] == r && r in kept && oui in Ouis(kept);
      RankIsIndex(records, kept, i);
    }
    if Survives(records, maxSize, oui) {
      assert oui in Ouis(kept);
      var r :| r in kept && r.oui == oui;
      var i :| 0 <= i < |kept| && kept[i] == r;
      RankIsIndex(records, kept, i);
      assert packed[i] == r && r in packed;
    }
  }

  function UntilNul(s: string): string {
    if |s| == 0 || s[0] == '\0' then "" else [s[0]] + UntilNul(s[1..])
  }

  function Chars(b: seq<Byte>): string {
    seq(|b|, i requires 0 <= i < |b| => b[i] as char)
  }

  /** The name as the device can show it: ASCII, at most 28 characters, ended by any NUL. */
  function ShownName(v: string): string {
    UntilNul(Chars(Take(AsciiReplace(v), VENDOR_FIELD)))
  }

  /** The shown name, character by character: it ends at a NUL, after 28 characters, or with the name. */
  lemma ShownNameIs(v: string)
    ensures var n := |ShownName(v)|;
            && n <= 28 && n <= |v|
            && (forall k :: 0 <= k < n ==> v[k] != '\0'
                                           && ShownName(v)[k] == if v[k] < 128 as char then v[k] else '?')
            && (n < 28 && n < |v| ==> v[n] == '\0')
  {
    var s := Chars(Take(AsciiReplace(v), VENDOR_FIELD));
    UntilNulShape(s);
    assert forall k :: 0 <= k < |s| ==> s[k] == if v[k] < 128 as char then v[k] else '?';
  }

  /** All characters are ASCII and none is a NUL. */
  predicate Ascii(v: string) {
    forall k :: 0 <= k < |v| ==> '\0' < v[k] < 128 as char
  }

  lemma ShownAscii(v: string)
    requires Ascii(v)
    ensures ShownName(v) == Take(v, 28)
  {
    ShownNameIs(v);
  }

  lemma {:induction false} UntilNulShape(s: string)
    ensures |UntilNul(s)| <= |s| && UntilNul(s) == s[..|UntilNul(s)|]
    ensures forall k :: 0 <= k < |UntilNul(s)| ==> s[k] != '\0'
    ensures |UntilNul(s)| < |s| ==> s[|UntilNul(s)|] == '\0'
  {
    if |s| > 0 && s[0] != '\0' {
      UntilNulShape(s[1..]);
    }
  }

  /** Reading a C string over a stretch of bytes that holds no NUL. */
  lemma {:induction false} CStringSkip(b: seq<Byte>, off: nat, k: nat)
    requires off + k <= |b|
    requires forall j :: off <= j < off + k ==> b[j] != 0
    ensures CString(b, off) == Chars(b[off..off + k]) + CString(b, off + k)
    decreases k
  {
    if k > 0 {
      CStringSkip(b, off + 1, k - 1);
      assert Chars(b[off..off + k]) == [b[off] as char] + Chars(b[off + 1..off + k]);
    }
  }

  lemma FieldChars(v: string)
    ensures |ShownName(v)| <= VENDOR_FIELD
    ensures ShownName(v) == Chars(VendorBytes(v))[..|ShownName(v)|]
    ensures forall k :: 0 <= k < |ShownName(v)| ==> VendorBytes(v)[k] != 0
    ensures |ShownName(v)| < VENDOR_FIELD ==> VendorBytes(v)[|ShownName(v)|] == 0
  {
    var b := Take(AsciiReplace(v), VENDOR_FIELD);
    UntilNulShape(Chars(b));
    assert forall k :: 0 <= k < |b| ==> Chars(b)[k] == b[k] as char && VendorBytes(v)[k] == b[k];
  }

  /** The vendor field of a flashed record, byte by byte. */
  lemma RegionField(rs: seq<Record>, rest: seq<Byte>, i: nat)
    requires i < |rs|
    ensures VendorOffset(i) + VENDOR_FIELD <= |Region(rs, rest)|
    ensures Region(rs, rest)[VendorOffset(i)..VendorOffset(i) + VENDOR_FIELD] == VendorBytes(rs[i].vendor)
  {
    RegionRecord(rs, rest, i);
    var b := Region(rs, rest);
    var rec := b[RECORD_SIZE * i..RECORD_SIZE * (i + 1)];
    assert rec[4..] == VendorBytes(rs[i].vendor);
    assert b[VendorOffset(i)..VendorOffset(i) + VENDOR_FIELD] == rec[4..];
  }

  /** The copy yields the shown name, then spills past a full field until the next NUL. */
  lemma {:induction false} CopyFromRecord(rs: seq<Record>, rest: seq<Byte>, i: nat)
    requires i < |rs|
    ensures var b, name := Region(rs, rest), ShownName(rs[i].vendor);
            CString(b, VendorOffset(i)) ==
              if |name| < VENDOR_FIELD then name else name + CString(b, RECORD_SIZE * (i + 1))
  {
    var b, name, off := Region(rs, rest), ShownName(rs[i].vendor), VendorOffset(i);
    var field := VendorBytes(rs[i].vendor);
    RegionField(rs, rest, i);
    FieldChars(rs[i].vendor);
    hide Region, VendorBytes, ShownName;
    assert forall k :: 0 <= k < VENDOR_FIELD ==> b[off + k] == field[k];
    CStringSkip(b, off, |name|);
    assert b[off..off + |name|] == field[..|name|];
    assert Chars(field[..|name|]) == Chars(field)[..|name|];
  }

  /** The reader finds exactly the OUIs that survived packing, at a record with the first-listed name. */
  lemma {:induction false} LookupFindsSurvivors(records: seq<Record>, maxSize: int, rest: seq<Byte>, mac: Mac)
    requires maxSize >= HEADER_SIZE && !Inventory.IsRandomized(mac)
    ensures |Packed(records, maxSize)| <= 0x100_0000
    ensures var r := RecordFor(Flashed(Packed(records, maxSize), rest), mac);
            && (r.Some? <==> Survives(records, maxSize, OuiOf(mac)))
            && (r.Some? ==> && |Having(records, OuiOf(mac))| > 0
                            && Packed(records, maxSize)[r.value] == Having(records, OuiOf(mac))[0])
  {
    hide Packed, Survives, Search;
    var packed := Packed(records, maxSize);
    PackedCorrect(records, maxSize);
    ReaderSeesRecords(packed, rest);
    SurvivesIffPacked(records, maxSize, OuiOf(mac));
    var b := Region(packed, rest);
    SearchComplete(b, OuiOf(mac), 0, |packed| - 1);
    var r := RecordFor(Flashed(packed, rest), mac);
    if r.Some? {
      assert packed[r.value] in packed && packed[r.value].oui == OuiOf(mac);
    } else {
      forall q | q in packed ensures q.oui != OuiOf(mac) {
        var i :| 0 <= i < |packed| && packed[i] == q;
        assert OuiAt(b, i) == q.oui;
      }
    }
  }

  lemma CutSpill(name: string, tail: string, n: nat)
    ensures Take(name + tail, n) == Take(name, n) <==> n <= |name| || tail == ""
  {
    if n <= |name| {
      assert (name + tail)[..n] == name[..n];
    } else if tail == "" {
      assert name + tail == name;
    } else {
      assert |Take(name + tail, n)| > |Take(name, n)|;
    }
  }

  /** A surviving OUI sits in the blob at its rank. */
  lemma PackedAtRank(records: seq<Record>, maxSize: int, oui: Oui24)
    requires maxSize >= HEADER_SIZE && Survives(records, maxSize, oui)
    ensures Rank(records, oui) < |Packed(records, maxSize)|
    ensures Packed(records, maxSize)[Rank(records, oui)].oui == oui
  {
    StableSortCorrect(records);
    DedupCorrect(StableSort(records));
    hide StableSort, Dedup, Rank, Having;
    var kept := Dedup(StableSort(records));
    var i := SlotOf(kept, oui);
    RankIsIndex(records, kept, i);
    assert Rank(records, oui) == i < Capacity(maxSize);
  }

  lemma SlotOf(rs: seq<Record>, oui: Oui24) returns (i: nat)
    requires oui in Ouis(rs)
    ensures i < |rs| && rs[i].oui == oui
  {
    var r :| r in rs && r.oui == oui;
    i :| 0 <= i < |rs| && rs[i] == r;
  }

  lemma UniqueSlot(rs: seq<Record>, i: nat, j: nat)
    requires StrictlySorted(rs) && i < |rs| && j < |rs| && rs[i].oui == rs[j].oui
    ensures i == j
  {
  }

  /** A lookup of a surviving OUI reads the record at its rank. */
  lemma LookupAtRank(records: seq<Record>, maxSize: int, rest: seq<Byte>, mac: Mac)
    requires maxSize >= HEADER_SIZE && !Inventory.IsRandomized(mac) && Survives(records, maxSize, OuiOf(mac))
    ensures Rank(records, OuiOf(mac)) < |Packed(records, maxSize)| <= 0x100_0000
    ensures RecordFor(Flashed(Packed(records, maxSize), rest), mac) == Some(Rank(records, OuiOf(mac)))
  {
    hide Packed, Survives, Search, Rank;
    LookupFindsSurvivors(records, maxSize, rest, mac);
    PackedAtRank(records, maxSize, OuiOf(mac));
    PackedCorrect(records, maxSize);
    var packed := Packed(records, maxSize);
    var r := RecordFor(Flashed(packed, rest), mac).value;
    ReaderSeesRecords(packed, rest);
    UniqueSlot(packed, r, Rank(records, OuiOf(mac)));
  }

  /** The byte after the field of a surviving OUI is a NUL, or there is none. */
  predicate NulFollows(records: seq<Record>, maxSize: int, rest: seq<Byte>, oui: Oui24) {
    var packed, k := Packed(records, maxSize), Rank(records, oui);
    if k + 1 < |packed| then packed[k + 1].oui.b0 == 0 else rest == [] || rest[0] == 0
  }

  lemma ByteAfter(rs: seq<Record>, rest: seq<Byte>, k: nat)
    requires k < |rs|
    ensures var b, end := Region(rs, rest), RECORD_SIZE * (k + 1);
            CString(b, end) == "" <==> if k + 1 < |rs| then rs[k + 1].oui.b0 == 0 else rest == [] || rest[0] == 0
  {
    var b, end := Region(rs, rest), RECORD_SIZE * (k + 1);
    if k + 1 < |rs| {
      RegionRecord(rs, rest, k + 1);
      assert b[end] == b[end..RECORD_SIZE * (k + 2)][0] == RecordBytes(rs[k + 1])[0];
    } else {
      assert b[end..] == rest;
      assert rest != [] ==> b[end] == b[end..][0];
    }
  }

  /** The field's text, cut to a buffer. */
  lemma FieldText(rs: seq<Record>, rest: seq<Byte>, k: nat, n: nat)
    requires k < |rs| && n > 0
    ensures var name := ShownName(rs[k].vendor);
            Take(CString(Region(rs, rest), VendorOffset(k)), n - 1) == Take(name, n - 1) <==>
            |name| < VENDOR_FIELD || n <= VENDOR_FIELD + 1 ||
            if k + 1 < |rs| then rs[k + 1].oui.b0 == 0 else rest == [] || rest[0] == 0
  {
    hide Region, ShownName;
    var name, tail := ShownName(rs[k].vendor), CString(Region(rs, rest), RECORD_SIZE * (k + 1));
    CopyFromRecord(rs, rest, k);
    FieldChars(rs[k].vendor);
    ByteAfter(rs, rest, k);
    CutSpill(name, tail, n - 1);
  }

  lemma AsciiCut(v: string, n: nat)
    requires Ascii(v) && n > 0
    ensures Take(ShownName(v), n - 1) == Take(v, Min(28, n - 1))
    ensures |ShownName(v)| < 28 <==> |v| < 28
  {
    ShownAscii(v);
    assert Take(Take(v, 28), n - 1) == Take(v, Min(28, n - 1));
  }

  /**
   * Round trip, text. The lookup of a surviving OUI writes its first-listed name, cut to the buffer,
   * exactly when the name leaves room for its NUL in the field, or the buffer ends no later than the
   * field, or the next higher OUI in the blob starts with a zero byte, or, after the last record,
   * whatever follows the blob does. Otherwise bytes of the next record are appended.
   */
  lemma {:induction false} RoundTripText(records: seq<Record>, maxSize: int, rest: seq<Byte>, mac: Mac, n: nat)
    requires maxSize >= HEADER_SIZE && n > 0 && !Inventory.IsRandomized(mac)
    requires Survives(records, maxSize, OuiOf(mac))
    ensures |Packed(records, maxSize)| <= 0x100_0000 && |Having(records, OuiOf(mac))| > 0
    ensures var db := Flashed(Packed(records, maxSize), rest);
            var name := ShownName(Having(records, OuiOf(mac))[0].vendor);
            LookupText(db, mac, n) == Take(name, n - 1) <==>
            |name| < VENDOR_FIELD || n <= VENDOR_FIELD + 1 || NulFollows(records, maxSize, rest, OuiOf(mac))
    ensures var db := Flashed(Packed(records, maxSize), rest);
            var vendor := Having(records, OuiOf(mac))[0].vendor;
            Ascii(vendor) ==>
              (LookupText(db, mac, n) == Take(vendor, Min(28, n - 1)) <==>
               |vendor| < 28 || n <= 29 || NulFollows(records, maxSize, rest, OuiOf(mac)))
  {
    LookupFindsSurvivors(records, maxSize, rest, mac);
    LookupAtRank(records, maxSize, rest, mac);
    var packed, r := Packed(records, maxSize), Rank(records, OuiOf(mac));
    var vendor := packed[r].vendor;
    FieldText(packed, rest, r, n);
    hide Packed, Region, ShownName, Rank, Having, RecordFor, CString, Take, Ascii, Survives;
    assert vendor == Having(records, OuiOf(mac))[0].vendor;
    if Ascii(vendor) {
      AsciiCut(vendor, n);
    }
  }

  /** Round trip, misses: an OUI that is not registered or did not fit reads as Unknown. */
  lemma RoundTripMiss(records: seq<Record>, maxSize: int, rest: seq<Byte>, mac: Mac, n: nat)
    requires maxSize >= HEADER_SIZE && n > 0 && !Inventory.IsRandomized(mac)
    requires !Survives(records, maxSize, OuiOf(mac))
    ensures |Packed(records, maxSize)| <= 0x100_0000
    ensures LookupText(Flashed(Packed(records, maxSize), rest), mac, n) == Take("Unknown", n - 1)
  {
    LookupFindsSurvivors(records, maxSize, rest, mac);
  }

  // ---- A registry whose names run together ----

  const LONG_NAME := seq(VENDOR_FIELD, _ => 'x')
  const LONG := Record(Oui24(0, 1, 2), LONG_NAME)
  const NEXT := Record(Oui24(65, 66, 67), "Acme")
  const LONG_MAC: Mac := [0, 1, 2, 3, 4, 5]

  lemma LongIsShown()
    ensures ShownName(LONG_NAME) == LONG_NAME
  {
    var b := AsciiReplace(LONG_NAME);
    assert Take(b, VENDOR_FIELD) == b;
    UntilNulShape(Chars(b));
    assert Chars(b) == LONG_NAME;
  }

  lemma PackedLong()
    ensures Packed([LONG, NEXT], 4096) == [LONG, NEXT]
  {
    var rs := [LONG, NEXT];
    assert rs[1..] == [NEXT] && rs[1..][1..] == [];
    assert StableSort([NEXT]) == Insert(NEXT, []) == [NEXT];
    assert StableSort(rs) == Insert(LONG, [NEXT]) == [LONG] + [NEXT] == rs;
    assert Front(rs) == [LONG] && Front([LONG]) == [];
    assert Dedup([LONG]) == [] + [LONG] == [LONG];
    assert NEXT.oui !in Ouis([LONG]);
    assert Dedup(rs) == [LONG] + [NEXT];
  }

  /** The bytes after the field of LONG: the OUI of NEXT, and then the zero before its name. */
  lemma NextBytes(rest: seq<Byte>)
    ensures CString(Region([LONG, NEXT], rest), RECORD_SIZE) == "ABC"
  {
    var rs, b := [LONG, NEXT], Region([LONG, NEXT], rest);
    RegionRecord(rs, rest, 1);
    var rec := b[RECORD_SIZE..2 * RECORD_SIZE];
    assert rec[0] == 65 && rec[1] == 66 && rec[2] == 67 && rec[3] == 0;
    assert forall k :: 0 <= k < 4 ==> b[RECORD_SIZE + k] == rec[k];
    CStringSkip(b, RECORD_SIZE, 3);
    assert b[RECORD_SIZE..RECORD_SIZE + 3] == [65, 66, 67];
    assert Chars([65, 66, 67]) == "ABC";
  }

  lemma FirstRecordFound(rest: seq<Byte>)
    ensures RecordFor(Flashed([LONG, NEXT], rest), LONG_MAC) == Some(0)
  {
    var rs, b := [LONG, NEXT], Region([LONG, NEXT], rest);
    hide Region, Search;
    ReaderSeesRecords(rs, rest);
    RegionRecord(rs, rest, 1);
    SearchComplete(b, LONG.oui, 0, 1);
    assert OuiAt(b, 0) == LONG.oui && OuiAt(b, 1) == NEXT.oui;
  }

  /** In the 48 characters of a device's vendor, a name of 28 characters is followed by the next record's OUI. */
  lemma LongNameSpills(rest: seq<Byte>)
    ensures Packed([LONG, NEXT], 4096) == [LONG, NEXT]
    ensures LookupText(Flashed([LONG, NEXT], rest), LONG_MAC, Inventory.VENDOR_LEN) == LONG_NAME + "ABC"
  {
    var rs, b := [LONG, NEXT], Region([LONG, NEXT], rest);
    hide Region, Search, CString, ShownName, OuiAt;
    PackedLong();
    LongIsShown();
    NextBytes(rest);
    FirstRecordFound(rest);
    CopyFromRecord(rs, rest, 0);
  }
}
