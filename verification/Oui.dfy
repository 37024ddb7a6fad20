/** main/oui.c: vendor lookup by binary search over the bytes of the OUI partition. */
module Oui {
  import opened Prelude
  import Inventory

  const RECORD_SIZE := 32
  const HEADER_SIZE := 8
  const VENDOR_FIELD := 28
  const MAGIC: seq<Byte> := [79, 85, 73, 49]

  /** The first three bytes of a MAC. */
  datatype Oui24 = Oui24(b0: Byte, b1: Byte, b2: Byte)

  function OuiOf(mac: Mac): Oui24 {
    Oui24(mac[0], mac[1], mac[2])
  }

  /** The statics s_count and s_records; Absent when the partition is missing or its magic is wrong. */
  datatype RawDb = Absent | Mapped(count: nat, records: seq<Byte>)

  function LittleEndian32(b: seq<Byte>): nat
    requires |b| == 4
  {
    b[0] as int + 256 * b[1] as int + 65536 * b[2] as int + 16777216 * b[3] as int
  }

  /** The mapping holds every record the count announces, and the count is a valid int32. */
  predicate WellFormed(db: RawDb) {
    db.Mapped? ==> db.count < 0x8000_0000 && RECORD_SIZE * db.count <= |db.records|
  }

  type Db = d: RawDb | WellFormed(d) witness Absent

  /** What oui_init leaves behind for the bytes of the mapped partition. */
  function Open(flash: seq<Byte>): RawDb {
    if |flash| >= HEADER_SIZE && flash[..4] == MAGIC
    then Mapped(LittleEndian32(flash[4..8]), flash[HEADER_SIZE..]) else Absent
  }

  predicate HasRecord(records: seq<Byte>, i: int) {
    RECORD_SIZE * (i + 1) <= |records|
  }

  function OuiAt(records: seq<Byte>, i: nat): Oui24
    requires HasRecord(records, i)
  {
    Oui24(records[RECORD_SIZE * i], records[RECORD_SIZE * i + 1], records[RECORD_SIZE * i + 2])
  }

  /** Three-byte memcmp. */
  function Compare(a: Oui24, b: Oui24): int {
    if a.b0 != b.b0 then a.b0 as int - b.b0 as int
    else if a.b1 != b.b1 then a.b1 as int - b.b1 as int
    else a.b2 as int - b.b2 as int
  }

  /** The OUI read as a big-endian number. */
  function Number(o: Oui24): nat {
    o.b0 as int * 65536 + o.b1 as int * 256 + o.b2 as int
  }

  lemma CompareIsNumeric(a: Oui24, b: Oui24)
    ensures Compare(a, b) < 0 <==> Number(a) < Number(b)
    ensures Compare(a, b) == 0 <==> a == b
    ensures a == b <==> Number(a) == Number(b)
  {
  }

  /** The C string starting at an offset; the end of the mapping also ends it. */
  function CString(records: seq<Byte>, off: nat): (text: string)
    ensures '\0' !in text
    decreases |records| - off
  {
    if off >= |records| || records[off] == 0 then "" else [records[off] as char] + CString(records, off + 1)
  }

  /** The slot the binary search stops at, on any records, sorted or not. */
  function Search(records: seq<Byte>, key: Oui24, lo: int, hi: int): (r: Option<nat>)
    requires 0 <= lo && HasRecord(records, hi)
    ensures r.Some? ==> lo <= r.value <= hi && OuiAt(records, r.value) == key
    decreases hi - lo + 1
  {
    if lo > hi then None else
      var mid := lo + (hi - lo) / 2;
      var c := Compare(key, OuiAt(records, mid));
      if c == 0 then CompareIsNumeric(key, OuiAt(records, mid)); Some(mid)
      else if c < 0 then Search(records, key, lo, mid - 1)
      else Search(records, key, mid + 1, hi)
  }

  predicate Ascending(records: seq<Byte>, count: nat)
    requires HasRecord(records, count - 1)
  {
    forall i, j :: 0 <= i < j < count ==> Number(OuiAt(records, i)) < Number(OuiAt(records, j))
  }

  /** On ascending records the search fails only when the key is nowhere in the range. */
  lemma {:induction false} SearchComplete(records: seq<Byte>, key: Oui24, lo: int, hi: int)
    requires 0 <= lo && hi >= -1 && HasRecord(records, hi) && Ascending(records, hi + 1)
    ensures Search(records, key, lo, hi).None? ==> forall i :: lo <= i <= hi ==> OuiAt(records, i) != key
    decreases hi - lo + 1
  {
    if lo <= hi {
      hide Compare, OuiAt, Number;
      var mid := lo + (hi - lo) / 2;
      CompareIsNumeric(key, OuiAt(records, mid));
      if Number(key) < Number(OuiAt(records, mid)) {
        SearchComplete(records, key, lo, mid - 1);
      } else if Number(key) > Number(OuiAt(records, mid)) {
        SearchComplete(records, key, mid + 1, hi);
      }
    }
  }

  /** The record a lookup of `mac` copies its vendor from, if any. */
  function RecordFor(db: Db, mac: Mac): (r: Option<nat>)
    ensures r.Some? ==> db.Mapped? && r.value < db.count
  {
    if Inventory.IsRandomized(mac) || db.Absent? then None
    else Search(db.records, OuiOf(mac), 0, db.count - 1)
  }

  function VendorOffset(i: nat): nat {
    RECORD_SIZE * i + 4
  }

  /** The text a lookup leaves in a buffer of `n` characters. */
  function LookupText(db: Db, mac: Mac, n: nat): (text: string)
    requires n > 0
    ensures |text| < n && '\0' !in text
  {
    var r := RecordFor(db, mac);
    Take(if Inventory.IsRandomized(mac) then "Randomized (private)"
         else if r.None? then "Unknown"
         else CString(db.records, VendorOffset(r.value)), n - 1)
  }

  /** `out` holds `text` and then a NUL. */
  predicate Holds(out: seq<char>, text: string) {
    |text| < |out| && out[..|text|] == text && out[|text|] == '\0'
  }

  method StrLCopy(out: array<char>, src: string)
    requires out.Length > 0
    modifies out
    ensures Holds(out[..], Take(src, out.Length - 1))
  {
    var n := if |src| < out.Length then |src| else out.Length - 1;
    var i := 0;
    while i < n
      invariant 0 <= i <= n
      invariant out[..i] == src[..i]
    {
      out[i] := src[i];
      i := i + 1;
    }
    out[n] := '\0';
    assert out[..n] == src[..n];
  }

  /** The search loop of a lookup. */
  method BinarySearch(records: seq<Byte>, key: Oui24, count: nat) returns (r: Option<nat>)
    requires HasRecord(records, count - 1)
    ensures r == Search(records, key, 0, count - 1)
  {
    hide OuiAt, Compare;
    var lo: int, hi: int := 0, count - 1;
    while lo <= hi
      invariant 0 <= lo && hi < count
      invariant Search(records, key, lo, hi) == Search(records, key, 0, count - 1)
      decreases hi - lo + 1
    {
      var mid := lo + (hi - lo) / 2;
      var c := Compare(key, OuiAt(records, mid));
      if c == 0 {
        return Some(mid);
      } else if c < 0 {
        hi := mid - 1;
      } else {
        lo := mid + 1;
      }
    }
    return None;
  }

  method FindRecord(db: Db, mac: Mac) returns (r: Option<nat>)
    requires db.Mapped? && !Inventory.IsRandomized(mac)
    ensures r == RecordFor(db, mac)
  {
    r := BinarySearch(db.records, OuiOf(mac), db.count);
  }

  method Lookup(db: Db, mac: Mac, out: array<char>) returns (found: bool)
    modifies out
    ensures out.Length == 0 ==> !found
    ensures out.Length > 0 ==> Holds(out[..], LookupText(db, mac, out.Length))
    ensures out.Length > 0 ==> found == RecordFor(db, mac).Some?
    ensures mac[0] % 4 >= 2 && out.Length > 0 ==> Holds(out[..], Take("Randomized (private)", out.Length - 1)) && !found
    ensures mac[0] % 4 < 2 && out.Length > 0 && !found ==> Holds(out[..], Take("Unknown", out.Length - 1))
  {
    if out.Length == 0 {
      return false;
    }
    if Inventory.IsRandomized(mac) {
      StrLCopy(out, "Randomized (private)");
      return false;
    }
    if db.Absent? || db.count == 0 {
      StrLCopy(out, "Unknown");
      return false;
    }
    var r := FindRecord(db, mac);
    if r.Some? {
      var vendor := CString(db.records, VendorOffset(r.value));
      StrLCopy(out, vendor);
      TerminateLast(out, Take(vendor, out.Length - 1));
      return true;
    }
    StrLCopy(out, "Unknown");
    return false;
  }

  /** The extra guard after the copy: the last character is a NUL in any case. */
  method TerminateLast(out: array<char>, ghost text: string)
    requires out.Length > 0 && Holds(out[..], text)
    modifies out
    ensures Holds(out[..], text)
  {
    out[out.Length - 1] := '\0';
    assert out[..|text|] == text;
    assert out[..][..|text|] == out[..|text|];
  }

  /** The text a buffer holds, read up to its NUL. */
  method ReadBack(buffer: array<char>, ghost held: string) returns (text: string)
    requires Holds(buffer[..], held) && '\0' !in held
    ensures text == held
  {
    assert forall k :: 0 <= k < |held| ==> buffer[k] == buffer[..][..|held|][k];
    text := "";
    var i := 0;
    while buffer[i] != '\0'
      invariant 0 <= i <= |held|
      invariant text == held[..i]
      decreases |held| - i
    {
      text := text + [buffer[i]];
      i := i + 1;
    }
    assert i == |held|;
  }
}
