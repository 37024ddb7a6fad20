/** From the registry file to the log: which new devices are reported as having an unknown vendor. */
module VendorAlerts {
  import opened Prelude
  import opened Inventory
  import opened Anomaly
  import opened Spine
  import opened Presence
  import Memory
  import Oui
  import OuiBlob

  /** The name the registry gives an OUI, as the device can show it. */
  function RegisteredName(records: seq<OuiBlob.Record>, oui: Oui.Oui24): string {
    if |OuiBlob.Having(records, oui)| == 0 then "" else OuiBlob.ShownName(OuiBlob.Having(records, oui)[0].vendor)
  }

  predicate Nameless(name: string) {
    name == "" || name == "Unknown"
  }

  lemma LongIsNamed(name: string, text: string)
    requires |name| == Oui.VENDOR_FIELD && |text| >= Oui.VENDOR_FIELD
    ensures !Nameless(name) && !Nameless(text)
  {
  }

  /** The vendor stored for a surviving OUI is its registered name, or at least as long a text. */
  lemma StoredVendor(records: seq<OuiBlob.Record>, maxSize: int, rest: seq<Byte>, mac: Mac)
    requires maxSize >= Oui.HEADER_SIZE && !IsRandomized(mac) && OuiBlob.Survives(records, maxSize, Oui.OuiOf(mac))
    ensures |OuiBlob.Packed(records, maxSize)| <= 0x100_0000
    ensures var text := Oui.LookupText(OuiBlob.Flashed(OuiBlob.Packed(records, maxSize), rest), mac, VENDOR_LEN);
            Nameless(text) <==> Nameless(RegisteredName(records, Oui.OuiOf(mac)))
  {
    OuiBlob.LookupFindsSurvivors(records, maxSize, rest, mac);
    var packed := OuiBlob.Packed(records, maxSize);
    var db := OuiBlob.Flashed(packed, rest);
    var r := Oui.RecordFor(db, mac).value;
    var name := OuiBlob.ShownName(packed[r].vendor);
    OuiBlob.CopyFromRecord(packed, rest, r);
    OuiBlob.FieldChars(packed[r].vendor);
    if |name| == Oui.VENDOR_FIELD {
      LongIsNamed(name, Oui.LookupText(db, mac, VENDOR_LEN));
    }
  }

  /**
   * With a blob packed from `records` on the device, a device that is introduced is reported as of
   * unknown vendor exactly when its MAC is globally administered and its OUI did not make it into the
   * blob or is registered without a name.
   */
  lemma UnknownVendorIff(cfg: Cfg, records: seq<OuiBlob.Record>, maxSize: int, rest: seq<Byte>, mac: Mac, night: bool)
    requires maxSize >= Oui.HEADER_SIZE && |OuiBlob.Packed(records, maxSize)| <= 0x100_0000
    requires cfg.db == OuiBlob.Flashed(OuiBlob.Packed(records, maxSize), rest)
    ensures Key(UnknownVendor, Info, mac) in IntroKeys(cfg, mac, night) <==>
              && !IsRandomized(mac)
              && (OuiBlob.Survives(records, maxSize, Oui.OuiOf(mac)) ==>
                    Nameless(RegisteredName(records, Oui.OuiOf(mac))))
  {
    UnknownKey(cfg, mac, night);
    if !IsRandomized(mac) {
      if OuiBlob.Survives(records, maxSize, Oui.OuiOf(mac)) {
        StoredVendor(records, maxSize, rest, mac);
      } else {
        OuiBlob.RoundTripMiss(records, maxSize, rest, mac, VENDOR_LEN);
      }
    }
  }

  lemma UnknownKey(cfg: Cfg, mac: Mac, night: bool)
    ensures Key(UnknownVendor, Info, mac) in IntroKeys(cfg, mac, night) <==>
              !IsRandomized(mac) && Nameless(Oui.LookupText(cfg.db, mac, VENDOR_LEN))
  {
    hide Oui.LookupText;
    var keys := IntroKeys(cfg, mac, night);
    if !IsRandomized(mac) && Nameless(Oui.LookupText(cfg.db, mac, VENDOR_LEN)) {
      assert keys[|keys| - 1] == Key(UnknownVendor, Info, mac);
    }
  }

  /**
   * From the registry to the device table. After any run a stored device with a surviving OUI shows the
   * first 28 characters of its first-listed ASCII name, if and only if the name is shorter than that or a
   * zero byte, or nothing, follows its field.
   */
  lemma {:induction false} TableShowsRegistry(cfg: Cfg, records: seq<OuiBlob.Record>, maxSize: int, rest: seq<Byte>,
                           ps: seq<Pass>, i: nat)
    requires maxSize >= Oui.HEADER_SIZE && |OuiBlob.Packed(records, maxSize)| <= 0x100_0000
    requires cfg.db == OuiBlob.Flashed(OuiBlob.Packed(records, maxSize), rest)
    requires WellTimed(ps) && i < |Run(cfg, ps).table|
    requires var oui := Oui.OuiOf(Run(cfg, ps).table[i].mac);
             && Run(cfg, ps).table[i].mac[0] % 4 < 2 && OuiBlob.Survives(records, maxSize, oui)
             && OuiBlob.Ascii(RegisteredRaw(records, oui))
    ensures var d := Run(cfg, ps).table[i];
            var oui := Oui.OuiOf(d.mac);
            var name := RegisteredRaw(records, oui);
            d.vendor == Take(name, 28) <==> |name| < 28 || OuiBlob.NulFollows(records, maxSize, rest, oui)
  {
    var d := Run(cfg, ps).table[i];
    Memory.RunRemembers(cfg, ps);
    assert Memory.Knows(cfg, AllSightings(ps), d);
    hide Run, WellTimed, OuiBlob.Packed, OuiBlob.Survives, OuiBlob.Ascii, OuiBlob.NulFollows, Oui.LookupText;
    OuiBlob.RoundTripText(records, maxSize, rest, d.mac, 48);
  }

  /** The first-listed name of an OUI, as it stands in the registry. */
  function RegisteredRaw(records: seq<OuiBlob.Record>, oui: Oui.Oui24): string {
    if |OuiBlob.Having(records, oui)| == 0 then "" else OuiBlob.Having(records, oui)[0].vendor
  }
}
