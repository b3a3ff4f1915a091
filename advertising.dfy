/**
 * The advertising and scan-response payloads built by `advertise_connectable`
 * (thingy-control/src/ble.rs, lines 62-86).
 *
 * The format is that of the Bluetooth Core Specification, Vol 3, Part C,
 * Section 11: a sequence of AD structures, each a length octet followed by
 * that many octets, the first of which is the AD type. The AD types used are
 * those of the Core Specification Supplement, Part A: Flags (section 1.3),
 * Complete List of 16-bit Service UUIDs (section 1.1) and Complete Local Name
 * (section 1.2).
 */
module Advertising {
  import opened Wrappers

  /** A Rust `u8`. */
  newtype U8 = x: int | 0 <= x < 256

  /** AD type of the Flags structure. */
  const AD_FLAGS: U8 := 0x01
  /** AD type of the Complete List of 16-bit Service UUIDs. */
  const AD_COMPLETE_16BIT_UUIDS: U8 := 0x03
  /** AD type of the Complete Local Name. */
  const AD_COMPLETE_LOCAL_NAME: U8 := 0x09

  /**
   * `BLE_GAP_ADV_FLAGS_LE_ONLY_GENERAL_DISC_MODE` of the nRF SoftDevice headers:
   * LE General Discoverable Mode (0x02) with BR/EDR Not Supported (0x04).
   */
  const LE_ONLY_GENERAL_DISC_MODE: U8 := 0x06

  /** The advertised service, 16-bit UUID 0x1809, least significant octet first. */
  const SERVICE_UUID: seq<U8> := [0x09, 0x18]

  /** `n as u8`: the low eight bits of a length. */
  function TruncateToU8(n: nat): (b: U8)
    ensures b as int == n % 256
    ensures n < 256 ==> b as int == n
  {
    (n % 256) as U8
  }

  /** The fixed first nine bytes for a name of `nameLength` bytes. */
  function AdvPrefix(nameLength: nat): seq<U8>
  {
    [0x02, AD_FLAGS, LE_ONLY_GENERAL_DISC_MODE,
     0x03, AD_COMPLETE_16BIT_UUIDS, SERVICE_UUID[0], SERVICE_UUID[1],
     TruncateToU8(nameLength + 1), AD_COMPLETE_LOCAL_NAME]
  }

  /** The content of `adv_data` once both `copy_from_slice` writes are done. */
  function AdvData(name: seq<U8>): seq<U8>
  {
    AdvPrefix(|name|) + name
  }

  /** `scan_data`: the service UUID list alone. */
  const SCAN_DATA: seq<U8> := [0x03, AD_COMPLETE_16BIT_UUIDS, SERVICE_UUID[0], SERVICE_UUID[1]]

  /**
   * `advertise_connectable` up to the call into the radio stack: a zeroed
   * buffer of N + 9 bytes, the prefix copied into its first nine bytes and the
   * name into the rest; and the constant scan-response data.
   */
  method AdvertiseConnectable(name: seq<U8>) returns (advData: array<U8>, scanData: seq<U8>)
    ensures fresh(advData)
    ensures advData[..] == AdvData(name)
    ensures scanData == SCAN_DATA
  {
    advData := new U8[|name| + 9](_ => 0);
    var prefix := AdvPrefix(|name|);
    forall i | 0 <= i < 9 {
      advData[i] := prefix[i];
    }
    forall i | 9 <= i < advData.Length {
      advData[i] := name[i - 9];
    }
    scanData := SCAN_DATA;
  }

  /** The buffer is nine bytes longer than the name. */
  lemma AdvDataLength(name: seq<U8>)
    ensures |AdvData(name)| == |name| + 9
  {
  }

  /**
   * Byte by byte: the fixed header, the name length plus one truncated to a
   * byte at index 7, and the name at indices 9 onwards.
   */
  lemma AdvDataLayout(name: seq<U8>)
    ensures AdvData(name)[..9] == [0x02, 0x01, 0x06, 0x03, 0x03, 0x09, 0x18, TruncateToU8(|name| + 1), 0x09]
    ensures AdvData(name)[7] as int == (|name| + 1) % 256
    ensures forall i :: 0 <= i < |name| ==> AdvData(name)[9 + i] == name[i]
  {
  }

  /** Only the name's length, not its bytes, reaches the first nine bytes; and the name can be read back. */
  lemma {:induction false} NameOnlyInSuffix(a: seq<U8>, b: seq<U8>)
    ensures |a| == |b| ==> AdvData(a)[..9] == AdvData(b)[..9]
    ensures AdvData(a)[9..] == a
    ensures AdvData(a) == AdvData(b) ==> a == b
  {
    assert AdvData(a)[9..] == a;
    assert AdvData(b)[9..] == b;
  }

  /** One AD structure: its type and its data (the length octet is implied). */
  datatype AdStructure = AdStructure(adType: U8, data: seq<U8>)

  /** The octets of a sequence of AD structures: each is its length, its type and its data. */
  function Serialize(ss: seq<AdStructure>): seq<U8>
  {
    if ss == [] then []
    else [TruncateToU8(|ss[0].data| + 1), ss[0].adType] + ss[0].data + Serialize(ss[1..])
  }

  /**
   * Reads AD structures up to the end of the payload, or up to a zero length
   * octet, which ends the significant part. A length running past the end is
   * malformed.
   */
  function Parse(octets: seq<U8>): (r: Option<seq<AdStructure>>)
    ensures r.Some? ==> forall s :: s in r.value ==> |s.data| < 255
    decreases |octets|
  {
    if octets == [] || octets[0] == 0 then Some([])
    else
      var len := octets[0] as int;
      if |octets| < 1 + len then None
      else
        match Parse(octets[1 + len..])
        case None => None
        case Some(rest) => Some([AdStructure(octets[1], octets[2..1 + len])] + rest)
  }

  /** Whether every structure's length fits its length octet. */
  predicate Fits(ss: seq<AdStructure>)
  {
    forall s :: s in ss ==> |s.data| < 255
  }

  /** One structure in front of `rest` is read back, followed by whatever `rest` reads as. */
  lemma ParseOne(s: AdStructure, rest: seq<U8>)
    requires |s.data| < 255
    ensures Parse([TruncateToU8(|s.data| + 1), s.adType] + s.data + rest)
         == if Parse(rest).Some? then Some([s] + Parse(rest).value) else None
  {
    var octets := [TruncateToU8(|s.data| + 1), s.adType] + s.data + rest;
    var len := |s.data| + 1;
    assert octets[0] as int == len;
    assert octets[1] == s.adType;
    assert octets[1 + len..] == rest;
    assert octets[2..1 + len] == s.data;
  }

  /** Parsing undoes serializing, whenever every length fits its octet. */
  lemma {:induction false} ParseSerialize(ss: seq<AdStructure>)
    requires Fits(ss)
    ensures Parse(Serialize(ss)) == Some(ss)
    decreases |ss|
  {
    if ss != [] {
      assert ss[0] in ss;
      ParseOne(ss[0], Serialize(ss[1..]));
      assert forall s :: s in ss[1..] ==> s in ss;
      ParseSerialize(ss[1..]);
      assert [ss[0]] + ss[1..] == ss;
    }
  }

  /** The three structures the firmware advertises. */
  function Advertised(name: seq<U8>): seq<AdStructure>
  {
    [AdStructure(AD_FLAGS, [LE_ONLY_GENERAL_DISC_MODE]),
     AdStructure(AD_COMPLETE_16BIT_UUIDS, SERVICE_UUID),
     AdStructure(AD_COMPLETE_LOCAL_NAME, name)]
  }

  /**
   * For a name of fewer than 255 bytes the buffer is a well-formed AD sequence:
   * Flags, the UUID list and the local name, with lengths 2, 3 and N + 1 whose
   * structures, each one octet longer, fill the N + 9 bytes exactly.
   */
  lemma {:induction false} AdvDataWellFormed(name: seq<U8>)
    requires |name| + 1 < 256
    ensures Serialize(Advertised(name)) == AdvData(name)
    ensures Parse(AdvData(name)) == Some(Advertised(name))
    ensures (2 + 1) + (3 + 1) + (|name| + 1 + 1) == |AdvData(name)|
  {
    var ss := Advertised(name);
    assert Serialize(ss[2..]) == [TruncateToU8(|name| + 1), AD_COMPLETE_LOCAL_NAME] + name;
    assert Serialize(ss[1..]) == [0x03, AD_COMPLETE_16BIT_UUIDS] + SERVICE_UUID + Serialize(ss[2..]);
    assert Serialize(ss) == [0x02, AD_FLAGS, LE_ONLY_GENERAL_DISC_MODE] + Serialize(ss[1..]);
    ParseSerialize(ss);
  }

  /** From 255 bytes on, the length octet wraps and the payload no longer reads as the name. */
  lemma {:induction false} LongNameMalformed(name: seq<U8>)
    requires |name| + 1 >= 256
    ensures Parse(AdvData(name)) != Some(Advertised(name))
  {
  }

  /** The scan response reads as the UUID list alone, and does not depend on the name. */
  lemma ScanDataWellFormed()
    ensures Parse(SCAN_DATA) == Some([AdStructure(AD_COMPLETE_16BIT_UUIDS, SERVICE_UUID)])
  {
    ParseSerialize([AdStructure(AD_COMPLETE_16BIT_UUIDS, SERVICE_UUID)]);
    assert Serialize([AdStructure(AD_COMPLETE_16BIT_UUIDS, SERVICE_UUID)]) == SCAN_DATA;
  }
}
