/**
 * What ScsiDump::DisplayInquiry takes from standard INQUIRY data (SPC-3
 * clause 6.4.2): the peripheral device type in byte 0, the removable bit
 * in byte 1, and the vendor, product and revision text in bytes 8 to 35,
 * each cut at its first NUL; and the DEVICE_TYPES names it prints.
 */
module InquiryData {
  import opened Bus

  /** inquiry_info: the text fields, then the sector size and capacity GetDeviceInfo fills in. */
  datatype InquiryInfo = InquiryInfo(vendor: string, product: string, revision: string, sectorSize: bv32, capacity: bv64)

  /** `inq_info = {}` */
  const NoInfo := InquiryInfo("", "", "", 0, 0)

  /** The names DisplayInquiry prints for the peripheral device types. */
  const DeviceTypes: map<nat, string> := map[
    0 := "Direct Access",
    1 := "Sequential Access",
    2 := "Printer",
    3 := "Processor",
    4 := "Write-Once",
    5 := "CD-ROM/DVD/BD/DVD-RAM",
    6 := "Scanner",
    7 := "Optical Memory",
    8 := "Media Changer",
    9 := "Communications",
    10 := "Graphic Arts Pre-Press",
    11 := "Graphic Arts Pre-Press",
    12 := "Storage Array Controller",
    13 := "Enclosure Services",
    14 := "Simplified Direct Access",
    15 := "Optical Card Reader/Writer",
    16 := "Bridge Controller",
    17 := "Object-based Storage",
    18 := "Automation/Drive Interface",
    19 := "Security Manager",
    20 := "Host Managed Zoned Block",
    30 := "Well Known Logical Unit"]

  /** The "Device Type:" line: the table's name, or "Unknown" for a code it lacks. */
  function DeviceTypeText(code: byte): (r: string)
  {
    if code as nat in DeviceTypes then DeviceTypes[code as nat] else "Unknown"
  }

  /** The table has exactly the codes 0 to 20 and 30. */
  lemma DeviceTypesCodes(code: nat)
    ensures code in DeviceTypes <==> code <= 20 || code == 30
  {
  }

  /** A code outside the table prints as "Unknown". */
  lemma DeviceTypeTextUnknown(code: byte)
    ensures DeviceTypeText(code) == "Unknown" <==> code as nat !in DeviceTypes
  {
  }

  /** `string(str.data())` over a zero-filled copy: the bytes before the first NUL, as characters. */
  function CString(b: seq<byte>): (s: string)
    ensures |s| <= |b|
    ensures forall i :: 0 <= i < |s| ==> b[i] != 0 && s[i] as int == b[i] as int
    ensures |s| < |b| ==> b[|s|] == 0
    decreases |b|
  {
    if b == [] || b[0] == 0 then "" else [b[0] as int as char] + CString(b[1..])
  }

  /** A field without a NUL comes out whole. */
  lemma CStringWhole(b: seq<byte>)
    requires forall i :: 0 <= i < |b| ==> b[i] != 0
    ensures |CString(b)| == |b|
  {
  }

  /** The peripheral qualifier and type say that no logical unit is there. */
  predicate LunAbsent(reply: seq<byte>)
    requires 1 <= |reply|
  {
    reply[0] & 0x1F == 0x1F
  }

  /** The device types dump and restore accept, compared with the whole of byte 0. */
  predicate Dumpable(type0: byte)
  {
    type0 == 0x00 || type0 == 0x05 || type0 == 0x07
  }

  /** The lines DisplayInquiry prints besides the text fields. */
  datatype Shown = Shown(deviceType: string, removable: bool)

  /** The text fields of the INQUIRY reply. */
  function InfoOf(reply: seq<byte>): (info: InquiryInfo)
    requires 36 <= |reply|
    ensures |info.vendor| <= 8 && |info.product| <= 16 && |info.revision| <= 4
    ensures info.sectorSize == 0 && info.capacity == 0
  {
    InquiryInfo(CString(reply[8..16]), CString(reply[16..32]), CString(reply[32..36]), 0, 0)
  }

  function ShownOf(reply: seq<byte>): (r: Shown)
    requires 36 <= |reply|
  {
    Shown(DeviceTypeText(reply[0] & 0x1F), reply[1] & 0x80 == 0x80)
  }

  /** The type filter of DisplayInquiry: with checkType, a device that is not dumpable is refused. */
  lemma DumpableTypes(type0: byte)
    ensures Dumpable(type0) ==> type0 & 0x1F == type0 && type0 as nat in DeviceTypes
    ensures Dumpable(type0) ==> type0 & 0x1F != 0x1F
  {
    if type0 == 0x00 {
      assert type0 & 0x1F == 0x00;
    } else if type0 == 0x05 {
      assert type0 & 0x1F == 0x05;
    } else if type0 == 0x07 {
      assert type0 & 0x1F == 0x07;
    }
  }
}
