/**
 * The CDBs the initiator tools build and the replies they decode: TEST UNIT
 * READY, INQUIRY, READ CAPACITY(10)/(16), READ(10)/WRITE(10) and
 * SYNCHRONIZE CACHE(10) of SBC-3 clause 5, REPORT LUNS of SPC-3 clause 6.
 * Multi-byte fields are big-endian; values are the uint32_t/uint64_t
 * bit-vectors the code computes with, so sums wrap as they do there.
 */
module ScsiCommands {
  import opened Bus

  // Operation codes of SPC-3 and SBC-3 (shared/scsi.h is not part of this model).
  const TestUnitReadyOp: byte := 0x00
  const InquiryOp: byte := 0x12
  const StartStopOp: byte := 0x1B
  const ReadCapacity10Op: byte := 0x25
  const Read10Op: byte := 0x28
  const Write10Op: byte := 0x2A
  const SynchronizeCache10Op: byte := 0x35
  const ReadCapacity16Op: byte := 0x9E
  const ReportLunsOp: byte := 0xA0

  /** `vector<uint8_t>(n)`: n zero bytes. */
  function Zeros(n: nat): (r: seq<byte>)
  {
    seq(n, _ => 0)
  }

  /** `static_cast<uint8_t>(x)`: the low byte. */
  function Low(x: bv32): (r: byte)
  {
    (x & 0xFF) as byte
  }

  /** `static_cast<uint8_t>` of an int: the value modulo 256, as two's complement truncation gives it. */
  function LowInt(x: int): (r: byte)
  {
    (x % 256) as byte
  }

  function Be16(b: seq<byte>, off: nat): (r: bv16)
    requires off + 2 <= |b|
  {
    (b[off] as bv16 << 8) | b[off + 1] as bv16
  }

  function Be32(b: seq<byte>, off: nat): (r: bv32)
    requires off + 4 <= |b|
  {
    (b[off] as bv32 << 24) | (b[off + 1] as bv32 << 16) | (b[off + 2] as bv32 << 8) | b[off + 3] as bv32
  }

  function Be64(b: seq<byte>, off: nat): (r: bv64)
    requires off + 8 <= |b|
  {
    (Be32(b, off) as bv64 << 32) | Be32(b, off + 4) as bv64
  }

  /** The data-in phase over a buffer: as many reply bytes as the length and the buffer allow, from byte 0 on. */
  function Receive(buffer: seq<byte>, data: seq<byte>, length: int): (r: seq<byte>)
    ensures |r| == |buffer|
    ensures forall i :: 0 <= i < |r| ==>
      r[i] == if i < |data| && i < length then data[i] else buffer[i]
  {
    var k := if length < 0 then 0 else if length < |data| then length else |data|;
    var k' := if k < |buffer| then k else |buffer|;
    data[..k'] + buffer[k'..]
  }

  /** Writes new contents into a caller's buffer. */
  method Store(buffer: array<byte>, contents: seq<byte>)
    requires |contents| == buffer.Length
    modifies buffer
    ensures buffer[..] == contents
  {
    forall i | 0 <= i < buffer.Length {
      buffer[i] := contents[i];
    }
  }

  function TestUnitReadyCdb(): (r: seq<byte>)
  {
    Zeros(6)
  }

  /** INQUIRY asks for 255 bytes in CDB byte 4 while the data phase is given room for 256. */
  function InquiryCdb(): (r: seq<byte>)
  {
    Zeros(6)[4 := 0xFF]
  }

  const InquiryLength := 256

  function ReadCapacity10Cdb(): (r: seq<byte>)
  {
    Zeros(10)
  }

  const ReadCapacity10Length := 8
  const ReadCapacity16Length := 14

  /**
   * The READ CAPACITY(16) CDB is the (already sent, so patched) 10-byte CDB
   * grown to 16 bytes with SERVICE ACTION 0x10 in byte 1.
   */
  function ReadCapacity16Cdb(sent: seq<byte>): (r: seq<byte>)
    requires |sent| == 10
  {
    (sent + Zeros(6))[1 := 0x10]
  }

  /** READ(10)/WRITE(10): the LBA in bytes 2 to 5, the low 16 bits of the block count in bytes 7 and 8. */
  function ReadWriteCdb(lba: bv32, blocks: bv32): (r: seq<byte>)
  {
    Zeros(10)[2 := Low(lba >> 24)][3 := Low(lba >> 16)][4 := Low(lba >> 8)][5 := Low(lba)]
      [7 := Low(blocks >> 8)][8 := Low(blocks)]
  }

  function SynchronizeCacheCdb(): (r: seq<byte>)
  {
    Zeros(10)
  }

  /** The allocation length both REPORT LUNS callers use, and the room they give the data phase. */
  const ReportLunsLength: bv32 := 512

  /** REPORT LUNS: the allocation length in bytes 8 and 9. */
  function ReportLunsCdb(length: bv32): (r: seq<byte>)
  {
    Zeros(12)[8 := Low(length >> 8)][9 := Low(length)]
  }

  /** The READ(10)/WRITE(10) CDB carries the LBA and the block count modulo 2^16, and nothing else. */
  lemma ReadWriteCdbFields(lba: bv32, blocks: bv32)
    ensures var c := ReadWriteCdb(lba, blocks);
      && |c| == 10 && Be32(c, 2) == lba && Be16(c, 7) == (blocks & 0xFFFF) as bv16
      && c[0] == 0 && c[1] == 0 && c[6] == 0 && c[9] == 0
  {
  }

  /** The REPORT LUNS CDB of both callers asks for 512 bytes, big-endian in bytes 8 and 9. */
  lemma ReportLunsCdbFields()
    ensures var c := ReportLunsCdb(ReportLunsLength);
      && |c| == 12 && Be16(c, 8) == 512
      && forall i :: 0 <= i < 12 && i != 8 ==> c[i] == 0
  {
  }

  /** The READ CAPACITY(16) CDB keeps bytes 2 to 9 of the CDB sent before, sets byte 1 to 0x10 and adds six zero bytes. */
  lemma ReadCapacity16CdbFields(sent: seq<byte>)
    requires |sent| == 10
    ensures var c := ReadCapacity16Cdb(sent);
      && |c| == 16 && c[0] == sent[0] && c[1] == 0x10 && c[2..10] == sent[2..]
      && forall i :: 10 <= i < 16 ==> c[i] == 0
  {
    var c := ReadCapacity16Cdb(sent);
    assert c[2..10] == sent[2..];
  }

  /** The capacity pair: number of blocks (last LBA + 1) and block length; {0, 0} on failure. */
  datatype Capacity = Capacity(blocks: bv64, sectorSize: bv32)

  /** `static_cast<int32_t>(capacity) == -1`: the 10-byte reply cannot express the last LBA. */
  predicate NeedsLong(reply: seq<byte>)
    requires 8 <= |reply|
  {
    Be32(reply, 0) == 0xFFFF_FFFF
  }

  /**
   * ReadCapacity, given the reply of each exchange (None when Execute
   * failed); the second exchange is made only when the first says it must.
   */
  function ReadCapacityResult(first: Option<seq<byte>>, second: Option<seq<byte>>): (r: Capacity)
    requires first.Some? ==> 8 <= |first.value|
    requires second.Some? ==> 12 <= |second.value|
  {
    match first
    case None => Capacity(0, 0)
    case Some(r) =>
      if !NeedsLong(r) then Capacity(Be32(r, 0) as bv64 + 1, Be32(r, 4))
      else
        match second
        case None => Capacity(0, 0)
        case Some(r16) => Capacity(Be64(r16, 0) + 1, Be32(r16, 8))
  }

  datatype Option<T> = None | Some(value: T)

  /**
   * A failed exchange gives {0, 0}; a 10-byte reply below 0xFFFFFFFF gives
   * that LBA + 1 (so between 1 and 2^32 - 1 blocks) and the block length
   * at bytes 4 to 7; otherwise the 16-byte reply decides, with the block
   * length at bytes 8 to 11.
   */
  lemma ReadCapacityResultFacts(first: Option<seq<byte>>, second: Option<seq<byte>>)
    requires first.Some? ==> 8 <= |first.value|
    requires second.Some? ==> 12 <= |second.value|
    ensures var c := ReadCapacityResult(first, second);
      && (first.None? ==> c == Capacity(0, 0))
      && (first.Some? && !NeedsLong(first.value) ==>
            && c.blocks == Be32(first.value, 0) as bv64 + 1
            && 1 <= c.blocks <= 0xFFFF_FFFF
            && c.sectorSize == Be32(first.value, 4))
      && (first.Some? && NeedsLong(first.value) ==>
            c == if second.None? then Capacity(0, 0)
                 else Capacity(Be64(second.value, 0) + 1, Be32(second.value, 8)))
  {
  }

  /** Be32 reads back what a big-endian encoding wrote. */
  lemma Be32RoundTrip(x: bv32)
    ensures Be32([Low(x >> 24), Low(x >> 16), Low(x >> 8), Low(x)], 0) == x
  {
  }

  // REPORT LUNS reply, decoded as the code does it.

  /** `(buffer[2] << 8) | buffer[3] / 8`: the division binds tighter than the or. */
  function LunCount(reply: seq<byte>): (r: nat)
    requires 4 <= |reply|
  {
    ((reply[2] as bv16 << 8) | (reply[3] / 8) as bv16) as nat
  }

  /** The first LUN entry starts at byte 8; entries are read while their offset is below 512 - 8. */
  const FirstLunOffset := 8
  const LunScanLimit := 504

  /** The 8-byte LUN entry at `off`, with byte off+1 used for both bits 48-55 and bits 40-47 and byte off+2 unused. */
  function LunAt(reply: seq<byte>, off: nat): (r: bv64)
    requires off + 8 <= |reply|
  {
    (reply[off] as bv64 << 56) | (reply[off + 1] as bv64 << 48) | (reply[off + 1] as bv64 << 40)
      | (reply[off + 3] as bv64 << 32) | (reply[off + 4] as bv64 << 24) | (reply[off + 5] as bv64 << 16)
      | (reply[off + 6] as bv64 << 8) | reply[off + 7] as bv64
  }

  /** The entry as the unsigned number the code inserts into the set. */
  function LunValue(reply: seq<byte>, off: nat): (r: nat)
    requires off + 8 <= |reply|
  {
    LunAt(reply, off) as nat
  }

  /** Entry i lies at offset 8 + 8 i. */
  function EntryOffset(i: nat): (r: nat)
  {
    FirstLunOffset + 8 * i
  }

  /** The entries the loop looks at: those below the count and below the scan limit. */
  predicate Scanned(count: nat, i: nat)
  {
    i < count && EntryOffset(i) < LunScanLimit
  }

  /** The number of entries the loop looks at: the count, but no entry at or past byte 504. */
  function ScannedCount(count: nat): (n: nat)
    ensures forall k: nat :: Scanned(count, k) <==> k < n
  {
    if count < 62 then count else 62
  }

  /** The values of the entries the loop looks at, in reply order. */
  function Entries(reply: seq<byte>, count: nat): (e: seq<nat>)
    requires LunScanLimit + 8 <= |reply|
    ensures |e| == ScannedCount(count)
    ensures forall k :: 0 <= k < |e| ==> e[k] == LunValue(reply, EntryOffset(k))
  {
    seq(ScannedCount(count), k requires 0 <= k < ScannedCount(count) => LunValue(reply, EntryOffset(k)))
  }

  /** The values below lunMax. */
  function Below(values: seq<nat>, lunMax: nat): (r: set<nat>)
  {
    set v | v in values && v < lunMax
  }

  /** The set ReportLuns returns for a reply. */
  function ReportedLuns(reply: seq<byte>, lunMax: nat): (r: set<nat>)
    requires LunScanLimit + 8 <= |reply|
  {
    Below(Entries(reply, LunCount(reply)), lunMax)
  }

  /** The loop looks at entry k exactly when k is below the count and below 62 (entry 62 would start at byte 504). */
  lemma ScannedEntries(count: nat, k: nat)
    ensures Scanned(count, k) <==> k < count && k < 62
  {
  }

  /**
   * ReportLuns returns exactly the entries below lunMax among those the
   * loop looks at, the first min(count, 62) with count the decoded LunCount.
   */
  lemma ReportedLunsMembers(reply: seq<byte>, lunMax: nat, x: nat)
    requires LunScanLimit + 8 <= |reply|
    ensures x in ReportedLuns(reply, lunMax) <==>
      x < lunMax && exists k: nat :: Scanned(LunCount(reply), k) && LunValue(reply, EntryOffset(k)) == x
  {
    var e := Entries(reply, LunCount(reply));
    if x in ReportedLuns(reply, lunMax) {
      var k :| 0 <= k < |e| && e[k] == x;
      assert Scanned(LunCount(reply), k);
    }
    if x < lunMax && exists k: nat :: Scanned(LunCount(reply), k) && LunValue(reply, EntryOffset(k)) == x {
      var k: nat :| Scanned(LunCount(reply), k) && LunValue(reply, EntryOffset(k)) == x;
      assert e[k] == x;
    }
  }

  /** The count as the code computes it: bytes 2 and 3 are not divided together. */
  lemma LunCountAsWritten(reply: seq<byte>)
    requires 4 <= |reply|
    ensures LunCount(reply) == reply[2] as nat * 256 + reply[3] as nat / 8
  {
  }

  /** The LUNs assumed when REPORT LUNS fails. */
  const DefaultLuns: set<nat> := {0, 1, 2, 3, 4, 5, 6, 7}

  /** ReportLuns's loop: walks the entries, inserting each LUN below lunMax. */
  method CollectLuns(reply: seq<byte>, lunMax: nat) returns (luns: set<nat>)
    requires LunScanLimit + 8 <= |reply|
    ensures luns == ReportedLuns(reply, lunMax)
  {
    var count := LunCount(reply);
    luns := {};
    var i := 0;
    var offset := FirstLunOffset;
    ghost var e := Entries(reply, count);
    while i < count && offset < LunScanLimit
      invariant offset == EntryOffset(i) && i <= |e|
      invariant luns == Below(e[..i], lunMax)
      decreases LunScanLimit - offset
    {
      var lun := LunValue(reply, offset);
      assert e[..i + 1] == e[..i] + [lun];
      if lun < lunMax {
        luns := luns + {lun};
      }
      i, offset := i + 1, offset + 8;
    }
    assert !Scanned(count, i);
    assert e[..i] == e;
  }
}
