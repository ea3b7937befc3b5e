/**
 * ScsiExecutor of scsidump: the same commands as ScsiDump's own helpers,
 * each sent through one PhaseExecutor::Execute call with its own CDB and
 * its own reply buffer.  That Execute (a later revision than the phase
 * executor of this model) is given as the device's answers: the k-th
 * exchange answers whether it succeeded and what the data-in phase brought.
 */
module DumpExecutor {
  import opened Bus
  import opened ScsiCommands

  /** One call of Execute: the target, the operation code, the CDB, the data buffer and the length it may use. */
  datatype Request = Request(id: int, lun: int, op: byte, cdb: seq<byte>, buffer: seq<byte>, length: int)

  /** What Execute did: its result, and the bytes the data-in phase delivered. */
  datatype Answer = Answer(ok: bool, data: seq<byte>)

  class ScsiExecutor {
    /** The device's answer to the k-th exchange. */
    const device: (nat, Request) -> Answer
    /** ControllerManager::GetScsiLunMax. */
    const lunMax: nat
    /** The target SetTarget chose. */
    var id: int
    var lun: int
    /** Every Execute call made so far. */
    var sent: seq<Request>

    constructor (device: (nat, Request) -> Answer, lunMax: nat)
      ensures this.device == device && this.lunMax == lunMax
      ensures id == -1 && lun == -1 && sent == []
    {
      this.device := device;
      this.lunMax := lunMax;
      id, lun := -1, -1;
      sent := [];
    }

    /** Forwards the target to the phase executor. */
    method SetTarget(id: int, lun: int)
      modifies this`id, this`lun
      ensures this.id == id && this.lun == lun
    {
      this.id, this.lun := id, lun;
    }

    /** One Execute call: it is recorded, and its answer is the device's for that position. */
    method Exchange(op: byte, cdb: seq<byte>, buffer: seq<byte>, length: int) returns (a: Answer)
      modifies this`sent
      ensures sent == old(sent) + [Request(id, lun, op, cdb, buffer, length)]
      ensures a == device(|old(sent)|, Request(id, lun, op, cdb, buffer, length))
    {
      var r := Request(id, lun, op, cdb, buffer, length);
      a := device(|sent|, r);
      sent := sent + [r];
    }

    /** An all-zero 6-byte CDB and no data phase. */
    method TestUnitReady() returns (ok: bool)
      modifies this`sent
      ensures sent == old(sent) + [Request(id, lun, TestUnitReadyOp, Zeros(6), [], 0)]
      ensures ok == device(|old(sent)|, sent[|sent| - 1]).ok
    {
      var a := Exchange(TestUnitReadyOp, TestUnitReadyCdb(), [], 0);
      ok := a.ok;
    }

    /** Allocation length 255 in CDB byte 4, while Execute may fill 256 bytes of the caller's buffer. */
    method Inquiry(buffer: array<byte>) returns (ok: bool)
      modifies this`sent, buffer
      ensures sent == old(sent) + [Request(id, lun, InquiryOp, InquiryCdb(), old(buffer[..]), 256)]
      ensures var a := device(|old(sent)|, sent[|sent| - 1]);
        ok == a.ok && buffer[..] == Receive(old(buffer[..]), a.data, 256)
    {
      var a := Exchange(InquiryOp, InquiryCdb(), buffer[..], InquiryLength);
      Store(buffer, Receive(buffer[..], a.data, InquiryLength));
      ok := a.ok;
    }

    /**
     * READ CAPACITY(10) into a 14-byte buffer of its own; when the 32-bit
     * last LBA is 0xFFFFFFFF, READ CAPACITY(16) over the grown CDB into the
     * same buffer.  `first` and `second` are the buffer after each
     * successful exchange.
     */
    method ReadCapacity() returns (c: Capacity, ghost first: Option<seq<byte>>, ghost second: Option<seq<byte>>)
      modifies this`sent
      ensures first.Some? ==> |first.value| == 14
      ensures second.Some? ==> |second.value| == 14 && first.Some? && NeedsLong(first.value)
      ensures c == ReadCapacityResult(first, second)
      ensures |old(sent)| < |sent| <= |old(sent)| + 2 && sent[..|old(sent)|] == old(sent)
      ensures sent[|old(sent)|] == Request(id, lun, ReadCapacity10Op, Zeros(10), Zeros(14), 8)
      ensures |sent| == |old(sent)| + 2 <==> first.Some? && NeedsLong(first.value)
      ensures first.Some? <==> device(|old(sent)|, sent[|old(sent)|]).ok
      ensures first.Some? ==> first.value == Receive(Zeros(14), device(|old(sent)|, sent[|old(sent)|]).data, 8)
      ensures |sent| == |old(sent)| + 2 ==>
        sent[|old(sent)| + 1] == Request(id, lun, ReadCapacity16Op, ReadCapacity16Cdb(Zeros(10)), first.value, 14)
      ensures second.Some? <==> |sent| == |old(sent)| + 2 && device(|old(sent)| + 1, sent[|old(sent)| + 1]).ok
      ensures second.Some? ==> second.value == Receive(first.value, device(|old(sent)| + 1, sent[|old(sent)| + 1]).data, 14)
    {
      var buffer := Zeros(14);
      var cdb := ReadCapacity10Cdb();
      ghost var before := sent;
      var a := Exchange(ReadCapacity10Op, cdb, buffer, ReadCapacity10Length);
      if !a.ok {
        return Capacity(0, 0), None, None;
      }
      buffer := Receive(buffer, a.data, ReadCapacity10Length);
      first := Some(buffer);
      if !NeedsLong(buffer) {
        return Capacity(Be32(buffer, 0) as bv64 + 1, Be32(buffer, 4)), first, None;
      }
      a := Exchange(ReadCapacity16Op, ReadCapacity16Cdb(cdb), buffer, ReadCapacity16Length);
      assert sent[..|before|] == before;
      if !a.ok {
        return Capacity(0, 0), first, None;
      }
      buffer := Receive(buffer, a.data, ReadCapacity16Length);
      second := Some(buffer);
      c := Capacity(Be64(buffer, 0) + 1, Be32(buffer, 8));
    }

    /** READ(10) into, or WRITE(10) from, the caller's buffer. */
    method ReadWrite(buffer: array<byte>, start: bv32, blocks: bv32, length: int, isWrite: bool) returns (ok: bool)
      modifies this`sent, buffer
      ensures sent == old(sent) + [Request(id, lun, if isWrite then Write10Op else Read10Op, ReadWriteCdb(start, blocks), old(buffer[..]), length)]
      ensures var a := device(|old(sent)|, sent[|sent| - 1]);
        ok == a.ok && buffer[..] == Receive(old(buffer[..]), a.data, length)
    {
      var a := Exchange(if isWrite then Write10Op else Read10Op, ReadWriteCdb(start, blocks), buffer[..], length);
      Store(buffer, Receive(buffer[..], a.data, length));
      ok := a.ok;
    }

    /** A zero 10-byte CDB; the result is dropped. */
    method SynchronizeCache()
      modifies this`sent
      ensures sent == old(sent) + [Request(id, lun, SynchronizeCache10Op, Zeros(10), [], 0)]
    {
      var _ := Exchange(SynchronizeCache10Op, SynchronizeCacheCdb(), [], 0);
    }

    /** REPORT LUNS into a 512-byte buffer of its own: LUNs 0 to 7 when it fails, else the reported LUNs below lunMax. */
    method ReportLuns() returns (luns: set<nat>)
      modifies this`sent
      ensures sent == old(sent) + [Request(id, lun, ReportLunsOp, ReportLunsCdb(ReportLunsLength), Zeros(512), 512)]
      ensures var a := device(|old(sent)|, sent[|sent| - 1]);
        luns == if !a.ok then DefaultLuns else ReportedLuns(Receive(Zeros(512), a.data, 512), lunMax)
    {
      var buffer := Zeros(512);
      var a := Exchange(ReportLunsOp, ReportLunsCdb(ReportLunsLength), buffer, ReportLunsLength as int);
      if !a.ok {
        return DefaultLuns;
      }
      buffer := Receive(buffer, a.data, ReportLunsLength as int);
      luns := CollectLuns(buffer, lunMax);
    }
  }
}
