/**
 * PhaseExecutor: the initiator side of one SCSI transaction, phase by phase
 * (arbitration, selection, command, status, data, messages), driven over a
 * GpioBus.  A thrown phase_exception is a `false` result.  The nanosleep
 * delays between the steps are not modelled; their constants are kept.
 */
module PhaseExecutor {
  import opened Bus
  import opened GpioBus

  // Delays of phase_executor.h, in nanoseconds; they repeat the SCSI-2 values of Bus.
  const BusSettleDelay := 400
  const BusClearDelay := 800
  const BusFreeDelay := 800
  const DeskewDelay := 45
  const ArbitrationDelay := 2400

  /** `int count = 10000; do { … } while (count--);` repeats its body this many times after the first poll. */
  const PollRepeats: nat := 10000

  /** What WaitForFree (busy false) or WaitForBusy (busy true) waits for in one acquisition. */
  predicate Wanted(x: Sample, busy: bool)
  {
    if busy then BSY in x.asserted else BSY !in x.asserted && SEL !in x.asserted
  }

  datatype Probe = Probe(found: bool, next: nat)

  /** Polls from acquisition t on, the last poll allowed being acquisition `last`. */
  function Seek(peer: Peer, t: nat, last: nat, busy: bool): (r: Probe)
    decreases last - t
  {
    if Wanted(peer.samples(t), busy) then Probe(true, t + 1)
    else if last <= t then Probe(false, t + 1)
    else Seek(peer, t + 1, last, busy)
  }

  /**
   * The wait polls at least once and at most left + 1 times, succeeds exactly
   * when one of those polls shows what it waits for, and stops at the first
   * such poll.
   */
  lemma {:induction false} SeekOutcome(peer: Peer, t: nat, left: nat, busy: bool)
    ensures var p := Seek(peer, t, t + left, busy);
      && t < p.next <= t + left + 1
      && (p.found <==> exists u :: t <= u <= t + left && Wanted(peer.samples(u), busy))
      && (p.found ==> Wanted(peer.samples(p.next - 1), busy))
      && (forall u :: t <= u < p.next - 1 ==> !Wanted(peer.samples(u), busy))
      && (!p.found ==> p.next == t + left + 1)
    decreases left
  {
    if !Wanted(peer.samples(t), busy) && left > 0 {
      SeekOutcome(peer, t + 1, left - 1, busy);
    }
  }

  function Pow2(n: nat): (r: nat)
  {
    if n == 0 then 1 else 2 * Pow2(n - 1)
  }

  /** `static_cast<uint8_t>(1 << id)`: the ID's data line, or no line at all for an ID of 8 or more. */
  function IdBit(id: nat): (r: byte)
  {
    if id < 8 then [0x01, 0x02, 0x04, 0x08, 0x10, 0x20, 0x40, 0x80][id] else 0
  }

  /** The truncating cast: the ID's bit is 2^id reduced to a byte. */
  lemma IdBitIsPow2(id: nat)
    ensures IdBit(id) as int == Pow2(id) % 256
  {
    if id >= 8 {
      Pow2Large(id);
    } else {
      Pow2Small(id);
    }
  }

  lemma {:induction false} Pow2Large(id: nat)
    requires id >= 8
    ensures Pow2(id) % 256 == 0
  {
    Pow2Shift(id - 8);
    MultipleOf256(Pow2(id - 8));
  }

  lemma {:induction false} MultipleOf256(m: nat)
    ensures (256 * m) % 256 == 0
  {
    if m > 0 {
      MultipleOf256(m - 1);
      assert 256 * m == 256 * (m - 1) + 256;
    }
  }

  /** Eight more doublings multiply by 256. */
  lemma {:induction false} Pow2Shift(n: nat)
    ensures Pow2(n + 8) == 256 * Pow2(n)
  {
    if n == 0 {
      Pow2Small(7);
    } else {
      Pow2Shift(n - 1);
    }
  }

  /** `static_cast<byte>(target_lun << 5)`: the low three bits of the LUN, in the top three bits of a byte. */
  function LunBits(lun: int): (r: byte)
  {
    [0x00, 0x20, 0x40, 0x60, 0x80, 0xA0, 0xC0, 0xE0][lun % 8]
  }

  /** LunBits is the shift truncated to a byte (two's complement for a negative LUN). */
  lemma LunBitsTruncates(lun: int)
    ensures LunBits(lun) as int == (lun * 32) % 256
  {
    assert (lun * 32) % 256 == (lun % 8) * 32;
  }

  /** The IDENTIFY message `target_lun | 0x80`, truncated to a byte. */
  function IdentifyByte(lun: int): (r: byte)
  {
    ((lun % 256) as byte) | 0x80
  }

  /** Command's patch of the CDB: the opcode into byte 0, the LUN or-ed into byte 1. */
  function PatchCdb(cdb: seq<byte>, op: byte, lun: int): (r: seq<byte>)
    requires 2 <= |cdb|
  {
    cdb[0 := op][1 := cdb[1] | LunBits(lun)]
  }

  /** `bus.GetDAT() > (1 << initiator_id)`: the comparison of the sampled DAT with the own ID, as ints. */
  predicate Loses(dat: byte, own: nat)
  {
    dat as int > Pow2(own)
  }

  datatype Outcome = Outcome(ok: bool, next: nat, log: seq<Action>)

  lemma ReplaySnoc(l: Lines, log: seq<Action>, a: Action)
    ensures Replay(l, log + [a]) == Step(Replay(l, log), a)
  {
    assert (log + [a])[..|log|] == log;
  }

  /** Arbitration's claim of the bus: the own ID bit on DAT, then BSY. */
  function ClaimLog(own: nat): (r: seq<Action>)
  {
    [DriveDat(IdBit(own))] + [Drive(BSY, true)]
  }

  /** The rest of a won arbitration: both ID bits on DAT, then SEL. */
  function WinLog(own: nat, target: nat): (r: seq<Action>)
  {
    [DriveDat(IdBit(own) | IdBit(target))] + [Drive(SEL, true)]
  }

  /** Selection before the wait: both ID bits on DAT, ATN for the IDENTIFY message, BSY released. */
  function SelectLog(own: nat, target: nat): (r: seq<Action>)
  {
    [DriveDat(IdBit(own) | IdBit(target))] + [Drive(ATN, true)] + [Drive(BSY, false)]
  }

  /** Arbitration: wait for a free bus, claim it, look at DAT, then assert SEL. */
  function ArbitrationSpec(peer: Peer, t: nat, own: nat, target: nat): (r: Outcome)
  {
    var w := Seek(peer, t, t + PollRepeats, false);
    if !w.found then Outcome(false, w.next, [])
    // Acquire() takes sample w.next, GetDAT() acquires once more
    else if Loses(peer.samples(w.next + 1).dat, own) then Outcome(false, w.next + 2, ClaimLog(own))
    else Outcome(true, w.next + 2, ClaimLog(own) + WinLog(own, target))
  }

  /** Selection: drive the selection lines, then wait for the target's BSY and release SEL once it came. */
  function SelectionSpec(peer: Peer, t: nat, own: nat, target: nat): (r: Outcome)
  {
    var w := Seek(peer, t, t + PollRepeats, true);
    if w.found then Outcome(true, w.next, SelectLog(own, target) + [Drive(SEL, false)])
    else Outcome(false, w.next, SelectLog(own, target))
  }

  lemma Pow2Small(id: nat)
    requires id < 8
    ensures Pow2(id) < 256 && IdBit(id) as int == Pow2(id)
  {
    assert Pow2(0) == 1 && Pow2(1) == 2 && Pow2(2) == 4 && Pow2(3) == 8;
    assert Pow2(4) == 16 && Pow2(5) == 32 && Pow2(6) == 64 && Pow2(7) == 128;
  }

  /**
   * With its own ID bit on DAT, an initiator below ID 8 loses arbitration
   * exactly when any other bit is set, whether that ID is higher or lower.
   */
  lemma ArbitrationLosesToAnyOtherBit(dat: byte, own: nat)
    requires own < 8 && dat & IdBit(own) == IdBit(own)
    ensures Loses(dat, own) <==> dat != IdBit(own)
  {
    Pow2Small(own);
    assert dat >= IdBit(own);
  }

  /** In particular ID 7, the highest SCSI priority, backs off when ID 0 arbitrates too. */
  lemma ArbitrationLosesToLowerId()
    ensures Loses(IdBit(7) | IdBit(0), 7)
  {
    Pow2Small(7);
    Pow2Small(0);
  }

  /**
   * Arbitration drives nothing when the bus never became free; otherwise it
   * claims the bus, and it wins, asserting SEL, exactly when the sampled DAT
   * is not above its own bit.
   */
  lemma ArbitrationFacts(peer: Peer, t: nat, own: nat, target: nat)
    ensures var o := ArbitrationSpec(peer, t, own, target);
      var w := Seek(peer, t, t + PollRepeats, false);
      && (!w.found ==> !o.ok && o.log == [] && o.next == t + PollRepeats + 1)
      && (w.found ==> (o.ok <==> !Loses(peer.samples(w.next + 1).dat, own)))
      && (w.found ==> o.log == if o.ok then ClaimLog(own) + WinLog(own, target) else ClaimLog(own))
  {
    if !Seek(peer, t, t + PollRepeats, false).found {
      SeekOutcome(peer, t, PollRepeats, false);
    }
  }

  /** The claim leaves BSY asserted with the own bit on DAT; a won arbitration adds SEL and the target's bit. */
  lemma ArbitrationLines(l: Lines, own: nat, target: nat)
    ensures Replay(l, ClaimLog(own)) == l.(bsy := true, dat := IdBit(own))
    ensures Replay(l, ClaimLog(own) + WinLog(own, target))
      == l.(bsy := true, sel := true, dat := IdBit(own) | IdBit(target))
  {
    var b, both := IdBit(own), IdBit(own) | IdBit(target);
    ReplaySnoc(l, [], DriveDat(b));
    assert Replay(l, [DriveDat(b)]) == l.(dat := b);
    ReplaySnoc(l, [DriveDat(b)], Drive(BSY, true));
    var l1 := l.(bsy := true, dat := b);
    assert Replay(l, ClaimLog(own)) == l1;
    ReplayAppend(l, ClaimLog(own), WinLog(own, target));
    ReplaySnoc(l1, [], DriveDat(both));
    assert Replay(l1, [DriveDat(both)]) == l1.(dat := both);
    ReplaySnoc(l1, [DriveDat(both)], Drive(SEL, true));
  }

  /** Selection succeeds exactly when some poll of the window shows BSY, and only then releases SEL. */
  lemma SelectionFacts(peer: Peer, t: nat, own: nat, target: nat)
    ensures var o := SelectionSpec(peer, t, own, target);
      && (o.ok <==> exists u :: t <= u <= t + PollRepeats && BSY in peer.samples(u).asserted)
      && o.log == SelectLog(own, target) + if o.ok then [Drive(SEL, false)] else []
  {
    SeekOutcome(peer, t, PollRepeats, true);
  }

  /** Selection leaves both ID bits on DAT, ATN asserted and BSY released, and SEL released once the target answered. */
  lemma SelectionLines(l: Lines, own: nat, target: nat)
    ensures Replay(l, SelectLog(own, target))
      == l.(dat := IdBit(own) | IdBit(target), atn := true, bsy := false)
    ensures Replay(l, SelectLog(own, target) + [Drive(SEL, false)])
      == l.(dat := IdBit(own) | IdBit(target), atn := true, bsy := false, sel := false)
  {
    var d := DriveDat(IdBit(own) | IdBit(target));
    ReplaySnoc(l, [], d);
    ReplaySnoc(l, [d], Drive(ATN, true));
    ReplaySnoc(l, [d] + [Drive(ATN, true)], Drive(BSY, false));
    ReplaySnoc(l, SelectLog(own, target), Drive(SEL, false));
  }

  /**
   * Command's patch keeps the length and every byte from 2 on, stores the
   * opcode, and or-s the LUN's bits into the top three bits of byte 1,
   * keeping its low five bits.
   */
  lemma PatchCdbFacts(cdb: seq<byte>, op: byte, lun: int)
    requires 2 <= |cdb|
    ensures var r := PatchCdb(cdb, op, lun);
      && |r| == |cdb| && r[0] == op && r[2..] == cdb[2..]
      && r[1] & 0x1F == cdb[1] & 0x1F
      && r[1] & 0xE0 == (cdb[1] & 0xE0) | LunBits(lun)
  {
    var r := PatchCdb(cdb, op, lun);
    assert r[2..] == cdb[2..];
    var k := lun % 8;
    assert LunBits(lun) & 0x1F == 0 by {
      if k == 0 {} else if k == 1 {} else if k == 2 {} else if k == 3 {}
      else if k == 4 {} else if k == 5 {} else if k == 6 {} else {}
    }
  }

  /** Patching twice is patching once, so a target that asks for the CDB again gets the same bytes. */
  lemma PatchCdbIdempotent(cdb: seq<byte>, op: byte, lun: int)
    requires 2 <= |cdb|
    ensures PatchCdb(PatchCdb(cdb, op, lun), op, lun) == PatchCdb(cdb, op, lun)
  {
    var r := PatchCdb(cdb, op, lun);
    assert r[1] | LunBits(lun) == r[1];
  }

  /** A LUN below 8 is recovered from the top three bits of a byte 1 whose top bits were clear. */
  lemma LunBitsRoundTrip(lun: int, low: byte)
    requires 0 <= lun < 8 && low & 0xE0 == 0
    ensures ((low | LunBits(lun)) >> 5) as int == lun
  {
    if lun == 0 {} else if lun == 1 {} else if lun == 2 {} else if lun == 3 {}
    else if lun == 4 {} else if lun == 5 {} else if lun == 6 {} else {}
  }

  /** The IDENTIFY message has bit 7 set, no disconnect privilege (bit 6), and a LUN below 8 in its low bits. */
  lemma IdentifyByteFacts(lun: int)
    requires 0 <= lun < 8
    ensures IdentifyByte(lun) & 0xC0 == 0x80
    ensures (IdentifyByte(lun) & 0x3F) as int == lun
  {
    var b := (lun % 256) as byte;
    assert b as int == lun;
    IdentifyBits(b);
  }

  /** Or-ing 0x80 into a LUN below 8 sets the IDENTIFY bit and keeps the LUN in the low bits. */
  lemma IdentifyBits(b: byte)
    requires b < 8
    ensures (b | 0x80) & 0xC0 == 0x80 && (b | 0x80) & 0x3F == b
  {
  }

  class PhaseExecutor {
    const bus: GpioBus
    const initiatorId: int
    var targetId: int
    var targetLun: int
    var status: int

    /** The bus and the initiator ID are bound for good; target, LUN and status start at -1. */
    constructor (b: GpioBus, id: int)
      ensures bus == b && initiatorId == id
      ensures targetId == -1 && targetLun == -1 && status == -1
    {
      bus := b;
      initiatorId := id;
      targetId := -1;
      targetLun := -1;
      status := -1;
    }

    /** Selects the target of the next transaction and forgets the last status. */
    method Reset(id: int, lun: int)
      modifies this`targetId, this`targetLun, this`status
      ensures targetId == id && targetLun == lun && status == -1
    {
      targetId := id;
      targetLun := lun;
      status := -1;
    }

    /** Polls until neither BSY nor SEL is asserted, at most PollRepeats + 1 times. */
    method WaitForFree() returns (free: bool)
      modifies bus`now
      ensures var p := Seek(bus.peer, old(bus.now), old(bus.now) + PollRepeats, false);
        free == p.found && bus.now == p.next
    {
      var count: nat := PollRepeats;
      while true
        invariant Seek(bus.peer, bus.now, bus.now + count, false) == Seek(bus.peer, old(bus.now), old(bus.now) + PollRepeats, false)
        decreases count
      {
        var x := bus.Acquire();
        if BSY !in x.asserted && SEL !in x.asserted {
          return true;
        }
        if count == 0 {
          return false;
        }
        count := count - 1;
      }
    }

    /** Polls until BSY is asserted, at most PollRepeats + 1 times. */
    method WaitForBusy() returns (busy: bool)
      modifies bus`now
      ensures var p := Seek(bus.peer, old(bus.now), old(bus.now) + PollRepeats, true);
        busy == p.found && bus.now == p.next
    {
      var count: nat := PollRepeats;
      while true
        invariant Seek(bus.peer, bus.now, bus.now + count, true) == Seek(bus.peer, old(bus.now), old(bus.now) + PollRepeats, true)
        decreases count
      {
        var x := bus.Acquire();
        if BSY in x.asserted {
          return true;
        }
        if count == 0 {
          return false;
        }
        count := count - 1;
      }
    }

    method Arbitration() returns (won: bool)
      requires 0 <= initiatorId && 0 <= targetId
      modifies bus`now, bus`log
      ensures var o := ArbitrationSpec(bus.peer, old(bus.now), initiatorId, targetId);
        won == o.ok && bus.now == o.next && bus.log == old(bus.log) + o.log
    {
      var free := WaitForFree();
      if !free {
        return false;
      }
      won := Contend();
    }

    /** Arbitration once the bus is free: claim it, sample DAT, and assert SEL unless a higher bit was seen. */
    method Contend() returns (won: bool)
      requires 0 <= initiatorId && 0 <= targetId
      modifies bus`now, bus`log
      ensures won == !Loses(bus.peer.samples(old(bus.now) + 1).dat, initiatorId)
      ensures bus.now == old(bus.now) + 2
      ensures bus.log == old(bus.log) + if won then ClaimLog(initiatorId) + WinLog(initiatorId, targetId) else ClaimLog(initiatorId)
    {
      ghost var l0 := bus.log;
      bus.Emit(DriveDat(IdBit(initiatorId)));
      bus.Emit(Drive(BSY, true));
      assert bus.log == l0 + ClaimLog(initiatorId);
      var _ := bus.Acquire();
      var dat := bus.GetDAT();
      if Loses(dat, initiatorId) {
        return false;
      }
      bus.Emit(DriveDat(IdBit(initiatorId) | IdBit(targetId)));
      bus.Emit(Drive(SEL, true));
      won := true;
      assert bus.log == l0 + (ClaimLog(initiatorId) + WinLog(initiatorId, targetId));
    }

    method Selection() returns (selected: bool)
      requires 0 <= initiatorId && 0 <= targetId
      modifies bus`now, bus`log
      ensures var o := SelectionSpec(bus.peer, old(bus.now), initiatorId, targetId);
        selected == o.ok && bus.now == o.next && bus.log == old(bus.log) + o.log
    {
      ghost var l0 := bus.log;
      bus.Emit(DriveDat(IdBit(initiatorId) | IdBit(targetId)));
      bus.Emit(Drive(ATN, true));
      bus.Emit(Drive(BSY, false));
      selected := WaitForBusy();
      if selected {
        bus.Emit(Drive(SEL, false));
      }
    }

    /** Patches the CDB in place, then fails unless every CDB byte was sent. */
    method Command(op: byte, cdb: array<byte>) returns (ok: bool)
      requires 2 <= cdb.Length
      modifies cdb, bus`now, bus`log
      ensures cdb[..] == PatchCdb(old(cdb[..]), op, targetLun)
      ensures var o := SendSpec(bus.mode, bus.peer, old(bus.now), cdb[..], cdb.Length, SendNoDelay);
        ok == (o.count == cdb.Length) && bus.now == o.next && bus.log == old(bus.log) + o.log
    {
      cdb[0] := op;
      cdb[1] := cdb[1] | LunBits(targetLun);
      var sent := bus.SendHandShake(cdb, cdb.Length, SendNoDelay);
      ok := sent == cdb.Length;
    }

    /** Receives one byte and stores it as the status; fails unless exactly one byte came. */
    method Status() returns (ok: bool)
      modifies this`status, bus`now, bus`log
      ensures var o := ReceiveSpec(bus.mode, bus.peer, old(bus.now), [0], 1);
        && ok == (o.count == 1) && bus.now == o.next && bus.log == old(bus.log) + o.log
        && status == if ok then o.buf[0] as int else old(status)
    {
      var buf := new byte[1](_ => 0);
      var received := bus.ReceiveHandShake(buf, 1);
      if received != 1 {
        return false;
      }
      status := buf[0] as int;
      ok := true;
    }

    /** Receives up to `length` bytes; only a transfer of no byte at all fails. */
    method DataIn(buffer: array<byte>, length: int) returns (ok: bool)
      requires length <= buffer.Length
      modifies buffer, bus`now, bus`log
      ensures var o := ReceiveSpec(bus.mode, bus.peer, old(bus.now), old(buffer[..]), length);
        && ok == (o.count != 0) && buffer[..] == o.buf && bus.now == o.next && bus.log == old(bus.log) + o.log
    {
      var received := bus.ReceiveHandShake(buffer, length);
      ok := received != 0;
    }

    /** Sends up to `length` bytes; only a transfer of no byte at all fails. */
    method DataOut(buffer: array<byte>, length: int) returns (ok: bool)
      requires length <= buffer.Length
      modifies bus`now, bus`log
      ensures var o := SendSpec(bus.mode, bus.peer, old(bus.now), buffer[..], length, SendNoDelay);
        && ok == (o.count != 0) && bus.now == o.next && bus.log == old(bus.log) + o.log
    {
      var sent := bus.SendHandShake(buffer, length, SendNoDelay);
      ok := sent != 0;
    }

    /** Receives one message byte; fails unless it came and is COMMAND COMPLETE (0). */
    method MsgIn() returns (ok: bool)
      modifies bus`now, bus`log
      ensures var o := ReceiveSpec(bus.mode, bus.peer, old(bus.now), [0], 1);
        && ok == (o.count == 1 && o.buf[0] == 0) && bus.now == o.next && bus.log == old(bus.log) + o.log
    {
      var buf := new byte[1](_ => 0);
      var received := bus.ReceiveHandShake(buf, 1);
      if received != 1 {
        return false;
      }
      ok := buf[0] == 0;
    }

    /** Sends the IDENTIFY message for the target LUN; fails unless it was sent. */
    method MsgOut() returns (ok: bool)
      modifies bus`now, bus`log
      ensures var o := SendSpec(bus.mode, bus.peer, old(bus.now), [IdentifyByte(targetLun)], 1, SendNoDelay);
        && ok == (o.count == 1) && bus.now == o.next && bus.log == old(bus.log) + o.log
    {
      var message := IdentifyByte(targetLun);
      var buf := new byte[1](_ => message);
      assert buf[..] == [message];
      var sent := bus.SendHandShake(buf, 1, SendNoDelay);
      ok := sent == 1;
    }
  }
}
