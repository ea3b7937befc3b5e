/**
 * ScsiDump: the initiator-side dump/restore tool.  One transaction is
 * arbitration, selection, then a loop that dispatches every phase the
 * target requests until MESSAGE IN ends it; around it the commands the tool
 * sends (TEST UNIT READY, INQUIRY, READ CAPACITY, READ/WRITE(10),
 * SYNCHRONIZE CACHE, REPORT LUNS), the bus scan and the dump/restore loop.
 *
 * ScsiDump's Arbitration, Selection, WaitForFree, WaitForBusy and phase
 * helpers are the same code as PhaseExecutor's; the tool holds a
 * PhaseExecutor whose target ID, LUN and status stand for its own fields.
 *
 * Every operation is a specification function of the scripted peer (what
 * the target puts on the bus at each acquisition) and of the tool's state
 * `St`; each method is proved to compute its function.  The state carries
 * the list of commands sent so far, which is what the scan and the dump
 * loop are stated in.
 */
module ScsiDump {
  import opened Bus
  import opened GpioBus
  import PX = PhaseExecutor
  import opened ScsiCommands
  import opened DumpOptions
  import opened InquiryData
  import opened DumpPlan

  /** ScsiDump::Reset: DAT cleared, then BSY, SEL and ATN released. */
  function ResetLog(): (r: seq<Action>)
  {
    [DriveDat(0)] + [Drive(BSY, false)] + [Drive(SEL, false)] + [Drive(ATN, false)]
  }

  /** After Reset the initiator drives nothing on BSY, SEL, ATN and DAT; ACK, REQ and IRQ stay as they were. */
  lemma ResetReleases(l: Lines)
    ensures Replay(l, ResetLog()) == l.(dat := 0, bsy := false, sel := false, atn := false)
  {
    PX.ReplaySnoc(l, [], DriveDat(0));
    PX.ReplaySnoc(l, [DriveDat(0)], Drive(BSY, false));
    PX.ReplaySnoc(l, [DriveDat(0)] + [Drive(BSY, false)], Drive(SEL, false));
    PX.ReplaySnoc(l, [DriveDat(0)] + [Drive(BSY, false)] + [Drive(SEL, false)], Drive(ATN, false));
  }

  /** The phases Dispatch handles; any other one throws. */
  predicate Handled(p: Phase)
  {
    p == Command || p == Status || p == DataIn || p == DataOut || p == MsgIn || p == MsgOut
  }

  /** Dispatch's outcome: true, false (after MESSAGE IN), or a phase_exception. */
  datatype Dispatched = Continue | Complete | Thrown

  /** The image file as the dump/restore loop sees it: whether it opens, its size (None if that throws), and whether each pass's read or write succeeds. */
  datatype ImageFile = ImageFile(opens: bool, size: Option<nat>, passOk: nat -> bool)

  /** The strings DumpRestore returns, by reason; Done is the empty string. */
  datatype DumpResult = Done | NoDeviceInfo | CannotOpenImage | NoImageSize | DeviceError | FileError | SectorLargerThanBuffer

  function Max(a: nat, b: nat): (r: nat)
  {
    if a < b then b else a
  }

  /** `capacity * sector_size`: the bytes on the device. */
  function DiskSize(capacity: nat, sectorSize: nat): (n: nat)
    ensures capacity != 0 && sectorSize != 0 ==> n >= sectorSize > 0
    ensures sectorSize == 0 ==> n == 0
  {
    MulBounds(capacity, sectorSize);
    Mul(capacity, sectorSize)
  }

  /** The disk size is the product of the capacity and the sector size. */
  lemma DiskSizeIsProduct(capacity: nat, sectorSize: nat)
    ensures DiskSize(capacity, sectorSize) == capacity * sectorSize
  {
    MulIsProduct(capacity, sectorSize);
  }

  /** `static_cast<uint32_t>` of a non-negative count. */
  function Word(n: nat): (r: bv32)
  {
    (n % 0x1_0000_0000) as bv32
  }

  /** A fresh CDB holding the bytes a builder gives. */
  method NewCdb(bytes: seq<byte>) returns (cdb: array<byte>)
    ensures fresh(cdb) && cdb[..] == bytes
  {
    cdb := new byte[|bytes|](i requires 0 <= i < |bytes| => bytes[i]);
  }

  /** The operation code of one pass of the transfer loop. */
  function RwOp(restore: bool): (r: byte)
  {
    if restore then Write10Op else Read10Op
  }

  // ---------------------------------------------------------------------
  // The state of the tool and the specification of each operation
  // ---------------------------------------------------------------------

  /** One Execute call: the operation, the CDB its helper built, the target ID and LUN, the data length, and the result. */
  datatype Issued = Issued(op: byte, cdb: seq<byte>, id: int, lun: int, length: int, ok: bool)

  /**
   * What stays fixed: the bus role and its peer, the board's ID, the
   * budgets that stand for the 3 s REQ window and for the phases of one
   * transaction, the ID and LUN limits, and the restore and all-LUNs options.
   */
  datatype Ctx = Ctx(mode: Mode, peer: Peer, own: int, window: nat, rounds: nat,
                     idMax: nat, lunMax: nat, restore: bool, allLuns: bool)

  /** What changes: the next acquisition, the bus actions, the buffer, the status, the target ID and LUN, and the commands sent. */
  datatype St = St(now: nat, log: seq<Action>, buf: seq<byte>, status: int, id: int, lun: int, issued: seq<Issued>)

  /** What the commands need: a board ID and a target ID that are bit positions, and at least the minimum buffer. */
  predicate Ready(c: Ctx, s: St)
  {
    0 <= c.own && 0 <= s.id && MinimumBufferSize <= |s.buf|
  }

  /** What every operation leaves alone: the buffer's size and the addressed target and LUN. */
  predicate Kept(s: St, t: St)
  {
    |t.buf| == |s.buf| && t.id == s.id && t.lun == s.lun
  }

  /** One dispatched phase: the outcome, the new state, and the CDB after it. */
  datatype Step = Step(d: Dispatched, st: St, cdb: seq<byte>)

  /**
   * Dispatch: COMMAND patches and sends the CDB, STATUS stores the byte
   * received, DATA IN and DATA OUT move up to `length` bytes of the buffer
   * and fail only when no byte moved, MESSAGE OUT sends IDENTIFY, MESSAGE IN
   * completes on a 0 message byte; a failed handshake and any other phase
   * throw.
   */
  function DispatchSpec(c: Ctx, s: St, phase: Phase, op: byte, cdb: seq<byte>, length: int): (r: Step)
    requires 2 <= |cdb| && length <= |s.buf|
    ensures |r.cdb| == |cdb| && Kept(s, r.st) && r.st.issued == s.issued
  {
    match phase
    case Command =>
      var sent := PX.PatchCdb(cdb, op, s.lun);
      var o := SendSpec(c.mode, c.peer, s.now, sent, |sent|, SendNoDelay);
      Step(if o.count == |sent| then Continue else Thrown, s.(now := o.next, log := s.log + o.log), sent)
    case Status =>
      var o := ReceiveSpec(c.mode, c.peer, s.now, [0], 1);
      var got := o.count == 1;
      Step(if got then Continue else Thrown,
           s.(now := o.next, log := s.log + o.log, status := if got then o.buf[0] as int else s.status), cdb)
    case DataIn =>
      var o := ReceiveSpec(c.mode, c.peer, s.now, s.buf, length);
      Step(if o.count != 0 then Continue else Thrown, s.(now := o.next, log := s.log + o.log, buf := o.buf), cdb)
    case DataOut =>
      var o := SendSpec(c.mode, c.peer, s.now, s.buf, length, SendNoDelay);
      Step(if o.count != 0 then Continue else Thrown, s.(now := o.next, log := s.log + o.log), cdb)
    case MsgIn =>
      var o := ReceiveSpec(c.mode, c.peer, s.now, [0], 1);
      Step(if o.count == 1 && o.buf[0] == 0 then Complete else Thrown, s.(now := o.next, log := s.log + o.log), cdb)
    case MsgOut =>
      var o := SendSpec(c.mode, c.peer, s.now, [PX.IdentifyByte(s.lun)], 1, SendNoDelay);
      Step(if o.count == 1 then Continue else Thrown, s.(now := o.next, log := s.log + o.log), cdb)
    case _ => Step(Thrown, s, cdb)
  }

  /** How a transaction ended. */
  datatype Ending = Lost | NotSelected | Completed | Threw | TimedOut | OutOfRounds

  /** A transaction: its result, how it ended, the phases dispatched in order, the new state and the CDB after it. */
  datatype Tx = Tx(ok: bool, end: Ending, phases: seq<Phase>, st: St, cdb: seq<byte>)

  /**
   * The dispatch loop of Execute after `idle` polls without REQ, with
   * `fuel` phases left: a REQ hands the phase the target shows to PhaseSpec;
   * `window` polls without one time the transaction out.
   */
  function TransactSpec(c: Ctx, s: St, op: byte, cdb: seq<byte>, length: int, idle: nat, fuel: nat): (r: Tx)
    requires 2 <= |cdb| && length <= |s.buf|
    ensures |r.cdb| == |cdb| && Kept(s, r.st) && r.st.issued == s.issued
    decreases fuel, c.window - idle
  {
    if c.window <= idle then Tx(false, TimedOut, [], s, cdb)
    else
      var x := c.peer.samples(s.now);
      var s1 := s.(now := s.now + 1);
      if REQ !in x.asserted then TransactSpec(c, s1, op, cdb, length, idle + 1, fuel)
      else if fuel == 0 then Tx(false, OutOfRounds, [], s1, cdb)
      else PhaseSpec(c, s1, x.phase, op, cdb, length, fuel)
  }

  /**
   * One requested phase and the rest of the loop: a completion or an
   * exception resets the bus and ends the transaction, successful iff it
   * completed with status 0; otherwise polling starts over.
   */
  function PhaseSpec(c: Ctx, s: St, phase: Phase, op: byte, cdb: seq<byte>, length: int, fuel: nat): (r: Tx)
    requires 2 <= |cdb| && length <= |s.buf| && 0 < fuel
    ensures |r.cdb| == |cdb| && Kept(s, r.st) && r.st.issued == s.issued
    decreases fuel, 0
  {
    var r := DispatchSpec(c, s, phase, op, cdb, length);
    var reset := r.st.(log := r.st.log + [BusReset]);
    if r.d == Complete then Tx(r.st.status == 0, Completed, [phase], reset, r.cdb)
    else if r.d == Thrown then Tx(false, Threw, [phase], reset, r.cdb)
    else
      var rest := TransactSpec(c, r.st, op, r.cdb, length, 0, fuel - 1);
      rest.(phases := [phase] + rest.phases)
  }

  /** How the dispatch loop ends from this point: its result, its final state and the CDB after it. */
  function TransactEnd(c: Ctx, s: St, op: byte, cdb: seq<byte>, length: int, idle: nat, fuel: nat): (r: (bool, St, seq<byte>))
    requires 2 <= |cdb| && length <= |s.buf|
  {
    var t := TransactSpec(c, s, op, cdb, length, idle, fuel);
    (t.ok, t.st, t.cdb)
  }

  /** A poll without REQ: the dispatch loop goes on with one more idle poll. */
  lemma TransactIdle(c: Ctx, s: St, op: byte, cdb: seq<byte>, length: int, idle: nat, fuel: nat)
    requires 2 <= |cdb| && length <= |s.buf| && idle < c.window
    requires REQ !in c.peer.samples(s.now).asserted
    ensures TransactSpec(c, s, op, cdb, length, idle, fuel) == TransactSpec(c, s.(now := s.now + 1), op, cdb, length, idle + 1, fuel)
  {
  }

  /** A poll with REQ and phases left: the loop goes on as PhaseSpec of the phase shown. */
  lemma TransactPoll(c: Ctx, s: St, op: byte, cdb: seq<byte>, length: int, idle: nat, fuel: nat)
    requires 2 <= |cdb| && length <= |s.buf| && idle < c.window && 0 < fuel
    requires REQ in c.peer.samples(s.now).asserted
    ensures TransactSpec(c, s, op, cdb, length, idle, fuel) == PhaseSpec(c, s.(now := s.now + 1), c.peer.samples(s.now).phase, op, cdb, length, fuel)
  {
  }

  /** PhaseSpec, for the loop that computes it: `r` is that phase's Dispatch. */
  lemma PhaseNext(c: Ctx, s: St, phase: Phase, op: byte, cdb: seq<byte>, length: int, fuel: nat, r: Step)
    requires 2 <= |cdb| && length <= |s.buf| && 0 < fuel
    requires r == DispatchSpec(c, s, phase, op, cdb, length)
    ensures var t := PhaseSpec(c, s, phase, op, cdb, length, fuel);
      && (r.d == Complete ==> t.ok == (r.st.status == 0) && t.st == r.st.(log := r.st.log + [BusReset]) && t.cdb == r.cdb)
      && (r.d == Thrown ==> !t.ok && t.st == r.st.(log := r.st.log + [BusReset]) && t.cdb == r.cdb)
      && (r.d == Continue ==> TransactEnd(c, r.st, op, r.cdb, length, 0, fuel - 1) == (t.ok, t.st, t.cdb))
  {
  }

  /**
   * Execute: arbitration, then selection (either failing resets the lines),
   * then the status is cleared and the dispatch loop runs; the command is
   * added to the list of commands sent, with the CDB as its helper built it.
   */
  function ExecuteSpec(c: Ctx, s: St, op: byte, cdb: seq<byte>, length: int): (r: Tx)
    requires 0 <= c.own && 0 <= s.id && 2 <= |cdb| && length <= |s.buf|
    ensures |r.cdb| == |cdb| && Kept(s, r.st)
    ensures r.st.issued == s.issued + [Issued(op, cdb, s.id, s.lun, length, r.ok)]
  {
    var a := PX.ArbitrationSpec(c.peer, s.now, c.own, s.id);
    var sel := PX.SelectionSpec(c.peer, a.next, c.own, s.id);
    var t :=
      if !a.ok then Tx(false, Lost, [], s.(now := a.next, log := s.log + a.log + ResetLog()), cdb)
      else if !sel.ok then Tx(false, NotSelected, [], s.(now := sel.next, log := s.log + a.log + sel.log + ResetLog()), cdb)
      else TransactSpec(c, s.(now := sel.next, log := s.log + a.log + sel.log, status := 0), op, cdb, length, 0, c.rounds);
    t.(st := t.st.(issued := s.issued + [Issued(op, cdb, s.id, s.lun, length, t.ok)]))
  }

  /** READ CAPACITY: the capacity pair, the buffer after each exchange that succeeded, and the new state. */
  datatype Rc = Rc(cap: Capacity, first: Option<seq<byte>>, second: Option<seq<byte>>, st: St)

  /**
   * READ CAPACITY(10); when its last LBA is 0xFFFFFFFF, READ CAPACITY(16)
   * over the sent CDB grown to 16 bytes.  The pair is decoded from the
   * buffer after each exchange that succeeded.
   */
  function ReadCapacitySpec(c: Ctx, s: St): (r: Rc)
    requires Ready(c, s)
    ensures Kept(s, r.st)
    ensures r.first.Some? ==> |r.first.value| == |s.buf|
    ensures r.second.Some? ==> |r.second.value| == |s.buf| && r.first.Some? && NeedsLong(r.first.value)
  {
    var e1 := ExecuteSpec(c, s, ReadCapacity10Op, ReadCapacity10Cdb(), ReadCapacity10Length);
    if !e1.ok then Rc(Capacity(0, 0), None, None, e1.st)
    else if !NeedsLong(e1.st.buf) then Rc(ReadCapacityResult(Some(e1.st.buf), None), Some(e1.st.buf), None, e1.st)
    else ReadCapacity16Spec(c, e1.st, e1.cdb)
  }

  /**
   * The READ CAPACITY(16) half of ReadCapacitySpec, from the state and the
   * CDB the READ CAPACITY(10) exchange left.
   */
  function ReadCapacity16Spec(c: Ctx, s: St, cdb: seq<byte>): (r: Rc)
    requires Ready(c, s) && |cdb| == 10 && NeedsLong(s.buf)
    ensures Kept(s, r.st) && r.first == Some(s.buf)
    ensures r.second.Some? ==> |r.second.value| == |s.buf|
  {
    var e2 := ExecuteSpec(c, s, ReadCapacity16Op, ReadCapacity16Cdb(cdb), ReadCapacity16Length);
    if !e2.ok then Rc(Capacity(0, 0), Some(s.buf), None, e2.st)
    else Rc(ReadCapacityResult(Some(s.buf), Some(e2.st.buf)), Some(s.buf), Some(e2.st.buf), e2.st)
  }

  /** REPORT LUNS: the LUN set and the new state. */
  datatype Luns = Luns(luns: set<nat>, st: St)

  /** REPORT LUNS for 512 bytes: LUNs 0 to 7 when it fails, else the reported LUNs below lunMax. */
  function ReportLunsSpec(c: Ctx, s: St): (r: Luns)
    requires Ready(c, s)
    ensures Kept(s, r.st)
    ensures forall l :: l in r.luns ==> l < Max(c.lunMax, 8)
  {
    var e := ExecuteSpec(c, s, ReportLunsOp, ReportLunsCdb(ReportLunsLength), ReportLunsLength as int);
    if !e.ok then Luns(DefaultLuns, e.st)
    else Luns(ReportedLuns(e.st.buf, c.lunMax), e.st)
  }

  /** DisplayInquiry: its result, the text fields, the lines it prints (None when nothing is shown), and the new state. */
  datatype Display = Display(ok: bool, info: InquiryInfo, shown: Option<Shown>, st: St)

  /**
   * INQUIRY, then the fields of the reply unless the command failed or the
   * LUN is absent; with checkType, a device that is not dumpable fails.
   */
  function DisplayInquirySpec(c: Ctx, s: St, checkType: bool): (r: Display)
    requires Ready(c, s)
    ensures Kept(s, r.st)
    ensures r.shown.None? ==> r.info == NoInfo && !r.ok
    ensures |r.info.vendor| <= 8 && |r.info.product| <= 16 && |r.info.revision| <= 4
  {
    var e := ExecuteSpec(c, s, InquiryOp, InquiryCdb(), InquiryLength);
    if !e.ok || LunAbsent(e.st.buf) then Display(false, NoInfo, None, e.st)
    else Display(!checkType || Dumpable(e.st.buf[0]), InfoOf(e.st.buf), Some(ShownOf(e.st.buf)), e.st)
  }

  /** GetDeviceInfo: its result, the device's fields, and the new state. */
  datatype DevInfo = DevInfo(ok: bool, info: InquiryInfo, st: St)

  /** DisplayInquiry with the type check, TEST UNIT READY, READ CAPACITY; a zero block count or block length fails. */
  function GetDeviceInfoSpec(c: Ctx, s: St): (r: DevInfo)
    requires Ready(c, s)
    ensures Kept(s, r.st)
    ensures r.ok ==> r.info.capacity != 0 && r.info.sectorSize != 0
    ensures |r.info.vendor| <= 8 && |r.info.product| <= 16 && |r.info.revision| <= 4
  {
    var d := DisplayInquirySpec(c, s, true);
    if !d.ok then DevInfo(false, d.info, d.st)
    else DeviceReadySpec(c, d.st, d.info)
  }

  /**
   * The GetDeviceInfo half after a successful INQUIRY with fields `info`:
   * TEST UNIT READY, then READ CAPACITY; a zero block count or block
   * length fails, and only a success adds the capacity to the fields.
   */
  function DeviceReadySpec(c: Ctx, s: St, info: InquiryInfo): (r: DevInfo)
    requires Ready(c, s)
    ensures Kept(s, r.st)
    ensures r.info == if r.ok then info.(capacity := r.info.capacity, sectorSize := r.info.sectorSize) else info
    ensures r.ok ==> r.info.capacity != 0 && r.info.sectorSize != 0
  {
    var t := ExecuteSpec(c, s, TestUnitReadyOp, TestUnitReadyCdb(), 0);
    if !t.ok then DevInfo(false, info, t.st)
    else
      var rc := ReadCapacitySpec(c, t.st);
      if rc.cap.blocks == 0 || rc.cap.sectorSize == 0 then DevInfo(false, info, rc.st)
      else DevInfo(true, info.(capacity := rc.cap.blocks, sectorSize := rc.cap.sectorSize), rc.st)
  }

  /** The LUN loop of the bus scan from `lun` on: an INQUIRY for every LUN of `luns` below max(lunMax, 8). */
  function ScanLunsSpec(c: Ctx, s: St, luns: set<nat>, lun: nat): (r: St)
    requires Ready(c, s)
    ensures |r.buf| == |s.buf| && r.id == s.id
    decreases Max(c.lunMax, 8) - lun
  {
    if Max(c.lunMax, 8) <= lun then s
    else if lun in luns then ScanLunsSpec(c, DisplayInquirySpec(c, s.(lun := lun), false).st, luns, lun + 1)
    else ScanLunsSpec(c, s, luns, lun + 1)
  }

  /** Where the LUN loop from `lun` on ends. */
  function ScanLunsEnd(c: Ctx, s: St, luns: set<nat>, lun: nat): (r: St)
    requires Ready(c, s)
  {
    ScanLunsSpec(c, s, luns, lun)
  }

  /** One ID of the bus scan: LUN 0; with allLuns and a device there, REPORT LUNS and the further LUNs. */
  function ScanTargetSpec(c: Ctx, s: St): (r: St)
    requires Ready(c, s)
    ensures |r.buf| == |s.buf| && r.id == s.id
  {
    var d := DisplayInquirySpec(c, s.(lun := 0), false);
    if !d.ok || !c.allLuns then d.st
    else
      var l := ReportLunsSpec(c, d.st);
      ScanLunsSpec(c, l.st, l.luns, 1)
  }

  /** One ID of the bus scan: the board's own ID is skipped, any other is scanned; then the next ID. */
  function ScanStep(c: Ctx, s: St): (r: St)
    requires Ready(c, s)
  {
    (if s.id == c.own then s else ScanTargetSpec(c, s)).(id := s.id + 1)
  }

  /** The bus scan from target `id` on: every ID below idMax but the board's own. */
  function ScanBusSpec(c: Ctx, s: St, id: nat): (r: St)
    requires Ready(c, s) && s.id == id
    ensures |r.buf| == |s.buf| && r.id == Max(c.idMax, id)
    decreases c.idMax - id
  {
    if c.idMax <= id then s else ScanBusSpec(c, ScanStep(c, s), id + 1)
  }

  /** Where the bus scan from target `id` on ends. */
  function ScanBusEnd(c: Ctx, s: St, id: nat): (r: St)
    requires Ready(c, s) && s.id == id
  {
    ScanBusSpec(c, s, id)
  }

  /** One ID of the bus scan leaves the scan's end unchanged. */
  lemma ScanBusNext(c: Ctx, s: St)
    requires Ready(c, s) && s.id < c.idMax
    ensures Ready(c, ScanStep(c, s)) && ScanStep(c, s).id == s.id + 1
    ensures ScanBusEnd(c, s, s.id) == ScanBusEnd(c, ScanStep(c, s), s.id + 1)
  {
  }

  /** The same with the next state named, and the INQUIRY to LUN 0 that the step adds. */
  lemma ScanBusStep(c: Ctx, s: St) returns (s1: St)
    requires Ready(c, s) && s.id < c.idMax
    ensures Ready(c, s1) && s1.id == s.id + 1
    ensures ScanBusEnd(c, s, s.id) == ScanBusEnd(c, s1, s.id + 1)
    ensures Lun0Ids(s1.issued) == Lun0Ids(s.issued) + (if s.id == c.own then [] else [s.id])
  {
    s1 := ScanStep(c, s);
    ScanBusNext(c, s);
    if s.id != c.own {
      ScanTargetLun0(c, s);
    } else {
      assert Lun0Ids(s.issued) + [] == Lun0Ids(s.issued);
    }
  }

  /**
   * The INQUIRYs the bus scan sends to LUN 0 go to every ID from `id` up to
   * idMax except the board's own, once each, in ascending order.
   */
  lemma {:induction false} ScanBusLun0(c: Ctx, s: St, id: nat)
    requires Ready(c, s) && s.id == id
    ensures Lun0Ids(ScanBusEnd(c, s, id).issued) == Lun0Ids(s.issued) + IdsFrom(id, c.idMax, c.own)
    decreases c.idMax - id
  {
    if id < c.idMax {
      var s1 := ScanBusStep(c, s);
      ScanBusLun0(c, s1, id + 1);
      Regroup(Lun0Ids(s.issued), Lun0Ids(s1.issued), if id == c.own then [] else [id], IdsFrom(id + 1, c.idMax, c.own));
    } else {
      assert Lun0Ids(s.issued) + [] == Lun0Ids(s.issued);
    }
  }

  /** The target IDs of the INQUIRYs sent to LUN 0, in order. */
  function Lun0Ids(issued: seq<Issued>): (r: seq<int>)
  {
    if issued == [] then []
    else
      var x := issued[|issued| - 1];
      Lun0Ids(issued[..|issued| - 1]) + (if x.op == InquiryOp && x.lun == 0 then [x.id] else [])
  }

  /** The IDs from `id` up to `top`, ascending, without the board's own. */
  function IdsFrom(id: nat, top: nat, own: int): (r: seq<int>)
    decreases top - id
  {
    if top <= id then [] else (if id == own then [] else [id]) + IdsFrom(id + 1, top, own)
  }

  /** `b` extends `a` by `x`, so `b + y` extends `a` by `x + y`. */
  lemma Regroup<T>(a: seq<T>, b: seq<T>, x: seq<T>, y: seq<T>)
    requires b == a + x
    ensures b + y == a + (x + y)
  {
  }

  lemma Lun0IdsSnoc(a: seq<Issued>, x: Issued)
    ensures Lun0Ids(a + [x]) == Lun0Ids(a) + (if x.op == InquiryOp && x.lun == 0 then [x.id] else [])
  {
    assert (a + [x])[..|a|] == a;
  }

  /** The LUN loop from LUN 1 on sends no INQUIRY to LUN 0. */
  lemma {:induction false} ScanLunsLun0(c: Ctx, s: St, luns: set<nat>, lun: nat)
    requires Ready(c, s) && 1 <= lun
    ensures Lun0Ids(ScanLunsSpec(c, s, luns, lun).issued) == Lun0Ids(s.issued)
    decreases Max(c.lunMax, 8) - lun
  {
    if lun < Max(c.lunMax, 8) {
      if lun in luns {
        InquiryLun0(c, s.(lun := lun));
        ScanLunsLun0(c, DisplayInquirySpec(c, s.(lun := lun), false).st, luns, lun + 1);
      } else {
        ScanLunsLun0(c, s, luns, lun + 1);
      }
    }
  }

  /** An INQUIRY to a LUN other than 0 adds no INQUIRY to LUN 0. */
  lemma InquiryLun0(c: Ctx, s: St)
    requires Ready(c, s) && s.lun != 0
    ensures Lun0Ids(DisplayInquirySpec(c, s, false).st.issued) == Lun0Ids(s.issued)
  {
    var e := ExecuteSpec(c, s, InquiryOp, InquiryCdb(), InquiryLength);
    Lun0IdsSnoc(s.issued, Issued(InquiryOp, InquiryCdb(), s.id, s.lun, InquiryLength, e.ok));
  }

  /** One ID of the scan sends one INQUIRY to LUN 0: to that ID. */
  lemma ScanTargetLun0(c: Ctx, s: St)
    requires Ready(c, s)
    ensures Lun0Ids(ScanTargetSpec(c, s).issued) == Lun0Ids(s.issued) + [s.id]
  {
    var d := DisplayInquirySpec(c, s.(lun := 0), false);
    Lun0IdsSnoc(s.issued, d.st.issued[|s.issued|]);
    assert d.st.issued == s.issued + [d.st.issued[|s.issued|]];
    if d.ok && c.allLuns {
      var l := ReportLunsSpec(c, d.st);
      Lun0IdsSnoc(d.st.issued, l.st.issued[|d.st.issued|]);
      assert l.st.issued == d.st.issued + [l.st.issued[|d.st.issued|]];
      ScanLunsLun0(c, l.st, l.luns, 1);
    }
  }

  /** The bytes of whole sectors that fit the buffer make a data phase that fits it. */
  lemma PassFits(bytes: nat, ss: nat, bufferSize: nat)
    requires 0 < ss && bytes <= WholeSectors(bufferSize, ss)
    ensures Mul(SectorsFor(bytes, ss), ss) <= bufferSize
  {
    MulIsProduct(SectorsFor(bytes, ss), ss);
    QuotRem(bufferSize, ss);
    MulIsProduct(bufferSize / ss, ss);
    var q := bufferSize / ss;
    assert WholeSectors(bufferSize, ss) == q * ss;
    SectorsForFits(bytes, ss, q);
  }

  /** The transfer loop: its result, the chunks it moved, and the new state. */
  datatype Pass = Pass(result: DumpResult, moved: seq<Chunk>, st: St)

  /**
   * The transfer loop with `remaining` bytes still to move from sector
   * `sector` on, `pass` being the next pass's number: it is done when
   * nothing remains, and otherwise makes the next pass.
   */
  function PassesSpec(c: Ctx, s: St, image: ImageFile, ss: nat, remaining: nat, sector: nat, pass: nat): (r: Pass)
    requires Ready(c, s) && 0 < ss <= |s.buf|
    ensures Kept(s, r.st)
    decreases remaining, 1
  {
    if remaining == 0 then Pass(Done, [], s) else PassSpec(c, s, image, ss, remaining, sector, pass)
  }

  /**
   * One pass and the rest of the loop: min(remaining, step) bytes move by
   * READ(10) or WRITE(10) of the sectors that hold them, `step` being the
   * whole sectors that fit the buffer; the device's result is looked at
   * first, then the file's.
   */
  function PassSpec(c: Ctx, s: St, image: ImageFile, ss: nat, remaining: nat, sector: nat, pass: nat): (r: Pass)
    requires Ready(c, s) && 0 < ss <= |s.buf| && 0 < remaining
    ensures Kept(s, r.st)
    decreases remaining, 0
  {
    var bytes := Min(remaining, WholeSectors(|s.buf|, ss));
    var sectors := SectorsFor(bytes, ss);
    PassFits(bytes, ss, |s.buf|);
    var e := ExecuteSpec(c, s, RwOp(c.restore), ReadWriteCdb(Word(sector), Word(sectors)), Mul(sectors, ss));
    if !e.ok then Pass(DeviceError, [], e.st)
    else if !image.passOk(pass) then Pass(FileError, [], e.st)
    else
      var rest := PassesSpec(c, e.st, image, ss, remaining - bytes, sector + sectors, pass + 1);
      Pass(rest.result, [Chunk(sector, sectors, bytes)] + rest.moved, rest.st)
  }

  /** How the transfer loop ends from this point: its result and its final state. */
  function PassesEnd(c: Ctx, s: St, image: ImageFile, ss: nat, remaining: nat, sector: nat, pass: nat): (r: (DumpResult, St))
    requires Ready(c, s) && 0 < ss <= |s.buf|
  {
    var p := PassesSpec(c, s, image, ss, remaining, sector, pass);
    (p.result, p.st)
  }

  /** One pass of PassesSpec, for the loop that computes it: `e` is that pass's READ(10) or WRITE(10). */
  lemma PassesNext(c: Ctx, s: St, image: ImageFile, ss: nat, remaining: nat, sector: nat, pass: nat,
                   bytes: nat, sectors: nat, e: Tx)
    requires Ready(c, s) && 0 < ss <= |s.buf| && 0 < remaining
    requires bytes == Min(remaining, WholeSectors(|s.buf|, ss)) && sectors == SectorsFor(bytes, ss)
    requires Mul(sectors, ss) <= |s.buf|
    requires e == ExecuteSpec(c, s, RwOp(c.restore), ReadWriteCdb(Word(sector), Word(sectors)), Mul(sectors, ss))
    ensures var p := PassesSpec(c, s, image, ss, remaining, sector, pass);
      && (!e.ok ==> p.result == DeviceError && p.st == e.st)
      && (e.ok && !image.passOk(pass) ==> p.result == FileError && p.st == e.st)
      && (e.ok && image.passOk(pass) ==>
            p.result == PassesSpec(c, e.st, image, ss, remaining - bytes, sector + sectors, pass + 1).result &&
            p.st == PassesSpec(c, e.st, image, ss, remaining - bytes, sector + sectors, pass + 1).st)
  {
    assert PassesSpec(c, s, image, ss, remaining, sector, pass) == PassSpec(c, s, image, ss, remaining, sector, pass);
  }

  /** The transfer loop from the first sector; a restore that moved everything ends with SYNCHRONIZE CACHE. */
  function TransferSpec(c: Ctx, s: St, image: ImageFile, ss: nat, size: nat): (r: Pass)
    requires Ready(c, s) && 0 < ss <= |s.buf|
    ensures Kept(s, r.st)
  {
    var p := PassesSpec(c, s, image, ss, size, 0, 0);
    if p.result == Done && c.restore then Pass(Done, p.moved, ExecuteSpec(c, p.st, SynchronizeCache10Op, SynchronizeCacheCdb(), 0).st)
    else p
  }

  /** DumpRestore: its result, the block length, disk and effective sizes, the plan, the chunks moved, and the new state. */
  datatype Dump = Dump(result: DumpResult, ss: nat, disk: nat, effective: nat, plan: seq<Chunk>, moved: seq<Chunk>, st: St)

  /**
   * Device information first; then the image file must open and, for a
   * restore, tell its size; nothing to move is done at once, a sector
   * larger than the buffer is an error, and otherwise the transfer loop
   * moves the plan of whole sectors that fit the buffer; a restore that
   * moved everything ends with SYNCHRONIZE CACHE.
   */
  function DumpRestoreSpec(c: Ctx, s: St, image: ImageFile): (r: Dump)
    requires Ready(c, s)
  {
    var g := GetDeviceInfoSpec(c, s);
    if !g.ok then Dump(NoDeviceInfo, 0, 0, 0, [], [], g.st)
    else DumpDeviceSpec(c, g.st, image, g.info)
  }

  /** What DumpRestoreSpec does once the device information `info` is in. */
  function DumpDeviceSpec(c: Ctx, s: St, image: ImageFile, info: InquiryInfo): (r: Dump)
    requires Ready(c, s)
  {
    if !image.opens then Dump(CannotOpenImage, 0, 0, 0, [], [], s)
    else if c.restore && image.size.None? then Dump(NoImageSize, 0, 0, 0, [], [], s)
    else
      var ss := info.sectorSize as nat;
      var disk := DiskSize(info.capacity as nat, ss);
      var size := if c.restore then EffectiveSize(true, image.size.value, disk) else disk;
      DumpSizedSpec(c, s, image, ss, disk, size)
  }

  /** What DumpDeviceSpec does once the sector, disk and effective sizes are known. */
  function DumpSizedSpec(c: Ctx, s: St, image: ImageFile, ss: nat, disk: nat, size: nat): (r: Dump)
    requires Ready(c, s) && (0 < size ==> 0 < ss)
  {
    if size == 0 then Dump(Done, ss, disk, size, [], [], s)
    else if |s.buf| < ss then Dump(SectorLargerThanBuffer, ss, disk, size, [], [], s)
    else
      var p := TransferSpec(c, s, image, ss, size);
      Dump(p.result, ss, disk, size, BufferPlan(size, |s.buf|, ss), p.moved, p.st)
  }

  // ---------------------------------------------------------------------
  // The tool
  // ---------------------------------------------------------------------

  class ScsiDump {
    const bus: GpioBus
    const exec: PX.PhaseExecutor
    const buffer: array<byte>
    const settings: Settings
    const idMax: nat      // ControllerManager::GetScsiIdMax()
    const lunMax: nat     // ControllerManager::GetScsiLunMax()
    const window: nat     // the 3 s without REQ, as a number of polls
    const rounds: nat     // the phases one transaction may dispatch
    /** Every command sent so far. */
    ghost var issued: seq<Issued>

    predicate Valid()
    {
      && exec.bus == bus
      && 0 <= exec.initiatorId <= 7
      && MinimumBufferSize <= buffer.Length
    }

    /** The fixed part of the tool's state. */
    function Context(): (r: Ctx)
      reads bus`mode
    {
      Ctx(bus.mode, bus.peer, exec.initiatorId, window, rounds, idMax, lunMax, settings.restore, settings.allLuns)
    }

    /** The changing part of the tool's state. */
    ghost function Snap(): (r: St)
      reads this, bus, buffer, exec
    {
      St(bus.now, bus.log, buffer[..], exec.status, exec.targetId, exec.targetLun, issued)
    }

    /** The state after ParseArguments and Init: the parsed IDs, and a buffer of the chosen size. */
    constructor (b: GpioBus, s: Settings, idMax: nat, lunMax: nat, window: nat, rounds: nat)
      requires Consistent(s)
      ensures Valid() && bus == b && settings == s && fresh(exec) && fresh(buffer)
      ensures this.idMax == idMax && this.lunMax == lunMax && this.window == window && this.rounds == rounds
      ensures buffer.Length == s.bufferSize && exec.initiatorId == s.initiatorId
      ensures exec.targetId == s.targetId && exec.targetLun == s.targetLun && issued == []
    {
      bus := b;
      settings := s;
      this.idMax := idMax;
      this.lunMax := lunMax;
      this.window := window;
      this.rounds := rounds;
      exec := new PX.PhaseExecutor(b, s.initiatorId);
      buffer := new byte[s.bufferSize](_ => 0);
      issued := [];
      new;
      exec.Reset(s.targetId, s.targetLun);
    }

    /** DAT 0, BSY, SEL and ATN off. */
    method Reset()
      modifies bus`log
      ensures bus.log == old(bus.log) + ResetLog()
    {
      bus.Emit(DriveDat(0));
      bus.Emit(Drive(BSY, false));
      bus.Emit(Drive(SEL, false));
      bus.Emit(Drive(ATN, false));
    }

    /** One requested phase, as DispatchSpec. */
    method Dispatch(phase: Phase, op: byte, cdb: array<byte>, length: int) returns (d: Dispatched)
      requires Valid() && 2 <= cdb.Length && length <= buffer.Length && cdb != buffer
      modifies cdb, buffer, exec`status, bus`now, bus`log
      ensures var r := DispatchSpec(Context(), old(Snap()), phase, op, old(cdb[..]), length);
        d == r.d && Snap() == r.st && cdb[..] == r.cdb
    {
      ghost var s, c, cdb0 := Snap(), Context(), cdb[..];
      var ok: bool;
      match phase {
        case Command =>
          ok := exec.Command(op, cdb);
          assert buffer[..] == s.buf;
        case Status =>
          ok := exec.Status();
          assert buffer[..] == s.buf && cdb[..] == cdb0;
        case DataIn =>
          ok := exec.DataIn(buffer, length);
          assert cdb[..] == cdb0;
        case DataOut =>
          ok := exec.DataOut(buffer, length);
          assert buffer[..] == s.buf && cdb[..] == cdb0;
        case MsgIn =>
          ok := exec.MsgIn();
          assert buffer[..] == s.buf && cdb[..] == cdb0;
          return if ok then Complete else Thrown;
        case MsgOut =>
          ok := exec.MsgOut();
          assert buffer[..] == s.buf && cdb[..] == cdb0;
        case _ =>
          return Thrown;
      }
      d := if ok then Continue else Thrown;
    }

    /** One transaction, as ExecuteSpec. */
    method Execute(op: byte, cdb: array<byte>, length: int) returns (ok: bool)
      requires Valid() && 2 <= cdb.Length && length <= buffer.Length && cdb != buffer && 0 <= exec.targetId
      modifies cdb, buffer, exec`status, bus`now, bus`log, this`issued
      ensures var e := ExecuteSpec(Context(), old(Snap()), op, old(cdb[..]), length);
        ok == e.ok && Snap() == e.st && cdb[..] == e.cdb
    {
      ghost var built := cdb[..];
      ok := false;
      var won := exec.Arbitration();
      if !won {
        Reset();
      } else {
        var selected := exec.Selection();
        if !selected {
          Reset();
        } else {
          exec.status := 0;
          ok := Transact(op, cdb, length);
        }
      }
      issued := issued + [Issued(op, built, exec.targetId, exec.targetLun, length, ok)];
    }

    /** The dispatch loop of Execute, once the target is selected and the status cleared, as TransactSpec. */
    method Transact(op: byte, cdb: array<byte>, length: int) returns (ok: bool)
      requires Valid() && 2 <= cdb.Length && length <= buffer.Length && cdb != buffer
      modifies cdb, buffer, exec`status, bus`now, bus`log
      ensures var t := TransactSpec(Context(), old(Snap()), op, old(cdb[..]), length, 0, rounds);
        ok == t.ok && Snap() == t.st && cdb[..] == t.cdb
    {
      ghost var c := Context();
      ghost var goal := TransactEnd(c, Snap(), op, cdb[..], length, 0, rounds);
      var idle: nat := 0;
      var fuel := rounds;
      while idle < window
        invariant Context() == c
        invariant TransactEnd(c, Snap(), op, cdb[..], length, idle, fuel) == goal
        decreases fuel, window - idle
      {
        var done;
        done, ok, idle, fuel := Poll(op, cdb, length, idle, fuel, goal);
        if done {
          return;
        }
      }
      ok := false;
    }

    /**
     * One poll of the dispatch loop: without REQ one more idle poll; with
     * REQ and no phase left the transaction fails; otherwise the phase the
     * target shows, after which polling starts over.
     */
    method Poll(op: byte, cdb: array<byte>, length: int, idle: nat, fuel: nat, ghost goal: (bool, St, seq<byte>))
      returns (done: bool, ok: bool, nextIdle: nat, nextFuel: nat)
      requires Valid() && 2 <= cdb.Length && length <= buffer.Length && cdb != buffer && idle < window
      requires TransactEnd(Context(), Snap(), op, cdb[..], length, idle, fuel) == goal
      modifies cdb, buffer, exec`status, bus`now, bus`log
      ensures Context() == old(Context())
      ensures done ==> goal == (ok, Snap(), cdb[..])
      ensures !done ==> TransactEnd(Context(), Snap(), op, cdb[..], length, nextIdle, nextFuel) == goal
      ensures !done ==> nextFuel < fuel || (nextFuel == fuel && nextIdle == idle + 1)
    {
      ghost var c, before, sent := Context(), Snap(), cdb[..];
      var x := bus.Acquire();
      if REQ in x.asserted {
        if fuel == 0 {
          return true, false, idle, fuel;
        }
        TransactPoll(c, before, op, sent, length, idle, fuel);
        done, ok := Phase(x.phase, op, cdb, length, fuel);
        nextIdle, nextFuel := 0, fuel - 1;
      } else {
        TransactIdle(c, before, op, sent, length, idle, fuel);
        done, ok, nextIdle, nextFuel := false, false, idle + 1, fuel;
      }
    }

    /**
     * The REQ branch of the dispatch loop: Dispatch, then on a completion or
     * an exception the reset that ends the transaction, as PhaseSpec.
     */
    method Phase(phase: Phase, op: byte, cdb: array<byte>, length: int, ghost fuel: nat) returns (done: bool, ok: bool)
      requires Valid() && 2 <= cdb.Length && length <= buffer.Length && cdb != buffer && 0 < fuel
      modifies cdb, buffer, exec`status, bus`now, bus`log
      ensures var t := PhaseSpec(Context(), old(Snap()), phase, op, old(cdb[..]), length, fuel);
        && (done ==> ok == t.ok && Snap() == t.st && cdb[..] == t.cdb)
        && (!done ==> TransactEnd(Context(), Snap(), op, cdb[..], length, 0, fuel - 1) == (t.ok, t.st, t.cdb))
    {
      ghost var c, s, sent := Context(), Snap(), cdb[..];
      var d := Dispatch(phase, op, cdb, length);
      PhaseNext(c, s, phase, op, sent, length, fuel, DispatchSpec(c, s, phase, op, sent, length));
      done, ok := d != Continue, false;
      if done {
        ok := d == Complete && exec.status == 0;
        ghost var pre, patched := Snap(), cdb[..];
        bus.Reset();
        assert buffer[..] == pre.buf && cdb[..] == patched;
        assert Snap() == pre.(log := pre.log + [BusReset]);
      }
    }

    method TestUnitReady() returns (ok: bool)
      requires Valid() && 0 <= exec.targetId
      modifies buffer, exec`status, bus`now, bus`log, this`issued
      ensures var e := ExecuteSpec(Context(), old(Snap()), TestUnitReadyOp, TestUnitReadyCdb(), 0);
        ok == e.ok && Snap() == e.st
    {
      var cdb := NewCdb(TestUnitReadyCdb());
      ok := Execute(TestUnitReadyOp, cdb, 0);
    }

    method Inquiry() returns (ok: bool)
      requires Valid() && 0 <= exec.targetId
      modifies buffer, exec`status, bus`now, bus`log, this`issued
      ensures var e := ExecuteSpec(Context(), old(Snap()), InquiryOp, InquiryCdb(), InquiryLength);
        ok == e.ok && Snap() == e.st
    {
      var cdb := NewCdb(InquiryCdb());
      ok := Execute(InquiryOp, cdb, InquiryLength);
    }

    /** READ CAPACITY(10), then READ CAPACITY(16) when needed, as ReadCapacitySpec. */
    method ReadCapacity() returns (cap: Capacity)
      requires Valid() && 0 <= exec.targetId
      modifies buffer, exec`status, bus`now, bus`log, this`issued
      ensures var r := ReadCapacitySpec(Context(), old(Snap()));
        cap == r.cap && Snap() == r.st
    {
      ghost var c, s := Context(), Snap();
      var cdb := NewCdb(ReadCapacity10Cdb());
      var ok := Execute(ReadCapacity10Op, cdb, ReadCapacity10Length);
      ghost var e1 := ExecuteSpec(c, s, ReadCapacity10Op, ReadCapacity10Cdb(), ReadCapacity10Length);
      assert Context() == c && ok == e1.ok && Snap() == e1.st && cdb[..] == e1.cdb;
      if !ok {
        return Capacity(0, 0);
      }
      if !NeedsLong(buffer[..]) {
        return Capacity(Be32(buffer[..], 0) as bv64 + 1, Be32(buffer[..], 4));
      }
      cap := ReadCapacity16(cdb[..]);
    }

    /** The second exchange of ReadCapacity, over the CDB of the first grown to 16 bytes, as ReadCapacity16Spec. */
    method ReadCapacity16(cdb10: seq<byte>) returns (cap: Capacity)
      requires Valid() && 0 <= exec.targetId && |cdb10| == 10 && NeedsLong(buffer[..])
      modifies buffer, exec`status, bus`now, bus`log, this`issued
      ensures var r := ReadCapacity16Spec(Context(), old(Snap()), cdb10);
        cap == r.cap && Snap() == r.st
    {
      ghost var c, s := Context(), Snap();
      var cdb := NewCdb(ReadCapacity16Cdb(cdb10));
      var ok := Execute(ReadCapacity16Op, cdb, ReadCapacity16Length);
      ghost var e := ExecuteSpec(c, s, ReadCapacity16Op, ReadCapacity16Cdb(cdb10), ReadCapacity16Length);
      assert Context() == c && ok == e.ok && Snap() == e.st;
      if !ok {
        return Capacity(0, 0);
      }
      cap := Capacity(Be64(buffer[..], 0) + 1, Be32(buffer[..], 8));
    }

    /** READ(10) or WRITE(10) of `blocks` blocks from `lba`, with `length` bytes of the buffer for the data phase. */
    method ReadWrite(lba: bv32, blocks: bv32, length: int, isWrite: bool) returns (ok: bool)
      requires Valid() && 0 <= exec.targetId && length <= buffer.Length
      modifies buffer, exec`status, bus`now, bus`log, this`issued
      ensures var e := ExecuteSpec(Context(), old(Snap()), RwOp(isWrite), ReadWriteCdb(lba, blocks), length);
        ok == e.ok && Snap() == e.st
    {
      var cdb := NewCdb(ReadWriteCdb(lba, blocks));
      ok := Execute(RwOp(isWrite), cdb, length);
    }

    /** SYNCHRONIZE CACHE(10); its result is dropped. */
    method SynchronizeCache()
      requires Valid() && 0 <= exec.targetId
      modifies buffer, exec`status, bus`now, bus`log, this`issued
      ensures Snap() == ExecuteSpec(Context(), old(Snap()), SynchronizeCache10Op, SynchronizeCacheCdb(), 0).st
    {
      var cdb := NewCdb(SynchronizeCacheCdb());
      var _ := Execute(SynchronizeCache10Op, cdb, 0);
    }

    /** REPORT LUNS for 512 bytes, as ReportLunsSpec. */
    method ReportLuns() returns (luns: set<nat>)
      requires Valid() && 0 <= exec.targetId
      modifies buffer, exec`status, bus`now, bus`log, this`issued
      ensures var r := ReportLunsSpec(Context(), old(Snap()));
        luns == r.luns && Snap() == r.st
    {
      var cdb := NewCdb(ReportLunsCdb(ReportLunsLength));
      var ok := Execute(ReportLunsOp, cdb, ReportLunsLength as int);
      if !ok {
        return DefaultLuns;
      }
      luns := CollectLuns(buffer[..], lunMax);
    }

    /** INQUIRY and the fields DisplayInquiry prints, as DisplayInquirySpec. */
    method DisplayInquiry(checkType: bool) returns (ok: bool, info: InquiryInfo, shown: Option<Shown>)
      requires Valid() && 0 <= exec.targetId
      modifies buffer, exec`status, bus`now, bus`log, this`issued
      ensures var r := DisplayInquirySpec(Context(), old(Snap()), checkType);
        ok == r.ok && info == r.info && shown == r.shown && Snap() == r.st
    {
      ghost var c, s := Context(), Snap();
      var inquired := Inquiry();
      ghost var e := ExecuteSpec(c, s, InquiryOp, InquiryCdb(), InquiryLength);
      assert Context() == c && inquired == e.ok && Snap() == e.st;
      if !inquired {
        return false, NoInfo, None;
      }
      if buffer[0] & 0x1F == 0x1F {
        return false, NoInfo, None;
      }
      info := InfoOf(buffer[..]);
      shown := Some(ShownOf(buffer[..]));
      ok := !checkType || Dumpable(buffer[0]);
    }

    /** A dumpable device that is ready and reports its capacity, as GetDeviceInfoSpec. */
    method GetDeviceInfo() returns (ok: bool, info: InquiryInfo)
      requires Valid() && 0 <= exec.targetId
      modifies buffer, exec`status, bus`now, bus`log, this`issued
      ensures var r := GetDeviceInfoSpec(Context(), old(Snap()));
        ok == r.ok && info == r.info && Snap() == r.st
    {
      ghost var c, s := Context(), Snap();
      var shown;
      ok, info, shown := DisplayInquiry(true);
      ghost var d := DisplayInquirySpec(c, s, true);
      assert Context() == c && ok == d.ok && info == d.info && Snap() == d.st;
      if !ok {
        return;
      }
      ok := TestUnitReady();
      ghost var u := ExecuteSpec(c, d.st, TestUnitReadyOp, TestUnitReadyCdb(), 0);
      assert Context() == c && ok == u.ok && Snap() == u.st;
      if !ok {
        return;
      }
      var cap := ReadCapacity();
      ghost var rc := ReadCapacitySpec(c, u.st);
      assert Context() == c && cap == rc.cap && Snap() == rc.st;
      if cap.blocks == 0 || cap.sectorSize == 0 {
        return false, info;
      }
      info := info.(capacity := cap.blocks, sectorSize := cap.sectorSize);
    }

    /** The bus scan, as ScanBusSpec from ID 0. */
    method ScanBus()
      requires Valid()
      modifies buffer, exec`status, exec`targetId, exec`targetLun, bus`now, bus`log, this`issued
      ensures Snap() == ScanBusSpec(Context(), old(Snap()).(id := 0), 0)
    {
      ghost var c := Context();
      ghost var goal := ScanBusEnd(c, Snap().(id := 0), 0);
      exec.targetId := 0;
      while exec.targetId < idMax
        invariant Valid() && 0 <= exec.targetId && Context() == c
        invariant ScanBusEnd(c, Snap(), exec.targetId) == goal
        decreases idMax - exec.targetId
      {
        ScanNext(c, goal);
      }
    }

    /** One ID of the bus scan, which keeps where the scan ends. */
    method ScanNext(ghost c: Ctx, ghost goal: St)
      requires Valid() && 0 <= exec.targetId < idMax && Context() == c
      requires ScanBusEnd(c, Snap(), exec.targetId) == goal
      modifies buffer, exec`status, exec`targetId, exec`targetLun, bus`now, bus`log, this`issued
      ensures Valid() && Context() == c && exec.targetId == old(exec.targetId) + 1
      ensures ScanBusEnd(c, Snap(), exec.targetId) == goal
    {
      ScanBusNext(c, Snap());
      ScanId();
    }

    /** One ID of the bus scan: the target is scanned unless it is the board's own ID, then the next ID is chosen. */
    method ScanId()
      requires Valid() && 0 <= exec.targetId
      modifies buffer, exec`status, exec`targetId, exec`targetLun, bus`now, bus`log, this`issued
      ensures Valid() && Context() == old(Context()) && exec.targetId == old(exec.targetId) + 1
      ensures Snap() == ScanStep(Context(), old(Snap()))
    {
      if exec.targetId != exec.initiatorId {
        ScanTarget();
      }
      exec.targetId := exec.targetId + 1;
    }

    /** One ID of the bus scan, as ScanTargetSpec. */
    method ScanTarget()
      requires Valid() && 0 <= exec.targetId
      modifies buffer, exec`status, exec`targetLun, bus`now, bus`log, this`issued
      ensures Snap() == ScanTargetSpec(Context(), old(Snap()))
    {
      exec.targetLun := 0;
      var found, _, _ := DisplayInquiry(false);
      if found && settings.allLuns {
        var luns := ReportLuns();
        ScanLuns(luns);
      }
    }

    /** The LUN loop of the bus scan, as ScanLunsSpec from LUN 1. */
    method ScanLuns(luns: set<nat>)
      requires Valid() && 0 <= exec.targetId
      modifies buffer, exec`status, exec`targetLun, bus`now, bus`log, this`issued
      ensures Snap() == ScanLunsSpec(Context(), old(Snap()), luns, 1)
    {
      ghost var c := Context();
      ghost var goal := ScanLunsEnd(c, Snap(), luns, 1);
      var lun: nat := 1;
      while lun < Max(lunMax, 8)
        invariant Valid() && 0 <= exec.targetId && Context() == c
        invariant ScanLunsEnd(c, Snap(), luns, lun) == goal
        decreases Max(lunMax, 8) - lun
      {
        ScanLun(luns, lun, goal);
        lun := lun + 1;
      }
    }

    /** One LUN of the LUN loop: an INQUIRY when the target reported it. */
    method ScanLun(luns: set<nat>, lun: nat, ghost goal: St)
      requires Valid() && 0 <= exec.targetId && lun < Max(lunMax, 8)
      requires ScanLunsEnd(Context(), Snap(), luns, lun) == goal
      modifies buffer, exec`status, exec`targetLun, bus`now, bus`log, this`issued
      ensures Context() == old(Context()) && exec.targetId == old(exec.targetId)
      ensures ScanLunsEnd(Context(), Snap(), luns, lun + 1) == goal
    {
      if lun in luns {
        exec.targetLun := lun;
        var _, _, _ := DisplayInquiry(false);
      }
    }

    /** The dump or restore of the whole device, as DumpRestoreSpec. */
    method DumpRestore(image: ImageFile) returns (result: DumpResult)
      requires Valid() && 0 <= exec.targetId
      modifies buffer, exec`status, bus`now, bus`log, this`issued
      ensures var d := DumpRestoreSpec(Context(), old(Snap()), image);
        result == d.result && Snap() == d.st
    {
      ghost var c, s := Context(), Snap();
      var found, info := GetDeviceInfo();
      ghost var g := GetDeviceInfoSpec(c, s);
      assert Context() == c && found == g.ok && info == g.info && Snap() == g.st;
      if !found {
        return NoDeviceInfo;
      }
      result := DumpDevice(image, info);
    }

    /** The image file checks, the sizes and the transfer, as DumpDeviceSpec. */
    method DumpDevice(image: ImageFile, info: InquiryInfo) returns (result: DumpResult)
      requires Valid() && 0 <= exec.targetId
      modifies buffer, exec`status, bus`now, bus`log, this`issued
      ensures var d := DumpDeviceSpec(Context(), old(Snap()), image, info);
        result == d.result && Snap() == d.st
    {
      ghost var c, s := Context(), Snap();
      if !image.opens {
        return CannotOpenImage;
      }
      if settings.restore && image.size.None? {
        return NoImageSize;
      }
      var ss := info.sectorSize as nat;
      var diskSize := DiskSize(info.capacity as nat, ss);
      var size := diskSize;
      if settings.restore {
        size := EffectiveSize(true, image.size.value, diskSize);
      }
      if size == 0 {
        return Done;
      }
      if buffer.Length < ss {
        return SectorLargerThanBuffer;
      }
      result := Transfer(image, size, ss);
      ghost var p := TransferSpec(c, s, image, ss, size);
      assert Context() == c && result == p.result && Snap() == p.st;
    }

    /** The transfer loop, then SYNCHRONIZE CACHE after a restore that moved everything, as TransferSpec. */
    method Transfer(image: ImageFile, size: nat, ss: nat) returns (result: DumpResult)
      requires Valid() && 0 <= exec.targetId && 0 < ss <= buffer.Length
      modifies buffer, exec`status, bus`now, bus`log, this`issued
      ensures var p := TransferSpec(Context(), old(Snap()), image, ss, size);
        result == p.result && Snap() == p.st
    {
      result := Passes(image, size, ss);
      if result == Done && settings.restore {
        SynchronizeCache();
      }
    }

    /** The transfer loop, as PassesSpec from the first sector. */
    method Passes(image: ImageFile, size: nat, ss: nat) returns (result: DumpResult)
      requires Valid() && 0 <= exec.targetId && 0 < ss <= buffer.Length
      modifies buffer, exec`status, bus`now, bus`log, this`issued
      ensures var p := PassesSpec(Context(), old(Snap()), image, ss, size, 0, 0);
        result == p.result && Snap() == p.st
    {
      ghost var c := Context();
      ghost var goal := PassesEnd(c, Snap(), image, ss, size, 0, 0);
      var sectorOffset: nat := 0;
      var remaining: nat := size;
      var pass: nat := 0;
      while remaining > 0
        invariant Context() == c
        invariant PassesEnd(c, Snap(), image, ss, remaining, sectorOffset, pass) == goal
        decreases remaining
      {
        var ok, byteCount, sectorCount := Pass(image, ss, remaining, sectorOffset, pass, goal);
        if !ok {
          return DeviceError;
        }
        if !image.passOk(pass) {
          return FileError;
        }
        sectorOffset := sectorOffset + sectorCount;
        remaining := remaining - byteCount;
        pass := pass + 1;
      }
      result := Done;
    }

    /**
     * One pass of the transfer loop: min(remaining, step) bytes in the
     * sectors that hold them by READ(10) or WRITE(10), as PassesSpec; `ok`
     * is the device's result.
     */
    method Pass(image: ImageFile, ss: nat, remaining: nat, sector: nat, pass: nat, ghost goal: (DumpResult, St)) returns (ok: bool, bytes: nat, sectors: nat)
      requires Valid() && 0 <= exec.targetId && 0 < ss <= buffer.Length && 0 < remaining
      requires PassesEnd(Context(), Snap(), image, ss, remaining, sector, pass) == goal
      modifies buffer, exec`status, bus`now, bus`log, this`issued
      ensures Context() == old(Context())
      ensures 0 < bytes <= remaining && bytes == Min(remaining, WholeSectors(buffer.Length, ss)) && sectors == SectorsFor(bytes, ss)
      ensures !ok ==> goal == (DeviceError, Snap())
      ensures ok && !image.passOk(pass) ==> goal == (FileError, Snap())
      ensures ok && image.passOk(pass) ==>
        PassesEnd(Context(), Snap(), image, ss, remaining - bytes, sector + sectors, pass + 1) == goal
    {
      ghost var c, before := Context(), Snap();
      bytes := Min(remaining, WholeSectors(buffer.Length, ss));
      sectors := SectorsFor(bytes, ss);
      PassFits(bytes, ss, buffer.Length);
      ok := ReadWrite(Word(sector), Word(sectors), Mul(sectors, ss), settings.restore);
      PassesNext(c, before, image, ss, remaining, sector, pass, bytes, sectors,
                 ExecuteSpec(c, before, RwOp(c.restore), ReadWriteCdb(Word(sector), Word(sectors)), Mul(sectors, ss)));
    }
  }
}
