/**
 * What ScsiDump's specification functions promise beyond one call: how a
 * transaction's result follows from the phases the target requested, which
 * commands each operation sends (read off the list of commands sent), which
 * IDs and LUNs the bus scan addresses, and which chunks the dump/restore
 * loop moves with which READ(10) or WRITE(10) commands.
 */
module ScsiDumpFacts {
  import opened Bus
  import opened GpioBus
  import PX = PhaseExecutor
  import opened ScsiCommands
  import opened DumpPlan
  import opened InquiryData
  import opened ScsiDump

  // ---------------------------------------------------------------------
  // Transactions
  // ---------------------------------------------------------------------

  /**
   * Only MESSAGE IN completes; a phase Dispatch does not handle throws and
   * changes nothing; only STATUS stores a status, only DATA IN fills the
   * buffer, only COMMAND changes the CDB, and no phase sends a command.
   */
  lemma DispatchFacts(c: Ctx, s: St, phase: Phase, op: byte, cdb: seq<byte>, length: int)
    requires 2 <= |cdb| && length <= |s.buf|
    ensures var r := DispatchSpec(c, s, phase, op, cdb, length);
      && (r.d == Complete ==> phase == MsgIn)
      && (!Handled(phase) ==> r.d == Thrown && r.st == s && r.cdb == cdb)
      && (phase != Status ==> r.st.status == s.status)
      && (phase != DataIn ==> r.st.buf == s.buf)
      && (phase != Command ==> r.cdb == cdb)
  {
  }

  /**
   * Each handled phase against the handshake it makes: COMMAND sends the
   * patched CDB and goes on iff all of it went; STATUS goes on iff its one
   * byte came, and then that byte is the status; DATA IN takes what the
   * receive wrote and goes on iff a byte came; DATA OUT goes on iff a byte
   * went; MESSAGE OUT goes on iff IDENTIFY went; MESSAGE IN never goes on,
   * and completes iff its byte came and is COMMAND COMPLETE (0).
   */
  lemma DispatchPhases(c: Ctx, s: St, phase: Phase, op: byte, cdb: seq<byte>, length: int)
    requires 2 <= |cdb| && length <= |s.buf|
    ensures var r := DispatchSpec(c, s, phase, op, cdb, length);
      var one := ReceiveSpec(c.mode, c.peer, s.now, [0], 1);
      && (phase == Command ==>
            && r.cdb == PX.PatchCdb(cdb, op, s.lun)
            && (r.d == Continue <==> SendSpec(c.mode, c.peer, s.now, r.cdb, |r.cdb|, SendNoDelay).count == |r.cdb|))
      && (phase == Status ==> (r.d == Continue <==> one.count == 1) && (r.d == Continue ==> r.st.status == one.buf[0] as int))
      && (phase == DataIn ==>
            var o := ReceiveSpec(c.mode, c.peer, s.now, s.buf, length);
            r.st.buf == o.buf && (r.d == Continue <==> o.count != 0))
      && (phase == DataOut ==> (r.d == Continue <==> SendSpec(c.mode, c.peer, s.now, s.buf, length, SendNoDelay).count != 0))
      && (phase == MsgOut ==> (r.d == Continue <==> SendSpec(c.mode, c.peer, s.now, [PX.IdentifyByte(s.lun)], 1, SendNoDelay).count == 1))
      && (phase == MsgIn ==> r.d != Continue && (r.d == Complete <==> one.count == 1 && one.buf[0] == 0))
  {
  }

  /** The bus was reset last. */
  predicate ResetLast(t: Tx)
  {
    t.st.log != [] && t.st.log[|t.st.log| - 1] == BusReset
  }

  /**
   * The dispatch loop succeeds iff it ended in a completed MESSAGE IN and
   * the status stored is 0; a completed transaction's last phase is MESSAGE
   * IN; a completion or an exception resets the bus last; and it ends in
   * one of those two ways, or by the REQ window or the phase budget.
   */
  lemma {:induction false} TransactOutcome(c: Ctx, s: St, op: byte, cdb: seq<byte>, length: int, idle: nat, fuel: nat)
    requires 2 <= |cdb| && length <= |s.buf|
    ensures var r := TransactSpec(c, s, op, cdb, length, idle, fuel);
      && (r.ok <==> r.end == Completed && r.st.status == 0)
      && (r.end == Completed ==> r.phases != [] && r.phases[|r.phases| - 1] == MsgIn)
      && (r.end == Completed || r.end == Threw ==> ResetLast(r))
      && (r.end == Completed || r.end == Threw || r.end == TimedOut || r.end == OutOfRounds)
    decreases fuel, c.window - idle
  {
    if idle < c.window {
      var x := c.peer.samples(s.now);
      var s1 := s.(now := s.now + 1);
      if REQ !in x.asserted {
        TransactOutcome(c, s1, op, cdb, length, idle + 1, fuel);
      } else if fuel != 0 {
        PhaseOutcome(c, s1, x.phase, op, cdb, length, fuel);
      }
    }
  }

  /** TransactOutcome for the loop after one requested phase. */
  lemma {:induction false} PhaseOutcome(c: Ctx, s: St, phase: Phase, op: byte, cdb: seq<byte>, length: int, fuel: nat)
    requires 2 <= |cdb| && length <= |s.buf| && 0 < fuel
    ensures var r := PhaseSpec(c, s, phase, op, cdb, length, fuel);
      && (r.ok <==> r.end == Completed && r.st.status == 0)
      && (r.end == Completed ==> r.phases != [] && r.phases[|r.phases| - 1] == MsgIn)
      && (r.end == Completed || r.end == Threw ==> ResetLast(r))
      && (r.end == Completed || r.end == Threw || r.end == TimedOut || r.end == OutOfRounds)
    decreases fuel, 0
  {
    var r := DispatchSpec(c, s, phase, op, cdb, length);
    DispatchFacts(c, s, phase, op, cdb, length);
    if r.d == Continue {
      TransactOutcome(c, r.st, op, r.cdb, length, 0, fuel - 1);
    }
  }

  /**
   * Execute succeeds iff the transaction completed with status 0; it is
   * lost iff arbitration failed, and unselected iff arbitration succeeded
   * but selection failed; it sends exactly one command.
   */
  lemma ExecuteOutcome(c: Ctx, s: St, op: byte, cdb: seq<byte>, length: int)
    requires 0 <= c.own && 0 <= s.id && 2 <= |cdb| && length <= |s.buf|
    ensures var e := ExecuteSpec(c, s, op, cdb, length);
      var a := PX.ArbitrationSpec(c.peer, s.now, c.own, s.id);
      && (e.ok <==> e.end == Completed && e.st.status == 0)
      && (e.end == Lost <==> !a.ok)
      && (e.end == NotSelected <==> a.ok && !PX.SelectionSpec(c.peer, a.next, c.own, s.id).ok)
      && (e.end == Completed ==> e.phases != [] && e.phases[|e.phases| - 1] == MsgIn)
      && e.st.issued == s.issued + [Issued(op, cdb, s.id, s.lun, length, e.ok)]
  {
    var a := PX.ArbitrationSpec(c.peer, s.now, c.own, s.id);
    var sel := PX.SelectionSpec(c.peer, a.next, c.own, s.id);
    if a.ok && sel.ok {
      TransactOutcome(c, s.(now := sel.next, log := s.log + a.log + sel.log, status := 0), op, cdb, length, 0, c.rounds);
    }
  }

  // ---------------------------------------------------------------------
  // The commands each operation sends
  // ---------------------------------------------------------------------

  /**
   * READ CAPACITY sends READ CAPACITY(10) to the addressed target and LUN,
   * and READ CAPACITY(16) exactly when the first reply asks for it; `first`
   * is there iff the first command succeeded and `second` iff the second
   * did; the pair is decoded from those replies.
   */
  lemma ReadCapacityFacts(c: Ctx, s: St)
    requires Ready(c, s)
    ensures var r := ReadCapacitySpec(c, s); var n := |s.issued|;
      && r.cap == ReadCapacityResult(r.first, r.second)
      && |r.st.issued| == n + (if r.first.Some? && NeedsLong(r.first.value) then 2 else 1)
      && r.st.issued[..n] == s.issued
      && r.st.issued[n] == Issued(ReadCapacity10Op, ReadCapacity10Cdb(), s.id, s.lun, ReadCapacity10Length, r.first.Some?)
      && (|r.st.issued| == n + 2 ==>
            && r.st.issued[n + 1].op == ReadCapacity16Op && |r.st.issued[n + 1].cdb| == 16
            && r.st.issued[n + 1].id == s.id && r.st.issued[n + 1].lun == s.lun
            && r.st.issued[n + 1].length == ReadCapacity16Length && r.st.issued[n + 1].ok == r.second.Some?)
  {
    var e1 := ExecuteSpec(c, s, ReadCapacity10Op, ReadCapacity10Cdb(), ReadCapacity10Length);
    if e1.ok && NeedsLong(e1.st.buf) {
      var e2 := ExecuteSpec(c, e1.st, ReadCapacity16Op, ReadCapacity16Cdb(e1.cdb), ReadCapacity16Length);
      assert ReadCapacitySpec(c, s) == ReadCapacity16Spec(c, e1.st, e1.cdb);
      assert e2.st.issued == s.issued + [e1.st.issued[|s.issued|]] + [e2.st.issued[|s.issued| + 1]];
    }
  }

  /** REPORT LUNS sends one command, and the LUNs are those of its reply iff it succeeded. */
  lemma ReportLunsFacts(c: Ctx, s: St)
    requires Ready(c, s)
    ensures var r := ReportLunsSpec(c, s); var n := |s.issued|;
      && |r.st.issued| == n + 1 && r.st.issued[..n] == s.issued
      && r.st.issued[n].op == ReportLunsOp && r.st.issued[n].cdb == ReportLunsCdb(ReportLunsLength)
      && r.st.issued[n].id == s.id && r.st.issued[n].lun == s.lun
      && r.luns == if r.st.issued[n].ok then ReportedLuns(r.st.buf, c.lunMax) else DefaultLuns
  {
  }

  /** The operation, target ID and LUN of a command sent. */
  datatype Address = Address(op: byte, id: int, lun: int)

  /** The address of a command sent. */
  function AddressOf(x: Issued): (r: Address)
  {
    Address(x.op, x.id, x.lun)
  }

  /** The address of every command sent, in order. */
  function Addresses(issued: seq<Issued>): (r: seq<Address>)
  {
    seq(|issued|, k requires 0 <= k < |issued| => AddressOf(issued[k]))
  }

  lemma AddressesAppend(a: seq<Issued>, b: seq<Issued>)
    ensures Addresses(a + b) == Addresses(a) + Addresses(b)
  {
  }

  /** Execute sends one command, to the addressed target and LUN. */
  lemma ExecuteAddresses(c: Ctx, s: St, op: byte, cdb: seq<byte>, length: int)
    requires 0 <= c.own && 0 <= s.id && 2 <= |cdb| && length <= |s.buf|
    ensures Addresses(ExecuteSpec(c, s, op, cdb, length).st.issued) == Addresses(s.issued) + [Address(op, s.id, s.lun)]
  {
    var e := ExecuteSpec(c, s, op, cdb, length);
    AddressesAppend(s.issued, [Issued(op, cdb, s.id, s.lun, length, e.ok)]);
  }

  /**
   * DisplayInquiry sends one INQUIRY, to the addressed target and LUN; it
   * shows the reply's fields iff that command succeeded and the LUN is
   * present.
   */
  lemma DisplayInquiryFacts(c: Ctx, s: St, checkType: bool)
    requires Ready(c, s)
    ensures var r := DisplayInquirySpec(c, s, checkType);
      && Addresses(r.st.issued) == Addresses(s.issued) + [Address(InquiryOp, s.id, s.lun)]
      && r.st.issued[|s.issued|].cdb == InquiryCdb() && r.st.issued[|s.issued|].length == InquiryLength
      && (r.shown.Some? <==> r.st.issued[|s.issued|].ok && !LunAbsent(r.st.buf))
      && (r.ok ==> r.shown.Some?)
  {
    ExecuteAddresses(c, s, InquiryOp, InquiryCdb(), InquiryLength);
  }

  /** REPORT LUNS sends one command, to the addressed target and LUN. */
  lemma ReportLunsAddresses(c: Ctx, s: St)
    requires Ready(c, s)
    ensures Addresses(ReportLunsSpec(c, s).st.issued) == Addresses(s.issued) + [Address(ReportLunsOp, s.id, s.lun)]
  {
    ExecuteAddresses(c, s, ReportLunsOp, ReportLunsCdb(ReportLunsLength), ReportLunsLength as int);
  }

  /**
   * After INQUIRY, GetDeviceInfo sends TEST UNIT READY, and on success
   * READ CAPACITY(10), to the addressed target and LUN; it succeeds only
   * when both did.
   */
  lemma DeviceReadyFacts(c: Ctx, s: St, info: InquiryInfo)
    requires Ready(c, s)
    ensures var g := DeviceReadySpec(c, s, info); var n := |s.issued|; var sent := g.st.issued;
      && n < |sent| && sent[..n] == s.issued && AddressOf(sent[n]) == Address(TestUnitReadyOp, s.id, s.lun)
      && (g.ok ==>
            && n + 2 <= |sent| && AddressOf(sent[n + 1]) == Address(ReadCapacity10Op, s.id, s.lun)
            && sent[n].ok && sent[n + 1].ok)
  {
    var t := ExecuteSpec(c, s, TestUnitReadyOp, TestUnitReadyCdb(), 0);
    assert |t.st.issued| == |s.issued| + 1;
    if t.ok {
      var rc := ReadCapacitySpec(c, t.st);
      assert DeviceReadySpec(c, s, info).st == rc.st;
      ReadCapacityFacts(c, t.st);
      ReadCapacityResultFacts(rc.first, rc.second);
      OneBefore(rc.st.issued, s.issued, t.st.issued[|s.issued|]);
    }
  }

  /**
   * GetDeviceInfo sends INQUIRY first, to the addressed target and LUN, and
   * nothing else when DisplayInquiry fails; one that succeeds sent INQUIRY,
   * TEST UNIT READY and READ CAPACITY(10), in that order, to that target
   * and LUN, and each of them succeeded.
   */
  lemma GetDeviceInfoFacts(c: Ctx, s: St)
    requires Ready(c, s)
    ensures var g := GetDeviceInfoSpec(c, s); var n := |s.issued|;
      && n < |g.st.issued| && g.st.issued[..n] == s.issued && AddressOf(g.st.issued[n]) == Address(InquiryOp, s.id, s.lun)
      && (!DisplayInquirySpec(c, s, true).ok ==> |g.st.issued| == n + 1)
      && (g.ok ==>
            && n + 3 <= |g.st.issued|
            && Addresses(g.st.issued[n..n + 3]) == [Address(InquiryOp, s.id, s.lun), Address(TestUnitReadyOp, s.id, s.lun), Address(ReadCapacity10Op, s.id, s.lun)]
            && Succeeded(g.st.issued[n..n + 3]))
  {
    var d := DisplayInquirySpec(c, s, true);
    var e := ExecuteSpec(c, s, InquiryOp, InquiryCdb(), InquiryLength);
    var x := Issued(InquiryOp, InquiryCdb(), s.id, s.lun, InquiryLength, e.ok);
    assert d.st.issued == e.st.issued == s.issued + [x];
    if d.ok {
      assert GetDeviceInfoSpec(c, s) == DeviceReadySpec(c, d.st, d.info);
      DeviceReadyAfter(c, d.st, d.info, s.issued, x);
    }
  }

  /** DeviceReadyFacts after the INQUIRY `x`, which followed the commands `pre`. */
  lemma DeviceReadyAfter(c: Ctx, s: St, info: InquiryInfo, pre: seq<Issued>, x: Issued)
    requires Ready(c, s) && s.issued == pre + [x] && x.ok && AddressOf(x) == Address(InquiryOp, s.id, s.lun)
    ensures var g := DeviceReadySpec(c, s, info); var n := |pre|;
      && n < |g.st.issued| && g.st.issued[..n] == pre && g.st.issued[n] == x
      && (g.ok ==>
            && n + 3 <= |g.st.issued|
            && Addresses(g.st.issued[n..n + 3]) == [Address(InquiryOp, s.id, s.lun), Address(TestUnitReadyOp, s.id, s.lun), Address(ReadCapacity10Op, s.id, s.lun)]
            && Succeeded(g.st.issued[n..n + 3]))
  {
    var g := DeviceReadySpec(c, s, info);
    DeviceReadyFacts(c, s, info);
    OneBefore(g.st.issued, pre, x);
    Behind(pre, x, s.issued, g.st.issued, g.ok, s.id, s.lun);
  }

  /** Every command of `sent` succeeded. */
  predicate Succeeded(sent: seq<Issued>)
  {
    forall k :: 0 <= k < |sent| ==> sent[k].ok
  }

  /** A list that starts with `pre` and `x` holds `x` after `pre`. */
  lemma OneBefore(sent: seq<Issued>, pre: seq<Issued>, x: Issued)
    requires |pre| + 1 < |sent| && sent[..|pre| + 1] == pre + [x]
    ensures sent[..|pre|] == pre && sent[|pre|] == x
  {
    assert sent[..|pre|] == (sent[..|pre| + 1])[..|pre|];
  }

  /** The facts of DeviceReadyFacts, counted from before the INQUIRY `x`. */
  lemma Behind(pre: seq<Issued>, x: Issued, mid: seq<Issued>, sent: seq<Issued>, ok: bool, id: int, lun: int)
    requires mid == pre + [x] && AddressOf(x) == Address(InquiryOp, id, lun)
    requires |mid| < |sent| && sent[..|mid|] == mid && AddressOf(sent[|mid|]) == Address(TestUnitReadyOp, id, lun)
    requires ok ==>
      && |mid| + 2 <= |sent| && AddressOf(sent[|mid| + 1]) == Address(ReadCapacity10Op, id, lun)
      && x.ok && sent[|mid|].ok && sent[|mid| + 1].ok
    ensures ok ==>
      && |pre| + 3 <= |sent|
      && Addresses(sent[|pre|..|pre| + 3]) == [Address(InquiryOp, id, lun), Address(TestUnitReadyOp, id, lun), Address(ReadCapacity10Op, id, lun)]
      && Succeeded(sent[|pre|..|pre| + 3])
  {
    if ok {
      var w := sent[|pre|..|pre| + 3];
      assert w[0] == x && w[1] == sent[|mid|] && w[2] == sent[|mid| + 1];
    }
  }

  // ---------------------------------------------------------------------
  // The bus scan
  // ---------------------------------------------------------------------

  /** The INQUIRYs the LUN loop sends to target `id`: one per LUN of `luns` from `lun` up to `top`, ascending. */
  function LunProbes(id: int, luns: set<nat>, lun: nat, top: nat): (r: seq<Address>)
    decreases top - lun
  {
    if top <= lun then []
    else (if lun in luns then [Address(InquiryOp, id, lun)] else []) + LunProbes(id, luns, lun + 1, top)
  }

  /** One LUN of the LUN loop: the state `s1` it leaves, having sent an INQUIRY exactly when the LUN is in the set. */
  lemma ScanLunStep(c: Ctx, s: St, luns: set<nat>, lun: nat) returns (s1: St)
    requires Ready(c, s) && lun < Max(c.lunMax, 8)
    ensures Ready(c, s1) && s1.id == s.id
    ensures ScanLunsEnd(c, s, luns, lun) == ScanLunsEnd(c, s1, luns, lun + 1)
    ensures Addresses(s1.issued) == Addresses(s.issued) + (if lun in luns then [Address(InquiryOp, s.id, lun)] else [])
  {
    if lun in luns {
      s1 := DisplayInquirySpec(c, s.(lun := lun), false).st;
      DisplayInquiryFacts(c, s.(lun := lun), false);
    } else {
      s1 := s;
      assert Addresses(s.issued) + [] == Addresses(s.issued);
    }
  }

  /** The LUN loop sends exactly an INQUIRY to each LUN of the set below max(lunMax, 8), ascending, and nothing else. */
  lemma {:induction false} ScanLunsProbes(c: Ctx, s: St, luns: set<nat>, lun: nat)
    requires Ready(c, s)
    ensures Addresses(ScanLunsEnd(c, s, luns, lun).issued) == Addresses(s.issued) + LunProbes(s.id, luns, lun, Max(c.lunMax, 8))
    decreases Max(c.lunMax, 8) - lun
  {
    var top := Max(c.lunMax, 8);
    if lun < top {
      var s1 := ScanLunStep(c, s, luns, lun);
      ScanLunsProbes(c, s1, luns, lun + 1);
      var here := if lun in luns then [Address(InquiryOp, s.id, lun)] else [];
      assert LunProbes(s.id, luns, lun, top) == here + LunProbes(s.id, luns, lun + 1, top);
      AppendAssoc(Addresses(s.issued), here, LunProbes(s.id, luns, lun + 1, top));
    } else {
      assert LunProbes(s.id, luns, lun, top) == [];
      assert Addresses(s.issued) + [] == Addresses(s.issued);
    }
  }

  /**
   * One ID of the scan: INQUIRY to LUN 0; then, only when LUN 0 answered
   * and all LUNs are wanted, REPORT LUNS to LUN 0 and an INQUIRY to each
   * further LUN REPORT LUNS gave.
   */
  lemma ScanTargetProbes(c: Ctx, s: St)
    requires Ready(c, s)
    ensures var d := DisplayInquirySpec(c, s.(lun := 0), false);
      Addresses(ScanTargetSpec(c, s).issued) == Addresses(s.issued) + [Address(InquiryOp, s.id, 0)] +
        (if d.ok && c.allLuns
         then [Address(ReportLunsOp, s.id, 0)] + LunProbes(s.id, ReportLunsSpec(c, d.st).luns, 1, Max(c.lunMax, 8))
         else [])
  {
    var d := DisplayInquirySpec(c, s.(lun := 0), false);
    DisplayInquiryFacts(c, s.(lun := 0), false);
    var head := Addresses(s.issued) + [Address(InquiryOp, s.id, 0)];
    if d.ok && c.allLuns {
      var l := ReportLunsSpec(c, d.st);
      var probes := LunProbes(s.id, l.luns, 1, Max(c.lunMax, 8));
      ReportLunsAddresses(c, d.st);
      ScanLunsProbes(c, l.st, l.luns, 1);
      assert ScanLunsEnd(c, l.st, l.luns, 1) == ScanLunsSpec(c, l.st, l.luns, 1);
      AppendAssoc(head, [Address(ReportLunsOp, s.id, 0)], probes);
    } else {
      assert head + [] == head;
    }
  }

  // ---------------------------------------------------------------------
  // The dump/restore loop
  // ---------------------------------------------------------------------

  /** The READ(10) (dump) or WRITE(10) (restore) that moves chunk `ch`, recorded with its outcome `ok`. */
  function ChunkCommand(restore: bool, id: int, lun: int, ss: nat, ch: Chunk, ok: bool): (r: Issued)
  {
    Issued(RwOp(restore), ReadWriteCdb(Word(ch.sector), Word(ch.sectors)), id, lun, Mul(ch.sectors, ss), ok)
  }

  /** The commands that moved `chunks`, in order, each one succeeding. */
  function ChunkCommands(restore: bool, id: int, lun: int, ss: nat, chunks: seq<Chunk>): (r: seq<Issued>)
  {
    if chunks == [] then [] else [ChunkCommand(restore, id, lun, ss, chunks[0], true)] + ChunkCommands(restore, id, lun, ss, chunks[1..])
  }

  /** PassesSpec, as the lemmas about a loop's outcome take it. */
  function PassesOf(c: Ctx, s: St, image: ImageFile, ss: nat, remaining: nat, sector: nat, pass: nat): (r: Pass)
    requires Ready(c, s) && 0 < ss <= |s.buf|
  {
    PassesSpec(c, s, image, ss, remaining, sector, pass)
  }

  /**
   * One pass: `e` is its READ(10) or WRITE(10), whose command is recorded; a
   * failed command or file access stops the loop, otherwise the chunk is
   * moved and the loop goes on.
   */
  lemma PassStep(c: Ctx, s: St, image: ImageFile, ss: nat, remaining: nat, sector: nat, pass: nat) returns (e: Tx)
    requires Ready(c, s) && 0 < ss <= |s.buf| && 0 < remaining
    ensures Ready(c, e.st) && |e.st.buf| == |s.buf| && e.st.id == s.id && e.st.lun == s.lun
    ensures var bytes := Min(remaining, WholeSectors(|s.buf|, ss));
      var ch := Chunk(sector, SectorsFor(bytes, ss), bytes);
      var p := PassesOf(c, s, image, ss, remaining, sector, pass);
      && e.st.issued == s.issued + [ChunkCommand(c.restore, s.id, s.lun, ss, ch, e.ok)]
      && (!e.ok ==> p == Pass(DeviceError, [], e.st))
      && (e.ok && !image.passOk(pass) ==> p == Pass(FileError, [], e.st))
      && (e.ok && image.passOk(pass) ==>
            var rest := PassesOf(c, e.st, image, ss, remaining - bytes, sector + ch.sectors, pass + 1);
            p == Pass(rest.result, [ch] + rest.moved, rest.st))
  {
    var bytes := Min(remaining, WholeSectors(|s.buf|, ss));
    var sectors := SectorsFor(bytes, ss);
    PassFits(bytes, ss, |s.buf|);
    e := ExecuteSpec(c, s, RwOp(c.restore), ReadWriteCdb(Word(sector), Word(sectors)), Mul(sectors, ss));
    PassCommand(c, s, ss, bytes, sector);
    assert PassesSpec(c, s, image, ss, remaining, sector, pass) == PassSpec(c, s, image, ss, remaining, sector, pass);
  }

  /** The READ(10) or WRITE(10) of one pass, moving `bytes` from `sector` on, is recorded as ChunkCommand says. */
  lemma PassCommand(c: Ctx, s: St, ss: nat, bytes: nat, sector: nat)
    requires Ready(c, s) && 0 < ss && Mul(SectorsFor(bytes, ss), ss) <= |s.buf|
    ensures var sectors := SectorsFor(bytes, ss);
      var e := ExecuteSpec(c, s, RwOp(c.restore), ReadWriteCdb(Word(sector), Word(sectors)), Mul(sectors, ss));
      && Ready(c, e.st) && |e.st.buf| == |s.buf| && e.st.id == s.id && e.st.lun == s.lun
      && e.st.issued == s.issued + [ChunkCommand(c.restore, s.id, s.lun, ss, Chunk(sector, sectors, bytes), e.ok)]
  {
  }

  /**
   * A transfer loop that ended in `p`, started with the commands `pre` sent
   * and the chunks `plan` to move: it moved a prefix of the plan, all of it
   * exactly when it is done, and otherwise stopped with a device or a file
   * error; it sent one READ(10) or WRITE(10) per chunk moved and, when it
   * stopped early, the one of the next chunk, which failed or whose file
   * access failed.
   */
  predicate Moved(p: Pass, plan: seq<Chunk>, pre: seq<Issued>, restore: bool, id: int, lun: int, ss: nat)
  {
    var sent := pre + ChunkCommands(restore, id, lun, ss, p.moved);
    && (p.result == Done || p.result == DeviceError || p.result == FileError)
    && |p.moved| <= |plan| && p.moved == plan[..|p.moved|]
    && (p.result == Done <==> p.moved == plan)
    && (p.result == Done ==> p.st.issued == sent)
    && (p.result != Done ==>
          |p.moved| < |plan| &&
          p.st.issued == sent + [ChunkCommand(restore, id, lun, ss, plan[|p.moved|], p.result == FileError)])
  }

  /** A loop that stops at its first chunk `ch`, the command of which was recorded with outcome `ok`. */
  lemma MovedStop(p: Pass, ch: Chunk, planR: seq<Chunk>, pre: seq<Issued>, restore: bool, id: int, lun: int, ss: nat, ok: bool)
    requires p.moved == [] && (p.result == DeviceError || p.result == FileError) && ok == (p.result == FileError)
    requires p.st.issued == pre + [ChunkCommand(restore, id, lun, ss, ch, ok)]
    ensures Moved(p, [ch] + planR, pre, restore, id, lun, ss)
  {
    assert ChunkCommands(restore, id, lun, ss, []) == [];
    assert pre + [] == pre;
  }

  /** A loop that moved its first chunk `ch` and then ended as `r` did. */
  lemma MovedCons(p: Pass, r: Pass, ch: Chunk, planR: seq<Chunk>, pre: seq<Issued>, mid: seq<Issued>,
                  restore: bool, id: int, lun: int, ss: nat)
    requires p == Pass(r.result, [ch] + r.moved, r.st)
    requires mid == pre + [ChunkCommand(restore, id, lun, ss, ch, true)]
    requires Moved(r, planR, mid, restore, id, lun, ss)
    ensures Moved(p, [ch] + planR, pre, restore, id, lun, ss)
  {
    ConsPrefix(ch, r.moved, planR);
    CommandsCons(restore, id, lun, ss, ch, r.moved);
    var cs := ChunkCommands(restore, id, lun, ss, r.moved);
    var x := ChunkCommand(restore, id, lun, ss, ch, true);
    if r.result == Done {
      Regroup3(pre, x, mid, cs, []);
    } else {
      Regroup3(pre, x, mid, cs, [ChunkCommand(restore, id, lun, ss, planR[|r.moved|], r.result == FileError)]);
    }
  }

  /** Prefixing one element keeps a prefix a prefix, an equality an equality, and the element that follows. */
  lemma ConsPrefix<T>(x: T, a: seq<T>, b: seq<T>)
    requires |a| <= |b| && a == b[..|a|]
    ensures |[x] + a| <= |[x] + b| && [x] + a == ([x] + b)[..|[x] + a|]
    ensures [x] + a == [x] + b <==> a == b
    ensures |a| < |b| ==> ([x] + b)[|[x] + a|] == b[|a|]
  {
    if [x] + a == [x] + b {
      assert a == ([x] + a)[1..] == ([x] + b)[1..] == b;
    }
  }

  lemma CommandsCons(restore: bool, id: int, lun: int, ss: nat, ch: Chunk, m: seq<Chunk>)
    ensures ChunkCommands(restore, id, lun, ss, [ch] + m) == [ChunkCommand(restore, id, lun, ss, ch, true)] + ChunkCommands(restore, id, lun, ss, m)
  {
    assert ([ch] + m)[1..] == m;
  }

  lemma Regroup3<T>(pre: seq<T>, x: T, mid: seq<T>, cs: seq<T>, last: seq<T>)
    requires mid == pre + [x]
    ensures mid + cs + last == pre + ([x] + cs) + last
  {
  }

  /**
   * The transfer loop ends as Moved says, against the plan of `step`
   * bytes a pass, `step` being the whole sectors that fit the buffer, with
   * the commands addressed to target `id` and LUN `lun`.
   */
  lemma {:induction false} PassesFacts(c: Ctx, s: St, image: ImageFile, ss: nat, step: nat, id: int, lun: int,
                                       remaining: nat, sector: nat, pass: nat)
    requires Ready(c, s) && 0 < ss <= |s.buf| && step == WholeSectors(|s.buf|, ss) && id == s.id && lun == s.lun
    ensures Moved(PassesOf(c, s, image, ss, remaining, sector, pass), Plan(remaining, step, ss, sector), s.issued, c.restore, id, lun, ss)
    decreases remaining
  {
    if remaining == 0 {
      assert ChunkCommands(c.restore, id, lun, ss, []) == [];
      assert s.issued + [] == s.issued;
    } else {
      var bytes := Min(remaining, step);
      var sectors := SectorsFor(bytes, ss);
      var ch := Chunk(sector, sectors, bytes);
      var p := PassesOf(c, s, image, ss, remaining, sector, pass);
      var e := PassStep(c, s, image, ss, remaining, sector, pass);
      var planR := Plan(remaining - bytes, step, ss, sector + sectors);
      assert Plan(remaining, step, ss, sector) == [ch] + planR;
      if e.ok && image.passOk(pass) {
        var r := PassesOf(c, e.st, image, ss, remaining - bytes, sector + sectors, pass + 1);
        PassesFacts(c, e.st, image, ss, step, id, lun, remaining - bytes, sector + sectors, pass + 1);
        MovedCons(p, r, ch, planR, s.issued, e.st.issued, c.restore, id, lun, ss);
      } else {
        MovedStop(p, ch, planR, s.issued, c.restore, id, lun, ss, e.ok);
      }
    }
  }

  /**
   * The transfer from sector 0: the loop moves the buffer plan of `size`
   * bytes as Moved says, byte for byte when done; a restore that is done
   * then sends SYNCHRONIZE CACHE(10), whatever its outcome, and nothing else
   * follows the loop.
   */
  lemma TransferFacts(c: Ctx, s: St, image: ImageFile, ss: nat, size: nat)
    requires Ready(c, s) && 0 < ss <= |s.buf|
    ensures var t := TransferSpec(c, s, image, ss, size);
      var p := PassesOf(c, s, image, ss, size, 0, 0);
      && Moved(p, BufferPlan(size, |s.buf|, ss), s.issued, c.restore, s.id, s.lun, ss)
      && t.result == p.result && t.moved == p.moved
      && (t.result == Done ==> TotalBytes(t.moved) == size)
      && (t.result == Done && c.restore ==>
            |t.st.issued| == |p.st.issued| + 1 &&
            t.st.issued == p.st.issued + [Issued(SynchronizeCache10Op, SynchronizeCacheCdb(), s.id, s.lun, 0, t.st.issued[|p.st.issued|].ok)])
      && (!(t.result == Done && c.restore) ==> t.st == p.st)
  {
    PassesFacts(c, s, image, ss, WholeSectors(|s.buf|, ss), s.id, s.lun, size, 0, 0);
    BufferPlanTotal(size, |s.buf|, ss);
  }

  /**
   * A dump or restore that ended in `d`, started from state `s`: when it
   * sent nothing it has nothing planned or moved; otherwise the plan is the
   * buffer plan of the bytes to move, and the loop moved a prefix of it, all
   * of it exactly when done, with one READ(10) or WRITE(10) per chunk,
   * stopping early only on a device or file error; a restore that is done
   * ends with SYNCHRONIZE CACHE(10).
   */
  predicate Dumped(d: Dump, s: St, restore: bool)
  {
    var sent := s.issued + ChunkCommands(restore, s.id, s.lun, d.ss, d.moved);
    && (d.result != Done && d.result != DeviceError && d.result != FileError ==> d.st == s && d.moved == [] && d.plan == [])
    && (d.effective == 0 ==> d.st == s && d.moved == [] && d.plan == [])
    && (d.plan != [] ==> 0 < d.ss <= |s.buf| && d.plan == BufferPlan(d.effective, |s.buf|, d.ss))
    && |d.moved| <= |d.plan| && d.moved == d.plan[..|d.moved|]
    && (d.result == Done ==> d.moved == d.plan && TotalBytes(d.moved) == d.effective)
    && (d.result == DeviceError || d.result == FileError ==>
          |d.moved| < |d.plan| &&
          d.st.issued == sent + [ChunkCommand(restore, s.id, s.lun, d.ss, d.plan[|d.moved|], d.result == FileError)])
    && (d.result == Done && !(restore && 0 < d.effective) ==> d.st.issued == sent)
    && (d.result == Done && restore && 0 < d.effective ==>
          |d.st.issued| == |sent| + 1 && d.st.issued[..|sent|] == sent &&
          AddressOf(d.st.issued[|sent|]) == Address(SynchronizeCache10Op, s.id, s.lun))
  }

  /** A dump or restore that stopped before the transfer. */
  lemma DumpedNothing(d: Dump, s: St, restore: bool)
    requires d.st == s && d.moved == [] && d.plan == [] && d.result != DeviceError && d.result != FileError
    requires d.result == Done ==> d.effective == 0
    ensures Dumped(d, s, restore)
  {
    assert ChunkCommands(restore, s.id, s.lun, d.ss, []) == [];
    assert s.issued + [] == s.issued;
  }

  /** A dump or restore whose transfer ended in `t`, its loop in `p`. */
  lemma DumpedTransfer(d: Dump, s: St, restore: bool, t: Pass, p: Pass)
    requires 0 < d.ss <= |s.buf| && 0 < d.effective && d.plan == BufferPlan(d.effective, |s.buf|, d.ss)
    requires d.result == t.result && d.moved == t.moved && d.st == t.st
    requires Moved(p, d.plan, s.issued, restore, s.id, s.lun, d.ss) && t.result == p.result && t.moved == p.moved
    requires t.result == Done ==> TotalBytes(t.moved) == d.effective
    requires t.result == Done && restore ==>
      |t.st.issued| == |p.st.issued| + 1 &&
      t.st.issued == p.st.issued + [Issued(SynchronizeCache10Op, SynchronizeCacheCdb(), s.id, s.lun, 0, t.st.issued[|p.st.issued|].ok)]
    requires !(t.result == Done && restore) ==> t.st == p.st
    ensures Dumped(d, s, restore)
  {
    if t.result == Done && restore {
      assert t.st.issued[..|p.st.issued|] == p.st.issued;
    }
  }

  /** The transfer of `size` bytes in sectors of `ss` bytes ends as Dumped says. */
  lemma TransferDumped(c: Ctx, s: St, image: ImageFile, ss: nat, disk: nat, size: nat)
    requires Ready(c, s) && 0 < ss <= |s.buf| && 0 < size
    ensures var t := TransferSpec(c, s, image, ss, size);
      Dumped(Dump(t.result, ss, disk, size, BufferPlan(size, |s.buf|, ss), t.moved, t.st), s, c.restore)
  {
    TransferFacts(c, s, image, ss, size);
    var t := TransferSpec(c, s, image, ss, size);
    DumpedTransfer(Dump(t.result, ss, disk, size, BufferPlan(size, |s.buf|, ss), t.moved, t.st), s, c.restore, t,
                   PassesOf(c, s, image, ss, size, 0, 0));
  }

  /**
   * Once the sizes are known the dump or restore ends as Dumped says, with
   * the sector, disk and effective sizes it was given.
   */
  lemma DumpSized(c: Ctx, s: St, image: ImageFile, ss: nat, disk: nat, size: nat)
    requires Ready(c, s) && (0 < size ==> 0 < ss)
    ensures var d := DumpSizedSpec(c, s, image, ss, disk, size);
      && d.ss == ss && d.disk == disk && d.effective == size
      && Dumped(d, s, c.restore)
  {
    if size == 0 {
      DumpedNothing(Dump(Done, ss, disk, 0, [], [], s), s, c.restore);
    } else if |s.buf| < ss {
      DumpedNothing(Dump(SectorLargerThanBuffer, ss, disk, size, [], [], s), s, c.restore);
    } else {
      TransferDumped(c, s, image, ss, disk, size);
    }
  }

  /** A dump or restore whose image file did not open, or for a restore told no size. */
  lemma DumpDeviceStopped(c: Ctx, s: St, image: ImageFile, info: InquiryInfo)
    requires Ready(c, s) && (!image.opens || (c.restore && image.size.None?))
    ensures var d := DumpDeviceSpec(c, s, image, info);
      && d.result == (if !image.opens then CannotOpenImage else NoImageSize)
      && Dumped(d, s, c.restore)
  {
    var d := DumpDeviceSpec(c, s, image, info);
    if !image.opens {
      assert d == Dump(CannotOpenImage, 0, 0, 0, [], [], s);
      DumpedNothing(Dump(CannotOpenImage, 0, 0, 0, [], [], s), s, c.restore);
    } else {
      assert d == Dump(NoImageSize, 0, 0, 0, [], [], s);
      DumpedNothing(Dump(NoImageSize, 0, 0, 0, [], [], s), s, c.restore);
    }
  }

  /**
   * A dump or restore whose image file opened, and for a restore told its
   * size: the sector size is the device's, the disk size is capacity times
   * sector size (see DiskSizeIsProduct), and the bytes to move are the disk
   * size for a dump and the smaller of image and disk size for a restore.
   */
  lemma DumpDeviceSized(c: Ctx, s: St, image: ImageFile, info: InquiryInfo)
    requires Ready(c, s) && image.opens && !(c.restore && image.size.None?)
    ensures var d := DumpDeviceSpec(c, s, image, info);
      && d.ss == info.sectorSize as nat && d.disk == DiskSize(info.capacity as nat, d.ss)
      && d.effective == (if c.restore then Min(image.size.value, d.disk) else d.disk)
      && Dumped(d, s, c.restore)
  {
    var ss := info.sectorSize as nat;
    var disk := DiskSize(info.capacity as nat, ss);
    var size := if c.restore then EffectiveSize(true, image.size.value, disk) else disk;
    assert DumpDeviceSpec(c, s, image, info) == DumpSizedSpec(c, s, image, ss, disk, size);
    DumpSized(c, s, image, ss, disk, size);
  }

  /**
   * What the dump or restore does once the device information is in: a
   * missing image or image size stops it, the sizes are as DumpDeviceSized
   * says, and it ends as Dumped says.
   */
  lemma DumpDeviceFacts(c: Ctx, s: St, image: ImageFile, info: InquiryInfo)
    requires Ready(c, s)
    ensures var d := DumpDeviceSpec(c, s, image, info);
      && (!image.opens ==> d.result == CannotOpenImage)
      && (image.opens && c.restore && image.size.None? ==> d.result == NoImageSize)
      && d.result != NoDeviceInfo
      && Dumped(d, s, c.restore)
  {
    if image.opens && !(c.restore && image.size.None?) {
      DumpDeviceSized(c, s, image, info);
    } else {
      DumpDeviceStopped(c, s, image, info);
    }
  }

  /**
   * The dump or restore: it fails for lack of device information exactly when
   * GetDeviceInfoSpec fails, having sent only what that sent; otherwise it
   * goes on from there as DumpDeviceFacts says.
   */
  lemma DumpRestoreFacts(c: Ctx, s: St, image: ImageFile)
    requires Ready(c, s)
    ensures var g := GetDeviceInfoSpec(c, s);
      var d := DumpRestoreSpec(c, s, image);
      && (d.result == NoDeviceInfo <==> !g.ok)
      && (!g.ok ==> d.st == g.st && d.moved == [] && d.plan == [])
      && (g.ok ==> Dumped(d, g.st, c.restore))
  {
    var g := GetDeviceInfoSpec(c, s);
    if g.ok {
      assert DumpRestoreSpec(c, s, image) == DumpDeviceSpec(c, g.st, image, g.info);
      DumpDeviceFacts(c, g.st, image, g.info);
    } else {
      assert DumpRestoreSpec(c, s, image) == Dump(NoDeviceInfo, 0, 0, 0, [], [], g.st);
    }
  }
}
