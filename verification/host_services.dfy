/**
 * The host services device (SCHS): START STOP UNIT as a shutdown request,
 * the vendor EXECUTE command's format and length checks, MODE SENSE(6)
 * and (10) over the vendor realtime clock page 0x20, and the commands it
 * registers.  The controller it talks to is reduced to what each command
 * asks of it: a shutdown mode, a transfer length, and the next phase.
 */
module HostServices {
  import opened Bus
  import opened ScsiCommands

  /** AbstractController::piscsi_shutdown_mode. */
  datatype ShutdownMode = StopPiscsi | StopPi | RestartPi

  /** The scsi_exception every check here raises: ILLEGAL REQUEST, INVALID FIELD IN CDB. */
  datatype ScsiError = InvalidFieldInCdb

  datatype Result<T> = Ok(value: T) | Thrown(error: ScsiError)

  datatype Next = StatusPhase | DataOutPhase

  /** What a command leaves the controller to do: a scheduled shutdown, a byte-transfer length, the next phase. */
  datatype Effect = Effect(shutdown: Option<ShutdownMode>, transfer: Option<nat>, next: Next)

  /** The commands Init registers. */
  datatype Command = TestUnitReadyCmd | StartStopCmd | ExecuteCmd

  /** A handle on the shared command dispatcher, which is not part of this model. */
  datatype DispatcherRef = DispatcherRef(id: nat)

  /** The clock fields of `struct tm` the page uses. */
  datatype LocalTime = LocalTime(year: int, month: int, day: int, hour: int, minute: int, second: int)

  /** A byte of a mode page (`std::byte`), as its value. */
  type Octet = x: int | 0 <= x < 256

  /** `(uint8_t)` of an int field: the value modulo 256. */
  function OctetOf(x: int): (r: Octet)
  {
    x % 256
  }

  const RealtimeClockPageCode := 0x20
  const AllPagesCode := 0x3F

  /** TEST UNIT READY: always good status. */
  function TestUnitReady(): (r: Result<Effect>)
    ensures r.Ok? && r.value.shutdown.None? && r.value.transfer.None? && r.value.next == StatusPhase
  {
    Ok(Effect(None, None, StatusPhase))
  }

  /** START STOP UNIT: START (bit 0) and LOEJ (bit 1) of CDB byte 4 choose the shutdown; START without LOEJ is refused. */
  function StartStopUnit(cdb: seq<byte>): (r: Result<Effect>)
    requires 5 <= |cdb|
  {
    var start := cdb[4] & 0x01 != 0;
    var load := cdb[4] & 0x02 != 0;
    if !start then
      Ok(Effect(Some(if load then StopPi else StopPiscsi), None, StatusPhase))
    else if load then
      Ok(Effect(Some(RestartPi), None, StatusPhase))
    else
      Thrown(InvalidFieldInCdb)
  }

  /**
   * The decision table on the low two bits of byte 4: 00 stops PiSCSI, 10
   * shuts the Pi down, 11 reboots it, 01 is refused; the status phase
   * follows exactly when a shutdown was scheduled.
   */
  lemma StartStopTable(cdb: seq<byte>)
    requires 5 <= |cdb|
    ensures var r := StartStopUnit(cdb);
      && (cdb[4] & 0x03 == 0x00 <==> r == Ok(Effect(Some(StopPiscsi), None, StatusPhase)))
      && (cdb[4] & 0x03 == 0x02 <==> r == Ok(Effect(Some(StopPi), None, StatusPhase)))
      && (cdb[4] & 0x03 == 0x03 <==> r == Ok(Effect(Some(RestartPi), None, StatusPhase)))
      && (cdb[4] & 0x03 == 0x01 <==> r.Thrown?)
  {
    var b := cdb[4];
    assert (b & 0x01 != 0) == (b & 0x03 == 0x01 || b & 0x03 == 0x03);
    assert (b & 0x02 != 0) == (b & 0x03 == 0x02 || b & 0x03 == 0x03);
  }

  /** The EXECUTE format byte: exactly one input format (bit 0 JSON, bit 1 binary) and exactly one output format (bit 2 JSON, bit 3 binary). */
  predicate FormatsValid(formats: byte)
  {
    (formats & 0x03 == 0x01 || formats & 0x03 == 0x02) && (formats & 0x0C == 0x04 || formats & 0x0C == 0x08)
  }

  /** The condition Execute refuses a format byte on, as written. */
  predicate FormatsRefused(formats: byte)
  {
    var jsonIn := formats & 0x01 != 0;
    var binIn := formats & 0x02 != 0;
    var jsonOut := formats & 0x04 != 0;
    var binOut := formats & 0x08 != 0;
    formats == 0 || !(jsonIn || binIn) || !(jsonOut || binOut) || (jsonIn && binIn) || (jsonOut && binOut)
  }

  /** The format check accepts exactly one input and one output format; the bits above bit 3 are ignored. */
  lemma FormatsRefusedExactly(formats: byte)
    ensures !FormatsRefused(formats) <==> FormatsValid(formats)
  {
    var low := formats & 0x0F;
    assert formats & 0x03 == low & 0x03 && formats & 0x0C == low & 0x0C;
    assert formats & 0x01 == low & 0x01 && formats & 0x02 == low & 0x02;
    assert formats & 0x04 == low & 0x04 && formats & 0x08 == low & 0x08;
    assert formats != 0 || low == 0;
    FormatsLow(low);
  }

  /** The sixteen values of the low four bits, one by one. */
  lemma FormatsLow(low: byte)
    requires low < 16
    ensures var jsonIn, binIn, jsonOut, binOut := low & 0x01 != 0, low & 0x02 != 0, low & 0x04 != 0, low & 0x08 != 0;
      (!(low == 0 || !(jsonIn || binIn) || !(jsonOut || binOut) || (jsonIn && binIn) || (jsonOut && binOut)))
      <==> ((low & 0x03 == 0x01 || low & 0x03 == 0x02) && (low & 0x0C == 0x04 || low & 0x0C == 0x08))
  {
  }

  /** `GetInt16(cdb, offset)`: the big-endian 16-bit field at offset. */
  function Int16(cdb: seq<byte>, offset: nat): (r: nat)
    requires offset + 2 <= |cdb|
  {
    Be16(cdb, offset) as nat
  }

  function Min(a: nat, b: nat): (r: nat)
  {
    if a <= b then a else b
  }

  /** The buffer with its first `length` bytes zeroed (`fill_n`). */
  function Cleared(buf: seq<byte>, length: nat): (r: seq<byte>)
    requires length <= |buf|
    ensures |r| == |buf|
    ensures forall i :: 0 <= i < |r| ==> r[i] == if i < length then 0 else buf[i]
  {
    Zeros(length) + buf[length..]
  }

  /**
   * What ModePageDevice::AddModePages, which is not part of this model, gives
   * for one request: the size it returns and the page bytes it copies into
   * the buffer from the header offset on.
   */
  datatype ModePages = ModePages(size: int, data: seq<byte>)

  /** The buffer with the page bytes copied from `offset` on, never at or past `length`. */
  function Overlay(buf: seq<byte>, offset: nat, data: seq<byte>, length: nat): (r: seq<byte>)
    requires length <= |buf|
    ensures |r| == |buf|
  {
    seq(|buf|, k requires 0 <= k < |buf| =>
      if offset <= k < length && k - offset < |data| then data[k - offset] else buf[k])
  }

  /**
   * The reply MODE SENSE leaves before its size field is stored: within the
   * allocation length, a zero header, then the page bytes, then zeros; the
   * bytes past the allocation length are left as they were.
   */
  lemma ModeSenseLayout(buf: seq<byte>, offset: nat, length: nat, data: seq<byte>)
    requires length <= |buf|
    ensures var r := Overlay(Cleared(buf, length), offset, data, length);
      && |r| == |buf|
      && (forall k :: 0 <= k < offset && k < length ==> r[k] == 0)
      && (forall k :: offset <= k < length && k < offset + |data| ==> r[k] == data[k - offset])
      && (forall k :: offset + |data| <= k < length ==> r[k] == 0)
      && (forall k :: length <= k < |buf| ==> r[k] == buf[k])
  {
  }

  /**
   * The 10 bytes of page 0x20: page code and length left to the caller,
   * then version 1.0 and the local time as bytes, the second clamped to
   * 59; all zero for the changeable values.
   */
  function RealtimeClockPage(changeable: bool, now: LocalTime): (r: seq<Octet>)
  {
    if changeable then seq(10, _ => 0)
    else
      var second := if now.second < 60 then now.second else 59;
      [0, 0, 0x01, 0x00, OctetOf(now.year), OctetOf(now.month), OctetOf(now.day),
       OctetOf(now.hour), OctetOf(now.minute), OctetOf(second)]
  }

  /**
   * The page is always 10 bytes, bytes 0 and 1 zero; with the clock, the
   * packed mode_page_datetime fields follow in their declared order, and a
   * leap second never shows.
   */
  lemma RealtimeClockPageLayout(changeable: bool, now: LocalTime)
    ensures var p := RealtimeClockPage(changeable, now);
      && |p| == 10 && p[0] == 0 && p[1] == 0
      && (changeable ==> forall i :: 0 <= i < 10 ==> p[i] == 0)
      && (!changeable ==>
            && p[2] == 1 && p[3] == 0
            && p[4] == now.year % 256 && p[5] == now.month % 256 && p[6] == now.day % 256
            && p[7] == now.hour % 256 && p[8] == now.minute % 256
            && (0 <= now.second ==> p[9] <= 59 && (now.second < 60 ==> p[9] == now.second)))
  {
  }

  class HostServices {
    const lun: nat
    /** The device type the base class is given. */
    const deviceType: string
    var ready: bool
    var commands: set<Command>
    var dispatcher: Option<DispatcherRef>
    /** The formats the last EXECUTE asked for. */
    var jsonIn: bool
    var binIn: bool
    var jsonOut: bool
    var binOut: bool

    constructor (lun: nat)
      ensures this.lun == lun && deviceType == "SCHS"
      ensures !ready && commands == {} && dispatcher.None?
      ensures !jsonIn && !binIn && !jsonOut && !binOut
    {
      this.lun := lun;
      deviceType := "SCHS";
      ready := false;
      commands := {};
      dispatcher := None;
      jsonIn, binIn, jsonOut, binOut := false, false, false, false;
    }

    /** Registers TEST UNIT READY, START STOP UNIT and EXECUTE, and becomes ready. */
    method Init() returns (ok: bool)
      modifies this`commands, this`ready
      ensures ok && ready
      ensures commands == old(commands) + {TestUnitReadyCmd, StartStopCmd, ExecuteCmd}
    {
      commands := commands + {TestUnitReadyCmd};
      commands := commands + {StartStopCmd};
      commands := commands + {ExecuteCmd};
      ready := true;
      ok := true;
    }

    method SetDispatcher(d: DispatcherRef)
      modifies this`dispatcher
      ensures dispatcher == Some(d)
    {
      dispatcher := Some(d);
    }

    /**
     * EXECUTE: records the format bits of byte 1, refuses a format byte
     * without exactly one input and one output format, then refuses a
     * length (bytes 5 and 6) larger than the controller's buffer, and
     * otherwise asks for that many bytes, byte by byte, in DATA OUT.
     */
    method Execute(cdb: seq<byte>, bufferSize: nat) returns (r: Result<Effect>)
      requires 7 <= |cdb|
      modifies this`jsonIn, this`binIn, this`jsonOut, this`binOut
      ensures jsonIn == (cdb[1] & 0x01 != 0) && binIn == (cdb[1] & 0x02 != 0)
      ensures jsonOut == (cdb[1] & 0x04 != 0) && binOut == (cdb[1] & 0x08 != 0)
      ensures r.Ok? <==> FormatsValid(cdb[1]) && Int16(cdb, 5) <= bufferSize
      ensures r.Ok? ==> r.value == Effect(None, Some(Int16(cdb, 5)), DataOutPhase)
      ensures r.Thrown? ==> r.error == InvalidFieldInCdb
    {
      var formats := cdb[1];
      jsonIn := formats & 0x01 != 0;
      binIn := formats & 0x02 != 0;
      jsonOut := formats & 0x04 != 0;
      binOut := formats & 0x08 != 0;
      FormatsRefusedExactly(formats);
      if formats == 0 || !(jsonIn || binIn) || !(jsonOut || binOut) || (jsonIn && binIn) || (jsonOut && binOut) {
        return Thrown(InvalidFieldInCdb);
      }
      var length := Int16(cdb, 5);
      if length > bufferSize {
        return Thrown(InvalidFieldInCdb);
      }
      r := Ok(Effect(None, Some(length), DataOutPhase));
    }

    /**
     * MODE SENSE(6): refused unless DBD (byte 1 bit 3) is set; zeroes the
     * first min(buffer size, allocation length) bytes, lets AddModePages
     * (given as `addModePages`, of offset, length and maximum size) copy
     * the pages in after the 4-byte header, and stores the size it
     * returns, as one byte, in byte 0.
     */
    method ModeSense6(cdb: seq<byte>, buf: array<byte>, addModePages: (int, int, int) -> ModePages) returns (r: Result<int>)
      requires 5 <= |cdb| && 1 <= buf.Length
      modifies buf
      ensures cdb[1] & 0x08 == 0 ==> r == Thrown(InvalidFieldInCdb) && buf[..] == old(buf[..])
      ensures cdb[1] & 0x08 != 0 ==>
        var length := Min(buf.Length, cdb[4] as nat);
        var pages := addModePages(4, length, 255);
        && r == Ok(pages.size)
        && buf[..] == Overlay(Cleared(old(buf[..]), length), 4, pages.data, length)[0 := LowInt(pages.size)]
    {
      if cdb[1] & 0x08 == 0 {
        return Thrown(InvalidFieldInCdb);
      }
      var length := Min(buf.Length, cdb[4] as nat);
      Fill(buf, length);
      var pages := addModePages(4, length, 255);
      CopyPages(buf, 4, pages.data, length);
      buf[0] := LowInt(pages.size);
      r := Ok(pages.size);
    }

    /**
     * MODE SENSE(10): as MODE SENSE(6), with the 16-bit allocation length
     * of bytes 7 and 8, an 8-byte header, a 65535 maximum, and the size
     * stored big-endian in bytes 0 and 1.
     */
    method ModeSense10(cdb: seq<byte>, buf: array<byte>, addModePages: (int, int, int) -> ModePages) returns (r: Result<int>)
      requires 9 <= |cdb| && 2 <= buf.Length
      modifies buf
      ensures cdb[1] & 0x08 == 0 ==> r == Thrown(InvalidFieldInCdb) && buf[..] == old(buf[..])
      ensures cdb[1] & 0x08 != 0 ==>
        var length := Min(buf.Length, Int16(cdb, 7));
        var pages := addModePages(8, length, 65535);
        && r == Ok(pages.size)
        && buf[..] == Overlay(Cleared(old(buf[..]), length), 8, pages.data, length)[0 := LowInt(pages.size / 256)][1 := LowInt(pages.size)]
    {
      if cdb[1] & 0x08 == 0 {
        return Thrown(InvalidFieldInCdb);
      }
      var length := Min(buf.Length, Int16(cdb, 7));
      Fill(buf, length);
      var pages := addModePages(8, length, 65535);
      CopyPages(buf, 8, pages.data, length);
      buf[0] := LowInt(pages.size / 256);
      buf[1] := LowInt(pages.size);
      r := Ok(pages.size);
    }

    /** The realtime clock page is added for a request of page 0x20 or of all pages, and no other. */
    method SetUpModePages(pages: map<int, seq<Octet>>, page: int, changeable: bool, now: LocalTime) returns (pages': map<int, seq<Octet>>)
      ensures page == RealtimeClockPageCode || page == AllPagesCode ==> pages' == pages[32 := RealtimeClockPage(changeable, now)]
      ensures page != RealtimeClockPageCode && page != AllPagesCode ==> pages' == pages
    {
      pages' := pages;
      if page == RealtimeClockPageCode || page == AllPagesCode {
        pages' := AddRealtimeClockPage(pages, changeable, now);
      }
    }

    /** Page 32 becomes 10 zero bytes, then, unless the changeable values are asked for, gets the clock from byte 2 on. */
    method AddRealtimeClockPage(pages: map<int, seq<Octet>>, changeable: bool, now: LocalTime) returns (pages': map<int, seq<Octet>>)
      ensures pages' == pages[32 := RealtimeClockPage(changeable, now)]
    {
      var page := new Octet[10](_ => 0);
      if !changeable {
        var second := if now.second < 60 then now.second else 59;
        var datetime := [0x01, 0x00, OctetOf(now.year), OctetOf(now.month), OctetOf(now.day),
                         OctetOf(now.hour), OctetOf(now.minute), OctetOf(second)];
        forall i | 0 <= i < 8 {
          page[2 + i] := datetime[i];
        }
      }
      assert page[..] == RealtimeClockPage(changeable, now) by {
        forall i | 0 <= i < 10
          ensures page[i] == RealtimeClockPage(changeable, now)[i]
        {
        }
      }
      pages' := pages[32 := page[..]];
    }
  }

  /** AddModePages's copy of the page bytes into the buffer after the header. */
  method CopyPages(buf: array<byte>, offset: nat, data: seq<byte>, length: nat)
    requires length <= buf.Length
    modifies buf
    ensures buf[..] == Overlay(old(buf[..]), offset, data, length)
  {
    forall k | offset <= k < length && k - offset < |data| {
      buf[k] := data[k - offset];
    }
  }

  /** `fill_n(buf.begin(), length, 0)`. */
  method Fill(buf: array<byte>, length: nat)
    requires length <= buf.Length
    modifies buf
    ensures buf[..] == Cleared(old(buf[..]), length)
  {
    forall i | 0 <= i < length {
      buf[i] := 0;
    }
  }
}
