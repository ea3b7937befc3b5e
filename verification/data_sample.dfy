/**
 * DataSample_Raspberry: one 32-bit capture of the GPIO input register,
 * decoded into bus lines.  The pin numbers come from the connection type
 * the program is built for, which is not part of this model, so they are a
 * parameter.
 */
module DataSample {
  import opened Bus

  type word = bv32

  /** An immutable capture: the raw register word and its timestamp. */
  datatype Capture = Capture(data: word, timestamp: nat)

  /** The pin of each control line and of the data lines DT0 … DT7. */
  datatype PinMap = PinMap(line: Signal -> word, dt: seq<word>)

  /**
   * Every pin is a bit of the 32-bit word, the eight data pins are distinct,
   * and DTk is at least k so that `PIN_DTk - k` is a valid shift.
   */
  predicate ValidPins(p: PinMap)
  {
    && (forall s: Signal :: p.line(s) < 32)
    && |p.dt| == 8
    && (forall k :: 0 <= k < 8 ==> k as word <= p.dt[k] < 32)
    && (forall j, k :: 0 <= j < k < 8 ==> p.dt[j] != p.dt[k])
  }

  /** The default-constructed sample. */
  const Empty := Capture(0, 0)

  /** GetSignal(pin): bit `pin` of the captured word. */
  function GetSignal(c: Capture, pin: word): (r: bool)
    requires pin < 32
  {
    (c.data >> pin) & 1 == 1
  }

  /** The named getters GetBSY … GetDP: GetSignal of the line's pin. */
  function GetLine(c: Capture, p: PinMap, s: Signal): (r: bool)
    requires ValidPins(p)
  {
    GetSignal(c, p.line(s))
  }

  /** GetRawCapture returns the word the sample was constructed with. */
  function GetRawCapture(c: Capture): (r: word)
  {
    c.data
  }

  /** A default-constructed sample reads every pin, and so every line, as released. */
  lemma EmptyReadsReleased(p: PinMap, s: Signal)
    requires ValidPins(p)
    ensures !GetLine(Empty, p, s)
    ensures GetRawCapture(Empty) == 0
  {
  }

  /** `data >> (PIN_DTk - k)`, the k-th term of GetDAT. */
  function Term(c: Capture, p: PinMap, k: nat): (r: word)
    requires ValidPins(p) && k < 8
  {
    c.data >> (p.dt[k] - k as word)
  }

  /**
   * GetDAT as the expression parses: `+` binds tighter than `&`, so the
   * terms are and-ed with sums of their neighbours, and the final `& 0x80`
   * keeps one bit (uint32_t arithmetic, so the sums wrap at 2^32).
   */
  function GetDatAsWritten(c: Capture, p: PinMap): (r: byte)
    requires ValidPins(p)
  {
    var r := Term(c, p, 0)
      & (0x01 + Term(c, p, 1))
      & (0x02 + Term(c, p, 2))
      & (0x04 + Term(c, p, 3))
      & (0x08 + Term(c, p, 4))
      & (0x10 + Term(c, p, 5))
      & (0x20 + Term(c, p, 6))
      & (0x40 + Term(c, p, 7))
      & 0x80;
    (r as bv8)
  }

  /** GetDAT as written can only return 0 or 0x80. */
  lemma GetDatAsWrittenTwoValues(c: Capture, p: PinMap)
    requires ValidPins(p)
    ensures GetDatAsWritten(c, p) == 0 || GetDatAsWritten(c, p) == 0x80
  {
  }

  /** Bit k of the data lines: the level of pin DTk, as bit k of a byte. */
  function DataBit(c: Capture, p: PinMap, k: nat): (r: byte)
    requires ValidPins(p) && k < 8
  {
    if GetSignal(c, p.dt[k]) then (1 as byte) << k else 0
  }

  /** The data byte the layout of GetDAT evidently means: bit k is the level of pin DTk. */
  function GetDat(c: Capture, p: PinMap): (r: byte)
    requires ValidPins(p)
  {
    DataBit(c, p, 0) | DataBit(c, p, 1) | DataBit(c, p, 2) | DataBit(c, p, 3)
      | DataBit(c, p, 4) | DataBit(c, p, 5) | DataBit(c, p, 6) | DataBit(c, p, 7)
  }

  /** In an or of eight bytes each holding at most its own bit, bit k is set exactly when byte k holds it. */
  lemma OrOfBits(a: seq<byte>, k: nat)
    requires |a| == 8 && k < 8
    requires forall j :: 0 <= j < 8 ==> a[j] == 0 || a[j] == (1 as byte) << j
    ensures ((a[0] | a[1] | a[2] | a[3] | a[4] | a[5] | a[6] | a[7]) >> k) & 1 == 1 <==> a[k] != 0
  {
    var a0, a1, a2, a3, a4, a5, a6, a7 := a[0], a[1], a[2], a[3], a[4], a[5], a[6], a[7];
    assert a0 == 0 || a0 == 0x01;
    assert a1 == 0 || a1 == 0x02;
    assert a2 == 0 || a2 == 0x04;
    assert a3 == 0 || a3 == 0x08;
    assert a4 == 0 || a4 == 0x10;
    assert a5 == 0 || a5 == 0x20;
    assert a6 == 0 || a6 == 0x40;
    assert a7 == 0 || a7 == 0x80;
  }

  /** Each bit of the gathered byte is the level of its data pin. */
  lemma GetDatBits(c: Capture, p: PinMap, k: nat)
    requires ValidPins(p) && k < 8
    ensures (GetDat(c, p) >> k) & 1 == 1 <==> GetSignal(c, p.dt[k])
  {
    var a := seq(8, j requires 0 <= j < 8 => DataBit(c, p, j));
    OrOfBits(a, k);
    assert (1 as byte) << k != 0 by {
      if k == 0 {} else if k == 1 {} else if k == 2 {} else if k == 3 {}
      else if k == 4 {} else if k == 5 {} else if k == 6 {} else {}
    }
  }

  /**
   * The precedence slip loses data: with only pin DT0 high, the data byte is
   * 0x01 but GetDAT as written returns 0.
   */
  lemma GetDatAsWrittenDropsBit0(p: PinMap)
    requires ValidPins(p)
    ensures var c := Capture(1 << p.dt[0], 0);
      GetDat(c, p) == 0x01 && GetDatAsWritten(c, p) == 0
  {
  }
}
