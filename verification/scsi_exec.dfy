/**
 * ScsiExecutor of scsiexec: sends a JSON or binary protobuf command file to
 * a host services device with the vendor EXECUTE command and takes back its
 * result, and shuts the device's host down with START STOP UNIT.  The
 * files, the protobuf parser and the phase executor's Execute (another
 * revision than the one of this model) are given as parameters.
 */
module ScsiExec {
  import opened Bus
  import opened ScsiCommands
  import HS = HostServices

  /** An input file: whether it opens, its bytes, and the strerror text when it does not. */
  datatype InputFile = InputFile(opens: bool, contents: seq<byte>, error: string)

  /** One call of Execute: operation code, CDB, buffer, bytes to send and room to receive. */
  datatype Request = Request(op: byte, cdb: seq<byte>, buffer: seq<byte>, length: int, allocation: int)

  /** What Execute left: the bytes the data-in phase delivered and GetByteCount(). */
  datatype Answer = Answer(data: seq<byte>, byteCount: int)

  /** The EXECUTE CDB: the format byte, the input length in bytes 5 and 6 and the buffer size in bytes 7 and 8. */
  function ExecuteCdb(binary: bool, inputLength: bv32, bufferSize: bv32): (r: seq<byte>)
  {
    Zeros(10)[1 := if binary then 0x0A else 0x05]
      [5 := Low(inputLength >> 8)][6 := Low(inputLength)]
      [7 := Low(bufferSize >> 8)][8 := Low(bufferSize)]
  }

  /**
   * The format byte names the same format for input and output, which the
   * host services device accepts; the two lengths arrive big-endian,
   * truncated to 16 bits, and the length field is the one the device takes
   * as the number of bytes to receive.
   */
  lemma ExecuteCdbFields(binary: bool, inputLength: bv32, bufferSize: bv32)
    ensures var c := ExecuteCdb(binary, inputLength, bufferSize);
      && |c| == 10
      && HS.FormatsValid(c[1])
      && (binary ==> c[1] & 0x03 == 0x02 && c[1] & 0x0C == 0x08)
      && (!binary ==> c[1] & 0x03 == 0x01 && c[1] & 0x0C == 0x04)
      && Be16(c, 5) == (inputLength & 0xFFFF) as bv16
      && Be16(c, 7) == (bufferSize & 0xFFFF) as bv16
      && c[0] == 0 && c[2] == 0 && c[3] == 0 && c[4] == 0 && c[9] == 0
  {
  }

  /**
   * An input shorter than 64 KiB reaches the host services device with its
   * exact length, which that device then accepts as long as its own buffer
   * holds it.
   */
  lemma ExecuteCdbLength(binary: bool, inputLength: bv32, bufferSize: bv32)
    requires inputLength < 0x1_0000
    ensures HS.FormatsValid(ExecuteCdb(binary, inputLength, bufferSize)[1])
    ensures HS.Int16(ExecuteCdb(binary, inputLength, bufferSize), 5) == inputLength as int
  {
    ExecuteCdbFields(binary, inputLength, bufferSize);
    Narrow16(inputLength);
  }

  lemma Narrow16(x: bv32)
    requires x < 0x1_0000
    ensures ((x & 0xFFFF) as bv16) as int == x as int
  {
    assert x & 0xFFFF == x;
  }

  /** START STOP UNIT with LOEJ set and START clear. */
  function ShutDownCdb(): (r: seq<byte>)
  {
    Zeros(6)[4 := 0x02]
  }

  /** The shutdown CDB asks a host services device to shut the Pi down. */
  lemma ShutDownStopsPi()
    ensures HS.StartStopUnit(ShutDownCdb()) == HS.Ok(HS.Effect(Some(HS.StopPi), None, HS.StatusPhase))
  {
    var c := ShutDownCdb();
    assert c[4] & 0x01 == 0 && c[4] & 0x02 != 0;
  }

  /** `string(buffer.data(), length)`: the bytes as characters. */
  function Text(bytes: seq<byte>): (s: string)
    ensures |s| == |bytes|
    ensures forall i :: 0 <= i < |s| ==> s[i] as int == bytes[i] as int
  {
    seq(|bytes|, i requires 0 <= i < |bytes| => bytes[i] as int as char)
  }

  /** The buffer after the input has been copied to its start. */
  function Loaded(buffer: seq<byte>, input: seq<byte>): (r: seq<byte>)
    requires |input| <= |buffer|
    ensures |r| == |buffer| && r[..|input|] == input && r[|input|..] == buffer[|input|..]
  {
    input + buffer[|input|..]
  }

  function OpenInputError(binary: bool, name: string, error: string): (r: string)
  {
    (if binary then "Can't open binary input file '" else "Can't open JSON input file '") + name + "': " + error
  }

  /** The EXECUTE request for `n` input bytes at the start of the buffer. */
  function Sent(op: byte, binary: bool, buffer: seq<byte>, n: nat): (r: Request)
    requires n <= |buffer| < 0x8000_0000
  {
    Request(op, ExecuteCdb(binary, n as bv32, |buffer| as bv32), buffer, n, |buffer|)
  }

  /**
   * What Execute returns once `received` (the first GetByteCount() bytes of
   * the buffer) is back: for binary, the protobuf printed as JSON (`toJson`,
   * None when it does not parse) unless an output file is named, which is
   * then only opened; for JSON, the bytes as text unless an output file is
   * named.  With an output file the caller's result is kept.
   */
  function Outcome(binary: bool, received: seq<byte>, outputName: string, outputOpens: bool,
                   toJson: seq<byte> -> Option<string>, result: string): (r: (bool, string))
    ensures !r.0 <==> binary && (toJson(received).None? || (outputName != "" && !outputOpens))
    ensures binary && toJson(received).None? ==> r.1 == "Can't parse received binary protobuf data"
    ensures r.0 && outputName == "" ==> r.1 == if binary then toJson(received).value else Text(received)
    ensures r.0 && outputName != "" ==> r.1 == result
  {
    if binary then
      match toJson(received)
      case None => (false, "Can't parse received binary protobuf data")
      case Some(json) =>
        if outputName == "" then (true, json)
        else if outputOpens then (true, result)
        else (false, "Can't open binary output file '" + outputName + "'")
    else if outputName == "" then (true, Text(received))
    else (true, result)
  }

  class ScsiExecutor {
    const buffer: array<byte>
    /** The operation code of the vendor EXECUTE command (shared/scsi.h is not part of this model). */
    const executeOp: byte
    /** What the k-th Execute call leaves. */
    const device: (nat, Request) -> Answer
    var sent: seq<Request>

    /** The device never reports more bytes than the buffer holds. */
    ghost predicate Valid()
    {
      && buffer.Length < 0x8000_0000
      && forall k: nat, r: Request :: 0 <= device(k, r).byteCount <= buffer.Length
    }

    constructor (size: nat, executeOp: byte, device: (nat, Request) -> Answer)
      ensures buffer.Length == size && fresh(buffer)
      ensures this.executeOp == executeOp && this.device == device && sent == []
    {
      buffer := new byte[size];
      this.executeOp := executeOp;
      this.device := device;
      sent := [];
    }

    /**
     * Copies the input into the buffer, sends it with EXECUTE, and turns
     * the received bytes into the result as Outcome says.
     */
    method Execute(inputName: string, input: InputFile, outputName: string, outputOpens: bool, binary: bool,
                   toJson: seq<byte> -> Option<string>, result: string) returns (ok: bool, result': string)
      requires Valid() && |input.contents| <= buffer.Length
      modifies this`sent, buffer
      ensures !input.opens ==> !ok && result' == OpenInputError(binary, inputName, input.error)
      ensures !input.opens ==> sent == old(sent) && buffer[..] == old(buffer[..])
      ensures input.opens ==> sent == old(sent) + [Sent(executeOp, binary, Loaded(old(buffer[..]), input.contents), |input.contents|)]
      ensures input.opens ==>
        var a := device(|old(sent)|, sent[|sent| - 1]);
        && buffer[..] == Receive(Loaded(old(buffer[..]), input.contents), a.data, buffer.Length)
        && (ok, result') == Outcome(binary, buffer[..a.byteCount], outputName, outputOpens, toJson, result)
    {
      if !input.opens {
        return false, OpenInputError(binary, inputName, input.error);
      }
      var length := Transfer(binary, input.contents);
      var received := buffer[..length];
      result' := result;
      if binary {
        var parsed := toJson(received);
        if parsed.None? {
          return false, "Can't parse received binary protobuf data";
        }
        if outputName == "" {
          result' := parsed.value;
        } else if !outputOpens {
          return false, "Can't open binary output file '" + outputName + "'";
        }
      } else if outputName == "" {
        result' := Text(received);
      }
      ok := true;
    }

    /** The input copied into the buffer, the EXECUTE call, and GetByteCount() after it. */
    method Transfer(binary: bool, input: seq<byte>) returns (length: int)
      requires Valid() && |input| <= buffer.Length
      modifies this`sent, buffer
      ensures sent == old(sent) + [Sent(executeOp, binary, Loaded(old(buffer[..]), input), |input|)]
      ensures var a := device(|old(sent)|, sent[|sent| - 1]);
        && buffer[..] == Receive(Loaded(old(buffer[..]), input), a.data, buffer.Length)
        && length == a.byteCount && 0 <= length <= buffer.Length
    {
      Store(buffer, Loaded(buffer[..], input));
      var req := Sent(executeOp, binary, buffer[..], |input|);
      var a := device(|sent|, req);
      sent := sent + [req];
      Store(buffer, Receive(buffer[..], a.data, buffer.Length));
      length := a.byteCount;
    }

    /** START STOP UNIT with the shutdown CDB and no data; always true. */
    method ShutDown() returns (ok: bool)
      modifies this`sent
      ensures ok
      ensures sent == old(sent) + [Request(StartStopOp, ShutDownCdb(), buffer[..], 0, 0)]
    {
      sent := sent + [Request(StartStopOp, ShutDownCdb(), buffer[..], 0, 0)];
      ok := true;
    }
  }
}
