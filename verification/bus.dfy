/**
 * The vocabulary every bus implementation shares: the byte, the SCSI control
 * lines, the bus phases, the operation mode and the SCSI-2 bus timings.
 */
module Bus {

  /** A value on the eight data lines. */
  type byte = bv8

  /** The control lines the bus classes read and drive (ACT and DP are board lines). */
  datatype Signal = BSY | SEL | ATN | ACK | ACT | RST | MSG | CD | IO | REQ | DP

  /** The bus phases a sample decodes to. */
  datatype Phase =
    | BusFree | Arbitration | Selection | Reselection
    | Command | Status | DataIn | DataOut | MsgIn | MsgOut | Reserved

  /** BUS::mode_e: which side of the REQ/ACK handshake this bus plays. */
  datatype Mode = Target | Initiator

  // Bus control timings of chapter 5 of SCSI-2 (ANSI X3.131-1994).
  const ArbitrationDelayNs := 2400
  const AssertionPeriodNs := 90
  const BusClearDelayNs := 800
  const BusFreeDelayNs := 800
  const BusSetDelayNs := 1800
  const BusSettleDelayNs := 400
  const CableSkewDelayNs := 10
  const DataReleaseDelayNs := 400
  const DeskewDelayNs := 45
  const DisconnectionDelayUs := 200
  const HoldTimeNs := 45
  const NegationPeriodNs := 90
  const PowerOnToSelectionTimeS := 10
  const ResetToSelectionTimeUs := 250 * 1000
  const ResetHoldTimeUs := 25
  const SelectionAbortTimeUs := 200
  const SelectionTimeoutDelayNs := 250 * 1000

  /** The delay_after_bytes value that asks SendHandShake for no extra pause. */
  const SendNoDelay: int := -1

  /** The opcode-to-CDB-length table behind BUS::GetCommandByteCount; 0 marks an unknown opcode. */
  type CommandLengths = byte -> nat
}
