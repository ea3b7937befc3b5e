/**
 * The receive path and the release of CTapDriver, the TAP interface behind
 * the emulated network adapter.  poll() and read() on the TAP descriptor
 * are given as parameters: whether poll reported POLLIN, and what read
 * returned.
 */
module TapDriver {
  import opened Bus

  /** The length of an Ethernet address. */
  const MacLength := 6
  /** ETH_FRAME_LEN from <linux/if_ether.h>: the most read() is asked for. */
  const EthFrameLen := 1514
  /** The shortest frame without its FCS; shorter frames are padded to it. */
  const MinPayload := 60
  /** The length of the frame check sequence. */
  const FcsLength := 4
  /** minFrameSize of IEEE 802.3, clause 4.4.2: 64 bytes including the FCS. */
  const MinFrameSize := 64

  /** What read() on the descriptor returned: -1, or the bytes it stored. */
  datatype ReadResult = ReadFailed | Read(data: seq<byte>)

  /** The length Rx returns for n bytes read. */
  function FrameLength(n: nat): (r: nat)
  {
    if n == 0 then 0
    else if n < MinPayload then MinPayload + FcsLength
    else n + FcsLength
  }

  /** The buffer after `data` was read into it and padded: zeros up to the frame's end, the rest as it was. */
  function Padded(buf: seq<byte>, data: seq<byte>): (r: seq<byte>)
    requires FrameLength(|data|) <= |buf|
  {
    var end := FrameLength(|data|);
    data + seq(end - |data|, _ => 0) + buf[end..]
  }

  /**
   * A frame that arrives is at least minFrameSize long: a short one is
   * padded to 60 bytes, and every one gets a 4-byte FCS.  Nothing arrived
   * means a length of 0.  A frame of at most ETH_FRAME_LEN bytes fits in
   * ETH_FRAME_LEN + 4.
   */
  lemma FrameLengthBounds(n: nat)
    ensures n == 0 <==> FrameLength(n) == 0
    ensures 0 < n < MinPayload ==> FrameLength(n) == MinFrameSize
    ensures MinPayload <= n ==> FrameLength(n) == n + FcsLength
    ensures 0 < n ==> MinFrameSize <= FrameLength(n) && n + FcsLength <= FrameLength(n)
    ensures n <= EthFrameLen ==> FrameLength(n) <= EthFrameLen + FcsLength
  {
  }

  /**
   * Padding keeps the bytes read, zeroes the bytes from their end up to the
   * frame's end, and leaves the rest of the buffer alone; nothing read
   * leaves the buffer unchanged.
   */
  lemma PaddedLayout(buf: seq<byte>, data: seq<byte>)
    requires FrameLength(|data|) <= |buf|
    ensures var r := Padded(buf, data); var end := FrameLength(|data|);
      && |r| == |buf|
      && r[..|data|] == data
      && (forall i :: |data| <= i < end ==> r[i] == 0)
      && r[end..] == buf[end..]
      && (data == [] ==> r == buf)
  {
    var r := Padded(buf, data);
    var end := FrameLength(|data|);
    assert r == data + (seq(end - |data|, _ => 0) + buf[end..]);
    assert r[..|data|] == data;
    assert r[end..] == buf[end..];
  }

  /** One byte of the padded buffer. */
  lemma PaddedAt(buf: seq<byte>, data: seq<byte>, i: nat)
    requires FrameLength(|data|) <= |buf| && i < |buf|
    ensures Padded(buf, data)[i] == if i < |data| then data[i] else if i < FrameLength(|data|) then 0 else buf[i]
  {
    PaddedLayout(buf, data);
    var r := Padded(buf, data);
    var end := FrameLength(|data|);
    if i < |data| {
      assert r[..|data|][i] == data[i];
    } else if end <= i {
      assert r[end..][i - end] == buf[end..][i - end];
    }
  }

  class TapDriver {
    /** m_hTAP: the open descriptor, or -1. */
    var handle: int
    /** Every descriptor close() was called on, in order. */
    var closed: seq<int>

    /** m_MacAddr: the adapter's Ethernet address. */
    var mac: seq<byte>

    /** A new driver has no descriptor, has closed nothing and has an all-zero MAC address. */
    constructor ()
      ensures handle == -1 && closed == []
      ensures |mac| == MacLength && forall i :: 0 <= i < |mac| ==> mac[i] == 0
    {
      handle := -1;
      closed := [];
      mac := seq(MacLength, _ => 0);
    }

    /**
     * The first step of Init: the descriptor open() returned is kept,
     * and Init goes on only when it is not negative.
     */
    method Open(fd: int) returns (ok: bool)
      requires -1 <= fd
      modifies this`handle
      ensures handle == fd
      ensures ok <==> handle != -1
    {
      handle := fd;
      ok := handle >= 0;
    }

    /** Closes the descriptor once and forgets it. */
    method Cleanup()
      modifies this
      ensures (handle, closed) == Cleaned(old(handle), old(closed))
    {
      if handle != -1 {
        closed := closed + [handle];
        handle := -1;
      }
    }

    /**
     * Receives at most one frame into `buf` without blocking: 0 when poll
     * reports no data or the read fails, else the padded frame's length,
     * with the frame in place.
     */
    method Rx(buf: array<byte>, pollIn: bool, read: ReadResult) returns (n: nat)
      requires handle != -1
      requires read.Read? ==> |read.data| <= EthFrameLen
      requires EthFrameLen + FcsLength <= buf.Length
      modifies buf
      ensures !pollIn || read.ReadFailed? ==> n == 0 && buf[..] == old(buf[..])
      ensures pollIn && read.Read? ==> n == FrameLength(|read.data|) && buf[..] == Padded(old(buf[..]), read.data)
    {
      if !pollIn {
        return 0;
      }
      if read.ReadFailed? {
        return 0;
      }
      var data := read.data;
      ghost var before := buf[..];
      forall i | 0 <= i < |data| {
        buf[i] := data[i];
      }
      n := |data|;
      if n > 0 {
        if n < MinPayload {
          forall i | n <= i < MinPayload {
            buf[i] := 0;
          }
          n := MinPayload;
        }
        forall i | n <= i < n + FcsLength {
          buf[i] := 0;
        }
        n := n + FcsLength;
      }
      forall i | 0 <= i < buf.Length
        ensures buf[i] == Padded(before, data)[i]
      {
        PaddedAt(before, data, i);
      }
      assert buf[..] == Padded(before, data);
    }
  }

  /** The handle and the closed descriptors after Cleanup. */
  function Cleaned(handle: int, closed: seq<int>): (r: (int, seq<int>))
  {
    if handle == -1 then (handle, closed) else (-1, closed + [handle])
  }

  /**
   * Cleanup leaves no descriptor behind and closes the open one, if any,
   * exactly once; a second Cleanup changes nothing.
   */
  lemma CleanupIdempotent(handle: int, closed: seq<int>)
    ensures Cleaned(handle, closed).0 == -1
    ensures Cleaned(handle, closed).1 == closed + (if handle == -1 then [] else [handle])
    ensures var (h, c) := Cleaned(handle, closed); Cleaned(h, c) == (h, c)
  {
  }
}
