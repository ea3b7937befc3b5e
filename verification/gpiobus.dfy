/**
 * GPIOBUS: the REQ/ACK handshake engine shared by every bus backend.
 *
 * The other side of the bus is a scripted peer: the k-th acquisition of the
 * lines returns `peer.samples(k)`, and `now` is the index of the next one.
 * WaitSignal's three-second window is a poll budget: the first poll plus
 * `peer.polls` more. Everything this side does to the bus is appended to
 * `log`, so the order of REQ, ACK, ATN and IRQ changes can be stated.
 * Each handshake loop is proved equal to a recursive specification function
 * below; what the engine promises is proved about those functions.
 */
module GpioBus {
  import opened Bus

  /** One acquisition: the asserted control lines, the data lines and the phase the bus decodes. */
  datatype Sample = Sample(asserted: set<Signal>, dat: byte, phase: Phase)

  /** The other side of the bus, as this side observes it. */
  datatype Peer = Peer(samples: nat -> Sample, polls: nat)

  /** What this side does on the bus, in order. */
  datatype Action =
    | IrqOff
    | IrqOn
    | Drive(signal: Signal, on: bool)
    | DriveDat(value: byte)
    | Await(signal: Signal, on: bool, seen: bool)   // one WaitSignal call and its result
    | PhaseSeen(phase: Phase)                       // Acquire followed by GetPhase
    | PeerPause                                     // the pause SendHandShake inserts for slow peers
    | BusReset

  /** The lines this side drives, replayed from its actions. */
  datatype Lines = Lines(bsy: bool, sel: bool, atn: bool, ack: bool, req: bool, dat: byte, irq: bool)

  const Idle := Lines(false, false, false, false, false, 0, true)

  function Step(l: Lines, a: Action): (r: Lines)
  {
    match a
    case IrqOff => l.(irq := false)
    case IrqOn => l.(irq := true)
    case Drive(s, on) =>
      if s == BSY then l.(bsy := on)
      else if s == SEL then l.(sel := on)
      else if s == ATN then l.(atn := on)
      else if s == ACK then l.(ack := on)
      else if s == REQ then l.(req := on)
      else l
    case DriveDat(v) => l.(dat := v)
    case BusReset => Idle.(irq := l.irq)
    case _ => l
  }

  function Replay(l: Lines, log: seq<Action>): (r: Lines)
    decreases |log|
  {
    if log == [] then l else Step(Replay(l, log[..|log| - 1]), log[|log| - 1])
  }

  lemma {:induction false} ReplayAppend(l: Lines, a: seq<Action>, b: seq<Action>)
    ensures Replay(l, a + b) == Replay(Replay(l, a), b)
    decreases |b|
  {
    if b == [] {
      assert a + b == a;
    } else {
      assert (a + b)[..|a + b| - 1] == a + b[..|b| - 1];
      ReplayAppend(l, a, b[..|b| - 1]);
    }
  }

  // ---------------------------------------------------------------------
  // WaitSignal

  datatype WaitOut = WaitOut(seen: bool, next: nat)

  /** A poll that decides for the level: RST is not asserted and the line is at the level. */
  predicate Shows(x: Sample, s: Signal, on: bool)
  {
    RST !in x.asserted && (s in x.asserted) == on
  }

  /** No poll from sample t up to (not including) sample u showed RST. */
  predicate NoResetBefore(peer: Peer, t: nat, u: nat)
  {
    forall v :: t <= v < u ==> RST !in peer.samples(v).asserted
  }

  /** Polls from sample t with `left` polls still allowed after this one. */
  function Poll(peer: Peer, t: nat, s: Signal, on: bool, left: nat): (r: WaitOut)
    decreases left
  {
    var x := peer.samples(t);
    if RST in x.asserted then WaitOut(false, t + 1)
    else if (s in x.asserted) == on then WaitOut(true, t + 1)
    else if left == 0 then WaitOut(false, t + 1)
    else Poll(peer, t + 1, s, on, left - 1)
  }

  function Wait(peer: Peer, t: nat, s: Signal, on: bool): (r: WaitOut)
  {
    Poll(peer, t, s, on, peer.polls)
  }

  /**
   * WaitSignal polls at least once and at most once per budget slot; it
   * reports the level exactly when some poll in the window shows it before
   * any poll shows RST, and it stops at the deciding poll.
   */
  lemma {:induction false} PollOutcome(peer: Peer, t: nat, s: Signal, on: bool, left: nat)
    ensures var w := Poll(peer, t, s, on, left);
      && t < w.next <= t + left + 1
      && (w.seen <==> exists u :: t <= u <= t + left && Shows(peer.samples(u), s, on) && NoResetBefore(peer, t, u))
      && (w.seen ==> Shows(peer.samples(w.next - 1), s, on))
      && (RST in peer.samples(t).asserted ==> !w.seen && w.next == t + 1)
    decreases left
  {
    var w := Poll(peer, t, s, on, left);
    var x := peer.samples(t);
    if RST in x.asserted {
    } else if (s in x.asserted) == on {
      assert Shows(peer.samples(t), s, on) && NoResetBefore(peer, t, t);
    } else if left == 0 {
      if u :| t <= u <= t + left && Shows(peer.samples(u), s, on) && NoResetBefore(peer, t, u) {
        assert u == t;
      }
    } else {
      PollOutcome(peer, t + 1, s, on, left - 1);
      if w.seen {
        var u :| t + 1 <= u <= t + 1 + (left - 1) && Shows(peer.samples(u), s, on) && NoResetBefore(peer, t + 1, u);
        assert NoResetBefore(peer, t, u);
      } else {
        if u :| t <= u <= t + left && Shows(peer.samples(u), s, on) && NoResetBefore(peer, t, u) {
          assert u != t;
          assert NoResetBefore(peer, t + 1, u);
          assert false;
        }
      }
    }
  }

  /** Every wait consumes at least one sample. */
  lemma WaitAdvances(peer: Peer, t: nat, s: Signal, on: bool)
    ensures t < Wait(peer, t, s, on).next
  {
    PollOutcome(peer, t, s, on, peer.polls);
  }

  // ---------------------------------------------------------------------
  // Specification of the handshake loops

  /** The outcome of a handshake: bytes counted, buffer after, next sample, actions. */
  datatype Transfer = Transfer(count: nat, buf: seq<byte>, next: nat, log: seq<Action>)

  /** One target-side byte: REQ on, wait for ACK, read DAT, REQ off, then (if ACK came) wait for ACK release. */
  datatype Exchange = Exchange(value: byte, acked: bool, released: bool, next: nat, log: seq<Action>)

  function TargetIn(peer: Peer, t: nat): (r: Exchange)
  {
    var w1 := Wait(peer, t, ACK, true);
    var value := peer.samples(w1.next).dat;
    var e := if !w1.seen then Exchange(value, false, false, w1.next + 1, [])
    else
      var w2 := Wait(peer, w1.next + 1, ACK, false);
      Exchange(value, true, w2.seen, w2.next, [Await(ACK, false, w2.seen)]);
    e.(log := [Drive(REQ, true), Await(ACK, true, w1.seen), Drive(REQ, false)] + e.log)
  }

  /** One initiator-side byte in: the byte read (stored once REQ came) and whether the loop goes on. */
  datatype Beat = Beat(value: byte, stored: bool, ok: bool, next: nat, log: seq<Action>)

  /** One byte out: whether the loop goes on, the next sample and the actions. */
  datatype Out = Out(ok: bool, next: nat, log: seq<Action>)

  /**
   * The initiator's half of a byte once REQ has come, in both directions:
   * assert ACK, wait for REQ release, release ACK and, when REQ was
   * released, sample the phase; the loop goes on only if the phase held.
   */
  function AckCycle(peer: Peer, t: nat, phase: Phase): (r: Out)
  {
    var w := Wait(peer, t, REQ, false);
    var p := peer.samples(w.next).phase;
    var tail := if w.seen then [PhaseSeen(p)] else [];
    Out(w.seen && p == phase, if w.seen then w.next + 1 else w.next,
        [Drive(ACK, true), Await(REQ, false, w.seen), Drive(ACK, false)] + tail)
  }

  /** Wait for REQ, read DAT, then the ACK cycle. */
  function InitiatorIn(peer: Peer, t: nat, phase: Phase): (r: Beat)
  {
    var w1 := Wait(peer, t, REQ, true);
    var c :=
      if !w1.seen then Beat(0, false, false, w1.next, [])
      else
        var a := AckCycle(peer, w1.next + 1, phase);
        Beat(peer.samples(w1.next).dat, true, a.ok, a.next, a.log);
    c.(log := [Await(REQ, true, w1.seen)] + c.log)
  }

  /** Target side: optional pause, put the byte on DAT, wait for ACK release, pulse REQ around the ACK wait. */
  function TargetOut(peer: Peer, t: nat, b: byte, pause: bool): (r: Out)
  {
    var w1 := Wait(peer, t, ACK, false);
    var o :=
      if !w1.seen then Out(false, w1.next, [])
      else
        var w2 := Wait(peer, w1.next, ACK, true);
        Out(w2.seen, w2.next, [Drive(REQ, true), Await(ACK, true, w2.seen), Drive(REQ, false)]);
    var head := if pause then [PeerPause] else [];
    o.(log := head + [DriveDat(b), Await(ACK, false, w1.seen)] + o.log)
  }

  /** Initiator side: put the byte on DAT, wait for REQ, optionally drop ATN, pulse ACK, sample the phase. */
  function InitiatorOut(peer: Peer, t: nat, b: byte, dropAtn: bool, phase: Phase): (r: Out)
  {
    var w1 := Wait(peer, t, REQ, true);
    if !w1.seen then Out(false, w1.next, [DriveDat(b), Await(REQ, true, false)])
    else
      var atn := if dropAtn then [Drive(ATN, false)] else [];
      var a := AckCycle(peer, w1.next, phase);
      a.(log := [DriveDat(b), Await(REQ, true, true)] + atn + a.log)
  }

  /** Target receive loop from byte i to n: each slot gets the byte read, the loop stops at the first timeout. */
  function TargetReceiveFrom(peer: Peer, t: nat, buf: seq<byte>, i: nat, n: nat): (o: Transfer)
    requires i <= n <= |buf|
    ensures |o.buf| == |buf|
    decreases n - i, 1
  {
    if i == n then Transfer(i, buf, t, [])
    else TargetReceiveOn(peer, buf, i, n, TargetIn(peer, t))
  }

  /** The target receive loop once byte i has been exchanged as `e`. */
  function TargetReceiveOn(peer: Peer, buf: seq<byte>, i: nat, n: nat, e: Exchange): (o: Transfer)
    requires i < n <= |buf|
    ensures |o.buf| == |buf|
    decreases n - i, 0
  {
    var buf' := buf[i := e.value];
    if !(e.acked && e.released) then Transfer(i, buf', e.next, e.log)
    else
      var rest := TargetReceiveFrom(peer, e.next, buf', i + 1, n);
      rest.(log := e.log + rest.log)
  }

  /** Initiator receive loop: a byte is stored once its REQ came, counted once the phase held after it. */
  function InitiatorReceiveFrom(peer: Peer, t: nat, buf: seq<byte>, i: nat, n: nat, phase: Phase): (o: Transfer)
    requires i <= n <= |buf|
    ensures |o.buf| == |buf|
    decreases n - i, 1
  {
    if i == n then Transfer(i, buf, t, [])
    else InitiatorReceiveOn(peer, buf, i, n, phase, InitiatorIn(peer, t, phase))
  }

  /** The initiator receive loop once byte i has gone as `c`. */
  function InitiatorReceiveOn(peer: Peer, buf: seq<byte>, i: nat, n: nat, phase: Phase, c: Beat): (o: Transfer)
    requires i < n <= |buf|
    ensures |o.buf| == |buf|
    decreases n - i, 0
  {
    var buf' := if c.stored then buf[i := c.value] else buf;
    if !c.ok then Transfer(i, buf', c.next, c.log)
    else
      var rest := InitiatorReceiveFrom(peer, c.next, buf', i + 1, n, phase);
      rest.(log := c.log + rest.log)
  }

  /** Target send loop; the pause comes before byte `delay`. */
  function TargetSendFrom(peer: Peer, t: nat, data: seq<byte>, i: nat, n: nat, delay: int): (r: Transfer)
    requires i <= n <= |data|
    decreases n - i, 1
  {
    if i == n then Transfer(i, data, t, [])
    else TargetSendOn(peer, data, i, n, delay, TargetOut(peer, t, data[i], i == delay))
  }

  /** The target send loop once byte i has gone as `c`. */
  function TargetSendOn(peer: Peer, data: seq<byte>, i: nat, n: nat, delay: int, c: Out): (r: Transfer)
    requires i < n <= |data|
    decreases n - i, 0
  {
    if !c.ok then Transfer(i, data, c.next, c.log)
    else
      var rest := TargetSendFrom(peer, c.next, data, i + 1, n, delay);
      rest.(log := c.log + rest.log)
  }

  /** Initiator send loop; ATN is dropped before ACK of the last byte of a MESSAGE OUT phase. */
  function InitiatorSendFrom(peer: Peer, t: nat, data: seq<byte>, i: nat, n: nat, phase: Phase): (r: Transfer)
    requires i <= n <= |data|
    decreases n - i, 1
  {
    if i == n then Transfer(i, data, t, [])
    else InitiatorSendOn(peer, data, i, n, phase, InitiatorOut(peer, t, data[i], phase == MsgOut && i == n - 1, phase))
  }

  /** The initiator send loop once byte i has gone as `c`. */
  function InitiatorSendOn(peer: Peer, data: seq<byte>, i: nat, n: nat, phase: Phase, c: Out): (r: Transfer)
    requires i < n <= |data|
    decreases n - i, 0
  {
    if !c.ok then Transfer(i, data, c.next, c.log)
    else
      var rest := InitiatorSendFrom(peer, c.next, data, i + 1, n, phase);
      rest.(log := c.log + rest.log)
  }

  /** `rest`, run after the actions `done`, completes `whole`. */
  predicate Continues(whole: Transfer, rest: Transfer, done: seq<Action>)
  {
    whole.count == rest.count && whole.buf == rest.buf && whole.next == rest.next && whole.log == done + rest.log
  }

  /** A loop step that succeeded: the rest of the loop, after the step's actions, still completes `whole`. */
  lemma ContinuesStep(whole: Transfer, o: Transfer, rest: Transfer, done: seq<Action>, step: seq<Action>)
    requires Continues(whole, o, done) && o == rest.(log := step + rest.log)
    ensures Continues(whole, rest, done + step)
  {
    AppendAssoc(done, step, rest.log);
  }

  /** A loop step that ended the loop: `whole` is what has been done so far. */
  lemma ContinuesStop(whole: Transfer, o: Transfer, done: seq<Action>, count: nat, buf: seq<byte>, next: nat, step: seq<Action>)
    requires Continues(whole, o, done) && o == Transfer(count, buf, next, step)
    ensures whole == Transfer(count, buf, next, done + step)
  {
  }

  // One unrolling of each loop function, stated once so that the loops need not unfold it.

  lemma TargetReceiveNext(whole: Transfer, done: seq<Action>, peer: Peer, t: nat, buf: seq<byte>, i: nat, n: nat,
                          ok: bool, next: nat, buf': seq<byte>, step: seq<Action>)
    requires i < n <= |buf|
    requires Continues(whole, TargetReceiveFrom(peer, t, buf, i, n), done)
    requires var e := TargetIn(peer, t);
      ok == (e.acked && e.released) && next == e.next && buf' == buf[i := e.value] && step == e.log
    ensures ok ==> Continues(whole, TargetReceiveFrom(peer, next, buf', i + 1, n), done + step)
    ensures !ok ==> whole == Transfer(i, buf', next, done + step)
  {
    assert TargetReceiveFrom(peer, t, buf, i, n) == TargetReceiveOn(peer, buf, i, n, TargetIn(peer, t));
    if ok {
      ContinuesStep(whole, TargetReceiveFrom(peer, t, buf, i, n), TargetReceiveFrom(peer, next, buf', i + 1, n), done, step);
    }
  }

  lemma InitiatorReceiveNext(whole: Transfer, done: seq<Action>, peer: Peer, t: nat, buf: seq<byte>, i: nat, n: nat, phase: Phase,
                             ok: bool, next: nat, buf': seq<byte>, step: seq<Action>)
    requires i < n <= |buf|
    requires Continues(whole, InitiatorReceiveFrom(peer, t, buf, i, n, phase), done)
    requires var c := InitiatorIn(peer, t, phase);
      ok == c.ok && next == c.next && buf' == (if c.stored then buf[i := c.value] else buf) && step == c.log
    ensures ok ==> Continues(whole, InitiatorReceiveFrom(peer, next, buf', i + 1, n, phase), done + step)
    ensures !ok ==> whole == Transfer(i, buf', next, done + step)
  {
    assert InitiatorReceiveFrom(peer, t, buf, i, n, phase) == InitiatorReceiveOn(peer, buf, i, n, phase, InitiatorIn(peer, t, phase));
    if ok {
      ContinuesStep(whole, InitiatorReceiveFrom(peer, t, buf, i, n, phase), InitiatorReceiveFrom(peer, next, buf', i + 1, n, phase), done, step);
    }
  }

  lemma TargetSendNext(whole: Transfer, done: seq<Action>, peer: Peer, t: nat, data: seq<byte>, i: nat, n: nat, delay: int,
                       ok: bool, next: nat, step: seq<Action>)
    requires i < n <= |data|
    requires Continues(whole, TargetSendFrom(peer, t, data, i, n, delay), done)
    requires var c := TargetOut(peer, t, data[i], i == delay);
      ok == c.ok && next == c.next && step == c.log
    ensures ok ==> Continues(whole, TargetSendFrom(peer, next, data, i + 1, n, delay), done + step)
    ensures !ok ==> whole == Transfer(i, data, next, done + step)
  {
    assert TargetSendFrom(peer, t, data, i, n, delay) == TargetSendOn(peer, data, i, n, delay, TargetOut(peer, t, data[i], i == delay));
    if ok {
      ContinuesStep(whole, TargetSendFrom(peer, t, data, i, n, delay), TargetSendFrom(peer, next, data, i + 1, n, delay), done, step);
    }
  }

  lemma InitiatorSendNext(whole: Transfer, done: seq<Action>, peer: Peer, t: nat, data: seq<byte>, i: nat, n: nat, phase: Phase,
                          ok: bool, next: nat, step: seq<Action>)
    requires i < n <= |data|
    requires Continues(whole, InitiatorSendFrom(peer, t, data, i, n, phase), done)
    requires var c := InitiatorOut(peer, t, data[i], phase == MsgOut && i == n - 1, phase);
      ok == c.ok && next == c.next && step == c.log
    ensures ok ==> Continues(whole, InitiatorSendFrom(peer, next, data, i + 1, n, phase), done + step)
    ensures !ok ==> whole == Transfer(i, data, next, done + step)
  {
    assert InitiatorSendFrom(peer, t, data, i, n, phase) == InitiatorSendOn(peer, data, i, n, phase, InitiatorOut(peer, t, data[i], phase == MsgOut && i == n - 1, phase));
    if ok {
      ContinuesStep(whole, InitiatorSendFrom(peer, t, data, i, n, phase), InitiatorSendFrom(peer, next, data, i + 1, n, phase), done, step);
    }
  }

  lemma AppendAssoc<T>(a: seq<T>, b: seq<T>, c: seq<T>)
    ensures (a + b) + c == a + (b + c)
  {
  }

  lemma Framed<T>(before: seq<T>, head: seq<T>, body: seq<T>, tail: seq<T>)
    ensures before + head + body + tail == before + (head + body + tail)
  {
  }

  function Clamp(count: int): (r: nat) { if count < 0 then 0 else count }

  /** What ReceiveHandShake does between disabling and re-enabling IRQs: the role's loop. */
  function ReceiveInner(mode: Mode, peer: Peer, t: nat, buf: seq<byte>, count: int): (o: Transfer)
    requires count <= |buf|
    ensures |o.buf| == |buf|
  {
    if mode == Target then TargetReceiveFrom(peer, t, buf, 0, Clamp(count))
    else
      var p := peer.samples(t).phase;
      var o := InitiatorReceiveFrom(peer, t + 1, buf, 0, Clamp(count), p);
      o.(log := [PhaseSeen(p)] + o.log)
  }

  function ReceiveSpec(mode: Mode, peer: Peer, t: nat, buf: seq<byte>, count: int): (o: Transfer)
    requires count <= |buf|
    ensures |o.buf| == |buf|
  {
    var o := ReceiveInner(mode, peer, t, buf, count);
    o.(log := [IrqOff] + o.log + [IrqOn])
  }

  /** What SendHandShake does between disabling and re-enabling IRQs; the target's last ACK-release wait is not consulted. */
  function SendInner(mode: Mode, peer: Peer, t: nat, data: seq<byte>, count: int, delay: int): (r: Transfer)
    requires count <= |data|
  {
    if mode == Target then
      var o := TargetSendFrom(peer, t, data, 0, Clamp(count), delay);
      var w := Wait(peer, o.next, ACK, false);
      Transfer(o.count, data, w.next, o.log + [Await(ACK, false, w.seen)])
    else
      var p := peer.samples(t).phase;
      var o := InitiatorSendFrom(peer, t + 1, data, 0, Clamp(count), p);
      o.(log := [PhaseSeen(p)] + o.log)
  }

  function SendSpec(mode: Mode, peer: Peer, t: nat, data: seq<byte>, count: int, delay: int): (r: Transfer)
    requires count <= |data|
  {
    var o := SendInner(mode, peer, t, data, count, delay);
    o.(log := [IrqOff] + o.log + [IrqOn])
  }

  /** The part of CommandHandShake after the opcode: look up the CDB length, receive bytes 1 to n - 1. */
  function CommandBytes(peer: Peer, lengths: CommandLengths, t: nat, buf: seq<byte>): (o: Transfer)
    requires 1 <= |buf| && forall op :: lengths(op) <= |buf|
    ensures |o.buf| == |buf|
  {
    var op := buf[0];
    var n := lengths(op);
    assert n <= |buf|;
    if n == 0 then Transfer(0, buf, t, [])
    else TargetReceiveFrom(peer, t, buf, 1, n)
  }

  /** What CommandHandShake does between disabling and re-enabling IRQs: opcode, optional ICD prefix, the rest. */
  function CommandInner(peer: Peer, lengths: CommandLengths, t: nat, buf: seq<byte>): (o: Transfer)
    requires 1 <= |buf| && forall op :: lengths(op) <= |buf|
    ensures |o.buf| == |buf|
  {
    var first := TargetIn(peer, t);
    var buf0 := buf[0 := first.value];
    if !(first.acked && first.released) then Transfer(0, buf0, first.next, first.log)
    else if first.value == 0x1F then
      var icd := TargetIn(peer, first.next);
      var buf1 := buf0[0 := icd.value];
      // the result of the second ACK-release wait is not consulted
      if !icd.acked then Transfer(0, buf1, icd.next, first.log + icd.log)
      else
        var rest := CommandBytes(peer, lengths, icd.next, buf1);
        rest.(log := first.log + icd.log + rest.log)
    else
      var rest := CommandBytes(peer, lengths, first.next, buf0);
      rest.(log := first.log + rest.log)
  }

  /** CommandHandShake: every exit re-enables IRQs. */
  function CommandSpec(peer: Peer, lengths: CommandLengths, t: nat, buf: seq<byte>): (o: Transfer)
    requires 1 <= |buf| && forall op :: lengths(op) <= |buf|
    ensures |o.buf| == |buf|
  {
    var o := CommandInner(peer, lengths, t, buf);
    o.(log := [IrqOff] + o.log + [IrqOn])
  }

  // ---------------------------------------------------------------------
  // Properties of the handshakes

  /** No wait in the log timed out. */
  predicate AllSeen(log: seq<Action>)
  {
    forall a :: a in log && a.Await? ==> a.seen
  }

  /** Every phase sampled in the log is the given one. */
  predicate PhaseHeld(log: seq<Action>, phase: Phase)
  {
    forall a :: a in log && a.PhaseSeen? ==> a.phase == phase
  }

  predicate NoIrq(log: seq<Action>)
  {
    IrqOn !in log && IrqOff !in log
  }

  /**
   * Every assertion of `line` is followed by exactly one wait for `peerLine`
   * and then by the release of `line`: a handshake line is never left asserted.
   */
  predicate Pulsed(log: seq<Action>, line: Signal, peerLine: Signal)
  {
    forall j :: 0 <= j < |log| && log[j] == Drive(line, true) ==>
      j + 2 < |log| && log[j + 1].Await? && log[j + 1].signal == peerLine && log[j + 2] == Drive(line, false)
  }

  lemma PulsedAppend(a: seq<Action>, b: seq<Action>, line: Signal, peerLine: Signal)
    requires Pulsed(a, line, peerLine) && Pulsed(b, line, peerLine)
    ensures Pulsed(a + b, line, peerLine)
  {
    var ab := a + b;
    forall j | 0 <= j < |ab| && ab[j] == Drive(line, true)
      ensures j + 2 < |ab| && ab[j + 1].Await? && ab[j + 1].signal == peerLine && ab[j + 2] == Drive(line, false)
    {
      if j < |a| {
        assert a[j] == Drive(line, true);
      } else {
        assert b[j - |a|] == Drive(line, true);
      }
    }
  }

  /** One loop step: the step's log followed, when it succeeded, by the rest of the loop. */
  lemma PulsedStep(whole: seq<Action>, head: seq<Action>, ok: bool, rest: seq<Action>, line: Signal, peerLine: Signal)
    requires whole == if ok then head + rest else head
    requires Pulsed(head, line, peerLine) && Pulsed(rest, line, peerLine)
    ensures Pulsed(whole, line, peerLine)
  {
    PulsedAppend(head, rest, line, peerLine);
  }

  lemma TargetInShape(peer: Peer, t: nat)
    ensures var e := TargetIn(peer, t);
      && t < e.next
      && NoIrq(e.log) && Pulsed(e.log, REQ, ACK) && Drive(ACK, true) !in e.log && PeerPause !in e.log
      && (AllSeen(e.log) <==> e.acked && e.released)
      && (e.released ==> e.acked)
  {
    var e := TargetIn(peer, t);
    var w1 := Wait(peer, t, ACK, true);
    WaitAdvances(peer, t, ACK, true);
    WaitAdvances(peer, w1.next + 1, ACK, false);
    forall j | 0 <= j < |e.log| && e.log[j] == Drive(REQ, true)
      ensures j + 2 < |e.log| && e.log[j + 1].Await? && e.log[j + 1].signal == ACK && e.log[j + 2] == Drive(REQ, false)
    {
      assert j == 0;
    }
    assert e.log[1] == Await(ACK, true, e.acked);
  }

  /**
   * The target receive loop counts the bytes whose handshake completed: the
   * count lies between the start and the end, it reaches the end exactly when
   * no wait timed out, only the slots from the start up to the count (the slot
   * of a failed byte included) are written.
   */
  lemma {:induction false} TargetReceiveFacts(peer: Peer, t: nat, buf: seq<byte>, i: nat, n: nat)
    requires i <= n <= |buf|
    ensures var o := TargetReceiveFrom(peer, t, buf, i, n);
      && i <= o.count <= n && t <= o.next
      && (o.count == n <==> AllSeen(o.log))
      && (forall k :: 0 <= k < |buf| && (k < i || k > o.count) ==> o.buf[k] == buf[k])
    decreases n - i
  {
    if i < n {
      var e := TargetIn(peer, t);
      TargetInShape(peer, t);
      if e.acked && e.released {
        TargetReceiveFacts(peer, e.next, buf[i := e.value], i + 1, n);
      }
    }
  }

  /** The target receive loop leaves IRQs alone, never asserts ACK, and always releases REQ. */
  lemma {:induction false} TargetReceiveLines(peer: Peer, t: nat, buf: seq<byte>, i: nat, n: nat)
    requires i <= n <= |buf|
    ensures var o := TargetReceiveFrom(peer, t, buf, i, n);
      NoIrq(o.log) && Pulsed(o.log, REQ, ACK) && Drive(ACK, true) !in o.log && PeerPause !in o.log
    decreases n - i
  {
    if i < n {
      var e := TargetIn(peer, t);
      TargetInShape(peer, t);
      if e.acked && e.released {
        var rest := TargetReceiveFrom(peer, e.next, buf[i := e.value], i + 1, n);
        TargetReceiveLines(peer, e.next, buf[i := e.value], i + 1, n);
        PulsedAppend(e.log, rest.log, REQ, ACK);
      }
    }
  }

  lemma InitiatorInLines(peer: Peer, t: nat, phase: Phase)
    ensures var c := InitiatorIn(peer, t, phase);
      NoIrq(c.log) && Drive(REQ, true) !in c.log && PeerPause !in c.log
  {
  }

  lemma InitiatorInPulsed(peer: Peer, t: nat, phase: Phase)
    ensures Pulsed(InitiatorIn(peer, t, phase).log, ACK, REQ)
  {
    var c := InitiatorIn(peer, t, phase);
    forall j | 0 <= j < |c.log| && c.log[j] == Drive(ACK, true)
      ensures j + 2 < |c.log| && c.log[j + 1].Await? && c.log[j + 1].signal == REQ && c.log[j + 2] == Drive(ACK, false)
    {
      assert j == 1;
    }
  }

  lemma InitiatorInOutcome(peer: Peer, t: nat, phase: Phase)
    ensures var c := InitiatorIn(peer, t, phase);
      && t < c.next
      && (c.ok <==> AllSeen(c.log) && PhaseHeld(c.log, phase))
      && (c.ok ==> c.stored)
  {
    var c := InitiatorIn(peer, t, phase);
    var w1 := Wait(peer, t, REQ, true);
    WaitAdvances(peer, t, REQ, true);
    WaitAdvances(peer, w1.next + 1, REQ, false);
    if w1.seen {
      assert c.log[2] == Await(REQ, false, Wait(peer, w1.next + 1, REQ, false).seen);
    }
  }

  /**
   * The initiator receive loop: the count reaches the end exactly when no wait
   * timed out and the phase never changed; a byte read before a phase change
   * is stored but not counted.
   */
  lemma {:induction false} InitiatorReceiveFacts(peer: Peer, t: nat, buf: seq<byte>, i: nat, n: nat, phase: Phase)
    requires i <= n <= |buf|
    ensures var o := InitiatorReceiveFrom(peer, t, buf, i, n, phase);
      && i <= o.count <= n && t <= o.next
      && (o.count == n <==> AllSeen(o.log) && PhaseHeld(o.log, phase))
      && (forall k :: 0 <= k < |buf| && (k < i || k > o.count) ==> o.buf[k] == buf[k])
    decreases n - i
  {
    if i < n {
      var c := InitiatorIn(peer, t, phase);
      InitiatorInOutcome(peer, t, phase);
      if c.ok {
        InitiatorReceiveFacts(peer, c.next, buf[i := c.value], i + 1, n, phase);
      }
    }
  }

  /** The initiator receive loop leaves IRQs alone, never asserts REQ, and always releases ACK. */
  lemma {:induction false} InitiatorReceiveLines(peer: Peer, t: nat, buf: seq<byte>, i: nat, n: nat, phase: Phase)
    requires i <= n <= |buf|
    ensures var o := InitiatorReceiveFrom(peer, t, buf, i, n, phase);
      NoIrq(o.log) && Pulsed(o.log, ACK, REQ) && Drive(REQ, true) !in o.log && PeerPause !in o.log
    decreases n - i
  {
    if i < n {
      var c := InitiatorIn(peer, t, phase);
      InitiatorInLines(peer, t, phase);
      InitiatorInPulsed(peer, t, phase);
      if c.ok {
        var rest := InitiatorReceiveFrom(peer, c.next, buf[i := c.value], i + 1, n, phase);
        InitiatorReceiveLines(peer, c.next, buf[i := c.value], i + 1, n, phase);
        PulsedAppend(c.log, rest.log, ACK, REQ);
      }
    }
  }

  lemma TargetOutLines(peer: Peer, t: nat, b: byte, pause: bool)
    ensures var c := TargetOut(peer, t, b, pause);
      NoIrq(c.log) && Pulsed(c.log, REQ, ACK) && Drive(ACK, true) !in c.log
  {
    var c := TargetOut(peer, t, b, pause);
    var k := if pause then 1 else 0;
    forall j | 0 <= j < |c.log| && c.log[j] == Drive(REQ, true)
      ensures j + 2 < |c.log| && c.log[j + 1].Await? && c.log[j + 1].signal == ACK && c.log[j + 2] == Drive(REQ, false)
    {
      assert j == k + 2;
    }
  }

  lemma TargetOutOutcome(peer: Peer, t: nat, b: byte, pause: bool)
    ensures var c := TargetOut(peer, t, b, pause);
      && t < c.next
      && (c.ok <==> AllSeen(c.log))
      && (PeerPause in c.log <==> pause)
  {
    var c := TargetOut(peer, t, b, pause);
    var w1 := Wait(peer, t, ACK, false);
    WaitAdvances(peer, t, ACK, false);
    WaitAdvances(peer, w1.next, ACK, true);
    var k := if pause then 1 else 0;
    assert c.log[k + 1] == Await(ACK, false, w1.seen);
    if w1.seen {
      assert c.log[k + 3] == Await(ACK, true, c.ok);
    }
  }

  /**
   * The target send loop: the count reaches the end exactly when no wait timed
   * out, and the extra pause happens once, exactly
   * when the loop reaches byte `delay`.
   */
  lemma {:induction false} TargetSendFacts(peer: Peer, t: nat, data: seq<byte>, i: nat, n: nat, delay: int)
    requires i <= n <= |data|
    ensures var o := TargetSendFrom(peer, t, data, i, n, delay);
      && i <= o.count <= n && o.buf == data && t <= o.next
      && (o.count == n <==> AllSeen(o.log))
      && (PeerPause in o.log <==> i <= delay < n && delay <= o.count)
    decreases n - i
  {
    if i < n {
      var c := TargetOut(peer, t, data[i], i == delay);
      TargetOutOutcome(peer, t, data[i], i == delay);
      if c.ok {
        TargetSendFacts(peer, c.next, data, i + 1, n, delay);
      }
    }
  }

  /** The target send loop leaves IRQs alone and never asserts ACK. */
  lemma {:induction false} TargetSendLines(peer: Peer, t: nat, data: seq<byte>, i: nat, n: nat, delay: int)
    requires i <= n <= |data|
    ensures var o := TargetSendFrom(peer, t, data, i, n, delay);
      NoIrq(o.log) && Drive(ACK, true) !in o.log
    decreases n - i
  {
    if i < n {
      var c := TargetOut(peer, t, data[i], i == delay);
      TargetOutLines(peer, t, data[i], i == delay);
      if c.ok {
        TargetSendLines(peer, c.next, data, i + 1, n, delay);
      }
    }
  }

  lemma TargetSendPulsedStep(peer: Peer, t: nat, data: seq<byte>, i: nat, n: nat, delay: int)
    requires i < n <= |data|
    requires var c := TargetOut(peer, t, data[i], i == delay);
      c.ok ==> Pulsed(TargetSendFrom(peer, c.next, data, i + 1, n, delay).log, REQ, ACK)
    ensures Pulsed(TargetSendFrom(peer, t, data, i, n, delay).log, REQ, ACK)
  {
    var c := TargetOut(peer, t, data[i], i == delay);
    TargetOutLines(peer, t, data[i], i == delay);
    assert TargetSendFrom(peer, t, data, i, n, delay) == TargetSendOn(peer, data, i, n, delay, c);
    PulsedStep(TargetSendFrom(peer, t, data, i, n, delay).log, c.log, c.ok,
      if c.ok then TargetSendFrom(peer, c.next, data, i + 1, n, delay).log else [], REQ, ACK);
  }

  /** The target send loop always releases REQ after asserting it. */
  lemma {:induction false} TargetSendPulsed(peer: Peer, t: nat, data: seq<byte>, i: nat, n: nat, delay: int)
    requires i <= n <= |data|
    ensures Pulsed(TargetSendFrom(peer, t, data, i, n, delay).log, REQ, ACK)
    decreases n - i
  {
    if i < n {
      var c := TargetOut(peer, t, data[i], i == delay);
      if c.ok {
        TargetSendPulsed(peer, c.next, data, i + 1, n, delay);
      }
      TargetSendPulsedStep(peer, t, data, i, n, delay);
    }
  }

  /** ATN is released in the log only as the ATN step of a MESSAGE OUT byte: after its REQ, before its ACK. */
  predicate AtnDroppedInStep(log: seq<Action>)
  {
    forall j :: 0 <= j < |log| && log[j] == Drive(ATN, false) ==>
      0 < j < |log| - 1 && log[j - 1] == Await(REQ, true, true) && log[j + 1] == Drive(ACK, true)
  }

  lemma AtnAppend(a: seq<Action>, b: seq<Action>)
    requires AtnDroppedInStep(a) && AtnDroppedInStep(b)
    ensures AtnDroppedInStep(a + b)
  {
    var ab := a + b;
    forall j | 0 <= j < |ab| && ab[j] == Drive(ATN, false)
      ensures 0 < j < |ab| - 1 && ab[j - 1] == Await(REQ, true, true) && ab[j + 1] == Drive(ACK, true)
    {
      if j < |a| {
        assert a[j] == Drive(ATN, false);
      } else {
        assert b[j - |a|] == Drive(ATN, false);
      }
    }
  }

  /** One loop step: the step's log followed, when it succeeded, by the rest of the loop. */
  lemma AtnStep(whole: seq<Action>, head: seq<Action>, ok: bool, rest: seq<Action>)
    requires whole == if ok then head + rest else head
    requires AtnDroppedInStep(head) && AtnDroppedInStep(rest)
    ensures AtnDroppedInStep(whole)
  {
    AtnAppend(head, rest);
  }

  /** InitiatorOut once REQ has come: the head of the byte, then the ACK cycle. */
  lemma InitiatorOutSeen(peer: Peer, t: nat, b: byte, dropAtn: bool, phase: Phase, head: seq<Action>)
    requires Wait(peer, t, REQ, true).seen
    requires head == [DriveDat(b), Await(REQ, true, true)] + (if dropAtn then [Drive(ATN, false)] else [])
    ensures var a := AckCycle(peer, Wait(peer, t, REQ, true).next, phase);
      InitiatorOut(peer, t, b, dropAtn, phase) == a.(log := head + a.log)
  {
  }

  lemma AckCycleLines(peer: Peer, t: nat, phase: Phase)
    ensures var a := AckCycle(peer, t, phase);
      NoIrq(a.log) && Drive(REQ, true) !in a.log && PeerPause !in a.log && Drive(ATN, false) !in a.log
  {
  }

  lemma InitiatorOutLines(peer: Peer, t: nat, b: byte, dropAtn: bool, phase: Phase)
    ensures var c := InitiatorOut(peer, t, b, dropAtn, phase);
      NoIrq(c.log) && Drive(REQ, true) !in c.log && PeerPause !in c.log
  {
    var w1 := Wait(peer, t, REQ, true);
    if w1.seen {
      var a := AckCycle(peer, w1.next, phase);
      AckCycleLines(peer, w1.next, phase);
      var atn: seq<Action> := if dropAtn then [Drive(ATN, false)] else [];
      assert InitiatorOut(peer, t, b, dropAtn, phase).log == [DriveDat(b), Await(REQ, true, true)] + atn + a.log;
    }
  }

  lemma InitiatorOutPulsed(peer: Peer, t: nat, b: byte, dropAtn: bool, phase: Phase)
    ensures Pulsed(InitiatorOut(peer, t, b, dropAtn, phase).log, ACK, REQ)
  {
    var log := InitiatorOut(peer, t, b, dropAtn, phase).log;
    var k := if dropAtn then 3 else 2;
    forall j | 0 <= j < |log| && log[j] == Drive(ACK, true)
      ensures j + 2 < |log| && log[j + 1].Await? && log[j + 1].signal == REQ && log[j + 2] == Drive(ACK, false)
    {
      assert j == k;
    }
  }

  lemma InitiatorOutOutcome(peer: Peer, t: nat, b: byte, dropAtn: bool, phase: Phase)
    ensures var c := InitiatorOut(peer, t, b, dropAtn, phase);
      t < c.next && (c.ok <==> AllSeen(c.log) && PhaseHeld(c.log, phase))
  {
    var c := InitiatorOut(peer, t, b, dropAtn, phase);
    var w1 := Wait(peer, t, REQ, true);
    WaitAdvances(peer, t, REQ, true);
    if w1.seen {
      var w2 := Wait(peer, w1.next, REQ, false);
      WaitAdvances(peer, w1.next, REQ, false);
      var k := if dropAtn then 3 else 2;
      assert c.log[k + 1] == Await(REQ, false, w2.seen);
    } else {
      assert c.log[1] == Await(REQ, true, false);
    }
  }

  lemma InitiatorOutAtn(peer: Peer, t: nat, b: byte, dropAtn: bool, phase: Phase)
    ensures var c := InitiatorOut(peer, t, b, dropAtn, phase);
      && AtnDroppedInStep(c.log)
      && (Drive(ATN, false) in c.log ==> dropAtn)
      && (c.ok && dropAtn ==> Drive(ATN, false) in c.log)
  {
    var c := InitiatorOut(peer, t, b, dropAtn, phase);
    var w1 := Wait(peer, t, REQ, true);
    if w1.seen && dropAtn {
      assert c.log[2] == Drive(ATN, false);
    }
  }

  /**
   * The initiator send loop: the count reaches the end exactly when no wait
   * timed out and the phase held.
   */
  lemma {:induction false} InitiatorSendFacts(peer: Peer, t: nat, data: seq<byte>, i: nat, n: nat, phase: Phase)
    requires i <= n <= |data|
    ensures var o := InitiatorSendFrom(peer, t, data, i, n, phase);
      && i <= o.count <= n && o.buf == data && t <= o.next
      && (o.count == n <==> AllSeen(o.log) && PhaseHeld(o.log, phase))
    decreases n - i
  {
    if i < n {
      var c := InitiatorOut(peer, t, data[i], phase == MsgOut && i == n - 1, phase);
      InitiatorOutOutcome(peer, t, data[i], phase == MsgOut && i == n - 1, phase);
      if c.ok {
        InitiatorSendFacts(peer, c.next, data, i + 1, n, phase);
      }
    }
  }

  /** The initiator send loop leaves IRQs alone, never asserts REQ and never pauses. */
  lemma {:induction false} InitiatorSendLines(peer: Peer, t: nat, data: seq<byte>, i: nat, n: nat, phase: Phase)
    requires i <= n <= |data|
    ensures var o := InitiatorSendFrom(peer, t, data, i, n, phase);
      NoIrq(o.log) && Drive(REQ, true) !in o.log && PeerPause !in o.log
    decreases n - i
  {
    if i < n {
      var c := InitiatorOut(peer, t, data[i], phase == MsgOut && i == n - 1, phase);
      InitiatorOutLines(peer, t, data[i], phase == MsgOut && i == n - 1, phase);
      if c.ok {
        InitiatorSendLines(peer, c.next, data, i + 1, n, phase);
      }
    }
  }

  /** The initiator send loop always releases ACK after asserting it. */
  lemma {:induction false} InitiatorSendPulsed(peer: Peer, t: nat, data: seq<byte>, i: nat, n: nat, phase: Phase)
    requires i <= n <= |data|
    ensures Pulsed(InitiatorSendFrom(peer, t, data, i, n, phase).log, ACK, REQ)
    decreases n - i
  {
    if i < n {
      var c := InitiatorOut(peer, t, data[i], phase == MsgOut && i == n - 1, phase);
      if c.ok {
        InitiatorSendPulsed(peer, c.next, data, i + 1, n, phase);
      }
      InitiatorSendPulsedStep(peer, t, data, i, n, phase);
    }
  }

  lemma InitiatorSendPulsedStep(peer: Peer, t: nat, data: seq<byte>, i: nat, n: nat, phase: Phase)
    requires i < n <= |data|
    requires var c := InitiatorOut(peer, t, data[i], phase == MsgOut && i == n - 1, phase);
      c.ok ==> Pulsed(InitiatorSendFrom(peer, c.next, data, i + 1, n, phase).log, ACK, REQ)
    ensures Pulsed(InitiatorSendFrom(peer, t, data, i, n, phase).log, ACK, REQ)
  {
    var c := InitiatorOut(peer, t, data[i], phase == MsgOut && i == n - 1, phase);
    InitiatorOutPulsed(peer, t, data[i], phase == MsgOut && i == n - 1, phase);
    assert InitiatorSendFrom(peer, t, data, i, n, phase) == InitiatorSendOn(peer, data, i, n, phase, c);
    PulsedStep(InitiatorSendFrom(peer, t, data, i, n, phase).log, c.log, c.ok,
      if c.ok then InitiatorSendFrom(peer, c.next, data, i + 1, n, phase).log else [], ACK, REQ);
  }

  /** ATN on the initiator send loop: dropped only in MESSAGE OUT and only for the last byte, and always dropped when the whole message went out. */
  lemma {:induction false} InitiatorSendAtn(peer: Peer, t: nat, data: seq<byte>, i: nat, n: nat, phase: Phase)
    requires i <= n <= |data|
    ensures var o := InitiatorSendFrom(peer, t, data, i, n, phase);
      && (Drive(ATN, false) in o.log ==> phase == MsgOut && o.count + 1 >= n)
      && (phase == MsgOut && i < n == o.count ==> Drive(ATN, false) in o.log)
    decreases n - i
  {
    if i < n {
      var drop := phase == MsgOut && i == n - 1;
      var c := InitiatorOut(peer, t, data[i], drop, phase);
      var o := InitiatorSendFrom(peer, t, data, i, n, phase);
      assert o == InitiatorSendOn(peer, data, i, n, phase, c);
      InitiatorOutAtn(peer, t, data[i], drop, phase);
      if c.ok {
        var rest := InitiatorSendFrom(peer, c.next, data, i + 1, n, phase);
        assert o.log == c.log + rest.log && o.count == rest.count;
        InitiatorSendAtn(peer, c.next, data, i + 1, n, phase);
        InitiatorSendBounds(peer, c.next, data, i + 1, n, phase);
      } else {
        assert o.log == c.log && o.count == i;
      }
    }
  }

  /** Wherever the initiator send loop drops ATN, it does so after a REQ and before the ACK of the same byte. */
  lemma {:induction false} InitiatorSendAtnPlace(peer: Peer, t: nat, data: seq<byte>, i: nat, n: nat, phase: Phase)
    requires i <= n <= |data|
    ensures AtnDroppedInStep(InitiatorSendFrom(peer, t, data, i, n, phase).log)
    decreases n - i
  {
    if i < n {
      var c := InitiatorOut(peer, t, data[i], phase == MsgOut && i == n - 1, phase);
      if c.ok {
        InitiatorSendAtnPlace(peer, c.next, data, i + 1, n, phase);
      }
      InitiatorSendAtnStep(peer, t, data, i, n, phase);
    }
  }

  lemma InitiatorSendAtnStep(peer: Peer, t: nat, data: seq<byte>, i: nat, n: nat, phase: Phase)
    requires i < n <= |data|
    requires var c := InitiatorOut(peer, t, data[i], phase == MsgOut && i == n - 1, phase);
      c.ok ==> AtnDroppedInStep(InitiatorSendFrom(peer, c.next, data, i + 1, n, phase).log)
    ensures AtnDroppedInStep(InitiatorSendFrom(peer, t, data, i, n, phase).log)
  {
    var c := InitiatorOut(peer, t, data[i], phase == MsgOut && i == n - 1, phase);
    InitiatorOutAtn(peer, t, data[i], phase == MsgOut && i == n - 1, phase);
    assert InitiatorSendFrom(peer, t, data, i, n, phase) == InitiatorSendOn(peer, data, i, n, phase, c);
    AtnStep(InitiatorSendFrom(peer, t, data, i, n, phase).log, c.log, c.ok,
      if c.ok then InitiatorSendFrom(peer, c.next, data, i + 1, n, phase).log else []);
  }

  lemma {:induction false} InitiatorSendBounds(peer: Peer, t: nat, data: seq<byte>, i: nat, n: nat, phase: Phase)
    requires i <= n <= |data|
    ensures i <= InitiatorSendFrom(peer, t, data, i, n, phase).count <= n
    decreases n - i
  {
    if i < n {
      var c := InitiatorOut(peer, t, data[i], phase == MsgOut && i == n - 1, phase);
      if c.ok {
        InitiatorSendBounds(peer, c.next, data, i + 1, n, phase);
      }
    }
  }

  /**
   * ReceiveHandShake returns at most the requested count (none for a negative
   * count), reaching it exactly when no wait timed out and (as initiator) the
   * phase held, and writes no slot beyond the one that failed.
   */
  lemma ReceiveHandShakeFacts(mode: Mode, peer: Peer, t: nat, buf: seq<byte>, count: int)
    requires count <= |buf|
    ensures var o := ReceiveSpec(mode, peer, t, buf, count);
      && o.count <= Clamp(count)
      && (o.count == Clamp(count) <==> AllSeen(o.log) && (mode == Initiator ==> PhaseHeld(o.log, peer.samples(t).phase)))
      && (forall k :: o.count < k < |buf| ==> o.buf[k] == buf[k])
  {
    if mode == Target {
      TargetReceiveFacts(peer, t, buf, 0, Clamp(count));
    } else {
      InitiatorReceiveFacts(peer, t + 1, buf, 0, Clamp(count), peer.samples(t).phase);
    }
  }

  /** Both handshakes disable IRQs first, re-enable them last on every exit, and touch them nowhere else. */
  lemma HandShakeIrq(mode: Mode, peer: Peer, t: nat, buf: seq<byte>, count: int, delay: int)
    requires count <= |buf|
    ensures var o := ReceiveSpec(mode, peer, t, buf, count);
      o.log[0] == IrqOff && o.log[|o.log| - 1] == IrqOn && NoIrq(o.log[1..|o.log| - 1])
    ensures var o := SendSpec(mode, peer, t, buf, count, delay);
      o.log[0] == IrqOff && o.log[|o.log| - 1] == IrqOn && NoIrq(o.log[1..|o.log| - 1])
  {
    var r := ReceiveSpec(mode, peer, t, buf, count);
    var s := SendSpec(mode, peer, t, buf, count, delay);
    assert r.log[1..|r.log| - 1] == ReceiveInner(mode, peer, t, buf, count).log;
    assert s.log[1..|s.log| - 1] == SendInner(mode, peer, t, buf, count, delay).log;
    if mode == Target {
      TargetReceiveLines(peer, t, buf, 0, Clamp(count));
      TargetSendLines(peer, t, buf, 0, Clamp(count), delay);
    } else {
      var p := peer.samples(t).phase;
      InitiatorReceiveLines(peer, t + 1, buf, 0, Clamp(count), p);
      InitiatorSendLines(peer, t + 1, buf, 0, Clamp(count), p);
    }
  }

  /**
   * SendHandShake as the target returns at most the requested count, pauses
   * only at byte `delay` (so SendNoDelay never pauses), and ends with one more
   * wait for ACK release whatever happened before.
   */
  lemma TargetSendHandShakeFacts(peer: Peer, t: nat, data: seq<byte>, count: int, delay: int)
    requires count <= |data|
    ensures var o := SendSpec(Target, peer, t, data, count, delay);
      && o.count <= Clamp(count) && o.buf == data
      && (o.count == Clamp(count) <==> AllSeen(o.log[..|o.log| - 2]))
      && o.log[|o.log| - 2].Await? && o.log[|o.log| - 2].signal == ACK && !o.log[|o.log| - 2].on
      && (PeerPause in o.log <==> 0 <= delay < Clamp(count) && delay <= o.count)
      && (delay == SendNoDelay ==> PeerPause !in o.log)
  {
    var o := SendSpec(Target, peer, t, data, count, delay);
    var l := TargetSendFrom(peer, t, data, 0, Clamp(count), delay);
    TargetSendFacts(peer, t, data, 0, Clamp(count), delay);
    var w := Wait(peer, l.next, ACK, false);
    assert o.log == [IrqOff] + l.log + [Await(ACK, false, w.seen), IrqOn];
    assert o.log[..|o.log| - 2] == [IrqOff] + l.log;
  }

  /**
   * SendHandShake as the initiator returns at most the requested count,
   * reaching it exactly when no wait timed out and the phase held.
   */
  lemma InitiatorSendHandShakeFacts(peer: Peer, t: nat, data: seq<byte>, count: int, delay: int)
    requires count <= |data|
    ensures var o := SendSpec(Initiator, peer, t, data, count, delay);
      && o.count <= Clamp(count) && o.buf == data
      && (o.count == Clamp(count) <==> AllSeen(o.log) && PhaseHeld(o.log, peer.samples(t).phase))
  {
    InitiatorSendFacts(peer, t + 1, data, 0, Clamp(count), peer.samples(t).phase);
  }

  /** SendHandShake as the initiator never pauses and drops ATN only when the phase sampled first is MESSAGE OUT. */
  lemma InitiatorSendHandShakeAtn(peer: Peer, t: nat, data: seq<byte>, count: int, delay: int)
    requires count <= |data|
    ensures var o := SendSpec(Initiator, peer, t, data, count, delay);
      && PeerPause !in o.log
      && (Drive(ATN, false) in o.log ==> peer.samples(t).phase == MsgOut)
  {
    var p := peer.samples(t).phase;
    InitiatorSendLines(peer, t + 1, data, 0, Clamp(count), p);
    InitiatorSendAtn(peer, t + 1, data, 0, Clamp(count), p);
  }

  /**
   * The first byte of a CDB decides: the count is 0 unless its exchange
   * completed, and with an ICD prefix also unless the ACK of the second byte
   * came.  A known opcode whose exchanges all complete yields the full length,
   * and a full length with a timed-out wait can only come from the ICD
   * byte's ACK release, the one wait whose result is not consulted.
   */
  predicate CommandCountFacts(peer: Peer, lengths: CommandLengths, t: nat, buf: seq<byte>, o: Transfer)
    requires 1 <= |o.buf|
  {
    var first := TargetIn(peer, t);
    var icd := TargetIn(peer, first.next);
    && (o.count == 0 || 1 <= o.count <= lengths(o.buf[0]))
    && (!(first.acked && first.released) ==> o.count == 0)
    && (first.value == 0x1F && !icd.acked ==> o.count == 0)
    && (AllSeen(o.log) && lengths(o.buf[0]) > 0 ==> o.count == lengths(o.buf[0]))
    && (o.count == lengths(o.buf[0]) > 0 && !AllSeen(o.log) ==> first.value == 0x1F && !icd.released)
    && (forall k :: o.count < k < |buf| && k < |o.buf| ==> o.buf[k] == buf[k])
  }

  /**
   * CommandHandShake: it returns 0 (first exchange incomplete, ICD byte not
   * acknowledged, or unknown opcode) or a count between 1 and the CDB length
   * of the opcode finally in slot 0, the full length exactly when no consulted
   * wait timed out; slots past the count are untouched; IRQs are re-enabled
   * on every exit.
   */
  lemma CommandHandShakeFacts(peer: Peer, lengths: CommandLengths, t: nat, buf: seq<byte>)
    requires 1 <= |buf| && forall op :: lengths(op) <= |buf|
    ensures var o := CommandSpec(peer, lengths, t, buf);
      && CommandCountFacts(peer, lengths, t, buf, o)
      && o.log[0] == IrqOff && o.log[|o.log| - 1] == IrqOn && NoIrq(o.log[1..|o.log| - 1])
  {
    var o := CommandSpec(peer, lengths, t, buf);
    var inner := CommandInner(peer, lengths, t, buf);
    CommandInnerFacts(peer, lengths, t, buf);
    assert o.log[1..|o.log| - 1] == inner.log;
    assert AllSeen(o.log) <==> AllSeen(inner.log) by {
      assert forall a :: a in o.log <==> a == IrqOff || a in inner.log || a == IrqOn;
    }
  }

  lemma CommandInnerFacts(peer: Peer, lengths: CommandLengths, t: nat, buf: seq<byte>)
    requires 1 <= |buf| && forall op :: lengths(op) <= |buf|
    ensures var o := CommandInner(peer, lengths, t, buf);
      && CommandCountFacts(peer, lengths, t, buf, o)
      && NoIrq(o.log)
  {
    var o := CommandInner(peer, lengths, t, buf);
    var first := TargetIn(peer, t);
    TargetInShape(peer, t);
    var buf0 := buf[0 := first.value];
    if first.acked && first.released {
      if first.value == 0x1F {
        var icd := TargetIn(peer, first.next);
        TargetInShape(peer, first.next);
        if icd.acked {
          var rest := CommandBytes(peer, lengths, icd.next, buf0[0 := icd.value]);
          CommandBytesFacts(peer, lengths, icd.next, buf0[0 := icd.value]);
          assert o.log == first.log + icd.log + rest.log;
          SeenAppend(first.log, icd.log);
          SeenAppend(first.log + icd.log, rest.log);
        } else {
          assert Await(ACK, true, false) in o.log;
        }
      } else {
        var rest := CommandBytes(peer, lengths, first.next, buf0);
        CommandBytesFacts(peer, lengths, first.next, buf0);
        assert o.log == first.log + rest.log;
        SeenAppend(first.log, rest.log);
      }
    }
  }

  /** No wait of a concatenation timed out exactly when none of either part did. */
  lemma SeenAppend(a: seq<Action>, b: seq<Action>)
    ensures AllSeen(a + b) <==> AllSeen(a) && AllSeen(b)
  {
    assert forall x :: x in a + b <==> x in a || x in b;
  }

  /**
   * The rest of the CDB: the count is 0 exactly for an unknown opcode and
   * otherwise lies between 1 and the opcode's length, reaching it exactly when
   * no wait timed out; slot 0 and the slots past the count are untouched.
   */
  lemma CommandBytesFacts(peer: Peer, lengths: CommandLengths, t: nat, buf: seq<byte>)
    requires 1 <= |buf| && forall op :: lengths(op) <= |buf|
    ensures var o := CommandBytes(peer, lengths, t, buf);
      && |o.buf| == |buf| && o.buf[0] == buf[0]
      && (o.count == 0 <==> lengths(buf[0]) == 0)
      && o.count <= lengths(buf[0])
      && (o.count == lengths(buf[0]) <==> AllSeen(o.log))
      && (forall k :: o.count < k < |buf| ==> o.buf[k] == buf[k])
      && NoIrq(o.log)
  {
    var op := buf[0];
    var n := lengths(op);
    assert n <= |buf|;
    if n > 0 {
      TargetReceiveFacts(peer, t, buf, 1, n);
      TargetReceiveLines(peer, t, buf, 1, n);
    }
  }

  /**
   * The ICD prefix: a first byte of 0x1F is replaced by the byte of one more
   * exchange, and that byte's CDB length is used even when the wait for its ACK
   * release timed out; any other first byte is the opcode.
   */
  lemma IcdPrefix(peer: Peer, lengths: CommandLengths, t: nat, buf: seq<byte>)
    requires 1 <= |buf| && forall op :: lengths(op) <= |buf|
    ensures var first := TargetIn(peer, t); var o := CommandSpec(peer, lengths, t, buf);
      && (first.acked && first.released && first.value != 0x1F ==> o.buf[0] == first.value)
      && (first.acked && first.released && first.value == 0x1F ==>
            var icd := TargetIn(peer, first.next);
            o.buf[0] == icd.value && (icd.acked ==> (o.count > 0 <==> lengths(icd.value) > 0)))
  {
    var first := TargetIn(peer, t);
    var buf0 := buf[0 := first.value];
    if first.acked && first.released {
      if first.value == 0x1F {
        var icd := TargetIn(peer, first.next);
        if icd.acked {
          CommandBytesFacts(peer, lengths, icd.next, buf0[0 := icd.value]);
        }
      } else {
        CommandBytesFacts(peer, lengths, first.next, buf0);
      }
    }
  }

  // ---------------------------------------------------------------------
  // The engine

  class GpioBus {
    var mode: Mode
    const peer: Peer
    const lengths: CommandLengths
    var now: nat
    var log: seq<Action>

    constructor (mode: Mode, peer: Peer, lengths: CommandLengths)
      ensures this.mode == mode && this.peer == peer && this.lengths == lengths
      ensures now == 0 && log == []
    {
      this.mode := mode;
      this.peer := peer;
      this.lengths := lengths;
      now := 0;
      log := [];
    }

    /** The lines as this side currently drives them. */
    function Driven(): (r: Lines)
      reads this
    {
      Replay(Idle, log)
    }

    /** GPIOBUS::Init records the operation mode and always succeeds. */
    method Init(m: Mode) returns (ok: bool)
      modifies this`mode
      ensures mode == m && ok
    {
      mode := m;
      ok := true;
    }

    method Emit(a: Action)
      modifies this`log
      ensures log == old(log) + [a]
    {
      log := log + [a];
    }

    /** Takes the next acquisition of the lines. */
    method Acquire() returns (x: Sample)
      modifies this`now
      ensures x == peer.samples(old(now)) && now == old(now) + 1
    {
      x := peer.samples(now);
      now := now + 1;
    }

    /** Reads the data lines with a fresh acquisition. */
    method GetDAT() returns (v: byte)
      modifies this`now
      ensures v == peer.samples(old(now)).dat && now == old(now) + 1
    {
      var x := Acquire();
      v := x.dat;
    }

    /** The backend's Reset, which releases every line this side drives. */
    method Reset()
      modifies this`log
      ensures log == old(log) + [BusReset]
    {
      Emit(BusReset);
    }

    /** Polls until the line shows the level, RST shows, or the window closes. */
    method WaitSignal(s: Signal, on: bool) returns (seen: bool)
      modifies this`now, this`log
      ensures var w := Wait(peer, old(now), s, on);
        seen == w.seen && now == w.next && log == old(log) + [Await(s, on, seen)]
    {
      var left := peer.polls;
      while true
        invariant Poll(peer, now, s, on, left) == Wait(peer, old(now), s, on)
        invariant log == old(log)
        decreases left
      {
        var x := Acquire();
        if RST in x.asserted {
          seen := false;
          break;
        }
        if (s in x.asserted) == on {
          seen := true;
          break;
        }
        if left == 0 {
          seen := false;
          break;
        }
        left := left - 1;
      }
      Emit(Await(s, on, seen));
    }

    /** One target-side byte exchange, the block CommandHandShake and ReceiveHandShake repeat. */
    method ReceiveByte(buf: array<byte>, i: nat) returns (acked: bool, released: bool)
      requires i < buf.Length
      modifies this`now, this`log, buf
      ensures var e := TargetIn(peer, old(now));
        buf[..] == old(buf[..])[i := e.value] && acked == e.acked && released == e.released
        && now == e.next && log == old(log) + e.log
    {
      Emit(Drive(REQ, true));
      acked := WaitSignal(ACK, true);
      buf[i] := GetDAT();
      Emit(Drive(REQ, false));
      released := false;
      if acked {
        released := WaitSignal(ACK, false);
      }
    }

    /** The target receive loop shared by CommandHandShake (from slot 1) and ReceiveHandShake (from slot 0). */
    method TargetReceive(buf: array<byte>, from: nat, n: nat) returns (r: nat)
      requires from <= n <= buf.Length
      modifies this`now, this`log, buf
      ensures var o := TargetReceiveFrom(peer, old(now), old(buf[..]), from, n);
        r == o.count && buf[..] == o.buf && now == o.next && log == old(log) + o.log
    {
      ghost var goal := TargetReceiveFrom(peer, now, buf[..], from, n);
      ghost var done: seq<Action> := [];
      r := from;
      while r < n
        invariant from <= r <= n
        invariant log == old(log) + done
        invariant Continues(goal, TargetReceiveFrom(peer, now, buf[..], r, n), done)
      {
        ghost var t0, b0 := now, buf[..];
        ghost var e := TargetIn(peer, now);
        var acked, released := ReceiveByte(buf, r);
        TargetReceiveNext(goal, done, peer, t0, b0, r, n, acked && released, now, buf[..], e.log);
        AppendAssoc(old(log), done, e.log);
        if acked && released {
          r := r + 1;
        } else {
          return;
        }
        done := done + e.log;
      }
      ContinuesStop(goal, TargetReceiveFrom(peer, now, buf[..], r, n), done, r, buf[..], now, []);
      assert done + [] == done;
    }

    /** One initiator-side byte of ReceiveHandShake's loop. */
    method InitiatorReceiveByte(buf: array<byte>, i: nat, phase: Phase) returns (ok: bool)
      requires i < buf.Length
      modifies this`now, this`log, buf
      ensures var c := InitiatorIn(peer, old(now), phase);
        buf[..] == (if c.stored then old(buf[..])[i := c.value] else old(buf[..]))
        && ok == c.ok && now == c.next && log == old(log) + c.log
    {
      ghost var l0 := log;
      ok := WaitSignal(REQ, true);
      if ok {
        buf[i] := GetDAT();
        ghost var l1 := log;
        ok := PulseAck(phase);
        AppendAssoc(l0, [Await(REQ, true, true)], log[|l1|..]);
      }
    }

    /** The ACK cycle both initiator loops run once REQ has come. */
    method PulseAck(phase: Phase) returns (ok: bool)
      modifies this`now, this`log
      ensures var a := AckCycle(peer, old(now), phase);
        ok == a.ok && now == a.next && log == old(log) + a.log
    {
      ghost var l0 := log;
      Emit(Drive(ACK, true));
      ok := WaitSignal(REQ, false);
      Emit(Drive(ACK, false));
      ghost var pulse := [Drive(ACK, true), Await(REQ, false, ok), Drive(ACK, false)];
      assert log == l0 + pulse;
      if ok {
        var x := Acquire();
        Emit(PhaseSeen(x.phase));
        ok := x.phase == phase;
        AppendAssoc(l0, pulse, [PhaseSeen(x.phase)]);
      } else {
        assert pulse + [] == pulse;
      }
    }

    method InitiatorReceive(buf: array<byte>, n: nat, phase: Phase) returns (r: nat)
      requires n <= buf.Length
      modifies this`now, this`log, buf
      ensures var o := InitiatorReceiveFrom(peer, old(now), old(buf[..]), 0, n, phase);
        r == o.count && buf[..] == o.buf && now == o.next && log == old(log) + o.log
    {
      ghost var goal := InitiatorReceiveFrom(peer, now, buf[..], 0, n, phase);
      ghost var done: seq<Action> := [];
      r := 0;
      while r < n
        invariant r <= n
        invariant log == old(log) + done
        invariant Continues(goal, InitiatorReceiveFrom(peer, now, buf[..], r, n, phase), done)
      {
        ghost var t0, b0 := now, buf[..];
        ghost var c := InitiatorIn(peer, now, phase);
        var ok := InitiatorReceiveByte(buf, r, phase);
        InitiatorReceiveNext(goal, done, peer, t0, b0, r, n, phase, ok, now, buf[..], c.log);
        AppendAssoc(old(log), done, c.log);
        if ok {
          r := r + 1;
        } else {
          return;
        }
        done := done + c.log;
      }
      ContinuesStop(goal, InitiatorReceiveFrom(peer, now, buf[..], r, n, phase), done, r, buf[..], now, []);
      assert done + [] == done;
    }

    /** One target-side byte of SendHandShake's loop. */
    method TargetSendByte(b: byte, pause: bool) returns (ok: bool)
      modifies this`now, this`log
      ensures var c := TargetOut(peer, old(now), b, pause);
        ok == c.ok && now == c.next && log == old(log) + c.log
    {
      if pause {
        Emit(PeerPause);
      }
      Emit(DriveDat(b));
      ok := WaitSignal(ACK, false);
      if ok {
        Emit(Drive(REQ, true));
        ok := WaitSignal(ACK, true);
        Emit(Drive(REQ, false));
      }
    }

    method TargetSend(buf: array<byte>, n: nat, delay: int) returns (r: nat)
      requires n <= buf.Length
      modifies this`now, this`log
      ensures var o := TargetSendFrom(peer, old(now), buf[..], 0, n, delay);
        r == o.count && now == o.next && log == old(log) + o.log
    {
      ghost var goal := TargetSendFrom(peer, now, buf[..], 0, n, delay);
      ghost var done: seq<Action> := [];
      r := 0;
      while r < n
        invariant r <= n
        invariant log == old(log) + done
        invariant Continues(goal, TargetSendFrom(peer, now, buf[..], r, n, delay), done)
      {
        ghost var t0 := now;
        ghost var c := TargetOut(peer, now, buf[r], r == delay);
        var ok := TargetSendByte(buf[r], r == delay);
        TargetSendNext(goal, done, peer, t0, buf[..], r, n, delay, ok, now, c.log);
        AppendAssoc(old(log), done, c.log);
        if ok {
          r := r + 1;
        } else {
          return;
        }
        done := done + c.log;
      }
      ContinuesStop(goal, TargetSendFrom(peer, now, buf[..], r, n, delay), done, r, buf[..], now, []);
      assert done + [] == done;
    }

    /** One initiator-side byte of SendHandShake's loop. */
    method InitiatorSendByte(b: byte, dropAtn: bool, phase: Phase) returns (ok: bool)
      modifies this`now, this`log
      ensures var c := InitiatorOut(peer, old(now), b, dropAtn, phase);
        ok == c.ok && now == c.next && log == old(log) + c.log
    {
      ghost var l0, t0 := log, now;
      Emit(DriveDat(b));
      ok := WaitSignal(REQ, true);
      if ok {
        ghost var head: seq<Action> := [DriveDat(b), Await(REQ, true, true)];
        if dropAtn {
          Emit(Drive(ATN, false));
          head := head + [Drive(ATN, false)];
        }
        assert log == l0 + head;
        InitiatorOutSeen(peer, t0, b, dropAtn, phase, head);
        ok := PulseAck(phase);
        AppendAssoc(l0, head, log[|l0 + head|..]);
      }
    }

    method InitiatorSend(buf: array<byte>, n: nat, phase: Phase) returns (r: nat)
      requires n <= buf.Length
      modifies this`now, this`log
      ensures var o := InitiatorSendFrom(peer, old(now), buf[..], 0, n, phase);
        r == o.count && now == o.next && log == old(log) + o.log
    {
      ghost var goal := InitiatorSendFrom(peer, now, buf[..], 0, n, phase);
      ghost var done: seq<Action> := [];
      r := 0;
      while r < n
        invariant r <= n
        invariant log == old(log) + done
        invariant Continues(goal, InitiatorSendFrom(peer, now, buf[..], r, n, phase), done)
      {
        ghost var t0 := now;
        ghost var c := InitiatorOut(peer, now, buf[r], phase == MsgOut && r == n - 1, phase);
        var ok := InitiatorSendByte(buf[r], phase == MsgOut && r == n - 1, phase);
        InitiatorSendNext(goal, done, peer, t0, buf[..], r, n, phase, ok, now, c.log);
        AppendAssoc(old(log), done, c.log);
        if ok {
          r := r + 1;
        } else {
          return;
        }
        done := done + c.log;
      }
      ContinuesStop(goal, InitiatorSendFrom(peer, now, buf[..], r, n, phase), done, r, buf[..], now, []);
      assert done + [] == done;
    }

    /**
     * GPIOBUS::CommandHandShake: receives a CDB as the target; returns the
     * number of CDB bytes received, or 0 when the opcode was not received or
     * is unknown.
     */
    method CommandHandShake(buf: array<byte>) returns (r: int)
      requires mode == Target
      requires 1 <= buf.Length && forall op :: lengths(op) <= buf.Length
      modifies this`now, this`log, buf
      ensures var o := CommandSpec(peer, lengths, old(now), old(buf[..]));
        r == o.count && buf[..] == o.buf && now == o.next && log == old(log) + o.log
    {
      ghost var l0, t0, b0 := log, now, buf[..];
      Emit(IrqOff);
      r := ReceiveCommand(buf);
      Emit(IrqOn);
      Framed(l0, [IrqOff], CommandInner(peer, lengths, t0, b0).log, [IrqOn]);
    }

    /** The body of CommandHandShake; each of its exits is followed by EnableIRQ. */
    method ReceiveCommand(buf: array<byte>) returns (r: int)
      requires 1 <= buf.Length && forall op :: lengths(op) <= buf.Length
      modifies this`now, this`log, buf
      ensures var o := CommandInner(peer, lengths, old(now), old(buf[..]));
        r == o.count && buf[..] == o.buf && now == o.next && log == old(log) + o.log
    {
      ghost var l0, t0, b0 := log, now, buf[..];
      ghost var first := TargetIn(peer, t0);
      var acked, released := ReceiveByte(buf, 0);
      if !(acked && released) {
        return 0;
      }
      ghost var head := first.log;
      if buf[0] == 0x1F {
        ghost var icd := TargetIn(peer, now);
        acked, released := ReceiveByte(buf, 0);
        AppendAssoc(l0, head, icd.log);
        head := head + icd.log;
        if !acked {
          return 0;
        }
      }
      ghost var rest := CommandBytes(peer, lengths, now, buf[..]);
      assert CommandInner(peer, lengths, t0, b0) == rest.(log := head + rest.log);
      var n := lengths(buf[0]);
      if n == 0 {
        return 0;
      }
      r := TargetReceive(buf, 1, n);
      AppendAssoc(l0, head, rest.log);
    }

    /** GPIOBUS::ReceiveHandShake: receives up to `count` bytes in the current role. */
    method ReceiveHandShake(buf: array<byte>, count: int) returns (r: int)
      requires count <= buf.Length
      modifies this`now, this`log, buf
      ensures var o := ReceiveSpec(mode, peer, old(now), old(buf[..]), count);
        r == o.count && buf[..] == o.buf && now == o.next && log == old(log) + o.log
    {
      ghost var l0, t0, b0 := log, now, buf[..];
      Emit(IrqOff);
      r := ReceiveBody(buf, count);
      Emit(IrqOn);
      Framed(l0, [IrqOff], ReceiveInner(mode, peer, t0, b0, count).log, [IrqOn]);
    }

    /** The body of ReceiveHandShake between DisableIRQ and EnableIRQ. */
    method ReceiveBody(buf: array<byte>, count: int) returns (r: int)
      requires count <= buf.Length
      modifies this`now, this`log, buf
      ensures var o := ReceiveInner(mode, peer, old(now), old(buf[..]), count);
        r == o.count && buf[..] == o.buf && now == o.next && log == old(log) + o.log
    {
      if mode == Target {
        r := TargetReceive(buf, 0, Clamp(count));
      } else {
        ghost var l0, t0 := log, now;
        var x := Acquire();
        Emit(PhaseSeen(x.phase));
        ghost var o := InitiatorReceiveFrom(peer, t0 + 1, buf[..], 0, Clamp(count), x.phase);
        r := InitiatorReceive(buf, Clamp(count), x.phase);
        AppendAssoc(l0, [PhaseSeen(x.phase)], o.log);
      }
    }

    /** GPIOBUS::SendHandShake: sends up to `count` bytes in the current role. */
    method SendHandShake(buf: array<byte>, count: int, delayAfterBytes: int) returns (r: int)
      requires count <= buf.Length
      modifies this`now, this`log
      ensures var o := SendSpec(mode, peer, old(now), buf[..], count, delayAfterBytes);
        r == o.count && now == o.next && log == old(log) + o.log
    {
      ghost var l0, t0 := log, now;
      Emit(IrqOff);
      r := SendBody(buf, count, delayAfterBytes);
      Emit(IrqOn);
      Framed(l0, [IrqOff], SendInner(mode, peer, t0, buf[..], count, delayAfterBytes).log, [IrqOn]);
    }

    /** The body of SendHandShake between DisableIRQ and EnableIRQ. */
    method SendBody(buf: array<byte>, count: int, delayAfterBytes: int) returns (r: int)
      requires count <= buf.Length
      modifies this`now, this`log
      ensures var o := SendInner(mode, peer, old(now), buf[..], count, delayAfterBytes);
        r == o.count && now == o.next && log == old(log) + o.log
    {
      ghost var l0, t0 := log, now;
      if mode == Target {
        ghost var o := TargetSendFrom(peer, t0, buf[..], 0, Clamp(count), delayAfterBytes);
        r := TargetSend(buf, Clamp(count), delayAfterBytes);
        var released := WaitSignal(ACK, false);
        AppendAssoc(l0, o.log, [Await(ACK, false, released)]);
      } else {
        var x := Acquire();
        Emit(PhaseSeen(x.phase));
        ghost var o := InitiatorSendFrom(peer, t0 + 1, buf[..], 0, Clamp(count), x.phase);
        r := InitiatorSend(buf, Clamp(count), x.phase);
        AppendAssoc(l0, [PhaseSeen(x.phase)], o.log);
      }
    }
  }
}
