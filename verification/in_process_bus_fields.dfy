/**
 * The field-based in-process bus: a virtual bus whose lines are plain
 * boolean fields and whose data lines are one byte, for running a target
 * and an initiator in the same process.  Each setter may change only the
 * field its frame names, so "every other line is unchanged" is part of
 * every setter's contract.
 */
module InProcessFields {
  import opened Bus

  class InProcessBus {
    var enb: bool
    var bsy: bool
    var sel: bool
    var atn: bool
    var ack: bool
    var act: bool
    var rst: bool
    var msg: bool
    var cd: bool
    var io: bool
    var req: bool
    var dp: bool
    var dat: byte

    /** No line is asserted. */
    predicate Released()
      reads this
    {
      !enb && !bsy && !sel && !atn && !ack && !act && !rst && !msg && !cd && !io && !req
    }

    /** Every field starts released, DAT at 0. */
    constructor ()
      ensures Released() && !dp && dat == 0
    {
      enb, bsy, sel, atn, ack, act := false, false, false, false, false, false;
      rst, msg, cd, io, req, dp := false, false, false, false, false, false;
      dat := 0;
    }

    /** Init accepts every mode and changes nothing. */
    method Init(m: Mode) returns (ok: bool)
      ensures ok
    {
      ok := true;
    }

    /** Reset releases every line but DP, which it does not touch, and clears DAT. */
    method Reset()
      modifies this`enb, this`bsy, this`sel, this`atn, this`ack, this`act, this`rst
      modifies this`msg, this`cd, this`io, this`req, this`dat
      ensures Released() && dat == 0
    {
      enb, bsy, sel, atn, ack, act := false, false, false, false, false, false;
      rst, msg, cd, io, req := false, false, false, false, false;
      dat := 0;
    }

    /** Cleanup; DisableIRQ, EnableIRQ, PinConfig, PullConfig and DrvConfig have the same empty body. */
    method Cleanup()
    {
    }

    /** Acquire returns the data lines and has no side effect. */
    method Acquire() returns (v: byte)
      ensures v == dat
    {
      v := dat;
    }

    function GetBSY(): (r: bool) reads this`bsy { bsy }
    function GetSEL(): (r: bool) reads this`sel { sel }
    function GetATN(): (r: bool) reads this`atn { atn }
    function GetACK(): (r: bool) reads this`ack { ack }
    function GetACT(): (r: bool) reads this`act { act }
    function GetRST(): (r: bool) reads this`rst { rst }
    function GetMSG(): (r: bool) reads this`msg { msg }
    function GetCD(): (r: bool) reads this`cd { cd }
    function GetIO(): (r: bool) reads this`io { io }
    function GetREQ(): (r: bool) reads this`req { req }
    function GetDAT(): (r: byte) reads this`dat { dat }

    method SetBSY(ast: bool)
      modifies this`bsy
      ensures GetBSY() == ast
    {
      bsy := ast;
    }

    method SetSEL(ast: bool)
      modifies this`sel
      ensures GetSEL() == ast
    {
      sel := ast;
    }

    method SetATN(ast: bool)
      modifies this`atn
      ensures GetATN() == ast
    {
      atn := ast;
    }

    /** SetACK stores into ACT: what GetACK reads stays as it was. */
    method SetACK(ast: bool)
      modifies this`act
      ensures GetACT() == ast && GetACK() == old(GetACK())
    {
      act := ast;
    }

    method SetACT(ast: bool)
      modifies this`act
      ensures GetACT() == ast
    {
      act := ast;
    }

    method SetRST(ast: bool)
      modifies this`rst
      ensures GetRST() == ast
    {
      rst := ast;
    }

    method SetMSG(ast: bool)
      modifies this`msg
      ensures GetMSG() == ast
    {
      msg := ast;
    }

    method SetCD(ast: bool)
      modifies this`cd
      ensures GetCD() == ast
    {
      cd := ast;
    }

    method SetIO(ast: bool)
      modifies this`io
      ensures GetIO() == ast
    {
      io := ast;
    }

    method SetREQ(ast: bool)
      modifies this`req
      ensures GetREQ() == ast
    {
      req := ast;
    }

    method SetDAT(d: byte)
      modifies this`dat
      ensures GetDAT() == d
    {
      dat := d;
    }

    /** GetACK never reflects SetACK: after SetACK(true) on a reset bus, GetACK is still false. */
    method AckNeverSet()
      modifies this
      ensures !GetACK() && GetACT()
    {
      Reset();
      SetACK(true);
    }
  }
}
