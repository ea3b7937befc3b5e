/**
 * ScsiDump::ParseArguments: the options getopt delivers, applied in order
 * to the settings, then the checks made once all options are in.  Parsing
 * the option text (GetAsUnsignedInt, ProcessId of piscsi_util) is not part
 * of this model: each option arrives already converted.
 */
module DumpOptions {

  const MinimumBufferSize := 1024 * 64
  const DefaultBufferSize := 1024 * 1024

  /** One option as getopt returns it with "i:f:s:t:arvpIS", its argument already converted. */
  datatype Opt =
    | BoardId(parsed: bool, id: nat)                 // -i: whether the text was an unsigned number, and that number
    | File(name: string)                             // -f
    | InquiryOpt                                     // -I
    | BufferSize(parsed: bool, size: nat)            // -s
    | ScanOpt                                        // -S
    | TargetOpt(error: string, id: nat, lun: int)    // -t: ProcessId's error text and the ID and LUN it stores
    | Verbose                                        // -v
    | AllLuns                                        // -a
    | Restore                                        // -r
    | Properties                                     // -p
    | Unknown                                        // any other character, ignored

  datatype Settings = Settings(
    initiatorId: int,
    targetId: int,
    targetLun: int,
    filename: string,
    inquiry: bool,
    scanBus: bool,
    allLuns: bool,
    restore: bool,
    propertiesFile: bool,
    verbose: bool,
    bufferSize: int)

  /** The field defaults (board ID 7, no target, LUN 0) and the default 1 MiB buffer. */
  const Defaults := Settings(7, -1, 0, "", false, false, false, false, false, false, DefaultBufferSize)

  /** The parser_exception reasons. */
  datatype ParseError =
    | InvalidBoardId
    | BufferTooSmall
    | BadTarget(message: string)
    | MissingFilename
    | MissingTarget
    | SameIds

  datatype Parsed = Accepted(settings: Settings) | Rejected(error: ParseError)

  /** Whether an option passes its own check inside the option loop. */
  predicate OptAccepted(o: Opt)
  {
    match o
    case BoardId(parsed, id) => parsed && id <= 7
    case BufferSize(parsed, size) => parsed && size >= MinimumBufferSize
    case TargetOpt(error, _, _) => error == ""
    case _ => true
  }

  /** The error an option that fails its check raises. */
  function OptError(o: Opt): (r: ParseError)
  {
    match o
    case BoardId(_, _) => InvalidBoardId
    case BufferSize(_, _) => BufferTooSmall
    case TargetOpt(error, _, _) => BadTarget(error)
    case _ => InvalidBoardId
  }

  /** The field update an accepted option makes. */
  function Set(s: Settings, o: Opt): (r: Settings)
  {
    match o
    case BoardId(_, id) => s.(initiatorId := id)
    case File(name) => s.(filename := name)
    case InquiryOpt => s.(inquiry := true)
    case BufferSize(_, size) => s.(bufferSize := size)
    case ScanOpt => s.(scanBus := true)
    case TargetOpt(_, id, lun) => s.(targetId := id, targetLun := lun)
    case Verbose => s.(verbose := true)
    case AllLuns => s.(allLuns := true)
    case Restore => s.(restore := true)
    case Properties => s.(propertiesFile := true)
    case Unknown => s
  }

  /** Every option applied in order, errors ignored. */
  function SetAll(s: Settings, opts: seq<Opt>): (r: Settings)
    decreases |opts|
  {
    if opts == [] then s else SetAll(Set(s, opts[0]), opts[1..])
  }

  /** The option loop: the first option that fails its check ends the parse. */
  function ApplyAll(s: Settings, opts: seq<Opt>): (r: Parsed)
    decreases |opts|
  {
    if opts == [] then Accepted(s)
    else if !OptAccepted(opts[0]) then Rejected(OptError(opts[0]))
    else ApplyAll(Set(s, opts[0]), opts[1..])
  }

  /** The checks after the loop, in their order, then the LUN default and the scan/inquiry exclusion. */
  function Finish(s: Settings): (r: Parsed)
  {
    if !s.scanBus && !s.inquiry && s.filename == "" then Rejected(MissingFilename)
    else if !s.scanBus && s.targetId == -1 then Rejected(MissingTarget)
    else if s.targetId == s.initiatorId then Rejected(SameIds)
    else
      var lun := if s.targetLun == -1 then 0 else s.targetLun;
      Accepted(s.(targetLun := lun, inquiry := s.inquiry && !s.scanBus))
  }

  function ParseSpec(opts: seq<Opt>): (r: Parsed)
  {
    match ApplyAll(Defaults, opts)
    case Rejected(e) => Rejected(e)
    case Accepted(s) => Finish(s)
  }

  /** What the settings satisfy once every check has passed. */
  predicate Consistent(s: Settings)
  {
    && 0 <= s.initiatorId <= 7
    && s.bufferSize >= MinimumBufferSize
    && (s.scanBus || s.inquiry || s.filename != "")
    && (s.scanBus || s.targetId != -1)
    && s.targetId != s.initiatorId
    && s.targetLun != -1
    && !(s.scanBus && s.inquiry)
  }

  /** The option loop gets through exactly when every option passes its check, and then has applied them all. */
  lemma {:induction false} ApplyAllAccepts(s: Settings, opts: seq<Opt>)
    ensures ApplyAll(s, opts).Accepted? <==> forall i :: 0 <= i < |opts| ==> OptAccepted(opts[i])
    ensures ApplyAll(s, opts).Accepted? ==> ApplyAll(s, opts).settings == SetAll(s, opts)
    ensures ApplyAll(s, opts).Rejected? ==>
      exists i :: 0 <= i < |opts| && !OptAccepted(opts[i]) && ApplyAll(s, opts).error == OptError(opts[i])
    decreases |opts|
  {
    if opts != [] && OptAccepted(opts[0]) {
      ApplyAllAccepts(Set(s, opts[0]), opts[1..]);
      if ApplyAll(s, opts).Accepted? {
        forall i | 0 <= i < |opts|
          ensures OptAccepted(opts[i])
        {
          if i > 0 {
            assert opts[i] == opts[1..][i - 1];
          }
        }
      } else {
        var j :| 0 <= j < |opts[1..]| && !OptAccepted(opts[1..][j]) && ApplyAll(s, opts).error == OptError(opts[1..][j]);
        assert opts[j + 1] == opts[1..][j];
      }
      if forall i :: 0 <= i < |opts| ==> OptAccepted(opts[i]) {
        forall i | 0 <= i < |opts[1..]|
          ensures OptAccepted(opts[1..][i])
        {
          assert opts[1..][i] == opts[i + 1];
        }
      }
    }
  }

  /** Settings that got through the parse satisfy every check; board ID and buffer size checks need no later test. */
  lemma ParseSpecConsistent(opts: seq<Opt>)
    ensures ParseSpec(opts).Accepted? ==> Consistent(ParseSpec(opts).settings)
  {
    ApplyAllAccepts(Defaults, opts);
    if ApplyAll(Defaults, opts).Accepted? {
      SetAllKeepsChecked(Defaults, opts);
    }
  }

  /** Applying accepted options keeps the board ID in 0..7 and the buffer at least the minimum. */
  lemma {:induction false} SetAllKeepsChecked(s: Settings, opts: seq<Opt>)
    requires 0 <= s.initiatorId <= 7 && s.bufferSize >= MinimumBufferSize
    requires forall i :: 0 <= i < |opts| ==> OptAccepted(opts[i])
    ensures var r := SetAll(s, opts);
      0 <= r.initiatorId <= 7 && r.bufferSize >= MinimumBufferSize
    decreases |opts|
  {
    if opts != [] {
      assert OptAccepted(opts[0]);
      forall i | 0 <= i < |opts[1..]|
        ensures OptAccepted(opts[1..][i])
      {
        assert opts[1..][i] == opts[i + 1];
      }
      SetAllKeepsChecked(Set(s, opts[0]), opts[1..]);
    }
  }

  /**
   * The parse is accepted exactly when every option passes its check and the
   * settings they make pass the final checks.
   */
  lemma ParseSpecAccepts(opts: seq<Opt>)
    ensures ParseSpec(opts).Accepted? <==>
      && (forall i :: 0 <= i < |opts| ==> OptAccepted(opts[i]))
      && var s := SetAll(Defaults, opts);
         && (s.scanBus || s.inquiry || s.filename != "")
         && (s.scanBus || s.targetId != -1)
         && s.targetId != s.initiatorId
  {
    ApplyAllAccepts(Defaults, opts);
  }

  /** ParseArguments: the option loop and the final checks, on a copy of the settings. */
  method ParseArguments(opts: seq<Opt>) returns (p: Parsed)
    ensures p == ParseSpec(opts)
  {
    var s := Defaults;
    var i := 0;
    while i < |opts|
      invariant 0 <= i <= |opts|
      invariant ApplyAll(Defaults, opts) == ApplyAll(s, opts[i..])
    {
      assert opts[i..][1..] == opts[i + 1..];
      var o := opts[i];
      match o {
        case BoardId(parsed, id) =>
          if !parsed || id > 7 {
            return Rejected(InvalidBoardId);
          }
          s := s.(initiatorId := id);
        case File(name) =>
          s := s.(filename := name);
        case InquiryOpt =>
          s := s.(inquiry := true);
        case BufferSize(parsed, size) =>
          if !parsed || size < MinimumBufferSize {
            return Rejected(BufferTooSmall);
          }
          s := s.(bufferSize := size);
        case ScanOpt =>
          s := s.(scanBus := true);
        case TargetOpt(error, id, lun) =>
          if error != "" {
            return Rejected(BadTarget(error));
          }
          s := s.(targetId := id, targetLun := lun);
        case Verbose =>
          s := s.(verbose := true);
        case AllLuns =>
          s := s.(allLuns := true);
        case Restore =>
          s := s.(restore := true);
        case Properties =>
          s := s.(propertiesFile := true);
        case Unknown =>
      }
      i := i + 1;
    }
    assert opts[i..] == [];
    if !s.scanBus && !s.inquiry && s.filename == "" {
      return Rejected(MissingFilename);
    }
    if !s.scanBus && s.targetId == -1 {
      return Rejected(MissingTarget);
    }
    if s.targetId == s.initiatorId {
      return Rejected(SameIds);
    }
    if s.targetLun == -1 {
      s := s.(targetLun := 0);
    }
    if s.scanBus {
      s := s.(inquiry := false);
    }
    p := Accepted(s);
  }
}
