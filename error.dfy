/**
 * The error kinds of the tool, the message each displays, and the exit code
 * the process reports when `main` returns one of them.
 */
module Error {
  import opened Wrappers
  import opened Text

  /** A subprocess status code, a signed 32-bit integer. */
  type StatusCode = x: int | -0x8000_0000 <= x < 0x8000_0000

  /** The captured output of a subprocess, as bytes. */
  type Output = seq<bv8>

  /**
   * The error kinds. Payloads that come from the runtime (`io::Error`,
   * `JoinError`, `FromUtf8Error`) are kept as the text they display.
   */
  datatype Error =
    | ArgParseError(msg: string)
    | ConfigError(msg: string)
    | CmdJoinError(joinError: string)
    | CmdSpawnError(ioError: string)
    | CmdNoHandleError(handle: string)
    | CmdWaitError(ioError: string)
    | CmdStatusCodeError(code: StatusCode, output: Output)
    | CmdInterruptedError
    | FromUtf8Error(utf8Error: string)
    | IoError(ioError: string)
    | OperationUnimplementedError(op: string, pm: string)
    | OtherError(message: string)

  const StatusPrefix: string := "Subprocess exited with code "
  const UnimplementedPrefix: string := "Operation `"
  const UnimplementedMiddle: string := "` is unimplemented for `"

  /** The `Display` text of an error. */
  function Display(e: Error): string {
    match e
    case ArgParseError(msg) => "Failed to parse arguments: " + msg
    case ConfigError(msg) => "Failed to handle config: " + msg
    case CmdJoinError(j) => "Failed to get exit code of subprocess: " + j
    case CmdSpawnError(io) => "Failed to spawn subprocess: " + io
    case CmdNoHandleError(handle) => "Subprocess didn't have a handle to " + handle
    case CmdWaitError(io) => "Subprocess failed while running: " + io
    case CmdStatusCodeError(code, _) => StatusPrefix + IntToDecimal(code)
    case CmdInterruptedError => "Subprocess interrupted by signal"
    case FromUtf8Error(u) => u
    case IoError(io) => io
    case OperationUnimplementedError(op, pm) => UnimplementedPrefix + op + UnimplementedMiddle + pm + "`"
    case OtherError(message) => message
  }

  /** The error `main` returns; it only wraps an `Error`. */
  datatype MainError = MainError(err: Error)

  /** `MainError::from`. */
  function FromError(e: Error): (m: MainError)
    ensures m.err == e
  {
    MainError(e)
  }

  /** `code as u8`: the low byte of the two's-complement representation. */
  function AsU8(code: StatusCode): (b: int)
    ensures 0 <= b < 256
  {
    code % 256
  }

  /** The process exit code for an error returned from `main`. */
  function Report(m: MainError): (exit: int)
    ensures 0 <= exit < 256
    ensures m.err.CmdStatusCodeError? ==> exit == AsU8(m.err.code)
    ensures !m.err.CmdStatusCodeError? ==> exit == 1
  {
    match m.err
    case CmdStatusCodeError(code, _) => AsU8(code)
    case _ => 1
  }

  // ---------------------------------------------------------------------
  // Exit codes.
  // ---------------------------------------------------------------------

  /** The status code's bits read as an unsigned 32-bit number. */
  function Unsigned(code: StatusCode): (u: int)
    ensures 0 <= u < 0x1_0000_0000
  {
    if code < 0 then code + 0x1_0000_0000 else code
  }

  /** `as u8` keeps the low eight bits of the 32-bit word. */
  lemma AsU8IsLowByte(code: StatusCode)
    ensures AsU8(code) == Unsigned(code) % 256
  {
  }

  /** A status code that is a multiple of 256 (256 itself, say) reports success. */
  lemma ReportZeroIff(m: MainError)
    ensures Report(m) == 0 <==> m.err.CmdStatusCodeError? && m.err.code % 256 == 0
  {
  }

  /** Worked cases: a code in 0..255 passes through; 256 wraps to 0 and -1 to 255. */
  lemma ReportExamples(out: Output)
    ensures Report(FromError(CmdStatusCodeError(7, out))) == 7
    ensures Report(FromError(CmdStatusCodeError(256, out))) == 0
    ensures Report(FromError(CmdStatusCodeError(-1, out))) == 255
    ensures Report(FromError(CmdInterruptedError)) == 1
  {
  }

  /** The exit code depends only on the wrapped error's kind and status code. */
  lemma ReportIgnoresPayload(e1: Error, e2: Error)
    requires e1.CmdStatusCodeError? <==> e2.CmdStatusCodeError?
    requires e1.CmdStatusCodeError? ==> e1.code == e2.code
    ensures Report(FromError(e1)) == Report(FromError(e2))
  {
  }

  // ---------------------------------------------------------------------
  // Messages: what the display text lets a reader recover.
  // ---------------------------------------------------------------------

  /** The status code stated in a "Subprocess exited with code N" message. */
  function StatusCodeOfMessage(s: string): Option<int> {
    if |s| >= |StatusPrefix| && s[..|StatusPrefix|] == StatusPrefix then ParseInt(s[|StatusPrefix|..])
    else None
  }

  /** The message of a status-code error states exactly its code. */
  lemma StatusMessageRoundTrip(code: StatusCode, out: Output)
    ensures StatusCodeOfMessage(Display(CmdStatusCodeError(code, out))) == Some(code as int)
  {
    var s := Display(CmdStatusCodeError(code, out));
    assert s[..|StatusPrefix|] == StatusPrefix && s[|StatusPrefix|..] == IntToDecimal(code);
    IntDecimalRoundTrip(code);
  }

  /** The index of the first `c` in `s`, or `|s|` when there is none. */
  function IndexOf(s: string, c: char): (k: nat)
    ensures k <= |s| && (k < |s| ==> s[k] == c)
    ensures forall j :: 0 <= j < k ==> s[j] != c
  {
    if s == [] then 0 else if s[0] == c then 0 else 1 + IndexOf(s[1..], c)
  }

  /**
   * The operation and package manager named by an "Operation `op` is
   * unimplemented for `pm`" message: the operation runs to the first
   * backtick, the package manager to the closing one.
   */
  function UnimplementedOfMessage(s: string): Option<(string, string)> {
    if |s| < |UnimplementedPrefix| || s[..|UnimplementedPrefix|] != UnimplementedPrefix then None
    else
      var rest := s[|UnimplementedPrefix|..];
      var k := IndexOf(rest, '`');
      var tail := rest[k..];
      if |tail| < |UnimplementedMiddle| + 1 || tail[..|UnimplementedMiddle|] != UnimplementedMiddle
         || tail[|tail| - 1] != '`'
      then None
      else Some((rest[..k], tail[|UnimplementedMiddle|..|tail| - 1]))
  }

  /** An operation name without a backtick can be read back from the message, with the manager's name. */
  lemma UnimplementedMessageRoundTrip(op: string, pm: string)
    requires forall i :: 0 <= i < |op| ==> op[i] != '`'
    ensures UnimplementedOfMessage(Display(OperationUnimplementedError(op, pm))) == Some((op, pm))
  {
    var s := Display(OperationUnimplementedError(op, pm));
    var rest := s[|UnimplementedPrefix|..];
    assert s[..|UnimplementedPrefix|] == UnimplementedPrefix;
    assert rest == op + UnimplementedMiddle + pm + "`";
    assert rest[|op|] == '`';
    var k := IndexOf(rest, '`');
    assert k == |op|;
    var tail := rest[k..];
    assert tail == UnimplementedMiddle + pm + "`";
    assert tail[..|UnimplementedMiddle|] == UnimplementedMiddle;
    assert tail[|UnimplementedMiddle|..|tail| - 1] == pm;
    assert rest[..k] == op;
  }
}
