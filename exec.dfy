/**
 * The command description and the three ways an operation hands a command to
 * the execution layer. How a command is rendered, prompted, elevated and run
 * is not part of this model: a request only records which entry point was
 * called and with what.
 */
module Exec {

  /** `Cmd`: the base argv, then the user's keywords, then the user's flags. */
  datatype Cmd = Cmd(cmd: seq<string>, kws: seq<string>, flags: seq<string>)

  /** `Cmd::new(base)`. */
  function NewCmd(base: seq<string>): (c: Cmd)
    ensures c.cmd == base && c.kws == [] && c.flags == []
  {
    Cmd(base, [], [])
  }

  /** `.kws(ks)`: adds keywords after those already present, touching nothing else. */
  function WithKws(c: Cmd, ks: seq<string>): (r: Cmd)
    ensures r.cmd == c.cmd && r.flags == c.flags
    ensures |r.kws| == |c.kws| + |ks|
    ensures r.kws[..|c.kws|] == c.kws && r.kws[|c.kws|..] == ks
  {
    c.(kws := c.kws + ks)
  }

  /** `.flags(fs)`: adds flags after those already present, touching nothing else. */
  function WithFlags(c: Cmd, fs: seq<string>): (r: Cmd)
    ensures r.cmd == c.cmd && r.kws == c.kws
    ensures |r.flags| == |c.flags| + |fs|
    ensures r.flags[..|c.flags|] == c.flags && r.flags[|c.flags|..] == fs
  {
    c.(flags := c.flags + fs)
  }

  /** The execution mode passed to `run_with`; the modelled code only passes the default. */
  datatype PmMode = DefaultMode

  /** How confirmation is obtained before the command runs. */
  datatype PromptStrategy =
    | NoPrompt
    | NativeNoConfirm(extraFlags: seq<string>)
    | NativeConfirm
    | CustomConfirm(prompt: string)

  /** The mediation policy; settings other than the prompt keep their defaults here. */
  datatype Strategy = Strategy(prompt: PromptStrategy)

  /** One call into the execution layer. */
  datatype Request =
    | Run(cmd: Cmd)                                   // `run(cmd)`
    | RunWith(cmd: Cmd, mode: PmMode, strat: Strategy) // `run_with(cmd, mode, strat)`
    | SearchRegex(cmd: Cmd, patterns: seq<string>)     // `search_regex(cmd, patterns)`
}
