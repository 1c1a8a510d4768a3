/**
 * The Conda package manager: how each pacman-style operation is translated
 * into calls of the execution layer (`run`, `run_with`, `search_regex`).
 *
 * Every operation takes the user's keywords and flags and an oracle
 * `succeeds` that stands for the outcome of each call into the execution
 * layer. Its result is the list of calls it made, in order, and whether it
 * returned `Ok(())`.
 */
module Conda {
  import opened Exec

  /** The calls an operation made and whether it ended in `Ok(())`. */
  datatype Trace = Trace(issued: seq<Request>, ok: bool)

  /** The operations Conda implements, by their pacman name. */
  datatype Op = Q | Qo | Qs | R | S | Sc | Si | Ss | Su | Suy

  /** The name Conda reports for itself. */
  const Name: string := "conda"

  /** `STRAT_PROMPT`: let conda skip its own prompt by passing `-y`. */
  const StratPrompt: Strategy := Strategy(NativeNoConfirm(["-y"]))

  /** One call into the execution layer whose outcome is the operation's outcome. */
  function Issue(req: Request, succeeds: Request -> bool): (t: Trace)
    ensures t.issued == [req] && t.ok == succeeds(req)
  {
    Trace([req], succeeds(req))
  }

  /** `run_with(cmd, PmMode::default(), &STRAT_PROMPT)`. */
  function RunNoConfirm(cmd: Cmd): (req: Request)
    ensures req.RunWith? && req.cmd == cmd && req.mode == DefaultMode
    ensures req.strat.prompt == NativeNoConfirm(["-y"])
  {
    RunWith(cmd, DefaultMode, StratPrompt)
  }

  /** `q`: list the installed packages, or search them when keywords are given. */
  function DoQ(kws: seq<string>, flags: seq<string>, succeeds: Request -> bool): (t: Trace)
    ensures kws == [] ==> t.issued == [Run(Cmd(["conda", "list"], [], flags))]
    ensures kws != [] ==> t == DoQs(kws, flags, succeeds)
  {
    if |kws| == 0 then Issue(Run(WithFlags(NewCmd(["conda", "list"]), flags)), succeeds)
    else DoQs(kws, flags, succeeds)
  }

  /** `qo`: which package owns a file. */
  function DoQo(kws: seq<string>, flags: seq<string>, succeeds: Request -> bool): (t: Trace)
    ensures t.issued == [Run(Cmd(["conda", "package", "--which"], kws, flags))]
  {
    Issue(Run(WithFlags(WithKws(NewCmd(["conda", "package", "--which"]), kws), flags)), succeeds)
  }

  /**
   * `qs`: list the installed packages and keep the records matching every
   * keyword; the keywords filter the output and never reach the command.
   */
  function DoQs(kws: seq<string>, flags: seq<string>, succeeds: Request -> bool): (t: Trace)
    ensures t.issued == [SearchRegex(Cmd(["conda", "list"], [], flags), kws)]
  {
    Issue(SearchRegex(WithFlags(NewCmd(["conda", "list"]), flags), kws), succeeds)
  }

  /** `r`: remove packages, without conda's own prompt. */
  function DoR(kws: seq<string>, flags: seq<string>, succeeds: Request -> bool): (t: Trace)
    ensures t.issued == [RunWith(Cmd(["conda", "remove"], kws, flags), DefaultMode, StratPrompt)]
  {
    Issue(RunNoConfirm(WithFlags(WithKws(NewCmd(["conda", "remove"]), kws), flags)), succeeds)
  }

  /** `s`: install packages, without conda's own prompt. */
  function DoS(kws: seq<string>, flags: seq<string>, succeeds: Request -> bool): (t: Trace)
    ensures t.issued == [RunWith(Cmd(["conda", "install"], kws, flags), DefaultMode, StratPrompt)]
  {
    Issue(RunNoConfirm(WithFlags(WithKws(NewCmd(["conda", "install"]), kws), flags)), succeeds)
  }

  /** `sc`: clean every cache; the keywords are ignored. */
  function DoSc(kws: seq<string>, flags: seq<string>, succeeds: Request -> bool): (t: Trace)
    ensures t.issued == [RunWith(Cmd(["conda", "clean", "--all"], [], flags), DefaultMode, StratPrompt)]
  {
    Issue(RunNoConfirm(WithFlags(NewCmd(["conda", "clean", "--all"]), flags)), succeeds)
  }

  /** `si`: show remote package information. */
  function DoSi(kws: seq<string>, flags: seq<string>, succeeds: Request -> bool): (t: Trace)
    ensures t.issued == [Run(Cmd(["conda", "search", "--info"], kws, flags))]
  {
    Issue(Run(WithFlags(WithKws(NewCmd(["conda", "search", "--info"]), kws), flags)), succeeds)
  }

  /** The one `conda search` that `ss` runs for the keyword `k`. */
  function SearchOne(k: string, flags: seq<string>): (req: Request)
    ensures req == Run(Cmd(["conda", "search"], ["*" + k + "*"], flags))
  {
    Run(WithFlags(WithKws(NewCmd(["conda", "search"]), ["*" + k + "*"]), flags))
  }

  /**
   * `ss`: one `conda search *k*` per keyword, in order, stopping at the first
   * that fails; with no keywords nothing runs and the result is `Ok(())`.
   */
  function DoSs(kws: seq<string>, flags: seq<string>, succeeds: Request -> bool): (t: Trace)
    ensures |t.issued| <= |kws|
    ensures forall i :: 0 <= i < |t.issued| ==> t.issued[i] == SearchOne(kws[i], flags)
    ensures t.ok ==> |t.issued| == |kws|
    ensures !t.ok ==> |t.issued| > 0
    ensures forall i :: 0 <= i < |t.issued| ==> (succeeds(t.issued[i]) <==> i < |t.issued| - 1 || t.ok)
    decreases |kws|
  {
    if |kws| == 0 then Trace([], true)
    else
      var req := SearchOne(kws[0], flags);
      if !succeeds(req) then Trace([req], false)
      else
        var rest := DoSs(kws[1..], flags, succeeds);
        PrependSearch(kws, flags, succeeds, rest);
        var issued := [req] + rest.issued;
        Trace(issued, rest.ok)
  }

  /**
   * Putting the first keyword's successful search in front of the trace for
   * the other keywords keeps every search at its keyword's index.
   */
  lemma PrependSearch(kws: seq<string>, flags: seq<string>, succeeds: Request -> bool, rest: Trace)
    requires |kws| > 0 && succeeds(SearchOne(kws[0], flags))
    requires |rest.issued| <= |kws| - 1 && (!rest.ok ==> |rest.issued| > 0)
    requires forall i :: 0 <= i < |rest.issued| ==> rest.issued[i] == SearchOne(kws[1..][i], flags)
    requires forall i :: 0 <= i < |rest.issued| ==> (succeeds(rest.issued[i]) <==> i < |rest.issued| - 1 || rest.ok)
    ensures var issued := [SearchOne(kws[0], flags)] + rest.issued;
      && (forall i :: 0 <= i < |issued| ==> issued[i] == SearchOne(kws[i], flags))
      && (forall i :: 0 <= i < |issued| ==> (succeeds(issued[i]) <==> i < |issued| - 1 || rest.ok))
  {
    var issued := [SearchOne(kws[0], flags)] + rest.issued;
    forall i | 0 <= i < |issued|
      ensures issued[i] == SearchOne(kws[i], flags)
      ensures succeeds(issued[i]) <==> i < |issued| - 1 || rest.ok
    {
      if i > 0 {
        assert issued[i] == rest.issued[i - 1] && kws[1..][i - 1] == kws[i];
      }
    }
  }

  /** `su`: update every package, without conda's own prompt. */
  function DoSu(kws: seq<string>, flags: seq<string>, succeeds: Request -> bool): (t: Trace)
    ensures t.issued == [RunWith(Cmd(["conda", "update", "--all"], kws, flags), DefaultMode, StratPrompt)]
  {
    Issue(RunNoConfirm(WithFlags(WithKws(NewCmd(["conda", "update", "--all"]), kws), flags)), succeeds)
  }

  /** `suy`: conda refreshes its index on every update, so this is `su`. */
  function DoSuy(kws: seq<string>, flags: seq<string>, succeeds: Request -> bool): (t: Trace)
    ensures t == DoSu(kws, flags, succeeds)
  {
    DoSu(kws, flags, succeeds)
  }

  /** The operation `op` as the dispatcher calls it. */
  function Perform(op: Op, kws: seq<string>, flags: seq<string>, succeeds: Request -> bool): Trace {
    match op
    case Q => DoQ(kws, flags, succeeds)
    case Qo => DoQo(kws, flags, succeeds)
    case Qs => DoQs(kws, flags, succeeds)
    case R => DoR(kws, flags, succeeds)
    case S => DoS(kws, flags, succeeds)
    case Sc => DoSc(kws, flags, succeeds)
    case Si => DoSi(kws, flags, succeeds)
    case Ss => DoSs(kws, flags, succeeds)
    case Su => DoSu(kws, flags, succeeds)
    case Suy => DoSuy(kws, flags, succeeds)
  }

  // ---------------------------------------------------------------------
  // A reference table of what each operation sends, and the lemmas that
  // every operation follows it.
  // ---------------------------------------------------------------------

  /** Which entry point of the execution layer a request goes through. */
  datatype Route = Plain | NoConfirm | Filtered

  function RouteOf(req: Request): Route {
    match req
    case Run(_) => Plain
    case RunWith(_, _, _) => NoConfirm
    case SearchRegex(_, _) => Filtered
  }

  /** The route each operation is meant to take. */
  function ExpectedRoute(op: Op, kws: seq<string>): Route {
    if op in {R, S, Sc, Su, Suy} then NoConfirm
    else if op == Qs || (op == Q && kws != []) then Filtered
    else Plain
  }

  /** The fixed argv each operation's commands start with. */
  function ExpectedBase(op: Op): seq<string> {
    match op
    case Q => ["conda", "list"]
    case Qs => ["conda", "list"]
    case Qo => ["conda", "package", "--which"]
    case R => ["conda", "remove"]
    case S => ["conda", "install"]
    case Sc => ["conda", "clean", "--all"]
    case Si => ["conda", "search", "--info"]
    case Ss => ["conda", "search"]
    case Su => ["conda", "update", "--all"]
    case Suy => ["conda", "update", "--all"]
  }

  /** Operations whose command carries the user's keywords verbatim. */
  predicate PassesKeywords(op: Op) {
    op in {Qo, R, S, Si, Su, Suy}
  }

  /**
   * Every request of every operation goes through the operation's expected
   * route with its fixed argv and the user's flags unchanged; the
   * no-confirm route always uses the default mode and `-y`; the command's
   * keywords are the user's keywords, none (`q`, `qs`, `sc`), or the one
   * wildcard pattern of `ss`.
   */
  lemma PerformFollowsTable(op: Op, kws: seq<string>, flags: seq<string>, succeeds: Request -> bool)
    ensures forall i :: 0 <= i < |Perform(op, kws, flags, succeeds).issued| ==>
      var req := Perform(op, kws, flags, succeeds).issued[i];
      && RouteOf(req) == ExpectedRoute(op, kws)
      && req.cmd.cmd == ExpectedBase(op)
      && req.cmd.flags == flags
      && (RouteOf(req) == NoConfirm ==> req.mode == DefaultMode && req.strat.prompt == NativeNoConfirm(["-y"]))
      && (RouteOf(req) == Filtered ==> req.patterns == kws)
      && req.cmd.kws == (if PassesKeywords(op) then kws else if op == Ss then ["*" + kws[i] + "*"] else [])
  {
  }

  /** Every operation except `ss` makes exactly one call, and its outcome is that call's. */
  lemma SingleCallOps(op: Op, kws: seq<string>, flags: seq<string>, succeeds: Request -> bool)
    requires op != Ss
    ensures |Perform(op, kws, flags, succeeds).issued| == 1
    ensures Perform(op, kws, flags, succeeds).ok == succeeds(Perform(op, kws, flags, succeeds).issued[0])
  {
  }

  /** `q` with keywords behaves exactly as `qs`, and `suy` exactly as `su`. */
  lemma Delegations(kws: seq<string>, flags: seq<string>, succeeds: Request -> bool)
    ensures kws != [] ==> Perform(Q, kws, flags, succeeds) == Perform(Qs, kws, flags, succeeds)
    ensures Perform(Suy, kws, flags, succeeds) == Perform(Su, kws, flags, succeeds)
  {
  }

  /** `sc` does not depend on the keywords at all. */
  lemma ScIgnoresKeywords(kws1: seq<string>, kws2: seq<string>, flags: seq<string>, succeeds: Request -> bool)
    ensures Perform(Sc, kws1, flags, succeeds) == Perform(Sc, kws2, flags, succeeds)
  {
  }

  /** `ss` succeeds exactly when every keyword's search succeeds; with no keywords it runs nothing. */
  lemma SsOkIffAllSucceed(kws: seq<string>, flags: seq<string>, succeeds: Request -> bool)
    ensures DoSs(kws, flags, succeeds).ok <==> forall i :: 0 <= i < |kws| ==> succeeds(SearchOne(kws[i], flags))
    ensures kws == [] ==> DoSs(kws, flags, succeeds) == Trace([], true)
  {
    var t := DoSs(kws, flags, succeeds);
    if !t.ok {
      var n := |t.issued| - 1;
      assert !succeeds(SearchOne(kws[n], flags));
    }
  }

  /**
   * `ss` stops at the first failing search: when the `k`-th search is the
   * first that fails, exactly the searches `0..k` run and the result is an
   * error.
   */
  lemma {:induction false} SsStopsAtFirstFailure(kws: seq<string>, flags: seq<string>, succeeds: Request -> bool, k: nat)
    requires k < |kws|
    requires !succeeds(SearchOne(kws[k], flags))
    requires forall i :: 0 <= i < k ==> succeeds(SearchOne(kws[i], flags))
    ensures |DoSs(kws, flags, succeeds).issued| == k + 1
    ensures !DoSs(kws, flags, succeeds).ok
  {
    if k > 0 {
      assert succeeds(SearchOne(kws[0], flags));
      SsStopsAtFirstFailure(kws[1..], flags, succeeds, k - 1);
    }
  }
}
