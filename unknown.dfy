/**
 * The package manager used for a name nobody recognises: an empty mapping
 * that only knows its own name and a default configuration. Every operation
 * falls through to the default method of the `Pm` trait, which reports
 * the operation as unimplemented for this manager.
 */
module Unknown {
  import opened Wrappers
  import opened Config
  import opened Error

  datatype UnknownPm = UnknownPm(name: string, cfg: Config)

  const NamePrefix: string := "unknown package manager: "

  /** `Unknown::new(name)`: the configuration is always the default one. */
  function New(pmName: string): (u: UnknownPm)
    ensures |u.name| == |NamePrefix| + |pmName|
    ensures u.name[..|NamePrefix|] == NamePrefix && u.name[|NamePrefix|..] == pmName
    ensures u.cfg == DefaultConfig
  {
    UnknownPm(NamePrefix + pmName, DefaultConfig)
  }

  /** `name()`: the stored name, unchanged. */
  function Name(u: UnknownPm): (n: string)
    ensures n == u.name
  {
    u.name
  }

  /** `cfg()`: the stored configuration. */
  function Cfg(u: UnknownPm): (c: Config)
    ensures c == u.cfg
  {
    u.cfg
  }

  /** Any operation `op` on an unknown manager: the unimplemented-operation error. */
  function Invoke(u: UnknownPm, op: string): (e: Error)
    ensures e == OperationUnimplementedError(op, u.name)
  {
    OperationUnimplementedError(op, Name(u))
  }

  /** The name an unknown manager was created for, read back from its reported name. */
  function RequestedName(n: string): Option<string> {
    if |n| >= |NamePrefix| && n[..|NamePrefix|] == NamePrefix then Some(n[|NamePrefix|..]) else None
  }

  /** The reported name determines the requested one. */
  lemma NameRoundTrip(pmName: string)
    ensures RequestedName(Name(New(pmName))) == Some(pmName)
  {
  }

  /** Different requested names give different managers, all with the default configuration. */
  lemma NewInjective(x: string, y: string)
    ensures New(x) == New(y) <==> x == y
    ensures Cfg(New(x)) == Cfg(New(y)) == DefaultConfig
  {
    if New(x) == New(y) {
      NameRoundTrip(x);
      NameRoundTrip(y);
    }
  }

  /**
   * Running an operation on an unknown manager fails with a message naming
   * the operation and the requested manager, and the process exits with 1.
   */
  lemma InvokeFails(pmName: string, op: string)
    ensures Display(Invoke(New(pmName), op))
      == "Operation `" + op + "` is unimplemented for `unknown package manager: " + pmName + "`"
    ensures Report(FromError(Invoke(New(pmName), op))) == 1
  {
  }
}
