/**
 * Choosing the package manager: a configured name wins, otherwise the first
 * candidate of the host OS whose executable is present; the chosen name is
 * then mapped to its package-manager value.
 */
module Dispatch {
  import opened Wrappers
  import opened Config
  import Unknown

  /** The operating system the tool was built for. */
  datatype Os = Windows | MacOs | Linux | OtherOs

  /** A candidate: the manager's name and the path its executable is expected at. */
  type Candidate = (string, string)

  /** The candidates tried by detection, in order. */
  function Candidates(os: Os): (cs: seq<Candidate>)
    ensures forall i :: 0 <= i < |cs| ==> Recognised(cs[i].0, os) && cs[i].0 != "unknown"
  {
    match os
    case Windows => [("scoop", ""), ("choco", "")]
    case MacOs => [("brew", "/usr/local/bin/brew"), ("port", "/opt/local/bin/port")]
    case Linux =>
      [("apk", "/sbin/apk"), ("apt", "/usr/bin/apt"), ("emerge", "/usr/bin/emerge"),
       ("dnf", "/usr/bin/dnf"), ("zypper", "/usr/bin/zypper")]
    case OtherOs => []
  }

  /** The position of the first candidate whose executable check holds, or `|cs|`. */
  function FirstExe(cs: seq<Candidate>, isExe: Candidate -> bool): (k: nat)
    ensures k <= |cs|
    ensures k < |cs| ==> isExe(cs[k])
    ensures forall j :: 0 <= j < k ==> !isExe(cs[j])
  {
    if cs == [] then 0 else if isExe(cs[0]) then 0 else 1 + FirstExe(cs[1..], isExe)
  }

  /** `detect_pm_str`: the first present candidate's name, or "unknown". */
  function DetectPmStr(os: Os, isExe: Candidate -> bool): (name: string)
    ensures name == "unknown" || Recognised(name, os)
  {
    var cs := Candidates(os);
    var k := FirstExe(cs, isExe);
    if k < |cs| then cs[k].0 else "unknown"
  }

  /** The name dispatch works with: the configured one, else the detected one. */
  function ChooseName(cfg: Config, os: Os, isExe: Candidate -> bool): (name: string)
    ensures cfg.defaultPm.Some? ==> name == cfg.defaultPm.value
    ensures cfg.defaultPm.None? ==> name == DetectPmStr(os, isExe)
    ensures cfg.defaultPm.None? ==> name == "unknown" || Recognised(name, os)
  {
    match cfg.defaultPm
    case Some(n) => n
    case None => DetectPmStr(os, isExe)
  }

  /** The package-manager values, one variant per supported manager. */
  datatype Pm =
    | Chocolatey(cfg: Config)
    | Scoop(cfg: Config)
    | Homebrew(cfg: Config)
    | Macports(cfg: Config)
    | Portage(cfg: Config)
    | Apk(cfg: Config)
    | Apt(cfg: Config)
    | Dnf(cfg: Config)
    | Zypper(cfg: Config)
    | Conda(cfg: Config)
    | Pip(cmd: string, cfg: Config)
    | Tlmgr(cfg: Config)
    | UnknownPm(unknown: Unknown.UnknownPm)

  /** The `match` on the name: each known name gets its manager with `cfg`, any other an unknown manager. */
  function FromName(name: string, cfg: Config, os: Os): Pm {
    match name
    case "choco" => Chocolatey(cfg)
    case "scoop" => Scoop(cfg)
    case "brew" => Homebrew(cfg)
    case "port" => if os == MacOs then Macports(cfg) else UnknownPm(Unknown.New(name))
    case "emerge" => Portage(cfg)
    case "apk" => Apk(cfg)
    case "apt" => Apt(cfg)
    case "dnf" => Dnf(cfg)
    case "zypper" => Zypper(cfg)
    case "conda" => Conda(cfg)
    case "pip" => Pip("pip", cfg)
    case "pip3" => Pip("pip3", cfg)
    case "tlmgr" => Tlmgr(cfg)
    case _ => UnknownPm(Unknown.New(name))
  }

  /** `From<Config> for Box<dyn Pm>`. */
  function FromConfig(cfg: Config, os: Os, isExe: Candidate -> bool): Pm {
    FromName(ChooseName(cfg, os, isExe), cfg, os)
  }

  /** The configuration a manager runs with. */
  function CfgOf(pm: Pm): Config {
    match pm
    case UnknownPm(u) => Unknown.Cfg(u)
    case _ => pm.cfg
  }

  // ---------------------------------------------------------------------
  // Reference definitions: which names are recognised, and the name each
  // recognised manager is selected by.
  // ---------------------------------------------------------------------

  const KnownNames: set<string> :=
    {"choco", "scoop", "brew", "emerge", "apk", "apt", "dnf", "zypper", "conda", "pip", "pip3", "tlmgr"}

  predicate Recognised(name: string, os: Os) {
    name in KnownNames || (name == "port" && os == MacOs)
  }

  /** The name that selects a recognised manager. */
  function Key(pm: Pm): Option<string> {
    match pm
    case Chocolatey(_) => Some("choco")
    case Scoop(_) => Some("scoop")
    case Homebrew(_) => Some("brew")
    case Macports(_) => Some("port")
    case Portage(_) => Some("emerge")
    case Apk(_) => Some("apk")
    case Apt(_) => Some("apt")
    case Dnf(_) => Some("dnf")
    case Zypper(_) => Some("zypper")
    case Conda(_) => Some("conda")
    case Pip(cmd, _) => if cmd == "pip" || cmd == "pip3" then Some(cmd) else None
    case Tlmgr(_) => Some("tlmgr")
    case UnknownPm(_) => None
  }

  /**
   * Dispatch is total and exact: a recognised name selects the manager it
   * names, carrying the given configuration; any other name (including
   * "unknown", and "port" off macOS) selects an unknown manager made for
   * that name, which drops the configuration.
   */
  lemma FromNameSpec(name: string, cfg: Config, os: Os)
    ensures Recognised(name, os) ==> Key(FromName(name, cfg, os)) == Some(name) && CfgOf(FromName(name, cfg, os)) == cfg
    ensures !Recognised(name, os) ==> FromName(name, cfg, os) == UnknownPm(Unknown.New(name))
    ensures FromName(name, cfg, os).UnknownPm? <==> !Recognised(name, os)
  {
  }

  /** `pip` and `pip3` select the same manager, invoking the program of that name. */
  lemma PipKeepsCommand(cfg: Config, os: Os)
    ensures FromName("pip", cfg, os) == Pip("pip", cfg)
    ensures FromName("pip3", cfg, os) == Pip("pip3", cfg)
  {
  }

  /** A configured manager is used verbatim and detection is not consulted. */
  lemma ConfiguredNameWins(cfg: Config, os: Os, isExe1: Candidate -> bool, isExe2: Candidate -> bool)
    requires cfg.defaultPm.Some?
    ensures ChooseName(cfg, os, isExe1) == cfg.defaultPm.value
    ensures FromConfig(cfg, os, isExe1) == FromConfig(cfg, os, isExe2)
  {
  }

  /**
   * Detection yields the first present candidate in list order, and
   * "unknown" exactly when none is present.
   */
  lemma DetectSpec(os: Os, isExe: Candidate -> bool)
    ensures DetectPmStr(os, isExe) == "unknown" <==> forall i :: 0 <= i < |Candidates(os)| ==> !isExe(Candidates(os)[i])
    ensures DetectPmStr(os, isExe) != "unknown" ==>
      exists k :: 0 <= k < |Candidates(os)|
        && isExe(Candidates(os)[k]) && Candidates(os)[k].0 == DetectPmStr(os, isExe)
        && forall j :: 0 <= j < k ==> !isExe(Candidates(os)[j])
  {
    var cs := Candidates(os);
    var k := FirstExe(cs, isExe);
    assert forall i :: 0 <= i < |cs| ==> cs[i].0 != "unknown";
    if k < |cs| {
      assert isExe(cs[k]) && cs[k].0 == DetectPmStr(os, isExe);
    }
  }

  /** Every detectable name is recognised on its OS, so detection selects an unknown manager only when nothing is found. */
  lemma DetectedIsRecognised(cfg: Config, os: Os, isExe: Candidate -> bool)
    requires cfg.defaultPm.None?
    ensures FromConfig(cfg, os, isExe).UnknownPm? <==> DetectPmStr(os, isExe) == "unknown"
    ensures DetectPmStr(os, isExe) == "unknown" ==> FromConfig(cfg, os, isExe) == UnknownPm(Unknown.New("unknown"))
  {
    var cs := Candidates(os);
    assert forall i :: 0 <= i < |cs| ==> Recognised(cs[i].0, os);
    FromNameSpec(DetectPmStr(os, isExe), cfg, os);
  }

  /** On an OS without candidates nothing is detected, whatever is installed. */
  lemma OtherOsIsUnknown(isExe: Candidate -> bool)
    ensures DetectPmStr(OtherOs, isExe) == "unknown"
  {
  }
}
