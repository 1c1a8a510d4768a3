/**
 * The command-wide configuration that every package-manager value carries.
 * Only the options the modelled code reads or passes on are kept; the full
 * option set and its loading are not part of this model.
 */
module Config {
  import opened Wrappers

  datatype Config = Config(
    defaultPm: Option<string>,  // `default_pm`: a package manager named by the user
    dryRun: bool,
    noConfirm: bool,
    needed: bool)

  /** `Config::default()`: nothing configured, every switch off. */
  const DefaultConfig: Config := Config(None, false, false, false)
}
