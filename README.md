# pacaptr core, modelled in Dafny

pacaptr is a wrapper that accepts pacman-style commands (`-S`, `-Qs`, `-Ss`,
…) and turns them into the commands of the package manager present on the
host. This project models six pieces of it as pure Dafny definitions and
proves properties about them:

- **Conda** (`conda.dfy`): how each operation the Conda manager implements
  (`q`, `qo`, `qs`, `r`, `s`, `sc`, `si`, `ss`, `su`, `suy`) becomes calls
  into the execution layer. Each call is `run`, `run_with` with the
  no-confirm strategy `-y`, or `search_regex`. The outcome of each call
  comes from an oracle `succeeds`. An operation's result is the list of
  calls it made and whether it returned `Ok(())`.
- **Dispatch** (`dispatch.dfy`): how the package manager is chosen. A
  configured name wins. Otherwise detection picks the first candidate of
  the host OS whose executable is present, falling back to `"unknown"`.
  The chosen name is then mapped to its manager value. The OS and the
  executable check are parameters.
- **Unknown** (`unknown.dfy`): the manager used for an unrecognised name.
  It has the name `unknown package manager: NAME` and the default
  configuration. Every operation on it fails as unimplemented.
- **Error** (`error.dfy`): the error kinds and the message each displays.
  `MainError` wraps an error, and `report` turns it into the exit code.
- **CompatTable** (`compat_table.dfy`): the implementation-status table of
  the documentation. For each manager source file it records which of the
  30 pacman methods are defined, by matching `fn\s+NAME\s*\(`. It then
  builds the header row and one row per file, sorted by file name. The
  input is the list of (file name, contents) pairs.
- **BumpChoco** (`bump_choco.dfy`): the pure steps of the Chocolatey
  release task:
  - the package version derived from the tag (strip one `v`, delete the
    leftmost `-?take\.\d+`);
  - the release URL;
  - the name of the pushed `.nupkg`;
  - the checksum block built from `openssl dgst` output.

Support modules:

- `Wrappers`: `Option` and `Result`.
- `Text`: Unicode whitespace, lexicographic order and decimal rendering.
- `Config`: the configuration record.
- `Exec`: the command record and the three request kinds.

## Model

| member | source | states |
|---|---|---|
| Conda.RunNoConfirm | src/pm/conda.rs:28-31 | a `run_with` request carries the command unchanged, the default mode and the native no-confirm prompt with the extra flag `-y` |
| Conda.StratPrompt | src/pm/conda.rs:28-31 | `STRAT_PROMPT` is the native no-confirm prompt with the extra flag `-y` |
| Conda.DoQ | src/pm/conda.rs:52-59 | with no keywords `q` runs `conda list` plus the flags, once; with keywords it behaves exactly as `qs` |
| Conda.DoQo | src/pm/conda.rs:61-68 | `qo` runs `conda package --which` with the keywords, then the flags, as its one call |
| Conda.DoQs | src/pm/conda.rs:70-77 | `qs` hands `conda list` plus the flags to the regex search with all keywords as patterns; no keyword reaches the command |
| Conda.DoR | src/pm/conda.rs:79-86 | `r` sends `conda remove` with the keywords and flags through `run_with` with `STRAT_PROMPT` |
| Conda.DoS | src/pm/conda.rs:88-95 | `s` sends `conda install` with the keywords and flags through `run_with` with `STRAT_PROMPT` |
| Conda.DoSc | src/pm/conda.rs:97-104 | `sc` sends `conda clean --all` with the flags only (keywords dropped) through `run_with` with `STRAT_PROMPT` |
| Conda.DoSi | src/pm/conda.rs:106-113 | `si` runs `conda search --info` with the keywords and flags |
| Conda.SearchOne | src/pm/conda.rs:119-120 | the search for keyword `k` is `conda search *k*` followed by the flags |
| Conda.DoSs | src/pm/conda.rs:115-122 | `ss` issues one search per keyword, in keyword order, as a prefix of the keywords. It succeeds only after searching every keyword. Every issued search except a failing last one succeeded. A failure is always a search that was issued |
| Conda.DoSu | src/pm/conda.rs:124-131 | `su` sends `conda update --all` with the keywords and flags through `run_with` with `STRAT_PROMPT` |
| Conda.DoSuy | src/pm/conda.rs:133-137 | `suy` is exactly `su` |
| Conda.Perform | src/pm/conda.rs:41-138 | the operation the dispatcher calls, by its pacman name; its calls and outcome are stated by the rows above and below |
| Conda.PerformFollowsTable | src/pm/conda.rs:53-137 | every request of every operation uses the operation's expected entry point and base argv. It keeps the user's flags as they are and passes keywords, none, or the `ss` wildcard as the reference table says. No-confirm requests always carry the default mode and `-y` |
| Conda.SingleCallOps | src/pm/conda.rs:53-137 | every operation but `ss` makes exactly one call, and its result is that call's outcome |
| Conda.Delegations | src/pm/conda.rs:53-137 | `q` with keywords equals `qs`, and `suy` equals `su`, on every input |
| Conda.ScIgnoresKeywords | src/pm/conda.rs:99-104 | the result of `sc` does not depend on the keywords |
| Conda.SsOkIffAllSucceed | src/pm/conda.rs:117-122 | `ss` returns `Ok` iff every keyword's search succeeds; with no keywords it runs nothing and returns `Ok` |
| Conda.SsStopsAtFirstFailure | src/pm/conda.rs:117-122 | when search `k` is the first to fail, exactly `k + 1` searches run and the result is an error |
| Dispatch.FirstExe | src/dispatch/mod.rs:32-35 | the result is the position of the first candidate whose executable check holds; every earlier candidate fails the check |
| Dispatch.Candidates | src/dispatch/mod.rs:13-30 | the candidate (name, path) pairs per OS, in order; every candidate name is recognised by dispatch on that OS and none is "unknown" |
| Dispatch.DetectPmStr | src/dispatch/mod.rs:12-36 | the detected name is "unknown" or a name dispatch recognises on that OS |
| Dispatch.ChooseName | src/dispatch/mod.rs:43 | a configured `default_pm` is used as it is; otherwise the name is exactly what detection returns, which is "unknown" or recognised |
| Dispatch.FromName | src/dispatch/mod.rs:46-104 | the `match` on the name; its meaning is stated by `Dispatch.FromNameSpec` |
| Dispatch.FromConfig | src/dispatch/mod.rs:40-105 | `From<Config>`: the name chosen by `Dispatch.ChooseName` (the configured one, else exactly the detected one) mapped by `Dispatch.FromName`; stated by `Dispatch.ChooseName`, `Dispatch.FromNameSpec`, `Dispatch.ConfiguredNameWins` and `Dispatch.DetectedIsRecognised` |
| Dispatch.DetectSpec | src/dispatch/mod.rs:12-36 | detection returns `"unknown"` iff no candidate of the OS is present. Otherwise it returns the name of the first present candidate in list order |
| Dispatch.OtherOsIsUnknown | src/dispatch/mod.rs:29-35 | on an OS without candidates detection yields `"unknown"` whatever is installed |
| Dispatch.FromNameSpec | src/dispatch/mod.rs:46-104 | a recognised name selects the manager variant that `Dispatch.Key` assigns to that name (only `Pip` is keyed by its command, and only for `pip` and `pip3`), with the given configuration (`port` only on macOS). Any other name selects `Unknown::new(name)`, and only those names do |
| Dispatch.PipKeepsCommand | src/dispatch/mod.rs:80-90 | `pip` and `pip3` select the pip manager, with that program name as its command |
| Dispatch.ConfiguredNameWins | src/dispatch/mod.rs:43 | a configured `default_pm` is the name used, and the result does not depend on detection |
| Dispatch.DetectedIsRecognised | src/dispatch/mod.rs:40-105 | without a configured name the result is an unknown manager iff detection found nothing; that manager is `Unknown::new("unknown")` |
| Unknown.New | src/pm/unknown.rs:28-33 | the name is `unknown package manager: ` followed by the requested name; the configuration is the default |
| Unknown.Name | src/pm/unknown.rs:39-41 | `name()` returns the stored name |
| Unknown.Cfg | src/pm/unknown.rs:43-45 | `cfg()` returns the stored configuration |
| Unknown.NameRoundTrip | src/pm/unknown.rs:30 | the requested name can be read back from the reported one |
| Unknown.NewInjective | src/pm/unknown.rs:28-33 | different requested names give different managers, all with the default configuration |
| Unknown.Invoke | src/pm/unknown.rs:37-46 | an operation on an unknown manager is the unimplemented-operation error naming the operation and the manager |
| Unknown.InvokeFails | src/pm/unknown.rs:37-46 | that error displays "Operation \`op\` is unimplemented for \`unknown package manager: NAME\`" and makes the process exit with 1 |
| Error.Display | src/error.rs:21-75 | the message of each error kind; what a reader recovers from it is stated by `Error.StatusMessageRoundTrip` and `Error.UnimplementedMessageRoundTrip` |
| Error.FromError | src/error.rs:83-87 | `MainError::from` wraps the error unchanged |
| Error.AsU8 | src/error.rs:101 | `code as u8` is in 0..255 |
| Error.Report | src/error.rs:97-106 | a status-code error exits with its code as `u8`; every other error exits with 1 |
| Error.AsU8IsLowByte | src/error.rs:99-101 | `as u8` keeps the low eight bits of the 32-bit two's-complement code |
| Error.ReportZeroIff | src/error.rs:97-106 | the exit code is 0 iff the error is a status-code error whose code is a multiple of 256 |
| Error.ReportExamples | src/error.rs:97-106 | code 7 exits 7, 256 exits 0, -1 exits 255, an interruption exits 1 |
| Error.ReportIgnoresPayload | src/error.rs:100-103 | the exit code depends only on the error kind and the status code, not on messages or captured output |
| Error.StatusMessageRoundTrip | src/error.rs:50-53 | the message "Subprocess exited with code N" states exactly the code N, negative codes included |
| Error.UnimplementedMessageRoundTrip | src/error.rs:67-70 | the operation (if it has no backtick) and the manager name can be read back from the unimplemented-operation message |
| CompatTable.MethodsDistinct | crates/pacaptr-macros/src/compat_table.rs:15-18 | `METHODS` has 30 names, in strictly ascending order, so no name appears twice |
| CompatTable.MethodsAreWords | crates/pacaptr-macros/src/compat_table.rs:15-18 | every method name is non-empty and does not start with whitespace |
| CompatTable.Methods | crates/pacaptr-macros/src/compat_table.rs:15-18 | the 30 method names in table order |
| CompatTable.MatchesAt | crates/pacaptr-macros/src/compat_table.rs:31 | the pattern tried at one position, skipping whitespace greedily; equal to the pattern by `CompatTable.MatchesAtIffSpan` |
| CompatTable.MatchesFrom | crates/pacaptr-macros/src/compat_table.rs:31 | some position at or after `i` matches; equal to the pattern by `CompatTable.MatchesFromIffSpan` |
| CompatTable.FnDefined | crates/pacaptr-macros/src/compat_table.rs:31 | `is_match` on the file contents; equal to the pattern by `CompatTable.FnDefinedIffPattern` |
| CompatTable.MatchesAtIffSpan | crates/pacaptr-macros/src/compat_table.rs:31 | the greedy matcher at one position accepts iff the pattern `fn\s+NAME\s*\(` matches starting there |
| CompatTable.MatchesFromIffSpan | crates/pacaptr-macros/src/compat_table.rs:31 | scanning from position `i` finds a match iff the pattern matches at some position at or after `i` |
| CompatTable.FnDefinedIffPattern | crates/pacaptr-macros/src/compat_table.rs:31 | `is_match` on the contents holds iff the pattern matches somewhere |
| CompatTable.MatchExamples | crates/pacaptr-macros/src/compat_table.rs:29-31 | `fn qs(` defines `qs` but not `q`; `async fn  q (` defines `q`; `fnq(` does not |
| CompatTable.CheckMethods | crates/pacaptr-macros/src/compat_table.rs:22-35 | the result has exactly the 30 methods as keys; each maps to whether the file contains a matching definition |
| CompatTable.Headers | crates/pacaptr-macros/src/compat_table.rs:46-55 | the header row is "Module" followed by the 30 methods in order |
| CompatTable.MakeRow | crates/pacaptr-macros/src/compat_table.rs:71-85 | a row has 31 fields: the file name, then "*" for each defined method and "" for each other, in method order |
| CompatTable.Insert | crates/pacaptr-macros/src/compat_table.rs:65-69 | inserting into the sorted map keeps it sorted by name and adds or replaces exactly that entry |
| CompatTable.CollectImpls | crates/pacaptr-macros/src/compat_table.rs:64-69 | the collected map is sorted by name and equals the reference map of every non-excluded entry, a later entry replacing an earlier one |
| CompatTable.CollectedNames | crates/pacaptr-macros/src/compat_table.rs:64-67 | a name is in the map iff it is not `mod.rs` or `unknown.rs` and some listed file has it |
| CompatTable.CollectedFromLastEntry | crates/pacaptr-macros/src/compat_table.rs:65-69 | a file's results are those computed from the last entry with its name |
| CompatTable.CollectedResultsComplete | crates/pacaptr-macros/src/compat_table.rs:22-35 | every collected result has a value for each of the 30 methods |
| CompatTable.ImplsComplete | crates/pacaptr-macros/src/compat_table.rs:79-85 | every collected file has a result for each method, so the `expect` in the row builder never fires |
| CompatTable.Rows | crates/pacaptr-macros/src/compat_table.rs:76-90 | one body row per collected file, in map order, each the row of that file's results |
| CompatTable.MakeTable | crates/pacaptr-macros/src/compat_table.rs:58-94 | the table is the header row followed by rows of 31 fields |
| CompatTable.MakeTableAscending | crates/pacaptr-macros/src/compat_table.rs:76-90 | the body rows appear in strictly ascending file-name order |
| CompatTable.MakeTableShows | crates/pacaptr-macros/src/compat_table.rs:76-90 | each body row names a collected file and marks exactly the methods that file defines |
| CompatTable.MakeTableCovers | crates/pacaptr-macros/src/compat_table.rs:76-90 | every collected file has a row |
| CompatTable.TableRowsAreFiles | crates/pacaptr-macros/src/compat_table.rs:64-90 | the rows are exactly the listed files other than `mod.rs` and `unknown.rs` |
| CompatTable.Fenced | crates/pacaptr-macros/src/compat_table.rs:93 | the document is the laid-out table between two lines of three backticks |
| BumpChoco.StripV | xtask/src/dispatch/bump_choco.rs:26 | one leading `v` is removed if present; otherwise the tag is unchanged |
| BumpChoco.TakeAt | xtask/src/dispatch/bump_choco.rs:27 | the match of `-?take\.\d+` at one position; stated by `BumpChoco.TakeAtSpec` |
| BumpChoco.TakeAtSpec | xtask/src/dispatch/bump_choco.rs:27 | the match tried at one position exists iff `-?take\.\d+` can match there. The match taken is the longest one, preferring the `-` |
| BumpChoco.FindTake | xtask/src/dispatch/bump_choco.rs:27 | the search returns the leftmost position with a match; no earlier position matches |
| BumpChoco.RemoveTake | xtask/src/dispatch/bump_choco.rs:27 | `replace` deletes exactly the leftmost match and keeps everything else; without a match the text is unchanged |
| BumpChoco.NormaliseVersion | xtask/src/dispatch/bump_choco.rs:25-28 | the version derived from the tag; stated by `BumpChoco.NormaliseSpec` and `BumpChoco.NormaliseTakeAfter` |
| BumpChoco.NormaliseSpec | xtask/src/dispatch/bump_choco.rs:24-28 | the version is the tag without its `v`, minus the leftmost, longest match of the pattern; with no match only the `v` goes |
| BumpChoco.RemoveTakeNoMatch | xtask/src/dispatch/bump_choco.rs:27 | text without `-` or `t` has no match and is left unchanged |
| BumpChoco.RemoveTakeAfter | xtask/src/dispatch/bump_choco.rs:27 | after a prefix without `-` or `t`, the first `-take.N` is deleted and everything after it stays, even another `-take.M` |
| BumpChoco.NormaliseTakeAfter | xtask/src/dispatch/bump_choco.rs:24-28 | `v` + prefix + `-take.N` + rest normalises to prefix + rest, so only the first of two suffixes goes |
| BumpChoco.NormaliseTakeSuffix | xtask/src/dispatch/bump_choco.rs:24-28 | the tag `v0.17.0-take.2` gives the version `0.17.0` |
| BumpChoco.NormalisePlainTags | xtask/src/dispatch/bump_choco.rs:26 | `v1.2.3` gives `1.2.3`, and `vv1.0` gives `v1.0` (only one `v` goes) |
| BumpChoco.ReleaseUri | xtask/src/dispatch/bump_choco.rs:30-35 | the URL is the homepage, `/releases/download/`, the raw tag, `/` and the archive name, in that order |
| BumpChoco.NupkgName | xtask/src/dispatch/bump_choco.rs:89 | the pushed file is `pacaptr.` + version + `.nupkg` |
| BumpChoco.TakeTagNames | xtask/src/dispatch/bump_choco.rs:25-89 | for every tag `v` + p + `-take.N` (p without `-` or `t`, N digits) the URL carries the raw tag while the pushed file is `pacaptr.` + p + `.nupkg` |
| BumpChoco.FirstToken | xtask/src/dispatch/bump_choco.rs:99-104 | the first token of the digest output is an error iff the output is all whitespace; otherwise it is the first maximal run of non-whitespace |
| BumpChoco.FirstTokenOf | xtask/src/dispatch/bump_choco.rs:101-103 | leading whitespace, a token, and an end or whitespace after it yield exactly that token |
| BumpChoco.Checksum | xtask/src/dispatch/bump_choco.rs:97-105 | a failing digest command is passed on; otherwise the result is the first whitespace-delimited token of its output (`BumpChoco.FirstToken`), an error iff the output is all whitespace, and a token is non-empty with no whitespace |
| BumpChoco.ChecksumLine | xtask/src/dispatch/bump_choco.rs:65 | the line `algo: sum` and a newline |
| BumpChoco.Checksums | xtask/src/dispatch/bump_choco.rs:62-66 | the checksum block for `sha1` then `sha256`; stated by `BumpChoco.ChecksumsSpec` |
| BumpChoco.ChecksumLines | xtask/src/dispatch/bump_choco.rs:62-66 | the block is `Ok` iff every algorithm's checksum is; otherwise the error is that of the first failing algorithm |
| BumpChoco.ChecksumsSpec | xtask/src/dispatch/bump_choco.rs:62-66 | with both digests the block is the `sha1` line then the `sha256` line; otherwise it is the first failure |

## Left out

- Running commands: the execution layer is not modelled. That covers the
  rendering of `Cmd`, dry-run, prompts, privilege elevation, output
  streaming and the regex filtering inside `search_regex`. A request
  records only which entry point was called and with what. Each call's
  outcome is the oracle `succeeds`.
- `Cmd::kws` and `Cmd::flags` are modelled as appending to the fresh
  command each call site builds. The command builder itself is not part
  of this model.
- `Strategy` models only its prompt field. The other settings keep their
  defaults in `STRAT_PROMPT`, and the model does not represent them.
- `Config` models `default_pm`, `dry_run`, `no_confirm` and `needed`.
  Its other fields play no part in the core; `config.rs` is not part of
  this model.
- Asynchrony: `async` and `await` and the stream in `ss` are modelled as
  sequential calls. The code runs the searches one after another with
  `try_for_each` and stops at the first error; the model does the same.
- `cfg!(target_os)` and `is_exe` are parameters: an `Os` value and a
  predicate on candidates. The test-only `mockpm` arm of the dispatcher
  is not modelled.
- The manager variants other than Unknown carry only their configuration;
  their operations are outside this model. Pip carries its command name.
- Unknown: its operations come from the default methods of the `Pm`
  trait; `src/pm/mod.rs`, where they are defined, is not part of this
  model. The model takes those defaults to return the
  unimplemented-operation error naming the operation and `name()`.
- Error: runtime payloads (`io::Error`, `JoinError`, `FromUtf8Error`) are
  kept as the text they display. The `Debug` output of `MainError` (a
  carriage return and the styled prompt) is not modelled.
- Error.StatusCode is taken to be a signed 32-bit integer. The type's
  definition is not part of this model.
- CompatTable:
  - Reading the directory and files, UTF-8 decoding and their errors are
    left out. The input is the list of (file name, contents) pairs.
  - The `tabled` text layout and the `TokenStream` wrapping are left out.
  - A file name that is not valid UTF-8 cannot occur, since names are
    strings.
  - The `BTreeMap` is a list sorted by character order, which is the same
    order as UTF-8 bytes.
- CompatTable.MatchesAt: `\s` is Unicode `White_Space`, as in Rust's
  `regex`. The method names contain no regex metacharacters, so they match
  literally.
- CompatTable.MakeRow: the row builder requires a result for every
  method. The source would panic in `expect` otherwise;
  `CompatTable.ImplsComplete` proves that case cannot arise.
- BumpChoco: the side effects of the release run are left out:
  - the Windows-only check and the environment lookups;
  - the download, extraction and file copies;
  - the nuspec and verification-file templating with XML escaping;
  - the `choco` invocations.

  The homepage and archive names are parameters. The output of `openssl
  dgst` (or its failure) is the function `digest`. The binary path it is
  called with is not modelled.
- BumpChoco.TakeAt: `\d` is taken as the ASCII digits `0`–`9`. Rust's
  `regex` also accepts other Unicode decimal digits there. Release tags
  are ASCII.
