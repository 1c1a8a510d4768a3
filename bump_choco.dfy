/**
 * The pure steps of publishing a release to Chocolatey: deriving the
 * package version from the release tag, the download URL, the pushed
 * package's file name, and the checksum block of the verification file.
 * The shell commands, downloads and file writes around them are not part of
 * this model; the output of `openssl dgst` is an input.
 */
module BumpChoco {
  import opened Wrappers
  import opened Text

  // ---------------------------------------------------------------------
  // Version: strip one leading `v`, then delete the leftmost match of
  // `-?take\.\d+`.
  // ---------------------------------------------------------------------

  /** `tag.strip_prefix('v').unwrap_or(&tag)`. */
  function StripV(tag: string): (s: string)
    ensures |tag| > 0 && tag[0] == 'v' ==> s == tag[1..]
    ensures !(|tag| > 0 && tag[0] == 'v') ==> s == tag
  {
    if |tag| > 0 && tag[0] == 'v' then tag[1..] else tag
  }

  /** The end of the run of digits that starts at `i`. */
  function SkipDigits(s: string, i: nat): (j: nat)
    requires i <= |s|
    ensures i <= j <= |s|
    ensures AllDigits(s[i..j])
    ensures j < |s| ==> !IsDigit(s[j])
    decreases |s| - i
  {
    if i == |s| || !IsDigit(s[i]) then i
    else
      var j := SkipDigits(s, i + 1);
      assert s[i..j] == [s[i]] + s[i + 1..j];
      j
  }

  predicate HasAt(s: string, i: nat, lit: string) {
    i + |lit| <= |s| && s[i..i + |lit|] == lit
  }

  /** What `-?take\.\d+` can match from `i` to `j`: an optional `-`, `take.`, one or more digits. */
  ghost predicate TakeSpan(s: string, i: int, j: int) {
    && 0 <= i <= j <= |s|
    && ((HasAt(s, i, "-take.") && i + 6 < j && AllDigits(s[i + 6..j]))
        || (HasAt(s, i, "take.") && i + 5 < j && AllDigits(s[i + 5..j])))
  }

  /**
   * The match the regex takes at `i`: `-?` prefers the `-`, `\d+` takes
   * every following digit.
   */
  function TakeAt(s: string, i: nat): (end: Option<nat>)
    requires i <= |s|
  {
    if HasAt(s, i, "-take.") && SkipDigits(s, i + 6) > i + 6 then Some(SkipDigits(s, i + 6))
    else if HasAt(s, i, "take.") && SkipDigits(s, i + 5) > i + 5 then Some(SkipDigits(s, i + 5))
    else None
  }

  lemma {:induction false} DigitsExtend(s: string, a: nat, j: nat)
    requires a <= j <= |s| && AllDigits(s[a..j])
    ensures j <= SkipDigits(s, a)
    decreases j - a
  {
    if a < j {
      assert s[a] == s[a..j][0];
      assert s[a + 1..j] == s[a..j][1..];
      DigitsExtend(s, a + 1, j);
    }
  }

  /**
   * `TakeAt` is the regex at one position: it finds a match exactly when
   * some span matches there, and then the longest one.
   */
  lemma TakeAtSpec(s: string, i: nat)
    requires i <= |s|
    ensures TakeAt(s, i).None? <==> forall j :: !TakeSpan(s, i, j)
    ensures TakeAt(s, i).Some? ==>
      var j := TakeAt(s, i).value;
      TakeSpan(s, i, j) && (j == |s| || !IsDigit(s[j])) && forall j' :: TakeSpan(s, i, j') ==> j' <= j
  {
    forall j | TakeSpan(s, i, j) ensures TakeAt(s, i).Some? && j <= TakeAt(s, i).value {
      if HasAt(s, i, "-take.") && i + 6 < j && AllDigits(s[i + 6..j]) {
        DigitsExtend(s, i + 6, j);
      } else {
        assert s[i] == 't';
        DigitsExtend(s, i + 5, j);
      }
    }
    if TakeAt(s, i).Some? {
      assert TakeSpan(s, i, TakeAt(s, i).value);
    }
  }

  /** The leftmost match at or after `from`, as (start, end). */
  function FindTake(s: string, from: nat): (m: Option<(nat, nat)>)
    requires from <= |s|
    ensures m.None? ==> forall i :: from <= i <= |s| ==> TakeAt(s, i).None?
    ensures m.Some? ==> from <= m.value.0 <= |s| && TakeAt(s, m.value.0) == Some(m.value.1)
    ensures m.Some? ==> forall i :: from <= i < m.value.0 ==> TakeAt(s, i).None?
    decreases |s| - from
  {
    match TakeAt(s, from)
    case Some(j) => Some((from, j))
    case None => if from == |s| then None else FindTake(s, from + 1)
  }

  /** `Regex::new(r"-?take\.\d+")?.replace(ver, "")`: delete the leftmost match only. */
  function RemoveTake(s: string): (r: string)
    ensures FindTake(s, 0).None? ==> r == s
    ensures FindTake(s, 0).Some? ==>
      var (i, j) := FindTake(s, 0).value;
      i < j <= |s| && r == s[..i] + s[j..]
  {
    match FindTake(s, 0)
    case None => s
    case Some((i, j)) => s[..i] + s[j..]
  }

  /** The package version derived from a release tag. */
  function NormaliseVersion(tag: string): string {
    RemoveTake(StripV(tag))
  }

  /**
   * Normalisation deletes, from the tag without its leading `v`, exactly the
   * leftmost and longest match of `-?take\.\d+` and keeps everything after
   * it, later matches included; without a match only the `v` goes.
   */
  lemma NormaliseSpec(tag: string)
    ensures (forall i, j :: 0 <= i <= j ==> !TakeSpan(StripV(tag), i, j)) ==> NormaliseVersion(tag) == StripV(tag)
    ensures (exists i, j :: 0 <= i <= j && TakeSpan(StripV(tag), i, j)) ==>
      exists i, j ::
        && TakeSpan(StripV(tag), i, j)
        && (forall i', j' :: 0 <= i' < i ==> !TakeSpan(StripV(tag), i', j'))
        && (forall j' :: TakeSpan(StripV(tag), i, j') ==> j' <= j)
        && NormaliseVersion(tag) == StripV(tag)[..i] + StripV(tag)[j..]
  {
    var s := StripV(tag);
    match FindTake(s, 0)
    case None =>
      forall i, j | 0 <= i <= j && TakeSpan(s, i, j) ensures false {
        TakeAtSpec(s, i);
      }
    case Some((i, j)) =>
      TakeAtSpec(s, i);
      forall i', j' | 0 <= i' < i ensures !TakeSpan(s, i', j') {
        TakeAtSpec(s, i');
      }
  }

  /** Positions without a match are passed over. */
  lemma {:induction false} FindTakeSkips(s: string, from: nat, i: nat)
    requires from <= i <= |s|
    requires forall k :: from <= k < i ==> TakeAt(s, k).None?
    ensures FindTake(s, from) == FindTake(s, i)
    decreases i - from
  {
    if from < i {
      FindTakeSkips(s, from + 1, i);
    }
  }

  /** No match starts at the end or at a character other than `-` and `t`. */
  lemma NoTakeAt(s: string, k: nat)
    requires k == |s| || (k < |s| && s[k] != '-' && s[k] != 't')
    ensures TakeAt(s, k).None?
  {
  }

  /** The run of digits from `i` ends exactly at `j` when `s[i..j]` is digits and `s[j]` is not. */
  lemma DigitsEndAt(s: string, i: nat, j: nat)
    requires i <= j <= |s| && AllDigits(s[i..j]) && (j == |s| || !IsDigit(s[j]))
    ensures SkipDigits(s, i) == j
  {
    DigitsExtend(s, i, j);
  }

  /** A tag without `-` or `t` has no match and is left as it is. */
  lemma RemoveTakeNoMatch(s: string)
    requires forall k :: 0 <= k < |s| ==> s[k] != '-' && s[k] != 't'
    ensures RemoveTake(s) == s
  {
    forall k | 0 <= k <= |s| ensures TakeAt(s, k).None? { NoTakeAt(s, k); }
    FindTakeSkips(s, 0, |s|);
  }

  /**
   * After a prefix without `-` or `t`, a `-take.` followed by digits and
   * then something other than a digit is the match that is deleted; what
   * follows it stays, even another `-take.N`.
   */
  lemma RemoveTakeAfter(p: string, n: string, rest: string)
    requires forall k :: 0 <= k < |p| ==> p[k] != '-' && p[k] != 't'
    requires |n| > 0 && AllDigits(n)
    requires rest == [] || !IsDigit(rest[0])
    ensures RemoveTake(p + "-take." + n + rest) == p + rest
  {
    var s := p + "-take." + n + rest;
    var i, j := |p|, |p| + 6 + |n|;
    forall k | 0 <= k < i ensures TakeAt(s, k).None? {
      assert s[k] == p[k];
      NoTakeAt(s, k);
    }
    FindTakeSkips(s, 0, i);
    assert s[i..i + 6] == "-take.";
    assert s[i + 6..j] == n;
    if j < |s| {
      assert s[j] == rest[0];
    }
    DigitsEndAt(s, i + 6, j);
    assert TakeAt(s, i) == Some(j);
    assert s[..i] == p && s[j..] == rest;
  }

  /** How the tag of the example below is put together. */
  lemma TakeTagPieces()
    ensures "v0.17.0-take.2" == "v" + "0.17.0" + "-take." + "2" + ""
    ensures "0.17.0" + "" == "0.17.0"
    ensures forall k :: 0 <= k < |"0.17.0"| ==> "0.17.0"[k] != '-' && "0.17.0"[k] != 't'
  {
  }

  /** A `-take.N` suffix goes with the leading `v`. */
  lemma NormaliseTakeSuffix()
    ensures NormaliseVersion("v0.17.0-take.2") == "0.17.0"
  {
    TakeTagPieces();
    NormaliseTakeAfter("0.17.0", "2", "");
  }

  /** A plain tag only loses its `v`, and only one `v` goes. */
  lemma NormalisePlainTags()
    ensures NormaliseVersion("v1.2.3") == "1.2.3"
    ensures NormaliseVersion("vv1.0") == "v1.0"
  {
    RemoveTakeNoMatch("1.2.3");
    assert "v1.2.3" == "v" + "1.2.3";
    RemoveTakeNoMatch("v1.0");
    assert "vv1.0" == "v" + "v1.0";
  }

  /**
   * At the tag level: after the `v` and a prefix without `-` or `t`, the
   * first `-take.N` goes and everything after it stays, a second
   * `-take.M` included.
   */
  lemma NormaliseTakeAfter(p: string, n: string, rest: string)
    requires forall k :: 0 <= k < |p| ==> p[k] != '-' && p[k] != 't'
    requires |n| > 0 && AllDigits(n)
    requires rest == [] || !IsDigit(rest[0])
    ensures NormaliseVersion("v" + p + "-take." + n + rest) == p + rest
  {
    RemoveTakeAfter(p, n, rest);
    assert ("v" + p + "-take." + n + rest)[1..] == p + "-take." + n + rest;
  }

  // ---------------------------------------------------------------------
  // Names and URLs.
  // ---------------------------------------------------------------------

  /** The download URL of the release archive; it uses the raw tag. */
  function ReleaseUri(homepage: string, tag: string, archive: string): (uri: string)
    ensures |uri| == |homepage| + 19 + |tag| + 1 + |archive|
    ensures uri[..|homepage|] == homepage
    ensures uri[|homepage|..|homepage| + 19] == "/releases/download/"
    ensures uri[|homepage| + 19..|homepage| + 19 + |tag|] == tag
    ensures uri[|homepage| + 19 + |tag|..] == "/" + archive
  {
    homepage + "/releases/download/" + tag + "/" + archive
  }

  /** The file `choco pack` produces and `choco push` uploads, named after the normalised version. */
  function NupkgName(ver: string): (file: string)
    ensures file == "pacaptr." + ver + ".nupkg"
  {
    "pacaptr." + ver + ".nupkg"
  }

  /**
   * For a tag `v` + p + `-take.N` the release URL carries the tag as it
   * is, while the pushed package is named after the version p.
   */
  lemma TakeTagNames(homepage: string, archive: string, p: string, n: string)
    requires forall k :: 0 <= k < |p| ==> p[k] != '-' && p[k] != 't'
    requires |n| > 0 && AllDigits(n)
    ensures var tag := "v" + p + "-take." + n;
      ReleaseUri(homepage, tag, archive)[|homepage| + 19..|homepage| + 19 + |tag|] == tag
    ensures NupkgName(NormaliseVersion("v" + p + "-take." + n)) == "pacaptr." + p + ".nupkg"
  {
    NormaliseTakeAfter(p, n, "");
    assert "v" + p + "-take." + n + "" == "v" + p + "-take." + n;
    assert p + "" == p;
  }

  // ---------------------------------------------------------------------
  // Checksums.
  // ---------------------------------------------------------------------

  const NoChecksumError: string := "Failed to fetch checksum from `openssl dgst`"

  /** The end of the run of non-whitespace characters that starts at `i`. */
  function SkipToken(s: string, i: nat): (j: nat)
    requires i <= |s|
    ensures i <= j <= |s|
    ensures NoWhitespace(s[i..j])
    ensures j < |s| ==> IsWhitespace(s[j])
    decreases |s| - i
  {
    if i == |s| || IsWhitespace(s[i]) then i
    else
      var j := SkipToken(s, i + 1);
      assert s[i..j] == [s[i]] + s[i + 1..j];
      j
  }

  /**
   * `split_whitespace().next()`: the first whitespace-delimited token of
   * the digest output, or the checksum error when there is none.
   */
  function FirstToken(out: string): (r: Result<string, string>)
    ensures r.Err? <==> AllWhitespace(out)
    ensures r.Err? ==> r.error == NoChecksumError
    ensures r.Ok? ==> |r.value| > 0 && NoWhitespace(r.value)
    ensures r.Ok? ==> exists i :: (0 <= i <= |out| - |r.value|
      && AllWhitespace(out[..i]) && out[i..i + |r.value|] == r.value
      && (i + |r.value| == |out| || IsWhitespace(out[i + |r.value|])))
  {
    var i := SkipWs(out, 0);
    if i == |out| then Err(NoChecksumError)
    else
      var j := SkipToken(out, i);
      assert !IsWhitespace(out[i]);
      Ok(out[i..j])
  }

  /**
   * The inverse view: output made of leading whitespace, a token, and
   * nothing or whitespace after it yields that token.
   */
  lemma FirstTokenOf(lead: string, token: string, rest: string)
    requires AllWhitespace(lead) && |token| > 0 && NoWhitespace(token)
    requires rest == [] || IsWhitespace(rest[0])
    ensures FirstToken(lead + token + rest) == Ok(token)
  {
    var out := lead + token + rest;
    assert out[..|lead|] == lead;
    SkipWsStops(out, 0, |lead|);
    assert out[|lead|..|lead| + |token|] == token;
    SkipTokenStops(out, |lead|, |lead| + |token|);
  }

  lemma {:induction false} SkipTokenStops(s: string, i: nat, j: nat)
    requires i <= j <= |s|
    requires NoWhitespace(s[i..j])
    requires j < |s| ==> IsWhitespace(s[j])
    ensures SkipToken(s, i) == j
    decreases j - i
  {
    if i < j {
      assert !IsWhitespace(s[i..j][0]);
      assert s[i + 1..j] == s[i..j][1..];
      SkipTokenStops(s, i + 1, j);
    }
  }

  /** `checksum(path, algo)`: the digest command's outcome, then its first token. */
  function Checksum(algo: string, digest: string -> Result<string, string>): (r: Result<string, string>)
    ensures digest(algo).Err? ==> r == digest(algo)
    ensures digest(algo).Ok? ==> r == FirstToken(digest(algo).value)
    ensures digest(algo).Ok? ==> (r.Err? <==> AllWhitespace(digest(algo).value))
    ensures r.Ok? ==> |r.value| > 0 && NoWhitespace(r.value)
  {
    match digest(algo)
    case Err(e) => Err(e)
    case Ok(out) => FirstToken(out)
  }

  /** One `algo: sum` line per algorithm; the first failing checksum fails the whole block. */
  function ChecksumLines(algos: seq<string>, digest: string -> Result<string, string>): (r: Result<string, string>)
    ensures r.Ok? <==> forall i :: 0 <= i < |algos| ==> Checksum(algos[i], digest).Ok?
    ensures r.Err? ==> exists k :: (0 <= k < |algos| && Checksum(algos[k], digest) == Err(r.error)
      && forall i :: 0 <= i < k ==> Checksum(algos[i], digest).Ok?)
  {
    if algos == [] then Ok("")
    else
      match Checksum(algos[0], digest)
      case Err(e) => Err(e)
      case Ok(s) =>
        assert forall i :: 1 <= i < |algos| ==> algos[i] == algos[1..][i - 1];
        match ChecksumLines(algos[1..], digest)
        case Err(e) => Err(e)
        case Ok(rest) => Ok(ChecksumLine(algos[0], s) + rest)
  }

  /** `format!("{algo}: {sum}\n")`. */
  function ChecksumLine(algo: string, sum: string): string {
    algo + ": " + sum + "\n"
  }

  /** The checksum block of the verification file: sha1 first, then sha256. */
  function Checksums(digest: string -> Result<string, string>): Result<string, string> {
    ChecksumLines(["sha1", "sha256"], digest)
  }

  /** When both digests yield a token the block is exactly the two lines, in order. */
  lemma ChecksumsSpec(digest: string -> Result<string, string>)
    ensures Checksum("sha1", digest).Ok? && Checksum("sha256", digest).Ok? ==>
      Checksums(digest) == Ok(ChecksumLine("sha1", Checksum("sha1", digest).value)
                              + ChecksumLine("sha256", Checksum("sha256", digest).value))
    ensures Checksum("sha1", digest).Err? ==> Checksums(digest) == Checksum("sha1", digest)
    ensures Checksum("sha1", digest).Ok? && Checksum("sha256", digest).Err? ==>
      Checksums(digest) == Checksum("sha256", digest)
  {
    var algos := ["sha1", "sha256"];
    assert algos[1..] == ["sha256"] && algos[1..][1..] == [];
    if Checksum("sha1", digest).Ok? && Checksum("sha256", digest).Ok? {
      var line := ChecksumLine("sha256", Checksum("sha256", digest).value);
      assert ChecksumLines(["sha256"], digest) == Ok(line + "");
      assert line + "" == line;
    }
  }
}
