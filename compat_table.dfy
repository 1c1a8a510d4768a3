/**
 * The implementation-status table of the documentation: for every
 * package-manager source file, which of the pacman-style methods it
 * defines. Reading the directory and the files, and the final text layout
 * of the table, are not part of this model; the input is the list of
 * (file name, file contents) pairs in directory order.
 */
module CompatTable {
  import opened Text

  /** `METHODS`: the pacman-style operations, in table order. */
  const Methods: seq<string> :=
    ["q", "qc", "qe", "qi", "qk", "ql", "qm", "qo", "qp", "qs", "qu", "r", "rn", "rns", "rs", "rss",
     "s", "sc", "scc", "sccc", "sg", "si", "sii", "sl", "ss", "su", "suy", "sw", "sy", "u"]

  // The ascending order of `METHODS` is one fact, proved in five pieces of
  // six neighbouring pairs each so that every proof stays small.

  /** Names 0 to 6 of `METHODS` are in ascending order. */
  lemma MethodsAscending0(i: nat)
    requires 0 <= i < 6
    ensures Less(Methods[i], Methods[i + 1])
  {
    if i == 0 {
      assert Less("q", "qc");
    } else if i == 1 {
      assert Less("qc", "qe");
    } else if i == 2 {
      assert Less("qe", "qi");
    } else if i == 3 {
      assert Less("qi", "qk");
    } else if i == 4 {
      assert Less("qk", "ql");
    } else {
      assert Less("ql", "qm");
    }
  }

  /** Names 6 to 12 of `METHODS` are in ascending order. */
  lemma MethodsAscending1(i: nat)
    requires 6 <= i < 12
    ensures Less(Methods[i], Methods[i + 1])
  {
    if i == 6 {
      assert Less("qm", "qo");
    } else if i == 7 {
      assert Less("qo", "qp");
    } else if i == 8 {
      assert Less("qp", "qs");
    } else if i == 9 {
      assert Less("qs", "qu");
    } else if i == 10 {
      assert Less("qu", "r");
    } else {
      assert Less("r", "rn");
    }
  }

  /** Names 12 to 18 of `METHODS` are in ascending order. */
  lemma MethodsAscending2(i: nat)
    requires 12 <= i < 18
    ensures Less(Methods[i], Methods[i + 1])
  {
    if i == 12 {
      assert Less("rn", "rns");
    } else if i == 13 {
      assert Less("rns", "rs");
    } else if i == 14 {
      assert Less("rs", "rss");
    } else if i == 15 {
      assert Less("rss", "s");
    } else if i == 16 {
      assert Less("s", "sc");
    } else {
      assert Less("sc", "scc");
    }
  }

  /** Names 18 to 24 of `METHODS` are in ascending order. */
  lemma MethodsAscending3(i: nat)
    requires 18 <= i < 24
    ensures Less(Methods[i], Methods[i + 1])
  {
    if i == 18 {
      assert Less("scc", "sccc");
    } else if i == 19 {
      assert Less("sccc", "sg");
    } else if i == 20 {
      assert Less("sg", "si");
    } else if i == 21 {
      assert Less("si", "sii");
    } else if i == 22 {
      assert Less("sii", "sl");
    } else {
      assert Less("sl", "ss");
    }
  }

  /** Names 24 to 29 of `METHODS` are in ascending order. */
  lemma MethodsAscending4(i: nat)
    requires 24 <= i < 29
    ensures Less(Methods[i], Methods[i + 1])
  {
    if i == 24 {
      assert Less("ss", "su");
    } else if i == 25 {
      assert Less("su", "suy");
    } else if i == 26 {
      assert Less("suy", "sw");
    } else if i == 27 {
      assert Less("sw", "sy");
    } else {
      assert Less("sy", "u");
    }
  }

  /** `METHODS` has 30 names, in ascending order, so no name appears twice. */
  lemma MethodsDistinct()
    ensures |Methods| == 30
    ensures StrictlyAscending(Methods)
    ensures forall i, j :: 0 <= i < j < |Methods| ==> Methods[i] != Methods[j]
  {
    forall i | 0 <= i < |Methods| - 1 ensures Less(Methods[i], Methods[i + 1]) {
      if i < 6 { MethodsAscending0(i); }
      else if i < 12 { MethodsAscending1(i); }
      else if i < 18 { MethodsAscending2(i); }
      else if i < 24 { MethodsAscending3(i); }
      else { MethodsAscending4(i); }
    }
    AscendingDistinct(Methods);
  }

  /** Every method name is a non-empty word that does not start with whitespace. */
  lemma MethodsAreWords()
    ensures forall m :: m in Methods ==> |m| > 0 && !IsWhitespace(m[0])
  {
  }

  // ---------------------------------------------------------------------
  // The pattern `fn\s+NAME\s*\(`.
  // ---------------------------------------------------------------------

  /** What the pattern means: "fn" at `i`, whitespace up to `j`, the name, whitespace up to `k`, "(" at `k`. */
  ghost predicate PatternSpan(text: string, name: string, i: int, j: int, k: int) {
    && 0 <= i && i + 2 < j && j + |name| <= k < |text|
    && text[i..i + 2] == "fn"
    && AllWhitespace(text[i + 2..j])
    && text[j..j + |name|] == name
    && AllWhitespace(text[j + |name|..k])
    && text[k] == '('
  }

  /** The pattern matches somewhere in the text. */
  ghost predicate PatternMatches(text: string, name: string) {
    exists i, j, k :: PatternSpan(text, name, i, j, k)
  }

  /** The pattern, tried at position `i` by skipping whitespace greedily. */
  predicate MatchesAt(text: string, name: string, i: nat) {
    && i + 2 <= |text|
    && text[i..i + 2] == "fn"
    && var j := SkipWs(text, i + 2);
    && j > i + 2
    && j + |name| <= |text|
    && text[j..j + |name|] == name
    && var k := SkipWs(text, j + |name|);
    && k < |text|
    && text[k] == '('
  }

  /** Some position at or after `i` matches. */
  predicate MatchesFrom(text: string, name: string, i: nat)
    decreases |text| - i
  {
    if i + 2 > |text| then false
    else MatchesAt(text, name, i) || MatchesFrom(text, name, i + 1)
  }

  /** `Regex::new("fn\s+NAME\s*\(").is_match(contents)`. */
  predicate FnDefined(text: string, name: string) {
    MatchesFrom(text, name, 0)
  }

  lemma MatchesAtIffSpan(text: string, name: string, i: nat)
    requires |name| > 0 && !IsWhitespace(name[0])
    ensures MatchesAt(text, name, i) <==> exists j, k :: PatternSpan(text, name, i, j, k)
  {
    if MatchesAt(text, name, i) {
      var j := SkipWs(text, i + 2);
      var k := SkipWs(text, j + |name|);
      assert PatternSpan(text, name, i, j, k);
    }
    if exists j, k :: PatternSpan(text, name, i, j, k) {
      var j, k :| PatternSpan(text, name, i, j, k);
      assert text[j] == text[j..j + |name|][0] == name[0];
      SkipWsStops(text, i + 2, j);
      SkipWsStops(text, j + |name|, k);
    }
  }

  lemma {:induction false} MatchesFromIffSpan(text: string, name: string, i: nat)
    requires |name| > 0 && !IsWhitespace(name[0])
    ensures MatchesFrom(text, name, i) <==> exists p, j, k :: p >= i && PatternSpan(text, name, p, j, k)
    decreases |text| - i
  {
    MatchesAtIffSpan(text, name, i);
    if i + 2 <= |text| {
      MatchesFromIffSpan(text, name, i + 1);
      if exists p, j, k :: p >= i && PatternSpan(text, name, p, j, k) {
        var p, j, k :| p >= i && PatternSpan(text, name, p, j, k);
        if p == i {
          assert MatchesAt(text, name, i);
        } else {
          assert MatchesFrom(text, name, i + 1);
        }
      }
    }
  }

  /** The hand-written matcher finds exactly the matches of the pattern. */
  lemma FnDefinedIffPattern(text: string, name: string)
    requires |name| > 0 && !IsWhitespace(name[0])
    ensures FnDefined(text, name) <==> PatternMatches(text, name)
  {
    MatchesFromIffSpan(text, name, 0);
  }

  /** A definition of `qs` does not mark `q` as found, and spacing around the name is allowed. */
  lemma MatchExamples()
    ensures FnDefined("fn qs(", "qs") && !FnDefined("fn qs(", "q")
    ensures FnDefined("async fn  q (", "q")
    ensures !FnDefined("fnq(", "q")
  {
    assert MatchesAt("fn qs(", "qs", 0);
    assert !MatchesAt("fn qs(", "q", 0) by {
      assert SkipWs("fn qs(", 2) == 3;
      assert SkipWs("fn qs(", 4) == 4;
    }
    assert MatchesAt("async fn  q (", "q", 6);
    assert !MatchesAt("fnq(", "q", 0) by {
      assert SkipWs("fnq(", 2) == 2;
    }
  }

  // ---------------------------------------------------------------------
  // Per-file results and rows.
  // ---------------------------------------------------------------------

  /** `check_methods`: for each method, whether the file defines it. */
  function CheckMethods(contents: string): (items: map<string, bool>)
    ensures items.Keys == set m | m in Methods
    ensures forall m :: m in Methods ==> (items[m] <==> PatternMatches(contents, m))
  {
    MethodsAreWords();
    forall m | m in Methods ensures FnDefined(contents, m) <==> PatternMatches(contents, m) {
      FnDefinedIffPattern(contents, m);
    }
    map m | m in Methods :: FnDefined(contents, m)
  }

  /** `CompatRow::headers`. */
  function Headers(): (h: seq<string>)
    ensures |h| == 31 && h[0] == "Module" && h[1..] == Methods
  {
    ["Module"] + Methods
  }

  /** A row shows `items`: 31 fields, the i-th method marked "*" when found and "" when not. */
  predicate RowShows(row: seq<string>, items: map<string, bool>) {
    && |row| == 31
    && (forall m :: m in Methods ==> m in items)
    && forall i :: 0 <= i < 30 ==> row[i + 1] == (if items[Methods[i]] then "*" else "")
  }

  /** One row: the file name, then "*" or "" for each method in order. */
  function MakeRow(file: string, items: map<string, bool>): (row: seq<string>)
    requires forall m :: m in Methods ==> m in items
    ensures |row| == 31 && row[0] == file && RowShows(row, items)
  {
    [file] + seq(30, i requires 0 <= i < 30 => if items[Methods[i]] then "*" else "")
  }

  // ---------------------------------------------------------------------
  // The BTreeMap from file name to results, as a list sorted by name.
  // ---------------------------------------------------------------------

  type Impls = seq<(string, map<string, bool>)>

  predicate SortedByName(s: Impls) {
    forall i :: 0 <= i < |s| - 1 ==> Less(s[i].0, s[i + 1].0)
  }

  /** The map a sorted list stands for. */
  ghost function AsMap(s: Impls): map<string, map<string, bool>> {
    if s == [] then map[] else AsMap(s[1..])[s[0].0 := s[0].1]
  }

  lemma {:induction false} InAsMap(s: Impls, n: string)
    ensures n in AsMap(s) <==> exists i :: 0 <= i < |s| && s[i].0 == n
  {
    if s != [] {
      InAsMap(s[1..], n);
      if exists i :: 0 <= i < |s| && s[i].0 == n {
        var i :| 0 <= i < |s| && s[i].0 == n;
        if i > 0 {
          assert s[1..][i - 1].0 == n;
        }
      }
      if exists i :: 0 <= i < |s[1..]| && s[1..][i].0 == n {
        var i :| 0 <= i < |s[1..]| && s[1..][i].0 == n;
        assert s[i + 1].0 == n;
      }
    }
  }

  /** `BTreeMap::insert`: add or replace the entry for `name`, keeping the list sorted. */
  function Insert(s: Impls, name: string, items: map<string, bool>): (r: Impls)
    requires SortedByName(s)
    ensures SortedByName(r)
    ensures AsMap(r) == AsMap(s)[name := items]
    ensures |r| > 0 && (r[0].0 == name || (|s| > 0 && r[0].0 == s[0].0))
    decreases |s|
  {
    if s == [] then [(name, items)]
    else if name == s[0].0 then
      assert AsMap([(name, items)] + s[1..]) == AsMap(s[1..])[name := items] by {
        assert ([(name, items)] + s[1..])[1..] == s[1..];
      }
      [(name, items)] + s[1..]
    else if Less(name, s[0].0) then
      assert ([(name, items)] + s)[1..] == s;
      [(name, items)] + s
    else
      LessTotal(name, s[0].0);
      var rest := Insert(s[1..], name, items);
      var r := [s[0]] + rest;
      assert r[1..] == rest;
      r
  }

  predicate Excluded(file: string) {
    file == "mod.rs" || file == "unknown.rs"
  }

  /** The reference: the map `collect` builds, a later entry for a name replacing an earlier one. */
  ghost function CollectedMap(entries: seq<(string, string)>): map<string, map<string, bool>> {
    if entries == [] then map[]
    else
      var m := CollectedMap(entries[..|entries| - 1]);
      var e := entries[|entries| - 1];
      if Excluded(e.0) then m else m[e.0 := CheckMethods(e.1)]
  }

  /** The per-file results of every file that is not excluded, sorted by file name. */
  function CollectImpls(entries: seq<(string, string)>): (r: Impls)
    ensures SortedByName(r)
    ensures AsMap(r) == CollectedMap(entries)
  {
    if entries == [] then []
    else
      var s := CollectImpls(entries[..|entries| - 1]);
      var e := entries[|entries| - 1];
      if Excluded(e.0) then s else Insert(s, e.0, CheckMethods(e.1))
  }

  /** Which files get a row: every file name that is not excluded. */
  lemma {:induction false} CollectedNames(entries: seq<(string, string)>)
    ensures forall n :: n in CollectedMap(entries) <==>
      !Excluded(n) && exists i :: 0 <= i < |entries| && entries[i].0 == n
  {
    if entries != [] {
      var prefix := entries[..|entries| - 1];
      CollectedNames(prefix);
      forall n ensures n in CollectedMap(entries) <==> !Excluded(n) && exists i :: 0 <= i < |entries| && entries[i].0 == n {
        if exists i :: 0 <= i < |prefix| && prefix[i].0 == n {
          var i :| 0 <= i < |prefix| && prefix[i].0 == n;
          assert entries[i].0 == n;
        }
        if exists i :: 0 <= i < |entries| && entries[i].0 == n {
          var i :| 0 <= i < |entries| && entries[i].0 == n;
          if i < |prefix| {
            assert prefix[i].0 == n;
          }
        }
      }
    }
  }

  /** The rows of the table body, one per collected file. */
  function Rows(impls: Impls): (rows: seq<seq<string>>)
    requires forall i :: 0 <= i < |impls| ==> forall m :: m in Methods ==> m in impls[i].1
    ensures |rows| == |impls|
    ensures forall i :: 0 <= i < |rows| ==> rows[i] == MakeRow(impls[i].0, impls[i].1)
  {
    seq(|impls|, i requires 0 <= i < |impls| => MakeRow(impls[i].0, impls[i].1))
  }

  lemma {:induction false} CollectedResultsComplete(entries: seq<(string, string)>)
    ensures forall n :: n in CollectedMap(entries) ==> CollectedMap(entries)[n].Keys == set m | m in Methods
  {
    if entries != [] {
      CollectedResultsComplete(entries[..|entries| - 1]);
    }
  }

  /** Every collected file has a result for each of the methods. */
  lemma ImplsComplete(entries: seq<(string, string)>)
    ensures forall i :: 0 <= i < |CollectImpls(entries)| ==>
      forall m :: m in Methods ==> m in CollectImpls(entries)[i].1
  {
    var impls := CollectImpls(entries);
    CollectedResultsComplete(entries);
    forall i | 0 <= i < |impls| ensures forall m :: m in Methods ==> m in impls[i].1 {
      AsMapAt(impls, i);
    }
  }

  /**
   * `make_table` before layout: the header row, then one row of 31 fields
   * per file that is not excluded, in the order of the sorted map.
   */
  function MakeTable(entries: seq<(string, string)>): (table: seq<seq<string>>)
    ensures |table| >= 1 && table[0] == Headers()
    ensures forall r :: 1 <= r < |table| ==> |table[r]| == 31
  {
    ImplsComplete(entries);
    [Headers()] + Rows(CollectImpls(entries))
  }

  /** The body rows are the rows of the collected files. */
  lemma MakeTableBody(entries: seq<(string, string)>)
    ensures forall i :: 0 <= i < |CollectImpls(entries)| ==>
      forall m :: m in Methods ==> m in CollectImpls(entries)[i].1
    ensures MakeTable(entries)[1..] == Rows(CollectImpls(entries))
  {
    ImplsComplete(entries);
  }

  /** The rows after the header are in strictly ascending name order. */
  lemma MakeTableAscending(entries: seq<(string, string)>)
    ensures forall r :: 1 <= r < |MakeTable(entries)| - 1 ==>
      Less(MakeTable(entries)[r][0], MakeTable(entries)[r + 1][0])
  {
    MakeTableBody(entries);
    var impls := CollectImpls(entries);
    var table := MakeTable(entries);
    RowsAscending(impls);
    forall r | 1 <= r < |table| - 1 ensures Less(table[r][0], table[r + 1][0]) {
      assert table[r] == table[1..][r - 1] && table[r + 1] == table[1..][r];
    }
  }

  /** Each row marks with "*" exactly the methods its file's entry in the map defines. */
  lemma MakeTableShows(entries: seq<(string, string)>)
    ensures forall r :: 1 <= r < |MakeTable(entries)| ==>
      var row := MakeTable(entries)[r];
      row[0] in CollectedMap(entries) && RowShows(row, CollectedMap(entries)[row[0]])
  {
    MakeTableBody(entries);
    var impls := CollectImpls(entries);
    var table := MakeTable(entries);
    RowsShowImpls(impls);
    forall r | 1 <= r < |table|
      ensures table[r][0] in CollectedMap(entries) && RowShows(table[r], CollectedMap(entries)[table[r][0]])
    {
      assert table[r] == table[1..][r - 1];
    }
  }

  /** Every file in the map has a row. */
  lemma MakeTableCovers(entries: seq<(string, string)>)
    ensures forall n :: n in CollectedMap(entries) ==>
      exists r :: 1 <= r < |MakeTable(entries)| && MakeTable(entries)[r][0] == n
  {
    MakeTableBody(entries);
    var impls := CollectImpls(entries);
    var table := MakeTable(entries);
    RowsCoverImpls(impls);
    forall n | n in CollectedMap(entries) ensures exists r :: 1 <= r < |table| && table[r][0] == n {
      var i :| 0 <= i < |impls| && Rows(impls)[i][0] == n;
      assert table[i + 1] == table[1..][i];
    }
  }

  /** The rows follow the sorted list, so their names ascend. */
  lemma RowsAscending(impls: Impls)
    requires SortedByName(impls)
    requires forall i :: 0 <= i < |impls| ==> forall m :: m in Methods ==> m in impls[i].1
    ensures forall r :: 0 <= r < |impls| - 1 ==> Less(Rows(impls)[r][0], Rows(impls)[r + 1][0])
  {
    forall r | 0 <= r < |impls| - 1 ensures Less(Rows(impls)[r][0], Rows(impls)[r + 1][0]) {
      assert Rows(impls)[r][0] == impls[r].0 && Rows(impls)[r + 1][0] == impls[r + 1].0;
    }
  }

  /** Each row shows the results the map holds for its name. */
  lemma RowsShowImpls(impls: Impls)
    requires SortedByName(impls)
    requires forall i :: 0 <= i < |impls| ==> forall m :: m in Methods ==> m in impls[i].1
    ensures forall r :: 0 <= r < |impls| ==>
      Rows(impls)[r][0] in AsMap(impls) && RowShows(Rows(impls)[r], AsMap(impls)[Rows(impls)[r][0]])
  {
    forall r | 0 <= r < |impls|
      ensures Rows(impls)[r][0] in AsMap(impls) && RowShows(Rows(impls)[r], AsMap(impls)[Rows(impls)[r][0]])
    {
      AsMapAt(impls, r);
      assert Rows(impls)[r] == MakeRow(impls[r].0, impls[r].1);
    }
  }

  /** Every name in the map has a row. */
  lemma RowsCoverImpls(impls: Impls)
    requires SortedByName(impls)
    requires forall i :: 0 <= i < |impls| ==> forall m :: m in Methods ==> m in impls[i].1
    ensures forall n :: n in AsMap(impls) ==> exists r :: 0 <= r < |impls| && Rows(impls)[r][0] == n
  {
    forall n | n in AsMap(impls) ensures exists r :: 0 <= r < |impls| && Rows(impls)[r][0] == n {
      InAsMap(impls, n);
      var i :| 0 <= i < |impls| && impls[i].0 == n;
      assert Rows(impls)[i][0] == n;
    }
  }

  /**
   * The rows are exactly the files: each row names a listed file that is
   * not `mod.rs` or `unknown.rs`, and each such file has a row.
   */
  lemma TableRowsAreFiles(entries: seq<(string, string)>)
    ensures forall r :: 1 <= r < |MakeTable(entries)| ==>
      var n := MakeTable(entries)[r][0];
      !Excluded(n) && exists i :: 0 <= i < |entries| && entries[i].0 == n
    ensures forall i :: 0 <= i < |entries| && !Excluded(entries[i].0) ==>
      exists r :: 1 <= r < |MakeTable(entries)| && MakeTable(entries)[r][0] == entries[i].0
  {
    CollectedNames(entries);
    MakeTableShows(entries);
    MakeTableCovers(entries);
    forall i | 0 <= i < |entries| && !Excluded(entries[i].0)
      ensures exists r :: 1 <= r < |MakeTable(entries)| && MakeTable(entries)[r][0] == entries[i].0
    {
      var n := entries[i].0;
      assert exists j :: 0 <= j < |entries| && entries[j].0 == n;
      assert n in CollectedMap(entries);
      var t := MakeTable(entries);
      var r :| 1 <= r < |t| && t[r][0] == n;
    }
  }

  /** A file's row reflects the contents of the last entry with that name. */
  lemma {:induction false} CollectedFromLastEntry(entries: seq<(string, string)>, i: nat)
    requires i < |entries| && !Excluded(entries[i].0)
    requires forall j :: i < j < |entries| ==> entries[j].0 != entries[i].0
    ensures entries[i].0 in CollectedMap(entries)
    ensures CollectedMap(entries)[entries[i].0] == CheckMethods(entries[i].1)
  {
    if i < |entries| - 1 {
      var prefix := entries[..|entries| - 1];
      assert prefix[i] == entries[i];
      CollectedFromLastEntry(prefix, i);
    }
  }

  /** In a sorted list each name's entry is the one the map holds. */
  lemma {:induction false} AsMapAt(s: Impls, i: nat)
    requires SortedByName(s) && i < |s|
    ensures s[i].0 in AsMap(s) && AsMap(s)[s[i].0] == s[i].1
  {
    if i > 0 {
      AsMapAt(s[1..], i - 1);
      assert s[1..][i - 1] == s[i];
      AscendingImplsPairwise(s, 0, i);
      LessIrreflexive(s[0].0);
    }
  }

  lemma {:induction false} AscendingImplsPairwise(s: Impls, i: nat, j: nat)
    requires SortedByName(s) && i < j < |s|
    ensures Less(s[i].0, s[j].0)
    decreases j - i
  {
    if i + 1 < j {
      AscendingImplsPairwise(s, i + 1, j);
      LessTransitive(s[i].0, s[i + 1].0, s[j].0);
    }
  }

  /** `format!("```\n{}```\n", table)`: the laid-out table inside a code fence. */
  function Fenced(laidOut: string): (doc: string)
    ensures |doc| == |laidOut| + 8
    ensures doc[..4] == "```\n" && doc[4..|doc| - 4] == laidOut && doc[|doc| - 4..] == "```\n"
  {
    "```\n" + laidOut + "```\n"
  }
}
