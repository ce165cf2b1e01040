/**
 * The configuration rules of `SecurityConfig` that are logic rather than wiring: the
 * comma-separated origin lists and the CORS settings built from them.
 */
module SecurityConfiguration {
  import opened Wrappers
  import opened JavaText

  /** Each piece trimmed; the pieces left blank dropped; order kept. */
  function TrimmedNonBlank(parts: seq<string>): (r: seq<string>)
    ensures |r| <= |parts|
  {
    if parts == [] then []
    else
      var t := Trim(parts[0]);
      if HasTextIn(t) then [t] + TrimmedNonBlank(parts[1..]) else TrimmedNonBlank(parts[1..])
  }

  /** Every entry kept is trimmed and not blank. */
  lemma {:induction false} TrimmedNonBlankEntries(parts: seq<string>)
    ensures forall i | 0 <= i < |TrimmedNonBlank(parts)| ::
      IsTrimmed(TrimmedNonBlank(parts)[i]) && HasTextIn(TrimmedNonBlank(parts)[i])
  {
    if parts != [] {
      var t := Trim(parts[0]);
      var rest := TrimmedNonBlank(parts[1..]);
      TrimmedNonBlankEntries(parts[1..]);
      if HasTextIn(t) {
        assert TrimmedNonBlank(parts) == [t] + rest;
        TrimmedEntriesCons(t, rest);
      } else {
        assert TrimmedNonBlank(parts) == rest;
      }
    }
  }

  lemma TrimmedEntriesCons(t: string, rest: seq<string>)
    requires IsTrimmed(t) && HasTextIn(t)
    requires forall i | 0 <= i < |rest| :: IsTrimmed(rest[i]) && HasTextIn(rest[i])
    ensures forall i | 0 <= i < |[t] + rest| :: IsTrimmed(([t] + rest)[i]) && HasTextIn(([t] + rest)[i])
  {
    var r := [t] + rest;
    forall i | 0 <= i < |r|
      ensures IsTrimmed(r[i]) && HasTextIn(r[i])
    {
      if i == 0 {
        assert r[i] == t;
      } else {
        assert r[i] == rest[i - 1];
      }
    }
  }

  /** No entry gains a comma. */
  lemma {:induction false} TrimmedNonBlankCommaFree(parts: seq<string>)
    requires forall j | 0 <= j < |parts| :: ',' !in parts[j]
    ensures forall i | 0 <= i < |TrimmedNonBlank(parts)| :: ',' !in TrimmedNonBlank(parts)[i]
  {
    if parts != [] {
      var t := Trim(parts[0]);
      var tail := parts[1..];
      assert forall j | 0 <= j < |tail| :: ',' !in tail[j] by {
        forall j | 0 <= j < |tail|
          ensures ',' !in tail[j]
        {
          assert tail[j] == parts[j + 1];
        }
      }
      var rest := TrimmedNonBlank(tail);
      TrimmedNonBlankCommaFree(tail);
      if HasTextIn(t) {
        TrimKeepsOut(parts[0], ',');
        assert TrimmedNonBlank(parts) == [t] + rest;
        SeparatorFreeCons(t, rest, ',');
      } else {
        assert TrimmedNonBlank(parts) == rest;
      }
    }
  }

  /** `splitCsv`: null or blank is the empty list; otherwise split on commas, trim, drop the blanks. */
  function SplitCsv(value: Option<string>): (r: seq<string>)
    ensures !HasText(value) ==> r == []
    ensures forall i | 0 <= i < |r| :: IsTrimmed(r[i]) && HasTextIn(r[i]) && ',' !in r[i]
  {
    if !HasText(value) then []
    else
      var parts := JavaSplit(value.value, ',');
      JavaSplitPieces(value.value, ',');
      TrimmedNonBlankEntries(parts);
      TrimmedNonBlankCommaFree(parts);
      TrimmedNonBlank(parts)
  }

  /** A list entry that survives a round trip through comma-separated text. */
  predicate CleanEntry(x: string) {
    IsTrimmed(x) && HasTextIn(x) && ',' !in x
  }

  /** Each entry of `r` is the trimmed piece of `parts` that `idx` names, and has text. */
  ghost predicate EntriesAt(parts: seq<string>, r: seq<string>, idx: seq<nat>) {
    |idx| == |r| && forall i | 0 <= i < |idx| :: idx[i] < |parts| && r[i] == Trim(parts[idx[i]]) && HasTextIn(r[i])
  }

  predicate Increasing(idx: seq<nat>) {
    forall i, i' | 0 <= i < i' < |idx| :: idx[i] < idx[i']
  }

  /** Every piece whose trimmed form has text is named. */
  ghost predicate NamesEveryKept(parts: seq<string>, idx: seq<nat>) {
    forall j | 0 <= j < |parts| && HasTextIn(Trim(parts[j])) :: j in idx
  }

  /**
   * `r` is the pieces of `parts` named by `idx`, each trimmed, in increasing order; every entry has
   * text, and every piece whose trimmed form has text is named.
   */
  ghost predicate Selects(parts: seq<string>, r: seq<string>, idx: seq<nat>) {
    EntriesAt(parts, r, idx) && Increasing(idx) && NamesEveryKept(parts, idx)
  }

  /** Every index one higher. */
  function Shifted(idx: seq<nat>): (r: seq<nat>)
    ensures |r| == |idx| && forall i | 0 <= i < |idx| :: r[i] == idx[i] + 1
  {
    seq(|idx|, i requires 0 <= i < |idx| => idx[i] + 1)
  }

  /** The indices of a selection from `parts[1..]`, moved up by one, name the same entries in `parts`. */
  lemma ShiftedEntries(parts: seq<string>, rest: seq<string>, ridx: seq<nat>)
    requires parts != [] && |ridx| == |rest|
    requires forall i | 0 <= i < |ridx| :: ridx[i] < |parts| - 1 && rest[i] == Trim(parts[1..][ridx[i]])
    ensures forall i | 0 <= i < |ridx| :: 1 <= Shifted(ridx)[i] < |parts| && rest[i] == Trim(parts[Shifted(ridx)[i]])
  {
    var sh := Shifted(ridx);
    forall i | 0 <= i < |sh|
      ensures 1 <= sh[i] < |parts| && rest[i] == Trim(parts[sh[i]])
    {
      assert parts[1..][ridx[i]] == parts[sh[i]];
    }
  }

  /** Moved up by one, the indices of a complete selection from `parts[1..]` name every later piece with text. */
  lemma ShiftedComplete(parts: seq<string>, ridx: seq<nat>)
    requires parts != []
    requires forall j | 0 <= j < |parts| - 1 && HasTextIn(Trim(parts[1..][j])) :: j in ridx
    ensures forall j | 1 <= j < |parts| && HasTextIn(Trim(parts[j])) :: j in Shifted(ridx)
  {
    var sh := Shifted(ridx);
    forall j | 1 <= j < |parts| && HasTextIn(Trim(parts[j]))
      ensures j in sh
    {
      assert parts[1..][j - 1] == parts[j];
      var i :| 0 <= i < |ridx| && ridx[i] == j - 1;
      assert sh[i] == j;
    }
  }

  /** The indices of the pieces the trimming step keeps. */
  lemma {:induction false} TrimmedNonBlankIndices(parts: seq<string>) returns (idx: seq<nat>)
    ensures Selects(parts, TrimmedNonBlank(parts), idx)
  {
    if parts == [] {
      idx := [];
    } else {
      var rest := TrimmedNonBlank(parts[1..]);
      var ridx := TrimmedNonBlankIndices(parts[1..]);
      ShiftedEntries(parts, rest, ridx);
      ShiftedComplete(parts, ridx);
      var sh := Shifted(ridx);
      if HasTextIn(Trim(parts[0])) {
        idx := [0] + sh;
        KeptSelects(parts, rest, sh);
      } else {
        idx := sh;
        SkippedSelects(parts, rest, sh);
      }
    }
  }

  /** A kept first piece goes in front of the selection from the rest. */
  lemma KeptSelects(parts: seq<string>, rest: seq<string>, sh: seq<nat>)
    requires parts != [] && HasTextIn(Trim(parts[0])) && |sh| == |rest|
    requires forall i | 0 <= i < |sh| :: 1 <= sh[i] < |parts| && rest[i] == Trim(parts[sh[i]]) && HasTextIn(rest[i])
    requires Increasing(sh)
    requires forall j | 1 <= j < |parts| && HasTextIn(Trim(parts[j])) :: j in sh
    ensures Selects(parts, [Trim(parts[0])] + rest, [0] + sh)
  {
    KeptEntries(parts, rest, sh);
    KeptIncreasing(sh);
    assert NamesEveryKept(parts, [0] + sh) by {
      forall j | 0 <= j < |parts| && HasTextIn(Trim(parts[j]))
        ensures j in [0] + sh
      {
        if j > 0 {
          assert j in sh;
        }
      }
    }
  }

  /** A dropped first piece leaves the selection from the rest as it is. */
  lemma SkippedSelects(parts: seq<string>, rest: seq<string>, sh: seq<nat>)
    requires parts != [] && !HasTextIn(Trim(parts[0])) && |sh| == |rest|
    requires forall i | 0 <= i < |sh| :: 1 <= sh[i] < |parts| && rest[i] == Trim(parts[sh[i]]) && HasTextIn(rest[i])
    requires Increasing(sh)
    requires forall j | 1 <= j < |parts| && HasTextIn(Trim(parts[j])) :: j in sh
    ensures Selects(parts, rest, sh)
  {
  }

  lemma KeptEntries(parts: seq<string>, rest: seq<string>, sh: seq<nat>)
    requires parts != [] && HasTextIn(Trim(parts[0])) && |sh| == |rest|
    requires forall i | 0 <= i < |sh| :: sh[i] < |parts| && rest[i] == Trim(parts[sh[i]]) && HasTextIn(rest[i])
    ensures EntriesAt(parts, [Trim(parts[0])] + rest, [0] + sh)
  {
    var idx := [0] + sh;
    var r := [Trim(parts[0])] + rest;
    forall i | 0 <= i < |idx|
      ensures idx[i] < |parts| && r[i] == Trim(parts[idx[i]]) && HasTextIn(r[i])
    {
      if i > 0 {
        assert idx[i] == sh[i - 1] && r[i] == rest[i - 1];
      }
    }
  }

  lemma KeptIncreasing(sh: seq<nat>)
    requires Increasing(sh) && forall i | 0 <= i < |sh| :: 1 <= sh[i]
    ensures Increasing([0] + sh)
  {
    var idx := [0] + sh;
    assert forall i | 1 <= i < |idx| :: idx[i] == sh[i - 1];
  }

  /**
   * `splitCsv` of a value with text: the pieces of `value.split(",")` whose trimmed form has
   * text, each trimmed, in their original order, and no others.
   */
  lemma SplitCsvSelects(s: string)
    requires HasText(Some(s))
    ensures exists idx :: Selects(JavaSplit(s, ','), SplitCsv(Some(s)), idx)
  {
    var parts := JavaSplit(s, ',');
    var idx := TrimmedNonBlankIndices(parts);
    assert SplitCsv(Some(s)) == TrimmedNonBlank(parts);
    assert Selects(parts, SplitCsv(Some(s)), idx);
  }

  /** A clean first entry passes through the trimming step unchanged. */
  lemma CleanHeadKept(xs: seq<string>)
    requires xs != [] && CleanEntry(xs[0])
    ensures TrimmedNonBlank(xs) == [xs[0]] + TrimmedNonBlank(xs[1..])
  {
    TrimmedIsFixed(xs[0]);
  }

  lemma {:induction false} CleanEntriesKept(xs: seq<string>)
    requires forall i | 0 <= i < |xs| :: CleanEntry(xs[i])
    ensures TrimmedNonBlank(xs) == xs
  {
    if xs != [] {
      CleanHeadKept(xs);
      var tail := xs[1..];
      assert forall i | 0 <= i < |tail| :: CleanEntry(tail[i]) by {
        forall i | 0 <= i < |tail|
          ensures CleanEntry(tail[i])
        {
          assert tail[i] == xs[i + 1];
        }
      }
      CleanEntriesKept(tail);
      assert xs == [xs[0]] + tail;
    }
  }

  /** A joined list whose first entry has text has text. */
  lemma JoinHasText(xs: seq<string>)
    requires xs != [] && HasTextIn(xs[0])
    ensures HasTextIn(Join(xs, ','))
  {
    var s := Join(xs, ',');
    var k :| 0 <= k < |xs[0]| && !IsWhitespace(xs[0][k]);
    assert xs[0] == s[..|xs[0]|] by {
      if |xs| > 1 {
        assert s == xs[0] + [','] + Join(xs[1..], ',');
      }
    }
    assert s[k] == xs[0][k];
  }

  /** Splitting a joined list of non-empty, comma-free entries gives back the list. */
  lemma JavaSplitJoin(xs: seq<string>)
    requires xs != [] && xs[|xs| - 1] != []
    requires forall i | 0 <= i < |xs| :: ',' !in xs[i]
    ensures JavaSplit(Join(xs, ','), ',') == xs
  {
    SplitJoin(xs, ',');
    if ',' in Join(xs, ',') {
      assert DropTrailingEmpty(xs) == xs;
    }
  }

  /** Splitting a joined list of clean entries gives back the list, in order. */
  lemma SplitCsvJoin(xs: seq<string>)
    requires forall i | 0 <= i < |xs| :: CleanEntry(xs[i])
    ensures SplitCsv(Some(Join(xs, ','))) == xs
  {
    if xs != [] {
      JoinHasText(xs);
      JavaSplitJoin(xs);
      CleanEntriesKept(xs);
    }
  }

  /** A blank or missing list is empty. */
  lemma SplitCsvBlank(value: Option<string>)
    requires value.None? || forall i | 0 <= i < |value.value| :: IsWhitespace(value.value[i])
    ensures SplitCsv(value) == []
  {
  }

  /** The CORS settings, each null until it is set. */
  class CorsConfiguration {
    var allowedOrigins: Option<seq<string>>
    var allowedOriginPatterns: Option<seq<string>>
    var allowedMethods: Option<seq<string>>
    var allowedHeaders: Option<seq<string>>
    var allowCredentials: Option<bool>

    constructor ()
      ensures allowedOrigins.None? && allowedOriginPatterns.None? && allowedMethods.None?
      ensures allowedHeaders.None? && allowCredentials.None?
    {
      allowedOrigins, allowedOriginPatterns := None, None;
      allowedMethods, allowedHeaders, allowCredentials := None, None, None;
    }
  }

  /** The path pattern the configuration is registered under. */
  const ALL_PATHS: string := "/**"

  /**
   * `corsConfigurationSource`: origins and origin patterns are set only when their lists are
   * non-empty; methods, headers and credentials are fixed. The configuration applies to every path.
   */
  method CorsConfigurationSource(allowedOrigins: string, allowedOriginPatterns: string)
    returns (pattern: string, configuration: CorsConfiguration)
    ensures fresh(configuration) && pattern == ALL_PATHS
    ensures var origins := SplitCsv(Some(allowedOrigins));
      configuration.allowedOrigins == if origins == [] then None else Some(origins)
    ensures var patterns := SplitCsv(Some(allowedOriginPatterns));
      configuration.allowedOriginPatterns == if patterns == [] then None else Some(patterns)
    ensures configuration.allowedMethods == Some(["GET", "POST", "OPTIONS"])
    ensures configuration.allowedHeaders == Some(["Content-Type", "Authorization"])
    ensures configuration.allowCredentials == Some(true)
  {
    configuration := new CorsConfiguration();
    var origins := SplitCsv(Some(allowedOrigins));
    if origins != [] {
      configuration.allowedOrigins := Some(origins);
    }
    var originPatterns := SplitCsv(Some(allowedOriginPatterns));
    if originPatterns != [] {
      configuration.allowedOriginPatterns := Some(originPatterns);
    }
    configuration.allowedMethods := Some(["GET", "POST", "OPTIONS"]);
    configuration.allowedHeaders := Some(["Content-Type", "Authorization"]);
    configuration.allowCredentials := Some(true);
    pattern := ALL_PATHS;
  }
}
