/**
 * Text primitives used by the ATIS resolver: joining broadcast lines with single
 * spaces, prefix and substring tests on callsigns, and the scan of a broadcast for
 * `INFO <LETTER>` / `INFORMATION <LETTER>` (two literal patterns followed by one
 * captured character in `A`..`Z`, searched leftmost-first).
 */
module AtisText {
  import opened Wrappers

  const InfoPattern: string := "INFO "
  const InformationPattern: string := "INFORMATION "

  predicate IsUpper(ch: char) {
    'A' <= ch <= 'Z'
  }

  /** `s.starts_with(prefix)`: case-sensitive. */
  predicate StartsWith(s: string, prefix: string) {
    |prefix| <= |s| && s[..|prefix|] == prefix
  }

  /** `pat` occurs in `s` starting at position `i`. */
  predicate OccursAt(s: string, pat: string, i: int) {
    0 <= i && i + |pat| <= |s| && s[i..i + |pat|] == pat
  }

  /** `s.contains(pat)`. */
  predicate Contains(s: string, pat: string) {
    exists i :: 0 <= i <= |s| - |pat| && OccursAt(s, pat, i)
  }

  // ---------------------------------------------------------------------------
  // Joining lines with a single space (`lines.join(" ")`)
  // ---------------------------------------------------------------------------

  /** Where line `k` starts in the joined text: the lengths of the lines before it,
      each followed by one separating space. */
  function Offset(lines: seq<string>, k: nat): nat
    requires k < |lines|
  {
    if k == 0 then 0 else |lines[0]| + 1 + Offset(lines[1..], k - 1)
  }

  /** The lines joined with a single space between consecutive lines. Its layout is
      given by `JoinLength` and `JoinLayout`. */
  function Join(lines: seq<string>): (r: string)
    ensures |lines| > 0 ==> StartsWith(r, lines[0])
  {
    if |lines| == 0 then ""
    else if |lines| == 1 then lines[0]
    else lines[0] + " " + Join(lines[1..])
  }

  /** Joining no lines gives the empty text; otherwise the joined text ends where the
      last line ends. */
  lemma {:induction false} JoinLength(lines: seq<string>)
    ensures |lines| == 0 ==> Join(lines) == ""
    ensures |lines| > 0 ==> |Join(lines)| == Offset(lines, |lines| - 1) + |lines[|lines| - 1]|
  {
    if |lines| > 1 {
      JoinLength(lines[1..]);
      OffsetTail(lines, |lines| - 1);
      assert lines[1..][|lines| - 2] == lines[|lines| - 1];
    }
  }

  /** Unfolding `Offset` once. */
  lemma OffsetTail(lines: seq<string>, k: nat)
    requires 0 < k < |lines|
    ensures Offset(lines, k) == |lines[0]| + 1 + Offset(lines[1..], k - 1)
  {
  }

  /** An occurrence in `rest` is an occurrence in `prefix + rest`, shifted by `|prefix|`. */
  lemma ShiftedOccurrence(prefix: string, rest: string, pat: string, o: int)
    requires OccursAt(rest, pat, o)
    ensures OccursAt(prefix + rest, pat, |prefix| + o)
  {
    var s := prefix + rest;
    assert s[|prefix| + o..|prefix| + o + |pat|] == rest[o..o + |pat|];
  }

  /** The joined text is the first line, a space, and the join of the rest. */
  lemma JoinCons(lines: seq<string>)
    requires |lines| > 1
    ensures Join(lines) == (lines[0] + " ") + Join(lines[1..])
  {
  }

  /** Every line appears verbatim at its offset in the joined text, followed by a single
      space unless it is the last line. Together with `JoinLength`, this fixes the joined
      text completely. */
  lemma {:induction false} JoinLayout(lines: seq<string>, k: nat)
    requires k < |lines|
    ensures OccursAt(Join(lines), lines[k], Offset(lines, k))
    ensures k + 1 < |lines| ==> OccursAt(Join(lines), " ", Offset(lines, k) + |lines[k]|)
  {
    if |lines| == 1 {
      assert Join(lines)[0..|lines[0]|] == lines[0];
    } else {
      JoinCons(lines);
      if k > 0 {
        JoinLayout(lines[1..], k - 1);
        assert lines[1..][k - 1] == lines[k];
        ShiftedOccurrence(lines[0] + " ", Join(lines[1..]), lines[k], Offset(lines[1..], k - 1));
        if k + 1 < |lines| {
          ShiftedOccurrence(lines[0] + " ", Join(lines[1..]), " ", Offset(lines[1..], k - 1) + |lines[k]|);
        }
      } else {
        HeadOccurrences(lines[0], Join(lines[1..]));
      }
    }
  }

  /** In `line + " " + rest`, the line starts at 0 and the space follows it. */
  lemma HeadOccurrences(line: string, rest: string)
    ensures OccursAt((line + " ") + rest, line, 0)
    ensures OccursAt((line + " ") + rest, " ", |line|)
  {
    var s := (line + " ") + rest;
    assert s[0..|line|] == line;
    assert s[|line|..|line| + 1] == " ";
  }

  // ---------------------------------------------------------------------------
  // The letter scan of `parse_code_from_text`
  // ---------------------------------------------------------------------------

  /** `pat` followed by an uppercase letter matches `s` at position `i`. */
  predicate MatchAt(s: string, pat: string, i: int) {
    OccursAt(s, pat, i) && i + |pat| < |s| && IsUpper(s[i + |pat|])
  }

  ghost predicate HasMatch(s: string, pat: string) {
    exists i :: 0 <= i < |s| && MatchAt(s, pat, i)
  }

  /** `i` is the leftmost match, the one a leftmost-first regex search reports. */
  ghost predicate IsLeftmostMatch(s: string, pat: string, i: int) {
    MatchAt(s, pat, i) && forall j :: 0 <= j < i ==> !MatchAt(s, pat, j)
  }

  /** The first match at or after `from`. */
  function FirstMatch(s: string, pat: string, from: nat): (r: Option<nat>)
    decreases |s| - from
    ensures r.Some? ==> from <= r.value && MatchAt(s, pat, r.value)
    ensures r.Some? ==> forall j :: from <= j < r.value ==> !MatchAt(s, pat, j)
    ensures r.None? ==> forall j :: from <= j ==> !MatchAt(s, pat, j)
  {
    if from + |pat| >= |s| then None
    else if MatchAt(s, pat, from) then Some(from)
    else FirstMatch(s, pat, from + 1)
  }

  /** The letter captured by the leftmost match of `pat` followed by `[A-Z]`. */
  function Capture(s: string, pat: string): (r: Option<char>)
    ensures r.Some? ==> IsUpper(r.value)
    ensures r.None? <==> !HasMatch(s, pat)
    ensures forall i :: IsLeftmostMatch(s, pat, i) ==> r == Some(s[i + |pat|])
  {
    match FirstMatch(s, pat, 0)
    case Some(i) => Some(s[i + |pat|])
    case None => None
  }

  /** `parse_code_from_text`: in the lines joined with spaces, the letter after the
      leftmost `INFO ` that is followed by `A`..`Z`; only when there is no such match,
      the letter after the leftmost `INFORMATION ` followed by `A`..`Z`; else none. */
  function ParseCodeFromText(lines: seq<string>): (r: Option<char>)
    ensures r.Some? ==> IsUpper(r.value)
    ensures r.None? <==> !HasMatch(Join(lines), InfoPattern) && !HasMatch(Join(lines), InformationPattern)
    ensures forall i :: IsLeftmostMatch(Join(lines), InfoPattern, i) ==>
              r == Some(Join(lines)[i + |InfoPattern|])
    ensures !HasMatch(Join(lines), InfoPattern) ==>
              forall i :: IsLeftmostMatch(Join(lines), InformationPattern, i) ==>
                r == Some(Join(lines)[i + |InformationPattern|])
  {
    var joined := Join(lines);
    match Capture(joined, InfoPattern)
    case Some(c) => Some(c)
    case None => Capture(joined, InformationPattern)
  }

  /** One differing character rules an occurrence out. */
  lemma MismatchAt(s: string, pat: string, i: int, t: int)
    requires 0 <= i && i + |pat| <= |s| && 0 <= t < |pat| && s[i + t] != pat[t]
    ensures !OccursAt(s, pat, i)
  {
    assert s[i..i + |pat|][t] == s[i + t];
  }

  /** The characters of an occurrence, one by one. */
  lemma OccursAtChars(s: string, pat: string, i: int)
    requires OccursAt(s, pat, i)
    ensures forall t :: 0 <= t < |pat| ==> s[i + t] == pat[t]
  {
    forall t | 0 <= t < |pat| ensures s[i + t] == pat[t] {
      assert s[i..i + |pat|][t] == pat[t];
    }
  }

  /** An occurrence inside an occurrence: `pat` at `i` in `line`, and `line` at `o` in `s`. */
  lemma NestedOccurrence(s: string, line: string, o: int, pat: string, i: int)
    requires OccursAt(s, line, o) && OccursAt(line, pat, i)
    ensures OccursAt(s, pat, o + i)
    ensures forall t :: 0 <= t < |line| ==> s[o + t] == line[t]
  {
    OccursAtChars(s, line, o);
    OccursAtChars(line, pat, i);
    forall t | 0 <= t < |pat| ensures s[o + i..o + i + |pat|][t] == pat[t] {
      assert s[o + (i + t)] == line[i + t];
    }
  }

  /** A pattern match inside any single line is a match of the joined text. */
  lemma LineMatchIsJoinedMatch(lines: seq<string>, k: nat, pat: string, i: int)
    requires k < |lines| && MatchAt(lines[k], pat, i)
    ensures MatchAt(Join(lines), pat, Offset(lines, k) + i)
  {
    JoinLayout(lines, k);
    NestedOccurrence(Join(lines), lines[k], Offset(lines, k), pat, i);
  }

  /** An `INFO <LETTER>` or `INFORMATION <LETTER>` mention in any one line yields a letter. */
  lemma MentionInLineYieldsLetter(lines: seq<string>, k: nat, pat: string, i: int)
    requires pat == InfoPattern || pat == InformationPattern
    requires k < |lines| && MatchAt(lines[k], pat, i)
    ensures ParseCodeFromText(lines).Some?
  {
    LineMatchIsJoinedMatch(lines, k, pat, i);
    assert 0 <= Offset(lines, k) + i < |Join(lines)|;
  }

  /** The scan runs over the joined text, so a mention split across two lines is found. */
  lemma MentionAcrossLinesIsFound()
    ensures ParseCodeFromText(["ATIS INFO", "B 1200Z"]) == Some('B')
  {
    var lines := ["ATIS INFO", "B 1200Z"];
    var j := Join(lines);
    assert j == "ATIS INFO B 1200Z";
    assert MatchAt(j, InfoPattern, 5);
    forall q | 0 <= q < 5 ensures !MatchAt(j, InfoPattern, q) {
      if j[q] != 'I' {
        MismatchAt(j, InfoPattern, q, 0);
      } else {
        MismatchAt(j, InfoPattern, q, 4);
      }
    }
    assert IsLeftmostMatch(j, InfoPattern, 5);
  }

  /** `INFO <LETTER>` wins over `INFORMATION <LETTER>` even when the latter comes first. */
  lemma InfoTakesPrecedence()
    ensures ParseCodeFromText(["INFORMATION C", "INFO D"]) == Some('D')
  {
    var lines := ["INFORMATION C", "INFO D"];
    var j := Join(lines);
    assert j == "INFORMATION C INFO D";
    assert MatchAt(j, InfoPattern, 14);
    forall q | 0 <= q < 14 ensures !MatchAt(j, InfoPattern, q) {
      if j[q] != 'I' {
        MismatchAt(j, InfoPattern, q, 0);
      } else {
        MismatchAt(j, InfoPattern, q, 4);
      }
    }
    assert IsLeftmostMatch(j, InfoPattern, 14);
  }
}
