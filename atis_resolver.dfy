/**
 * The ATIS letter resolver: a pure computation over one datafeed snapshot. It selects
 * the broadcasts whose callsign starts with the airport's ICAO id, derives one letter
 * string (`-`, a single letter, or `arrival/departure` for airports with separate
 * streams) and collects the broadcast texts.
 */
module AtisResolver {
  import opened Wrappers
  import opened Feed
  import opened AtisText

  /** What the UI receives for one airport. */
  datatype FetchAtisResponse = FetchAtisResponse(letter: string, texts: seq<string>)

  const NoLetter: string := "-"
  const ArrivalTag: string := "_A_"
  const DepartureTag: string := "_D_"

  // ---------------------------------------------------------------------------
  // The `(text_c as u32) - (c as u32)` subtraction
  // ---------------------------------------------------------------------------

  const U32Modulus: int := 0x1_0000_0000

  /** `u32` subtraction as a release build performs it: modulo 2^32. */
  function WrappingSubU32(a: int, b: int): (r: int)
    requires 0 <= a < U32Modulus && 0 <= b < U32Modulus
    ensures 0 <= r < U32Modulus
    ensures a >= b ==> r == a - b
    ensures a < b ==> r == a - b + U32Modulus
  {
    (a - b) % U32Modulus
  }

  /** `u32` subtraction as a debug build performs it: `None` stands for the overflow panic. */
  function CheckedSubU32(a: int, b: int): (r: Option<int>)
    requires 0 <= a < U32Modulus && 0 <= b < U32Modulus
    ensures r.Some? <==> b <= a
    ensures r.Some? ==> r.value + b == a
  {
    if a < b then None else Some(a - b)
  }

  /** Characters are Unicode scalar values, so the wrapped difference of two characters
      is 1 exactly when the first is the successor of the second: no other difference,
      negative ones included, wraps around to 1. */
  lemma WrappingDeltaIsSuccessor(t: char, c: char)
    ensures 0 <= t as int < U32Modulus && 0 <= c as int < U32Modulus
    ensures WrappingSubU32(t as int, c as int) == 1 <==> t as int == c as int + 1
  {
    assert t as int <= 0x10FFFF && c as int <= 0x10FFFF;
  }

  // ---------------------------------------------------------------------------
  // `parse_atis_code`
  // ---------------------------------------------------------------------------

  /** The letter of one broadcast. When both the structured code and a letter scanned
      from the text exist, the text letter is taken only when it is exactly one past the
      code's first character (the feed's code field lags behind the text); otherwise the
      code's first character. An empty code, or a text without a letter, gives the code
      verbatim; text alone gives its letter or `-`; neither gives `-`. */
  function ParseAtisCode(a: Atis): (r: string)
    ensures a.atisCode.None? ==> r == NoLetter || (|r| == 1 && IsUpper(r[0]))
    ensures a.atisCode.Some? ==>
              r == a.atisCode.value ||
              (|a.atisCode.value| > 0 && |r| == 1 &&
               (r[0] == a.atisCode.value[0] || (IsUpper(r[0]) && r[0] as int == a.atisCode.value[0] as int + 1)))
    ensures a.atisCode.Some? && |a.atisCode.value| > 0 &&
            a.textAtis.Some? && ParseCodeFromText(a.textAtis.value).Some? ==>
              var c, t := a.atisCode.value[0], ParseCodeFromText(a.textAtis.value).value;
              r == if t as int == c as int + 1 then [t] else [c]
  {
    match (a.atisCode, a.textAtis)
    case (Some(code), Some(lines)) =>
      var textLetter := ParseCodeFromText(lines);
      if |code| > 0 && textLetter.Some? then
        var c, t := code[0], textLetter.value;
        WrappingDeltaIsSuccessor(t, c);
        if WrappingSubU32(t as int, c as int) == 1 then [t] else [c]
      else
        code
    case (Some(code), None) => code
    case (None, Some(lines)) =>
      (match ParseCodeFromText(lines)
       case Some(t) => [t]
       case None => NoLetter)
    case (None, None) => NoLetter
  }

  /** The code is returned verbatim when it is empty, when there is no text, or when the
      text holds no letter. */
  lemma CodeVerbatim(a: Atis)
    requires a.atisCode.Some?
    requires |a.atisCode.value| == 0 || a.textAtis.None? || ParseCodeFromText(a.textAtis.value).None?
    ensures ParseAtisCode(a) == a.atisCode.value
  {
  }

  /** Without a structured code the text decides: its letter, or `-` if it has none. */
  lemma TextOnly(a: Atis)
    requires a.atisCode.None?
    ensures a.textAtis.None? ==> ParseAtisCode(a) == NoLetter
    ensures a.textAtis.Some? ==>
              ParseAtisCode(a) == (match ParseCodeFromText(a.textAtis.value)
                                   case Some(t) => [t]
                                   case None => NoLetter)
  {
  }

  /** No wrap-around from `Z` to `A`: the code is trusted when the text has rolled over. */
  lemma NoRolloverFromZToA(callsign: string)
    ensures ParseAtisCode(Atis(callsign, Some("Z"), Some(["INFO A"]))) == "Z"
  {
    InfoLetterExample("INFO A", 'A');
  }

  /** A one-line text that starts with `INFO ` and a letter yields that letter. */
  lemma InfoLetterExample(line: string, t: char)
    requires |line| >= 6 && line[..5] == InfoPattern && line[5] == t && IsUpper(t)
    ensures ParseCodeFromText([line]) == Some(t)
  {
    assert Join([line]) == line;
    assert MatchAt(line, InfoPattern, 0);
    assert IsLeftmostMatch(line, InfoPattern, 0);
  }

  /** In a build with overflow checks, the subtraction panics exactly when there are a
      code and a text letter and the text letter precedes the code's first character. */
  predicate SubtractionOverflows(a: Atis) {
    a.atisCode.Some? && |a.atisCode.value| > 0 &&
    a.textAtis.Some? && ParseCodeFromText(a.textAtis.value).Some? &&
    ParseCodeFromText(a.textAtis.value).value < a.atisCode.value[0]
  }

  /** `parse_atis_code` as a build with overflow checks runs it: `None` stands for the
      panic of the checked subtraction. Where it does not panic, it agrees with the
      release build. */
  function ParseAtisCodeDebug(a: Atis): (r: Option<string>)
    ensures r.None? <==> SubtractionOverflows(a)
    ensures r.Some? ==> r.value == ParseAtisCode(a)
  {
    match (a.atisCode, a.textAtis)
    case (Some(code), Some(lines)) =>
      var textLetter := ParseCodeFromText(lines);
      if |code| > 0 && textLetter.Some? then
        var c, t := code[0], textLetter.value;
        WrappingDeltaIsSuccessor(t, c);
        match CheckedSubU32(t as int, c as int)
        case None => None
        case Some(d) => if d == 1 then Some([t]) else Some([c])
      else
        Some(code)
    case _ => Some(ParseAtisCode(a))
  }

  /** As written, the subtraction is unchecked `u32` arithmetic: in a build with overflow
      checks, a text letter that precedes the code's first character (the `Z` to `A`
      rollover, or a text lagging behind the code) makes it panic instead of yielding
      the code. */
  lemma DebugBuildPanicsOnRollover(callsign: string)
    ensures var a := Atis(callsign, Some("Z"), Some(["INFO A"]));
            ParseCodeFromText(a.textAtis.value) == Some('A') &&
            CheckedSubU32('A' as int, a.atisCode.value[0] as int).None? &&
            ParseAtisCodeDebug(a).None?
  {
    InfoLetterExample("INFO A", 'A');
  }

  // ---------------------------------------------------------------------------
  // `filter_callsign_and_parse`
  // ---------------------------------------------------------------------------

  ghost predicate IsFirstContaining(atises: seq<Atis>, pat: string, k: int) {
    0 <= k < |atises| && Contains(atises[k].callsign, pat) &&
    forall j :: 0 <= j < k ==> !Contains(atises[j].callsign, pat)
  }

  /** `.find(|s| s.callsign.contains(pat))`: the first broadcast whose callsign contains `pat`. */
  function FindContaining(atises: seq<Atis>, pat: string): (r: Option<Atis>)
    ensures r.None? <==> forall k :: 0 <= k < |atises| ==> !Contains(atises[k].callsign, pat)
    ensures forall k :: IsFirstContaining(atises, pat, k) ==> r == Some(atises[k])
  {
    if |atises| == 0 then None
    else if Contains(atises[0].callsign, pat) then Some(atises[0])
    else
      assert forall k :: IsFirstContaining(atises, pat, k) ==> IsFirstContaining(atises[1..], pat, k - 1);
      FindContaining(atises[1..], pat)
  }

  /** The letter of the first broadcast whose callsign contains `pat`, or `-` if none does. */
  function FilterCallsignAndParse(atises: seq<Atis>, pat: string): (r: string)
    ensures (forall k :: 0 <= k < |atises| ==> !Contains(atises[k].callsign, pat)) ==> r == NoLetter
    ensures forall k :: IsFirstContaining(atises, pat, k) ==> r == ParseAtisCode(atises[k])
  {
    match FindContaining(atises, pat)
    case Some(a) => ParseAtisCode(a)
    case None => NoLetter
  }

  // ---------------------------------------------------------------------------
  // The resolution inside `get_atis`
  // ---------------------------------------------------------------------------

  /** The broadcasts whose callsign starts with `icao`, in feed order. */
  function FoundAtis(atis: seq<Atis>, icao: string): (r: seq<Atis>)
    ensures |r| <= |atis|
    ensures forall a :: a in r ==> a in atis && StartsWith(a.callsign, icao)
    ensures forall a :: a in atis && StartsWith(a.callsign, icao) ==> a in r
  {
    if |atis| == 0 then []
    else (if StartsWith(atis[0].callsign, icao) then [atis[0]] else []) + FoundAtis(atis[1..], icao)
  }

  /** Selection keeps feed order: it distributes over concatenation. */
  lemma {:induction false} FoundAtisAppend(xs: seq<Atis>, ys: seq<Atis>, icao: string)
    ensures FoundAtis(xs + ys, icao) == FoundAtis(xs, icao) + FoundAtis(ys, icao)
  {
    if |xs| > 0 {
      assert (xs + ys)[1..] == xs[1..] + ys;
      FoundAtisAppend(xs[1..], ys, icao);
    } else {
      assert xs + ys == ys;
    }
  }

  /** The joined text of every broadcast that has one, in order; broadcasts without
      text are skipped. */
  function Texts(found: seq<Atis>): (r: seq<string>)
    ensures |r| <= |found|
    ensures forall t :: t in r ==> exists a :: a in found && a.textAtis.Some? && t == Join(a.textAtis.value)
    ensures (forall k :: 0 <= k < |found| ==> found[k].textAtis.Some?) ==>
              |r| == |found| && forall k :: 0 <= k < |found| ==> r[k] == Join(found[k].textAtis.value)
    ensures (forall k :: 0 <= k < |found| ==> found[k].textAtis.None?) ==> r == []
  {
    if |found| == 0 then []
    else
      var rest := Texts(found[1..]);
      assert forall a :: a in found[1..] ==> a in found;
      match found[0].textAtis
      case Some(lines) => [Join(lines)] + rest
      case None => rest
  }

  /** The texts keep feed order: they distribute over concatenation. */
  lemma {:induction false} TextsAppend(xs: seq<Atis>, ys: seq<Atis>)
    ensures Texts(xs + ys) == Texts(xs) + Texts(ys)
  {
    if |xs| > 0 {
      assert (xs + ys)[1..] == xs[1..] + ys;
      TextsAppend(xs[1..], ys);
    } else {
      assert xs + ys == ys;
    }
  }

  /** The letter string for the selected broadcasts: `-` for none, the broadcast's own
      letter for one, `arrival/departure` for several. */
  function Letter(found: seq<Atis>): (r: string)
    ensures |found| == 0 ==> r == NoLetter
    ensures |found| == 1 ==> r == ParseAtisCode(found[0])
    ensures |found| >= 2 ==>
              forall i, j :: IsFirstContaining(found, ArrivalTag, i) && IsFirstContaining(found, DepartureTag, j) ==>
                r == ParseAtisCode(found[i]) + "/" + ParseAtisCode(found[j])
    ensures |found| >= 2 && (forall k :: 0 <= k < |found| ==> !Contains(found[k].callsign, ArrivalTag)) ==>
              StartsWith(r, NoLetter + "/")
    ensures |found| >= 2 && (forall k :: 0 <= k < |found| ==> !Contains(found[k].callsign, DepartureTag)) ==>
              |r| >= 2 && r[|r| - 2..] == "/" + NoLetter
  {
    if |found| == 0 then NoLetter
    else if |found| == 1 then ParseAtisCode(found[0])
    else FilterCallsignAndParse(found, ArrivalTag) + "/" + FilterCallsignAndParse(found, DepartureTag)
  }

  /** The ATIS answer for airport `icao` over one datafeed snapshot. */
  function ResolveAtis(datafeed: V3ResponseData, icao: string): (r: FetchAtisResponse)
    ensures |r.texts| <= |datafeed.atis|
    ensures forall t :: t in r.texts ==>
              exists a :: a in datafeed.atis && StartsWith(a.callsign, icao) && a.textAtis.Some? && t == Join(a.textAtis.value)
  {
    var found := FoundAtis(datafeed.atis, icao);
    FetchAtisResponse(Letter(found), Texts(found))
  }

  // ---------------------------------------------------------------------------
  // What the resolution means in terms of the feed
  // ---------------------------------------------------------------------------

  /** `k` is the only broadcast of the feed whose callsign starts with `icao`. */
  ghost predicate IsOnlyMatch(atis: seq<Atis>, icao: string, k: int) {
    0 <= k < |atis| && StartsWith(atis[k].callsign, icao) &&
    forall j :: 0 <= j < |atis| && j != k ==> !StartsWith(atis[j].callsign, icao)
  }

  predicate IsStream(a: Atis, icao: string, tag: string) {
    StartsWith(a.callsign, icao) && Contains(a.callsign, tag)
  }

  /** `k` is the first broadcast of the feed for `icao` whose callsign carries `tag`. */
  ghost predicate IsFirstStream(atis: seq<Atis>, icao: string, tag: string, k: int) {
    0 <= k < |atis| && IsStream(atis[k], icao, tag) &&
    forall j :: 0 <= j < k ==> !IsStream(atis[j], icao, tag)
  }

  /** Reference definition over the whole feed: the first broadcast for `icao` whose
      callsign carries `tag`. */
  ghost function FirstStream(atis: seq<Atis>, icao: string, tag: string): (r: Option<Atis>)
    ensures r.None? <==> forall k :: 0 <= k < |atis| ==> !IsStream(atis[k], icao, tag)
    ensures forall k :: IsFirstStream(atis, icao, tag, k) ==> r == Some(atis[k])
  {
    if |atis| == 0 then None
    else if IsStream(atis[0], icao, tag) then Some(atis[0])
    else
      assert forall k :: IsFirstStream(atis, icao, tag, k) ==> IsFirstStream(atis[1..], icao, tag, k - 1);
      FirstStream(atis[1..], icao, tag)
  }

  /** The letter of the first `tag` stream of `icao` in the feed, or `-` if there is none. */
  ghost function StreamLetter(atis: seq<Atis>, icao: string, tag: string): string {
    match FirstStream(atis, icao, tag)
    case Some(a) => ParseAtisCode(a)
    case None => NoLetter
  }

  /** Searching the selected broadcasts finds the first matching stream of the whole feed. */
  lemma {:induction false} FindStreamInFound(atis: seq<Atis>, icao: string, tag: string)
    ensures FindContaining(FoundAtis(atis, icao), tag) == FirstStream(atis, icao, tag)
  {
    if |atis| > 0 {
      var rest := FoundAtis(atis[1..], icao);
      FindStreamInFound(atis[1..], icao, tag);
      if StartsWith(atis[0].callsign, icao) {
        assert FoundAtis(atis, icao) == [atis[0]] + rest;
        assert ([atis[0]] + rest)[0] == atis[0];
        assert ([atis[0]] + rest)[1..] == rest;
      } else {
        assert FoundAtis(atis, icao) == rest;
      }
    }
  }

  /** No callsign starts with `icao`: nothing is selected. */
  lemma {:induction false} NothingFound(atis: seq<Atis>, icao: string)
    requires forall k :: 0 <= k < |atis| ==> !StartsWith(atis[k].callsign, icao)
    ensures FoundAtis(atis, icao) == []
  {
    if |atis| > 0 {
      NothingFound(atis[1..], icao);
    }
  }

  /** Exactly one broadcast of the feed is selected. */
  lemma {:induction false} OnlyMatchIsFound(atis: seq<Atis>, icao: string, k: int)
    requires IsOnlyMatch(atis, icao, k)
    ensures FoundAtis(atis, icao) == [atis[k]]
  {
    if k == 0 {
      forall j | 0 <= j < |atis[1..]| ensures !StartsWith(atis[1..][j].callsign, icao) {
        assert atis[1..][j] == atis[j + 1];
      }
      NothingFound(atis[1..], icao);
    } else {
      assert IsOnlyMatch(atis[1..], icao, k - 1) by {
        forall j | 0 <= j < |atis[1..]| && j != k - 1
          ensures !StartsWith(atis[1..][j].callsign, icao)
        {
          assert atis[1..][j] == atis[j + 1];
        }
      }
      OnlyMatchIsFound(atis[1..], icao, k - 1);
    }
  }

  /** No broadcast for the airport: the letter is `-` and there are no texts. */
  lemma ResolveNoMatch(datafeed: V3ResponseData, icao: string)
    requires forall k :: 0 <= k < |datafeed.atis| ==> !StartsWith(datafeed.atis[k].callsign, icao)
    ensures ResolveAtis(datafeed, icao) == FetchAtisResponse(NoLetter, [])
  {
    NothingFound(datafeed.atis, icao);
  }

  /** One broadcast for the airport: its own letter, and its text if it has one. */
  lemma ResolveSingle(datafeed: V3ResponseData, icao: string, k: int)
    requires IsOnlyMatch(datafeed.atis, icao, k)
    ensures var a := datafeed.atis[k];
            ResolveAtis(datafeed, icao) ==
              FetchAtisResponse(ParseAtisCode(a), if a.textAtis.Some? then [Join(a.textAtis.value)] else [])
  {
    OnlyMatchIsFound(datafeed.atis, icao, k);
    assert [datafeed.atis[k]][1..] == [];
  }

  /** Several broadcasts for the airport: `arrival/departure`, each the letter of the first
      stream of that kind in the feed, or `-` when the feed has no such stream. */
  lemma ResolveSplit(datafeed: V3ResponseData, icao: string)
    requires |FoundAtis(datafeed.atis, icao)| >= 2
    ensures ResolveAtis(datafeed, icao).letter ==
              StreamLetter(datafeed.atis, icao, ArrivalTag) + "/" + StreamLetter(datafeed.atis, icao, DepartureTag)
  {
    FindStreamInFound(datafeed.atis, icao, ArrivalTag);
    FindStreamInFound(datafeed.atis, icao, DepartureTag);
  }

  /** The texts of a feed are the texts of its parts, in order. */
  lemma ResolveTextsAppend(xs: seq<Atis>, ys: seq<Atis>, icao: string)
    ensures ResolveAtis(V3ResponseData(xs + ys), icao).texts ==
              ResolveAtis(V3ResponseData(xs), icao).texts + ResolveAtis(V3ResponseData(ys), icao).texts
  {
    FoundAtisAppend(xs, ys, icao);
    TextsAppend(FoundAtis(xs, icao), FoundAtis(ys, icao));
  }

  /** One broadcast contributes its joined lines exactly when it belongs to the airport
      and has text. With `ResolveTextsAppend`, this fixes the texts of every feed. */
  lemma ResolveTextsSingle(a: Atis, icao: string)
    ensures ResolveAtis(V3ResponseData([a]), icao).texts ==
              if StartsWith(a.callsign, icao) && a.textAtis.Some? then [Join(a.textAtis.value)] else []
  {
    assert [a][1..] == [];
  }
}
