/**
 * Concrete resolutions over small feeds: the one-ahead rule, the split letter and the
 * unknown airport, each proved from the general lemmas about the resolver.
 */
module AtisExamples {
  import opened Wrappers
  import opened Feed
  import opened AtisText
  import opened AtisResolver

  /** `B` in both the code and the text: `B`. */
  lemma SingleMatchAgreeing()
    ensures ResolveAtis(V3ResponseData([Atis("KXYZ_ATIS", Some("B"), Some(["INFO B 1200Z"]))]), "KXYZ") ==
            FetchAtisResponse("B", ["INFO B 1200Z"])
  {
    var a := Atis("KXYZ_ATIS", Some("B"), Some(["INFO B 1200Z"]));
    assert IsOnlyMatch([a], "KXYZ", 0);
    ResolveSingle(V3ResponseData([a]), "KXYZ", 0);
    InfoLetterExample("INFO B 1200Z", 'B');
    assert Join(["INFO B 1200Z"]) == "INFO B 1200Z";
  }

  /** The text is one letter ahead of the code: the text letter. */
  lemma OneAheadOverride()
    ensures ParseAtisCode(Atis("KXYZ_ATIS", Some("B"), Some(["INFO C"]))) == "C"
  {
    InfoLetterExample("INFO C", 'C');
  }

  /** The text is two letters ahead: the code is trusted. */
  lemma GapOfTwoKeepsCode()
    ensures ParseAtisCode(Atis("KXYZ_ATIS", Some("B"), Some(["INFO D"]))) == "B"
  {
    InfoLetterExample("INFO D", 'D');
  }

  /** An airport with no broadcast. */
  lemma UnknownAirport()
    ensures ResolveAtis(V3ResponseData([Atis("KXYZ_ATIS", Some("B"), None)]), "KABC") ==
            FetchAtisResponse(NoLetter, [])
  {
    var feed := V3ResponseData([Atis("KXYZ_ATIS", Some("B"), None)]);
    assert !StartsWith(feed.atis[0].callsign, "KABC") by {
      assert feed.atis[0].callsign[1] != "KABC"[1];
    }
    ResolveNoMatch(feed, "KABC");
  }

  /** Separate arrival (`A`) and departure (`C`) broadcasts: `A/C`, both texts in feed order. */
  lemma ArrivalDepartureSplit()
    ensures ResolveAtis(V3ResponseData([Atis("KXYZ_A_ATIS", Some("A"), Some(["INFO A"])),
                                        Atis("KXYZ_D_ATIS", Some("C"), Some(["INFO C"]))]), "KXYZ") ==
            FetchAtisResponse("A/C", ["INFO A", "INFO C"])
  {
    var arr := Atis("KXYZ_A_ATIS", Some("A"), Some(["INFO A"]));
    var dep := Atis("KXYZ_D_ATIS", Some("C"), Some(["INFO C"]));
    BothFound(arr, dep, "KXYZ");
    SplitLetter(arr, dep);
    SplitTexts(arr, dep);
  }

  lemma SplitLetter(arr: Atis, dep: Atis)
    requires arr == Atis("KXYZ_A_ATIS", Some("A"), Some(["INFO A"]))
    requires dep == Atis("KXYZ_D_ATIS", Some("C"), Some(["INFO C"]))
    ensures Letter([arr, dep]) == "A/C"
  {
    var feed := [arr, dep];
    assert IsFirstContaining(feed, ArrivalTag, 0) by {
      assert OccursAt(arr.callsign, ArrivalTag, 4);
    }
    assert IsFirstContaining(feed, DepartureTag, 1) by {
      assert OccursAt(dep.callsign, DepartureTag, 4);
      NoTag(arr.callsign, DepartureTag);
    }
    assert InfoPattern + ['A'] == "INFO A" && InfoPattern + ['C'] == "INFO C";
    AgreeingLetter(arr, 'A');
    AgreeingLetter(dep, 'C');
  }

  lemma SplitTexts(arr: Atis, dep: Atis)
    requires arr == Atis("KXYZ_A_ATIS", Some("A"), Some(["INFO A"]))
    requires dep == Atis("KXYZ_D_ATIS", Some("C"), Some(["INFO C"]))
    ensures Texts([arr, dep]) == ["INFO A", "INFO C"]
  {
    assert Join(["INFO A"]) == "INFO A";
    assert Join(["INFO C"]) == "INFO C";
    assert [arr, dep][1..] == [dep];
    assert [dep][1..] == [];
  }

  /** Two broadcasts but no departure stream: `A/-`. */
  lemma MissingDeparture()
    ensures ResolveAtis(V3ResponseData([Atis("KXYZ_A_ATIS", Some("A"), None),
                                        Atis("KXYZ_ATIS", Some("B"), None)]), "KXYZ").letter == "A/-"
  {
    var arr := Atis("KXYZ_A_ATIS", Some("A"), None);
    var other := Atis("KXYZ_ATIS", Some("B"), None);
    BothFound(arr, other, "KXYZ");
    MissingDepartureLetter(arr, other);
  }

  lemma MissingDepartureLetter(arr: Atis, other: Atis)
    requires arr == Atis("KXYZ_A_ATIS", Some("A"), None)
    requires other == Atis("KXYZ_ATIS", Some("B"), None)
    ensures Letter([arr, other]) == "A/-"
  {
    assert IsFirstContaining([arr, other], ArrivalTag, 0) by {
      assert OccursAt(arr.callsign, ArrivalTag, 4);
    }
    NoTag(arr.callsign, DepartureTag);
    NoTag(other.callsign, DepartureTag);
  }

  /** Two broadcasts that both belong to the airport are both selected, in order. */
  lemma BothFound(a: Atis, b: Atis, icao: string)
    requires StartsWith(a.callsign, icao) && StartsWith(b.callsign, icao)
    ensures FoundAtis([a, b], icao) == [a, b]
  {
    assert [a, b][1..] == [b];
    assert [b][1..] == [];
  }

  /** A one-letter code that agrees with a text `INFO <code>` gives the code. */
  lemma AgreeingLetter(a: Atis, c: char)
    requires IsUpper(c) && a.atisCode == Some([c]) && a.textAtis == Some([InfoPattern + [c]])
    ensures ParseAtisCode(a) == [c]
  {
    InfoLetterExample(InfoPattern + [c], c);
  }

  /** A callsign without the given three-character tag. */
  lemma NoTag(callsign: string, tag: string)
    requires |tag| == 3 && tag[0] == '_' && tag[2] == '_'
    requires forall i :: 0 <= i <= |callsign| - 3 && callsign[i] == '_' ==> callsign[i + 1] != tag[1] || callsign[i + 2] != '_'
    ensures !Contains(callsign, tag)
  {
    forall i | 0 <= i <= |callsign| - |tag| ensures !OccursAt(callsign, tag, i) {
      if callsign[i] != '_' {
        MismatchAt(callsign, tag, i, 0);
      } else if callsign[i + 1] != tag[1] {
        MismatchAt(callsign, tag, i, 1);
      } else {
        MismatchAt(callsign, tag, i, 2);
      }
    }
  }
}
