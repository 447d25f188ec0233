/** Which texts carry a forbidden marker. */
module Markers {
  import opened PatchText

  /** The character is the letter of the marker, in either case. */
  predicate Matches(c: char, m: char) {
    c == m || ('a' <= m <= 'z' && c as int == m as int - 32)
  }

  /** The text spells the marker at a place, up to the case of ASCII letters. */
  predicate Spells(text: string, at: nat, marker: string) {
    at + |marker| <= |text| && forall k :: 0 <= k < |marker| ==> Matches(text[at + k], marker[k])
  }

  predicate NoCapitals(marker: string) {
    forall k :: 0 <= k < |marker| ==> !('A' <= marker[k] <= 'Z')
  }

  lemma ContainsMeansSpells(text: string, marker: string)
    requires NoCapitals(marker)
    ensures Contains(Lower(text), marker) <==> exists at :: Spells(text, at, marker)
  {
    var lowered := Lower(text);
    if at :| 0 <= at <= |lowered| && marker <= lowered[at..] {
      forall k | 0 <= k < |marker|
        ensures Matches(text[at + k], marker[k])
      {
        assert lowered[at..][k] == lowered[at + k] == LowerChar(text[at + k]);
      }
      assert Spells(text, at, marker);
    }
    if at: nat :| Spells(text, at, marker) {
      forall k | 0 <= k < |marker|
        ensures lowered[at..][k] == marker[k]
      {
        assert Matches(text[at + k], marker[k]);
      }
      assert marker == lowered[at..][..|marker|];
    }
  }

  /** One of the six markers stands in the text. */
  ghost predicate ShowsAMarker(text: string) {
    || (exists at :: Spells(text, at, "git binary patch"))
    || (exists at :: Spells(text, at, "binary files "))
    || (exists at :: Spells(text, at, "new file mode 120000"))
    || (exists at :: Spells(text, at, "old mode 120000"))
    || (exists at :: Spells(text, at, "new file mode 160000"))
    || (exists at :: Spells(text, at, "old mode 160000"))
  }

  lemma MarkersAreLowerCase()
    ensures NoCapitals("git binary patch") && NoCapitals("binary files ")
    ensures NoCapitals("new file mode 120000") && NoCapitals("old mode 120000")
    ensures NoCapitals("new file mode 160000") && NoCapitals("old mode 160000")
  {
  }

  lemma SixMarkers(text: string)
    ensures HasForbiddenMarker(text) <==>
              || Contains(Lower(text), "git binary patch") || Contains(Lower(text), "binary files ")
              || Contains(Lower(text), "new file mode 120000") || Contains(Lower(text), "old mode 120000")
              || Contains(Lower(text), "new file mode 160000") || Contains(Lower(text), "old mode 160000")
  {
    hide Contains, Lower;
    assert FORBIDDEN_MARKERS[0] == "git binary patch" && FORBIDDEN_MARKERS[1] == "binary files ";
    assert FORBIDDEN_MARKERS[2] == "new file mode 120000" && FORBIDDEN_MARKERS[3] == "old mode 120000";
    assert FORBIDDEN_MARKERS[4] == "new file mode 160000" && FORBIDDEN_MARKERS[5] == "old mode 160000";
  }

  lemma MarkerMeansSpelled(text: string)
    ensures HasForbiddenMarker(text) <==> ShowsAMarker(text)
  {
    hide HasForbiddenMarker, Contains, NoCapitals, Spells, Lower;
    SixMarkers(text);
    MarkersAreLowerCase();
    ContainsMeansSpells(text, "git binary patch");
    ContainsMeansSpells(text, "binary files ");
    ContainsMeansSpells(text, "new file mode 120000");
    ContainsMeansSpells(text, "old mode 120000");
    ContainsMeansSpells(text, "new file mode 160000");
    ContainsMeansSpells(text, "old mode 160000");
  }

  lemma HeadingMatches()
    ensures forall k :: 0 <= k < 16 ==> Matches("GIT binary patch"[k], "git binary patch"[k])
  {
  }

  /** Git's own heading of a binary patch, wherever it stands. */
  lemma HeadingSpells(before: string, after: string)
    ensures Spells(before + "GIT binary patch" + after, |before|, "git binary patch")
  {
    hide Matches;
    var text := before + "GIT binary patch" + after;
    HeadingMatches();
    assert forall k :: 0 <= k < 16 ==> text[|before| + k] == "GIT binary patch"[k];
  }
}
