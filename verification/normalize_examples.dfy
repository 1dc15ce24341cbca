/** Worked examples of the field normaliser on concrete inputs: the
    typical language labels and a two-author string. */
module NormalizeExamples {
  import opened Wrappers
  import opened Text
  import opened Normalize

  // ---------------------------------------------------------------------
  // Language labels
  // ---------------------------------------------------------------------

  lemma EnglishIsNormal()
    ensures LanguageCode(Some("english")) == "en"
  {
    LanguageCodeOfNormalLabel("english");
  }

  lemma LowerEnglish()
    ensures Lower("English") == "english"
  {
  }

  /** "English" gives "en". */
  lemma LanguageCodeEnglishExample()
    ensures LanguageCode(Some("English")) == "en"
  {
    LanguageCodeIgnoresCaseAndPadding("English");
    LowerEnglish();
    EnglishIsNormal();
  }

  lemma BritishIsNormal()
    ensures LanguageCode(Some("en-gb")) == "en"
  {
    LanguageCodeOfNormalLabel("en-gb");
  }

  lemma LowerBritish()
    ensures Lower("en-GB") == "en-gb"
  {
  }

  /** A regional English label, "en-GB", gives "en". */
  lemma LanguageCodeBritishExample()
    ensures LanguageCode(Some("en-GB")) == "en"
  {
    LanguageCodeIgnoresCaseAndPadding("en-GB");
    LowerBritish();
    BritishIsNormal();
  }

  /** An empty or a missing label gives the default "en". */
  lemma LanguageCodeDefaultExample()
    ensures LanguageCode(Some("")) == "en"
    ensures LanguageCode(None) == "en"
  {
    LanguageCodeOfNormalLabel("");
  }

  lemma GermanIsNormal()
    ensures LanguageCode(Some("german")) == "de"
  {
    LanguageCodeOfNormalLabel("german");
  }

  lemma LowerGerman()
    ensures Lower("German") == "german"
  {
  }

  /** "German" gives "de". */
  lemma LanguageCodeGermanExample()
    ensures LanguageCode(Some("German")) == "de"
  {
    LanguageCodeIgnoresCaseAndPadding("German");
    LowerGerman();
    GermanIsNormal();
  }

  lemma FrenchIsNormal()
    ensures LanguageCode(Some("fr")) == "fr"
  {
    LanguageCodeOfNormalLabel("fr");
  }

  lemma LowerPaddedFrench()
    ensures Lower(" FR ") == " fr "
  {
  }

  lemma StripPaddedFrench()
    ensures Strip(" fr ") == "fr"
  {
    assert SkipForward(" fr ", 1) == 1;
    assert SkipBackward(" fr ", 3) == 3;
  }

  /** An unknown code passes through in normal form: " FR " gives "fr". */
  lemma LanguageCodePassThroughExample()
    ensures LanguageCode(Some(" FR ")) == "fr"
  {
    LanguageCodeIgnoresCaseAndPadding(" FR ");
    LowerPaddedFrench();
    LanguageCodeIgnoresCaseAndPadding(" fr ");
    StripPaddedFrench();
    FrenchIsNormal();
  }

  // ---------------------------------------------------------------------
  // Authors
  // ---------------------------------------------------------------------

  lemma ExampleSingleAuthorHasNoBreak()
    ensures forall i :: !NameBreakAt("Smith, J.", i)
  {
  }

  lemma ExampleAuthorHasNoBreak()
    ensures forall i :: !NameBreakAt("Smith, J.|Doe, A.", i)
  {
  }

  /** "Smith, J.|Doe, A." gives two agents, "Smith, J." and "Doe, A.":
      the comma inside a name is not a break, only "., " is. */
  lemma CreatorsExample()
    ensures Names(Creators(Some("Smith, J.|Doe, A."))) == ["Smith, J.", "Doe, A."]
  {
    var names := ["Smith, J.", "Doe, A."];
    assert Join(names, AuthorSep) == "Smith, J.|Doe, A.";
    ExampleAuthorHasNoBreak();
    CreatorsOfJoinedNames(names);
  }

  lemma BreakExampleParts()
    ensures "Smith, J" + NameBreak + "Doe, A." == "Smith, J., Doe, A."
  {
  }

  lemma BreakExampleRewriteParts()
    ensures "Smith, J" + NameBreakRewrite + "Doe, A." == "Smith, J.|Doe, A."
  {
  }

  lemma BreakExampleHeadHasNoEarlierBreak()
    ensures forall i :: 0 <= i < |"Smith, J"| ==> !NameBreakAt("Smith, J" + NameBreak, i)
  {
    assert "Smith, J" + NameBreak == "Smith, J., ";
  }

  lemma SecondAuthorHasNoBreak()
    ensures forall i :: !NameBreakAt("Doe, A.", i)
  {
  }

  /** "Smith, J., Doe, A." is rewritten to "Smith, J.|Doe, A.": the full
      stop of the initial stays, the comma and space become the pipe. */
  lemma BreakExampleRewrite()
    ensures RewriteBreaks("Smith, J., Doe, A.") == "Smith, J.|Doe, A."
  {
    BreakExampleHeadHasNoEarlierBreak();
    RewriteFirstBreak("Smith, J", "Doe, A.");
    SecondAuthorHasNoBreak();
    RewriteWithoutBreaks("Doe, A.");
    BreakExampleParts();
    BreakExampleRewriteParts();
  }

  lemma TwoNamesJoin()
    ensures Join(["Smith, J.", "Doe, A."], AuthorSep) == "Smith, J.|Doe, A."
    ensures AuthorSep !in "Smith, J." && AuthorSep !in "Doe, A."
  {
    assert Join(["Smith, J.", "Doe, A."], AuthorSep) == "Smith, J." + [AuthorSep] + "Doe, A.";
  }

  /** "Smith, J., Doe, A." also gives the two agents "Smith, J." and
      "Doe, A.": the secondary break separates authors like a pipe. */
  lemma CreatorsBreakExample()
    ensures Names(Creators(Some("Smith, J., Doe, A."))) == ["Smith, J.", "Doe, A."]
  {
    var names := ["Smith, J.", "Doe, A."];
    TwoNamesJoin();
    BreakExampleRewrite();
    CreatorsArePieces("Smith, J., Doe, A.", names);
  }
}
