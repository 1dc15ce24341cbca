/** The field normaliser of the profile: free-text language names become
    ISO 639-1 codes, the author string becomes an ordered list of agents,
    and missing fields get their fixed fallbacks
    (ckanext/dcat/profiles/dcat_ap_plus.py, `graph_from_dataset`). */
module Normalize {
  import opened Wrappers
  import opened Text
  import opened Entities

  /** Python's `value or fallback` for an optional string field: the value
      when it is present and non-empty, the fallback otherwise. */
  function OrElse(value: Option<string>, fallback: string): (r: string)
    ensures value.Some? && value.value != "" ==> r == value.value
    ensures value.None? || value.value == "" ==> r == fallback
  {
    if value.Some? && value.value != "" then value.value else fallback
  }

  // ---------------------------------------------------------------------
  // Language
  // ---------------------------------------------------------------------

  /** Labels that name English, after stripping and lower-casing. */
  const EnglishLabels: set<string> := {"english", "en", "en-us", "en-gb", "eng"}

  /** Labels that name German, after stripping and lower-casing. */
  const GermanLabels: set<string> := {"deutsch", "german", "de"}

  /** The code used when no language is given. */
  const DefaultLanguage: string := "en"

  /** `(language or '').strip().lower()`: the form in which the raw
      language field is compared against the known labels. */
  function LanguageKey(raw: Option<string>): (key: string)
    ensures IsStripped(key) && IsLower(key)
    ensures key == Strip(Lower(raw.GetOr("")))
  {
    var stripped := Strip(raw.GetOr(""));
    LowerKeepsStripped(stripped);
    StripLowerCommute(raw.GetOr(""));
    Lower(stripped)
  }

  /** The code for a normalised label: English and German labels are
      recognised, any other non-empty label is taken to be a code
      already, and the empty label means English. */
  function CodeOfKey(key: string): (code: string)
    ensures code != ""
    ensures code == "en" <==> key in EnglishLabels || key == ""
    ensures code == "de" <==> key in GermanLabels
    ensures key !in EnglishLabels + GermanLabels && key != "" ==> code == key
    ensures IsStripped(key) && IsLower(key) ==> IsStripped(code) && IsLower(code)
  {
    if key in EnglishLabels then "en"
    else if key in GermanLabels then "de"
    else if key != "" then key
    else DefaultLanguage
  }

  /** The ISO 639-1 code of the dataset's language. Total and permissive:
      whatever the label, a code results, it is never empty and it is
      itself in normal form (stripped, lower case). */
  function LanguageCode(raw: Option<string>): (code: string)
    ensures code != ""
    ensures IsStripped(code) && IsLower(code)
    ensures code == "en" || code == "de" || code == LanguageKey(raw)
  {
    CodeOfKey(LanguageKey(raw))
  }

  /** Normalising a code again leaves it unchanged. */
  lemma {:induction false} LanguageCodeIdempotent(raw: Option<string>)
    ensures LanguageCode(Some(LanguageCode(raw))) == LanguageCode(raw)
  {
    var code := LanguageCode(raw);
    StripStripped(code);
    LowerOfLower(code);
    assert LanguageKey(Some(code)) == code;
    if code == "en" {
      assert code in EnglishLabels;
    } else if code == "de" {
      assert code in GermanLabels;
    }
  }

  /** Case and surrounding whitespace of the label do not matter. */
  lemma {:induction false} LanguageCodeIgnoresCaseAndPadding(s: string)
    ensures LanguageCode(Some(Lower(s))) == LanguageCode(Some(s))
    ensures LanguageCode(Some(Strip(s))) == LanguageCode(Some(s))
  {
    StripLowerCommute(s);
    LowerOfLower(Lower(Strip(s)));
    assert LanguageKey(Some(Lower(s))) == LanguageKey(Some(s));
    StripStripped(Strip(s));
    assert LanguageKey(Some(Strip(s))) == LanguageKey(Some(s));
  }

  /** A label already in normal form is looked up as it is. */
  lemma LanguageCodeOfNormalLabel(key: string)
    requires IsStripped(key) && IsLower(key)
    ensures LanguageCode(Some(key)) == CodeOfKey(key)
  {
    StripStripped(key);
    LowerOfLower(key);
  }

  // ---------------------------------------------------------------------
  // Creators
  // ---------------------------------------------------------------------

  /** The secondary author separator and what it is rewritten to. */
  const NameBreak: string := "., "
  const NameBreakRewrite: string := ".|"

  /** The author separator. */
  const AuthorSep: char := '|'

  /** The name of the placeholder agent used when no author is given. */
  const NoAuthor: string := "NA"

  /** `author.replace('., ', '.|')`. It keeps the first character, since
      both "., " and its rewrite start with '.', and never lengthens the
      string. */
  function RewriteBreaks(author: string): (r: string)
    ensures |r| <= |author|
    ensures |author| > 0 ==> |r| > 0 && r[0] == author[0]
  {
    Replace(author, NameBreak, NameBreakRewrite)
  }

  /** The agents' names, in order. */
  function Names(agents: seq<Agent>): (names: seq<string>)
    ensures |names| == |agents|
    ensures forall i :: 0 <= i < |agents| ==> names[i] == agents[i].name
  {
    seq(|agents|, i requires 0 <= i < |agents| => agents[i].name)
  }

  /** The creators of the dataset. Never empty: without an author there is
      the single placeholder agent "NA"; otherwise one agent per piece of
      the rewritten author string between separators, in order, empty
      pieces included, so that the names joined by '|' give back the
      rewritten string. */
  function Creators(author: Option<string>): (r: seq<Agent>)
    ensures |r| >= 1
    ensures author.None? || author.value == "" ==> r == [Agent(NoAuthor)]
    ensures author.Some? && author.value != "" ==>
              && |r| == Count(RewriteBreaks(author.value), AuthorSep) + 1
              && (forall i :: 0 <= i < |r| ==> AuthorSep !in r[i].name)
              && Join(Names(r), AuthorSep) == RewriteBreaks(author.value)
  {
    if author.Some? && author.value != "" then
      var parts := Split(RewriteBreaks(author.value), AuthorSep);
      var agents := seq(|parts|, i requires 0 <= i < |parts| => Agent(parts[i]));
      assert Names(agents) == parts;
      JoinSplit(RewriteBreaks(author.value), AuthorSep);
      agents
    else
      [Agent(NoAuthor)]
  }

  /** Occurrences of "., " in `s`, counted left to right without overlap. */
  function NameBreaks(s: string): nat
    decreases |s|
  {
    if |s| >= 3 && s[..3] == NameBreak then 1 + NameBreaks(s[3..])
    else if |s| == 0 then 0
    else NameBreaks(s[1..])
  }

  /** "., " at position `i` of `s`. */
  predicate NameBreakAt(s: string, i: int) {
    0 <= i && i + 3 <= |s| && s[i] == '.' && s[i + 1] == ',' && s[i + 2] == ' '
  }

  /** A string starts with "., " exactly when there is a break at 0. */
  lemma StartsWithNameBreak(s: string)
    ensures (|s| >= 3 && s[..3] == NameBreak) <==> NameBreakAt(s, 0)
  {
    if NameBreakAt(s, 0) {
      assert s[..3] == NameBreak;
    }
  }

  /** Rewriting keeps the first character: both the pattern and its
      replacement start with '.'. */
  lemma RewriteKeepsHead(s: string)
    requires |s| > 0
    ensures |RewriteBreaks(s)| > 0 && RewriteBreaks(s)[0] == s[0]
  {
  }

  /** "., " holds no '|' and its rewrite holds one. */
  lemma BreakSeparators()
    ensures Count(NameBreak, AuthorSep) == 0 && Count(NameBreakRewrite, AuthorSep) == 1
  {
    CountCons('.', ", ", AuthorSep);
    CountCons(',', " ", AuthorSep);
    CountCons(' ', "", AuthorSep);
    CountCons('.', "|", AuthorSep);
    CountCons('|', "", AuthorSep);
  }

  /** Each rewritten break adds exactly one separator. */
  lemma {:induction false} RewriteCountsSeparators(s: string)
    ensures Count(RewriteBreaks(s), AuthorSep) == Count(s, AuthorSep) + NameBreaks(s)
    decreases |s|
  {
    if |s| >= 3 && s[..3] == NameBreak {
      RewriteCountsSeparators(s[3..]);
      assert s == NameBreak + s[3..];
      CountAppend(NameBreak, s[3..], AuthorSep);
      CountAppend(NameBreakRewrite, RewriteBreaks(s[3..]), AuthorSep);
      BreakSeparators();
    } else if |s| > 0 {
      RewriteCountsSeparators(s[1..]);
      assert s == [s[0]] + s[1..];
      CountCons(s[0], s[1..], AuthorSep);
      CountCons(s[0], RewriteBreaks(s[1..]), AuthorSep);
    }
  }

  /** Behind a prefix of length `k`, a break in `p + rest` at `i` is a
      break in `rest` at `i - k`. */
  lemma NameBreakBehind(p: string, rest: string, i: int)
    requires i >= |p|
    ensures NameBreakAt(p + rest, i) <==> NameBreakAt(rest, i - |p|)
  {
  }

  /** The rewrite is exhaustive: no "., " survives it. */
  lemma {:induction false} RewriteLeavesNoBreak(s: string)
    ensures forall i :: !NameBreakAt(RewriteBreaks(s), i)
    decreases |s|
  {
    var r := RewriteBreaks(s);
    StartsWithNameBreak(s);
    if NameBreakAt(s, 0) {
      RewriteLeavesNoBreak(s[3..]);
      var rest := RewriteBreaks(s[3..]);
      assert r == NameBreakRewrite + rest;
      forall i ensures !NameBreakAt(r, i) {
        if i >= 2 {
          NameBreakBehind(NameBreakRewrite, rest, i);
        }
      }
    } else if |s| > 0 {
      RewriteLeavesNoBreak(s[1..]);
      var rest := RewriteBreaks(s[1..]);
      assert r == [s[0]] + rest;
      forall i ensures !NameBreakAt(r, i) {
        if i >= 1 {
          NameBreakBehind([s[0]], rest, i);
        } else if i == 0 && |s| >= 2 {
          // r is s[0], s[1] and then the head of the rewritten tail
          RewriteKeepsHead(s[1..]);
          if s[1] == ',' {
            var tail := s[2..];
            assert s[1..] == [s[1]] + tail;
            StartsWithNameBreak(s[1..]);
            assert rest == [s[1]] + RewriteBreaks(tail);
            if |tail| > 0 {
              RewriteKeepsHead(tail);
            }
          }
        }
      }
    }
  }

  /** Without any "., " the rewrite changes nothing. */
  lemma {:induction false} RewriteWithoutBreaks(s: string)
    requires forall i :: !NameBreakAt(s, i)
    ensures RewriteBreaks(s) == s
    decreases |s|
  {
    if |s| > 0 {
      StartsWithNameBreak(s);
      assert forall i :: NameBreakAt(s[1..], i) ==> NameBreakAt(s, i + 1);
      RewriteWithoutBreaks(s[1..]);
    }
  }

  /** The rewrite turns the first "., " into a full stop and a pipe: the
      text before it is kept, the full stop stays, the comma and the space
      become the pipe, and the rest is rewritten in turn. */
  lemma {:induction false} RewriteFirstBreak(a: string, b: string)
    requires forall i :: 0 <= i < |a| ==> !NameBreakAt(a + NameBreak, i)
    ensures RewriteBreaks(a + NameBreak + b) == a + NameBreakRewrite + RewriteBreaks(b)
    decreases |a|
  {
    var s := a + NameBreak + b;
    if |a| == 0 {
      assert s == NameBreak + b;
      assert s[..3] == NameBreak && s[3..] == b;
    } else {
      assert !NameBreakAt(a + NameBreak, 0);
      assert !NameBreakAt(s, 0);
      StartsWithNameBreak(s);
      assert s[1..] == a[1..] + NameBreak + b;
      forall i | 0 <= i < |a[1..]| ensures !NameBreakAt(a[1..] + NameBreak, i) {
        assert !NameBreakAt(a + NameBreak, i + 1);
      }
      RewriteFirstBreak(a[1..], b);
      assert a == [a[0]] + a[1..];
    }
  }

  /** The number of creators is one more than the number of '|' plus the
      number of "., " in the author string. */
  lemma {:induction false} CreatorsCount(author: string)
    requires author != ""
    ensures |Creators(Some(author))| == Count(author, AuthorSep) + NameBreaks(author) + 1
  {
    RewriteCountsSeparators(author);
  }

  /** The creators are exactly the '|'-separated pieces of the rewritten
      author string: splitting is undone by joining the names. */
  lemma {:induction false} CreatorsArePieces(author: string, names: seq<string>)
    requires author != ""
    requires |names| >= 1
    requires forall i :: 0 <= i < |names| ==> AuthorSep !in names[i]
    requires Join(names, AuthorSep) == RewriteBreaks(author)
    ensures Names(Creators(Some(author))) == names
  {
    JoinInjective(Names(Creators(Some(author))), names, AuthorSep);
  }

  /** Round trip: an author string built by joining '|'-free names with
      '|' (and holding no "., ") yields one creator per name, in order. */
  lemma {:induction false} CreatorsOfJoinedNames(names: seq<string>)
    requires |names| >= 1
    requires forall i :: 0 <= i < |names| ==> AuthorSep !in names[i]
    requires Join(names, AuthorSep) != ""
    requires forall i :: !NameBreakAt(Join(names, AuthorSep), i)
    ensures Names(Creators(Some(Join(names, AuthorSep)))) == names
  {
    RewriteWithoutBreaks(Join(names, AuthorSep));
    CreatorsArePieces(Join(names, AuthorSep), names);
  }
}
