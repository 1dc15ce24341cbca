/** The reverse direction, `DCATNFDi4ChemProfile.parse_dataset`
    (ckanext/dcat/profiles/dcat_ap_plus.py:67-76): a handful of fields are
    read back from the dataset node into the caller's dictionary, which is
    otherwise left alone. */
module Parse {
  import opened Wrappers
  import opened Rdf

  /** No element occurs twice: an rdflib graph never holds a triple twice. */
  predicate Distinct<T(==)>(s: seq<T>) {
    forall i, j :: 0 <= i < j < |s| ==> s[i] != s[j]
  }

  /** Without repetitions, the head is not in the tail and the tail has
      no repetitions either. */
  lemma DistinctTail<T>(s: seq<T>)
    requires |s| > 0
    ensures Distinct(s) ==> Distinct(s[1..]) && s[0] !in s[1..]
  {
    if Distinct(s) {
      forall j | 0 <= j < |s[1..]| ensures s[1..][j] != s[0] {
        assert s[1..][j] == s[j + 1];
      }
    }
  }

  /** The objects of `(s, p, _)` triples, in the graph's iteration order
      (rdflib's `Resource.objects`). The graph is given as the sequence in
      which rdflib yields its triples. Each matching triple contributes its
      object once, so a graph without repeated triples gives objects
      without repetition. */
  function Objects(g: seq<Triple>, s: Term, p: Term): (r: seq<Term>)
    ensures |r| <= |g|
    ensures forall i :: 0 <= i < |r| ==> Triple(s, p, r[i]) in g
    ensures forall t :: t in g && t.subj == s && t.pred == p ==> t.obj in r
    ensures Distinct(g) ==> Distinct(r)
  {
    if |g| == 0 then
      []
    else
      var rest := Objects(g[1..], s, p);
      assert forall t :: t in g ==> t == g[0] || t in g[1..];
      DistinctTail(g);
      if g[0].subj == s && g[0].pred == p then [g[0].obj] + rest else rest
  }

  /** rdflib's `Resource.value(p)`: an object of some `(s, p, _)` triple,
      the first one met, or `None` when there is none. */
  function Value(g: seq<Triple>, s: Term, p: Term): (r: Option<Term>)
    ensures r.Some? <==> exists t :: t in g && t.subj == s && t.pred == p
    ensures r.Some? ==> Triple(s, p, r.value) in g
  {
    var objects := Objects(g, s, p);
    if |objects| == 0 then None else Some(objects[0])
  }

  /** A dictionary value written by the parser: one text, or a list of
      texts. `None` stands for Python's `str(None)`. */
  datatype Field = Text(text: Option<string>) | Texts(items: seq<Option<string>>)

  /** The dataset dictionary as the parser sees it. */
  type Dict = map<string, Field>

  /** The single-text keys the parser writes, and all keys it writes. */
  const TextKeys: set<string> := {"title", "notes", "doi"}
  const ParsedKeys: set<string> := TextKeys + {"language"}

  /** How `parse_dataset` ends. It returns the updated dictionary, or it
      raises `TypeError` when some theme is a literal: rdflib hands a
      literal object back as the literal itself, whose `value` is its
      Python value and cannot be called. The dictionary is updated in
      place, so when the call raises, the caller's dictionary already holds
      the new title, notes and doi, and its language is untouched. */
  datatype Parsing = Parsed(dict: Dict) | ThemeIsLiteral(dict: Dict)

  /** `str(...)` of an optional term. */
  function TextOf(t: Option<Term>): (r: Option<string>)
    ensures r.Some? <==> t.Some?
    ensures t.Some? ==> r.value == TermText(t.value)
  {
    match t
    case Some(x) => Some(TermText(x))
    case None => None
  }

  /** `v` is what the node's `p` holds: absent exactly when the node has
      no `p`, otherwise the text of one of its `p` objects. */
  predicate Holds(g: seq<Triple>, node: Term, p: Term, v: Option<string>) {
    && (v.Some? <==> exists t :: t in g && t.subj == node && t.pred == p)
    && (v.Some? ==> exists t :: t in g && t.subj == node && t.pred == p && TermText(t.obj) == v.value)
  }

  /** A single-text field read from the node's `p`. */
  predicate ReadFrom(g: seq<Triple>, node: Term, p: Term, f: Field) {
    f.Text? && Holds(g, node, p, f.text)
  }

  /** `str(node.value(p))`: the text of the node's `p`. */
  function ReadText(g: seq<Triple>, node: Term, p: Term): (f: Field)
    ensures ReadFrom(g, node, p, f)
  {
    Text(TextOf(Value(g, node, p)))
  }

  /** The theme labels: one entry per theme of the node, in order, each
      the preferred label of that theme, if it has one. */
  function ThemeLabels(g: seq<Triple>, themes: seq<Term>): (r: seq<Option<string>>)
    ensures |r| == |themes|
    ensures forall i :: 0 <= i < |themes| ==> Holds(g, themes[i], SkosPrefLabel, r[i])
  {
    seq(|themes|, i requires 0 <= i < |themes| => TextOf(Value(g, themes[i], SkosPrefLabel)))
  }

  /** The first three assignments of `parse_dataset`: `title`, `notes` and
      `doi` read from the node, every other entry kept. */
  function WriteTexts(dict: Dict, g: seq<Triple>, node: Term): (w: Dict)
    ensures w.Keys == dict.Keys + TextKeys
    ensures forall k :: k in dict && k !in TextKeys ==> w[k] == dict[k]
    ensures ReadFrom(g, node, DctTitle, w["title"])
    ensures ReadFrom(g, node, DctDescription, w["notes"])
    ensures ReadFrom(g, node, DctIdentifier, w["doi"])
  {
    dict["title" := ReadText(g, node, DctTitle)]
        ["notes" := ReadText(g, node, DctDescription)]
        ["doi" := ReadText(g, node, DctIdentifier)]
  }

  /** Some of the terms is a literal. */
  predicate SomeLiteral(ts: seq<Term>) {
    exists i :: 0 <= i < |ts| && ts[i].Lit?
  }

  /** `parse_dataset`: overwrites `title`, `notes` and `doi` with the
      node's title, description and identifier, and then `language` with
      the labels of its themes, one per theme, unless some theme is a
      literal, which raises. Every other key keeps its value and no key is
      dropped. */
  function ParseDataset(dict: Dict, g: seq<Triple>, node: Term): (r: Parsing)
    ensures var themes := Objects(g, node, DcatTheme);
            r.ThemeIsLiteral? <==> SomeLiteral(themes)
    ensures r.Parsed? ==> r.dict.Keys == dict.Keys + ParsedKeys
    ensures r.ThemeIsLiteral? ==> r.dict.Keys == dict.Keys + TextKeys
    ensures forall k :: k in dict && k !in ParsedKeys ==> r.dict[k] == dict[k]
    ensures r.ThemeIsLiteral? ==> forall k :: k in dict && k !in TextKeys ==> r.dict[k] == dict[k]
    ensures ReadFrom(g, node, DctTitle, r.dict["title"])
    ensures ReadFrom(g, node, DctDescription, r.dict["notes"])
    ensures ReadFrom(g, node, DctIdentifier, r.dict["doi"])
    ensures r.Parsed? ==>
              var themes := Objects(g, node, DcatTheme);
              && r.dict["language"].Texts?
              && |r.dict["language"].items| == |themes|
              && (Distinct(g) ==> Distinct(themes))
              && forall i :: 0 <= i < |themes| ==>
                   Holds(g, themes[i], SkosPrefLabel, r.dict["language"].items[i])
  {
    var written := WriteTexts(dict, g, node);
    var themes := Objects(g, node, DcatTheme);
    if SomeLiteral(themes) then
      ThemeIsLiteral(written)
    else
      Parsed(written["language" := Texts(ThemeLabels(g, themes))])
  }

  /** Parsing again with the same graph changes nothing more, whether the
      first call returned or raised: the parser only writes values read
      from the graph. */
  lemma ParseDatasetIdempotent(dict: Dict, g: seq<Triple>, node: Term)
    ensures ParseDataset(ParseDataset(dict, g, node).dict, g, node) == ParseDataset(dict, g, node)
  {
  }
}
