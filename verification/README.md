# NFDI4Chem DCAT-AP profile: record-to-graph mapping, modelled in Dafny

This project models `DCATNFDi4ChemProfile` from
`ckanext/dcat/profiles/dcat_ap_plus.py`, a profile of the CKAN DCAT
extension. It has two directions:

- **Forward, `graph_from_dataset`.** A flat CKAN dataset dictionary becomes a
  fixed provenance chain of typed entities:
  - dataset → analysis → spectrum → optional measurement
  - dataset → sample → four qualitative attributes

  Each root entity is handed to a schema-driven serialiser. If every call
  succeeds, the serialised triples and five hand-built triples are added to
  the caller's graph. These hand-built triples express:
  - the conformance to the nmrXiv standard, through a fresh blank node
  - the dataset's language, as an ISO 639-1 code IRI of the Library of
    Congress vocabulary
- **Reverse, `parse_dataset`.** The title, description, identifier and
  theme labels of a graph node are copied back into the dictionary. A
  theme that is a literal makes the call raise after the three texts are
  written.

Modules, leaves first:

- `Wrappers` (wrappers.dfy): `Option` and `Result`.
- `Text` (text.dfy): the parts of Python's `str` the profile uses.
  - `strip` uses the full `str.isspace` set.
  - `lower` covers ASCII letters only.
  - `replace` scans left to right without overlap.
  - `split` is for a one-character separator.
  - The module also proves what the mapping relies on: `strip` is
    idempotent and commutes with `lower`, and `split` and `'|'.join` are
    inverses.
- `Rdf` (rdf.dfy): terms, triples, graphs as sets of triples, and the
  vocabulary IRIs.
- `Entities` (entities.dfy): the slots of the application-profile classes
  that the mapping fills in.
- `Normalize` (normalize.dfy): the language code, the creator list and the
  `value or fallback` defaults.
- `Mapper` (mapper.dfy): the id derivation and the construction of the
  entity chain.
- `Assembler` (assembler.dfy): serialisation of each root entity and the
  all-or-nothing, additive update of the caller's graph.
- `Parse` (parse.dfy): `parse_dataset`.
- `NormalizeExamples` (normalize_examples.dfy) and `Scenario`
  (scenario.dfy): worked examples, including the end-to-end scenario of a
  record with an internal id, one author, an English label and a URL.

Inputs the code does not control are parameters:

- The LinkML serialiser (`RDFLibDumper` with its `SchemaView`) is a
  function `Dumper = Root -> Option<Graph>`. `None` is its `ValueError`.
- The blank node minted by `BNode()` is a parameter `standardNode`.
- The graph read by `parse_dataset` is a sequence of triples, in rdflib's
  iteration order.

Python's dictionary conventions are modelled as follows:

- A missing key is `None`.
- `dict.get(k)` used as a condition is true exactly when the key is
  present and its value is non-empty (`Has`).
- A missing `id` when there is no DOI is the `AttributeError` that
  `None.strip()` raises. It is modelled as the mapping error `MissingId`,
  and the graph is left unchanged.

The model follows the code at these points, where a reader might expect
otherwise:

- Note that the code does not pass unknown language labels through
  unchanged: it strips and lower-cases them first, so " FR " gives "fr".
- The creator list keeps empty pieces. `"a||b"` gives three agents, the
  middle one named "". It does not give one agent per non-empty piece.
- The secondary author break is `"., "`, not `", "`.
  - "Smith, J." stays one author.
  - "Smith, J., Doe, A." becomes "Smith, J." and "Doe, A."
    (`CreatorsBreakExample`).
- `graph_from_dataset` does not check entity ids to be non-empty. Without
  a DOI, an id made only of whitespace gives the empty dataset IRI
  (`BlankIdGivesEmptyIri`). Whether the entity classes' constructors
  reject it is outside this model.

## Model

| member | source | states |
|---|---|---|
| Mapper.DatasetId | ckanext/dcat/profiles/dcat_ap_plus.py:86-92 | Fails exactly when there is no truthy `doi` and no `id`. With a DOI the IRI is `https://doi.org/` + doi. Otherwise it is the `id` without surrounding whitespace: stripped, and sitting at the end of the id's leading whitespace with only whitespace around it |
| Mapper.DependentIdsDistinct | ckanext/dcat/profiles/dcat_ap_plus.py:99-152 | For every dataset id, the `/sample`, `/measurement`, `/spectrum` and `/analysis` ids are non-empty, pairwise distinct and distinct from the dataset id |
| Mapper.Sample | ckanext/dcat/profiles/dcat_ap_plus.py:98-126 | The sample always has exactly four attributes, typed in order by CHEMINF:000059, 000113, 000018 and 000037, each titled "assigned <label>". The first three hold the raw record value, possibly absent. The formula is never empty: it is `mol_formula` when truthy, otherwise "not available" |
| Mapper.Measurement | ckanext/dcat/profiles/dcat_ap_plus.py:130-139 | A measurement exists exactly when `measurement_technique_iri` is truthy. It is then typed by that IRI, labelled by `measurement_technique`, and has the `/measurement` id |
| Mapper.Spectrum | ckanext/dcat/profiles/dcat_ap_plus.py:141-148 | The spectrum has the `/spectrum` id, is typed `CHMO:0000800` titled "spectrum", and is generated by the measurement exactly when there is one |
| Mapper.Analysis | ckanext/dcat/profiles/dcat_ap_plus.py:150-158 | The analysis has the `/analysis` id, is typed Allotrope `AFP_0003618` titled "peak identification", and evaluated exactly the spectrum |
| Mapper.Dataset | ckanext/dcat/profiles/dcat_ap_plus.py:161-215 | The node id and `identifier` are the same derived id. The description is `notes` when truthy, else "No description". Creators are never empty. A landing page exists exactly when `url` is truthy. The dataset always conforms to the nmrXiv standard. The language list is empty and the dates are copied |
| Mapper.MapRecord | ckanext/dcat/profiles/dcat_ap_plus.py:85-170 | Fails exactly when the id cannot be derived. Otherwise the entities form the provenance chain rooted at the derived id: every dependent id is its suffix, the analysis is a peak identification, the spectrum is a spectrum, and the measurement exists exactly when a technique IRI is given |
| Mapper.MeasurementGate | ckanext/dcat/profiles/dcat_ap_plus.py:130-148 | The spectrum's `was_generated_by` is set exactly when `measurement_technique_iri` is truthy, and so is the measurement |
| Mapper.SampleTermsFixed | ckanext/dcat/profiles/dcat_ap_plus.py:98-126 | Any two mapped records carry the same four attribute types in the same order, whatever their content |
| Mapper.BlankIdGivesEmptyIri | ckanext/dcat/profiles/dcat_ap_plus.py:90-92 | Without a DOI, an id made only of whitespace yields the empty dataset IRI; nothing in `graph_from_dataset` rejects it |
| Normalize.OrElse | ckanext/dcat/profiles/dcat_ap_plus.py:164 | `value or fallback`: the value when present and non-empty, the fallback otherwise |
| Normalize.LanguageKey | ckanext/dcat/profiles/dcat_ap_plus.py:192 | `(language or '').strip().lower()` equals lower-casing the label first and stripping after. The key is stripped and has no upper-case letter |
| Normalize.CodeOfKey | ckanext/dcat/profiles/dcat_ap_plus.py:194-201 | The code is "en" exactly for the five English labels and the empty label, and "de" exactly for the three German labels. Any other label is its own code. The code is never empty and keeps the label's normal form |
| Normalize.LanguageCode | ckanext/dcat/profiles/dcat_ap_plus.py:192-201 | Total. The code is never empty, is stripped and lower-case, and is "en", "de" or the normalised label |
| Normalize.LanguageCodeIdempotent | ckanext/dcat/profiles/dcat_ap_plus.py:192-201 | Normalising a code again gives the same code |
| Normalize.LanguageCodeIgnoresCaseAndPadding | ckanext/dcat/profiles/dcat_ap_plus.py:192 | Lower-casing or stripping the label first does not change the code |
| Normalize.LanguageCodeOfNormalLabel | ckanext/dcat/profiles/dcat_ap_plus.py:192-201 | A label already stripped and lower-case is looked up as it is |
| Normalize.Creators | ckanext/dcat/profiles/dcat_ap_plus.py:174-181 | Never empty. Without an author it is the single agent "NA". Otherwise each "., " is first rewritten to a full stop and a pipe. There is then one agent per pipe-separated piece, in order, empty pieces included: the number of agents is the number of pipes plus one, no name holds a pipe, and joining the names with pipes gives back the rewritten string |
| Normalize.CreatorsCount | ckanext/dcat/profiles/dcat_ap_plus.py:176-178 | The number of creators is the number of pipes plus the number of "., " in the author string, plus one |
| Normalize.CreatorsArePieces | ckanext/dcat/profiles/dcat_ap_plus.py:177-178 | The creators' names are the only pipe-free list that joins with pipes to the rewritten author string |
| Normalize.CreatorsOfJoinedNames | ckanext/dcat/profiles/dcat_ap_plus.py:176-178 | Round trip: pipe-free names joined by pipes, with no "., ", come back as the creators' names, in order |
| Text.Replace | ckanext/dcat/profiles/dcat_ap_plus.py:177 | `str.replace`: a replacement no longer than the pattern never lengthens the string, and a string shorter than the pattern is unchanged |
| Normalize.RewriteBreaks | ckanext/dcat/profiles/dcat_ap_plus.py:177 | Rewriting each "., " in the author string to a full stop and a pipe keeps the first character and never lengthens the author string. RewriteFirstBreak states what each break becomes, and RewriteCountsSeparators, RewriteLeavesNoBreak and RewriteWithoutBreaks what it does to separators and breaks |
| Normalize.RewriteCountsSeparators | ckanext/dcat/profiles/dcat_ap_plus.py:177 | Rewriting "., " to a full stop and a pipe adds exactly one pipe per non-overlapping "., " |
| Normalize.RewriteLeavesNoBreak | ckanext/dcat/profiles/dcat_ap_plus.py:177 | No "., " survives the rewrite |
| Normalize.RewriteWithoutBreaks | ckanext/dcat/profiles/dcat_ap_plus.py:177 | A string without "., " is left unchanged by the rewrite |
| Normalize.RewriteFirstBreak | ckanext/dcat/profiles/dcat_ap_plus.py:177 | At the first "., " the rewrite keeps the text before it and the full stop, puts a pipe in place of the comma and the space, and goes on rewriting the rest |
| Text.Strip | ckanext/dcat/profiles/dcat_ap_plus.py:91 | `str.strip()`: the result has no whitespace at either end. It is empty when the string is all whitespace, and otherwise it is the string between the leading and the trailing whitespace |
| Text.StripPadded | ckanext/dcat/profiles/dcat_ap_plus.py:91 | What `strip` keeps is an infix surrounded by whitespace only |
| Text.StripStripped | ckanext/dcat/profiles/dcat_ap_plus.py:91 | A string with no whitespace at its ends is its own strip (so `strip` is idempotent) |
| Text.Lower | ckanext/dcat/profiles/dcat_ap_plus.py:192 | `str.lower()` on ASCII: same length, no upper-case letter left, each character lower-cased |
| Text.StripLowerCommute | ckanext/dcat/profiles/dcat_ap_plus.py:192 | `strip().lower()` equals `lower().strip()` |
| Text.Split | ckanext/dcat/profiles/dcat_ap_plus.py:177 | Splitting on a one-character separator yields one more piece than there are separators, and no piece holds the separator |
| Text.JoinSplit | ckanext/dcat/profiles/dcat_ap_plus.py:177 | Joining the pieces of a split with the separator gives back the string |
| Text.JoinInjective | ckanext/dcat/profiles/dcat_ap_plus.py:177 | Two separator-free lists that join to the same string are equal |
| Text.SplitJoin | ckanext/dcat/profiles/dcat_ap_plus.py:177 | Splitting a join of separator-free pieces gives the pieces back, empty ones included |
| Assembler.Roots | ckanext/dcat/profiles/dcat_ap_plus.py:221-227 | The serialised entities are dataset, sample, analysis and spectrum, in that order, followed by the measurement exactly when there is one |
| Assembler.DumpAll | ckanext/dcat/profiles/dcat_ap_plus.py:221-231 | Accumulated serialisation succeeds exactly when every single call succeeds. It then holds exactly the triples some root entity serialised to |
| Assembler.ManualTriples | ckanext/dcat/profiles/dcat_ap_plus.py:233-243 | Exactly five triples: the dataset IRI conforms to the blank standard node, which is typed `dct:Standard` and identified by the nmrXiv document; the language IRI is typed `dct:LinguisticSystem`; the dataset reference has the language IRI as its language. No other `rdf:type` triple is added |
| Assembler.GraphFromDataset | ckanext/dcat/profiles/dcat_ap_plus.py:217-247 | The call raises exactly when the mapping fails, and reports a serialisation failure exactly when the mapping succeeds but a serialisation fails. On success the graph becomes old ∪ hand-built ∪ serialised. It never loses a triple |
| Assembler.AllOrNothing | ckanext/dcat/profiles/dcat_ap_plus.py:221-231 | If the serialiser rejects any one root entity, the call fails and the graph is unchanged |
| Assembler.Additive | ckanext/dcat/profiles/dcat_ap_plus.py:233-247 | The new graph contains the old one. Every triple it gained is hand-built or was serialised for some root entity |
| Assembler.LanguageAndStandardAdded | ckanext/dcat/profiles/dcat_ap_plus.py:235-243 | On success the dataset reference points at the ISO 639-1 IRI of a non-empty code, typed `dct:LinguisticSystem`. The dataset IRI conforms to the standard node, which is typed `dct:Standard` and identified by the nmrXiv document |
| Assembler.MeasurementDumpedIffPresent | ckanext/dcat/profiles/dcat_ap_plus.py:226-227 | The measurement is among the serialised entities exactly when a technique IRI is given. Its triples then end up in the graph |
| Parse.Objects | ckanext/dcat/profiles/dcat_ap_plus.py:73-75 | The objects of the node's `p` triples: each one comes from such a triple, and every such triple's object is listed. A graph without repeated triples gives no object twice |
| Parse.Value | ckanext/dcat/profiles/dcat_ap_plus.py:70-72 | `Resource.value(p)` is absent exactly when the node has no `p`, and is otherwise the object of one of its `p` triples |
| Parse.ReadText | ckanext/dcat/profiles/dcat_ap_plus.py:70-72 | The text read for `p` is absent exactly when the node has no `p`, and is otherwise the text of one of its `p` objects |
| Parse.ThemeLabels | ckanext/dcat/profiles/dcat_ap_plus.py:73-75 | One label per theme, in order. Each is absent exactly when that theme has no `skos:prefLabel`, and is otherwise the text of one of them |
| Parse.ParseDataset | ckanext/dcat/profiles/dcat_ap_plus.py:67-76 | Writes `title`, `notes` and `doi` from `dct:title`, `dct:description` and `dct:identifier`. It raises exactly when some `dcat:theme` is a literal, leaving `language` as it was. Otherwise it writes `language` with one label per theme, and no theme occurs twice when the graph repeats no triple. Every other key keeps its value and no key is dropped |
| Parse.ParseDatasetIdempotent | ckanext/dcat/profiles/dcat_ap_plus.py:67-76 | Parsing the resulting dictionary again from the same graph gives the same outcome and dictionary as parsing once, whether the first call returned or raised |
| NormalizeExamples.LanguageCodeEnglishExample | ckanext/dcat/profiles/dcat_ap_plus.py:192-195 | "English" gives "en" |
| NormalizeExamples.LanguageCodeBritishExample | ckanext/dcat/profiles/dcat_ap_plus.py:192-195 | "en-GB" gives "en" |
| NormalizeExamples.LanguageCodeDefaultExample | ckanext/dcat/profiles/dcat_ap_plus.py:192-201 | An empty or missing label gives "en" |
| NormalizeExamples.LanguageCodeGermanExample | ckanext/dcat/profiles/dcat_ap_plus.py:192-197 | "German" gives "de" |
| NormalizeExamples.LanguageCodePassThroughExample | ckanext/dcat/profiles/dcat_ap_plus.py:192-199 | " FR " gives "fr" |
| NormalizeExamples.CreatorsExample | ckanext/dcat/profiles/dcat_ap_plus.py:176-178 | The two names "Smith, J." and "Doe, A." joined by a pipe give those two creators, in order |
| NormalizeExamples.BreakExampleRewrite | ckanext/dcat/profiles/dcat_ap_plus.py:177 | "Smith, J., Doe, A." is rewritten to "Smith, J." followed by a pipe and "Doe, A." |
| NormalizeExamples.CreatorsBreakExample | ckanext/dcat/profiles/dcat_ap_plus.py:176-178 | "Smith, J., Doe, A." gives the two creators "Smith, J." and "Doe, A.", in order |
| Scenario.ScenarioMapping | ckanext/dcat/profiles/dcat_ap_plus.py:85-215 | The scenario record maps to dataset `ds-1` with title "Test", description "desc", the single creator "Smith, J." and the URL as landing page. It is about sample `ds-1/sample`, whose InChIKey attribute holds "ABC", and there is no measurement |
| Scenario.ScenarioGraph | ckanext/dcat/profiles/dcat_ap_plus.py:217-247 | With a serialiser that accepts everything, the scenario adds the language edge to `.../iso639-1/en` and the conformance edge from `ds-1`, and keeps the old triples |

## Left out

- Namespace prefix binding (dcat_ap_plus.py:82-83) is left out: it is rdflib bookkeeping and adds no triples.
- `SchemaView` and `RDFLibDumper` (dcat_ap_plus.py:217-218) are not modelled; the serialiser is the `Dumper` parameter. Its predicate mapping, its recursion into nested entities and any exception other than `ValueError` are outside the model.
- `ckanext/dcat/profiles/dcat_4c_ap.py` (the entity classes) is not part of this model. Only the slots this file sets are represented, and a fresh `AnalysisDataset` is assumed to have no language, so the list is empty after lines 188-189.
- Logging (dcat_ap_plus.py:69, 183, 230) has no effect on the result and is left out.
- The `except Exception` around the creator list (dcat_ap_plus.py:182-183) is left out: with string-valued records, `replace` and `split` cannot raise.
- Text.Lower: only ASCII letters are lower-cased, unlike Python's Unicode `str.lower()`. Non-ASCII labels are therefore compared as they are.
- Assembler.GraphFromDataset: the blank node is the parameter `standardNode`, and its freshness is not modelled. Nothing is claimed about two calls, since each mints a new node.
- Parse.Value: rdflib may return any one of several matching objects. The model takes the first one in iteration order, and its contracts promise only "one of them".
- Text.Replace: its own contract states only length facts. What each occurrence becomes is stated for the profile's one pattern by `Normalize.RewriteFirstBreak`, not for every pattern.
- Parse.Objects: the objects come in the order of the triples in the graph sequence, but the contracts state only membership and, for a graph without repeated triples, no repetition; they do not state the order.
- rdflib's `Resource` is not part of this model. Two of its behaviours are assumed: `objects` hands literal objects back as plain literals, and a literal's `value` is its Python value, which cannot be called. This is the `TypeError` that `ParseDataset` reports as `ThemeIsLiteral`.
- Parse.ReadText: Python's `str(None)` is `"None"`. The model keeps the absence as `None` instead.
- `str()` of a term keeps only the IRI, the blank-node id or the lexical form. Literal datatypes and language tags are not modelled.
- Non-string values in the dataset dictionary (numbers, lists, `None` stored under a key) are outside the model, because records are `map<string, string>`.
- The release and modification dates (dcat_ap_plus.py:212-215) are copied without any logic. They are modelled as plain copied fields.
- The unused imports (`json`, `Decimal`, `ckantoolkit`, the utils helpers) are left out.
