/** An end-to-end scenario: a record with the internal id
    "ds-1", the title "Test", the description "desc", the InChIKey "ABC",
    the single author "Smith, J.", the language label "English" and a URL,
    but with neither a DOI nor a measurement technique IRI. */
module Scenario {
  import opened Wrappers
  import opened Rdf
  import opened Entities
  import opened Normalize
  import opened Mapper
  import opened Assembler
  import Text
  import NormalizeExamples

  /** `rec` holds the scenario's fields (other keys may be present). */
  predicate ScenarioRecord(rec: Record) {
    && "doi" !in rec && TechniqueIriKey !in rec
    && "id" in rec && rec["id"] == "ds-1"
    && "title" in rec && rec["title"] == "Test"
    && "notes" in rec && rec["notes"] == "desc"
    && "inchi_key" in rec && rec["inchi_key"] == "ABC"
    && "author" in rec && rec["author"] == "Smith, J."
    && "language" in rec && rec["language"] == "English"
    && "url" in rec && rec["url"] == "http://example.org/d"
  }

  lemma {:induction false} ScenarioId(rec: Record)
    requires ScenarioRecord(rec)
    ensures DatasetId(rec) == Success("ds-1")
  {
    Text.StripStripped("ds-1");
  }

  lemma ScenarioSampleId()
    ensures SampleId("ds-1") == "ds-1/sample"
  {
  }

  lemma ScenarioCreators()
    ensures Names(Creators(Some("Smith, J."))) == ["Smith, J."]
  {
    NormalizeExamples.ExampleSingleAuthorHasNoBreak();
    CreatorsOfJoinedNames(["Smith, J."]);
  }

  /** The record maps to the dataset `ds-1` titled "Test", described as
      "desc", with the single creator "Smith, J." and the landing page
      of the URL, about the sample `ds-1/sample` whose InChIKey attribute
      holds "ABC"; there is no measurement. */
  lemma {:induction false} ScenarioMapping(rec: Record)
    requires ScenarioRecord(rec)
    ensures MapRecord(rec).Success?
    ensures var m := MapRecord(rec).value;
            && m.dataset.id == "ds-1"
            && m.dataset.title == Some("Test")
            && m.dataset.description == "desc"
            && Names(m.dataset.creator) == ["Smith, J."]
            && m.dataset.landingPage == Some(Document("http://example.org/d"))
            && m.sample.id == "ds-1/sample"
            && TypedBy(m.sample.hasQualitativeAttribute[0], InChIKeyTerm)
            && m.sample.hasQualitativeAttribute[0].value == Some("ABC")
            && m.measurement.None?
  {
    ScenarioId(rec);
    ScenarioCreators();
    ScenarioSampleId();
  }

  /** With a serialiser that accepts every entity, the graph keeps what it
      had and gains the language edge from the dataset reference to the
      English code and the conformance edge from `ds-1`. */
  lemma {:induction false} ScenarioGraph(rec: Record, g: Graph, datasetRef: Term, standardNode: string, dump: Dumper)
    requires ScenarioRecord(rec)
    requires forall r :: dump(r).Some?
    ensures var o := GraphFromDataset(g, rec, datasetRef, standardNode, dump);
            && o.Added?
            && g <= o.graph
            && Triple(datasetRef, DctLanguage, Iri(LanguageVocabulary + "en")) in o.graph
            && Triple(Iri("ds-1"), DctConformsTo, Blank(standardNode)) in o.graph
  {
    ScenarioId(rec);
    NormalizeExamples.LanguageCodeEnglishExample();
    LanguageAndStandardAdded(g, rec, datasetRef, standardNode, dump);
  }
}
