/** The serialisation and graph-assembly half of
    `DCATNFDi4ChemProfile.graph_from_dataset`
    (ckanext/dcat/profiles/dcat_ap_plus.py:217-247). Each root entity of
    the provenance chain is handed to the schema-driven serialiser, which
    is not modelled: it is a parameter that either yields the entity's
    triples or fails (the `ValueError` path). Only when every call
    succeeds are the hand-built triples and the serialised triples added
    to the caller's graph; otherwise the graph is left as it was. */
module Assembler {
  import opened Wrappers
  import opened Rdf
  import opened Entities
  import opened Normalize
  import opened Mapper

  /** An entity handed to the serialiser on its own. */
  datatype Root =
    | DatasetRoot(dataset: AnalysisDataset)
    | SampleRoot(sample: EvaluatedEntity)
    | AnalysisRoot(analysis: DataAnalysis)
    | SpectrumRoot(spectrum: AnalysisSourceData)
    | MeasurementRoot(measurement: Activity)

  /** The schema-driven serialiser: the triples of one entity, nested
      entities included, or `None` when the schema rejects its shape. */
  type Dumper = Root -> Option<Graph>

  /** The entities serialised, in order: dataset, sample, analysis,
      spectrum, and the measurement only when there is one. */
  function Roots(m: Mapping): (r: seq<Root>)
    ensures |r| == if m.measurement.Some? then 5 else 4
    ensures r[..4] == [DatasetRoot(m.dataset), SampleRoot(m.sample),
                       AnalysisRoot(m.analysis), SpectrumRoot(m.spectrum)]
    ensures (exists i :: 0 <= i < |r| && r[i].MeasurementRoot?) <==> m.measurement.Some?
    ensures m.measurement.Some? ==> r[4] == MeasurementRoot(m.measurement.value)
  {
    var always := [DatasetRoot(m.dataset), SampleRoot(m.sample),
                   AnalysisRoot(m.analysis), SpectrumRoot(m.spectrum)];
    match m.measurement
    case Some(a) =>
      var r := always + [MeasurementRoot(a)];
      assert r[4].MeasurementRoot?;
      r
    case None => always
  }

  /** Serialises every root and accumulates the triples. Succeeds exactly
      when every single serialisation succeeds, and then holds exactly the
      triples some root serialised to. */
  function DumpAll(roots: seq<Root>, dump: Dumper): (r: Option<Graph>)
    ensures r.Some? <==> forall i :: 0 <= i < |roots| ==> dump(roots[i]).Some?
    ensures r.Some? ==> forall t :: t in r.value <==>
              exists i :: 0 <= i < |roots| && dump(roots[i]).Some? && t in dump(roots[i]).value
  {
    if |roots| == 0 then
      Some({})
    else
      match dump(roots[0])
      case None => None
      case Some(first) =>
        match DumpAll(roots[1..], dump)
        case None =>
          assert exists i :: 0 <= i < |roots| && dump(roots[i]).None? by {
            var j :| 0 <= j < |roots[1..]| && dump(roots[1..][j]).None?;
            assert roots[1..][j] == roots[j + 1];
          }
          None
        case Some(rest) =>
          assert forall i :: 1 <= i < |roots| ==> roots[i] == roots[1..][i - 1];
          Some(first + rest)
  }

  /** The ISO 639-1 vocabulary of the Library of Congress. */
  const LanguageVocabulary: string := "http://id.loc.gov/vocabulary/iso639-1/"

  /** The IRI of a language code. */
  function LanguageIri(code: string): Term {
    Iri(LanguageVocabulary + code)
  }

  /** The triples the schema cannot express, added by hand: the dataset
      IRI conforms to a blank standard node typed `dct:Standard` and
      identified by the nmrXiv document, and the dataset reference has the
      language IRI, typed `dct:LinguisticSystem`, as its language. The
      five triples are distinct. */
  function ManualTriples(datasetIri: string, datasetRef: Term, standard: Term, code: string): (r: Graph)
    requires standard.Blank?
    ensures |r| == 5
    ensures Triple(Iri(datasetIri), DctConformsTo, standard) in r
    ensures Triple(standard, RdfType, DctStandard) in r
    ensures Triple(standard, DctIdentifier, Iri(NmrxivStandard)) in r
    ensures Triple(LanguageIri(code), RdfType, DctLinguisticSystem) in r
    ensures Triple(datasetRef, DctLanguage, LanguageIri(code)) in r
    ensures forall t :: t in r && t.pred == RdfType ==>
              (t.subj == standard && t.obj == DctStandard)
              || (t.subj == LanguageIri(code) && t.obj == DctLinguisticSystem)
  {
    var conforms := Triple(Iri(datasetIri), DctConformsTo, standard);
    var typed := Triple(standard, RdfType, DctStandard);
    var language := Triple(LanguageIri(code), RdfType, DctLinguisticSystem);
    var about := Triple(datasetRef, DctLanguage, LanguageIri(code));
    var identified := Triple(standard, DctIdentifier, Iri(NmrxivStandard));
    var r := {conforms, typed, language, about, identified};
    assert |{conforms, typed, language, about}| == 4 by {
      assert |{conforms, typed, language}| == 3 by {
        assert |{conforms, typed}| == 2;
      }
    }
    r
  }

  /** How a call ended: triples were added, serialisation failed (the
      method logs a warning and returns `None`), or the mapping raised. */
  datatype Outcome =
    | Added(graph: Graph)
    | SerializationFailed
    | Raised(error: MappingError)

  /** The caller's graph after the call. */
  function After(g: Graph, o: Outcome): Graph {
    if o.Added? then o.graph else g
  }

  /** `graph_from_dataset` on graph `g`: `datasetRef` is the node the
      caller passed, `standardNode` the fresh blank node the call mints.
      All or nothing: the graph gains the five hand-built triples and every
      serialised triple exactly when the record maps and every root
      serialises; in any other case it is left untouched. No triple is
      ever removed. */
  function GraphFromDataset(g: Graph, rec: Record, datasetRef: Term, standardNode: string,
                            dump: Dumper): (o: Outcome)
    ensures o.Raised? <==> MapRecord(rec).Failure?
    ensures o.SerializationFailed? <==>
              MapRecord(rec).Success? && DumpAll(Roots(MapRecord(rec).value), dump).None?
    ensures o.Added? ==>
              o.graph == g + ManualTriples(DatasetId(rec).value, datasetRef, Blank(standardNode),
                                           LanguageCode(Get(rec, "language")))
                           + DumpAll(Roots(MapRecord(rec).value), dump).value
    ensures g <= After(g, o)
  {
    match MapRecord(rec)
    case Failure(e) => Raised(e)
    case Success(m) =>
      var code := LanguageCode(Get(rec, "language"));
      match DumpAll(Roots(m), dump)
      case None => SerializationFailed
      case Some(dumped) =>
        Added(g + ManualTriples(m.dataset.id, datasetRef, Blank(standardNode), code) + dumped)
  }

  /** All or nothing: if the serialiser rejects any one root entity, the
      call adds no triple at all. */
  lemma AllOrNothing(g: Graph, rec: Record, datasetRef: Term, standardNode: string,
                     dump: Dumper, i: nat)
    requires MapRecord(rec).Success?
    requires i < |Roots(MapRecord(rec).value)|
    requires dump(Roots(MapRecord(rec).value)[i]).None?
    ensures GraphFromDataset(g, rec, datasetRef, standardNode, dump) == SerializationFailed
    ensures After(g, GraphFromDataset(g, rec, datasetRef, standardNode, dump)) == g
  {
  }

  /** Additive: the new graph holds every old triple, and every triple it
      gained is a hand-built one or one the serialiser produced for some
      root entity. */
  lemma Additive(g: Graph, rec: Record, datasetRef: Term, standardNode: string, dump: Dumper)
    requires MapRecord(rec).Success?
    ensures var g' := After(g, GraphFromDataset(g, rec, datasetRef, standardNode, dump));
            var roots := Roots(MapRecord(rec).value);
            && g <= g'
            && forall t :: t in g' - g ==>
                 || t in ManualTriples(DatasetId(rec).value, datasetRef, Blank(standardNode),
                                       LanguageCode(Get(rec, "language")))
                 || exists i :: 0 <= i < |roots| && dump(roots[i]).Some? && t in dump(roots[i]).value
  {
  }

  /** On success the dataset reference points at the language IRI of the
      normalised code, typed as a linguistic system, and the dataset IRI
      at a node typed as a standard and identified by the nmrXiv
      document. */
  lemma LanguageAndStandardAdded(g: Graph, rec: Record, datasetRef: Term, standardNode: string,
                                 dump: Dumper)
    requires GraphFromDataset(g, rec, datasetRef, standardNode, dump).Added?
    ensures var g' := GraphFromDataset(g, rec, datasetRef, standardNode, dump).graph;
            var code := LanguageCode(Get(rec, "language"));
            && code != ""
            && Triple(datasetRef, DctLanguage, Iri(LanguageVocabulary + code)) in g'
            && Triple(Iri(LanguageVocabulary + code), RdfType, DctLinguisticSystem) in g'
            && Triple(Iri(DatasetId(rec).value), DctConformsTo, Blank(standardNode)) in g'
            && Triple(Blank(standardNode), RdfType, DctStandard) in g'
            && Triple(Blank(standardNode), DctIdentifier, Iri(NmrxivStandard)) in g'
  {
  }

  /** The measurement is serialised exactly when the record names a
      technique IRI: without one the serialiser is never shown a
      measurement, with one its triples end up in the graph. */
  lemma MeasurementDumpedIffPresent(g: Graph, rec: Record, datasetRef: Term, standardNode: string,
                                    dump: Dumper)
    requires MapRecord(rec).Success?
    ensures var roots := Roots(MapRecord(rec).value);
            (exists i :: 0 <= i < |roots| && roots[i].MeasurementRoot?) <==> Has(rec, TechniqueIriKey)
    ensures var o := GraphFromDataset(g, rec, datasetRef, standardNode, dump);
            var m := MapRecord(rec).value;
            o.Added? && Has(rec, TechniqueIriKey) ==>
              dump(MeasurementRoot(m.measurement.value)).Some?
              && dump(MeasurementRoot(m.measurement.value)).value <= o.graph
  {
    var m := MapRecord(rec).value;
    var roots := Roots(m);
    var o := GraphFromDataset(g, rec, datasetRef, standardNode, dump);
    if o.Added? && Has(rec, TechniqueIriKey) {
      assert roots[4] == MeasurementRoot(m.measurement.value);
    }
  }
}
