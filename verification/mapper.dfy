/** The record-to-entity half of `DCATNFDi4ChemProfile.graph_from_dataset`
    (ckanext/dcat/profiles/dcat_ap_plus.py:78-215): a flat CKAN dataset
    dictionary becomes the provenance chain
      dataset -> analysis -> spectrum -> optional measurement
      dataset -> sample -> four qualitative attributes. */
module Mapper {
  import opened Wrappers
  import opened Text
  import opened Entities
  import opened Normalize

  /** A CKAN dataset dictionary with string values; a missing key stands
      for Python's `None`. */
  type Record = map<string, string>

  /** `dataset_dict.get(key)`. */
  function Get(rec: Record, key: string): (r: Option<string>)
    ensures r.Some? <==> key in rec
    ensures r.Some? ==> r.value == rec[key]
  {
    if key in rec then Some(rec[key]) else None
  }

  /** Python truthiness of `dataset_dict.get(key)`: present and non-empty. */
  predicate Has(rec: Record, key: string) {
    key in rec && rec[key] != ""
  }

  const DoiResolver: string := "https://doi.org/"

  /** Path segments that derive the dependent entities' ids. */
  const SampleSuffix: string := "/sample"
  const MeasurementSuffix: string := "/measurement"
  const SpectrumSuffix: string := "/spectrum"
  const AnalysisSuffix: string := "/analysis"

  /** The reference document every dataset conforms to. */
  const NmrxivStandard: string := "https://docs.nmrxiv.org/submission-guides/data-model/spectra.html"

  const NoDescription: string := "No description"
  const FormulaNotAvailable: string := "not available"

  /** The controlled-vocabulary terms of the sample's attributes, and the
      record keys their values come from, in the order they are attached. */
  const InChIKeyTerm: DefinedTerm := DefinedTerm("CHEMINF:000059", Some("InChiKey"))
  const InChITerm: DefinedTerm := DefinedTerm("CHEMINF:000113", Some("InChi"))
  const SmilesTerm: DefinedTerm := DefinedTerm("CHEMINF:000018", Some("SMILES"))
  const FormulaTerm: DefinedTerm := DefinedTerm("CHEMINF:000037", Some("IUPACChemicalFormula"))
  const AttributeTerms: seq<DefinedTerm> := [InChIKeyTerm, InChITerm, SmilesTerm, FormulaTerm]
  const AttributeKeys: seq<string> := ["inchi_key", "inchi", "smiles", "mol_formula"]

  const SpectrumTerm: DefinedTerm := DefinedTerm("CHMO:0000800", Some("spectrum"))
  const PeakIdentificationTerm: DefinedTerm :=
    DefinedTerm("http://purl.allotrope.org/ontologies/process#AFP_0003618", Some("peak identification"))

  const TechniqueIriKey: string := "measurement_technique_iri"
  const TechniqueKey: string := "measurement_technique"

  /** Why no entity graph could be built. `MissingId` is the
      `AttributeError` Python raises on `None.strip()` when the record has
      neither a DOI nor an `id`. */
  datatype MappingError = MissingId

  /** The dataset's IRI, used both as its node and as its `identifier`:
      the DOI resolver URL when a DOI is given, otherwise the record's own
      id with the surrounding whitespace (and only that) removed. Fails
      exactly when neither is available. */
  function DatasetId(rec: Record): (r: Result<string, MappingError>)
    ensures r.Failure? <==> !Has(rec, "doi") && "id" !in rec
    ensures Has(rec, "doi") ==> r == Success(DoiResolver + rec["doi"])
    ensures !Has(rec, "doi") && "id" in rec ==>
              r.Success? && IsStripped(r.value) && PaddedAt(rec["id"], r.value, LeadingSpaces(rec["id"]))
  {
    if Has(rec, "doi") then Success(DoiResolver + rec["doi"])
    else if "id" in rec then StripPadded(rec["id"]); Success(Strip(rec["id"]))
    else Failure(MissingId)
  }

  function SampleId(datasetId: string): string { datasetId + SampleSuffix }
  function MeasurementId(datasetId: string): string { datasetId + MeasurementSuffix }
  function SpectrumId(datasetId: string): string { datasetId + SpectrumSuffix }
  function AnalysisId(datasetId: string): string { datasetId + AnalysisSuffix }

  /** The four derived ids are pairwise distinct, differ from the dataset
      id and are never empty, whatever the dataset id is. */
  lemma DependentIdsDistinct(d: string)
    ensures SampleId(d) != d && MeasurementId(d) != d && SpectrumId(d) != d && AnalysisId(d) != d
    ensures SampleId(d) != MeasurementId(d) && SampleId(d) != SpectrumId(d) && SampleId(d) != AnalysisId(d)
    ensures MeasurementId(d) != SpectrumId(d) && MeasurementId(d) != AnalysisId(d)
    ensures SpectrumId(d) != AnalysisId(d)
    ensures SampleId(d) != "" && MeasurementId(d) != "" && SpectrumId(d) != "" && AnalysisId(d) != ""
  {
    assert SpectrumId(d)[|d| + 1] == 's';
    assert AnalysisId(d)[|d| + 1] == 'a';
  }

  /** An attribute typed by `term` and titled "assigned <term label>". */
  predicate TypedBy(a: QualitativeAttribute, term: DefinedTerm) {
    a.rdfType == term && term.title.Some? && a.title == "assigned " + term.title.value
  }

  /** The sample: always exactly four attributes, in the fixed order of
      `AttributeTerms`, each titled "assigned <term label>". InChIKey,
      InChI and SMILES carry the raw record value, possibly absent; the
      formula falls back to "not available" when missing or empty. */
  function Sample(rec: Record, datasetId: string): (r: EvaluatedEntity)
    ensures r.id == SampleId(datasetId)
    ensures |r.hasQualitativeAttribute| == |AttributeTerms| == 4
    ensures forall i :: 0 <= i < 4 ==> TypedBy(r.hasQualitativeAttribute[i], AttributeTerms[i])
    ensures forall i :: 0 <= i < 3 ==> r.hasQualitativeAttribute[i].value == Get(rec, AttributeKeys[i])
    ensures var formula := r.hasQualitativeAttribute[3].value;
            && formula.Some? && formula.value != ""
            && (Has(rec, AttributeKeys[3]) ==> formula.value == rec[AttributeKeys[3]])
            && (!Has(rec, AttributeKeys[3]) ==> formula.value == FormulaNotAvailable)
  {
    var attributes :=
      [ QualitativeAttribute(InChIKeyTerm, "assigned InChiKey", Get(rec, "inchi_key")),
        QualitativeAttribute(InChITerm, "assigned InChi", Get(rec, "inchi")),
        QualitativeAttribute(SmilesTerm, "assigned SMILES", Get(rec, "smiles")),
        QualitativeAttribute(FormulaTerm, "assigned IUPACChemicalFormula",
                             Some(OrElse(Get(rec, "mol_formula"), FormulaNotAvailable))) ];
    assert TypedBy(attributes[0], InChIKeyTerm);
    assert TypedBy(attributes[1], InChITerm);
    assert TypedBy(attributes[2], SmilesTerm);
    assert TypedBy(attributes[3], FormulaTerm);
    EvaluatedEntity(SampleId(datasetId), attributes)
  }

  /** The measurement: built exactly when the record names a technique
      IRI, typed by that IRI and labelled by the technique's name. */
  function Measurement(rec: Record, datasetId: string): (r: Option<Activity>)
    ensures r.Some? <==> Has(rec, TechniqueIriKey)
    ensures r.Some? ==>
              && r.value.id == MeasurementId(datasetId)
              && r.value.rdfType.id == rec[TechniqueIriKey]
              && r.value.rdfType.title == Get(rec, TechniqueKey)
  {
    if Has(rec, TechniqueIriKey) then
      Some(Activity(MeasurementId(datasetId),
                    DefinedTerm(rec[TechniqueIriKey], Get(rec, TechniqueKey))))
    else
      None
  }

  /** The spectrum: typed as a spectrum (CHMO:0000800), and generated by
      the measurement exactly when there is one. */
  function Spectrum(datasetId: string, measurement: Option<Activity>): (r: AnalysisSourceData)
    ensures r.id == datasetId + "/spectrum"
    ensures r.rdfType.id == "CHMO:0000800" && r.rdfType.title == Some("spectrum")
    ensures r.wasGeneratedBy == measurement
  {
    AnalysisSourceData(SpectrumId(datasetId), SpectrumTerm, measurement)
  }

  /** The analysis: a peak identification (Allotrope AFP_0003618) that
      evaluated the spectrum and nothing else. */
  function Analysis(datasetId: string, spectrum: AnalysisSourceData): (r: DataAnalysis)
    ensures r.id == datasetId + "/analysis"
    ensures r.rdfType.id == "http://purl.allotrope.org/ontologies/process#AFP_0003618"
    ensures r.rdfType.title == Some("peak identification")
    ensures |r.evaluatedEntity| == 1 && r.evaluatedEntity[0] == spectrum
  {
    DataAnalysis(AnalysisId(datasetId), PeakIdentificationTerm, [spectrum])
  }

  /** The dataset entity. Its node id and its `identifier` are the same
      derived IRI; the description falls back to "No description"; the
      creators are never empty; a landing page exists exactly when a URL
      is given; it always conforms to the nmrXiv standard; its language
      list stays empty, the language being added as a raw triple. */
  function Dataset(rec: Record, datasetId: string, analysis: DataAnalysis,
                   sample: EvaluatedEntity): (r: AnalysisDataset)
    ensures r.id == datasetId && r.identifier == datasetId
    ensures r.title == Get(rec, "title")
    ensures r.description != ""
    ensures Has(rec, "notes") ==> r.description == rec["notes"]
    ensures !Has(rec, "notes") ==> r.description == NoDescription
    ensures r.wasGeneratedBy == analysis && r.isAboutEntity == sample
    ensures r.conformsTo == Standard(NmrxivStandard)
    ensures |r.creator| >= 1 && r.creator == Creators(Get(rec, "author"))
    ensures r.landingPage.Some? <==> Has(rec, "url")
    ensures r.landingPage.Some? ==> r.landingPage.value == Document(rec["url"])
    ensures r.releaseDate == Get(rec, "metadata_created")
    ensures r.modificationDate == Get(rec, "metadata_modified")
    ensures r.language == []
  {
    AnalysisDataset(
      id := datasetId,
      title := Get(rec, "title"),
      description := OrElse(Get(rec, "notes"), NoDescription),
      wasGeneratedBy := analysis,
      identifier := datasetId,
      isAboutEntity := sample,
      conformsTo := Standard(NmrxivStandard),
      creator := Creators(Get(rec, "author")),
      landingPage := if Has(rec, "url") then Some(Document(rec["url"])) else None,
      releaseDate := Get(rec, "metadata_created"),
      modificationDate := Get(rec, "metadata_modified"),
      language := [])
  }

  /** The entity instances of one mapping. */
  datatype Mapping = Mapping(
    dataset: AnalysisDataset,
    sample: EvaluatedEntity,
    analysis: DataAnalysis,
    spectrum: AnalysisSourceData,
    measurement: Option<Activity>)

  /** The fixed shape of the provenance chain: the dataset was generated
      by the analysis, which evaluated the spectrum, which was generated by
      the measurement if any; the dataset is about the sample; every
      dependent id is the dataset id plus its own suffix; the analysis is
      a peak identification and the spectrum a spectrum. */
  predicate ProvenanceChain(m: Mapping) {
    var d := m.dataset.id;
    && m.dataset.wasGeneratedBy == m.analysis
    && m.analysis.evaluatedEntity == [m.spectrum]
    && m.analysis.rdfType == PeakIdentificationTerm
    && m.spectrum.wasGeneratedBy == m.measurement
    && m.spectrum.rdfType == SpectrumTerm
    && m.dataset.isAboutEntity == m.sample
    && m.dataset.identifier == d
    && m.sample.id == SampleId(d)
    && m.analysis.id == AnalysisId(d)
    && m.spectrum.id == SpectrumId(d)
    && (m.measurement.Some? ==> m.measurement.value.id == MeasurementId(d))
  }

  /** Builds the entity graph of a record. It fails only when the record
      has neither a DOI nor an id; otherwise the entities form the
      provenance chain rooted at the derived dataset IRI, and the
      measurement exists exactly when a technique IRI is given. */
  function MapRecord(rec: Record): (r: Result<Mapping, MappingError>)
    ensures r.Failure? <==> DatasetId(rec).Failure?
    ensures r.Success? ==>
              && ProvenanceChain(r.value)
              && r.value.dataset.id == DatasetId(rec).value
              && (r.value.measurement.Some? <==> Has(rec, TechniqueIriKey))
  {
    match DatasetId(rec)
    case Failure(e) => Failure(e)
    case Success(d) =>
      var sample := Sample(rec, d);
      var measurement := Measurement(rec, d);
      var spectrum := Spectrum(d, measurement);
      var analysis := Analysis(d, spectrum);
      Success(Mapping(Dataset(rec, d, analysis, sample), sample, analysis, spectrum, measurement))
  }

  /** The spectrum records a generating activity exactly when the record
      names a measurement technique IRI. */
  lemma MeasurementGate(rec: Record)
    requires MapRecord(rec).Success?
    ensures MapRecord(rec).value.spectrum.wasGeneratedBy.Some? <==> Has(rec, TechniqueIriKey)
    ensures MapRecord(rec).value.measurement.Some? <==> Has(rec, TechniqueIriKey)
  {
  }

  /** The sample's attribute types do not depend on the record: any two
      mapped records carry the same four terms in the same order. */
  lemma SampleTermsFixed(rec1: Record, rec2: Record)
    requires MapRecord(rec1).Success? && MapRecord(rec2).Success?
    ensures var a1 := MapRecord(rec1).value.sample.hasQualitativeAttribute;
            var a2 := MapRecord(rec2).value.sample.hasQualitativeAttribute;
            |a1| == |a2| == 4 && forall i :: 0 <= i < 4 ==> a1[i].rdfType == a2[i].rdfType
  {
  }

  /** Without a DOI, an id made only of whitespace yields an empty dataset
      IRI: nothing in `graph_from_dataset` rejects it. */
  lemma BlankIdGivesEmptyIri(rec: Record)
    requires !Has(rec, "doi") && "id" in rec
    requires forall k :: 0 <= k < |rec["id"]| ==> IsSpace(rec["id"][k])
    ensures DatasetId(rec) == Success("")
  {
  }
}
