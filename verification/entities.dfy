/** The slots of the NFDI4Chem DCAT application-profile classes that the
    mapping fills in. Every class is an immutable value; nested entities
    are held by value, as the serialiser walks them recursively. */
module Entities {
  import opened Wrappers

  /** A controlled-vocabulary term: an id (CURIE or IRI) and a label. The
      label of a measurement technique comes straight from the record and
      may be absent. */
  datatype DefinedTerm = DefinedTerm(id: string, title: Option<string>)

  /** A typed property of the sample; it has no identifier of its own. */
  datatype QualitativeAttribute =
    QualitativeAttribute(rdfType: DefinedTerm, title: string, value: Option<string>)

  /** The sample the dataset is about. */
  datatype EvaluatedEntity =
    EvaluatedEntity(id: string, hasQualitativeAttribute: seq<QualitativeAttribute>)

  /** The data-creating activity (the measurement). */
  datatype Activity = Activity(id: string, rdfType: DefinedTerm)

  /** The source data of the analysis (the spectrum). */
  datatype AnalysisSourceData =
    AnalysisSourceData(id: string, rdfType: DefinedTerm, wasGeneratedBy: Option<Activity>)

  /** The analysis that produced the dataset. */
  datatype DataAnalysis =
    DataAnalysis(id: string, rdfType: DefinedTerm, evaluatedEntity: seq<AnalysisSourceData>)

  datatype Agent = Agent(name: string)
  datatype Standard = Standard(id: string)
  datatype Document = Document(id: string)
  datatype LinguisticSystem = LinguisticSystem(languageTag: string)

  /** The root of the provenance chain. */
  datatype AnalysisDataset = AnalysisDataset(
    id: string,
    title: Option<string>,
    description: string,
    wasGeneratedBy: DataAnalysis,
    identifier: string,
    isAboutEntity: EvaluatedEntity,
    conformsTo: Standard,
    creator: seq<Agent>,
    landingPage: Option<Document>,
    releaseDate: Option<string>,
    modificationDate: Option<string>,
    language: seq<LinguisticSystem>)
}
