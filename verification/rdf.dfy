/** The fragment of RDF the profile writes: terms, triples, graphs as
    sets of triples, and the vocabulary IRIs used by the hand-built
    triples and by the reverse extraction. */
module Rdf {

  /** An RDF term: an IRI (`URIRef`), a blank node (`BNode`, identified by
      its id) or a literal (only its lexical form is kept). */
  datatype Term = Iri(iri: string) | Blank(id: string) | Lit(lexical: string)

  datatype Triple = Triple(subj: Term, pred: Term, obj: Term)

  /** An rdflib graph: an unordered, duplicate-free collection of triples. */
  type Graph = set<Triple>

  /** Python's `str(term)`: the IRI, the blank-node id or the lexical form. */
  function TermText(t: Term): string {
    match t
    case Iri(s) => s
    case Blank(s) => s
    case Lit(s) => s
  }

  const RdfNs := "http://www.w3.org/1999/02/22-rdf-syntax-ns#"
  const DctNs := "http://purl.org/dc/terms/"
  const DcatNs := "http://www.w3.org/ns/dcat#"
  const SkosNs := "http://www.w3.org/2004/02/skos/core#"

  const RdfType := Iri(RdfNs + "type")

  const DctConformsTo := Iri(DctNs + "conformsTo")
  const DctStandard := Iri(DctNs + "Standard")
  const DctLinguisticSystem := Iri(DctNs + "LinguisticSystem")
  const DctLanguage := Iri(DctNs + "language")
  const DctIdentifier := Iri(DctNs + "identifier")
  const DctTitle := Iri(DctNs + "title")
  const DctDescription := Iri(DctNs + "description")

  const DcatTheme := Iri(DcatNs + "theme")
  const SkosPrefLabel := Iri(SkosNs + "prefLabel")
}
