/** The response models of `/search` and `/autocomplete`: literals, the best display label,
    concepts and a page of results. */
module Concepts {
  import opened Wrappers
  import opened Seqs
  import opened Json

  /** `RDFLiteral`: a text with an optional language tag and an optional highlighted snippet. */
  datatype RdfLiteral = RdfLiteral(text: Option<string>, lang: Option<string>, highlight: Option<string>)

  /** The field a best label was taken from; `BestLabel.source_field` admits no other value. */
  datatype SourceField = Pref | Alt | Description | SearchAll

  /** `BestLabel`: an `RDFLiteral` plus the field it was taken from. */
  datatype BestLabel = BestLabel(
    text: Option<string>, lang: Option<string>, highlight: Option<string>, sourceField: SourceField)

  /** A score is the float `float(source)` computed from a hit's `_score`; nothing is computed
      with it, so the model keeps the value it was converted from. */
  datatype Score = Score(source: Json)

  /** An entry of `broader` / `narrower`: an identifier or a nested concept. */
  datatype Relation = RelId(id: string) | RelConcept(concept: Concept)

  datatype Concept = Concept(
    iri: string,
    scheme: Option<string>,
    vocab: Option<string>,
    identifier: Option<string>,
    topConcept: Option<bool>,
    langSet: Option<seq<string>>,
    score: Option<Score>,
    bestLabel: Option<BestLabel>,
    pref: Option<seq<RdfLiteral>>,
    alt: Option<seq<RdfLiteral>>,
    description: Option<seq<RdfLiteral>>,
    broader: seq<Relation>,
    narrower: seq<Relation>)

  datatype SearchResults = SearchResults(total: int, items: seq<Concept>)

  /** An `RDFLiteral()` built with no argument. */
  function EmptyLiteral(): (l: RdfLiteral)
    ensures l.text.None? && l.lang.None? && l.highlight.None?
  {
    RdfLiteral(None, None, None)
  }

  /** The `lang_set` validator, `list(set(v))`: `None` stays `None`, a list loses its
      duplicates and keeps exactly its elements. Python leaves the order of the result to
      the set's iteration order; the model keeps first occurrences. */
  function DedupLangSet(v: Option<seq<string>>): (r: Option<seq<string>>)
    ensures r.None? <==> v.None?
    ensures r.Some? ==> NoDup(r.value)
    ensures r.Some? ==> forall x :: x in r.value <==> x in v.value
    ensures r.Some? ==> |r.value| <= |v.value|
  {
    match v
    case None => None
    case Some(s) =>
      DedupNoLonger(s);
      Some(Dedup(s))
  }

  lemma {:induction false} DedupNoLonger(s: seq<string>)
    ensures |Dedup(s)| <= |s|
    decreases |s|
  {
    if s != [] {
      var p := s[..|s| - 1];
      DedupNoLonger(p);
      DedupSnoc(p, s[|s| - 1]);
      assert p + [s[|s| - 1]] == s;
    }
  }

  /** `Concept(iri=..., ...)`: `iri` is the only required field; `broader` and `narrower`
      default to empty lists and every other field to `None`; the `lang_set` validator runs
      on the value given. */
  function MakeConcept(
    iri: string, scheme: Option<string>, topConcept: Option<bool>, langSet: Option<seq<string>>,
    score: Option<Score>, bestLabel: Option<BestLabel>, pref: Option<seq<RdfLiteral>>,
    alt: Option<seq<RdfLiteral>>, description: Option<seq<RdfLiteral>>,
    broader: seq<Relation>, narrower: seq<Relation>): (c: Concept)
    ensures c.iri == iri && c.scheme == scheme && c.topConcept == topConcept
    ensures c.vocab.None? && c.identifier.None?
    ensures c.langSet == DedupLangSet(langSet)
    ensures c.score == score && c.bestLabel == bestLabel
    ensures c.pref == pref && c.alt == alt && c.description == description
    ensures c.broader == broader && c.narrower == narrower
  {
    Concept(iri, scheme, None, None, topConcept, DedupLangSet(langSet), score, bestLabel,
            pref, alt, description, broader, narrower)
  }

  /** `Concept(iri=iri)` with every default. */
  function ConceptWithDefaults(iri: string): (c: Concept)
    ensures c.iri == iri
    ensures c.broader == [] && c.narrower == []
    ensures c.scheme.None? && c.vocab.None? && c.identifier.None? && c.topConcept.None?
    ensures c.langSet.None? && c.score.None? && c.bestLabel.None?
    ensures c.pref.None? && c.alt.None? && c.description.None?
  {
    MakeConcept(iri, None, None, None, None, None, None, None, None, [], [])
  }
}

/** The `/vocabs` listing item. */
module Vocabs {
  import opened Json

  datatype VocabStatus = Ok | Unavailable

  /** `Vocabulary`. The probe assigns `languages` after construction, which pydantic does not
      validate, so its entries are whatever the backend sent. */
  datatype Vocabulary = Vocabulary(
    identifier: string, languages: seq<Json>, docCount: int, status: VocabStatus)
}
