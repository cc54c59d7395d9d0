/**
 The shared record threaded through the research workflow (`ResearchState`
 in backend/Services.py) and the Python truthiness tests the nodes and the
 router apply to its fields.
 */
module Pipeline {
  import opened Wrappers
  import PyStr

  /** A JSON scalar from the request body: the values the front door copies into the state. */
  datatype Value = Text(text: string) | Number(number: int)

  /** Python truthiness: a non-empty string or a non-zero int. */
  predicate Truthy(v: Value) {
    match v
    case Text(t) => |t| > 0
    case Number(n) => n != 0
  }

  /** How an f-string renders the value. */
  function Render(v: Value): string {
    match v
    case Text(t) => t
    case Number(n) => PyStr.IntToDecimal(n)
  }

  /** Number of passages the retriever returns (`search_kwargs={"k": 5}`). */
  const RetrieverTopK: nat := 5

  /**
   The assembled retrieval-QA chain, kept as the configuration it was built
   from: the model name, the API key, the index directory and top-k.
   */
  datatype QaChain = QaChain(model: Value, apiKey: Value, persistDirectory: string, topK: nat)

  /**
   `ResearchState`. The fields the nodes read with `state.get(key, default)`
   are optional so that the defaults are part of the model; the stage
   outputs and the error are always present.
   */
  datatype ResearchState = ResearchState(
    query: string,
    maxResults: Option<Value>,
    saveDir: Option<string>,
    persistDirectory: Option<string>,
    groqApiKey: Option<Value>,
    groqModelName: Option<Value>,
    downloadedPapers: seq<string>,
    vectordbCreated: bool,
    qaChain: Option<QaChain>,
    researchQuestion: Option<Value>,
    finalAnswer: string,
    error: Option<string>)

  /** `state.get("error")` is truthy: present and non-empty. */
  predicate HasError(s: ResearchState) {
    s.error.Some? && |s.error.value| > 0
  }

  predicate HasPapers(s: ResearchState) {
    |s.downloadedPapers| > 0
  }

  predicate HasChain(s: ResearchState) {
    s.qaChain.Some?
  }

  predicate HasAnswer(s: ResearchState) {
    |s.finalAnswer| > 0
  }

  /** None of the four stage outputs has been produced yet. */
  predicate NoOutputs(s: ResearchState) {
    !HasPapers(s) && !s.vectordbCreated && !HasChain(s) && !HasAnswer(s)
  }

  /**
   Monotonic progress from `a` to `b`: a produced paper list is kept as is,
   a created index stays created, a built chain stays the same chain, a
   non-empty answer stays non-empty, and an error is never cleared.
   */
  predicate Progress(a: ResearchState, b: ResearchState) {
    && (HasPapers(a) ==> b.downloadedPapers == a.downloadedPapers)
    && (a.vectordbCreated ==> b.vectordbCreated)
    && (HasChain(a) ==> b.qaChain == a.qaChain)
    && (HasAnswer(a) ==> HasAnswer(b))
    && (HasError(a) ==> HasError(b))
  }

  lemma ProgressTransitive(a: ResearchState, b: ResearchState, c: ResearchState)
    requires Progress(a, b) && Progress(b, c)
    ensures Progress(a, c)
  {
  }
}
