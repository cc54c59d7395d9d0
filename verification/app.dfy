/**
 The `/research` endpoint of backend/app.py: required-key check, defaults,
 one workflow run, and the projection of the final state into the reply.
 */
module App {
  import opened Wrappers
  import opened Pipeline
  import opened Nodes
  import opened Workflow
  import opened Research

  const MissingFieldsMessage := "Missing required fields: query, research_question, groq_api_key"
  /** `str` of the AttributeError `query.lower()` raises when the query is a number. */
  const NumberQueryMessage := "'int' object has no attribute 'lower'"

  /** The reply: a 400 rejection, a 200 projection of the final state, or a 500 with the exception text. */
  datatype Response =
    | BadRequest(message: string)
    | Ok(success: bool, answer: string, papersDownloaded: nat, error: Option<string>)
    | ServerError(message: string)

  /** The HTTP status each kind of reply is sent with. */
  function StatusCode(r: Response): nat {
    match r
    case BadRequest(_) => 400
    case Ok(_, _, _, _) => 200
    case ServerError(_) => 500
  }

  /** A JSON object body (`request.json`). */
  type Body = map<string, Value>

  /** Presence of the three required keys; their values are not inspected. */
  predicate HasRequired(data: Body) {
    "query" in data && "research_question" in data && "groq_api_key" in data
  }

  /** `data.get(key, default)`. */
  function Get(data: Body, key: string, default: Value): Value {
    if key in data then data[key] else default
  }

  /** The state the workflow starts from, with the endpoint's defaults applied. */
  function RequestState(data: Body): (s: ResearchState)
    requires HasRequired(data) && data["query"].Text?
    ensures s.maxResults == Some(if "max_results" in data then data["max_results"] else Number(DefaultMaxResults))
    ensures s.groqModelName == Some(if "groq_model_name" in data then data["groq_model_name"] else Text(DefaultModel))
    ensures s.groqApiKey == Some(data["groq_api_key"]) && s.researchQuestion == Some(data["research_question"])
    ensures s.query == data["query"].text
  {
    InitialState(data["query"].text, data["research_question"], data["groq_api_key"],
                 Get(data, "max_results", Number(DefaultMaxResults)),
                 Get(data, "groq_model_name", Text(DefaultModel)))
  }

  /**
   `research()`. `body` is `request.json` (None when there is none);
   `w` stands for everything the workflow reaches outside itself, and
   `runtimeError` for the text of the exception the graph runtime raises
   when a router result has no edge.
   */
  function HandleResearch(body: Option<Body>, w: World, runtimeError: Route -> string): (r: Response)
    ensures StatusCode(r) == 400 <==> body.None? || !HasRequired(body.value)
    ensures r.BadRequest? ==> r.message == MissingFieldsMessage
    ensures r.Ok? ==> r.success
    ensures StatusCode(r) == 200 <==> && body.Some? && HasRequired(body.value) && body.value["query"].Text?
                                      && Invoke(RequestState(body.value), w).halt == ReachedEnd
    ensures r.Ok? ==>
      var last := LastState(Invoke(RequestState(body.value), w));
      r.answer == last.finalAnswer && r.papersDownloaded == |last.downloadedPapers| && r.error == last.error
    ensures r.ServerError? ==>
      && body.Some? && HasRequired(body.value)
      && if body.value["query"].Number? then r.message == NumberQueryMessage
         else
           && Invoke(RequestState(body.value), w).halt.NoEdge?
           && r.message == runtimeError(Invoke(RequestState(body.value), w).halt.route)
  {
    if body.None? || !HasRequired(body.value) then BadRequest(MissingFieldsMessage)
    else
      var data := body.value;
      match data["query"]
      case Number(_) => ServerError(NumberQueryMessage)
      case Text(query) =>
        var run := RunResearchWorkflow(query, data["research_question"], data["groq_api_key"],
                                       Get(data, "max_results", Number(DefaultMaxResults)),
                                       Get(data, "groq_model_name", Text(DefaultModel)), w);
        match run.halt
        case ReachedEnd =>
          var last := LastState(run);
          Ok(true, last.finalAnswer, |last.downloadedPapers|, last.error)
        case NoEdge(route) => ServerError(runtimeError(route))
  }

  /** A rejected request never reaches the workflow: the reply does not depend on it. */
  lemma RejectionSkipsWorkflow(body: Option<Body>, w1: World, w2: World,
                               e1: Route -> string, e2: Route -> string)
    requires body.None? || !HasRequired(body.value)
    ensures HandleResearch(body, w1, e1) == HandleResearch(body, w2, e2) == BadRequest(MissingFieldsMessage)
  {
  }

  /**
   An empty API key passes the front door; the chain node then rejects it,
   and the reply is still a 200 with `success` set, carrying the error and
   its failure report.
   */
  lemma EmptyKeyPassesFrontDoor(data: Body, w: World, e: Route -> string)
    requires HasRequired(data) && data["query"].Text? && data["groq_api_key"] == Text("")
    requires IndexedRun(RequestState(data), w)
    ensures HandleResearch(Some(data), w, e) ==
      Ok(true, FailurePrefix + MissingKeyMessage,
         CountFetched(w.feed(FeedUrl(RequestState(data))).entries), Some(MissingKeyMessage))
  {
    MissingKeyIsReported(RequestState(data), w);
  }

  /** A search that saves no paper makes the workflow raise, so the reply is a 500. */
  lemma NoPapersIsServerError(data: Body, w: World, e: Route -> string)
    requires HasRequired(data) && data["query"].Text?
    requires w.feed(FeedUrl(RequestState(data))).Entries?
    requires AllReadable(w.feed(FeedUrl(RequestState(data))).entries)
    requires CountFetched(w.feed(FeedUrl(RequestState(data))).entries) == 0
    ensures HandleResearch(Some(data), w, e) == ServerError(e(ToDownload))
  {
    NothingDownloadedHasNoEdge(RequestState(data), w);
  }

  /**
   An unreadable feed entry is not a server error: the reply is a 200
   whose answer is the failure report of the prefixed exception text.
   */
  lemma UnreadableEntryIsOk(data: Body, w: World, e: Route -> string)
    requires HasRequired(data) && data["query"].Text?
    requires w.feed(FeedUrl(RequestState(data))).Entries?
    requires FirstFault(w.feed(FeedUrl(RequestState(data))).entries).Some?
    ensures var m := DownloadPrefix + FirstFault(w.feed(FeedUrl(RequestState(data))).entries).value;
      HandleResearch(Some(data), w, e) == Ok(true, FailurePrefix + m, 0, Some(m))
  {
    UnreadableEntryIsReported(RequestState(data), w);
  }

  /** Every 200 reply is either a real answer with no error, or the failure report of its error. */
  lemma OkReplyShape(body: Option<Body>, w: World, e: Route -> string)
    ensures var r := HandleResearch(body, w, e);
      r.Ok? ==>
      || (r.error.Some? && |r.error.value| > 0 && r.answer == FailurePrefix + r.error.value)
      || (r.error.None? && |r.answer| > 0 && r.papersDownloaded > 0)
  {
    if HandleResearch(body, w, e).Ok? {
      InvokeFacts(RequestState(body.value), w);
    }
  }
}
