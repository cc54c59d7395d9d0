/**
 `run_research_workflow` in backend/Services.py: the folder name derived
 from the topic, the initial state, and the workflow run on it; followed by
 the end-to-end behaviours a run from that state has.
 */
module Research {
  import opened Wrappers
  import opened PyStr
  import opened Pipeline
  import opened Nodes
  import opened Workflow

  /** `query.lower().replace(' ', '_').replace('&', 'and')`. */
  function CleanQuery(query: string): (r: string)
    ensures forall c :: c in r ==> c != ' ' && c != '&' && !IsUpper(c)
    ensures forall c :: c in r ==> c in query || 'a' <= c <= 'z' || c == '_'
  {
    var lowered := Lower(query);
    var spaced := Replace(lowered, ' ', "_");
    LowerChars(query);
    ReplaceChars(lowered, ' ', "_");
    ReplaceChars(spaced, '&', "and");
    Replace(spaced, '&', "and")
  }

  /** What one character of the topic becomes in the folder name. */
  function CleanChar(c: char): string {
    if c == '&' then "and" else if c == ' ' then "_" else [LowerChar(c)]
  }

  /** Cleaning works character by character. */
  lemma CleanQueryConcat(a: string, b: string)
    ensures CleanQuery(a + b) == CleanQuery(a) + CleanQuery(b)
  {
    LowerConcat(a, b);
    ReplaceConcat(Lower(a), Lower(b), ' ', "_");
    ReplaceConcat(Replace(Lower(a), ' ', "_"), Replace(Lower(b), ' ', "_"), '&', "and");
  }

  lemma CleanQuerySingle(c: char)
    ensures CleanQuery([c]) == CleanChar(c)
  {
    var l := LowerChar(c);
    assert Lower([c]) == [l];
    var m := if l == ' ' then '_' else l;
    assert [l][1..] == [] && [m][1..] == [];
    assert Replace([l], ' ', "_") == [m];
    assert Replace([m], '&', "and") == (if m == '&' then "and" else [m]);
  }

  /** Each '&' grows the name by two characters; every other character maps to one. */
  lemma {:induction false} CleanQueryLength(query: string)
    ensures |CleanQuery(query)| == |query| + 2 * Count(query, '&')
  {
    if |query| > 0 {
      assert query == [query[0]] + query[1..];
      CleanQueryConcat([query[0]], query[1..]);
      CleanQuerySingle(query[0]);
      CleanQueryLength(query[1..]);
    }
  }

  /** A cleaned name is already clean. */
  lemma CleanQueryIdempotent(query: string)
    ensures CleanQuery(CleanQuery(query)) == CleanQuery(query)
  {
    var r := CleanQuery(query);
    LowerNoUpper(r);
    ReplaceAbsent(r, ' ', "_");
    ReplaceAbsent(r, '&', "and");
  }

  const SaveRoot := "arxiv_papers"
  const IndexRoot := "chroma_db"

  /**
   The state `run_research_workflow` hands to the graph: the request's
   values, per-topic folders, and no outputs or error yet, so the router's
   first choice is the download node.
   */
  function InitialState(query: string, researchQuestion: Value, groqApiKey: Value,
                        maxResults: Value, groqModelName: Value): (s: ResearchState)
    ensures NoOutputs(s) && s.error == None && Router(s) == ToDownload
    ensures s.query == query && s.researchQuestion == Some(researchQuestion)
    ensures s.groqApiKey == Some(groqApiKey) && s.groqModelName == Some(groqModelName)
    ensures s.maxResults == Some(maxResults)
    ensures s.saveDir == Some(SaveRoot + "/" + CleanQuery(query))
    ensures s.persistDirectory == Some(IndexRoot + "/" + CleanQuery(query))
  {
    var clean := CleanQuery(query);
    ResearchState(
      query := query,
      maxResults := Some(maxResults),
      saveDir := Some(SaveRoot + "/" + clean),
      persistDirectory := Some(IndexRoot + "/" + clean),
      groqApiKey := Some(groqApiKey),
      groqModelName := Some(groqModelName),
      downloadedPapers := [],
      vectordbCreated := false,
      qaChain := None,
      researchQuestion := Some(researchQuestion),
      finalAnswer := "",
      error := None)
  }

  /**
   The download and index folders are per topic: for a topic without '/',
   the last path segment of each is the cleaned topic, so topics that clean
   differently never share a folder.
   */
  lemma FoldersNamedByTopic(query: string, researchQuestion: Value, groqApiKey: Value,
                            maxResults: Value, groqModelName: Value)
    requires '/' !in query
    ensures var s := InitialState(query, researchQuestion, groqApiKey, maxResults, groqModelName);
      && LastSegment(s.saveDir.value) == CleanQuery(query)
      && LastSegment(s.persistDirectory.value) == CleanQuery(query)
  {
    var clean := CleanQuery(query);
    assert '/' !in clean;
    LastSegmentUnique(SaveRoot + "/" + clean, SaveRoot + "/", clean);
    LastSegmentUnique(IndexRoot + "/" + clean, IndexRoot + "/", clean);
  }

  /**
   `run_research_workflow`: the graph run from the initial state. It starts
   at the download node and keeps every guarantee of a good run: monotonic
   progress, only node-written errors, and an END that is either the error
   report or the chain's reply.
   */
  function RunResearchWorkflow(query: string, researchQuestion: Value, groqApiKey: Value,
                               maxResults: Value, groqModelName: Value, w: World): (run: Run)
    ensures RunGood(InitialState(query, researchQuestion, groqApiKey, maxResults, groqModelName), run, w)
    ensures run.trace[0] == DownloadNode
  {
    var init := InitialState(query, researchQuestion, groqApiKey, maxResults, groqModelName);
    InvokeFacts(init, w);
    Invoke(init, w)
  }

  // ---- end-to-end behaviours ------------------------------------------------

  /** No entry raises while the download loop reads it. */
  predicate AllReadable(es: seq<FeedEntry>) {
    forall i :: 0 <= i < |es| ==> EntryFault(es[i]).None?
  }

  /**
   A feed that yields no saved paper is not an error: the router sends the
   download node back to `download_papers`, which its path map lacks, so
   the run stops after the first node with no edge to follow.
   */
  lemma NothingDownloadedHasNoEdge(init: ResearchState, w: World)
    requires NoOutputs(init) && !HasError(init)
    requires w.feed(FeedUrl(init)).Entries?
    requires AllReadable(w.feed(FeedUrl(init)).entries)
    requires CountFetched(w.feed(FeedUrl(init)).entries) == 0
    ensures Invoke(init, w) == Run([DownloadNode], [init], NoEdge(ToDownload))
  {
    var s' := DownloadPapers(init, w);
    assert s'.downloadedPapers == init.downloadedPapers;
    assert s' == init;
  }

  /**
   An entry whose reading raises aborts the download with the prefixed
   exception text; the run goes straight to the error report and ends.
   */
  lemma UnreadableEntryIsReported(init: ResearchState, w: World)
    requires NoOutputs(init) && !HasError(init)
    requires w.feed(FeedUrl(init)).Entries?
    requires FirstFault(w.feed(FeedUrl(init)).entries).Some?
    ensures var m := DownloadPrefix + FirstFault(w.feed(FeedUrl(init)).entries).value;
      var run := Invoke(init, w);
      && run.trace == [DownloadNode, ErrorNode] && run.halt == ReachedEnd
      && LastState(run).error == Some(m)
      && LastState(run).finalAnswer == FailurePrefix + m
      && LastState(run).downloadedPapers == []
  {
    var s1 := DownloadPapers(init, w);
    var s2 := HandleError(s1);
    assert Router(s1) == ToErrorHandler;
    RunStops(ErrorNode, s1, w, ReachedEnd);
    RunEnters(DownloadNode, init, w, ErrorNode, RunFrom(ErrorNode, s1, w));
  }

  /** The download fills the paper list and the index gets built: the run reaches the chain node. */
  predicate IndexedRun(init: ResearchState, w: World) {
    && w.feed(FeedUrl(init)).Entries?
    && AllReadable(w.feed(FeedUrl(init)).entries)
    && CountFetched(w.feed(FeedUrl(init)).entries) > 0
    && IndexBuilds(w)
  }

  /** On an indexed run the first two nodes only add the papers and the index flag. */
  lemma IndexedPrefix(init: ResearchState, w: World)
    requires NoOutputs(init) && !HasError(init) && IndexedRun(init, w)
    ensures var s1 := DownloadPapers(init, w);
      && Router(s1) == ToVectordb
      && |s1.downloadedPapers| == CountFetched(w.feed(FeedUrl(init)).entries)
      && CreateVectordb(s1, w) == init.(downloadedPapers := s1.downloadedPapers, vectordbCreated := true)
  {
  }

  /** A clean download with a fetched paper only adds papers, so the index node is next. */
  lemma DownloadedPrefix(init: ResearchState, w: World)
    requires NoOutputs(init) && !HasError(init)
    requires w.feed(FeedUrl(init)).Entries?
    requires AllReadable(w.feed(FeedUrl(init)).entries)
    requires CountFetched(w.feed(FeedUrl(init)).entries) > 0
    ensures var s1 := DownloadPapers(init, w);
      && Router(s1) == ToVectordb
      && s1 == init.(downloadedPapers := s1.downloadedPapers)
  {
  }

  /** Papers are saved but no listed file yields a page: the run reports the empty corpus. */
  lemma EmptyCorpusIsReported(init: ResearchState, w: World)
    requires NoOutputs(init) && !HasError(init)
    requires w.feed(FeedUrl(init)).Entries?
    requires AllReadable(w.feed(FeedUrl(init)).entries)
    requires CountFetched(w.feed(FeedUrl(init)).entries) > 0
    requires w.listing.Files? && PageTotal(w.listing.files) == 0
    ensures var run := Invoke(init, w);
      && run.trace == [DownloadNode, VectordbNode, ErrorNode] && run.halt == ReachedEnd
      && LastState(run).error == Some(NoValidPdfMessage)
      && LastState(run).finalAnswer == FailurePrefix + NoValidPdfMessage
      && !LastState(run).vectordbCreated
  {
    var s1 := DownloadPapers(init, w);
    var s2 := CreateVectordb(s1, w);
    var s3 := HandleError(s2);
    DownloadedPrefix(init, w);
    assert Router(s2) == ToErrorHandler;
    RunStops(ErrorNode, s2, w, ReachedEnd);
    var r2 := RunFrom(ErrorNode, s2, w);
    RunEnters(VectordbNode, s1, w, ErrorNode, r2);
    var r1 := RunFrom(VectordbNode, s1, w);
    RunEnters(DownloadNode, init, w, VectordbNode, r1);
  }

  /**
   With the index built but no usable API key, the chain node reports the
   missing key and the run ends in the error report, without a chain.
   */
  lemma MissingKeyIsReported(init: ResearchState, w: World)
    requires NoOutputs(init) && !HasError(init) && IndexedRun(init, w)
    requires KeyMissing(init)
    ensures var run := Invoke(init, w);
      && run.trace == [DownloadNode, VectordbNode, QaChainNode, ErrorNode] && run.halt == ReachedEnd
      && LastState(run).error == Some(MissingKeyMessage)
      && LastState(run).finalAnswer == FailurePrefix + MissingKeyMessage
      && LastState(run).qaChain.None?
      && |LastState(run).downloadedPapers| == CountFetched(w.feed(FeedUrl(init)).entries)
  {
    var s1 := DownloadPapers(init, w);
    var s2 := CreateVectordb(s1, w);
    var s3 := CreateQaChain(s2, w);
    var s4 := HandleError(s3);
    IndexedPrefix(init, w);
    assert Router(s2) == ToQaChain;
    assert Router(s3) == ToErrorHandler;
    RunStops(ErrorNode, s3, w, ReachedEnd);
    var r3 := RunFrom(ErrorNode, s3, w);
    RunEnters(QaChainNode, s2, w, ErrorNode, r3);
    var r2 := RunFrom(QaChainNode, s2, w);
    RunEnters(VectordbNode, s1, w, QaChainNode, r2);
    var r1 := RunFrom(VectordbNode, s1, w);
    RunEnters(DownloadNode, init, w, VectordbNode, r1);
  }

  /**
   The happy path: papers saved, index built, chain built from the state's
   configuration, and a non-empty reply to the question. The run visits the
   four stages in order, ends at END with no error, and the final answer is
   the reply.
   */
  lemma HappyPath(init: ResearchState, w: World, reply: string)
    requires NoOutputs(init) && !HasError(init) && IndexedRun(init, w)
    requires !KeyMissing(init) && w.buildChain(ChainConfig(init)).Completed?
    requires Truthy(Question(init))
    requires w.ask(ChainConfig(init), Question(init)) == Replied(reply) && |reply| > 0
    ensures var run := Invoke(init, w);
      && run.trace == [DownloadNode, VectordbNode, QaChainNode, AnswerNode] && run.halt == ReachedEnd
      && LastState(run).finalAnswer == reply && LastState(run).error == init.error
      && |LastState(run).downloadedPapers| == CountFetched(w.feed(FeedUrl(init)).entries)
  {
    var s1 := DownloadPapers(init, w);
    var s2 := CreateVectordb(s1, w);
    var s3 := CreateQaChain(s2, w);
    var s4 := AnswerQuestion(s3, w);
    IndexedPrefix(init, w);
    assert Router(s2) == ToQaChain;
    assert ChainConfig(s2) == ChainConfig(init);
    assert Router(s3) == ToAnswer;
    assert Question(s3) == Question(init);
    assert Router(s4) == ToEnd;
    RunStops(AnswerNode, s3, w, ReachedEnd);
    var r3 := RunFrom(AnswerNode, s3, w);
    RunEnters(QaChainNode, s2, w, AnswerNode, r3);
    var r2 := RunFrom(QaChainNode, s2, w);
    RunEnters(VectordbNode, s1, w, QaChainNode, r2);
    var r1 := RunFrom(VectordbNode, s1, w);
    RunEnters(DownloadNode, init, w, VectordbNode, r1);
  }

  /** The same path with an empty reply: the answer node is routed back to itself, which has no edge. */
  lemma EmptyReplyHasNoEdge(init: ResearchState, w: World)
    requires NoOutputs(init) && !HasError(init) && IndexedRun(init, w)
    requires !KeyMissing(init) && w.buildChain(ChainConfig(init)).Completed?
    requires Truthy(Question(init))
    requires w.ask(ChainConfig(init), Question(init)) == Replied("")
    ensures var run := Invoke(init, w);
      && run.trace == [DownloadNode, VectordbNode, QaChainNode, AnswerNode]
      && run.halt == NoEdge(ToAnswer) && !HasError(LastState(run))
  {
    var s1 := DownloadPapers(init, w);
    var s2 := CreateVectordb(s1, w);
    var s3 := CreateQaChain(s2, w);
    var s4 := AnswerQuestion(s3, w);
    IndexedPrefix(init, w);
    assert Router(s2) == ToQaChain;
    assert ChainConfig(s2) == ChainConfig(init);
    assert Router(s3) == ToAnswer;
    assert Question(s3) == Question(init);
    assert Router(s4) == ToAnswer;
    RunStops(AnswerNode, s3, w, NoEdge(ToAnswer));
    var r3 := RunFrom(AnswerNode, s3, w);
    RunEnters(QaChainNode, s2, w, AnswerNode, r3);
    var r2 := RunFrom(QaChainNode, s2, w);
    RunEnters(VectordbNode, s1, w, QaChainNode, r2);
    var r1 := RunFrom(VectordbNode, s1, w);
    RunEnters(DownloadNode, init, w, VectordbNode, r1);
  }
}
