# Research workflow orchestrator — a Dafny model

This project models the orchestration core of a small research-assistant
backend. The backend fetches arXiv papers for a topic, builds a Chroma
vector index from their PDFs, assembles a Groq-backed retrieval-QA chain,
and answers a research question. Five LangGraph nodes share one
`ResearchState` record:

- `download_papers`
- `create_vectordb`
- `create_qa_chain`
- `answer_question`
- `error_handler`

A pure `router` picks the next node from the state. Each node's conditional
edge only accepts the router results in its own path map. A Flask endpoint,
`/research`, validates the request and runs the graph once.

The model is functional:

- `Pipeline.ResearchState` is an immutable datatype.
- Each node is a pure function of the state and a `World` of oracles. The
  oracles stand for the external calls: the feed at a URL, the save-folder
  listing, indexing, chain building, and asking the chain.
- `Workflow.RunFrom` follows the edge table from the entry node. It stops
  when it reaches END or when the router names a node the current node has
  no edge to. In the second case the graph runtime raises.
- `App.HandleResearch` is the endpoint.

Modules:

- `wrappers.dfy`: `Option`.
- `pystr.dfy`: the Python string operations used. These are ASCII `lower`,
  one-character `replace`, `endswith`, `split('/')[-1]`, `os.path.join` and
  `str(int)`.
- `pipeline.dfy`: the state, request values, truthiness and monotonic progress.
- `nodes.dfy`: the five nodes.
- `workflow.dfy`: the router, the edges and runs.
- `research.dfy`: `run_research_workflow` and end-to-end runs.
- `app.dfy`: the endpoint.

Behaviour the code has that a reader might not expect:

- When the feed saves no paper, the run does not end in a "no documents"
  error. The paper list stays empty without an error, so the router answers
  `download_papers`. The download node's path map has no such key, so the
  workflow raises and the endpoint replies 500
  (`Research.NothingDownloadedHasNoEdge`, `App.NoPapersIsServerError`).
  The model follows the code here.
- Likewise, if the chain replies with an empty `result`, the answer node is
  routed back to itself. That has no edge either
  (`Research.EmptyReplyHasNoEdge`).
- `download_papers_node` does not check the error field; the other three
  stage nodes do.
- Reading an entry's `title`, `links[1]`, `href` or `id` happens outside the
  per-entry `try`. If one of them raises, the whole download aborts with the
  prefixed exception text, and the run ends in the error report with a 200
  reply. The entry is not skipped (`Nodes.SavedPaths`,
  `App.UnreadableEntryIsOk`).
- When `research_question` is absent, the answer node asks the topic query
  instead.
- The missing-key message is "Groq API key not provided".

## Model

| member | source | states |
|---|---|---|
| PyStr.LastSegment | backend/Services.py:50 | `id.split('/')[-1]` is the '/'-free suffix that cannot be extended; these properties determine it uniquely |
| PyStr.LastSegmentOfJoin | backend/Services.py:50-52 | splitting `os.path.join(save_dir, filename)` on '/' gives back the file name |
| PyStr.NatToDecimalRoundTrip | backend/Services.py:39 | `str` of a count is made of digits and reads back as the same number |
| PyStr.IntToDecimalInjective | backend/Services.py:39 | distinct integers render as distinct strings |
| PyStr.ReplaceChars | backend/Services.py:285 | one-character `replace` removes the pattern (when the replacement does not hold it) and adds only replacement characters |
| PyStr.ReplaceLength | backend/Services.py:285 | one-character `replace` grows the string by `len(rep)-1` per occurrence of the pattern |
| Nodes.SearchTerms | backend/Services.py:39 | the search terms are the query with each space turned into '+', same length, no spaces |
| Nodes.SearchUrlRecordsMaxResults | backend/Services.py:38-41 | different `max_results` values give different feed URLs |
| Nodes.PaperFilename | backend/Services.py:50-51 | the file name ends in `.pdf`, holds no '/', and its stem is the last segment and a suffix of the entry id |
| Nodes.FirstFault | backend/Services.py:47-50 | the exception the loop meets is that of the first entry whose title, `links[1]`, href or id read raises; there is none exactly when every entry reads cleanly |
| Nodes.SavedPaths | backend/Services.py:44-63 | the loop aborts exactly when some entry's reading raises, with the first such exception; otherwise it yields one path per fetched entry |
| Nodes.SavedPathsComplete | backend/Services.py:44-63 | the path of every fetched entry is in the list |
| Nodes.SavedPathsInOrder | backend/Services.py:47-60 | a finished loop's list equals the paths of the fetched entries taken in feed order (filter, then map) |
| Nodes.SavedPathsSound | backend/Services.py:44-63 | every listed path is the path of some fetched entry |
| Nodes.DownloadPapers | backend/Services.py:30-69 | writes only the paper list and the error; a raising feed or an unreadable entry sets the prefixed exception text as the error and keeps the list; otherwise the error is unchanged, the list has one path per fetched entry, holds every fetched entry's path and only such paths |
| Nodes.DownloadPapersInOrder | backend/Services.py:44-63 | when no entry faults, the paper list is exactly the fetched entries' paths, one each, in feed order |
| Nodes.DownloadReadsOnlyItsUrl | backend/Services.py:38-42 | the node's result depends on the feed only at its own search URL |
| Nodes.HeaderTest | backend/Services.py:89-91 | `f.read(4) == b'%PDF'` holds exactly for files of at least four bytes that begin `%PDF` |
| Nodes.PageTotalPositive | backend/Services.py:84-106 | the corpus is non-empty if and only if some `.pdf` file with the `%PDF` header loads with at least one page |
| Nodes.PageTotalPermutation | backend/Services.py:84-102 | the page count does not depend on the order `os.listdir` returns |
| Nodes.CreateVectordb | backend/Services.py:71-125 | no-op on an upstream error; otherwise the index is created exactly when pages load and indexing completes, else the error is the prefixed exception or "No valid PDF documents found to process"; on success only `vectordb_created` is written |
| Nodes.CreateQaChain | backend/Services.py:127-166 | no-op on an error or before the index exists; an absent or falsy key sets "Groq API key not provided" and keeps no chain; a chain is stored only when built from the state's key, model (default `llama-3.1-8b-instant`) and directory with k = 5, leaving the error as it was |
| Nodes.MissingKeyBuildsNothing | backend/Services.py:137-139 | with no key the outcome is the same whatever the chain builder would do, so no client is built |
| Nodes.AnswerQuestion | backend/Services.py:168-190 | no-op on an error or without a chain; an empty question sets "No research question provided"; otherwise the reply becomes the answer or its exception becomes the prefixed error |
| Nodes.QuestionFallback | backend/Services.py:174 | the question is `research_question` when present, else the topic query |
| Nodes.HandleError | backend/Services.py:192-197 | the final answer is "Process failed with error: " followed by the error; nothing else changes |
| Workflow.RouterIsFirstMissing | backend/Services.py:200-212 | the router equals a reference definition: error first, then the first missing output among papers, index, chain and answer, then END |
| Workflow.Next | backend/Services.py:227-263 | the error handler always goes to END; any other edge is taken only if the router's result is in the node's path map, and it leads strictly forward; END follows only the answer node |
| Workflow.RunFrom | backend/Services.py:215-268 | a run starts at its node, visits nodes in strictly increasing pipeline position, and takes at most five steps |
| Workflow.RunVisitsEachNodeOnce | backend/Services.py:227-266 | no node runs twice in one run |
| Workflow.DownloadOnlyAtEntry | backend/Services.py:227-266 | the download node runs only as the entry point |
| Workflow.ErrorNeverCleared | backend/Services.py:74-75 | a truthy error is never cleared; the three guarded stages return the state unchanged on it; every error set is non-empty and is one of the node messages |
| Workflow.PapersOwnedByDownload | backend/Services.py:63 | only the download node writes the paper list |
| Workflow.StepFacts | backend/Services.py:200-263 | one step from a state the node can be entered with makes monotonic progress and either enters the next node correctly, ends in the error report or with all outputs, or finds no edge only after an empty download or an empty reply |
| Workflow.RunFacts | backend/Services.py:200-266 | along a whole run every step makes progress, errors are only node-written ones, and END means either the error report or all four outputs with the chain's reply as the answer |
| Workflow.DownloadRunGood | backend/Services.py:227-268 | the guarantees above for every run that starts at the download node with no outputs yet |
| Workflow.InvokeFacts | backend/Services.py:302-305 | the same guarantees for a run from a state with no outputs yet |
| Research.CleanQuery | backend/Services.py:285 | the folder name has no spaces, no '&' and no upper-case ASCII letters |
| Research.CleanQueryConcat | backend/Services.py:285 | cleaning works character by character |
| Research.CleanQueryLength | backend/Services.py:285 | each '&' adds two characters; every other character maps to one |
| Research.CleanQueryIdempotent | backend/Services.py:285 | cleaning an already cleaned name changes nothing |
| Research.InitialState | backend/Services.py:285-300 | the initial state holds the request values, saves to `arxiv_papers/<clean>` and indexes into `chroma_db/<clean>`, has no outputs and `error` None, and routes to the download node |
| Research.RunResearchWorkflow | backend/Services.py:271-307 | the run starts at the download node and is a good run from the initial state: progress at every step, only node-written errors, and END only at the error report or with the chain's reply |
| Research.FoldersNamedByTopic | backend/Services.py:291-292 | for a topic without '/', both folders end in the cleaned topic |
| Research.UnreadableEntryIsReported | backend/Services.py:47-69 | an entry whose reading raises sends the run from download straight to the error report, with the prefixed exception text and no papers |
| Research.NothingDownloadedHasNoEdge | backend/Services.py:227-234 | a feed that saves nothing stops the run after the download node, with no edge for `download_papers` |
| Research.EmptyCorpusIsReported | backend/Services.py:104-106 | saved papers with no loadable page run download, index and error handler, ending with the no-valid-PDF message |
| Research.MissingKeyIsReported | backend/Services.py:137-139 | with the index built and no key, the run ends in the error report for the missing key, without a chain |
| Research.HappyPath | backend/Services.py:302-305 | with every external step succeeding, the run visits the four stages in order and ends at END with the chain's reply and no error |
| Research.EmptyReplyHasNoEdge | backend/Services.py:254-261 | an empty reply routes the answer node back to itself, which has no edge |
| App.RequestState | backend/app.py:16-22 | the workflow gets the request values, with `max_results` 5 and `groq_model_name` `llama-3.1-8b-instant` when absent |
| App.HandleResearch | backend/app.py:10-32 | status 400 exactly when the body or a required key is missing; 200 with `success` true exactly when the run returns; the 200 body projects the final answer, the paper count and the error; a 500 carries the exception text, from `query.lower()` on a number or from the runtime on a missing edge |
| App.RejectionSkipsWorkflow | backend/app.py:11-13 | a rejected request gets the same 400 whatever the workflow would do |
| App.EmptyKeyPassesFrontDoor | backend/app.py:12 | an empty key passes key-presence validation and comes back as a 200 whose error is the missing-key message |
| App.UnreadableEntryIsOk | backend/app.py:15-29 | an unreadable feed entry gives a 200 whose answer is the failure report of the prefixed exception, with no papers |
| App.NoPapersIsServerError | backend/app.py:31-32 | when the search saves nothing, the reply is a 500 carrying the runtime's exception text |
| App.OkReplyShape | backend/app.py:24-29 | a 200 reply carries either an error with its failure report as the answer, or a non-empty answer, at least one paper and `error` null |

## Left out

- Network and file system. `feedparser.parse`, `requests.get`, `os.makedirs`,
  the file writes and `os.listdir` are oracles in `Nodes.World`. The folder
  listing the index node sees is an input, not derived from the files the
  download node wrote. Those files are side effects the model does not track.
- PDF parsing, text splitting, HuggingFace embeddings and Chroma. These are
  library calls. The model keeps a page count per file and one
  complete-or-raise outcome for split, embed and index together. The chunk
  settings 1000/200 appear only as constants.
- `ChatGroq` and `RetrievalQA`. The chain is an opaque handle. It records
  the configuration it is built from: model, key, index directory and k.
  Building and asking are oracles. The temperature 0.1 and the
  `"stuff"` chain type are configuration and are not modelled.
- The LangGraph runtime internals and `MemorySaver` checkpointing with its
  fixed thread id. When the router's result is outside a node's path map,
  the runtime raises. Its message is library-defined and is passed to
  `App.HandleResearch` as a parameter.
- Research.CleanQuery: lower-cases ASCII letters only, because Python's full
  Unicode `str.lower` tables are not modelled.
- Exceptions raised outside every node's `try`, other than a numeric `query`
  and a router result with no edge. An example is a failure inside the graph
  runtime or its checkpointer. Each would be a 500 reply; the model has no
  input that produces one.
- Request values. The model has JSON strings and integers only. Booleans,
  null, floats, arrays and objects are not modelled. A body that is not a
  JSON object is not modelled.
- The `error_handler_node` default "Unknown error occurred". In this model
  the error key is always present, so the default is never used. An absent
  error renders as "None".
- `print` logging, the Flask/CORS server setup, `app.run`, and the React
  front end.
