/**
 The five graph nodes of backend/Services.py as pure functions from a state
 (and the outcomes of the external calls they make) to the next state.
 Every network, filesystem, PDF-parsing, embedding and language-model call
 is an oracle in `World`; what each node does around those calls (its
 guards, its error strings, which field it writes) is modelled exactly.
 */
module Nodes {
  import opened Wrappers
  import opened PyStr
  import opened Pipeline

  // ---- constants of the source ------------------------------------------

  const DefaultMaxResults: int := 5
  const DefaultSaveDir := "arxiv_papers"
  const DefaultPersistDir := "chroma_db"
  const DefaultModel := "llama-3.1-8b-instant"
  const ArxivApi := "http://export.arxiv.org/api/query?"

  const DownloadPrefix := "Error downloading papers: "
  const VectordbPrefix := "Error creating vector database: "
  const QaChainPrefix := "Error creating QA chain: "
  const AnswerPrefix := "Error answering question: "
  const NoValidPdfMessage := "No valid PDF documents found to process"
  const MissingKeyMessage := "Groq API key not provided"
  const MissingQuestionMessage := "No research question provided"
  const FailurePrefix := "Process failed with error: "
  /** `str(IndexError)` raised by `entry.links[1]` on an entry with one link. */
  const IndexErrorMessage := "list index out of range"

  /** Splitter settings handed to the (unmodelled) chunker. */
  const ChunkSize: nat := 1000
  const ChunkOverlap: nat := 200

  newtype byte = b: int | 0 <= b < 256

  /** The bytes `%PDF`. */
  const PdfMagic: seq<byte> := [0x25, 0x50, 0x44, 0x46]

  // ---- external outcomes -------------------------------------------------

  /**
   One arXiv feed entry as the download loop reads it: its id, how many
   links it carries, whether fetching its PDF succeeds, and the exception
   text (if any) raised by reading `entry.title` (before the link lookup)
   and by reading `links[1].href` or `entry.id` (after it).
   */
  datatype FeedEntry = FeedEntry(id: string, linkCount: nat, fetched: bool,
                                 titleFault: Option<string>, hrefIdFault: Option<string>)

  /** The parsed feed, or the exception raised while creating the folder or fetching the feed. */
  datatype Feed = FeedRaised(message: string) | Entries(entries: seq<FeedEntry>)

  /**
   One entry of `os.listdir(save_dir)`: its name, its bytes (None when the
   file cannot be opened) and the number of pages the PDF loader returns
   for it (None when the loader raises).
   */
  datatype DirFile = DirFile(name: string, content: Option<seq<byte>>, pages: Option<nat>)

  /** The folder listing, or the exception raised loading the embedder or listing the folder. */
  datatype Listing = ListingRaised(message: string) | Files(files: seq<DirFile>)

  /** Outcome of a call that either completes or raises. */
  datatype Outcome = Completed | Raised(message: string)

  /** Outcome of invoking the QA chain on a question: the `result` text, or the exception. */
  datatype Reply = Replied(text: string) | ReplyRaised(message: string)

  /**
   Everything outside the orchestrator: the feed for a URL, the save folder
   as listed when the index is built, splitting+embedding+indexing, building
   the chain from its configuration, and asking the chain a question.
   */
  datatype World = World(
    feed: string -> Feed,
    listing: Listing,
    indexing: Outcome,
    buildChain: QaChain -> Outcome,
    ask: (QaChain, Value) -> Reply)

  // ---- download_papers ---------------------------------------------------

  /** The arXiv query: spaces in the topic become '+'. */
  function SearchTerms(query: string): (r: string)
    ensures |r| == |query| && ' ' !in r
    ensures forall k :: 0 <= k < |query| ==> r[k] == (if query[k] == ' ' then '+' else query[k])
  {
    ReplaceChars(query, ' ', "+");
    SearchTermsPointwise(query);
    Replace(query, ' ', "+")
  }

  lemma {:induction false} SearchTermsPointwise(query: string)
    ensures |Replace(query, ' ', "+")| == |query|
    ensures forall k :: 0 <= k < |query| ==>
      Replace(query, ' ', "+")[k] == (if query[k] == ' ' then '+' else query[k])
  {
    if |query| > 0 {
      SearchTermsPointwise(query[1..]);
    }
  }

  /** The URL `download_papers_node` fetches. */
  function SearchUrl(query: string, maxResults: Value): string {
    ArxivApi + "search_query=" + SearchTerms(query) + "&start=0&max_results=" + Render(maxResults)
  }

  /** The file an entry is saved as: the last '/'-segment of its id plus `.pdf`. */
  function PaperFilename(id: string): (r: string)
    ensures EndsWith(r, ".pdf") && '/' !in r
    ensures r[..|r| - 4] == LastSegment(id)
    ensures EndsWith(id, r[..|r| - 4])
  {
    LastSegment(id) + ".pdf"
  }

  function PaperPath(saveDir: string, e: FeedEntry): string {
    Join(saveDir, PaperFilename(e.id))
  }

  function CountFetched(entries: seq<FeedEntry>): nat {
    if |entries| == 0 then 0 else (if entries[0].fetched then 1 else 0) + CountFetched(entries[1..])
  }

  /**
   The exception reading an entry raises outside the per-entry try, in the
   order the loop reads it: the title, then `links[1]`, then the href and id.
   */
  function EntryFault(e: FeedEntry): Option<string> {
    if e.titleFault.Some? then e.titleFault
    else if e.linkCount < 2 then Some(IndexErrorMessage)
    else e.hrefIdFault
  }

  /** The exception of the first entry whose reading raises, in feed order. */
  function FirstFault(entries: seq<FeedEntry>): (r: Option<string>)
    ensures r.None? <==> forall i :: 0 <= i < |entries| ==> EntryFault(entries[i]).None?
    ensures r.Some? ==> exists i :: 0 <= i < |entries| && EntryFault(entries[i]) == r &&
                          forall j :: 0 <= j < i ==> EntryFault(entries[j]).None?
  {
    if |entries| == 0 then None
    else if EntryFault(entries[0]).Some? then EntryFault(entries[0])
    else
      FirstFault(entries[1..])
  }

  /** How the download loop ends: the saved paths, or the exception that aborted it. */
  datatype LoopEnd = Finished(paths: seq<string>) | Aborted(message: string)

  /**
   The download loop: the paths of the entries whose PDF was fetched, in
   feed order, or the exception of the first entry whose reading raises
   outside the per-entry try (which aborts the loop).
   */
  function SavedPaths(entries: seq<FeedEntry>, saveDir: string): (r: LoopEnd)
    ensures r.Aborted? <==> FirstFault(entries).Some?
    ensures r.Aborted? ==> r.message == FirstFault(entries).value
    ensures r.Finished? ==> |r.paths| == CountFetched(entries)
  {
    if |entries| == 0 then Finished([])
    else if EntryFault(entries[0]).Some? then Aborted(EntryFault(entries[0]).value)
    else
      match SavedPaths(entries[1..], saveDir)
      case Aborted(m) => Aborted(m)
      case Finished(rest) =>
        Finished((if entries[0].fetched then [PaperPath(saveDir, entries[0])] else []) + rest)
  }

  /** The path of every fetched entry is saved. */
  lemma {:induction false} SavedPathsComplete(entries: seq<FeedEntry>, saveDir: string)
    requires SavedPaths(entries, saveDir).Finished?
    ensures forall i :: 0 <= i < |entries| && entries[i].fetched ==>
      PaperPath(saveDir, entries[i]) in SavedPaths(entries, saveDir).paths
  {
    if |entries| > 0 {
      var tail := entries[1..];
      SavedPathsComplete(tail, saveDir);
      var rest := SavedPaths(tail, saveDir).paths;
      var head := if entries[0].fetched then [PaperPath(saveDir, entries[0])] else [];
      assert SavedPaths(entries, saveDir).paths == head + rest;
      forall i | 0 < i < |entries| && entries[i].fetched
        ensures PaperPath(saveDir, entries[i]) in head + rest
      {
        assert tail[i - 1] == entries[i];
      }
    }
  }

  /** The entries whose PDF was fetched, in feed order. */
  function FetchedEntries(entries: seq<FeedEntry>): (r: seq<FeedEntry>)
    ensures |r| == CountFetched(entries)
    ensures forall e :: e in r ==> e.fetched && e in entries
    ensures forall i :: 0 <= i < |entries| && entries[i].fetched ==> entries[i] in r
  {
    if |entries| == 0 then []
    else (if entries[0].fetched then [entries[0]] else []) + FetchedEntries(entries[1..])
  }

  /** The save path of each entry, position by position. */
  function PathsOf(entries: seq<FeedEntry>, saveDir: string): (r: seq<string>)
    ensures |r| == |entries|
    ensures forall k :: 0 <= k < |entries| ==> r[k] == PaperPath(saveDir, entries[k])
  {
    if |entries| == 0 then [] else [PaperPath(saveDir, entries[0])] + PathsOf(entries[1..], saveDir)
  }

  /** A loop that finishes saves exactly the fetched entries' paths, in feed order. */
  lemma {:induction false} SavedPathsInOrder(entries: seq<FeedEntry>, saveDir: string)
    requires SavedPaths(entries, saveDir).Finished?
    ensures SavedPaths(entries, saveDir).paths == PathsOf(FetchedEntries(entries), saveDir)
  {
    if |entries| > 0 {
      var tail := entries[1..];
      SavedPathsInOrder(tail, saveDir);
      if entries[0].fetched {
        var fs := FetchedEntries(entries);
        assert fs == [entries[0]] + FetchedEntries(tail);
        assert fs[1..] == FetchedEntries(tail);
      } else {
        assert FetchedEntries(entries) == FetchedEntries(tail);
      }
    }
  }

  /** Every saved path is the path of a fetched entry. */
  lemma {:induction false} SavedPathsSound(entries: seq<FeedEntry>, saveDir: string)
    requires SavedPaths(entries, saveDir).Finished?
    ensures forall p :: p in SavedPaths(entries, saveDir).paths ==>
      exists i :: 0 <= i < |entries| && entries[i].fetched && p == PaperPath(saveDir, entries[i])
  {
    if |entries| > 0 {
      var tail := entries[1..];
      SavedPathsSound(tail, saveDir);
      var rest := SavedPaths(tail, saveDir).paths;
      var head := if entries[0].fetched then [PaperPath(saveDir, entries[0])] else [];
      assert SavedPaths(entries, saveDir).paths == head + rest;
      forall p | p in rest
        ensures exists i :: 0 <= i < |entries| && entries[i].fetched && p == PaperPath(saveDir, entries[i])
      {
        var k :| 0 <= k < |tail| && tail[k].fetched && p == PaperPath(saveDir, tail[k]);
        assert entries[k + 1] == tail[k];
      }
    }
  }

  function FeedUrl(s: ResearchState): string {
    SearchUrl(s.query, s.maxResults.GetOr(Number(DefaultMaxResults)))
  }

  /**
   `download_papers_node`. It does not look at the error field. A raising
   feed or an entry whose reading raises sets the prefixed error and leaves
   the paper list alone; otherwise the paper list becomes the fetched paths.
   */
  function DownloadPapers(s: ResearchState, w: World): (r: ResearchState)
    ensures r == s.(downloadedPapers := r.downloadedPapers, error := r.error)
    ensures w.feed(FeedUrl(s)).FeedRaised? ==>
      r.error == Some(DownloadPrefix + w.feed(FeedUrl(s)).message) && r.downloadedPapers == s.downloadedPapers
    ensures w.feed(FeedUrl(s)).Entries? ==>
      var es := w.feed(FeedUrl(s)).entries;
      if FirstFault(es).Some? then
        r.error == Some(DownloadPrefix + FirstFault(es).value) && r.downloadedPapers == s.downloadedPapers
      else
        r.error == s.error && |r.downloadedPapers| == CountFetched(es)
        && (forall i :: 0 <= i < |es| && es[i].fetched ==>
              PaperPath(s.saveDir.GetOr(DefaultSaveDir), es[i]) in r.downloadedPapers)
        && (forall p :: p in r.downloadedPapers ==>
              exists i :: 0 <= i < |es| && es[i].fetched && p == PaperPath(s.saveDir.GetOr(DefaultSaveDir), es[i]))
  {
    var saveDir := s.saveDir.GetOr(DefaultSaveDir);
    match w.feed(FeedUrl(s))
    case FeedRaised(m) => s.(error := Some(DownloadPrefix + m))
    case Entries(es) =>
      match SavedPaths(es, saveDir)
      case Aborted(m) => s.(error := Some(DownloadPrefix + m))
      case Finished(paths) =>
        SavedPathsComplete(es, saveDir);
        SavedPathsSound(es, saveDir);
        s.(downloadedPapers := paths)
  }

  /**
   When no entry faults, the paper list is exactly the fetched entries'
   paths, one each, in feed order.
   */
  lemma DownloadPapersInOrder(s: ResearchState, w: World)
    requires w.feed(FeedUrl(s)).Entries? && FirstFault(w.feed(FeedUrl(s)).entries).None?
    ensures DownloadPapers(s, w).downloadedPapers ==
      PathsOf(FetchedEntries(w.feed(FeedUrl(s)).entries), s.saveDir.GetOr(DefaultSaveDir))
  {
    SavedPathsInOrder(w.feed(FeedUrl(s)).entries, s.saveDir.GetOr(DefaultSaveDir));
  }

  /** The URL records the requested number of results: different numbers give different URLs. */
  lemma SearchUrlRecordsMaxResults(query: string, a: int, b: int)
    requires SearchUrl(query, Number(a)) == SearchUrl(query, Number(b))
    ensures a == b
  {
    var p := ArxivApi + "search_query=" + SearchTerms(query) + "&start=0&max_results=";
    assert SearchUrl(query, Number(a)) == p + IntToDecimal(a);
    assert SearchUrl(query, Number(b)) == p + IntToDecimal(b);
    assert IntToDecimal(a) == SearchUrl(query, Number(a))[|p|..];
    assert IntToDecimal(b) == SearchUrl(query, Number(b))[|p|..];
    IntToDecimalInjective(a, b);
  }

  /** The download node consults the feed only at its own search URL. */
  lemma DownloadReadsOnlyItsUrl(s: ResearchState, w1: World, w2: World)
    requires w1.feed(FeedUrl(s)) == w2.feed(FeedUrl(s))
    ensures DownloadPapers(s, w1) == DownloadPapers(s, w2)
  {
  }

  // ---- create_vectordb ---------------------------------------------------

  /** The first (at most) four bytes: `f.read(4)`. */
  function Header(content: seq<byte>): seq<byte> {
    content[..if |content| < 4 then |content| else 4]
  }

  /** A listed file the index node loads: named `*.pdf`, readable, starting with `%PDF`. */
  predicate Accepted(f: DirFile) {
    EndsWith(f.name, ".pdf") && f.content.Some? && Header(f.content.value) == PdfMagic
  }

  /** The header test passes exactly for contents of at least four bytes beginning `%PDF`. */
  lemma HeaderTest(content: seq<byte>)
    ensures Header(content) == PdfMagic <==>
      |content| >= 4 && content[0] == 0x25 && content[1] == 0x50 && content[2] == 0x44 && content[3] == 0x46
  {
  }

  /** Pages a listed file adds to `all_docs`. */
  function Contribution(f: DirFile): nat {
    if Accepted(f) && f.pages.Some? then f.pages.value else 0
  }

  function PageTotal(files: seq<DirFile>): nat {
    if |files| == 0 then 0 else Contribution(files[0]) + PageTotal(files[1..])
  }

  /** The corpus is non-empty exactly when some accepted file loads with at least one page. */
  lemma {:induction false} PageTotalPositive(files: seq<DirFile>)
    ensures PageTotal(files) > 0 <==>
      exists i :: 0 <= i < |files| && Accepted(files[i]) && files[i].pages.Some? && files[i].pages.value > 0
  {
    if |files| > 0 {
      PageTotalPositive(files[1..]);
      if PageTotal(files[1..]) > 0 {
        var i :| 0 <= i < |files[1..]| && Accepted(files[1..][i]) && files[1..][i].pages.Some? && files[1..][i].pages.value > 0;
        assert files[i + 1] == files[1..][i];
      }
      if exists i :: 0 <= i < |files| && Accepted(files[i]) && files[i].pages.Some? && files[i].pages.value > 0 {
        var i :| 0 <= i < |files| && Accepted(files[i]) && files[i].pages.Some? && files[i].pages.value > 0;
        if i > 0 {
          assert files[1..][i - 1] == files[i];
        }
      }
    }
  }

  lemma {:induction false} PageTotalConcat(a: seq<DirFile>, b: seq<DirFile>)
    ensures PageTotal(a + b) == PageTotal(a) + PageTotal(b)
  {
    if |a| == 0 {
      assert a + b == b;
    } else {
      assert (a + b)[1..] == a[1..] + b;
      PageTotalConcat(a[1..], b);
    }
  }

  /** Taking one file out of a listing removes exactly its contribution. */
  lemma {:induction false} PageTotalRemove(b: seq<DirFile>, j: nat)
    requires j < |b|
    ensures PageTotal(b) == Contribution(b[j]) + PageTotal(b[..j] + b[j + 1..])
  {
    var x, y := b[..j], b[j + 1..];
    assert b == (x + [b[j]]) + y;
    PageTotalConcat(x + [b[j]], y);
    PageTotalConcat(x, [b[j]]);
    PageTotalConcat(x, y);
    assert PageTotal([b[j]]) == Contribution(b[j]) + PageTotal([]);
  }

  /** Dropping the head of `a` and a matching element of `b` keeps two equal multisets equal. */
  lemma MultisetDropMatching<T>(a: seq<T>, b: seq<T>, j: nat)
    requires multiset(a) == multiset(b) && 0 < |a| && j < |b| && b[j] == a[0]
    ensures multiset(a[1..]) == multiset(b[..j] + b[j + 1..])
  {
    assert b == b[..j] + [b[j]] + b[j + 1..];
    assert a == [a[0]] + a[1..];
    assert multiset(a[1..]) == multiset(a) - multiset{a[0]};
  }

  /** The page count, hence the node's outcome, does not depend on the listing order. */
  lemma {:induction false} PageTotalPermutation(a: seq<DirFile>, b: seq<DirFile>)
    requires multiset(a) == multiset(b)
    ensures PageTotal(a) == PageTotal(b)
    decreases |a|
  {
    if |a| > 0 {
      assert a[0] in multiset(b);
      var j :| 0 <= j < |b| && b[j] == a[0];
      var rest := b[..j] + b[j + 1..];
      MultisetDropMatching(a, b, j);
      PageTotalPermutation(a[1..], rest);
      PageTotalRemove(b, j);
    } else {
      assert |b| == |multiset(b)| == 0;
    }
  }

  /** The index is built: the folder lists, some pages load, and indexing completes. */
  predicate IndexBuilds(w: World) {
    w.listing.Files? && PageTotal(w.listing.files) > 0 && w.indexing.Completed?
  }

  /**
   `create_vectordb_node`. A no-op on an upstream error; otherwise either
   the index gets built or the error is set, with the stage prefix for a
   raising call and the fixed message for an empty corpus.
   */
  function CreateVectordb(s: ResearchState, w: World): (r: ResearchState)
    ensures r == s.(vectordbCreated := r.vectordbCreated, error := r.error)
    ensures HasError(s) ==> r == s
    ensures !HasError(s) ==> (r.vectordbCreated <==> s.vectordbCreated || IndexBuilds(w))
    ensures !HasError(s) ==> (HasError(r) <==> !IndexBuilds(w))
    ensures !HasError(s) && IndexBuilds(w) ==> r == s.(vectordbCreated := true)
    ensures !HasError(s) && w.listing.ListingRaised? ==> r.error == Some(VectordbPrefix + w.listing.message)
    ensures !HasError(s) && w.listing.Files? && PageTotal(w.listing.files) == 0 ==> r.error == Some(NoValidPdfMessage)
    ensures !HasError(s) && w.listing.Files? && PageTotal(w.listing.files) > 0 && w.indexing.Raised? ==>
      r.error == Some(VectordbPrefix + w.indexing.message)
  {
    if HasError(s) then s
    else
      match w.listing
      case ListingRaised(m) => s.(error := Some(VectordbPrefix + m))
      case Files(fs) =>
        if PageTotal(fs) == 0 then s.(error := Some(NoValidPdfMessage))
        else
          match w.indexing
          case Raised(m) => s.(error := Some(VectordbPrefix + m))
          case Completed => s.(vectordbCreated := true)
  }

  // ---- create_qa_chain ---------------------------------------------------

  /** `not state.get("groq_api_key")`: the key is absent or falsy. */
  predicate KeyMissing(s: ResearchState) {
    s.groqApiKey.None? || !Truthy(s.groqApiKey.value)
  }

  /** The chain configuration the node would build from the state. */
  function ChainConfig(s: ResearchState): QaChain
    requires s.groqApiKey.Some?
  {
    QaChain(s.groqModelName.GetOr(Text(DefaultModel)), s.groqApiKey.value,
            s.persistDirectory.GetOr(DefaultPersistDir), RetrieverTopK)
  }

  /**
   `create_qa_chain_node`. A no-op on an upstream error or before the index
   exists; a missing key is reported before any client is built; otherwise
   the chain is stored, or the builder's exception becomes the error.
   */
  function CreateQaChain(s: ResearchState, w: World): (r: ResearchState)
    ensures r == s.(qaChain := r.qaChain, error := r.error)
    ensures HasError(s) || !s.vectordbCreated ==> r == s
    ensures !HasError(s) && s.vectordbCreated && KeyMissing(s) ==>
      r.error == Some(MissingKeyMessage) && r.qaChain == s.qaChain
    ensures r.qaChain != s.qaChain ==>
      && !HasError(s) && s.vectordbCreated && !KeyMissing(s)
      && r.qaChain == Some(ChainConfig(s)) && r.error == s.error
      && w.buildChain(ChainConfig(s)).Completed?
      && r.qaChain.value.apiKey == s.groqApiKey.value && r.qaChain.value.topK == 5
    ensures !HasError(s) && s.vectordbCreated && !KeyMissing(s) ==>
      match w.buildChain(ChainConfig(s))
      case Completed => r.qaChain == Some(ChainConfig(s)) && r.error == s.error
      case Raised(m) => r.error == Some(QaChainPrefix + m) && r.qaChain == s.qaChain
  {
    if HasError(s) || !s.vectordbCreated then s
    else if KeyMissing(s) then s.(error := Some(MissingKeyMessage))
    else
      var chain := ChainConfig(s);
      match w.buildChain(chain)
      case Raised(m) => s.(error := Some(QaChainPrefix + m))
      case Completed => s.(qaChain := Some(chain))
  }

  /** With no key, the outcome does not depend on the chain builder at all. */
  lemma MissingKeyBuildsNothing(s: ResearchState, w1: World, w2: World)
    requires KeyMissing(s)
    ensures CreateQaChain(s, w1) == CreateQaChain(s, w2)
  {
  }

  // ---- answer_question ---------------------------------------------------

  /** `state.get("research_question", state.get("query", ""))`. */
  function Question(s: ResearchState): Value {
    s.researchQuestion.GetOr(Text(s.query))
  }

  /**
   `answer_question_node`. A no-op on an upstream error or without a chain;
   an empty question is an error; otherwise the chain's reply becomes the
   final answer, or its exception the prefixed error.
   */
  function AnswerQuestion(s: ResearchState, w: World): (r: ResearchState)
    ensures r == s.(finalAnswer := r.finalAnswer, error := r.error)
    ensures HasError(s) || !HasChain(s) ==> r == s
    ensures !HasError(s) && HasChain(s) && !Truthy(Question(s)) ==>
      r.error == Some(MissingQuestionMessage) && r.finalAnswer == s.finalAnswer
    ensures !HasError(s) && HasChain(s) && Truthy(Question(s)) ==>
      match w.ask(s.qaChain.value, Question(s))
      case Replied(t) => r.finalAnswer == t && r.error == s.error
      case ReplyRaised(m) => r.error == Some(AnswerPrefix + m) && r.finalAnswer == s.finalAnswer
  {
    if HasError(s) || !HasChain(s) then s
    else
      var q := Question(s);
      if !Truthy(q) then s.(error := Some(MissingQuestionMessage))
      else
        match w.ask(s.qaChain.value, q)
        case ReplyRaised(m) => s.(error := Some(AnswerPrefix + m))
        case Replied(t) => s.(finalAnswer := t)
  }

  /** A question given as `research_question` wins; without one, the topic query is asked. */
  lemma QuestionFallback(s: ResearchState)
    ensures s.researchQuestion.Some? ==> Question(s) == s.researchQuestion.value
    ensures s.researchQuestion.None? ==> Question(s) == Text(s.query)
    ensures s.researchQuestion.None? ==> (Truthy(Question(s)) <==> |s.query| > 0)
  {
  }

  // ---- error_handler -----------------------------------------------------

  /** The error as an f-string renders it (`None` when it is absent). */
  function ErrorText(e: Option<string>): string {
    match e
    case Some(t) => t
    case None => "None"
  }

  /** `error_handler_node`: the final answer reports the error; nothing else changes. */
  function HandleError(s: ResearchState): (r: ResearchState)
    ensures r == s.(finalAnswer := r.finalAnswer)
    ensures |r.finalAnswer| >= |FailurePrefix| && HasAnswer(r)
    ensures r.finalAnswer[..|FailurePrefix|] == FailurePrefix
    ensures HasError(s) ==> r.finalAnswer[|FailurePrefix|..] == s.error.value
  {
    s.(finalAnswer := FailurePrefix + ErrorText(s.error))
  }
}
