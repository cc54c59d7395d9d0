/**
 The LangGraph workflow of backend/Services.py: the router, the path map
 of each conditional edge, the fixed edge out of the error handler, and a
 run from the entry node that follows them until END or until the router
 names a node the current node has no edge to (the runtime then raises).
 */
module Workflow {
  import opened Pipeline
  import opened Nodes

  datatype Node = DownloadNode | VectordbNode | QaChainNode | AnswerNode | ErrorNode

  /** The strings the router returns: a node name or END. */
  datatype Route = ToErrorHandler | ToDownload | ToVectordb | ToQaChain | ToAnswer | ToEnd

  /** `router`: the next step, decided from the state alone. */
  function Router(s: ResearchState): Route {
    if HasError(s) then ToErrorHandler
    else if !HasPapers(s) then ToDownload
    else if !s.vectordbCreated then ToVectordb
    else if !HasChain(s) then ToQaChain
    else if !HasAnswer(s) then ToAnswer
    else ToEnd
  }

  // ---- an independent reading of the router -----------------------------

  /** Which of the four stage outputs are present, in pipeline order. */
  function Outputs(s: ResearchState): seq<bool> {
    [HasPapers(s), s.vectordbCreated, HasChain(s), HasAnswer(s)]
  }

  const StageRoutes: seq<Route> := [ToDownload, ToVectordb, ToQaChain, ToAnswer]

  /** Index of the first false entry, or the length when all hold. */
  function FirstMissing(done: seq<bool>): (k: nat)
    ensures k <= |done|
    ensures forall i :: 0 <= i < k ==> done[i]
    ensures k < |done| ==> !done[k]
  {
    if |done| == 0 || !done[0] then 0 else 1 + FirstMissing(done[1..])
  }

  /** The router sends an error to the handler, else to the first missing output, else to END. */
  lemma RouterIsFirstMissing(s: ResearchState)
    ensures Router(s) ==
      if HasError(s) then ToErrorHandler
      else if FirstMissing(Outputs(s)) == 4 then ToEnd
      else StageRoutes[FirstMissing(Outputs(s))]
  {
    var o := Outputs(s);
    var k := FirstMissing(o);
    assert o[0] == HasPapers(s) && o[1] == s.vectordbCreated && o[2] == HasChain(s) && o[3] == HasAnswer(s);
    if !HasError(s) && k < 4 {
      assert !o[k];
    }
  }

  // ---- edges ---------------------------------------------------------------

  /** The path map given to `add_conditional_edges` for each node; the error handler has none. */
  function PathMap(n: Node): set<Route> {
    match n
    case DownloadNode => {ToVectordb, ToErrorHandler}
    case VectordbNode => {ToQaChain, ToErrorHandler}
    case QaChainNode => {ToAnswer, ToErrorHandler}
    case AnswerNode => {ToEnd, ToErrorHandler}
    case ErrorNode => {}
  }

  /** Position of a node along the pipeline; every edge goes to a later one. */
  function Rank(n: Node): nat {
    match n
    case DownloadNode => 0
    case VectordbNode => 1
    case QaChainNode => 2
    case AnswerNode => 3
    case ErrorNode => 4
  }

  /** The route that names a node. */
  function RouteTo(n: Node): Route {
    match n
    case DownloadNode => ToDownload
    case VectordbNode => ToVectordb
    case QaChainNode => ToQaChain
    case AnswerNode => ToAnswer
    case ErrorNode => ToErrorHandler
  }

  /** What follows a node: another node, END, or a router result the node has no edge for. */
  datatype Hop = Enter(node: Node) | Exit | Unmapped(route: Route)

  /** The node `set_entry_point` names. */
  const Entry: Node := DownloadNode

  /**
   The edge taken after node `n` left state `s`: the fixed edge to END out
   of the error handler, otherwise the router's result looked up in the
   node's path map.
   */
  function Next(n: Node, s: ResearchState): (h: Hop)
    ensures n == ErrorNode ==> h == Exit
    ensures h.Enter? ==> Rank(h.node) > Rank(n) && Router(s) == RouteTo(h.node) && Router(s) in PathMap(n)
    ensures h.Unmapped? ==> n != ErrorNode && h.route == Router(s) && Router(s) !in PathMap(n)
    ensures h.Exit? && n != ErrorNode ==> n == AnswerNode && Router(s) == ToEnd
  {
    if n == ErrorNode then Exit
    else
      var r := Router(s);
      if r !in PathMap(n) then Unmapped(r)
      else
        match r
        case ToEnd => Exit
        case ToErrorHandler => Enter(ErrorNode)
        case ToDownload => Enter(DownloadNode)
        case ToVectordb => Enter(VectordbNode)
        case ToQaChain => Enter(QaChainNode)
        case ToAnswer => Enter(AnswerNode)
  }

  /** Running one node. */
  function Exec(n: Node, s: ResearchState, w: World): ResearchState {
    match n
    case DownloadNode => DownloadPapers(s, w)
    case VectordbNode => CreateVectordb(s, w)
    case QaChainNode => CreateQaChain(s, w)
    case AnswerNode => AnswerQuestion(s, w)
    case ErrorNode => HandleError(s)
  }

  // ---- runs ------------------------------------------------------------------

  datatype Halt = ReachedEnd | NoEdge(route: Route)

  /** A run: the nodes executed, the state each one left, and how it stopped. */
  datatype Run = Run(trace: seq<Node>, states: seq<ResearchState>, halt: Halt)

  /**
   The run starting at node `n` on state `s`. It visits nodes in strictly
   increasing pipeline position, so it takes at most five steps and never
   runs a node twice.
   */
  function RunFrom(n: Node, s: ResearchState, w: World): (run: Run)
    ensures 1 <= |run.trace| == |run.states| <= 5 - Rank(n)
    ensures run.trace[0] == n
    ensures forall i, j :: 0 <= i < j < |run.trace| ==> Rank(run.trace[i]) < Rank(run.trace[j])
    ensures run.states[0] == Exec(n, s, w)
    decreases 4 - Rank(n)
  {
    var s' := Exec(n, s, w);
    match Next(n, s')
    case Exit => Run([n], [s'], ReachedEnd)
    case Unmapped(r) => Run([n], [s'], NoEdge(r))
    case Enter(m) =>
      var rest := RunFrom(m, s', w);
      Run([n] + rest.trace, [s'] + rest.states, rest.halt)
  }

  /** One step of a run that continues: the node, its state, then the run from the next node. */
  lemma RunEnters(n: Node, s: ResearchState, w: World, m: Node, rest: Run)
    requires Next(n, Exec(n, s, w)) == Enter(m) && rest == RunFrom(m, Exec(n, s, w), w)
    ensures RunFrom(n, s, w) == Run([n] + rest.trace, [Exec(n, s, w)] + rest.states, rest.halt)
  {
  }

  /** One step of a run that stops: the node and its state, then the halt. */
  lemma RunStops(n: Node, s: ResearchState, w: World, halt: Halt)
    requires Next(n, Exec(n, s, w)) == Exit ==> halt == ReachedEnd
    requires Next(n, Exec(n, s, w)).Unmapped? ==> halt == NoEdge(Next(n, Exec(n, s, w)).route)
    requires !Next(n, Exec(n, s, w)).Enter?
    ensures RunFrom(n, s, w) == Run([n], [Exec(n, s, w)], halt)
  {
  }

  function LastState(run: Run): ResearchState
    requires |run.states| > 0
  {
    run.states[|run.states| - 1]
  }

  function LastNode(run: Run): Node
    requires |run.trace| > 0
  {
    run.trace[|run.trace| - 1]
  }

  /** `app.invoke(initial_state)`: a run from the entry node. */
  function Invoke(init: ResearchState, w: World): Run {
    RunFrom(Entry, init, w)
  }

  /** No node appears twice in a run. */
  lemma RunVisitsEachNodeOnce(n: Node, s: ResearchState, w: World, i: nat, j: nat)
    requires i < j < |RunFrom(n, s, w).trace|
    ensures RunFrom(n, s, w).trace[i] != RunFrom(n, s, w).trace[j]
  {
  }

  /** The download node runs only as the entry: no path map leads back to it. */
  lemma DownloadOnlyAtEntry(init: ResearchState, w: World, i: nat)
    requires 0 < i < |Invoke(init, w).trace|
    ensures Invoke(init, w).trace[i] != DownloadNode
  {
  }

  // ---- what a node may assume on entry ------------------------------------

  /**
   The state a node is entered with during a run: the entry node sees no
   outputs yet; every other node was chosen by the router, and the outputs
   of the stages after it are still absent.
   */
  predicate Entered(n: Node, s: ResearchState) {
    match n
    case DownloadNode => NoOutputs(s)
    case VectordbNode => Router(s) == ToVectordb && !HasChain(s) && !HasAnswer(s)
    case QaChainNode => Router(s) == ToQaChain && !HasAnswer(s)
    case AnswerNode => Router(s) == ToAnswer
    case ErrorNode => HasError(s)
  }

  predicate Complete(s: ResearchState) {
    HasPapers(s) && s.vectordbCreated && HasChain(s) && HasAnswer(s)
  }

  /** Every error string the nodes write. */
  predicate KnownError(e: string) {
    || (|DownloadPrefix| <= |e| && e[..|DownloadPrefix|] == DownloadPrefix)
    || (|VectordbPrefix| <= |e| && e[..|VectordbPrefix|] == VectordbPrefix)
    || (|QaChainPrefix| <= |e| && e[..|QaChainPrefix|] == QaChainPrefix)
    || (|AnswerPrefix| <= |e| && e[..|AnswerPrefix|] == AnswerPrefix)
    || e == NoValidPdfMessage || e == MissingKeyMessage || e == MissingQuestionMessage
  }

  /** Any error present is one the nodes write (or was there before). */
  predicate ErrorsKnown(before: ResearchState, after: ResearchState) {
    after.error == before.error || (after.error.Some? && KnownError(after.error.value))
  }

  /** A node never clears a truthy error, and one that sets an error sets a non-empty one. */
  lemma ErrorNeverCleared(n: Node, s: ResearchState, w: World)
    ensures HasError(s) ==> HasError(Exec(n, s, w))
    ensures HasError(s) && n != DownloadNode ==> Exec(n, s, w).error == s.error
    ensures HasError(s) && n != DownloadNode && n != ErrorNode ==> Exec(n, s, w) == s
    ensures ErrorsKnown(s, Exec(n, s, w))
    ensures Exec(n, s, w).error != s.error ==> HasError(Exec(n, s, w))
  {
  }

  /** Only the download node writes the paper list. */
  lemma PapersOwnedByDownload(n: Node, s: ResearchState, w: World)
    requires n != DownloadNode
    ensures Exec(n, s, w).downloadedPapers == s.downloadedPapers
  {
  }

  /**
   One step from a state the node may be entered with: it makes progress,
   and the edge it takes enters the next node correctly, ends the run in a
   finished state, or has no mapping (a fresh empty download, or an empty
   reply from the chain).
   */
  lemma StepFacts(n: Node, s: ResearchState, w: World)
    requires Entered(n, s)
    ensures Progress(s, Exec(n, s, w))
    ensures ErrorsKnown(s, Exec(n, s, w))
    ensures var s' := Exec(n, s, w);
      match Next(n, s')
      case Enter(m) => Entered(m, s')
      case Exit =>
        || (n == ErrorNode && s'.finalAnswer == FailurePrefix + s.error.value && HasError(s'))
        || (n == AnswerNode && !HasError(s') && Complete(s')
            && w.ask(s'.qaChain.value, Question(s')) == Replied(s'.finalAnswer))
      case Unmapped(r) =>
        && !HasError(s')
        && ((n == DownloadNode && r == ToDownload && !HasPapers(s'))
            || (n == AnswerNode && r == ToAnswer && !HasAnswer(s')))
  {
    var s' := Exec(n, s, w);
    match n
    case DownloadNode =>
      assert s'.vectordbCreated == s.vectordbCreated && s'.qaChain == s.qaChain && s'.finalAnswer == s.finalAnswer;
    case VectordbNode =>
    case QaChainNode =>
    case AnswerNode =>
    case ErrorNode =>
  }

  lemma ErrorsKnownTransitive(a: ResearchState, b: ResearchState, c: ResearchState)
    requires ErrorsKnown(a, b) && ErrorsKnown(b, c)
    ensures ErrorsKnown(a, c)
  {
  }

  /** How a run that stopped at END left the state. */
  predicate EndedWell(run: Run)
    requires |run.trace| > 0 && |run.states| > 0
  {
    var last := LastState(run);
    || (LastNode(run) == ErrorNode && HasError(last) && last.finalAnswer == FailurePrefix + last.error.value)
    || (LastNode(run) == AnswerNode && !HasError(last) && Complete(last))
  }

  /** How a run that found no edge left the state. */
  predicate StuckAt(run: Run, r: Route)
    requires |run.trace| > 0 && |run.states| > 0
  {
    var last := LastState(run);
    && !HasError(last)
    && ((LastNode(run) == DownloadNode && r == ToDownload && !HasPapers(last))
        || (LastNode(run) == AnswerNode && r == ToAnswer && !HasAnswer(last)))
  }

  /**
   What a run from state `s` guarantees: every step makes progress, the
   errors it leaves are node-written, a run that reaches END ends in the
   error report or with all four outputs and the chain's reply as the
   answer, and a run that finds no edge does so only after an empty
   download or an empty reply.
   */
  predicate RunGood(s: ResearchState, run: Run, w: World) {
    && 0 < |run.trace| == |run.states|
    && Progress(s, run.states[0])
    && (forall i :: 0 < i < |run.states| ==> Progress(run.states[i - 1], run.states[i]))
    && Progress(s, LastState(run))
    && ErrorsKnown(s, LastState(run))
    && (run.halt == ReachedEnd ==> EndedWell(run))
    && (run.halt.NoEdge? ==> StuckAt(run, run.halt.route))
    && (run.halt == ReachedEnd && !HasError(LastState(run)) ==>
          w.ask(LastState(run).qaChain.value, Question(LastState(run))) == Replied(LastState(run).finalAnswer))
  }

  /** Prefixing a good run with one progressing step gives a good run. */
  lemma Extend(n: Node, s: ResearchState, s': ResearchState, rest: Run, w: World)
    requires Progress(s, s') && ErrorsKnown(s, s') && RunGood(s', rest, w)
    ensures RunGood(s, Run([n] + rest.trace, [s'] + rest.states, rest.halt), w)
  {
    var run := Run([n] + rest.trace, [s'] + rest.states, rest.halt);
    assert LastState(run) == LastState(rest);
    assert LastNode(run) == LastNode(rest);
    ProgressTransitive(s, s', LastState(rest));
    ErrorsKnownTransitive(s, s', LastState(rest));
    forall i | 1 < i < |run.states|
      ensures Progress(run.states[i - 1], run.states[i])
    {
      assert run.states[i - 1] == rest.states[i - 2] && run.states[i] == rest.states[i - 1];
    }
  }

  lemma ErrorRunGood(s: ResearchState, w: World)
    requires Entered(ErrorNode, s)
    ensures RunGood(s, RunFrom(ErrorNode, s, w), w)
  {
    StepFacts(ErrorNode, s, w);
  }

  lemma AnswerRunGood(s: ResearchState, w: World)
    requires Entered(AnswerNode, s)
    ensures RunGood(s, RunFrom(AnswerNode, s, w), w)
  {
    StepFacts(AnswerNode, s, w);
    var s' := AnswerQuestion(s, w);
    var h := Next(AnswerNode, s');
    if h.Enter? {
      ErrorRunGood(s', w);
      Extend(AnswerNode, s, s', RunFrom(ErrorNode, s', w), w);
    }
  }

  lemma QaChainRunGood(s: ResearchState, w: World)
    requires Entered(QaChainNode, s)
    ensures RunGood(s, RunFrom(QaChainNode, s, w), w)
  {
    StepFacts(QaChainNode, s, w);
    var s' := CreateQaChain(s, w);
    var h := Next(QaChainNode, s');
    if h == Enter(AnswerNode) {
      AnswerRunGood(s', w);
      Extend(QaChainNode, s, s', RunFrom(AnswerNode, s', w), w);
    } else if h == Enter(ErrorNode) {
      ErrorRunGood(s', w);
      Extend(QaChainNode, s, s', RunFrom(ErrorNode, s', w), w);
    }
  }

  lemma VectordbRunGood(s: ResearchState, w: World)
    requires Entered(VectordbNode, s)
    ensures RunGood(s, RunFrom(VectordbNode, s, w), w)
  {
    StepFacts(VectordbNode, s, w);
    var s' := CreateVectordb(s, w);
    var h := Next(VectordbNode, s');
    if h == Enter(QaChainNode) {
      QaChainRunGood(s', w);
      Extend(VectordbNode, s, s', RunFrom(QaChainNode, s', w), w);
    } else if h == Enter(ErrorNode) {
      ErrorRunGood(s', w);
      Extend(VectordbNode, s, s', RunFrom(ErrorNode, s', w), w);
    }
  }

  lemma DownloadRunGood(s: ResearchState, w: World)
    requires Entered(DownloadNode, s)
    ensures RunGood(s, RunFrom(DownloadNode, s, w), w)
  {
    StepFacts(DownloadNode, s, w);
    var s' := DownloadPapers(s, w);
    var h := Next(DownloadNode, s');
    if h == Enter(VectordbNode) {
      VectordbRunGood(s', w);
      Extend(DownloadNode, s, s', RunFrom(VectordbNode, s', w), w);
    } else if h == Enter(ErrorNode) {
      ErrorRunGood(s', w);
      Extend(DownloadNode, s, s', RunFrom(ErrorNode, s', w), w);
    }
  }

  /** Every run from a correctly entered node is good. */
  lemma RunFacts(n: Node, s: ResearchState, w: World)
    requires Entered(n, s)
    ensures RunGood(s, RunFrom(n, s, w), w)
  {
    match n
    case DownloadNode => DownloadRunGood(s, w);
    case VectordbNode => VectordbRunGood(s, w);
    case QaChainNode => QaChainRunGood(s, w);
    case AnswerNode => AnswerRunGood(s, w);
    case ErrorNode => ErrorRunGood(s, w);
  }

  /** `app.invoke` on a state with no outputs yet gives a good run. */
  lemma InvokeFacts(init: ResearchState, w: World)
    requires NoOutputs(init)
    ensures RunGood(init, Invoke(init, w), w)
  {
    DownloadRunGood(init, w);
  }
}
