/**
 * The review graph of app/graph/workflow.py as an explicit state machine:
 * two routing predicates, the fixed edge table, and run_contract_review as
 * a loop that runs the node of the current stage and then follows the
 * table until END.
 */
module Workflow {
  import opened Common
  import opened Schemas
  import Analyzer
  import Evaluator
  import Report
  import Nodes

  datatype Stage = RetrieverNode | AnalyzerNode | EvaluatorNode | HumanLoopNode | FinalizerNode | End

  datatype HumanRoute = NeedHuman | NoHuman

  datatype ReviewRoute = Continue | Finish

  /**
   * should_need_human over `state.get("needs_human_review", False)`: None
   * stands for a missing key.
   */
  function ShouldNeedHuman(needsHumanReview: Option<bool>): (r: HumanRoute)
    ensures r == NeedHuman <==> needsHumanReview == Some(true)
  {
    match needsHumanReview
    case Some(true) => NeedHuman
    case _ => NoHuman
  }

  /** should_continue_review over `state.get("continue_review", False)`. */
  function ShouldContinueReview(continueReview: Option<bool>): (r: ReviewRoute)
    ensures r == Continue <==> continueReview == Some(true)
  {
    match continueReview
    case Some(true) => Continue
    case _ => Finish
  }

  /** The edge table of build_workflow (app/graph/workflow.py lines 24-47). */
  function Next(s: Stage, needsHumanReview: bool, continueReview: bool): Stage
  {
    match s
    case RetrieverNode => AnalyzerNode
    case AnalyzerNode => EvaluatorNode
    case EvaluatorNode =>
      if ShouldNeedHuman(Some(needsHumanReview)) == NeedHuman then HumanLoopNode else FinalizerNode
    case HumanLoopNode =>
      if ShouldContinueReview(Some(continueReview)) == Continue then EvaluatorNode else FinalizerNode
    case FinalizerNode => End
    case End => End
  }

  /** Distance to END along the edges that do not loop back. */
  function Rank(s: Stage): nat
  {
    match s
    case RetrieverNode => 5
    case AnalyzerNode => 4
    case EvaluatorNode => 3
    case HumanLoopNode => 2
    case FinalizerNode => 1
    case End => 0
  }

  /**
   * Every edge except human_loop -> evaluator moves strictly closer to END;
   * that edge is taken exactly when continue_review is set, and it is the only
   * way a stage can be visited twice.
   */
  lemma NextProgress(s: Stage, needsHumanReview: bool, continueReview: bool)
    requires s != End
    ensures !continueReview ==> Rank(Next(s, needsHumanReview, continueReview)) < Rank(s)
    ensures Rank(Next(s, needsHumanReview, continueReview)) >= Rank(s) <==> s == HumanLoopNode && continueReview
  {
  }

  /** The stages a run visits when continue_review stays unset. */
  function Path(needsHumanReview: bool): seq<Stage>
  {
    [RetrieverNode, AnalyzerNode, EvaluatorNode] + (if needsHumanReview then [HumanLoopNode] else []) + [FinalizerNode]
  }

  /** No stage occurs twice on a run's path, and END is never run. */
  lemma PathVisitsEachStageOnce(needsHumanReview: bool)
    ensures var p := Path(needsHumanReview);
            && (forall i, j :: 0 <= i < j < |p| ==> p[i] != p[j])
            && End !in p && p[0] == RetrieverNode && p[|p| - 1] == FinalizerNode
  {
  }

  /** The inputs of one run: the submitted task and the outside services. */
  datatype Run = Run(taskId: string, originalText: string, modifiedText: string, category: Option<string>,
                     retrieve: (string, string) -> Result<seq<PlaybookRule>, string>, mt: Analyzer.Matcher)

  /** `category or ""` */
  function CategoryOrEmpty(category: Option<string>): string
  {
    match category
    case None => ""
    case Some(c) => c
  }

  /** What the retriever returns for the run's modified text and category. */
  function Retrieved(run: Run): Result<seq<PlaybookRule>, string>
  {
    run.retrieve(run.modifiedText, CategoryOrEmpty(run.category))
  }

  /** The results a run is expected to store, computed from its inputs. */
  datatype Expect = Expect(rules: seq<PlaybookRule>, diffs: seq<Difference>, evals: seq<Evaluation>,
                           needsHuman: bool, report: string)

  ghost predicate Expects(run: Run, exp: Expect)
  {
    && Analyzer.ValidMatcher(run.mt) && Retrieved(run).Ok? && exp.rules == Retrieved(run).value
    && exp.diffs == Analyzer.AnalyzeTexts(run.originalText, run.modifiedText, run.mt)
    && exp.evals == Evaluator.Evaluations(exp.diffs, exp.rules)
    && exp.needsHuman == Evaluator.NeedsHuman(exp.evals)
    && exp.report == Join(Report.ReportLines(exp.evals, [], Report.FinalizerStyle), "\n")
  }

  /**
   * The state of a run that is about to execute `stage`, having visited
   * `trace`: the fields written by the stages already run hold their expected
   * results, and nobody has set continue_review or human_reviews.
   */
  ghost predicate AtStage(st: Nodes.ReviewState, stage: Stage, trace: seq<Stage>, run: Run, exp: Expect)
    reads st
  {
    && st.taskId == run.taskId && st.originalText == run.originalText && st.modifiedText == run.modifiedText
    && st.category == run.category && st.humanReviews == [] && !st.continueReview
    && (stage == RetrieverNode ==> trace == [] && st.status == Pending)
    && (stage != RetrieverNode ==> st.playbookRules == exp.rules)
    && (stage == AnalyzerNode ==> trace == [RetrieverNode])
    && (Rank(stage) <= 3 ==> st.differences == exp.diffs)
    && (stage == EvaluatorNode ==> trace == [RetrieverNode, AnalyzerNode])
    && (Rank(stage) <= 2 ==> st.evaluations == exp.evals && st.needsHumanReview == exp.needsHuman)
    && (stage == HumanLoopNode ==> exp.needsHuman && trace == [RetrieverNode, AnalyzerNode, EvaluatorNode])
    && (stage == FinalizerNode ==> trace + [FinalizerNode] == Path(exp.needsHuman))
    && (stage == End ==> st.status == Completed && st.finalReport == Some(exp.report) && trace == Path(exp.needsHuman))
  }

  /**
   * What a finished run leaves behind: the submitted texts, the retrieved
   * rules, the analyzer's records, one evaluation per record, no human
   * reviews, status "completed" with the finalizer's report over the
   * evaluations and an empty review list, having visited each stage once.
   */
  ghost predicate Completes(st: Nodes.ReviewState, run: Run, trace: seq<Stage>)
    reads st
  {
    && Analyzer.ValidMatcher(run.mt) && Retrieved(run).Ok?
    && st.taskId == run.taskId && st.originalText == run.originalText && st.modifiedText == run.modifiedText
    && st.category == run.category && st.playbookRules == Retrieved(run).value
    && st.differences == Analyzer.AnalyzeTexts(run.originalText, run.modifiedText, run.mt)
    && st.evaluations == Evaluator.Evaluations(st.differences, st.playbookRules)
    && st.needsHumanReview == Evaluator.NeedsHuman(st.evaluations)
    && st.humanReviews == [] && !st.continueReview
    && st.status == Completed
    && st.finalReport == Some(Join(Report.ReportLines(st.evaluations, [], Report.FinalizerStyle), "\n"))
    && trace == Path(st.needsHumanReview)
  }

  /** The retriever stage; a failed retrieval is returned as the run's exception. */
  method RetrieverStep(st: Nodes.ReviewState, ghost trace: seq<Stage>, run: Run, ghost exp: Expect)
    returns (failure: Option<string>)
    requires AtStage(st, RetrieverNode, trace, run, exp)
    requires Retrieved(run).Ok? ==> exp.rules == Retrieved(run).value
    modifies st
    ensures failure.Some? <==> Retrieved(run).Err?
    ensures failure.Some? ==> failure.value == Retrieved(run).error
    ensures failure.None? ==> AtStage(st, AnalyzerNode, trace + [RetrieverNode], run, exp)
  {
    var retrieved := run.retrieve(st.modifiedText, st.RetrievalCategory());
    if retrieved.Err? {
      return Some(retrieved.error);
    }
    st.Retrieve(retrieved.value);
    return None;
  }

  method AnalyzerStep(st: Nodes.ReviewState, ghost trace: seq<Stage>, run: Run, ghost exp: Expect)
    requires AtStage(st, AnalyzerNode, trace, run, exp)
    requires Analyzer.ValidMatcher(run.mt)
    requires exp.diffs == Analyzer.AnalyzeTexts(run.originalText, run.modifiedText, run.mt)
    modifies st
    ensures AtStage(st, EvaluatorNode, trace + [AnalyzerNode], run, exp)
  {
    st.Analyze(run.mt);
    assert st.differences == exp.diffs;
  }

  method EvaluatorStep(st: Nodes.ReviewState, ghost trace: seq<Stage>, run: Run, ghost exp: Expect)
    requires AtStage(st, EvaluatorNode, trace, run, exp)
    requires exp.evals == Evaluator.Evaluations(exp.diffs, exp.rules)
    requires exp.needsHuman == Evaluator.NeedsHuman(exp.evals)
    modifies st
    ensures AtStage(st, Next(EvaluatorNode, exp.needsHuman, false), trace + [EvaluatorNode], run, exp)
    ensures st.needsHumanReview == exp.needsHuman && !st.continueReview
  {
    st.Evaluate();
  }

  method HumanLoopStep(st: Nodes.ReviewState, ghost trace: seq<Stage>, run: Run, ghost exp: Expect)
    requires AtStage(st, HumanLoopNode, trace, run, exp)
    ensures AtStage(st, FinalizerNode, trace + [HumanLoopNode], run, exp)
  {
    st.HumanLoop();
  }

  method FinalizerStep(st: Nodes.ReviewState, ghost trace: seq<Stage>, run: Run, ghost exp: Expect)
    requires AtStage(st, FinalizerNode, trace, run, exp)
    requires exp.report == Join(Report.ReportLines(exp.evals, [], Report.FinalizerStyle), "\n")
    modifies st
    ensures AtStage(st, End, trace + [FinalizerNode], run, exp)
  {
    st.Finalize();
  }

  /**
   * One pass of the graph: run the node of `stage`, then follow the edge
   * table on the flags the node left behind.
   */
  method Step(st: Nodes.ReviewState, stage: Stage, ghost trace: seq<Stage>, run: Run, ghost exp: Expect)
    returns (next: Stage, ghost trace': seq<Stage>)
    requires stage != End && AtStage(st, stage, trace, run, exp) && Expects(run, exp)
    modifies st
    ensures trace' == trace + [stage] && Rank(next) < Rank(stage)
    ensures AtStage(st, next, trace', run, exp)
  {
    trace' := trace + [stage];
    match stage
    case RetrieverNode =>
      var failure := RetrieverStep(st, trace, run, exp);
      next := AnalyzerNode;
    case AnalyzerNode =>
      AnalyzerStep(st, trace, run, exp);
      next := EvaluatorNode;
    case EvaluatorNode =>
      EvaluatorStep(st, trace, run, exp);
      next := Next(stage, st.needsHumanReview, st.continueReview);
    case HumanLoopNode =>
      HumanLoopStep(st, trace, run, exp);
      next := Next(stage, st.needsHumanReview, st.continueReview);
    case FinalizerNode =>
      FinalizerStep(st, trace, run, exp);
      next := End;
  }

  /** The expected results, given a successful retrieval. */
  ghost function Expected(run: Run): (exp: Expect)
    requires Analyzer.ValidMatcher(run.mt) && Retrieved(run).Ok?
    ensures Expects(run, exp)
  {
    var rules := Retrieved(run).value;
    var diffs := Analyzer.AnalyzeTexts(run.originalText, run.modifiedText, run.mt);
    var evals := Evaluator.Evaluations(diffs, rules);
    Expect(rules, diffs, evals, Evaluator.NeedsHuman(evals), Join(Report.ReportLines(evals, [], Report.FinalizerStyle), "\n"))
  }

  /** What a completed run leaves in the fields the task registry copies. */
  lemma CompletedRun(st: Nodes.ReviewState, run: Run, trace: seq<Stage>)
    requires Completes(st, run, trace)
    ensures st.status == Completed && st.humanReviews == []
    ensures st.differences == Expected(run).diffs && st.evaluations == Expected(run).evals
    ensures st.finalReport == Some(Expected(run).report)
  {
  }

  /** A state at END with the expected results is a completed run. */
  lemma EndCompletes(st: Nodes.ReviewState, trace: seq<Stage>, run: Run, exp: Expect)
    requires AtStage(st, End, trace, run, exp) && Expects(run, exp)
    ensures Completes(st, run, trace)
  {
  }

  /**
   * run_contract_review. The retrieval (database search) and difflib are
   * supplied from outside; a failed retrieval is the exception that escapes
   * the run. Returns the final state and, as a ghost, the stages visited:
   * every run that does not fail ends "completed", with a report, having run
   * each stage at most once.
   */
  method RunContractReview(run: Run) returns (result: Result<Nodes.ReviewState, string>, ghost trace: seq<Stage>)
    requires Analyzer.ValidMatcher(run.mt)
    ensures result.Err? <==> Retrieved(run).Err?
    ensures result.Err? ==> result.error == Retrieved(run).error && trace == [RetrieverNode]
    ensures result.Ok? ==> fresh(result.value) && Completes(result.value, run, trace)
  {
    var st := new Nodes.ReviewState(run.taskId, run.originalText, run.modifiedText, run.category);
    if Retrieved(run).Err? {
      // the retriever raises: nothing after it runs
      var failure := RetrieverStep(st, [], run, Expect([], [], [], false, ""));
      result, trace := Err(failure.value), [RetrieverNode];
      return;
    }
    ghost var exp := Expected(run);
    var stage := RetrieverNode;
    trace := [];
    while stage != End
      invariant fresh(st)
      invariant AtStage(st, stage, trace, run, exp)
      decreases Rank(stage)
    {
      stage, trace := Step(st, stage, trace, run, exp);
    }
    EndCompletes(st, trace, run, exp);
    result := Ok(st);
  }
}
