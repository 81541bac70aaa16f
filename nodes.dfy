/**
 * The pipeline state (ContractReviewState, app/graph/state.py) and the five
 * nodes that update it in place (app/graph/nodes.py). Each node writes some
 * fields and leaves the others as they were.
 */
module Nodes {
  import opened Common
  import opened Schemas
  import Analyzer
  import Evaluator
  import Report

  class ReviewState {
    var taskId: string
    var status: Status
    var originalText: string
    var modifiedText: string
    var category: Option<string>
    var playbookRules: seq<PlaybookRule>
    var differences: seq<Difference>
    var evaluations: seq<Evaluation>
    var humanReviews: seq<HumanReview>
    var needsHumanReview: bool
    var finalReport: Option<string>
    var error: Option<string>
    var continueReview: bool

    /** The initial state of run_contract_review (app/graph/workflow.py lines 55-72). */
    constructor (taskId: string, originalText: string, modifiedText: string, category: Option<string>)
      ensures this.taskId == taskId && this.originalText == originalText
      ensures this.modifiedText == modifiedText && this.category == category
      ensures status == Pending
      ensures playbookRules == [] && differences == [] && evaluations == [] && humanReviews == []
      ensures !needsHumanReview && finalReport == None && error == None && !continueReview
    {
      this.taskId := taskId;
      this.status := Pending;
      this.originalText := originalText;
      this.modifiedText := modifiedText;
      this.category := category;
      this.playbookRules := [];
      this.differences := [];
      this.evaluations := [];
      this.humanReviews := [];
      this.needsHumanReview := false;
      this.finalReport := None;
      this.error := None;
      this.continueReview := false;
    }

    /** `state.get("category") or ""`: the category handed to the retriever. */
    function RetrievalCategory(): string
      reads this
    {
      match category
      case None => ""
      case Some(c) => c
    }

    /**
     * node_retriever: marks the run in progress and stores the retrieved
     * playbook rules. The retrieval itself is outside the model; its outcome
     * for (modified_text, category or "") is the argument.
     */
    method Retrieve(rules: seq<PlaybookRule>)
      modifies this`status, this`playbookRules
      ensures status == InProgress && playbookRules == rules
    {
      status := InProgress;
      playbookRules := rules;
    }

    /**
     * node_analyzer: stores the change records of the two texts' non-blank
     * lines under the supplied difflib opcodes and ratio.
     */
    method Analyze(mt: Analyzer.Matcher)
      requires Analyzer.ValidMatcher(mt)
      modifies this`differences
      ensures differences == Analyzer.AnalyzeTexts(originalText, modifiedText, mt)
    {
      differences := Analyzer.NodeAnalyzer(originalText, modifiedText, mt);
    }

    /**
     * node_evaluator: one evaluation per stored record, the human-review flag
     * set exactly when some evaluation is yellow or red, and the status
     * "waiting_human" in that case, "in_progress" otherwise.
     */
    method Evaluate()
      modifies this`evaluations, this`needsHumanReview, this`status
      ensures evaluations == Evaluator.Evaluations(differences, playbookRules)
      ensures needsHumanReview == Evaluator.NeedsHuman(evaluations)
      ensures status == (if needsHumanReview then WaitingHuman else InProgress)
    {
      evaluations := Evaluator.EvaluateAll(differences, playbookRules);
      needsHumanReview := Evaluator.NeedsHuman(evaluations);
      if needsHumanReview {
        status := WaitingHuman;
      } else {
        status := InProgress;
      }
    }

    /** node_human_loop: returns the state as it is (it modifies nothing). */
    method HumanLoop()
    {
    }

    /**
     * node_finalizer: stores the report over the evaluations and the human
     * reviews and marks the run completed.
     */
    method Finalize()
      modifies this`finalReport, this`status
      ensures status == Completed
      ensures finalReport == Some(Join(Report.ReportLines(evaluations, humanReviews, Report.FinalizerStyle), "\n"))
    {
      var report := Report.BuildReport(evaluations, humanReviews, Report.FinalizerStyle);
      finalReport := Some(report);
      status := Completed;
    }
  }
}
