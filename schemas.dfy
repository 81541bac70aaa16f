/**
 * The records the review pipeline passes between its stages: change records,
 * playbook rules, evaluations, human reviews, and the task status vocabulary.
 * Dictionary keys of the Python original become datatype fields.
 */
module Schemas {
  import opened Common

  /** ReviewStatus */
  datatype Status = Pending | InProgress | WaitingHuman | Completed | Failed

  /** The wire spelling of each status. */
  function StatusName(s: Status): string
  {
    match s
    case Pending => "pending"
    case InProgress => "in_progress"
    case WaitingHuman => "waiting_human"
    case Completed => "completed"
    case Failed => "failed"
  }

  /** RiskLevel values; rule tiers are free strings and are compared against these. */
  const Green: string := "green"
  const Yellow: string := "yellow"
  const Red: string := "red"

  /** The "change_type" of a change record. */
  datatype ChangeKind = Modified | Removed | Added

  /**
   * One change record. `similarity` is optional because the evaluator reads it
   * with a default (`diff.get("similarity", 1.0)`); the analyzer always sets it.
   */
  datatype Difference = Difference(
    originalSection: string,
    modifiedSection: string,
    similarity: Option<real>,
    changeType: ChangeKind)

  /** A playbook row; `keywords` is the comma-separated keyword column. */
  datatype PlaybookRule = PlaybookRule(
    ruleName: string,
    category: string,
    description: string,
    riskLevel: string,
    action: string,
    keywords: string)

  datatype Evaluation = Evaluation(
    id: nat,
    difference: Difference,
    riskLevel: string,
    matchedRule: Option<PlaybookRule>,
    suggestion: string,
    explanation: string)

  /**
   * A human review (HumanReviewItem). `modifiedSuggestion` distinguishes a
   * missing key (None) from a key present with a null value (Some(None)):
   * the report takes the review's value whenever the key is present.
   */
  datatype HumanReview = HumanReview(
    evaluationId: int,
    approved: bool,
    modifiedSuggestion: Option<Option<string>>,
    comment: Option<string>)
}
