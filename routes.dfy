/**
 * The task registry of app/api/routes.py: a dictionary from task id to task
 * record that the HTTP handlers create, advance and read. The handlers become
 * methods of a store object that return either a response or an HTTP error
 * code; the background scheduling of a run is a separate call.
 */
module Routes {
  import opened Common
  import opened Schemas
  import Analyzer
  import Workflow
  import Nodes

  /** The task dictionary stored under each id (ContractTask, plus "error"). */
  datatype Task = Task(
    taskId: string,
    status: Status,
    originalText: string,
    modifiedText: string,
    category: Option<string>,
    differences: seq<Difference>,
    evaluations: seq<Evaluation>,
    humanReviews: seq<HumanReview>,
    finalReport: Option<string>,
    error: Option<string>)

  /** ContractUpload */
  datatype Upload = Upload(originalText: string, modifiedText: string, category: Option<string>)

  /** HumanReviewItem as submitted: a null suggestion is None. */
  datatype ReviewItem = ReviewItem(evaluationId: int, approved: bool, modifiedSuggestion: Option<string>, comment: Option<string>)

  /** TaskStatus response */
  datatype TaskStatus = TaskStatus(taskId: string, status: Status, message: string)

  /** The HTTP errors the handlers raise: 404, 400, and an escaping exception (500). */
  datatype HttpError = NotFound | BadRequest | ServerError(message: string)

  const CreatedMessage: string := "任务已创建，正在处理中"
  const UnknownStatusMessage: string := "未知状态"
  const SubmittedMessage: string := "Review submitted successfully"

  /** The message of each status in get_status_message's table. */
  function Message(s: Status): string
  {
    match s
    case Pending => "任务等待中"
    case InProgress => "正在分析合同..."
    case WaitingHuman => "需要法务人工确认"
    case Completed => "审查完成"
    case Failed => "处理失败"
  }

  /** get_status_message: a lookup in the table of the five status names. */
  function StatusMessage(status: string): string
  {
    if status == "pending" then Message(Pending)
    else if status == "in_progress" then Message(InProgress)
    else if status == "waiting_human" then Message(WaitingHuman)
    else if status == "completed" then Message(Completed)
    else if status == "failed" then Message(Failed)
    else UnknownStatusMessage
  }

  /** Each status name gets that status's own message, which is never the unknown one. */
  lemma KnownStatusMessage(s: Status)
    ensures StatusMessage(StatusName(s)) == Message(s) && Message(s) != UnknownStatusMessage
  {
    match s
    case Pending =>
    case InProgress => assert StatusName(s) != "pending";
    case WaitingHuman => assert StatusName(s) != "pending" && StatusName(s) != "in_progress";
    case Completed =>
      assert StatusName(s) != "pending" && StatusName(s) != "in_progress" && StatusName(s) != "waiting_human";
    case Failed =>
      assert StatusName(s) != "pending" && StatusName(s) != "in_progress" && StatusName(s) != "waiting_human";
      assert StatusName(s) != "completed";
  }

  /** A string that names no status gets "未知状态". */
  lemma UnknownStatus(status: string)
    requires forall s: Status :: status != StatusName(s)
    ensures StatusMessage(status) == UnknownStatusMessage
  {
    assert status != StatusName(Pending) && status != StatusName(InProgress) && status != StatusName(WaitingHuman);
    assert status != StatusName(Completed) && status != StatusName(Failed);
  }

  /** The record compare_contracts stores for a new upload. */
  function NewTask(id: string, upload: Upload): Task
  {
    Task(id, Pending, upload.originalText, upload.modifiedText, upload.category, [], [], [], None, None)
  }

  /** The run that run_contract_review performs for a task's texts and category. */
  function RunOf(id: string, upload: Upload, retrieve: (string, string) -> Result<seq<PlaybookRule>, string>,
                 mt: Analyzer.Matcher): Workflow.Run
  {
    Workflow.Run(id, upload.originalText, upload.modifiedText, upload.category, retrieve, mt)
  }

  /** The review dictionary built from one submitted item: the suggestion key is always present. */
  function ReviewOf(item: ReviewItem): (r: HumanReview)
    ensures r.evaluationId == item.evaluationId && r.approved == item.approved
    ensures r.modifiedSuggestion.Some? && r.modifiedSuggestion.value == item.modifiedSuggestion
    ensures r.comment == item.comment
  {
    HumanReview(item.evaluationId, item.approved, Some(item.modifiedSuggestion), item.comment)
  }

  /** reviews_list: one review per submitted item, in submission order. */
  function Reviews(items: seq<ReviewItem>): seq<HumanReview>
  {
    seq(|items|, i requires 0 <= i < |items| => ReviewOf(items[i]))
  }

  /** The loop of submit_human_review that builds reviews_list. */
  method BuildReviews(items: seq<ReviewItem>) returns (reviews: seq<HumanReview>)
    ensures reviews == Reviews(items)
  {
    reviews := [];
    for i := 0 to |items|
      invariant |reviews| == i
      invariant forall j :: 0 <= j < i ==> reviews[j] == ReviewOf(items[j])
    {
      reviews := reviews + [ReviewOf(items[i])];
    }
  }

  ghost predicate KeyedById(tasks: map<string, Task>)
  {
    forall id :: id in tasks ==> tasks[id].taskId == id
  }

  ghost predicate NoneWaiting(tasks: map<string, Task>)
  {
    forall id :: id in tasks ==> tasks[id].status != WaitingHuman
  }

  /** Storing a record under its own id, with a status other than "waiting_human", keeps both invariants. */
  lemma StorePreserves(tasks: map<string, Task>, id: string, task: Task)
    requires task.taskId == id
    ensures KeyedById(tasks) ==> KeyedById(tasks[id := task])
    ensures NoneWaiting(tasks) && task.status != WaitingHuman ==> NoneWaiting(tasks[id := task])
  {
  }

  /**
   * The record run_review_task leaves for `task` after `run`: "failed" with
   * the exception text when the run raises, otherwise the run's status,
   * records, evaluations, reviews and report.
   */
  ghost function Ran(task: Task, run: Workflow.Run): Task
    requires Analyzer.ValidMatcher(run.mt)
  {
    match Workflow.Retrieved(run)
    case Err(e) => task.(status := Failed, error := Some(e))
    case Ok(_) =>
      var exp := Workflow.Expected(run);
      task.(status := Completed, differences := exp.diffs, evaluations := exp.evals, humanReviews := [],
            finalReport := Some(exp.report))
  }

  /**
   * The body of run_review_task's exception handler for one record: run the
   * pipeline and copy its results, or mark the record failed.
   */
  method RunTask(task: Task, run: Workflow.Run) returns (t: Task)
    requires Analyzer.ValidMatcher(run.mt)
    ensures t == Ran(task, run)
  {
    var result, trace := Workflow.RunContractReview(run);
    match result
    case Err(e) =>
      t := task.(status := Failed, error := Some(e));
    case Ok(st) =>
      Workflow.CompletedRun(st, run, trace);
      t := task.(status := st.status, differences := st.differences, evaluations := st.evaluations,
                 humanReviews := st.humanReviews, finalReport := st.finalReport);
  }

  /** The run submit_human_review starts: the stored texts and category, under the stored id. */
  function RerunOf(task: Task, retrieve: (string, string) -> Result<seq<PlaybookRule>, string>,
                   mt: Analyzer.Matcher): Workflow.Run
  {
    Workflow.Run(task.taskId, task.originalText, task.modifiedText, task.category, retrieve, mt)
  }

  /**
   * The task after submit_human_review's rerun: the rerun's status and report
   * when it completes; unchanged when it raises.
   */
  ghost function Rerun(task: Task, run: Workflow.Run): Task
    requires Analyzer.ValidMatcher(run.mt)
  {
    match Workflow.Retrieved(run)
    case Err(_) => task
    case Ok(_) => task.(status := Completed, finalReport := Some(Workflow.Expected(run).report))
  }

  /**
   * What the rerun changes: only status and report, and only when it
   * completes; the reviews and the earlier records stay as they were.
   */
  lemma RerunFields(task: Task, run: Workflow.Run)
    requires Analyzer.ValidMatcher(run.mt)
    ensures var t := Rerun(task, run);
      && t.taskId == task.taskId && t.humanReviews == task.humanReviews
      && t.differences == task.differences && t.evaluations == task.evaluations
      && (Workflow.Retrieved(run).Ok? ==> t.status == Completed && t.finalReport == Some(Workflow.Expected(run).report))
      && (Workflow.Retrieved(run).Err? ==> t == task)
  {
  }

  /** The rerun of submit_human_review and its answer; the error of a run that raises escapes. */
  method RerunTask(task: Task, run: Workflow.Run) returns (t: Task, r: Result<string, HttpError>)
    requires Analyzer.ValidMatcher(run.mt)
    ensures t == Rerun(task, run)
    ensures r.Ok? <==> Workflow.Retrieved(run).Ok?
    ensures r.Err? ==> r.error == ServerError(Workflow.Retrieved(run).error)
    ensures r.Ok? ==> r.value == SubmittedMessage
  {
    var result, trace := Workflow.RunContractReview(run);
    match result
    case Err(e) =>
      t, r := task, Err(ServerError(e));
    case Ok(st) =>
      Workflow.CompletedRun(st, run, trace);
      t, r := task.(status := st.status, finalReport := st.finalReport), Ok(SubmittedMessage);
  }

  /**
   * The store and the answer after submit_human_review: 404 for an unknown
   * id, 400 for a task not waiting for a human, both with the store
   * unchanged; otherwise the task with the submitted reviews and the
   * rerun's outcome, and the success message or the rerun's error.
   */
  ghost function Submitted(tasks: map<string, Task>, id: string, items: seq<ReviewItem>,
                           retrieve: (string, string) -> Result<seq<PlaybookRule>, string>,
                           mt: Analyzer.Matcher): (map<string, Task>, Result<string, HttpError>)
    requires Analyzer.ValidMatcher(mt)
  {
    if id !in tasks then (tasks, Err(NotFound))
    else if tasks[id].status != WaitingHuman then (tasks, Err(BadRequest))
    else
      var task := tasks[id].(humanReviews := Reviews(items));
      var run := RerunOf(task, retrieve, mt);
      var stored := tasks[id := Rerun(task, run)];
      match Workflow.Retrieved(run)
      case Err(e) => (stored, Err(ServerError(e)))
      case Ok(_) => (stored, Ok(SubmittedMessage))
  }

  /** The two rejections: each exactly when its condition holds, and neither changes the store. */
  lemma SubmitRejects(tasks: map<string, Task>, id: string, items: seq<ReviewItem>,
                      retrieve: (string, string) -> Result<seq<PlaybookRule>, string>, mt: Analyzer.Matcher)
    requires Analyzer.ValidMatcher(mt)
    ensures var (after, r) := Submitted(tasks, id, items, retrieve, mt);
      && (r == Err(NotFound) <==> id !in tasks)
      && (r == Err(BadRequest) <==> id in tasks && tasks[id].status != WaitingHuman)
      && (r.Err? && !r.error.ServerError? ==> after == tasks)
      && (r.Ok? || r.error.ServerError? ==> id in tasks && tasks[id].status == WaitingHuman)
  {
  }

  /**
   * An accepted submission replaces only this task's reviews, by the
   * submitted ones in order; a rerun that completes sets "completed" and its
   * report, which is computed without those reviews; one that raises leaves
   * status and report as they were and answers with its error. The stored
   * records and evaluations are never touched, and no other task changes.
   */
  lemma SubmitStores(tasks: map<string, Task>, id: string, items: seq<ReviewItem>,
                     retrieve: (string, string) -> Result<seq<PlaybookRule>, string>, mt: Analyzer.Matcher)
    requires Analyzer.ValidMatcher(mt)
    requires id in tasks && tasks[id].status == WaitingHuman
    ensures var (after, r) := Submitted(tasks, id, items, retrieve, mt);
      var task := tasks[id];
      var run := Workflow.Run(task.taskId, task.originalText, task.modifiedText, task.category, retrieve, mt);
      && after.Keys == tasks.Keys
      && (forall other :: other in tasks && other != id ==> after[other] == tasks[other])
      && |after[id].humanReviews| == |items|
      && (forall i :: 0 <= i < |items| ==> after[id].humanReviews[i] == ReviewOf(items[i]))
      && after[id].taskId == task.taskId && after[id].differences == task.differences
      && after[id].evaluations == task.evaluations && after[id].error == task.error
      && (r.Ok? <==> Workflow.Retrieved(run).Ok?)
      && (r.Ok? ==> r.value == SubmittedMessage && after[id].status == Completed
                    && after[id].finalReport == Some(Workflow.Expected(run).report))
      && (r.Err? ==> r.error == ServerError(Workflow.Retrieved(run).error)
                     && after[id].status == task.status && after[id].finalReport == task.finalReport)
  {
    var task := tasks[id].(humanReviews := Reviews(items));
    RerunFields(task, RerunOf(task, retrieve, mt));
  }

  /** A submission keeps the store keyed by id. */
  lemma SubmitKeepsKeys(tasks: map<string, Task>, id: string, items: seq<ReviewItem>,
                        retrieve: (string, string) -> Result<seq<PlaybookRule>, string>, mt: Analyzer.Matcher)
    requires Analyzer.ValidMatcher(mt) && KeyedById(tasks)
    ensures KeyedById(Submitted(tasks, id, items, retrieve, mt).0)
  {
    if id in tasks && tasks[id].status == WaitingHuman {
      var task := tasks[id].(humanReviews := Reviews(items));
      RerunFields(task, RerunOf(task, retrieve, mt));
      StorePreserves(tasks, id, Rerun(task, RerunOf(task, retrieve, mt)));
    }
  }

  /**
   * A store that only ever holds tasks created and run by these handlers
   * never has a task waiting for a human, so every review submission to it is
   * rejected with not-found or bad-request and changes nothing.
   */
  lemma SubmitAlwaysRejected(tasks: map<string, Task>, id: string, items: seq<ReviewItem>,
                             retrieve: (string, string) -> Result<seq<PlaybookRule>, string>, mt: Analyzer.Matcher)
    requires Analyzer.ValidMatcher(mt) && NoneWaiting(tasks)
    ensures var (after, r) := Submitted(tasks, id, items, retrieve, mt);
      (r == Err(NotFound) || r == Err(BadRequest)) && after == tasks
  {
  }

  class TaskStore {
    /** tasks_store */
    var tasks: map<string, Task>

    /** Every record is stored under its own task id. */
    ghost predicate Valid()
      reads this
    {
      KeyedById(tasks)
    }

    /** No stored task is waiting for a human review. */
    ghost predicate NeverWaiting()
      reads this
    {
      NoneWaiting(tasks)
    }

    constructor ()
      ensures tasks == map[] && Valid() && NeverWaiting()
    {
      tasks := map[];
    }

    /**
     * compare_contracts, with the generated uuid as `id`: stores a pending
     * task with the submitted texts and nothing computed yet, and answers
     * "pending". Scheduling the run is RunReviewTask.
     */
    method CompareContracts(id: string, upload: Upload) returns (response: TaskStatus)
      requires Valid()
      modifies this
      ensures tasks == old(tasks)[id := NewTask(id, upload)]
      ensures Valid() && (old(NeverWaiting()) ==> NeverWaiting())
      ensures id !in old(tasks) ==> |tasks| == |old(tasks)| + 1
      ensures response == TaskStatus(id, Pending, CreatedMessage)
    {
      tasks := tasks[id := NewTask(id, upload)];
      StorePreserves(old(tasks), id, NewTask(id, upload));
      response := TaskStatus(id, Pending, CreatedMessage);
    }

    /**
     * run_review_task. An unknown id leaves the store unchanged (the lookup
     * fails inside and again outside the exception handler). Otherwise the
     * task goes to "in_progress" and then takes the run's status, records,
     * reviews and report; if the run raises, the task is "failed" with the
     * exception text as its error and keeps its other fields.
     */
    method RunReviewTask(id: string, upload: Upload, retrieve: (string, string) -> Result<seq<PlaybookRule>, string>,
                         mt: Analyzer.Matcher)
      requires Valid() && Analyzer.ValidMatcher(mt)
      modifies this
      ensures Valid() && (old(NeverWaiting()) ==> NeverWaiting())
      ensures id !in old(tasks) ==> tasks == old(tasks)
      ensures id in old(tasks) ==>
        tasks == old(tasks)[id := Ran(old(tasks)[id], RunOf(id, upload, retrieve, mt))]
    {
      if id !in tasks {
        return;
      }
      var task := tasks[id];
      tasks := tasks[id := task.(status := InProgress)];
      task := RunTask(task, RunOf(id, upload, retrieve, mt));
      tasks := tasks[id := task];
      StorePreserves(old(tasks), id, task);
    }

    /** get_task_status: the stored status and its message, or not-found. */
    method GetTaskStatus(id: string) returns (r: Result<TaskStatus, HttpError>)
      ensures r.Err? <==> id !in tasks
      ensures r.Err? ==> r.error == NotFound
      ensures r.Ok? ==> r.value.taskId == tasks[id].taskId && r.value.status == tasks[id].status
      ensures r.Ok? ==> r.value.message == Message(tasks[id].status) && r.value.message != UnknownStatusMessage
    {
      if id !in tasks {
        return Err(NotFound);
      }
      var task := tasks[id];
      KnownStatusMessage(task.status);
      return Ok(TaskStatus(task.taskId, task.status, StatusMessage(StatusName(task.status))));
    }

    /**
     * get_task_result: the stored record, or not-found. The response model
     * has no "error" field, so a failed task's error text is not returned.
     */
    method GetTaskResult(id: string) returns (r: Result<Task, HttpError>)
      ensures r.Err? <==> id !in tasks
      ensures r.Err? ==> r.error == NotFound
      ensures r.Ok? ==> r.value == tasks[id].(error := None)
    {
      if id !in tasks {
        return Err(NotFound);
      }
      return Ok(tasks[id].(error := None));
    }

    /**
     * submit_human_review. Rejects an unknown id (404) and a task not waiting
     * for a human (400), changing nothing. Otherwise replaces the task's
     * reviews with the submitted ones, in order, and reruns the pipeline on
     * the task's texts and category only; the rerun's status and report
     * overwrite the task's, and its records and evaluations are not copied.
     * If the rerun raises, the error escapes with the reviews already stored.
     */
    method SubmitHumanReview(id: string, items: seq<ReviewItem>,
                             retrieve: (string, string) -> Result<seq<PlaybookRule>, string>, mt: Analyzer.Matcher)
      returns (r: Result<string, HttpError>)
      requires Valid() && Analyzer.ValidMatcher(mt)
      modifies this
      ensures Valid() && (old(NeverWaiting()) ==> NeverWaiting())
      ensures (tasks, r) == Submitted(old(tasks), id, items, retrieve, mt)
    {
      if id !in tasks {
        return Err(NotFound);
      }
      var task := tasks[id];
      if task.status != WaitingHuman {
        return Err(BadRequest);
      }
      var reviews := BuildReviews(items);
      task := task.(humanReviews := reviews);
      // the reviews are stored before the rerun, and stay if it raises
      var run := RerunOf(task, retrieve, mt);
      var rerun;
      rerun, r := RerunTask(task, run);
      ghost var after := Submitted(old(tasks), id, items, retrieve, mt);
      assert task == old(tasks)[id].(humanReviews := Reviews(items));
      assert run == RerunOf(old(tasks)[id].(humanReviews := Reviews(items)), retrieve, mt);
      assert after.0 == old(tasks)[id := rerun] && after.1 == r;
      tasks := tasks[id := rerun];
      SubmitKeepsKeys(old(tasks), id, items, retrieve, mt);
    }
  }
}
