# ContractGuardAgent contract review core, in Dafny

ContractGuardAgent compares an original contract text with a modified one and produces a
compliance report. The report sorts every change into a green, yellow or red tier. A LangGraph
state machine runs five nodes in order: retriever, analyzer, evaluator, human loop and
finalizer. A FastAPI router keeps the tasks in an in-memory dictionary. An LLM service strips
fences from model replies and can write the same report. A SQLite helper turns free text into
an FTS5 query. A YAML loader merges user settings into the default configuration.

This project models that core and proves properties of the model. It has these modules:

- `Common` holds the Python string operations the core relies on: `split`, `join`, `strip`
  over the Unicode whitespace set, substring `in`, ASCII `lower`, slicing and integer
  formatting.
- `Schemas` holds the records: status, change record, playbook rule, evaluation and human
  review.
- `Analyzer` models `node_analyzer`. The difflib matcher is a parameter: its opcodes and a
  similarity ratio.
- `Evaluator` models `node_evaluator`: keyword scoring in exact half-points, the first
  best-scoring rule, the fallbacks and the human-review flag.
- `Report` holds the report that `node_finalizer` and `LLMService.generate_final_report`
  both write. A `Style` record captures the three places where the two differ.
- `Nodes` has a class `ReviewState` with one method per graph node. Each method updates
  the fields its node writes.
- `Workflow` models the routing functions, the graph's transition function and
  `run_contract_review`. The last is a loop that drives the nodes on a fresh state.
- `Routes` has a class `TaskStore` over a `map` from task id to task, with one method per
  endpoint.
- `Llm` models the fence stripping and the default values of `analyze_contract_difference`, the
  five-rule prompt block and `generate_final_report`.
- `Fts` models `escape_fts_query` and the seeded playbook.
- `Config` models `default_config`, `load_config`, `get_config` and `save_config`.
  Sections are objects, so the aliasing caused by the shallow `dict.copy` can be seen.

Some facts the proofs establish:

- Every pipeline run that does not raise ends `completed` with no human reviews in its state.
  A task created by the router is therefore never `waiting_human`.
  `submit_human_review` therefore always answers 404 or 400 for such tasks
  (`Routes.SubmitAlwaysRejected`).
- The seeded playbook stores its tiers as `绿色`/`黄色`/`红色`. The evaluator compares tiers
  with `green`/`yellow`/`red`. A change that matches a seeded rule is therefore never flagged
  (`Fts.MatchNeverFlagged`, `Fts.SeedNeverFlagging`).
- An empty keyword piece, for example from a trailing comma, is a substring of every text. A
  rule whose keyword column is not empty but has such a piece scores at least 1.5 for any
  change (`Evaluator.EmptyPieceScores`). An empty keyword column scores 0.
- With two reviews for one red item, the item line shows the last review. The verdict,
  however, looks at every review. The two can disagree (`Report.DuplicateReviewsDisagree`).

## Model

| member | source | states |
|---|---|---|
| Common.JoinSplitOn | app/graph/nodes.py:25-26 | joining the pieces of `split(sep)` with `sep` gives back the text, so splitting loses nothing |
| Common.ContainsAt | app/graph/nodes.py:91-94 | substring `in` holds exactly when the keyword occurs at some position of the text |
| Common.StripOfStripped | app/graph/nodes.py:25-26 | `strip` leaves a text unchanged when it neither starts nor ends with whitespace, so stripping twice changes nothing |
| Analyzer.Lines | app/graph/nodes.py:25-26 | no kept line is empty: blank lines are dropped after stripping |
| Analyzer.FilterSignificant | app/graph/nodes.py:62 | keeps only records of the input with a side longer than 10 characters, and is empty iff no record has one |
| Analyzer.FilterSignificantSingle | app/graph/nodes.py:62 | a single record is kept iff one of its sides is longer than 10 characters |
| Analyzer.FilterSignificantAppend | app/graph/nodes.py:62 | the filter of a concatenation is the concatenation of the filters, so the significant records are kept in input order; with the single-record case this determines the filter completely |
| Analyzer.FilterSignificantKeepsAll | app/graph/nodes.py:62 | every significant record of the input is in the result |
| Analyzer.ReplaceSpanRecords | app/graph/nodes.py:33-44 | the loop yields the "modified" records of a replace span: the i-th lines paired, a missing side is "", and the ratio is the similarity |
| Analyzer.DeleteSpanRecords | app/graph/nodes.py:45-52 | one "removed" record with similarity 0 per deleted line, in order |
| Analyzer.InsertSpanRecords | app/graph/nodes.py:53-60 | one "added" record with similarity 0 per inserted line, in order |
| Analyzer.SpanRecords | app/graph/nodes.py:32-60 | the records of one opcode; an equal span yields none |
| Analyzer.ComputeDifferences | app/graph/nodes.py:28-64 | the stored list is the significant records, or the first ten records when none is significant |
| Analyzer.NodeAnalyzer | app/graph/nodes.py:21-66 | the analyzer's output for two texts under a given matcher |
| Analyzer.ReplaceRecordsPairwise | app/graph/nodes.py:34-44 | record i of a replace span pairs line i1+i with line j1+i, with "" past a side's end |
| Analyzer.RemovedRecordsAt | app/graph/nodes.py:46-52 | record k of a delete span is line i1+k as removed |
| Analyzer.AddedRecordsAt | app/graph/nodes.py:54-60 | record k of an insert span is line j1+k as added |
| Analyzer.SpanRecordCount | app/graph/nodes.py:32-60 | a replace span gives max of its two lengths, delete and insert their lengths, equal none |
| Analyzer.AllEqualNoRecords | app/graph/nodes.py:32-60 | when every opcode is equal, no record is produced |
| Analyzer.SelectDifferencesSpec | app/graph/nodes.py:62-64 | the stored list is empty iff there is no record; otherwise it is the filter's result (all significant records, in input order) if any record is significant, else the first min(10, n) records |
| Analyzer.AllEqualNoDifferences | app/graph/nodes.py:21-66 | identical line lists (all-equal opcodes) give no differences |
| Analyzer.ModifiedSidesAreChangedLines | app/graph/nodes.py:32-60 | the non-empty modified sides of all records are exactly the modified lines outside equal spans |
| Analyzer.SpansCover | app/graph/nodes.py:32-60 | for a contiguous opcode cover, changed lines and equal lines together rebuild the modified line list |
| Analyzer.ChangedLinesSubsequence | app/graph/nodes.py:32-60 | the changed lines form a subsequence of the modified lines |
| Analyzer.ModifiedSidesFollowModifiedText | app/graph/nodes.py:21-60 | every modified side comes from the modified text's lines, in the text's order |
| Evaluator.ScorePositive | app/graph/nodes.py:87-94 | a rule scores above 0 iff its keyword field is non-empty and some piece occurs in the text or the description; the score is at most 1.5 per piece |
| Evaluator.EmptyKeywordAlwaysHits | app/graph/nodes.py:89-94 | over a keyword list with an empty piece, the points summed for any text and description are at least 1.5 |
| Evaluator.EmptyPieceScores | app/graph/nodes.py:87-94 | a rule whose keyword column is not empty but splits into an empty piece scores at least 1.5 against every change record |
| Evaluator.RuleScore | app/graph/nodes.py:81-94 | the scoring loop computes the rule's score in half-points |
| Evaluator.BestOfIsFirstMaximum | app/graph/nodes.py:78-98 | the best score bounds every rule's score; no rule is chosen iff all score 0; a chosen rule holds the best score, which is positive, and every earlier rule scores strictly less |
| Evaluator.ConsiderRule | app/graph/nodes.py:81-98 | one turn of the rule loop: after rule k, the best score and the chosen rule are those of the first k+1 scores; a rule takes over only with a strictly larger score |
| Evaluator.SelectRule | app/graph/nodes.py:78-98 | the loop returns the first best-scoring rule with a positive score, or none |
| Evaluator.EvaluateOneSpec | app/graph/nodes.py:100-131 | a matched rule supplies tier, suggestion and explanation; otherwise added and removed are yellow, a modified change is green iff similarity > 0.8 |
| Evaluator.EvaluationsShape | app/graph/nodes.py:74-131 | one evaluation per change, with id = its index and the change itself attached |
| Evaluator.EvaluateAll | app/graph/nodes.py:72-133 | the loop builds exactly the list `Evaluations` defines: one evaluation per change, by index |
| Evaluator.EvaluatorStatus | app/graph/nodes.py:135-141 | the status is waiting_human iff some evaluation is yellow or red, otherwise in_progress |
| Evaluator.NoRulesNeedsHuman | app/graph/nodes.py:104-122 | without rules, a run needs a human iff some change is added, removed or modified with similarity ≤ 0.8 |
| Report.ReviewMapLookup | app/graph/nodes.py:152 | the review map holds an id iff some review has it, and then maps it to the last such review |
| Report.ReviewMapIgnoresOtherIds | app/graph/nodes.py:152 | reviews of other ids do not change the entry of an id |
| Report.ItemStatusFromLastReview | app/graph/nodes.py:177-194 | an item line shows 已批准 iff the last review for its id approved it; without a review it shows 待确认 and the rule's suggestion |
| Report.UnknownReviewsIgnored | app/graph/nodes.py:174-201 | adding reviews for other ids leaves an item's lines unchanged |
| Report.Tier | app/graph/nodes.py:156-158 | a tier list holds only evaluations of that level |
| Report.KnownCountAll | app/graph/nodes.py:156-163 | the evaluations with a known level are at most all of them, and all of them iff every level is green, yellow or red |
| Report.TierCounts | app/graph/nodes.py:156-163 | the three summary counts add up to the evaluations whose level is one of the three, and to all evaluations iff no level is unknown |
| Report.TierMembers | app/graph/nodes.py:156-158 | an evaluation is in a tier iff it is in the list and has that level |
| Report.RedTierNonEmpty | app/graph/nodes.py:205-206 | the red tier is non-empty iff some evaluation is red |
| Report.VerdictCases | app/graph/nodes.py:203-213 | the verdict is renegotiate iff a review of a red item is unapproved; acknowledged iff red with none unapproved; the yellow notice only in the LLM style; otherwise clear |
| Report.FinalizerHasNoYellowVerdict | app/graph/nodes.py:205-212 | the graph's finalizer never emits the yellow-only verdict |
| Report.UnreviewedRedIsAcknowledged | app/graph/nodes.py:205-210 | red items with no reviews at all get the "all confirmed" verdict |
| Report.ReportFrame | app/graph/nodes.py:154-213 | the report opens with the title, the summary header and the three tier counts, and ends with the final-advice header and the verdict |
| Report.AppendGreen | app/graph/nodes.py:166-172 | the loop appends the green section (header, three lines per item with both sides cut to the style's width, blank line), or nothing without green items |
| Report.ItemLines | app/graph/nodes.py:176-200 | one yellow or red item renders to its status line, risk line for red in the finalizer, suggestion and optional comment |
| Report.ReviewedLines | app/graph/nodes.py:174-201 | the loop renders every item of a tier in order |
| Report.AppendReviewed | app/graph/nodes.py:174-201 | a tier adds its header, its items and a blank line, or nothing when empty |
| Report.BuildReport | app/graph/nodes.py:148-214 | the built report is the newline join of the specified report lines |
| Report.DuplicateReviewsDisagree | app/graph/nodes.py:152-210 | a red item reviewed first unapproved and then approved shows 已批准 yet gets the renegotiate verdict |
| Nodes.ReviewState.constructor | app/graph/workflow.py:54-71 | the initial state: the given texts and category, pending, no rules, differences, evaluations, reviews, report or error, both flags unset |
| Nodes.ReviewState.Retrieve | app/graph/nodes.py:8-19 | sets in_progress and stores the retrieved rules, nothing else |
| Nodes.ReviewState.Analyze | app/graph/nodes.py:21-66 | stores the analyzer output for the state's two texts |
| Nodes.ReviewState.Evaluate | app/graph/nodes.py:68-143 | stores the evaluations, sets the flag iff one is yellow or red, and sets waiting_human or in_progress accordingly |
| Nodes.ReviewState.Finalize | app/graph/nodes.py:148-217 | stores the finalizer report over the state's evaluations and reviews and sets completed |
| Workflow.ShouldNeedHuman | app/graph/workflow.py:5-8 | routes to need_human iff the flag is present and true |
| Workflow.ShouldContinueReview | app/graph/workflow.py:10-13 | routes to continue iff the flag is present and true |
| Workflow.NextProgress | app/graph/workflow.py:24-47 | every edge moves strictly towards the end except human_loop to evaluator, which is taken iff continue is set |
| Workflow.PathVisitsEachStageOnce | app/graph/workflow.py:24-47 | a run without continuation starts at the retriever, ends at the finalizer, never runs END and visits no node twice |
| Workflow.RetrieverStep | app/graph/nodes.py:8-19 | a failed retrieval stops the run with its error; otherwise the state holds the retrieved rules and the run moves to the analyzer |
| Workflow.AnalyzerStep | app/graph/nodes.py:21-66 | after the analyzer the state holds the expected differences and the run moves to the evaluator |
| Workflow.EvaluatorStep | app/graph/workflow.py:29-36 | after the evaluator the flag is the expected one and the run takes the edge the router picks |
| Workflow.HumanLoopStep | app/graph/workflow.py:38-45 | the human loop changes nothing and, with continue unset, leads to the finalizer |
| Workflow.FinalizerStep | app/graph/nodes.py:148-217 | the finalizer stores the expected report and ends the run |
| Workflow.Step | app/graph/workflow.py:24-47 | each step runs the current node, follows the graph's edge and strictly lowers the rank |
| Workflow.CompletedRun | app/graph/workflow.py:53-74 | a finished run is completed, holds no human reviews, and holds the analyzer's differences, the evaluator's evaluations and the finalizer's report |
| Workflow.RunContractReview | app/graph/workflow.py:53-74 | the invocation raises iff retrieval fails, with that error; otherwise it returns a fresh state that completed the graph |
| Routes.KnownStatusMessage | app/api/routes.py:75-83 | each of the five status names gets its own status's message, never the unknown one |
| Routes.UnknownStatus | app/api/routes.py:75-83 | any string that names no status gets 未知状态 |
| Routes.ReviewOf | app/api/routes.py:103-110 | the stored review copies id, approval and comment, and always has the suggestion key, possibly None |
| Routes.BuildReviews | app/api/routes.py:103-110 | the loop builds `Reviews`: one stored review per submitted item, in order |
| Routes.StorePreserves | app/api/routes.py:10-61 | storing a task under its id keeps the store keyed by id, and a non-waiting task keeps it free of waiting tasks |
| Routes.RunTask | app/api/routes.py:43-61 | a failed run marks the task failed with the error; a completed run copies status, differences, evaluations, reviews and report |
| Routes.TaskStore.constructor | app/api/routes.py:10 | the store starts empty |
| Routes.TaskStore.CompareContracts | app/api/routes.py:12-35 | adds a pending task under the new id, grows the store by one, and answers pending with the creation message |
| Routes.TaskStore.RunReviewTask | app/api/routes.py:37-61 | the task becomes the result of running the pipeline on its upload; other tasks are unchanged; no task is ever left waiting_human |
| Routes.TaskStore.GetTaskStatus | app/api/routes.py:63-73 | 404 iff the id is unknown; otherwise the stored id, the status and its known message |
| Routes.TaskStore.GetTaskResult | app/api/routes.py:85-91 | 404 iff the id is unknown; otherwise the stored task without its error field |
| Routes.RerunFields | app/api/routes.py:116-124 | the rerun keeps id, reviews, records and evaluations; a completed rerun sets completed and the report computed from the texts alone; a raising one changes nothing |
| Routes.RerunTask | app/api/routes.py:116-126 | the rerun's task is exactly that outcome; it answers the success message iff retrieval succeeds, otherwise the retrieval error escapes |
| Routes.SubmitRejects | app/api/routes.py:93-101 | 404 iff the id is unknown, 400 iff the task is not waiting_human, and both leave the store unchanged; any other answer needs a waiting task |
| Routes.SubmitStores | app/api/routes.py:103-126 | an accepted submission stores one review per item in order, keeps records, evaluations, error and every other task, sets completed and the fresh report iff retrieval succeeds, and otherwise keeps status and report and answers with the error |
| Routes.SubmitKeepsKeys | app/api/routes.py:93-126 | a submission keeps the store keyed by task id |
| Routes.TaskStore.SubmitHumanReview | app/api/routes.py:93-126 | the store and the answer after the handler are exactly those `Submitted` gives; the store stays keyed by id and free of waiting tasks |
| Routes.SubmitAlwaysRejected | app/api/routes.py:93-101 | on a store where no task waits, every submission is rejected and changes nothing |
| Llm.Unfence | app/services/llm.py:77-84 | the cleaned reply is at most as long as the raw one and has no surrounding whitespace |
| Llm.UnfenceFenced | app/services/llm.py:77-84 | a JSON object wrapped in a json or plain fence, with padding, comes back exactly |
| Llm.UnfenceBare | app/services/llm.py:77-84 | an unfenced JSON object with padding comes back exactly |
| Llm.StripPadded | app/services/llm.py:84 | strip removes exactly the whitespace padding around an object text |
| Llm.Assess | app/services/llm.py:70-100 | a failed parse gives yellow, the failure prefix with the error, the fixed suggestion and no rule; a parsed reply gives its tier (or yellow), its matched rule (or none), its explanation and suggestion (or the two defaults); a tier other than yellow or a rule comes only from the reply |
| Llm.RulesPrompt | app/services/llm.py:46-50 | the loop builds the rules block: empty without rules, else the header and one line per rule among the first five |
| Llm.RulesTextCap | app/services/llm.py:47-50 | rules after the fifth never change the prompt block |
| Llm.RulesTextShowsFirstFive | app/services/llm.py:49-50 | every one of the first five rules' lines occurs in the prompt block |
| Llm.ReviewsOrEmpty | app/services/llm.py:107-109 | a missing review list behaves as the empty one, so the report for no reviews is the report for an empty list |
| Llm.GenerateFinalReport | app/services/llm.py:102-173 | the LLM report is the shared report in the LLM style over `human_reviews or []` |
| Fts.Clean | app/rag/db.py:301 | same length; each character is kept if word, whitespace or CJK, else becomes a space |
| Fts.Words | app/rag/db.py:302 | every word is non-empty and has no whitespace |
| Fts.WordsOfEmpty | app/rag/db.py:302 | an empty text has no words |
| Fts.WordsOfSpaceFirst | app/rag/db.py:302 | a leading whitespace character is skipped |
| Fts.WordsOfWordFirst | app/rag/db.py:302 | a leading maximal run of non-whitespace characters is the first word, and splitting goes on after it; with the two previous rows this determines the words of every text |
| Fts.WordsContent | app/rag/db.py:302 | the words laid end to end are exactly the text's non-whitespace characters, in order |
| Fts.WordsKeep | app/rag/db.py:301-302 | every word of a cleaned query has only word or CJK characters |
| Fts.Terms | app/rag/db.py:302-305 | the terms are the first min(10, n) of the n words of the cleaned query, in order |
| Fts.EscapeFtsQuery | app/rag/db.py:299-305 | never empty; the quoted "*" when there are no words, else the quoted first ten words joined by " OR "; what that output means is stated by `Fts.EscapeSplitsBack` |
| Fts.WithOr | app/rag/db.py:305 | the words of parts joined by " OR ": 2n-1 entries, the parts at the even positions and the keyword OR at the odd ones |
| Fts.WordsJoinOr | app/rag/db.py:305 | splitting non-empty whitespace-free parts joined by " OR " gives back the parts with OR between each two |
| Fts.QuotedWords | app/rag/db.py:305 | quoting a word keeps it one non-empty whitespace-free word |
| Fts.EscapeSplitsBack | app/rag/db.py:299-305 | the query splits back into the quoted terms with one OR between each two (so one " OR " fewer than terms), or into the quoted "*" alone when there are no terms |
| Fts.TermsAreClean | app/rag/db.py:301-305 | every term is non-empty and made of word or CJK characters |
| Fts.NoQuoteInTerms | app/rag/db.py:301-305 | when the quote is not a word character, no term contains a quote, so the phrases cannot break out |
| Fts.JoinLength | app/rag/db.py:305 | the joined query's length is the separators plus the sum of the parts |
| Fts.SeedTiers | app/rag/db.py:274-292 | sixteen seeded rules, each tier in Chinese, none of them green, yellow or red |
| Fts.MatchNeverFlagged | app/graph/nodes.py:100-141 | with such rules a matched change is never yellow or red, so a human is needed only for unmatched changes |
| Fts.SeedNeverFlagging | app/rag/db.py:274-292 | the seeded playbook has that property |
| Config.MergeShape | app/config.py:43-48 | the default section names stay the same, and every added section is a user section that is not a default one |
| Config.MergeFails | app/config.py:44-46 | the merge raises iff some known section's user value is not a mapping |
| Config.MergeUpdatesSection | app/config.py:45-46 | a known section's keys take the user's values, and its other keys keep theirs |
| Config.MergeUntouched | app/config.py:43-48 | a default section the user does not mention is unchanged |
| Config.MergeAddsSection | app/config.py:47-48 | an unknown user section is added with the user's value |
| Config.MergeFailureSticks | app/config.py:44-48 | once a section has failed, later sections do not undo the failure |
| Config.ConfigStore.constructor | app/config.py:8-36 | the six default sections with their default keys and values |
| Config.ConfigStore.UpdateSection | app/config.py:46 | `update` puts the user's keys into the shared section object in place |
| Config.ConfigStore.LoadConfig | app/config.py:38-51 | no file or an empty document gives the defaults; a non-mapping raises; a mapping gives the merge, which mutates the shared default sections |
| Config.ConfigStore.MergeSection | app/config.py:44-48 | one loop turn updates a default section in place, adds a new one, or raises with the sections unchanged, as the merge step says |
| Config.ConfigStore.MergeUser | app/config.py:43-49 | the loop performs the section-by-section merge |
| Config.ConfigStore.GetConfig | app/config.py:53-56 | the first call gives what load_config gives (the defaults, a failure, or the merge with its sections) and caches a success; later calls return the cached configuration and change nothing |
| Config.ConfigStore.SaveConfig | app/config.py:58-61 | the saved configuration becomes the cached one |

## Left out

- Database access: connections, tables, template search and seeding are left out. So are the embedding and FTS queries in `app/rag/db.py` and `app/rag/retriever.py`. Retrieval is a parameter that returns rules or raises with a message.
- difflib: `SequenceMatcher` opcodes and `ratio()` are parameters (`Analyzer.Matcher`). The model assumes that the opcodes are in bounds, cover both lists contiguously from the start, and have difflib's span shapes (`Analyzer.TagShape`): an equal span is as long on both sides, a replace span is non-empty on both sides, a delete span is empty on the modified side, and an insert span is empty on the original side. Nothing is assumed about `ratio()`.
- The LLM call, the system prompt and the user prompt text outside the rules block are left out. So are the embedding service and the `get_llm_service` singleton. `json.loads` is a parameter (`Llm.Decoded`).
- Llm.Assess: reply fields are strings, and a key that is present with a JSON null value is read as missing. The list-content branch of the reply (llm.py:74-75) is left out.
- LangGraph `compile` and `invoke`: the graph is modelled by `Workflow.Next` and the driver loop. Review rounds are left out because no node sets `continue_review`.
- Workflow.RunContractReview: only retrieval can raise. The other nodes cannot fail on the typed state.
- `asyncio.create_task`, the HTTP layer, `main.py`, the static front end and the tests are left out. The background run is the separate method `Routes.TaskStore.RunReviewTask`.
- Routes.TaskStore.SubmitHumanReview: the success answer is the message alone; its `task_id` echo is left out.
- Routes.TaskStore.CompareContracts: the uuid is a parameter, and `created_at` (always None) is not stored.
- Routes.TaskStore.RunReviewTask: `init_db()` runs outside the `try` and is left out. Its failures are left out too.
- Nodes.ReviewState: `retrieved_templates` and `review_round` are not stored, because nothing reads them.
- Common.Lower: lower-cases ASCII letters only. The rule texts and change texts are Chinese, which Python's `lower` leaves unchanged.
- Evaluator: similarity is a real number. Scores are whole half-points, which is exact for the source's floats.
- Config: YAML reading and writing are left out. The document is a parameter (`UserDoc`).
- Config.ConfigStore.LoadConfig: a user value that is not a mapping is modelled as raising. `dict.update` also accepts an iterable of key/value pairs, including an empty string or an empty list (`app: ""`, `app: []`), which updates nothing; those inputs are not modelled apart from other non-mappings. Exception texts are not modelled.
- Config.MergeFails: states that the merge raises iff a known section's user value is not a mapping, so an empty string, an empty list or a list of pairs counts as raising here, although `dict.update` accepts them.
- Report: the `.get` defaults of `generate_final_report` for explanation, suggestion and difference are left out. Evaluations always carry those fields.
