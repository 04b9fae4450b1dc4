# A verified model of the interactive Text-to-SQL benchmark system

This project models, in Dafny, the stateful core of an interactive Text-to-SQL benchmark: the service that judges SQL
against per-task PostgreSQL databases, the crash-resumable runner and the merge of its shards, the budget machine of
the agent with its one-way fallback, the four-dimensional Grounding runtime that accepts or rejects an LLM's
proposals, and the string and tree algorithms beside them. Each part is a state machine or an algorithm in the shape
of the source; what is proved are statements over every input, every reply of an LLM, every fault and every run.

`dafny verify dfyconfig.toml` checks the whole project.

## The parts

**Evaluation databases** (`Text`, `DatabaseNames`, `SqlEngine`, `Grader`, `Postgres`, `EvaluationServer`,
`EvaluationRuns`). Databases are a map from name to relational content and statistics; SQL execution is an arbitrary
function; a fault may strike before or after every drop, create and statement on a troubled name, and every judged
submission comes with the faults aimed at its judging. What passing means is stated without the judging code
(`Grader.Accepts`), and `Grader.VerdictExactly` proves that this is what it decides. The digest is any function to 32
hexadecimal digits that tells apart the finitely many identities in play; `DatabaseNames.DigestsExist` builds one.
`Grader` is a stateless judge; `EvaluationServer.Server` is the mutable protocol; `EvaluationRuns.Serve` proves that
over any run of interleaved requests every verdict is the stateless judge's answer under the given faults, computed
from the log so far, and that on a calm cluster every request is answered as the sessions and the environment SQL
prescribe. `EvaluationRuns.ServeAll` starts such a service on any databases. "Every verdict equals the fault-free
judge" is not true of the code: a connection fault while the submission itself is executed is reported as an ordinary
wrong answer. `Grader.FaultBecomesWrongAnswer` is the counterexample; `Grader.RowVerdictExact` says which faults leave
a pass of a row comparison alone: exactly those that are aimed at none of the statements sent.

**Shard runner and merge** (`ShardRunner`, `ShardMerge`). The run directory is a record of files, each replaced
atomically; the process may die between any two writes, and model runs, cleanups and the privacy check may fail, in
every attempt that is not calm; it may be started again with any job. `ShardRunner.Campaign` composes any number of
such attempts and shows that with one sound job every calm one finishes. `ShardMerge` proves when sources are merged
(`ShardMerge.MergesExactly`), that merging is independent of their order and equals concatenation by range, with
summed metrics, and that every directory the runner finished is a source the merge accepts.

**Ledger and fallback** (`Ledger`, `SessionRuns`, `AgentSession`). Amounts are half-coins. `AgentSession.SessionState`
holds the session's keys and updates them as the callbacks do; `Ledger` is its functional reading. The book rules -
budget in bounds, costs balanced, at most one free submission, nothing run after the -1 sentinel - hold together
exactly when every call is made before the sentinel or does not run (`Ledger.BooksBalanceExactly`). Two submissions in
one turn can break them, both being free (`Ledger.TwoSubmitsInOneTurnAreFree`); an unpriced tool after the sentinel
breaks the last rule only. One call per model turn is sufficient, also across the handover to the fallback
(`SessionRuns.SessionKeepsBooks`). Agent and server are in step exactly when no submission is accepted after the task
is done (`SessionRuns.SessionInStepExactly`); with one call per turn that never happens
(`SessionRuns.SessionStaysInStep`), with two it does (`SessionRuns.TwoSubmitsInOneTurnArePaidTwice`).

**Grounding** (`Canonical`, `GroundingModels`, `GroundingForms`, `NormalForm`, `MappingRepair`, `GroundingService`,
`GroundingAdmission`, `GroundingRuns`, `LiteralCarriers`, `PromptView`). The updater is an adversary: its replies are
parameters. Expressions are opaque text with the tables they reference and a well-formedness test; a State's digest is
compared by comparing States, or, where it is stored, assumed to tell the compared States apart. Some properties do
not hold outright and come with their exact condition: knowledge is kept throughout a run exactly when every commit
finds in its Draft what was learnt since the Draft began (`GroundingRuns.KnowledgeIsNeverLost`, counterexample run
`GroundingRuns.StaleCommitLosesKnowledge`), because a commit does not compare the formal State with its base; a
rearrangement of the State is never an update except through a repair, and none is asked for while the State is valid
in its context (`NormalForm.ReorderingIsNoUpdate`); and a longer view may be the shorter text
(`PromptView.LastItemMayShorten`).

**Algorithms** (`RoundStripping`, `RoundTrees`, `EscapeRepair`, `GuardKeys`, `GuardInvariance`, `GuardMeaning`,
`SemanticGuard`). The ROUND rewriting loop is proved against trees of calls; the escape repair against an independent
positional reading and a JSON string decoder; the semantic guard against renaming of table aliases and mirroring of
comparisons, and its facts against the truth of comparisons, the order of sort keys and the value of aggregates on the
rows of a statement. The guard's predicate check returns a single value where its caller unpacks two, and the
tokenizer's error is not the parse error that is caught: `SemanticGuard.RaisesExactly` says when an evaluation raises.
The ROUND rewriting is right on every tree whose ROUND calls are separated from a word behind them;
`RoundTrees.ArgumentRunsIntoWord` is what happens otherwise. The guard's alias map forgets an alias bound to two
tables, but a third binding brings it back (`GuardKeys.ThirdBindingReturns`); `GuardKeys.ConsistentAliases` is what
holds when no alias names two tables. The guard pairs the fields of two formulas greedily, which misses a pairing
where a name stands both with and without a qualifier (`SemanticGuard.GreedyMissesOne`); otherwise it finds one
whenever there is one (`SemanticGuard.FormulaContradictsExactly`).

## Model

| member | source | states |
|---|---|---|
| DatabaseNames.NamesAreUsable | shared/db_utils.py:172-190 | every physical name fits PostgreSQL's limit, the three roles of a task differ, and none is a base template |
| DatabaseNames.NamesAreDisjoint | shared/db_utils.py:172-190 | two identities share no physical database in any role if and only if their digests differ |
| DatabaseNames.DigestsExist | shared/db_utils.py:172-190 | for any list of identities no longer than the number of digests, some digest of 32 hexadecimal digits tells them apart |
| SqlEngine.ExecuteQueries | shared/db_utils.py:131-150 | running statements one by one stops at the first error and computes the execution function, wherever a fault strikes |
| SqlEngine.StrikeIsVisible | shared/db_utils.py:131-150 | a fault aimed at a statement that is sent makes a list that would finish fail with an error; one aimed past the list changes nothing; a list that finishes did what it does without faults |
| SqlEngine.AnalyzePattern | db_environment/server.py:146-158 | the pattern selects exactly the statements that are spaces, the word ANALYZE in any case and no word character behind it |
| SqlEngine.AnalyzeKeepsData | db_environment/server.py:146-158 | ANALYZE statements keep the relational content wherever they stop |
| Grader.RunCustomTests | db_environment/server.py:473-512 | the loop over the custom tests computes the judgement, each test on what the one before left |
| Grader.VerdictExactly | db_environment/server.py:455-514 | a submission passes if and only if there is a reference, the submission runs to its end, and either the rows of its second run and of the reference agree, or there is one run per custom test, each on the content the one before left, and all are fine |
| Grader.MaintenanceExactly | db_environment/server.py:146-158 | the replayed maintenance is exactly the ANALYZE statements of the accepted SQL that are not blank, in order |
| Grader.StartKeepsData | db_environment/server.py:414-428 | replaying maintenance on a phase's start never moves its relational content |
| Grader.UnstruckJudgement | db_environment/server.py:432-514 | with no fault aimed at a statement or a test of the judging, the judgement is the fault-free one |
| Grader.RowVerdictExact | shared/db_utils.py:379-392 | with row comparison a submission passes if and only if it passes without faults and no fault is aimed at a statement of its two runs or of the reference |
| Grader.FaultBecomesWrongAnswer | db_environment/server.py:456-470 | a fault inside the submitted SQL turns a right answer into a wrong one |
| Grader.AcceptedSqlReplays | db_environment/server.py:225-241 | an accepted submission cannot fail when it is replayed for the Phase 1 snapshot |
| PostgresCluster.Postgres.DropTaskDb | shared/db_utils.py:251-266 | a drop touches one database, whatever fails; success means it is gone, and away from trouble a valid name is dropped |
| PostgresCluster.Postgres.DropAndCreateDb | shared/db_utils.py:193-219 | a database is never cloned from itself; success means a clone with statistics forgotten; nothing else is touched; away from trouble it fails only for bad or missing names |
| PostgresCluster.Postgres.ExecuteRequired | db_environment/server.py:161-175 | required environment SQL either applies in full or fails, touching one database |
| PostgresCluster.Postgres.DropDatabases | db_environment/server.py:178-186 | every named database is tried, also after an error: whatever name is valid and not troubled is gone; success means all are gone |
| EvaluationServer.StepsAreIsolated | db_environment/server.py:189-222 | whatever happens to one task's databases, every other task's record and every base template stay in order |
| EvaluationServer.InitialiseTaskDatabases | db_environment/server.py:189-222 | success leaves the task database and its canonical snapshot at the post-preprocess content; away from trouble it succeeds exactly for a known, valid template whose preprocess finishes, and a failure leaves no database of the task |
| EvaluationServer.PrepareAttempt | db_environment/server.py:414-428 | the database an attempt is judged on is exactly the stateless judge's start for the phase, ANALYZE replayed in Phase 2; away from trouble only failing maintenance stops it |
| EvaluationServer.JudgeAttempt | db_environment/server.py:430-514 | the verdict on a prepared database says whether the submission passes, in that sense, under the faults aimed at the judging |
| EvaluationServer.RestoreAfterRejection | db_environment/server.py:545-555 | after a rejection the task database holds the phase's start again |
| EvaluationServer.CreatePhase1Snapshot | db_environment/server.py:225-241 | the frozen snapshot is cleanup(accepted SQL(initial)) and the maintenance statements are those of the accepted SQL |
| EvaluationServer.RunAttempt | db_environment/server.py:399-564 | one submission against a record: reset, judge, and on a Phase 1 pass with a follow-up freeze and advance; away from trouble it is answered whenever the environment SQL finishes |
| EvaluationServer.Server.HandleInit | db_environment/server.py:307-345 | a task is registered exactly when its databases were built, which away from trouble depends on template and preprocess alone; then its database holds the preprocessed content, and others are untouched |
| EvaluationServer.Server.HandleExplore | db_environment/server.py:348-396 | exploration may write anything, but only to the task's own working database |
| EvaluationServer.Server.HandleSubmit | db_environment/server.py:399-577 | the verdict is the stateless judge's under the given faults, only working databases are touched, unless the task finished its database is the phase's start again, and away from trouble a verdict is given |
| EvaluationServer.Server.HandleCleanup | db_environment/server.py:643-662 | cleanup drops every database made for the task that is away from trouble; an unowned base template is never dropped |
| EvaluationRuns.Serve | db_environment/server.py:399-564 | over any run of interleaved requests with arbitrary exploration and faults, every verdict is the stateless judge's answer under the faults aimed at it, with the reward of its phase and try, computed from the log alone; on a calm cluster every kind of answer is determined |
| EvaluationRuns.ServeAll | db_environment/server.py:307-577 | such a service can be started on any databases for any requests, no more of them than there are digests, with a digest that tells their identities apart |
| EvaluationRuns.InStepExactly | system_agent/tools.py:253-270 | the agent's phase is the server's until the task is done and Phase 2 completes only after Phase 1; the reward is 0.7 per Phase 1 plus 0.3 per Phase 2 if and only if no submission was accepted after the task was done |
| ShardRunner.ResultMetrics | orchestrator/official_shard_runner.py:468-508 | the counting loop computes the metric sums of the envelopes |
| ShardRunner.MetricsExactly | orchestrator/official_shard_runner.py:468-508 | the metrics are the number of tasks, the numbers of those that completed each phase, and the sums of rewards, times and tokens |
| ShardRunner.PredictionsBySlot | orchestrator/official_shard_runner.py:557-582 | a prediction carries its envelope's instance and the SQL of each phase in its own slot |
| ShardRunner.PredictionsAreValid | orchestrator/official_shard_runner.py:623-651 | the check of the prediction file cannot fail on what the runner has written |
| ShardRunner.WriteState | orchestrator/official_shard_runner.py:654-775 | the derived files are rewritten in order; a crash after any of them leaves a consistent directory |
| ShardRunner.PrepareRun | orchestrator/official_shard_runner.py:778-809 | an attempt goes on if and only if its range and input are sound, an existing manifest lists exactly its records and an existing checkpoint pins its digests; a refused one changes nothing |
| ShardRunner.ReadEnvelopes | orchestrator/official_shard_runner.py:372-394 | the envelopes on disk are always readable and exactly those committed |
| ShardRunner.RecoverPendingCleanup | orchestrator/official_shard_runner.py:812-832 | at most the last envelope lacks its cleanup, and recovering it alters nothing else |
| ShardRunner.CommitOutcome | orchestrator/official_shard_runner.py:956-973 | an outcome is stored first without and then with its cleanup; a crash between the two is consistent |
| ShardRunner.Run | orchestrator/official_shard_runner.py:835-991 | one attempt from any consistent directory ends consistent, never reruns or alters a committed result and keeps the pinned digests; when the job fits and nothing dies or fails it finishes, and a finished one lists exactly the job's range |
| ShardRunner.Campaign | orchestrator/official_shard_runner.py:835-991 | from an empty directory, after any number of attempts and crashes: envelopes are a contiguous prefix, the files a chain of prefixes, no result rerun, none older than the pinned digests; once an attempt finished the directory stays complete, and with one sound job every calm attempt finishes |
| ShardMerge.EntriesOfSource | scripts/merge_official_shards.py:304-319 | the dictionary look-up gives every record its own prediction |
| ShardMerge.MergeShards | scripts/merge_official_shards.py:277-345 | the accumulating, sorting and checking loops compute the merge function, refusals included |
| ShardMerge.MergesExactly | scripts/merge_official_shards.py:285-327 | sources are merged if and only if there are any, each says it is complete and lists its records in order with a prediction for each, all have one input and one configuration, their records fill the range without repeating an index or an instance, and every record has its envelope with a verified cleanup |
| ShardMerge.MergedAtTheirIndex | scripts/merge_official_shards.py:304-327 | in the merged result every record stands at the place of its index beside its own prediction, and the metrics are those of the envelopes in that order |
| ShardMerge.MergeIsOrderFree | scripts/merge_official_shards.py:277-345 | merging the same sources in any order gives the same result or the same refusal |
| ShardMerge.MergeIsConcatenation | scripts/merge_official_shards.py:304-345 | complete shards that partition a range merge, in any order, into the concatenation by range with summed metrics |
| ShardMerge.FinishedRunIsComplete | scripts/merge_official_shards.py:96-130 | every directory the runner finished is a complete source |
| Ledger.BudgetNeverIncreasesInRun | system_agent/callbacks.py:141-169 | in any run the budget never increases and is -1 or within 0..initial |
| Ledger.BooksBalanceExactly | system_agent/callbacks.py:79-169 | spent plus remaining equals the initial budget, at most one submission is free and nothing runs after the sentinel, if and only if every admitted turn is orderly |
| Ledger.TwoSubmitsInOneTurnAreFree | system_agent/callbacks.py:141-169 | two submissions in one turn on an empty budget both run for free |
| Ledger.PriceList | system_agent/callbacks.py:27-37 | what each tool costs |
| SessionRuns.SessionKeepsBooks | valibra_agent/fallback/ainteract_fallback.py:235-324 | with one call per turn, primary run and inherited fallback together spend at most the initial budget plus one submission, with at most one free submission |
| SessionRuns.SessionTurnsAreCapped | system_agent/callbacks.py:79-109 | primary and fallback together have at most sixty admitted model turns |
| SessionRuns.SessionHandsOverExactly | valibra_agent/fallback/ainteract_fallback.py:72-90 | a session is handed over if and only if the fallback is enabled, the task is open and three coins are left; then the fallback runs on everything inherited, otherwise the session ends as its primary run |
| SessionRuns.HandedOverCanPay | valibra_agent/fallback/ainteract_fallback.py:88-90 | after a handover a submission in the first turn is charged in full and is not free, whatever follows |
| SessionRuns.FallbackIsOneWay | valibra_agent/fallback/ainteract_fallback.py:72-90 | a session that fell back is never eligible again |
| SessionRuns.FallbackNeverAsksTwice | valibra_agent/fallback/ainteract_fallback.py:305-324 | the fallback never delivers a question twice, nor one already answered, even when a turn asks several |
| SessionRuns.SessionStopsWhenDone | system_agent/callbacks.py:92-98 | with one call per turn, across the handover, no submission runs once the task is done |
| SessionRuns.SessionInStepExactly | system_agent/tools.py:253-270 | whatever calls its turns make, a session answered by the service ends in step with it if and only if no submission was accepted after the task was done |
| SessionRuns.SessionStaysInStep | system_agent/callbacks.py:92-98 | with one call per turn a session ends in step with the service that answered it |
| SessionRuns.TwoSubmitsInOneTurnArePaidTwice | db_environment/server.py:516-543 | one admitted turn with two submissions of a task without follow-up: the service accepts both, as the stateless judge says, and the agent books the reward twice |
| AgentSession.SessionState.BeforeModel | system_agent/callbacks.py:79-109 | the turn gate counts the turn and admits it exactly below the cap, with the task open and no sentinel |
| AgentSession.SessionState.BeforeTool | system_agent/callbacks.py:141-169 | the charge before a tool, with the free submission and the sentinel |
| AgentSession.SessionState.FallbackBeforeTool | valibra_agent/fallback/ainteract_fallback.py:305-324 | a question already seen is blocked before any charge |
| AgentSession.SessionState.Execute | system_agent/tools.py:253-270 | the submit tool's update of reward, phase and completion flags |
| AgentSession.SessionState.Finish | valibra_agent/fallback/ainteract_fallback.py:266-302 | the closing status of a fallback |
| AgentSession.RunSession | valibra_agent/fallback/ainteract_fallback.py:235-302 | the primary session and at most one fallback on a copy of its state refine the session function |
| Canonical.SortedIsUnique | valibra_agent/sql_grounding/models.py:293-296 | a strictly sorted sequence is determined by its elements |
| Canonical.TextOrder | valibra_agent/sql_grounding/models.py:293-296 | lexicographic order on texts is a strict total order |
| GroundingModels.NothingChangedExactly | valibra_agent/sql_grounding/models.py:1698-1735 | no dimension is reported as changed if and only if the States are equal |
| GroundingModels.ParsedMappingsAreCanonical | valibra_agent/sql_grounding/models.py:396-407 | constructing a mapping list yields a strictly sorted list of exactly the parsed items |
| GroundingModels.MappingsParseAlike | valibra_agent/sql_grounding/models.py:299-407 | mappings in any order, each with its targets in any order, construct to the identical list or fail alike |
| GroundingForms.TextsAreConstructed | valibra_agent/sql_grounding/models.py:293-296 | a list of texts is constructed if and only if it is short enough, every text fits and none is repeated; then it is put in order |
| GroundingForms.MappingsAreConstructed | valibra_agent/sql_grounding/models.py:299-407 | a list of mappings is constructed if and only if there are at most 128, each with one to sixteen distinct fields, and no phrase is repeated; then it is in order of the phrases |
| GroundingForms.OmissionsAreConstructed | valibra_agent/sql_grounding/models.py:559-608 | a list of omissions is constructed if and only if there are at most 128 and no phrase is repeated; then it is in order of the phrases |
| GroundingForms.FactsAreConstructed | valibra_agent/sql_grounding/models.py:409-420 | a list of facts is constructed if and only if there are at most 64, all well formed and none repeated; then it is put in order |
| GroundingForms.FactLessExactly | valibra_agent/sql_grounding/models.py:409-420 | facts are ordered by the spelling of their kind, then by their content, character by character |
| GroundingForms.ValidExactly | valibra_agent/sql_grounding/models.py:1584-1630 | a State is valid if and only if its references are in order among themselves, the evidence knows everything it names, and every phrase stands in the query or the follow-up |
| NormalForm.RearrangementIsIdentity | valibra_agent/sql_grounding/service.py:929-1002 | a proposal of any kind that only rearranges a normal State is materialized as that very State |
| NormalForm.ReorderingIsNoUpdate | valibra_agent/sql_grounding/service.py:584-926 | answering any call with a rearrangement of the State never changes State or revision unless a repair is asked for, and none is while the State is valid in its context |
| NormalForm.DraftReorderingIsNoUpdate | valibra_agent/sql_grounding/service.py:122-320 | the same answer never changes a Draft |
| NormalForm.RunsStayNormal | valibra_agent/sql_grounding/models.py:293-420 | over any run of constructed replies, direct calls, Drafts, commits and control events included, formal State and Draft are what their own construction yields |
| NormalForm.ReorderingAfterAnyRun | valibra_agent/sql_grounding/service.py:584-926 | after any such run, a rearrangement of the State reached is no update of it |
| NormalForm.ConstructedIsNormal | valibra_agent/sql_grounding/models.py:535-843 | construction is idempotent: the parts of a constructed form are what their own construction yields |
| NormalForm.ConstructedIsWellFormed | valibra_agent/sql_grounding/models.py:535-843 | a constructed form is sorted, free of repetition, and keeps mapped and unresolved phrases apart |
| MappingRepair.MappingFormRepairScope | valibra_agent/sql_grounding/service.py:381-452 | the loop over a rejected form computes the repair scope and gives up where the source does |
| MappingRepair.MappingStateRepairScope | valibra_agent/sql_grounding/service.py:455-500 | the loop that validates every mapping on its own computes the repair scope |
| MappingRepair.ValidationDecomposes | valibra_agent/sql_grounding/models.py:1606-1622 | with the rest of the State valid, the State is valid exactly when every mapping passes on its own |
| MappingRepair.FormScopeBlamesExactly | valibra_agent/sql_grounding/service.py:411-452 | a form's scope blames exactly the phrases whose targets do not parse |
| MappingRepair.StateScopeBlamesExactly | valibra_agent/sql_grounding/service.py:479-500 | a State's scope exists only for an invalid State and blames exactly the phrases whose mapping fails |
| MappingRepair.ValidateMappingRepairScope | valibra_agent/sql_grounding/service.py:513-568 | the dictionary-based validator decides the repair rule |
| MappingRepair.RepairConserves | valibra_agent/sql_grounding/service.py:513-568 | an accepted repair keeps valid mappings and omissions, conserves the set of mapped and unresolved phrases, and keeps the two apart |
| GroundingService.IndexRules | valibra_agent/sql_grounding/service.py:1138-1185 | the loop over the Official listing refuses a malformed or repeated entry and otherwise indexes it |
| GroundingService.SelectionIsExact | valibra_agent/sql_grounding/service.py:1138-1185 | resolving selected ids yields exactly the Official definitions listed under them |
| GroundingService.KnowledgeCallContent | valibra_agent/sql_grounding/service.py:1027-1132 | an accepted knowledge call writes exactly the selected definitions, in Phase 2 beside what was known, and no mapping for a phrase left unresolved |
| GroundingService.CallIsAtomic | valibra_agent/sql_grounding/service.py:584-926 | a call not accepted leaves the Runtime untouched; an accepted one makes one legal step to a State valid in its context; every record meets the accounting rules |
| GroundingAdmission.AsksExactly | valibra_agent/sql_grounding/service.py:1192-1370 | the updater is asked if and only if the input concerns this Runtime, query and observation and the observation is the evidence this kind of call needs in this stage |
| GroundingAdmission.StructureOutcome | valibra_agent/sql_grounding/service.py:929-1002 | a structure reply is taken, with exactly its tables and relations and at once, if and only if the State is valid and the initial stage is complete only where the call starts over |
| GroundingAdmission.MappingOutcome | valibra_agent/sql_grounding/service.py:929-1002 | a mapping reply whose State is valid and whose omissions are verbatim is taken at once, with or without repair allowed |
| GroundingAdmission.KnowledgeOutcome | valibra_agent/sql_grounding/service.py:1027-1185 | a knowledge reply whose ids are listed and whose State is valid is taken: the definitions of the ids, in Phase 2 beside what is known, sorted |
| GroundingAdmission.CheckConfirms | valibra_agent/sql_grounding/service.py:1487-1534 | a check that leaves a valid State alone is taken on any evidence |
| GroundingAdmission.ColumnMeaningRepairs | valibra_agent/sql_grounding/service.py:1536-1551 | after a column's meaning a check may replace the targets of one mapped phrase |
| GroundingAdmission.DefinitionAdds | valibra_agent/sql_grounding/service.py:1552-1578 | after a knowledge definition a check may add that exact definition |
| GroundingAdmission.CheckChanges | valibra_agent/sql_grounding/service.py:1487-1583 | a check that is taken changes nothing more than its latest evidence licenses |
| GroundingAdmission.RepairOutcome | valibra_agent/sql_grounding/service.py:694-766 | a repair that keeps to its scope and whose State is valid is taken by the second request, and otherwise refused |
| GroundingAdmission.DraftAsksExactly | valibra_agent/sql_grounding/service.py:122-172 | a Draft step asks the updater unless it is the final gate or is made for another query or State |
| GroundingAdmission.DraftStructureOutcome | valibra_agent/sql_grounding/service.py:174-260 | an open Draft takes any structure, valid beside the rest of the Draft or not |
| GroundingAdmission.DraftedStructureIsAdopted | valibra_agent/sql_grounding/service.py:323-378 | a structure given to a new Draft is in the Draft and not yet formal; the commit makes it formal exactly on a final check, if it is then valid, and complete before the first attempt |
| GroundingAdmission.DraftMappingOutcome | valibra_agent/sql_grounding/service.py:174-260 | an open Draft takes any mapping whose omissions are verbatim, and no other |
| GroundingAdmission.DraftKnowledgeOutcome | valibra_agent/sql_grounding/service.py:174-260 | an open Draft takes a selection of listed definitions that leaves it consistent across its dimensions |
| GroundingService.AtMostOneRepair | valibra_agent/sql_grounding/service.py:637-766 | the updater is asked at most twice, and twice exactly when a mapping was rejected repairably |
| GroundingService.AcceptedRepairConserves | valibra_agent/sql_grounding/service.py:637-766 | through the whole service an accepted repair conserves the phrases of the rejected reply, mapped or unresolved; it blames exactly the mappings of it that fail and keeps every other one and every omission |
| GroundingRuns.CommitsExactly | valibra_agent/sql_grounding/service.py:323-378 | when a Draft commits, and that the revision then grows by one exactly when the content differs, however many revisions the Draft had |
| GroundingRuns.DraftStepIsAtomic | valibra_agent/sql_grounding/service.py:122-320 | a Draft step is recorded by the same rules and a rejected one leaves the Draft alone |
| GroundingRuns.DraftCycleCommitsOnce | valibra_agent/sql_grounding/service.py:122-378 | a Draft begun at the formal Runtime, taken through any steps and committed, raises the formal revision by one exactly when the final content differs from the base |
| GroundingRuns.StageTable | valibra_agent/sql_grounding/control.py:97-148 | where each control event leads, from which stages, and that it touches nothing but the stage |
| GroundingRuns.OrdinaryCourse | valibra_agent/sql_grounding/control.py:97-148 | grounded, submitted, followed up and done: the State is open again in Phase 2 and closed otherwise |
| GroundingRuns.StepIsLegal | valibra_agent/sql_grounding/control.py:97-148 | no event lowers the stage, changes a frozen State, regresses a dimension or miscounts the revision |
| GroundingRuns.RunsAreLegal | valibra_agent/sql_grounding/models.py:1698-1766 | over any run the revision counts exactly the State changes, no dimension returns to null, the stage never goes back, and without a forced exit every attempt or Phase 2 State is complete |
| GroundingRuns.KnowledgeGrows | valibra_agent/sql_grounding/service.py:1487-1583 | a Phase 2 step loses no knowledge and a check adds at most the one exact Official definition |
| GroundingRuns.CommitKeepsFactsExactly | valibra_agent/sql_grounding/service.py:323-378 | a commit keeps all knowledge if and only if what the formal State learnt since the Draft began is in the Draft |
| GroundingRuns.StaleCommitLosesKnowledge | valibra_agent/sql_grounding/service.py:323-378 | a run of three events, Draft begun, definition learnt, Draft committed, loses the definition |
| GroundingRuns.KnowledgeIsNeverLost | valibra_agent/sql_grounding/service.py:1027-1064 | over whole Phase 2 runs, direct or through Drafts, every step keeps all knowledge if and only if every commit finds in its Draft what was learnt since the Draft began |
| LiteralCarriers.CarrierCommitsWithItsDraft | valibra_agent/sql_grounding/resolved_literal_carrier_materialization.py:337-437 | a carrier staged on the final Draft State and begun at the formal base commits with the Draft's commit and is then the active one |
| LiteralCarriers.CarrierFollowsItsDraftCycle | valibra_agent/sql_grounding/resolved_literal_carrier_materialization.py:337-483 | through a whole Draft cycle: a carrier materialized on the final Draft State always commits with the Draft and is exposed exactly until the formal State changes again |
| LiteralCarriers.CarriedExactly | valibra_agent/sql_grounding/resolved_literal_carrier_materialization.py:187-334 | when a carrier is granted, when none is asked for, and what each field of a granted one is |
| LiteralCarriers.MaterializedCarrierIsStaged | valibra_agent/sql_grounding/resolved_literal_carrier_materialization.py:187-334 | a materialized carrier is bound to its Draft's revision, State and exact mapping, and that State is consistent across its dimensions |
| LiteralCarriers.ActivatesOnlyWithItsState | valibra_agent/sql_grounding/resolved_literal_carrier_materialization.py:362-437 | activation happens only beside the commit of the very State it was staged on, from the very base |
| LiteralCarriers.ExposedExactlyUntilChanged | valibra_agent/sql_grounding/resolved_literal_carrier_materialization.py:461-483 | over any later run a committed carrier is exposed exactly until the formal State changes, even if the content returns; never for another task or phase |
| PromptView.RenderGroundingView | valibra_agent/sql_grounding/prompt_view.py:52-94 | the downward scan returns the longest prefix within the item cap that fits both limits; included plus omitted is the total |
| PromptView.ClarificationsComeFirst | valibra_agent/sql_grounding/prompt_view.py:69-76 | no State item is shown while an answered clarification is omitted |
| PromptView.ClarificationsAreLines | valibra_agent/sql_grounding/prompt_view.py:147-162 | every included clarification is a line of the view, in order |
| PromptView.ViewLayout | valibra_agent/sql_grounding/prompt_view.py:147-162 | header, clarifications, the four titled sections in order, and the number of omitted items |
| PromptView.LinesInOrder | valibra_agent/sql_grounding/prompt_view.py:147-162 | the lines of a part are the bulleted values of its items, in order |
| PromptView.LastItemMayShorten | valibra_agent/sql_grounding/prompt_view.py:147-162 | showing the last item gives the shorter text exactly when its value is under twelve characters |
| RoundStripping.FindMatchingParen | shared/db_utils.py:342-349 | the scanner finds the parenthesis that closes the given one, or reports none |
| RoundStripping.FindFirstArgEnd | shared/db_utils.py:351-361 | the scanner finds the end of the first argument |
| RoundStripping.ArgumentEndsBeforeClose | shared/db_utils.py:351-361 | the first argument never reaches past the matching parenthesis |
| RoundStripping.RewriteShortens | shared/db_utils.py:362-372 | every rewrite makes the text shorter, so the loop ends on every text |
| RoundStripping.RemoveRoundFunctions | shared/db_utils.py:362-372 | the loop on positions computes the repeated leftmost rewrite |
| RoundStripping.BalancedPass | shared/db_utils.py:362-372 | a rewrite keeps parentheses balanced |
| RoundTrees.RemoveRoundErases | shared/db_utils.py:341-372 | on the print of any call tree the loop yields, up to spaces, the print with every ROUND call replaced by its first argument |
| RoundTrees.ArgumentRunsIntoWord | shared/db_utils.py:341-372 | a ROUND call directly followed by a word: `ROUND(RO)UND(x)` becomes `x` though its tree stands for `ROUND(x)` |
| EscapeRepair.PreserveLatexEscapes | db_environment/server.py:58-91 | the index-driven loop computes the repair |
| EscapeRepair.RepairInsertsExactly | db_environment/server.py:58-91 | one backslash is inserted at the end of every odd run before a known command, and nothing else changes |
| EscapeRepair.UnchangedExactly | db_environment/server.py:58-91 | a text is unchanged if and only if it has no odd run before a known command |
| EscapeRepair.RepairIsIdempotent | db_environment/server.py:58-91 | repairing twice is repairing once |
| EscapeRepair.CommandsSurviveDecoding | db_environment/server.py:58-91 | under section 7 of RFC 8259 every run before a known command decodes to literal backslashes and the command |
| EscapeRepair.UnrepairedTextIsLost | db_environment/server.py:37-46 | without the repair a single-backslash command decodes to a tab and the rest of the word |
| GuardKeys.ReadAliases | valibra_agent/sql_grounding/semantic_guard_v0.py:88-103 | the loop over table references computes the alias map |
| GuardKeys.ConsistentAliases | valibra_agent/sql_grounding/semantic_guard_v0.py:88-103 | when no alias names two tables, the map holds exactly the bindings |
| GuardKeys.ThirdBindingReturns | valibra_agent/sql_grounding/semantic_guard_v0.py:88-103 | an alias dropped for a conflict is brought back by a third binding |
| GuardKeys.NegationHidesComparisons | valibra_agent/sql_grounding/semantic_guard_v0.py:285-312 | under a negation a comparison states a fact if and only if it stands in a subquery or a WHERE, HAVING or JOIN of its own below the negation |
| GuardMeaning.SameName | valibra_agent/sql_grounding/semantic_guard_v0.py:62-79 | two identifiers are the same name if both are quoted and spelt alike, or neither is and they differ in case at most |
| GuardMeaning.ContractName | valibra_agent/sql_grounding/semantic_guard_v0.py:62-79 | a contract's unquoted name is matched without quotes in any case where it is in lower case, and only between quotes as it is spelt where it is not |
| GuardMeaning.AliasIsFollowed | valibra_agent/sql_grounding/semantic_guard_v0.py:88-171 | a column behind an alias is the field of the aliased table, whatever the case of an unquoted alias |
| GuardMeaning.KeysExistExactly | valibra_agent/sql_grounding/semantic_guard_v0.py:140-203 | exactly the names, finite numbers and operations on them have keys, whatever the aliases |
| GuardMeaning.KeyMeans | valibra_agent/sql_grounding/semantic_guard_v0.py:140-203 | an expression's key has the value of the expression on every row that gives columns the values of the fields they name |
| GuardMeaning.ComparisonMeans | valibra_agent/sql_grounding/semantic_guard_v0.py:294-312 | the fact of a comparison is true of exactly the rows the comparison is true of, whichever side the literal is on |
| GuardMeaning.OrderingMeans | valibra_agent/sql_grounding/semantic_guard_v0.py:598-628 | the fact of a sort key puts the same rows before each other as the sort key |
| GuardMeaning.AggregateMeans | valibra_agent/sql_grounding/semantic_guard_v0.py:533-565 | the fact of an aggregate names the aggregate the node computes over its target, a median however it is written |
| GuardMeaning.OperandIsRead | valibra_agent/sql_grounding/semantic_guard_v0.py:533-628 | an aggregate or an ordering states a fact exactly when its operand can be read, an ordered-set aggregate only as the median |
| GuardMeaning.FactsExactly | valibra_agent/sql_grounding/semantic_guard_v0.py:285-312 | the facts of a statement are exactly those of its nodes, each under a negation if and only if looking up from the node finds one before a subquery, WHERE, HAVING or JOIN |
| GuardMeaning.ComparedExactly | valibra_agent/sql_grounding/semantic_guard_v0.py:294-312 | the comparisons a statement is read as making are exactly those it makes outside negations |
| GuardMeaning.ComputedExactly | valibra_agent/sql_grounding/semantic_guard_v0.py:440-497 | the formulas a statement is read as computing are those some node computes, where what stands between the operators counts as itself if it can be read and as the one field it mentions otherwise |
| GuardInvariance.ExpressionKeyKept | valibra_agent/sql_grounding/semantic_guard_v0.py:140-203 | an expression's key does not depend on the alias names |
| GuardInvariance.MirroredComparison | valibra_agent/sql_grounding/semantic_guard_v0.py:294-312 | a comparison says the same whichever side the literal is on |
| GuardInvariance.FactsKept | valibra_agent/sql_grounding/semantic_guard_v0.py:294-312 | renaming all aliases to distinct fresh names while mirroring any comparisons changes no fact and no source table |
| SemanticGuard.CheckBands | valibra_agent/sql_grounding/semantic_guard_v0.py:373-417 | the loop over the bands conflicts at the first bound that is absent while another of its direction is there, unless an unreadable band comes first |
| SemanticGuard.TakesAll | valibra_agent/sql_grounding/semantic_guard_v0.py:503-521 | the loop that takes each expected field out of the remaining ones |
| SemanticGuard.FormulaContradictionMeans | valibra_agent/sql_grounding/semantic_guard_v0.py:479-530 | a formula contradiction implies no equivalent subexpression anywhere, equal literals and a one-to-one correspondence of fields |
| SemanticGuard.FormulaContradictsExactly | valibra_agent/sql_grounding/semantic_guard_v0.py:479-530 | where no computed expression mixes a name with and without a qualifier, a formula is contradicted if and only if no equivalent expression is computed anywhere but one with the same literals and, one to one, the same fields is |
| SemanticGuard.GreedyMissesOne | valibra_agent/sql_grounding/semantic_guard_v0.py:503-521 | of a name that stands with and without a qualifier the first match may be the one a later field needs, so a correspondence is missed |
| SemanticGuard.Evaluate | valibra_agent/sql_grounding/semantic_guard_v0.py:631-690 | the loop over the invariants stops at the first conflict or exception and otherwise reports whether anything was comparable |
| SemanticGuard.TermMeans | valibra_agent/sql_grounding/semantic_guard_v0.py:206-232 | a contract expression's key has the value of the expression |
| SemanticGuard.TermKeysExistExactly | valibra_agent/sql_grounding/semantic_guard_v0.py:206-232 | a contract expression has a key exactly when all its texts can be read and its literals are finite numbers |
| SemanticGuard.BreaksExactly | valibra_agent/sql_grounding/semantic_guard_v0.py:206-232 | reading a contract expression raises if and only if some part of it has a text that breaks the tokenizer or an operator that cannot be hashed |
| SemanticGuard.EquivalentMeans | valibra_agent/sql_grounding/semantic_guard_v0.py:248-282 | equivalent keys have the same value where unqualified fields are a source's and both JSON operators agree |
| SemanticGuard.SameDirectionMeans | valibra_agent/sql_grounding/semantic_guard_v0.py:391-406 | a bound has the direction of a strict one if and only if it follows from it and never holds the other way round |
| SemanticGuard.ConflictsAreExplicit | valibra_agent/sql_grounding/semantic_guard_v0.py:334-628 | each kind of invariant conflicts if and only if the statement speaks about its very target and nowhere says what it demands, and raises exactly where its payload cannot be read |
| SemanticGuard.AgreementsAreExplicit | valibra_agent/sql_grounding/semantic_guard_v0.py:334-628 | each kind of invariant agrees if and only if the statement says what it demands |
| SemanticGuard.PredicateVerdict | valibra_agent/sql_grounding/semantic_guard_v0.py:334-371 | against one readable predicate a candidate agrees if and only if it makes the demanded comparison outside negations, contradicts if and only if it compares the target otherwise only, and is undecided if it does not compare it |
| SemanticGuard.ContradictionIsExplicit | valibra_agent/sql_grounding/semantic_guard_v0.py:631-690 | a reported contradiction is explicit and is the first one |
| SemanticGuard.OutcomeIsInvariant | valibra_agent/sql_grounding/semantic_guard_v0.py:631-690 | status and conflicting invariant do not change under alias renaming and comparison mirroring |
| SemanticGuard.RaisesExactly | valibra_agent/sql_grounding/semantic_guard_v0.py:631-690 | an evaluation raises if and only if the candidate breaks the tokenizer, or an invariant that breaks it, has an unhashable operator or is a predicate without a readable payload comes before any explicit conflict |

## Left out

- HTTP endpoints, the agent framework, the LLM providers, PostgreSQL and subprocesses: parameters, arbitrary results or faults stand for them.
- Two submissions for the same task at once: the protocol is sequential per task; requests of different tasks interleave freely.
- The three module dictionaries of the database service are one record per task; their keys always agree in the source.
- `EvaluationServer.Server.HandleExplore`: the first-keyword filter is not modelled; any write is allowed, which is more than the source allows.
- `EvaluationServer.JudgeAttempt`: custom test code is an arbitrary function of database and SQL, and a fault in it an arbitrary end; the text of driver errors is taken as non-empty.
- `EvaluationServer.InitialiseTaskDatabases`: on a troubled name a failed initialisation may leave databases behind, as the source suppresses the errors of its final drop.
- SHA-256 itself: the digest is any function to 32 hexadecimal digits that tells apart the identities in play.
- Physical names are bounded in characters; the source bounds bytes, which is the same for its ASCII names.
- Floating-point rewards, budgets and averages: rewards are tenths, coins are half-coins, and averages are left out beside their sums.
- The checkpoint's flag that all completed cleanups are verified: it is always true where the source writes it.
- HTML reports, prompts, presets, credential scans, timestamps and the text of messages.
- `AgentSession.RunSession`: the answered questions handed to the fallback are a parameter, not read back out of clarification records and dialogue; the fallback message is not modelled.
- Trajectory records keep the tool and the budget found before it; the source's own field for that budget is stale for unpriced tools.
- `SemanticGuard.RaisesExactly`: decimal normalisation never raises in the model; the source's raises for a number whose exponent exceeds the decimal context's limit.
- Parsing of SQL: Grounding expressions are opaque text with a well-formedness test and referenced tables; the guard starts from a small syntax tree.
- `GroundingService.CallIsAtomic`: whole-State responses without a staged input are not modelled; they serve archived fixtures only.
- Character limits of texts are part of the opaque well-formedness tests; counts of tables, relations, mappings, targets and facts are modelled.
- Error texts of a rejection and the updater's own retries: the updater answers, refuses or crashes.
- `LiteralCarriers.MaterializedCarrierIsStaged`: the words of the phrase, the enum evidence and the lexical match of a literal are one opaque test, and the comparison target an opaque projection.
- `PromptView.RenderGroundingView`: items are given rendered and in order; JSON rendering and the token count are opaque.
- `RoundTrees.RemoveRoundErases`: the printed trees hold no quoted text and no other name or word ending in ROUND, for which the source's scan has no special case, and no ROUND call directly followed by a word or another call, for which the claim can fail.
- `EscapeRepair.CommandsSurviveDecoding`: stated on the body of a string; the JSON around it holds no backslash.
- `SemanticGuard.FormulaContradictionMeans`: the source walks keys as nested tuples and mistakes a JSON path or a name spelt `field` or `number` for a key of that kind; the model's keys are typed and do not.
- `GuardKeys.ConsistentAliases`: for an alias that names two tables the outcome depends on the order of all its bindings; beyond the counterexample it is not characterised.
- The order in which the guard walks a statement decides only which of several conflicting expressions it prints; facts are sets here, and the printed texts are left out.
- The regular expressions that build answer contracts, and the export of evaluation results.
