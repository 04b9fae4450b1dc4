/** The evaluation database service (db_environment/server.py). */
module EvaluationServer {
  import opened Text
  import opened Options
  import opened SqlEngine
  import opened Grader
  import opened DatabaseNames
  import opened PostgresCluster

  datatype Attempts = Attempts(first: nat, second: nat)
  {
    function Of(phase: int): nat
    {
      if phase == 1 then first else second
    }

    function Counting(phase: int): Attempts
    {
      if phase == 1 then this.(first := first + 1) else this.(second := second + 1)
    }
  }

  /** The in-memory record of an initialised task: the task dictionary entry with its submission counters and the
      SQL that last passed Phase 1. */
  datatype TaskData = TaskData(
    spec: TaskSpec,
    names: Names,
    taskDb: string,
    initialSnapshot: string,
    initialOwned: bool,
    phase: int,
    snapshot: Option<string>,
    maintenance: seq<string>,
    attempts: Attempts,
    successfulPhase1Sql: string)
  {
    /** The databases a submission may write to: live snapshots and templates are never among them. */
    function Working(): set<string>
    {
      if phase == 1 then {taskDb, names.phase1} else {taskDb}
    }

    /** The databases made for the task: a base template that serves as its reset point is not among them. */
    function Created(): set<string>
    {
      {names.task, names.phase1} + if initialOwned then {names.initial} else {}
    }

    /** The SQL the current phase builds on. */
    function Accepted(): string
    {
      if phase == 1 then "" else successfulPhase1Sql
    }
  }

  datatype Request =
    | InitTask(task: string, spec: TaskSpec)
    | Explore(task: string, sql: string)
    | Submit(task: string, sql: string)
    | CleanupTask(task: string)

  /** Rewards are in tenths. */
  datatype Response =
    | Initialised
    | Explored
    | Verdict(passed: bool, reward: nat, phaseCompleted: int, hasFollowUp: bool)
    | Cleaned
    | NotInitialised
    | InfrastructureFailure

  function Reward(mode: Mode, phase: int, firstTry: bool): nat
  {
    if mode.AInteract? || firstTry then (if phase == 1 then 7 else 3)
    else (if phase == 1 then 5 else 2)
  }

  /** What does not change while the service runs: the engine, the digest, the identities it may be asked to
      initialise, and the base templates' content. */
  datatype World = World(engine: Engine, digest: Digest, ids: set<Identity>, templates: map<string, Relations>)
  {
    ghost predicate Ok()
    {
      EngineOk(engine) && DigestOk(digest, ids)
    }

    ghost predicate Knows(spec: TaskSpec)
    {
      TemplateName(spec.base) in templates
    }

    ghost function StartFor(spec: TaskSpec, phase: int, accepted: string): Db
      requires Knows(spec)
    {
      Start(engine, spec, templates[TemplateName(spec.base)], phase, accepted)
    }

    ghost function StartDataFor(spec: TaskSpec, phase: int, accepted: string): Relations
      requires Knows(spec)
    {
      StartData(engine, spec, templates[TemplateName(spec.base)], phase, accepted)
    }

    /** The stateless judge's answer for a submission in a phase of a task, under the faults aimed at the judging. */
    ghost predicate GradeFor(spec: TaskSpec, phase: int, accepted: string, sql: string, faults: JudgeFaults)
      requires Knows(spec)
    {
      GradeUnder(engine, spec, templates[TemplateName(spec.base)], phase, accepted, sql, faults)
    }

    /** The environment SQL of an attempt finishes: the replayed maintenance, and the cleanup after an accepted
        submission that has a follow-up. */
    ghost predicate EnvironmentFinishes(spec: TaskSpec, phase: int, accepted: string, sql: string)
      requires Knows(spec)
    {
      if phase == 1 then
        spec.HasFollowUp() ==>
          var solved := Execute(engine, Db(StartDataFor(spec, 1, ""), {}), engine.split(sql), Calm).db;
          Execute(engine, solved, spec.cleanup, Calm).outcome.Finished?
      else
        var clone := Db(StartDataFor(spec, phase, accepted), {});
        Execute(engine, clone, Maintenance(engine.split(accepted)), Calm).outcome.Finished?
    }
  }

  /** A task record agrees with the physical databases it points at. */
  ghost predicate TaskOk(w: World, dbs: Cluster, task: string, td: TaskData)
  {
    && w.Knows(td.spec) && (td.spec.base, task) in w.ids
    && td.names == TaskDatabaseNames(w.digest, td.spec.base, task)
    && td.taskDb == td.names.task
    && td.initialSnapshot == (if td.initialOwned then td.names.initial else TemplateName(td.spec.base))
    && td.initialSnapshot in dbs && ValidIdentifier(td.initialSnapshot)
    && dbs[td.initialSnapshot].data == w.StartDataFor(td.spec, 1, "")
    && td.phase in {1, 2}
    && (td.phase == 1 ==> td.snapshot.None?)
    && (td.phase == 2 ==>
          && td.spec.HasFollowUp()
          && td.snapshot == Some(td.names.phase1)
          && td.names.phase1 in dbs
          && dbs[td.names.phase1].data == w.StartDataFor(td.spec, 2, td.successfulPhase1Sql)
          && td.maintenance == Maintenance(w.engine.split(td.successfulPhase1Sql)))
  }

  /** The base templates hold their original content and no database takes a template's name. */
  ghost predicate TemplatesIntact(w: World, dbs: Cluster)
  {
    forall n :: IsTemplateName(n) ==> (n in dbs <==> n in w.templates) && (n in dbs ==> dbs[n].data == w.templates[n])
  }

  ghost predicate AllOk(w: World, dbs: Cluster, tasks: map<string, TaskData>)
  {
    && TemplatesIntact(w, dbs)
    && forall t :: t in tasks ==> TaskOk(w, dbs, t, tasks[t])
  }

  /** No step of one task disturbs another: whatever happens to the databases one task owns, the templates
      and every other task's record stay in order. */
  lemma StepsAreIsolated(w: World, before: Cluster, after: Cluster, base: string, task: string,
                         tasks: map<string, TaskData>, tasks': map<string, TaskData>)
    requires w.Ok() && AllOk(w, before, tasks) && (base, task) in w.ids
    requires Untouched(before, after, TaskDatabaseNames(w.digest, base, task).Owned())
    requires Untouched(tasks, tasks', {task})
    requires task in tasks' ==> TaskOk(w, after, task, tasks'[task])
    ensures AllOk(w, after, tasks')
  {
    NamesAreUsable(w.digest, base, task);
    forall other | other in tasks' && other != task
      ensures TaskOk(w, after, other, tasks'[other])
    {
      var td := tasks[other];
      NamesAreDisjoint(w.digest, base, task, td.spec.base, other);
      TemplateNamesAreRecognised(td.spec.base);
      var mine := TaskDatabaseNames(w.digest, base, task).Owned();
      assert td.names.initial in td.names.Owned() && td.names.phase1 in td.names.Owned();
      assert td.initialSnapshot !in mine && td.names.phase1 !in mine;
    }
  }

  /** The working database is never one of the databases a record's snapshots live in. */
  lemma WorkingDatabaseIsFree(w: World, before: Cluster, after: Cluster, task: string, td: TaskData)
    requires w.Ok() && TaskOk(w, before, task, td)
    requires Untouched(before, after, {td.taskDb})
    ensures TaskOk(w, after, task, td)
    ensures td.initialSnapshot != td.taskDb && td.names.phase1 != td.taskDb && td.initialSnapshot != td.names.phase1
  {
    NamesAreUsable(w.digest, td.spec.base, task);
    TemplateNamesAreRecognised(td.spec.base);
  }

  // ----- the work of one task, against its record

  ghost predicate PreprocessFinishes(w: World, spec: TaskSpec)
    requires w.Knows(spec)
  {
    Execute(w.engine, Db(w.templates[TemplateName(spec.base)], {}), spec.preprocess, Calm).outcome.Finished?
  }

  ghost predicate CanInitialise(w: World, spec: TaskSpec)
  {
    w.Knows(spec) && ValidIdentifier(TemplateName(spec.base)) && PreprocessFinishes(w, spec)
  }

  /** Clones the template and preprocesses it; with preprocess statements the result is frozen as the reset point,
      without them the template itself is the reset point. */
  method BuildTaskDatabases(pg: Postgres, ghost w: World, names: Names, spec: TaskSpec)
    returns (ok: bool, snapshot: string, isOwned: bool)
    requires w.engine == pg.engine && TemplatesIntact(w, pg.databases) && IsTemplateName(TemplateName(spec.base))
    requires ValidIdentifier(names.task) && ValidIdentifier(names.initial) && names.task != names.initial
    requires !IsTemplateName(names.task) && !IsTemplateName(names.initial)
    modifies pg
    ensures Untouched(old(pg.databases), pg.databases, {names.task, names.initial})
    ensures ok ==> (isOwned <==> spec.preprocess != [])
    ensures ok ==>
              && w.Knows(spec) && snapshot == (if isOwned then names.initial else TemplateName(spec.base))
              && ValidIdentifier(snapshot) && snapshot in pg.databases && names.task in pg.databases
              && pg.databases[snapshot].data == w.StartDataFor(spec, 1, "")
              && pg.databases[names.task].data == w.StartDataFor(spec, 1, "")
    ensures {names.task, names.initial} !! pg.troubled ==> ok == CanInitialise(w, spec)
  {
    var template := TemplateName(spec.base);
    snapshot, isOwned := template, false;
    ok := pg.DropAndCreateDb(names.task, template);
    if ok && spec.preprocess != [] {
      ok := pg.ExecuteRequired(names.task, spec.preprocess);
      if ok {
        ok := pg.DropAndCreateDb(names.initial, names.task);
        snapshot, isOwned := names.initial, true;
      }
    }
  }

  /** Builds the task database and its canonical post-preprocess reset point; away from trouble a failure leaves
      nothing of the task. */
  method InitialiseTaskDatabases(pg: Postgres, ghost w: World, digest: Digest, task: string, spec: TaskSpec)
    returns (td: Option<TaskData>)
    requires w.Ok() && w.engine == pg.engine && w.digest == digest && TemplatesIntact(w, pg.databases)
    requires (spec.base, task) in w.ids
    modifies pg
    ensures Untouched(old(pg.databases), pg.databases, TaskDatabaseNames(digest, spec.base, task).Owned())
    ensures td.Some? ==>
              && td.value.spec == spec && td.value.phase == 1 && td.value.attempts == Attempts(0, 0)
              && (td.value.initialOwned <==> spec.preprocess != [])
              && TaskOk(w, pg.databases, task, td.value)
              && td.value.taskDb in pg.databases
              && pg.databases[td.value.taskDb].data == w.StartDataFor(spec, 1, "")
    ensures var names := TaskDatabaseNames(digest, spec.base, task);
            names.Owned() !! pg.troubled ==>
              && td.Some? == CanInitialise(w, spec)
              && (td.None? ==> names.Owned() !! pg.databases.Keys)
  {
    var names := TaskDatabaseNames(digest, spec.base, task);
    NamesAreUsable(digest, spec.base, task);
    TemplateNamesAreRecognised(spec.base);
    td := None;
    var ok := DropTheOwned(pg, names);
    if ok {
      var built, snapshot, isOwned := BuildTaskDatabases(pg, w, names, spec);
      if built {
        td := Some(TaskData(spec, names, names.task, snapshot, isOwned, 1, None, [], Attempts(0, 0), ""));
      }
    }
    if td.None? {
      var _ := DropTheOwned(pg, names);
    }
  }

  method DropTheOwned(pg: Postgres, names: Names) returns (ok: bool)
    modifies pg
    ensures Untouched(old(pg.databases), pg.databases, names.Owned())
    ensures (forall n :: n in names.Owned() ==> ValidIdentifier(n)) && names.Owned() !! pg.troubled ==>
              ok && names.Owned() !! pg.databases.Keys
  {
    var owned := [Some(names.phase1), Some(names.initial), Some(names.task)];
    assert (set n | n in owned && n.Some? :: n.value) == names.Owned() by {
      assert owned[0] in owned && owned[1] in owned && owned[2] in owned;
    }
    ok := pg.DropDatabases(owned);
    assert owned[0] in owned && owned[1] in owned && owned[2] in owned;
  }

  /** Resets the task database to the start of the phase, with Phase 1 maintenance replayed in Phase 2. */
  method PrepareAttempt(pg: Postgres, ghost w: World, ghost task: string, td: TaskData)
    returns (ok: bool)
    requires w.Ok() && w.engine == pg.engine && TaskOk(w, pg.databases, task, td)
    modifies pg
    ensures Untouched(old(pg.databases), pg.databases, {td.taskDb})
    ensures ok ==> td.taskDb in pg.databases && pg.databases[td.taskDb] == w.StartFor(td.spec, td.phase, td.Accepted())
    ensures td.taskDb !in pg.troubled && (td.phase == 2 ==> w.EnvironmentFinishes(td.spec, 2, td.Accepted(), "")) ==> ok
  {
    WorkingDatabaseIsFree(w, pg.databases, pg.databases, task, td);
    var template := if td.phase == 1 then Some(td.initialSnapshot) else td.snapshot;
    if template.None? {
      return false;
    }
    ok := pg.DropAndCreateDb(td.taskDb, template.value);
    if ok && td.phase == 2 {
      ok := pg.ExecuteRequired(td.taskDb, td.maintenance);
    }
  }

  /** Judges the submission on the prepared task database, under the faults aimed at it; judging may write anything
      there. */
  method JudgeAttempt(pg: Postgres, ghost w: World, td: TaskData, sql: string, faults: JudgeFaults)
    returns (passed: bool)
    requires w.engine == pg.engine && w.Knows(td.spec) && td.phase in {1, 2}
    requires td.taskDb in pg.databases && pg.databases[td.taskDb] == w.StartFor(td.spec, td.phase, td.Accepted())
    modifies pg
    ensures passed == w.GradeFor(td.spec, td.phase, td.Accepted(), sql, faults)
    ensures var left := Judge(pg.engine, td.spec.CaseOf(td.phase), old(pg.databases)[td.taskDb], pg.engine.split(sql), faults).db;
            pg.databases == old(pg.databases)[td.taskDb := left]
  {
    var preds := pg.engine.split(sql);
    var j := JudgeSubmission(pg.engine, td.spec.CaseOf(td.phase), pg.databases[td.taskDb], preds, faults);
    VerdictExactly(pg.engine, td.spec.CaseOf(td.phase), pg.databases[td.taskDb], preds, faults);
    pg.databases := pg.databases[td.taskDb := j.db];
    passed := j.passed;
  }

  /** After a rejected submission the task database goes back to the phase's start. */
  method RestoreAfterRejection(pg: Postgres, ghost w: World, ghost task: string, td: TaskData)
    returns (ok: bool)
    requires w.Ok() && w.engine == pg.engine && TaskOk(w, pg.databases, task, td)
    modifies pg
    ensures Untouched(old(pg.databases), pg.databases, {td.taskDb})
    ensures ok ==> td.taskDb in pg.databases && pg.databases[td.taskDb].data == w.StartDataFor(td.spec, td.phase, td.Accepted())
    ensures td.taskDb !in pg.troubled ==> ok
  {
    WorkingDatabaseIsFree(w, pg.databases, pg.databases, task, td);
    ok := pg.DropAndCreateDb(td.taskDb, if td.phase == 1 then td.initialSnapshot else td.snapshot.value);
  }

  /** Rebuilds the canonical Phase 1 end state from the accepted SQL and freezes it. The maintenance statements
      are remembered as soon as the accepted SQL has run, so `td'` may differ from `td` even on failure. */
  method CreatePhase1Snapshot(pg: Postgres, ghost w: World, ghost task: string, td: TaskData, sql: string)
    returns (ok: bool, td': TaskData)
    requires w.Ok() && w.engine == pg.engine && TaskOk(w, pg.databases, task, td) && td.phase == 1
    modifies pg
    ensures Untouched(old(pg.databases), pg.databases, {td.taskDb, td.names.phase1})
    ensures td' == td.(maintenance := td'.maintenance)
    ensures ok ==>
              var data := w.StartDataFor(td.spec, 2, sql);
              && td'.maintenance == Maintenance(w.engine.split(sql))
              && td.names.phase1 in pg.databases && pg.databases[td.names.phase1].data == data
              && td.taskDb in pg.databases && pg.databases[td.taskDb].data == data
    ensures {td.taskDb, td.names.phase1} !! pg.troubled && w.EnvironmentFinishes(td.spec, 1, "", sql)
            && td.spec.HasFollowUp() && Execute(w.engine, w.StartFor(td.spec, 1, ""), w.engine.split(sql), Calm).outcome.Finished?
            ==> ok
  {
    td' := td;
    WorkingDatabaseIsFree(w, pg.databases, pg.databases, task, td);
    ok := pg.DropAndCreateDb(td.taskDb, td.initialSnapshot);
    if ok {
      ok := pg.ExecuteRequired(td.taskDb, pg.engine.split(sql));
    }
    if ok {
      td' := td.(maintenance := Maintenance(pg.engine.split(sql)));
      ok := pg.ExecuteRequired(td.taskDb, td.spec.cleanup);
    }
    if ok {
      ok := pg.DropAndCreateDb(td.names.phase1, td.taskDb);
    }
  }

  /** How one attempt went: not at all, rejected and restored, passed, or passed and moved to Phase 2. */
  datatype Attempt = Aborted | Rejected | Passed | Advanced

  /** One submission against a task record: reset, judge, and on a Phase 1 pass with a follow-up, freeze and advance.
      `grade` is the stateless judge's answer. Away from trouble only environment SQL that fails aborts an attempt. */
  method RunAttempt(pg: Postgres, ghost w: World, ghost task: string, td: TaskData, sql: string, faults: JudgeFaults,
                    ghost grade: bool)
    returns (a: Attempt, td': TaskData)
    requires w.Ok() && w.engine == pg.engine && TaskOk(w, pg.databases, task, td)
    requires grade == w.GradeFor(td.spec, td.phase, td.Accepted(), sql, faults)
    modifies pg
    ensures Untouched(old(pg.databases), pg.databases, td.Working())
    ensures TaskOk(w, pg.databases, task, td')
    ensures td'.spec == td.spec && td'.phase == (if a == Advanced then 2 else td.phase)
    ensures td'.Accepted() == (if a == Advanced then sql else td.Accepted())
    ensures td'.attempts == (if a == Advanced then td.attempts.(second := 0) else td.attempts)
    ensures a == Advanced ==> td.phase == 1 && td.spec.HasFollowUp()
    ensures a == Passed ==> td.phase == 2 || !td.spec.HasFollowUp()
    ensures a != Aborted ==> (a in {Passed, Advanced}) == grade
    ensures td.names.Owned() !! pg.troubled && w.EnvironmentFinishes(td.spec, td.phase, td.Accepted(), sql) ==> a != Aborted
    ensures a in {Rejected, Advanced} ==>
              && td.taskDb in pg.databases && td'.taskDb == td.taskDb
              && pg.databases[td.taskDb].data == w.StartDataFor(td'.spec, td'.phase, td'.Accepted())
  {
    td' := td;
    var ok := PrepareAttempt(pg, w, task, td);
    WorkingDatabaseIsFree(w, old(pg.databases), pg.databases, task, td);
    if !ok {
      return Aborted, td;
    }
    var passed := JudgeAttempt(pg, w, td, sql, faults);
    WorkingDatabaseIsFree(w, old(pg.databases), pg.databases, task, td);
    if !passed {
      ok := RestoreAfterRejection(pg, w, task, td);
      WorkingDatabaseIsFree(w, old(pg.databases), pg.databases, task, td);
      return if ok then Rejected else Aborted, td;
    }
    if td.phase == 2 {
      return Passed, td;
    }
    td' := td.(successfulPhase1Sql := sql);
    if !td.spec.HasFollowUp() {
      return Passed, td';
    }
    AcceptedSqlReplays(w.engine, td.spec.CaseOf(1), w.StartFor(td.spec, 1, ""), w.engine.split(sql), faults);
    ok, td' := CreatePhase1Snapshot(pg, w, task, td', sql);
    a := Aborted;
    if ok {
      a, td' := Advanced, td'.(snapshot := Some(td.names.phase1), phase := 2, attempts := td'.attempts.(second := 0));
    }
  }

  /** What a pass is worth, in tenths, after `tries` earlier submissions of the phase: a later try costs something only
      in c-interact mode. */
  function PassWorth(mode: Mode, phase: int, tries: nat): nat
  {
    match (mode, phase)
    case (CInteract, 1) => if tries > 0 then 5 else 7
    case (CInteract, _) => if tries > 0 then 2 else 3
    case (AInteract, 1) => 7
    case (AInteract, _) => 3
  }

  /** What one submission does, seen from outside: the stateless judge's answer, and a reward for the phase and the
      number of attempts. */
  ghost predicate VerdictOf(td: TaskData, grade: bool, r: Response)
    requires r.Verdict?
  {
    && r.passed == grade
    && r.phaseCompleted == (if r.passed then td.phase else 0)
    && r.hasFollowUp == (r.passed && td.phase == 1 && td.spec.HasFollowUp())
    && r.reward == if r.passed then PassWorth(td.spec.mode, td.phase, td.attempts.Of(td.phase)) else 0
  }

  /** The record after a submission: one more try, or Phase 2 with the accepted SQL. */
  ghost predicate RecordAfter(td: TaskData, td': TaskData, r: Response, sql: string)
  {
    var advanced := r.Verdict? && r.hasFollowUp;
    && td'.spec == td.spec && td'.phase == (if advanced then 2 else td.phase)
    && td'.Accepted() == (if advanced then sql else td.Accepted())
    && td'.attempts.Of(td'.phase) == (if advanced then 0 else td.attempts.Of(td.phase) + 1)
  }

  /** The response to an attempt; the attempt is already counted in the record. */
  function ResponseTo(a: Attempt, counted: TaskData): Response
  {
    var reward := Reward(counted.spec.mode, counted.phase, counted.attempts.Of(counted.phase) == 1);
    match a
    case Aborted => InfrastructureFailure
    case Rejected => Verdict(false, 0, 0, false)
    case Passed => Verdict(true, reward, counted.phase, false)
    case Advanced => Verdict(true, reward, 1, true)
  }

  lemma ResponseIsVerdict(a: Attempt, td: TaskData, td': TaskData, sql: string, grade: bool)
    requires td'.spec == td.spec && td'.phase == (if a == Advanced then 2 else td.phase) && td.phase in {1, 2}
    requires td'.Accepted() == (if a == Advanced then sql else td.Accepted())
    requires var counted := td.attempts.Counting(td.phase);
             td'.attempts == (if a == Advanced then counted.(second := 0) else counted)
    requires a != Aborted ==> (a in {Passed, Advanced}) == grade
    requires a == Advanced ==> td.phase == 1 && td.spec.HasFollowUp()
    requires a == Passed ==> td.phase == 2 || !td.spec.HasFollowUp()
    ensures var r := ResponseTo(a, td.(attempts := td.attempts.Counting(td.phase)));
            && (r.Verdict? <==> a != Aborted) && (a == Aborted ==> r == InfrastructureFailure)
            && (r.Verdict? ==> VerdictOf(td, grade, r) && (r.hasFollowUp <==> a == Advanced)
                               && ((r.passed ==> r.hasFollowUp) <==> a != Passed))
            && RecordAfter(td, td', r, sql)
  {
  }

  class Server {
    const digest: Digest
    const pg: Postgres
    ghost const world: World
    var taskData: map<string, TaskData>

    ghost predicate Valid()
      reads this, pg
    {
      && world.Ok() && world.engine == pg.engine && world.digest == digest
      && AllOk(world, pg.databases, taskData)
    }

    constructor (pg: Postgres, digest: Digest, ghost ids: set<Identity>)
      requires EngineOk(pg.engine) && DigestOk(digest, ids)
      ensures Valid() && taskData == map[] && this.pg == pg && this.digest == digest
      ensures world == World(pg.engine, digest, ids,
                             map n | n in pg.databases && IsTemplateName(n) :: pg.databases[n].data)
    {
      this.pg, this.digest := pg, digest;
      world := World(pg.engine, digest, ids, map n | n in pg.databases && IsTemplateName(n) :: pg.databases[n].data);
      taskData := map[];
    }

    method HandleInit(task: string, spec: TaskSpec) returns (r: Response)
      requires Valid() && (spec.base, task) in world.ids
      modifies this, pg
      ensures Valid()
      ensures Untouched(old(pg.databases), pg.databases, TaskDatabaseNames(digest, spec.base, task).Owned())
      ensures TaskDatabaseNames(digest, spec.base, task).Owned() !! pg.troubled ==>
                (r == Initialised <==> CanInitialise(world, spec))
      ensures r in {Initialised, InfrastructureFailure}
      ensures r == Initialised <==> task in taskData
      ensures r == Initialised ==>
                var td := taskData[task];
                && td.spec == spec && td.phase == 1 && td.attempts == Attempts(0, 0)
                && (td.initialOwned <==> spec.preprocess != [])
                && td.taskDb in pg.databases && pg.databases[td.taskDb].data == world.StartDataFor(spec, 1, "")
      ensures var names := TaskDatabaseNames(digest, spec.base, task);
              r != Initialised && names.Owned() !! pg.troubled ==> names.Owned() !! pg.databases.Keys
      ensures Untouched(old(taskData), taskData, {task})
    {
      // A same-task reinitialisation never keeps a stale record.
      taskData := taskData - {task};
      var td := InitialiseTaskDatabases(pg, world, digest, task, spec);
      r := InfrastructureFailure;
      if td.Some? {
        taskData := taskData[task := td.value];
        r := Initialised;
      }
      StepsAreIsolated(world, old(pg.databases), pg.databases, spec.base, task, old(taskData), taskData);
    }

    /** Exploration is filtered by its first keyword only: it may write anything to the task database. */
    method HandleExplore(task: string, sql: string) returns (r: Response)
      requires Valid()
      modifies pg
      ensures Valid()
      ensures r == if task in taskData then Explored else NotInitialised
      ensures Untouched(old(pg.databases), pg.databases, if task in taskData then {taskData[task].taskDb} else {})
    {
      if task !in taskData {
        return NotInitialised;
      }
      var td := taskData[task];
      if td.taskDb in pg.databases {
        var written: Db := *;
        pg.databases := pg.databases[td.taskDb := written];
      }
      WorkingDatabaseIsFree(world, old(pg.databases), pg.databases, task, td);
      StepsAreIsolated(world, old(pg.databases), pg.databases, td.spec.base, task, taskData, taskData);
      r := Explored;
    }

    /** One submission. Only the task's own working databases are touched, and unless the task has finished,
        its database holds the phase's start again. Away from trouble, and when the environment SQL finishes, a
        submission is always answered by a verdict. */
    method HandleSubmit(task: string, sql: string, faults: JudgeFaults) returns (r: Response)
      requires Valid()
      modifies this, pg
      ensures Valid()
      ensures r in {NotInitialised, InfrastructureFailure} || r.Verdict?
      ensures taskData.Keys == old(taskData).Keys && Untouched(old(taskData), taskData, {task})
      ensures task !in taskData ==> r == NotInitialised && pg.databases == old(pg.databases)
      ensures task in taskData ==>
                var td, td' := old(taskData)[task], taskData[task];
                && r != NotInitialised && RecordAfter(td, td', r, sql)
                && Untouched(old(pg.databases), pg.databases, td.Working())
      ensures r.Verdict? ==>
                var td, td' := old(taskData)[task], taskData[task];
                && VerdictOf(td, world.GradeFor(td.spec, td.phase, td.Accepted(), sql, faults), r)
                && ((r.passed ==> r.hasFollowUp) ==>
                      && td'.taskDb in pg.databases
                      && pg.databases[td'.taskDb].data == world.StartDataFor(td'.spec, td'.phase, td'.Accepted()))
      ensures task in taskData ==>
                var td := old(taskData)[task];
                td.names.Owned() !! pg.troubled && world.EnvironmentFinishes(td.spec, td.phase, td.Accepted(), sql) ==> r.Verdict?
    {
      if task !in taskData {
        return NotInitialised;
      }
      var td := taskData[task];
      ghost var grade := world.GradeFor(td.spec, td.phase, td.Accepted(), sql, faults);
      var counted := td.(attempts := td.attempts.Counting(td.phase));
      var a, td' := RunAttempt(pg, world, task, counted, sql, faults, grade);
      taskData := taskData[task := td'];
      StepsAreIsolated(world, old(pg.databases), pg.databases, td.spec.base, task, old(taskData), taskData);
      r := ResponseTo(a, counted);
      ResponseIsVerdict(a, td, td', sql, grade);
    }

    /** Drops the databases the task owns; an unowned base template is not among them. */
    method HandleCleanup(task: string) returns (r: Response)
      requires Valid()
      modifies this, pg
      ensures Valid() && r == Cleaned
      ensures taskData == old(taskData) - {task}
      ensures Untouched(old(pg.databases), pg.databases,
                        if task in old(taskData) then old(taskData)[task].names.Owned() else {})
      ensures task in old(taskData) ==> old(taskData)[task].Created() - pg.troubled !! pg.databases.Keys
    {
      r := Cleaned;
      if task !in taskData {
        return;
      }
      var td := taskData[task];
      NamesAreUsable(world.digest, td.spec.base, task);
      DropOwned(td);
      taskData := taskData - {task};
      StepsAreIsolated(world, old(pg.databases), pg.databases, td.spec.base, task, old(taskData), taskData);
    }

    method DropOwned(td: TaskData)
      requires td.taskDb == td.names.task && (td.snapshot.Some? ==> td.snapshot.value == td.names.phase1)
      requires forall n :: n in td.names.Owned() ==> ValidIdentifier(n)
      modifies pg
      ensures Untouched(old(pg.databases), pg.databases, td.names.Owned())
      ensures td.Created() - pg.troubled !! pg.databases.Keys
    {
      var names := [td.snapshot, Some(td.names.phase1),
                    if td.initialOwned then Some(td.names.initial) else None, Some(td.taskDb)];
      assert forall n :: n in names && n.Some? ==> n.value in td.names.Owned();
      assert names[1] in names && names[2] in names && names[3] in names;
      var _ := pg.DropDatabases(names);
    }
  }
}
