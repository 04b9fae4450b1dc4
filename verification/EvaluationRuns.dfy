/** Whole runs of the evaluation service, and the agent's view of them (system_agent/tools.py). */
module EvaluationRuns {
  import opened Options
  import opened SqlEngine
  import opened Grader
  import opened DatabaseNames
  import opened PostgresCluster
  import opened EvaluationServer

  /** One served request. `faults` are those aimed at the judging; `content` is the relational content of the task's
      database right after a verdict. */
  datatype Entry = Entry(request: Request, response: Response, faults: JudgeFaults, content: Option<Relations>)

  /** Everything a stateless judge has to remember about a task, read off the requests and responses alone; `tries`
      counts the submissions of the current phase. */
  datatype Session = Session(spec: TaskSpec, phase: int, accepted: string, tries: nat)

  function TrackStep(sessions: map<string, Session>, e: Entry): map<string, Session>
  {
    match e.request
    case InitTask(t, spec) =>
      if e.response == Initialised then sessions[t := Session(spec, 1, "", 0)] else sessions - {t}
    case Explore(_, _) => sessions
    case Submit(t, sql) =>
      if t !in sessions then sessions
      else if e.response.Verdict? && e.response.hasFollowUp then sessions[t := Session(sessions[t].spec, 2, sql, 0)]
      else sessions[t := sessions[t].(tries := sessions[t].tries + 1)]
    case CleanupTask(t) => sessions - {t}
  }

  function Track(log: seq<Entry>): map<string, Session>
  {
    if log == [] then map[] else TrackStep(Track(log[..|log| - 1]), log[|log| - 1])
  }

  /** A task-finishing pass leaves the task database as judged; every other verdict leaves it restored. */
  predicate Finishes(r: Response)
  {
    r.Verdict? && r.passed && !r.hasFollowUp
  }

  /** The shape of a verdict, given the sessions before it. */
  ghost predicate Shaped(sessions: map<string, Session>, e: Entry)
  {
    e.request.Submit? && e.response.Verdict? ==>
      var t, r := e.request.task, e.response;
      && t in sessions
      && var s := sessions[t];
      && r.phaseCompleted == (if r.passed then s.phase else 0)
      && r.hasFollowUp == (r.passed && s.phase == 1 && s.spec.followUp.Some? && s.spec.followUp.value.solSqls != [])
      && r.reward == (if r.passed then PassWorth(s.spec.mode, s.phase, s.tries) else 0)
  }

  /** A verdict is the stateless judge's answer for the session before it, under the faults aimed at the judging, and
      a verdict that does not finish the task leaves its database at the start the sessions prescribe. */
  ghost predicate Graded(w: World, sessions: map<string, Session>, e: Entry)
  {
    e.request.Submit? && e.response.Verdict? && e.request.task in sessions ==>
      var s, next := sessions[e.request.task], TrackStep(sessions, e)[e.request.task];
      && w.Knows(s.spec)
      && e.response.passed == w.GradeFor(s.spec, s.phase, s.accepted, e.request.sql, e.faults)
      && (!Finishes(e.response) ==> e.content == Some(w.StartDataFor(s.spec, next.phase, next.accepted)))
  }

  /** Which kind of answer a request gets. With a `calm` cluster only environment SQL that fails keeps a task from
      being initialised or a submission from being judged. */
  ghost predicate Answered(w: World, calm: bool, sessions: map<string, Session>, e: Entry)
  {
    match e.request
    case InitTask(_, spec) =>
      && e.response in {Initialised, InfrastructureFailure}
      && (calm ==> (e.response == Initialised <==> CanInitialise(w, spec)))
    case Explore(t, _) => e.response == if t in sessions then Explored else NotInitialised
    case Submit(t, sql) =>
      && (e.response == NotInitialised <==> t !in sessions)
      && (t in sessions ==>
            var s := sessions[t];
            && w.Knows(s.spec) && (e.response == InfrastructureFailure || e.response.Verdict?)
            && (calm && w.EnvironmentFinishes(s.spec, s.phase, s.accepted, sql) ==> e.response.Verdict?))
    case CleanupTask(_) => e.response == Cleaned
  }

  ghost predicate Faithful(w: World, calm: bool, sessions: map<string, Session>, e: Entry)
  {
    Shaped(sessions, e) && Graded(w, sessions, e) && Answered(w, calm, sessions, e)
  }

  ghost predicate ShapedLog(log: seq<Entry>)
  {
    forall i :: 0 <= i < |log| ==> Shaped(Track(log[..i]), log[i])
  }

  ghost predicate FaithfulLog(w: World, calm: bool, log: seq<Entry>)
  {
    forall i :: 0 <= i < |log| ==> Faithful(w, calm, Track(log[..i]), log[i])
  }

  function SessionOf(td: TaskData): Session
  {
    Session(td.spec, td.phase, td.Accepted(), td.attempts.Of(td.phase))
  }

  /** The in-memory task records are what the log says. */
  ghost predicate Agrees(tasks: map<string, TaskData>, sessions: map<string, Session>)
  {
    forall t :: (t in tasks <==> t in sessions) && (t in tasks ==> sessions[t] == SessionOf(tasks[t]))
  }

  lemma OneRecordChanges(before: map<string, TaskData>, after: map<string, TaskData>, sessions: map<string, Session>,
                         e: Entry)
    requires Agrees(before, sessions) && Untouched(before, after, {e.request.task})
    requires var t, next := e.request.task, TrackStep(sessions, e);
             (t in after <==> t in next) && (t in after ==> next[t] == SessionOf(after[t]))
    ensures Agrees(after, TrackStep(sessions, e))
  {
  }

  /** The record after a submission is what the log says. */
  lemma SubmissionIsTracked(sessions: map<string, Session>, e: Entry, td: TaskData, td': TaskData)
    requires e.request.Submit? && e.request.task in sessions && sessions[e.request.task] == SessionOf(td)
    requires RecordAfter(td, td', e.response, e.request.sql)
    ensures var next := TrackStep(sessions, e);
            next.Keys == sessions.Keys && next[e.request.task] == SessionOf(td')
  {
  }

  /** A verdict of the server, read against the session of its task. */
  lemma VerdictIsFaithful(w: World, sessions: map<string, Session>, e: Entry, td: TaskData, td': TaskData)
    requires e.request.Submit? && e.response.Verdict?
    requires e.request.task in sessions && sessions[e.request.task] == SessionOf(td)
    requires w.Knows(td.spec)
    requires RecordAfter(td, td', e.response, e.request.sql)
    requires VerdictOf(td, w.GradeFor(td.spec, td.phase, td.Accepted(), e.request.sql, e.faults), e.response)
    requires !Finishes(e.response) ==> e.content == Some(w.StartDataFor(td'.spec, td'.phase, td'.Accepted()))
    ensures Shaped(sessions, e) && Graded(w, sessions, e)
    ensures TrackStep(sessions, e)[e.request.task] == SessionOf(td')
  {
  }

  method ServeSubmit(server: Server, task: string, sql: string, faults: JudgeFaults, ghost sessions: map<string, Session>)
    returns (e: Entry)
    requires server.Valid() && Agrees(server.taskData, sessions)
    modifies server, server.pg
    ensures server.Valid()
    ensures e.request == Submit(task, sql) && e.faults == faults
    ensures Faithful(server.world, server.pg.troubled == {}, sessions, e)
    ensures Agrees(server.taskData, TrackStep(sessions, e))
  {
    ghost var before := server.taskData;
    var r := server.HandleSubmit(task, sql, faults);
    var content := None;
    if r.Verdict? && server.taskData[task].taskDb in server.pg.databases {
      content := Some(server.pg.databases[server.taskData[task].taskDb].data);
    }
    e := Entry(Submit(task, sql), r, faults, content);
    if task in before {
      SubmissionIsTracked(sessions, e, before[task], server.taskData[task]);
    }
    if r.Verdict? {
      VerdictIsFaithful(server.world, sessions, e, before[task], server.taskData[task]);
    }
    assert Answered(server.world, server.pg.troubled == {}, sessions, e);
    OneRecordChanges(before, server.taskData, sessions, e);
  }

  method ServeOne(server: Server, q: Request, faults: JudgeFaults, ghost sessions: map<string, Session>)
    returns (e: Entry)
    requires server.Valid() && Agrees(server.taskData, sessions)
    requires q.InitTask? ==> (q.spec.base, q.task) in server.world.ids
    modifies server, server.pg
    ensures server.Valid()
    ensures e.request == q && e.faults == faults
    ensures Faithful(server.world, server.pg.troubled == {}, sessions, e)
    ensures Agrees(server.taskData, TrackStep(sessions, e))
  {
    ghost var before := server.taskData;
    match q
    case Submit(t, sql) =>
      e := ServeSubmit(server, t, sql, faults, sessions);
    case InitTask(t, spec) =>
      var r := server.HandleInit(t, spec);
      e := Entry(q, r, faults, None);
      OneRecordChanges(before, server.taskData, sessions, e);
    case Explore(t, sql) =>
      var r := server.HandleExplore(t, sql);
      e := Entry(q, r, faults, None);
    case CleanupTask(t) =>
      var r := server.HandleCleanup(t);
      e := Entry(q, r, faults, None);
      OneRecordChanges(before, server.taskData, sessions, e);
  }

  /** Refinement: over any run of interleaved requests, with arbitrary writes by exploration, a fault possible at every
      database operation on a troubled name and the given faults aimed at the judging, every verdict is the stateless
      judge's answer computed from the log alone. */
  method Serve(server: Server, requests: seq<Request>, plan: seq<JudgeFaults>) returns (log: seq<Entry>)
    requires server.Valid() && server.taskData == map[] && |plan| == |requests|
    requires forall q :: q in requests && q.InitTask? ==> (q.spec.base, q.task) in server.world.ids
    modifies server, server.pg
    ensures server.Valid()
    ensures |log| == |requests| && forall i :: 0 <= i < |log| ==> log[i].request == requests[i] && log[i].faults == plan[i]
    ensures ShapedLog(log) && FaithfulLog(server.world, server.pg.troubled == {}, log)
  {
    log := [];
    for i := 0 to |requests|
      invariant server.Valid()
      invariant |log| == i && forall k :: 0 <= k < i ==> log[k].request == requests[k] && log[k].faults == plan[k]
      invariant FaithfulLog(server.world, server.pg.troubled == {}, log)
      invariant Agrees(server.taskData, Track(log))
    {
      var e := ServeOne(server, requests[i], plan[i], Track(log));
      TrackExtends(server.world, server.pg.troubled == {}, log, e);
      log := log + [e];
    }
  }

  lemma TrackExtends(w: World, calm: bool, log: seq<Entry>, e: Entry)
    requires FaithfulLog(w, calm, log) && Faithful(w, calm, Track(log), e)
    ensures FaithfulLog(w, calm, log + [e])
    ensures Track(log + [e]) == TrackStep(Track(log), e)
  {
    var all := log + [e];
    assert all[..|all| - 1] == log;
    forall i | 0 <= i < |all|
      ensures Faithful(w, calm, Track(all[..i]), all[i])
    {
      if i < |log| {
        assert all[..i] == log[..i];
      }
    }
  }

  // ----- a service for any requests

  /** The identities a list of requests initialises. */
  function Identities(requests: seq<Request>): (ids: seq<Identity>)
    ensures |ids| <= |requests|
    ensures forall q :: q in requests && q.InitTask? ==> (q.spec.base, q.task) in ids
  {
    if requests == [] then []
    else
      var q := requests[0];
      (if q.InitTask? then [(q.spec.base, q.task)] else []) + Identities(requests[1..])
  }

  /** A service started on any databases, for any requests, no more of them than there are digests. */
  method ServeAll(width: nat, engine: Engine, troubled: set<string>, databases: Cluster, requests: seq<Request>,
                  plan: seq<JudgeFaults>)
    returns (log: seq<Entry>, ghost w: World)
    requires width == DIGEST_CHARS && |requests| <= Power(width)
    requires EngineOk(engine) && |plan| == |requests|
    ensures w.engine == engine && w.templates == map n | n in databases && IsTemplateName(n) :: databases[n].data
    ensures |log| == |requests| && forall i :: 0 <= i < |log| ==> log[i].request == requests[i] && log[i].faults == plan[i]
    ensures w.Ok() && ShapedLog(log) && FaithfulLog(w, troubled == {}, log)
  {
    var order := Identities(requests);
    DigestsExist(width, order);
    var pg := new Postgres(engine, troubled, databases);
    var server := new Server(pg, DigestFor(width, order), set id | id in order);
    w := server.world;
    log := Serve(server, requests, plan);
  }

  // ----- the agent's session state

  /** What the agent keeps about a task; rewards in tenths. */
  datatype Agent = Agent(phase: int, phase1Completed: bool, phase2Completed: bool, done: bool, reward: int)
  {
    /** What the completed phases are worth. */
    function Worth(): int
    {
      (if phase1Completed then 7 else 0) + (if phase2Completed then 3 else 0)
    }
  }

  const FRESH_AGENT := Agent(1, false, false, false, 0)

  /** The submit tool's update of the session state from a response. */
  function AfterSubmit(a: Agent, r: Response): Agent
  {
    if !r.Verdict? || !r.passed then a
    else
      var rewarded := a.(reward := a.reward + r.reward);
      if r.phaseCompleted == 1 then
        rewarded.(phase1Completed := true, phase := 2, done := a.done || !r.hasFollowUp)
      else if r.phaseCompleted == 2 then rewarded.(phase2Completed := true, done := true)
      else rewarded
  }

  /** The agent's state after the replies to its submissions. */
  function AgentAfter(replies: seq<Response>): Agent
  {
    if replies == [] then FRESH_AGENT else AfterSubmit(AgentAfter(replies[..|replies| - 1]), replies[|replies| - 1])
  }

  /** The replies to a task's submissions since its last initialisation. */
  function Replies(log: seq<Entry>, task: string): seq<Response>
  {
    if log == [] then []
    else
      var before, e := Replies(log[..|log| - 1], task), log[|log| - 1];
      if e.request.task != task then before
      else if e.request.InitTask? then []
      else if e.request.Submit? then before + [e.response]
      else before
  }

  /** No submission is sent once the task is done. */
  predicate StopsWhenDone(replies: seq<Response>)
  {
    forall i :: 0 <= i < |replies| ==> !AgentAfter(replies[..i]).done
  }

  /** A submission is accepted although the task is done. */
  predicate PaidAfterDone(replies: seq<Response>)
  {
    replies != [] &&
      var before, r := replies[..|replies| - 1], replies[|replies| - 1];
      PaidAfterDone(before) || (AgentAfter(before).done && r.Verdict? && r.passed)
  }

  lemma OneReplyMore(replies: seq<Response>, r: Response)
    ensures AgentAfter(replies + [r]) == AfterSubmit(AgentAfter(replies), r)
    ensures StopsWhenDone(replies) && !AgentAfter(replies).done ==> StopsWhenDone(replies + [r])
  {
    var all := replies + [r];
    assert all[..|all| - 1] == replies;
    assert forall i :: 0 <= i <= |replies| ==> all[..i] == replies[..i];
    assert replies[..|replies|] == replies;
  }

  lemma {:induction false} StoppingIsNotPaid(replies: seq<Response>)
    requires StopsWhenDone(replies)
    ensures !PaidAfterDone(replies)
    decreases |replies|
  {
    if replies != [] {
      var before := replies[..|replies| - 1];
      assert forall i :: 0 <= i < |before| ==> before[..i] == replies[..i];
      StoppingIsNotPaid(before);
    }
  }

  /** The phases agree until the task is done, and Phase 2 completes only after Phase 1, whatever the agent sends. */
  ghost predicate PhasesAgree(a: Agent, sessions: map<string, Session>, task: string)
  {
    && (task in sessions ==>
          var s := sessions[task];
          && s.spec.mode.AInteract? && s.phase in {1, 2}
          && (!a.done ==> a.phase == s.phase)
          && (a.done ==> if s.phase == 1 then !s.spec.HasFollowUp() else a.phase2Completed)
          && (s.phase == 2 ==> a.phase1Completed))
    && (a.phase2Completed ==> a.done) && (a.done ==> a.phase1Completed)
    && a.phase == (if a.phase1Completed then 2 else 1)
  }

  /** The agent's state agrees with the session the log prescribes for the task, if there is one, and its reward is
      0.7 for a completed Phase 1 plus 0.3 for a completed Phase 2. */
  ghost predicate InStep(a: Agent, sessions: map<string, Session>, task: string)
  {
    PhasesAgree(a, sessions, task) && a.reward == a.Worth()
  }

  lemma OneEntryKeepsPhases(a: Agent, sessions: map<string, Session>, e: Entry, task: string)
    requires PhasesAgree(a, sessions, task) && Shaped(sessions, e)
    requires e.request.InitTask? ==> e.request.spec.mode.AInteract?
    requires e.request.task == task ==> !e.request.InitTask?
    ensures var a' := if e.request.Submit? && e.request.task == task then AfterSubmit(a, e.response) else a;
            PhasesAgree(a', TrackStep(sessions, e), task)
  {
  }

  lemma OneReplyPays(a: Agent, sessions: map<string, Session>, e: Entry)
    requires e.request.Submit? && PhasesAgree(a, sessions, e.request.task) && Shaped(sessions, e) && a.reward >= a.Worth()
    ensures var a' := AfterSubmit(a, e.response);
            && a'.reward >= a'.Worth()
            && (a'.reward == a'.Worth() <==> a.reward == a.Worth() && !(a.done && e.response.Verdict? && e.response.passed))
  {
  }

  lemma {:induction false} AgentFollows(log: seq<Entry>, task: string)
    requires ShapedLog(log)
    requires forall i :: 0 <= i < |log| && log[i].request.InitTask? ==> log[i].request.spec.mode.AInteract?
    ensures var replies := Replies(log, task);
            && PhasesAgree(AgentAfter(replies), Track(log), task)
            && AgentAfter(replies).reward >= AgentAfter(replies).Worth()
            && (AgentAfter(replies).reward == AgentAfter(replies).Worth() <==> !PaidAfterDone(replies))
    decreases |log|
  {
    if log != [] {
      var rest, e := log[..|log| - 1], log[|log| - 1];
      assert forall i :: 0 <= i < |rest| ==> rest[..i] == log[..i] && rest[i] == log[i];
      AgentFollows(rest, task);
      var replies := Replies(rest, task);
      if !(e.request.InitTask? && e.request.task == task) {
        OneEntryKeepsPhases(AgentAfter(replies), Track(rest), e, task);
      }
      if e.request.Submit? && e.request.task == task {
        OneReplyPays(AgentAfter(replies), Track(rest), e);
        assert Replies(log, task)[..|replies|] == replies;
      }
    }
  }

  /** Agent and server are in step if and only if no submission was accepted after the task was done. */
  lemma InStepExactly(log: seq<Entry>, task: string)
    requires ShapedLog(log)
    requires forall i :: 0 <= i < |log| && log[i].request.InitTask? ==> log[i].request.spec.mode.AInteract?
    ensures InStep(AgentAfter(Replies(log, task)), Track(log), task) <==> !PaidAfterDone(Replies(log, task))
  {
    AgentFollows(log, task);
  }
}
