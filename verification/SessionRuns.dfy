/** Whole agent sessions: a primary run, then at most one fallback that inherits the entire state
    (valibra_agent/fallback/ainteract_fallback.py). */
module SessionRuns {
  import opened Options
  import opened EvaluationServer
  import opened EvaluationRuns
  import opened Ledger
  import Grader
  import DatabaseNames
  import SqlEngine
  import Text

  /** A session: the primary turns and, when the terminal checkpoint allows it, one fallback. `answered` are the
      questions of the answered clarifications found in the primary session's state. */
  datatype Script = Script(
    primary: seq<seq<Tool>>,
    enabled: bool,
    digest: QuestionDigest,
    answered: set<string>,
    fallback: seq<seq<Tool>>,
    failed: bool)
  {
    predicate OneCallEachTurn()
    {
      OneCallEach(primary) && OneCallEach(fallback)
    }
  }

  function Opening(initial: nat): State
  {
    State(initial, initial, 0, FRESH_AGENT, [], {}, 0, None)
  }

  function Handover(c: Script, initial: nat): State
  {
    StartFallback(c.digest, Run(Primary, Opening(initial), c.primary), c.answered)
  }

  predicate FallsBack(c: Script, initial: nat)
  {
    FallbackEligibility(c.enabled, Run(Primary, Opening(initial), c.primary)).Eligible?
  }

  function Session(c: Script, initial: nat): State
  {
    if FallsBack(c, initial) then FinishFallback(Run(Fallback(c.digest), Handover(c, initial), c.fallback), c.failed)
    else Run(Primary, Opening(initial), c.primary)
  }

  /** Turns the gate admits. */
  function Admitted(mode: Mode, s: State, turns: seq<seq<Tool>>): nat
    decreases |turns|
  {
    if turns == [] then 0
    else
      var before := turns[..|turns| - 1];
      Admitted(mode, s, before) + (if Gate(Run(mode, s, before)).1 then 1 else 0)
  }

  /** Turns admitted over a whole session. */
  function AdmittedInSession(c: Script, initial: nat): nat
  {
    Admitted(Primary, Opening(initial), c.primary)
    + (if FallsBack(c, initial) then Admitted(Fallback(c.digest), Handover(c, initial), c.fallback) else 0)
  }

  // ----- the ledger over a session

  /** The ledger over a whole session with one tool call per turn: the budget stands at -1 or within 0..initial,
      at most one submission was free, the nominal cost is at most the initial budget plus one submission, and
      nothing ran after the sentinel. */
  lemma SessionKeepsBooks(c: Script, initial: nat)
    requires c.OneCallEachTurn()
    ensures BooksOk(Session(c, initial)) && Session(c, initial).initial == initial
    ensures Session(c, initial).budget <= Run(Primary, Opening(initial), c.primary).budget
  {
    var s := Opening(initial);
    BooksBalanceExactly(Primary, s, c.primary);
    OneCallEachIsOrderly(Primary, s, c.primary);
    BudgetNeverIncreasesInRun(Primary, s, c.primary);
    if FallsBack(c, initial) {
      var h := Handover(c, initial);
      assert BooksOk(h) by { assert h.executed == Run(Primary, s, c.primary).executed; }
      BooksBalanceExactly(Fallback(c.digest), h, c.fallback);
      OneCallEachIsOrderly(Fallback(c.digest), h, c.fallback);
      BudgetNeverIncreasesInRun(Fallback(c.digest), h, c.fallback);
      assert Session(c, initial).executed == Run(Fallback(c.digest), h, c.fallback).executed;
    }
  }

  lemma {:induction false} CallsKeepTheRest(mode: Mode, s: State, tools: seq<Tool>)
    ensures var t := Calls(mode, s, tools); t.modelTurns == s.modelTurns && t.audit == s.audit
    decreases |tools|
  {
    if tools != [] {
      CallsKeepTheRest(mode, s, tools[..|tools| - 1]);
    }
  }

  lemma {:induction false} TurnsAreCounted(mode: Mode, s: State, turns: seq<seq<Tool>>)
    ensures var t := Run(mode, s, turns); t.modelTurns == s.modelTurns + |turns| && t.audit == s.audit
    decreases |turns|
  {
    if turns != [] {
      var before := turns[..|turns| - 1];
      TurnsAreCounted(mode, s, before);
      CallsKeepTheRest(mode, Gate(Run(mode, s, before)).0, turns[|turns| - 1]);
    }
  }

  lemma {:induction false} AdmittedIsCapped(mode: Mode, s: State, turns: seq<seq<Tool>>)
    ensures Admitted(mode, s, turns) <= |turns|
    ensures Admitted(mode, s, turns) + s.modelTurns <= MAX_MODEL_TURNS || Admitted(mode, s, turns) == 0
    decreases |turns|
  {
    if turns != [] {
      var before := turns[..|turns| - 1];
      AdmittedIsCapped(mode, s, before);
      TurnsAreCounted(mode, s, before);
    }
  }

  /** The fallback inherits the turn counter: a session never has more than sixty admitted turns, however many
      calls each turn makes. */
  lemma SessionTurnsAreCapped(c: Script, initial: nat)
    ensures AdmittedInSession(c, initial) <= MAX_MODEL_TURNS
  {
    AdmittedIsCapped(Primary, Opening(initial), c.primary);
    TurnsAreCounted(Primary, Opening(initial), c.primary);
    AdmittedIsCapped(Fallback(c.digest), Handover(c, initial), c.fallback);
  }

  /** The fallback is one-way: a session that fell back is never eligible again. */
  lemma FallbackIsOneWay(c: Script, initial: nat, enabled: bool)
    requires FallsBack(c, initial)
    ensures !FallbackEligibility(enabled, Session(c, initial)).Eligible?
    ensures !FallbackEligibility(enabled, Run(Fallback(c.digest), Handover(c, initial), c.fallback)).Eligible?
  {
    TurnsAreCounted(Fallback(c.digest), Handover(c, initial), c.fallback);
  }

  // ----- when a session falls back

  lemma {:induction false} AgentKeepsPhase(mode: Mode, s: State, tools: seq<Tool>)
    requires s.agent.phase in {1, 2}
    ensures Calls(mode, s, tools).agent.phase in {1, 2}
    decreases |tools|
  {
    if tools != [] {
      AgentKeepsPhase(mode, s, tools[..|tools| - 1]);
      ExecutedGrows(mode, Calls(mode, s, tools[..|tools| - 1]), tools[|tools| - 1]);
    }
  }

  lemma {:induction false} RunKeepsPhase(mode: Mode, s: State, turns: seq<seq<Tool>>)
    requires s.agent.phase in {1, 2}
    ensures Run(mode, s, turns).agent.phase in {1, 2}
    decreases |turns|
  {
    if turns != [] {
      RunKeepsPhase(mode, s, turns[..|turns| - 1]);
      AgentKeepsPhase(mode, Gate(Run(mode, s, turns[..|turns| - 1])).0, turns[|turns| - 1]);
    }
  }

  /** What the primary run ends with. */
  function PrimaryEnd(c: Script, initial: nat): State
  {
    Run(Primary, Opening(initial), c.primary)
  }

  /** A session is handed over exactly when the fallback is enabled, the task is still open and three coins are left,
      the price of one submission; and then the fallback runs on everything inherited, with the answered questions
      seen. Otherwise it ends as its primary run. */
  lemma SessionHandsOverExactly(c: Script, initial: nat)
    ensures var end, s := PrimaryEnd(c, initial), Session(c, initial);
            if c.enabled && !end.agent.done && end.budget >= 6 then
              && s.audit.Some? && s.audit.value.attempted
              && (exists handed: State ::
                    && handed.budget == end.budget && handed.initial == end.initial && handed.modelTurns == end.modelTurns
                    && handed.agent == end.agent && handed.executed == end.executed && handed.blocked == end.blocked
                    && handed.seen == (set q | q in c.answered :: c.digest(q))
                    && s.executed == Run(Fallback(c.digest), handed, c.fallback).executed
                    && s.agent == Run(Fallback(c.digest), handed, c.fallback).agent
                    && s.budget == Run(Fallback(c.digest), handed, c.fallback).budget)
            else s == end && s.audit.None?
  {
    var h := Handover(c, initial);
    RunKeepsPhase(Primary, Opening(initial), c.primary);
    TurnsAreCounted(Primary, Opening(initial), c.primary);
    TurnsAreCounted(Fallback(c.digest), h, c.fallback);
    var end := PrimaryEnd(c, initial);
    assert h.budget == end.budget && h.initial == end.initial && h.modelTurns == end.modelTurns
           && h.agent == end.agent && h.executed == end.executed && h.blocked == end.blocked;
  }

  lemma {:induction false} CallsOnlyAppend(mode: Mode, s: State, tools: seq<Tool>)
    ensures s.executed <= Calls(mode, s, tools).executed
    decreases |tools|
  {
    if tools != [] {
      CallsOnlyAppend(mode, s, tools[..|tools| - 1]);
      ExecutedGrows(mode, Calls(mode, s, tools[..|tools| - 1]), tools[|tools| - 1]);
    }
  }

  lemma {:induction false} LaterTurnsOnlyAppend(mode: Mode, s: State, turns: seq<seq<Tool>>, k: nat)
    requires k <= |turns|
    ensures Run(mode, s, turns[..k]).executed <= Run(mode, s, turns).executed
    decreases |turns|
  {
    if k == |turns| {
      assert turns[..k] == turns;
    } else {
      var before := turns[..|turns| - 1];
      LaterTurnsOnlyAppend(mode, s, before, k);
      assert before[..k] == turns[..k];
      CallsOnlyAppend(mode, Gate(Run(mode, s, before)).0, turns[|turns| - 1]);
    }
  }

  /** The first turn of a fallback, when it is one submission and the turn is admitted. */
  lemma FirstTurnSubmits(c: Script, initial: nat, sql: string, response: Response)
    requires FallsBack(c, initial) && PrimaryEnd(c, initial).modelTurns < 60
    requires c.fallback != [] && c.fallback[0] == [SubmitSql(sql, response)]
    ensures var end, t := PrimaryEnd(c, initial), Run(Fallback(c.digest), Handover(c, initial), c.fallback[..1]);
            && t.executed == end.executed + [Executed(SubmitSql(sql, response), end.budget)]
            && t.budget == if end.budget == 6 then -1 else end.budget - 6
  {
    var h, turns, tools := Handover(c, initial), c.fallback[..1], c.fallback[0];
    assert turns == [tools] && turns[..0] == [] && tools[..0] == [];
    assert Calls(Fallback(c.digest), Gate(h).0, tools) == Call(Gate(h).0, tools[0]);
  }

  /** A session that is handed over can pay: a submission in the first turn of the fallback is charged in full and is
      not a free one, whatever follows. */
  lemma HandedOverCanPay(c: Script, initial: nat, sql: string, response: Response)
    requires FallsBack(c, initial) && PrimaryEnd(c, initial).modelTurns < 60
    requires c.fallback != [] && c.fallback[0] == [SubmitSql(sql, response)]
    ensures var end, s := PrimaryEnd(c, initial), Session(c, initial);
            && |end.executed| < |s.executed|
            && s.executed[|end.executed|] == Executed(SubmitSql(sql, response), end.budget)
            && end.budget >= 6 && !IsFree(s.executed[|end.executed|])
            && s.budget <= end.budget - 6
  {
    var h, mode := Handover(c, initial), Fallback(c.digest);
    FirstTurnSubmits(c, initial, sql, response);
    LaterTurnsOnlyAppend(mode, h, c.fallback, 1);
    assert Session(c, initial).executed == Run(mode, h, c.fallback).executed;
    BudgetNeverIncreasesInRun(Primary, Opening(initial), c.primary);
    LaterTurnsNeverPayBack(mode, h, c.fallback, 1);
  }

  lemma {:induction false} LaterTurnsNeverPayBack(mode: Mode, s: State, turns: seq<seq<Tool>>, k: nat)
    requires k <= |turns| && BudgetOk(s)
    ensures Run(mode, s, turns).budget <= Run(mode, s, turns[..k]).budget
    decreases |turns|
  {
    if k == |turns| {
      assert turns[..k] == turns;
    } else {
      var before := turns[..|turns| - 1];
      LaterTurnsNeverPayBack(mode, s, before, k);
      assert before[..k] == turns[..k];
      BudgetNeverIncreasesInRun(mode, s, before);
      BudgetNeverIncreases(mode, Gate(Run(mode, s, before)).0, turns[|turns| - 1]);
    }
  }

  // ----- questions

  /** The questions that reached the user from position `from` on. */
  predicate Delivers(es: seq<Executed>, from: nat, k: nat)
  {
    from <= k < |es| && es[k].tool.AskUser? && es[k].tool.question.Some?
  }

  /** Delivered questions have distinct digests, none inherited, all remembered. */
  ghost predicate AskedOnce(digest: QuestionDigest, inherited: set<string>, from: nat, s: State)
  {
    && inherited <= s.seen
    && from <= |s.executed|
    && (forall k: nat :: Delivers(s.executed, from, k) ==>
          digest(s.executed[k].tool.question.value) in s.seen - inherited)
    && (forall j: nat, k: nat :: j < k && Delivers(s.executed, from, j) && Delivers(s.executed, from, k) ==>
          digest(s.executed[j].tool.question.value) != digest(s.executed[k].tool.question.value))
  }

  lemma CallAsksOnce(digest: QuestionDigest, inherited: set<string>, from: nat, s: State, tool: Tool)
    requires AskedOnce(digest, inherited, from, s)
    ensures AskedOnce(digest, inherited, from, FallbackCall(digest, s, tool))
  {
    var u := FallbackCall(digest, s, tool);
    ExecutedGrows(Fallback(digest), s, tool);
    assert s.seen <= u.seen;
    forall k: nat | Delivers(u.executed, from, k)
      ensures digest(u.executed[k].tool.question.value) in u.seen - inherited
      ensures k < |s.executed| ==> Delivers(s.executed, from, k)
      ensures k == |s.executed| ==> digest(u.executed[k].tool.question.value) !in s.seen
    {
      assert k < |s.executed| ==> u.executed[k] == s.executed[k] && Delivers(s.executed, from, k);
    }
  }

  lemma {:induction false} TurnAsksOnce(digest: QuestionDigest, inherited: set<string>, from: nat, s: State, tools: seq<Tool>)
    requires AskedOnce(digest, inherited, from, s)
    ensures AskedOnce(digest, inherited, from, Calls(Fallback(digest), s, tools))
    decreases |tools|
  {
    if tools != [] {
      var before := tools[..|tools| - 1];
      TurnAsksOnce(digest, inherited, from, s, before);
      CallAsksOnce(digest, inherited, from, Calls(Fallback(digest), s, before), tools[|tools| - 1]);
    }
  }

  lemma {:induction false} RunAsksOnce(digest: QuestionDigest, inherited: set<string>, from: nat, s: State,
                                       turns: seq<seq<Tool>>)
    requires AskedOnce(digest, inherited, from, s)
    ensures AskedOnce(digest, inherited, from, Run(Fallback(digest), s, turns))
    decreases |turns|
  {
    if turns != [] {
      var before := turns[..|turns| - 1];
      RunAsksOnce(digest, inherited, from, s, before);
      var counted := Gate(Run(Fallback(digest), s, before)).0;
      assert AskedOnce(digest, inherited, from, counted) by {
        assert counted.executed == Run(Fallback(digest), s, before).executed;
      }
      TurnAsksOnce(digest, inherited, from, counted, turns[|turns| - 1]);
    }
  }

  /** The fallback never delivers a question twice, nor one already answered, even when a turn asks several. */
  lemma FallbackNeverAsksTwice(c: Script, initial: nat)
    requires FallsBack(c, initial)
    ensures AskedOnce(c.digest, set q | q in c.answered :: c.digest(q), |Handover(c, initial).executed|, Session(c, initial))
  {
    var h := Handover(c, initial);
    RunAsksOnce(c.digest, h.seen, |h.executed|, h, c.fallback);
    assert Session(c, initial).executed == Run(Fallback(c.digest), h, c.fallback).executed;
  }

  // ----- agent and server stay in step

  /** The replies to the executed submissions. */
  function Answers(es: seq<Executed>): seq<Response>
  {
    if es == [] then []
    else
      var tool := es[|es| - 1].tool;
      Answers(es[..|es| - 1]) + (if tool.SubmitSql? then [tool.response] else [])
  }

  lemma AnswersGrow(es: seq<Executed>, e: Executed)
    ensures Answers(es + [e]) == Answers(es) + (if e.tool.SubmitSql? then [e.tool.response] else [])
  {
    assert (es + [e])[..|es|] == es;
  }

  /** The agent's flags are those the replies to its submissions imply. */
  predicate Follows(s: State)
  {
    s.agent == AgentAfter(Answers(s.executed))
  }

  lemma CallFollows(mode: Mode, s: State, tool: Tool)
    requires Follows(s)
    ensures Follows(CallIn(mode, s, tool))
  {
    var u := CallIn(mode, s, tool);
    ExecutedGrows(mode, s, tool);
    if u.executed != s.executed {
      AnswersGrow(s.executed, Executed(tool, s.budget));
      if tool.SubmitSql? {
        OneReplyMore(Answers(s.executed), tool.response);
      } else {
        assert Answers(u.executed) == Answers(s.executed);
      }
    }
  }

  lemma {:induction false} CallsFollow(mode: Mode, s: State, tools: seq<Tool>)
    requires Follows(s)
    ensures Follows(Calls(mode, s, tools))
    decreases |tools|
  {
    if tools != [] {
      CallsFollow(mode, s, tools[..|tools| - 1]);
      CallFollows(mode, Calls(mode, s, tools[..|tools| - 1]), tools[|tools| - 1]);
    }
  }

  lemma {:induction false} RunFollows(mode: Mode, s: State, turns: seq<seq<Tool>>)
    requires Follows(s)
    ensures Follows(Run(mode, s, turns))
    decreases |turns|
  {
    if turns != [] {
      var t := Run(mode, s, turns[..|turns| - 1]);
      RunFollows(mode, s, turns[..|turns| - 1]);
      assert Follows(Gate(t).0) by { assert Gate(t).0.executed == t.executed; }
      CallsFollow(mode, Gate(t).0, turns[|turns| - 1]);
    }
  }

  lemma SessionFollows(c: Script, initial: nat)
    ensures Follows(Session(c, initial))
  {
    RunFollows(Primary, Opening(initial), c.primary);
    if FallsBack(c, initial) {
      var h := Handover(c, initial);
      assert Follows(h) by { assert h.executed == Run(Primary, Opening(initial), c.primary).executed; }
      RunFollows(Fallback(c.digest), h, c.fallback);
      assert Session(c, initial).executed == Run(Fallback(c.digest), h, c.fallback).executed;
    }
  }

  /** A log of the service that answers the session's submissions, in order, since the task was last initialised. */
  ghost predicate Answering(log: seq<Entry>, task: string, s: State)
  {
    && ShapedLog(log)
    && (forall i :: 0 <= i < |log| && log[i].request.InitTask? ==> log[i].request.spec.mode.AInteract?)
    && Replies(log, task) == Answers(s.executed)
  }

  /** Whatever calls the turns of a session make: it ends in step with the server if and only if no submission was
      accepted after the task was done. */
  lemma SessionInStepExactly(c: Script, initial: nat, log: seq<Entry>, task: string)
    requires Answering(log, task, Session(c, initial))
    ensures InStep(Session(c, initial).agent, Track(log), task) <==> !PaidAfterDone(Answers(Session(c, initial).executed))
  {
    SessionFollows(c, initial);
    InStepExactly(log, task);
  }

  // ----- the turn gate

  lemma TurnStops(mode: Mode, s: State, tools: seq<Tool>)
    requires Follows(s) && StopsWhenDone(Answers(s.executed)) && |tools| <= 1
    ensures StopsWhenDone(Answers(Turn(mode, s, tools).executed))
  {
    var g := Gate(s);
    if g.1 && tools != [] {
      var tool := tools[0];
      assert tools[..0] == [];
      assert Calls(mode, g.0, tools) == CallIn(mode, g.0, tool);
      ExecutedGrows(mode, g.0, tool);
      AnswersGrow(s.executed, Executed(tool, s.budget));
      if tool.SubmitSql? {
        OneReplyMore(Answers(s.executed), tool.response);
      } else {
        assert Answers(s.executed + [Executed(tool, s.budget)]) == Answers(s.executed);
      }
    } else {
      assert Turn(mode, s, tools).executed == s.executed;
    }
  }

  lemma {:induction false} RunStops(mode: Mode, s: State, turns: seq<seq<Tool>>)
    requires Follows(s) && StopsWhenDone(Answers(s.executed)) && OneCallEach(turns)
    ensures StopsWhenDone(Answers(Run(mode, s, turns).executed))
    decreases |turns|
  {
    if turns != [] {
      var before := turns[..|turns| - 1];
      RunStops(mode, s, before);
      RunFollows(mode, s, before);
      TurnStops(mode, Run(mode, s, before), turns[|turns| - 1]);
    }
  }

  /** The turn gate, with one call per turn and across the handover: the agent never submits once its task is done. */
  lemma SessionStopsWhenDone(c: Script, initial: nat)
    requires c.OneCallEachTurn()
    ensures StopsWhenDone(Answers(Session(c, initial).executed))
  {
    var s := Opening(initial);
    RunStops(Primary, s, c.primary);
    if FallsBack(c, initial) {
      var h := Handover(c, initial);
      assert h.executed == Run(Primary, s, c.primary).executed;
      RunFollows(Primary, s, c.primary);
      RunStops(Fallback(c.digest), h, c.fallback);
      assert Session(c, initial).executed == Run(Fallback(c.digest), h, c.fallback).executed;
    }
  }

  /** With one call per turn a session ends in step with the server that answered it. */
  lemma SessionStaysInStep(c: Script, initial: nat, log: seq<Entry>, task: string)
    requires c.OneCallEachTurn() && Answering(log, task, Session(c, initial))
    ensures InStep(Session(c, initial).agent, Track(log), task)
  {
    SessionStopsWhenDone(c, initial);
    StoppingIsNotPaid(Answers(Session(c, initial).executed));
    SessionInStepExactly(c, initial, log, task);
  }

  // ----- two submissions in one turn

  const SHORT_TASK := Grader.TaskSpec("d", [], [], Grader.Case(["SELECT 1"], true, [], false), None, Grader.AInteract)
  const PASS := Verdict(true, 7, 1, false)

  function TwiceInOneTurn(digest: QuestionDigest): Script
  {
    Script([[SubmitSql("SELECT 1", PASS), SubmitSql("SELECT 1", PASS)]], false, digest, {}, [], false)
  }

  function TwiceOnTheServer(): seq<Entry>
  {
    var pass := Entry(Submit("t", "SELECT 1"), PASS, Grader.NO_FAULTS, None);
    [Entry(InitTask("t", SHORT_TASK), Initialised, Grader.NO_FAULTS, None), pass, pass]
  }

  /** A calm service whose every comparison agrees. */
  function AgreeingWorld(digest: DatabaseNames.Digest): World
  {
    World(Grader.AgreeingEngine(), digest, {("d", "t")}, map["d_template" := SqlEngine.Relations(map[])])
  }

  lemma AgreeingVerdict(w: World)
    requires w == AgreeingWorld(w.digest) && w.Knows(SHORT_TASK)
    ensures w.GradeFor(SHORT_TASK, 1, "", "SELECT 1", Grader.NO_FAULTS)
  {
    var e, l := w.engine, ["SELECT 1"];
    assert !Text.IsSpace(l[0][0]);
    assert !Text.IsBlank(l[0]);
    assert l[1..] == [];
    assert forall db: SqlEngine.Db :: SqlEngine.ExecuteFrom(e, db, l, None, SqlEngine.Calm) == SqlEngine.Execution(db, SqlEngine.Finished(Some([[]])));
  }

  /** What the log says before each of its entries. */
  lemma TwiceOnTheServerIsTracked(log: seq<Entry>)
    requires log == TwiceOnTheServer()
    ensures Track(log[..0]) == map[] && Replies(log, "t") == [PASS, PASS]
    ensures Track(log[..1]) == map["t" := EvaluationRuns.Session(SHORT_TASK, 1, "", 0)]
    ensures Track(log[..2]) == map["t" := EvaluationRuns.Session(SHORT_TASK, 1, "", 1)]
  {
    var a, b := log[..1], log[..2];
    assert a[..0] == [] && b[..1] == a && log[..2] == b;
    assert Track(a) == TrackStep(Track([]), log[0]);
    assert Track(b) == TrackStep(Track(a), log[1]);
    assert Replies(a, "t") == [];
    assert Replies(b, "t") == [] + [PASS];
    assert Replies(log, "t") == [PASS] + [PASS];
  }

  lemma ServerPaysTwice(digest: DatabaseNames.Digest)
    ensures FaithfulLog(AgreeingWorld(digest), true, TwiceOnTheServer())
    ensures ShapedLog(TwiceOnTheServer())
  {
    var w, log := AgreeingWorld(digest), TwiceOnTheServer();
    TwiceOnTheServerIsTracked(log);
    assert DatabaseNames.TemplateName("d") == "d_template";
    assert Faithful(w, true, Track(log[..0]), log[0]);
    AgreeingVerdict(w);
    assert Faithful(w, true, Track(log[..1]), log[1]);
  }

  lemma AgentSubmitsTwice(digest: QuestionDigest)
    ensures var s := Session(TwiceInOneTurn(digest), 20);
            Answers(s.executed) == [PASS, PASS] && s.agent.reward == 14
  {
    var s, submit := Opening(20), SubmitSql("SELECT 1", PASS);
    var turns, tools, counted := [[submit, submit]], [submit, submit], Gate(Opening(20)).0;
    var e0, e1 := Executed(submit, 20), Executed(submit, 14);
    assert tools[..1] == [submit] && [submit][..0] == [];
    assert Calls(Primary, counted, [submit]) == Call(counted, submit);
    assert Calls(Primary, counted, tools).executed == [e0, e1];
    assert turns[..0] == [];
    assert Run(Primary, s, turns) == Turn(Primary, Run(Primary, s, []), tools);
    AnswersGrow([], e0);
    AnswersGrow([e0], e1);
    assert [e0] + [e1] == [e0, e1] && [] + [e0] == [e0];
  }

  /** "Agent and server stay in step" fails when one admitted turn submits twice: the service accepts a task without
      follow-up twice, by the stateless judge's own answer, and the agent books the reward twice. */
  lemma TwoSubmitsInOneTurnArePaidTwice(questions: QuestionDigest, names: DatabaseNames.Digest)
    ensures var s, log := Session(TwiceInOneTurn(questions), 20), TwiceOnTheServer();
            && FaithfulLog(AgreeingWorld(names), true, log) && Answering(log, "t", s)
            && s.agent.reward == 14 && !InStep(s.agent, Track(log), "t")
  {
    TwiceOnTheServerIsTracked(TwiceOnTheServer());
    ServerPaysTwice(names);
    AgentSubmitsTwice(questions);
  }
}
