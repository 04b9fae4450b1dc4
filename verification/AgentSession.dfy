/** The callbacks and the submit tool as updates of one session's state, key by key. */
module AgentSession {
  import opened Options
  import opened EvaluationServer
  import opened EvaluationRuns
  import opened Ledger
  import SessionRuns

  /** The state after an admitted tool has run: the trajectory grows and a submission updates the task flags. */
  function Ran(s: State, tool: Tool, before: int): State
  {
    s.(executed := s.executed + [Executed(tool, before)],
       agent := if tool.SubmitSql? then AfterSubmit(s.agent, tool.response) else s.agent)
  }

  class SessionState {
    var budgetRemaining: int
    var initialBudget: nat
    var modelTurns: nat
    var agent: Agent
    var trajectory: seq<Executed>
    var seenQuestions: set<string>
    var duplicateAsks: nat
    var audit: Option<Audit>

    /** The state the ledger functions speak about. */
    function View(): State
      reads this
    {
      State(budgetRemaining, initialBudget, modelTurns, agent, trajectory, seenQuestions, duplicateAsks, audit)
    }

    constructor (initial: nat)
      ensures View() == State(initial, initial, 0, FRESH_AGENT, [], {}, 0, None)
    {
      budgetRemaining, initialBudget, modelTurns := initial, initial, 0;
      agent, trajectory, seenQuestions, duplicateAsks, audit := FRESH_AGENT, [], {}, 0, None;
    }

    /** A deep copy of another session's state. */
    constructor CopyOf(other: SessionState)
      ensures View() == other.View()
    {
      budgetRemaining, initialBudget, modelTurns := other.budgetRemaining, other.initialBudget, other.modelTurns;
      agent, trajectory, seenQuestions := other.agent, other.trajectory, other.seenQuestions;
      duplicateAsks, audit := other.duplicateAsks, other.audit;
    }

    method BeforeModel() returns (proceed: bool)
      modifies this
      ensures (View(), proceed) == Gate(old(View()))
    {
      modelTurns := modelTurns + 1;
      if modelTurns > MAX_MODEL_TURNS {
        return false;
      }
      if agent.done {
        return false;
      }
      return budgetRemaining >= 0;
    }

    /** Whether the tool may run; the budget is charged in advance. */
    method BeforeTool(tool: Tool) returns (allowed: bool)
      modifies this`budgetRemaining
      ensures Call(old(View()), tool) == if allowed then Ran(View(), tool, old(budgetRemaining)) else View()
    {
      var price := tool.Cost();
      if price == None {
        return true;
      }
      if budgetRemaining < price.value {
        if tool.SubmitSql? {
          budgetRemaining := -1;
          return true;
        }
        return false;
      }
      var remaining := budgetRemaining - price.value;
      if tool.SubmitSql? && remaining <= 0 {
        remaining := -1;
      }
      budgetRemaining := remaining;
      return true;
    }

    /** The fallback's guard in front of the same callback. */
    method FallbackBeforeTool(digest: QuestionDigest, tool: Tool) returns (allowed: bool)
      modifies this`budgetRemaining, this`seenQuestions, this`duplicateAsks
      ensures FallbackCall(digest, old(View()), tool)
              == if allowed then Ran(View(), tool, old(budgetRemaining)) else View()
    {
      if tool.AskUser? && tool.question.Some? {
        var d := digest(tool.question.value);
        if d in seenQuestions {
          duplicateAsks := duplicateAsks + 1;
          return false;
        }
        seenQuestions := seenQuestions + {d};
      }
      allowed := BeforeTool(tool);
    }

    /** Runs an admitted tool, key by key. */
    method Execute(tool: Tool, before: int)
      modifies this`trajectory, this`agent
      ensures View() == Ran(old(View()), tool, before)
    {
      trajectory := trajectory + [Executed(tool, before)];
      if tool.SubmitSql? && tool.response.Verdict? && tool.response.passed {
        var r := tool.response;
        agent := agent.(reward := agent.reward + r.reward);
        if r.phaseCompleted == 1 {
          agent := agent.(phase1Completed := true, phase := 2);
          if !r.hasFollowUp {
            agent := agent.(done := true);
          }
        } else if r.phaseCompleted == 2 {
          agent := agent.(phase2Completed := true, done := true);
        }
      }
    }

    method CallTool(mode: Mode, tool: Tool)
      modifies this
      ensures View() == CallIn(mode, old(View()), tool)
    {
      var before := budgetRemaining;
      var allowed;
      if mode.Primary? {
        allowed := BeforeTool(tool);
      } else {
        allowed := FallbackBeforeTool(mode.digest, tool);
      }
      if allowed {
        Execute(tool, before);
      }
    }

    method TakeTurn(mode: Mode, tools: seq<Tool>)
      modifies this
      ensures View() == Turn(mode, old(View()), tools)
    {
      var proceed := BeforeModel();
      if proceed {
        var start := View();
        for i := 0 to |tools|
          invariant View() == Calls(mode, start, tools[..i])
        {
          assert tools[..i + 1][..i] == tools[..i];
          CallTool(mode, tools[i]);
        }
        assert tools[..|tools|] == tools;
      }
    }

    method RunTurns(mode: Mode, turns: seq<seq<Tool>>)
      modifies this
      ensures View() == Run(mode, old(View()), turns)
    {
      var start := View();
      for i := 0 to |turns|
        invariant View() == Run(mode, start, turns[..i])
      {
        assert turns[..i + 1][..i] == turns[..i];
        TakeTurn(mode, turns[i]);
      }
      assert turns[..|turns|] == turns;
    }

    /** Marks a copied state as the start of the one fallback. */
    method MarkFallback(digest: QuestionDigest, answered: set<string>)
      modifies this
      ensures View() == StartFallback(digest, old(View()), answered)
    {
      seenQuestions := set q | q in answered :: digest(q);
      audit := Some(Audit(true, "started", agent.phase1Completed));
    }

    method Finish(failed: bool)
      modifies this`audit
      ensures View() == FinishFallback(old(View()), failed)
    {
      var a := if audit.Some? then audit.value else Audit(false, "", false);
      if failed {
        a := a.(status := "fallback_error");
      } else if agent.done {
        a := a.(status := "task_rescued");
      } else if agent.phase1Completed && !a.phase1Before {
        a := a.(status := "phase1_rescued_only");
      } else {
        a := a.(status := "not_rescued");
      }
      audit := Some(a);
    }
  }

  /** A whole session: the primary run, then at most one fallback on a copy of its state; the state the primary run
      left is kept. */
  method RunSession(c: SessionRuns.Script, initial: nat) returns (primary: SessionState, last: SessionState)
    ensures fresh(primary) && fresh(last) && last.View() == SessionRuns.Session(c, initial)
    ensures primary.View() == Run(Primary, SessionRuns.Opening(initial), c.primary)
    ensures primary == last <==> !SessionRuns.FallsBack(c, initial)
  {
    primary := new SessionState(initial);
    primary.RunTurns(Primary, c.primary);
    last := primary;
    if FallbackEligibility(c.enabled, primary.View()).Eligible? {
      last := new SessionState.CopyOf(primary);
      last.MarkFallback(c.digest, c.answered);
      last.RunTurns(Fallback(c.digest), c.fallback);
      last.Finish(c.failed);
    }
  }
}
