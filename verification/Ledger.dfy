/** The bird-coin ledger, the turn gate and the one-way fallback (system_agent/callbacks.py,
    valibra_agent/fallback/ainteract_fallback.py), as functions of the session state.
    Amounts are in half-coins. */
module Ledger {
  import opened Options
  import opened EvaluationServer
  import opened EvaluationRuns

  const MAX_MODEL_TURNS: nat := 60
  const SUBMIT_COST: nat := 6

  datatype Tool =
    | ExecuteSql | GetSchema | GetAllColumnMeanings | GetColumnMeaning | GetKnowledgeNames
    | GetKnowledgeDefinition | GetAllKnowledgeDefinitions
    | AskUser(question: Option<string>)
    | SubmitSql(sql: string, response: Response)
    | Unpriced
  {
    function Cost(): Option<nat>
    {
      match this
      case ExecuteSql | GetSchema | GetAllColumnMeanings | GetAllKnowledgeDefinitions => Some(2)
      case GetColumnMeaning | GetKnowledgeNames | GetKnowledgeDefinition => Some(1)
      case AskUser(_) => Some(4)
      case SubmitSql(_, _) => Some(SUBMIT_COST)
      case Unpriced => None
    }

    /** The nominal price the trajectory records. */
    function Nominal(): nat
    {
      if Cost().Some? then Cost().value else 0
    }
  }

  /** The price list, in half-coins: looking costs half a coin or one, asking two, submitting three. */
  lemma PriceList(tool: Tool)
    ensures tool in {GetColumnMeaning, GetKnowledgeNames, GetKnowledgeDefinition} ==> tool.Cost() == Some(1)
    ensures tool in {ExecuteSql, GetSchema, GetAllColumnMeanings, GetAllKnowledgeDefinitions} ==> tool.Cost() == Some(2)
    ensures tool.AskUser? ==> tool.Cost() == Some(4)
    ensures tool.SubmitSql? ==> tool.Cost() == Some(6)
    ensures tool.Unpriced? ==> tool.Cost() == None
  {
  }

  /** One executed tool call, with the budget found before it. */
  datatype Executed = Executed(tool: Tool, before: int)

  datatype Audit = Audit(attempted: bool, status: string, phase1Before: bool)

  datatype State = State(
    budget: int,
    initial: nat,
    modelTurns: nat,
    agent: Agent,
    executed: seq<Executed>,
    seen: set<string>,
    blocked: nat,
    audit: Option<Audit>)

  /** The model-turn gate: the state with the turn counted, and whether the turn may proceed. */
  function Gate(s: State): (r: (State, bool))
  {
    var counted := s.(modelTurns := s.modelTurns + 1);
    (counted, counted.modelTurns <= MAX_MODEL_TURNS && !s.agent.done && s.budget >= 0)
  }

  /** Budget after a priced tool is allowed, or `None` when it is refused. */
  function Charge(budget: int, tool: Tool): Option<int>
    requires tool.Cost().Some?
  {
    var cost := tool.Cost().value;
    if budget < cost then (if tool.SubmitSql? then Some(-1) else None)
    else Some(if tool.SubmitSql? && budget - cost <= 0 then -1 else budget - cost)
  }

  /** A tool call through the baseline callbacks. A submission's verdict updates the agent's flags. */
  function Call(s: State, tool: Tool): State
  {
    if tool.Cost().None? then s.(executed := s.executed + [Executed(tool, s.budget)])
    else
      var after := Charge(s.budget, tool);
      if after.None? then s
      else s.(budget := after.value,
              executed := s.executed + [Executed(tool, s.budget)],
              agent := if tool.SubmitSql? then AfterSubmit(s.agent, tool.response) else s.agent)
  }

  /** The normalised question's digest. */
  type QuestionDigest = string -> string

  /** A tool call through the fallback's callbacks: a question already seen is blocked before any charge. */
  function FallbackCall(digest: QuestionDigest, s: State, tool: Tool): State
  {
    if tool.AskUser? && tool.question.Some? then
      var d := digest(tool.question.value);
      if d in s.seen then s.(blocked := s.blocked + 1) else Call(s.(seen := s.seen + {d}), tool)
    else Call(s, tool)
  }

  /** Which callbacks a session runs with. */
  datatype Mode = Primary | Fallback(digest: QuestionDigest)

  function CallIn(mode: Mode, s: State, tool: Tool): State
  {
    if mode.Primary? then Call(s, tool) else FallbackCall(mode.digest, s, tool)
  }

  function Calls(mode: Mode, s: State, tools: seq<Tool>): State
    decreases |tools|
  {
    if tools == [] then s else CallIn(mode, Calls(mode, s, tools[..|tools| - 1]), tools[|tools| - 1])
  }

  /** One model turn: the gate, then the tool calls the model made in it. */
  function Turn(mode: Mode, s: State, tools: seq<Tool>): State
  {
    if Gate(s).1 then Calls(mode, Gate(s).0, tools) else Gate(s).0
  }

  function Run(mode: Mode, s: State, turns: seq<seq<Tool>>): State
    decreases |turns|
  {
    if turns == [] then s else Turn(mode, Run(mode, s, turns[..|turns| - 1]), turns[|turns| - 1])
  }

  // ----- the fallback

  datatype Eligibility = Eligible | Disabled | AlreadyAttempted | TaskComplete | InvalidPhase | InsufficientBudget

  function FallbackEligibility(enabled: bool, s: State): Eligibility
  {
    if !enabled then Disabled
    else if s.audit.Some? && s.audit.value.attempted then AlreadyAttempted
    else if s.agent.done then TaskComplete
    else if s.agent.phase !in {1, 2} then InvalidPhase
    else if s.budget < SUBMIT_COST then InsufficientBudget
    else Eligible
  }

  /** The copied state the second agent starts from: everything is inherited, and every answered question is seen. */
  function StartFallback(digest: QuestionDigest, s: State, answered: set<string>): State
  {
    s.(seen := set q | q in answered :: digest(q), audit := Some(Audit(true, "started", s.agent.phase1Completed)))
  }

  function FinishFallback(s: State, failed: bool): State
  {
    var a := if s.audit.Some? then s.audit.value else Audit(false, "", false);
    var status := if failed then "fallback_error"
                  else if s.agent.done then "task_rescued"
                  else if s.agent.phase1Completed && !a.phase1Before then "phase1_rescued_only"
                  else "not_rescued";
    s.(audit := Some(a.(status := status)))
  }

  // ----- what every run keeps

  function Spent(es: seq<Executed>): nat
  {
    if es == [] then 0 else Spent(es[..|es| - 1]) + es[|es| - 1].tool.Nominal()
  }

  /** A submission that ran although the budget did not cover it. */
  predicate IsFree(e: Executed)
  {
    e.tool.SubmitSql? && e.before < SUBMIT_COST
  }

  function FreeSubmits(es: seq<Executed>): nat
  {
    if es == [] then 0 else FreeSubmits(es[..|es| - 1]) + (if IsFree(es[|es| - 1]) then 1 else 0)
  }

  /** Budget bounds, whatever calls a turn makes. */
  predicate BudgetOk(s: State)
  {
    s.budget == -1 || 0 <= s.budget <= s.initial
  }

  /** Some tool ran after the sentinel was set. */
  predicate Spoilt(s: State)
  {
    exists k :: 0 <= k < |s.executed| && s.executed[k].before < 0
  }

  /** While the budget stands, it is exactly what has not been spent and nothing was free; after the sentinel, at
      most one submission was free and the nominal cost exceeds the initial budget by at most its price. */
  predicate Balances(s: State)
  {
    if s.budget >= 0 then Spent(s.executed) == s.initial - s.budget && FreeSubmits(s.executed) == 0
    else Spent(s.executed) <= s.initial + SUBMIT_COST && FreeSubmits(s.executed) <= 1
  }

  predicate BooksOk(s: State)
  {
    BudgetOk(s) && Balances(s) && !Spoilt(s)
  }

  /** A question the fallback blocks never reaches the ledger. */
  predicate Blocked(mode: Mode, s: State, tool: Tool)
  {
    mode.Fallback? && tool.AskUser? && tool.question.Some? && mode.digest(tool.question.value) in s.seen
  }

  /** A call made before the sentinel is set, or one that will not run anyway. */
  predicate CallIsOrderly(mode: Mode, s: State, tool: Tool)
  {
    s.budget >= 0 || Blocked(mode, s, tool) || (tool.Cost().Some? && !tool.SubmitSql?)
  }

  predicate TurnIsOrderly(mode: Mode, s: State, tools: seq<Tool>)
    decreases |tools|
  {
    tools != [] ==>
      var before := tools[..|tools| - 1];
      TurnIsOrderly(mode, s, before) && CallIsOrderly(mode, Calls(mode, s, before), tools[|tools| - 1])
  }

  predicate RunIsOrderly(mode: Mode, s: State, turns: seq<seq<Tool>>)
    decreases |turns|
  {
    turns != [] ==>
      var before := turns[..|turns| - 1];
      && RunIsOrderly(mode, s, before)
      && (Gate(Run(mode, s, before)).1 ==> TurnIsOrderly(mode, Gate(Run(mode, s, before)).0, turns[|turns| - 1]))
  }

  lemma LastExecuted(es: seq<Executed>, e: Executed)
    ensures Spent(es + [e]) == Spent(es) + e.tool.Nominal()
    ensures FreeSubmits(es + [e]) == FreeSubmits(es) + (if IsFree(e) then 1 else 0)
  {
    assert (es + [e])[..|es|] == es;
  }

  lemma ExecutedGrows(mode: Mode, s: State, tool: Tool)
    ensures var u := CallIn(mode, s, tool);
            if u.executed == s.executed then u.agent == s.agent
            else && u.executed == s.executed + [Executed(tool, s.budget)]
                 && u.agent == if tool.SubmitSql? then AfterSubmit(s.agent, tool.response) else s.agent
  {
  }

  /** One more executed call, at the price the charge takes for it. */
  lemma ChargeKeepsBalance(s: State, tool: Tool, u: State)
    requires BooksOk(s) && s.budget >= 0 && tool.Cost().Some? && Charge(s.budget, tool) == Some(u.budget)
    requires u.executed == s.executed + [Executed(tool, s.budget)] && u.initial == s.initial
    ensures BudgetOk(u) && Balances(u)
  {
    LastExecuted(s.executed, Executed(tool, s.budget));
  }

  lemma FreeCallKeepsBalance(s: State, tool: Tool, u: State)
    requires BooksOk(s) && s.budget >= 0 && tool.Cost().None?
    requires u.executed == s.executed + [Executed(tool, s.budget)] && u.initial == s.initial && u.budget == s.budget
    ensures BudgetOk(u) && Balances(u)
  {
    LastExecuted(s.executed, Executed(tool, s.budget));
  }

  lemma NothingSpoilt(s: State, tool: Tool, u: State)
    requires !Spoilt(s) && s.budget >= 0 && u.executed == s.executed + [Executed(tool, s.budget)]
    ensures !Spoilt(u)
  {
    assert forall k :: 0 <= k < |s.executed| ==> u.executed[k] == s.executed[k];
  }

  lemma PlainCallKeepsBooks(s: State, tool: Tool)
    requires BooksOk(s) && (s.budget >= 0 || (tool.Cost().Some? && !tool.SubmitSql?))
    ensures BooksOk(Call(s, tool))
  {
    var u := Call(s, tool);
    if s.budget >= 0 && u != s {
      if tool.Cost().None? {
        FreeCallKeepsBalance(s, tool, u);
      } else {
        ChargeKeepsBalance(s, tool, u);
      }
      NothingSpoilt(s, tool, u);
    }
  }

  lemma OrderlyCallKeepsBooks(mode: Mode, s: State, tool: Tool)
    requires BooksOk(s) && CallIsOrderly(mode, s, tool)
    ensures BooksOk(CallIn(mode, s, tool))
  {
    if mode.Fallback? && tool.AskUser? && tool.question.Some? && !Blocked(mode, s, tool) {
      var remembered := s.(seen := s.seen + {mode.digest(tool.question.value)});
      assert BooksOk(remembered) by { assert remembered.executed == s.executed; }
      PlainCallKeepsBooks(remembered, tool);
    } else if !Blocked(mode, s, tool) {
      PlainCallKeepsBooks(s, tool);
    } else {
      assert CallIn(mode, s, tool).executed == s.executed;
    }
  }

  lemma DisorderlyCallSpoils(mode: Mode, s: State, tool: Tool)
    requires BudgetOk(s) && !CallIsOrderly(mode, s, tool)
    ensures Spoilt(CallIn(mode, s, tool))
  {
    assert CallIn(mode, s, tool).executed[|s.executed|].before == -1;
  }

  lemma SpoiltStays(mode: Mode, s: State, tool: Tool)
    requires Spoilt(s)
    ensures Spoilt(CallIn(mode, s, tool))
  {
    ExecutedGrows(mode, s, tool);
    var k :| 0 <= k < |s.executed| && s.executed[k].before < 0;
    assert CallIn(mode, s, tool).executed[k].before < 0;
  }

  /** The budget never increases and stays -1 or within 0..initial, for any calls in any turns. */
  lemma {:induction false} BudgetNeverIncreases(mode: Mode, s: State, tools: seq<Tool>)
    requires BudgetOk(s)
    ensures var t := Calls(mode, s, tools); BudgetOk(t) && t.budget <= s.budget && t.initial == s.initial
    decreases |tools|
  {
    if tools != [] {
      BudgetNeverIncreases(mode, s, tools[..|tools| - 1]);
    }
  }

  lemma {:induction false} BudgetNeverIncreasesInRun(mode: Mode, s: State, turns: seq<seq<Tool>>)
    requires BudgetOk(s)
    ensures var t := Run(mode, s, turns); BudgetOk(t) && t.budget <= s.budget && t.initial == s.initial
    decreases |turns|
  {
    if turns != [] {
      var t := Run(mode, s, turns[..|turns| - 1]);
      BudgetNeverIncreasesInRun(mode, s, turns[..|turns| - 1]);
      BudgetNeverIncreases(mode, Gate(t).0, turns[|turns| - 1]);
    }
  }

  /** Within a turn the books balance if and only if every call is orderly, and the only way for them to go wrong
      is a tool that runs after the sentinel. */
  lemma {:induction false} TurnKeepsBooks(mode: Mode, s: State, tools: seq<Tool>)
    requires BooksOk(s)
    ensures TurnIsOrderly(mode, s, tools) <==> BooksOk(Calls(mode, s, tools))
    ensures BooksOk(Calls(mode, s, tools)) || Spoilt(Calls(mode, s, tools))
    decreases |tools|
  {
    if tools != [] {
      var before, tool := tools[..|tools| - 1], tools[|tools| - 1];
      TurnKeepsBooks(mode, s, before);
      var t := Calls(mode, s, before);
      if !BooksOk(t) {
        SpoiltStays(mode, t, tool);
      } else if CallIsOrderly(mode, t, tool) {
        OrderlyCallKeepsBooks(mode, t, tool);
      } else {
        DisorderlyCallSpoils(mode, t, tool);
      }
    }
  }

  lemma {:induction false} SpoiltStaysInTurn(mode: Mode, s: State, tools: seq<Tool>)
    requires Spoilt(s)
    ensures Spoilt(Calls(mode, s, tools))
    decreases |tools|
  {
    if tools != [] {
      SpoiltStaysInTurn(mode, s, tools[..|tools| - 1]);
      SpoiltStays(mode, Calls(mode, s, tools[..|tools| - 1]), tools[|tools| - 1]);
    }
  }

  lemma CountingKeepsBooks(s: State)
    ensures BooksOk(Gate(s).0) == BooksOk(s) && Spoilt(Gate(s).0) == Spoilt(s)
  {
    assert Gate(s).0.executed == s.executed;
  }

  /** Exactly when the books balance after a whole run: when every admitted turn is orderly. */
  lemma {:induction false} BooksBalanceExactly(mode: Mode, s: State, turns: seq<seq<Tool>>)
    requires BooksOk(s)
    ensures RunIsOrderly(mode, s, turns) <==> BooksOk(Run(mode, s, turns))
    ensures BooksOk(Run(mode, s, turns)) || Spoilt(Run(mode, s, turns))
    decreases |turns|
  {
    if turns != [] {
      var before, tools := turns[..|turns| - 1], turns[|turns| - 1];
      BooksBalanceExactly(mode, s, before);
      var t := Run(mode, s, before);
      CountingKeepsBooks(t);
      if BooksOk(t) {
        TurnKeepsBooks(mode, Gate(t).0, tools);
      } else {
        SpoiltStaysInTurn(mode, Gate(t).0, tools);
      }
    }
  }

  /** Each model turn makes at most one tool call. */
  predicate OneCallEach(turns: seq<seq<Tool>>)
  {
    forall i :: 0 <= i < |turns| ==> |turns[i]| <= 1
  }

  lemma {:induction false} OneCallEachIsOrderly(mode: Mode, s: State, turns: seq<seq<Tool>>)
    requires OneCallEach(turns)
    ensures RunIsOrderly(mode, s, turns)
    decreases |turns|
  {
    if turns != [] {
      OneCallEachIsOrderly(mode, s, turns[..|turns| - 1]);
      var g, tools := Gate(Run(mode, s, turns[..|turns| - 1])), turns[|turns| - 1];
      if g.1 && |tools| == 1 {
        assert Calls(mode, g.0, tools[..0]) == g.0;
        assert TurnIsOrderly(mode, g.0, tools[..0]);
      }
    }
  }

  /** Two submissions in one admitted turn of an exhausted budget both run for free. */
  lemma TwoSubmitsInOneTurnAreFree()
    ensures var s := State(0, 0, 0, FRESH_AGENT, [], {}, 0, None);
            var submit := SubmitSql("", Verdict(false, 0, 0, false));
            var t := Run(Primary, s, [[submit, submit]]);
            BooksOk(s) && FreeSubmits(t.executed) == 2 && !BooksOk(t)
  {
    var s := State(0, 0, 0, FRESH_AGENT, [], {}, 0, None);
    var submit := SubmitSql("", Verdict(false, 0, 0, false));
    var turns := [[submit, submit]];
    var tools := [submit, submit];
    var counted := Gate(s).0;
    var e0, e1 := Executed(submit, 0), Executed(submit, -1);
    assert tools[..1] == [submit] && [submit][..0] == [];
    assert Calls(Primary, counted, [submit]) == Call(counted, submit);
    assert Calls(Primary, counted, tools).executed == [e0, e1];
    assert turns[..0] == [];
    assert Run(Primary, s, turns) == Turn(Primary, Run(Primary, s, []), tools);
    LastExecuted([], e0);
    LastExecuted([e0], e1);
    assert [e0] + [e1] == [e0, e1] && [] + [e0] == [e0];
  }
}
