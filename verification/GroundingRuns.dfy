/** Drafts, commits, control events and whole Grounding runs (valibra_agent/sql_grounding/service.py, control.py). */
module GroundingRuns {
  import opened Options
  import opened Canonical
  import opened GroundingModels
  import opened GroundingService
  import opened MappingRepair

  // ----- drafts

  /** A Draft has the fields of a Runtime, but its State may be cross-dimensionally inconsistent. */
  type Draft = Runtime

  function DraftProposed(g: Grammar, d: Draft, obs: Observation, context: Context, input: Input, r: Response):
    Option<Draft>
  {
    var admitted := Admitted(d.state, r, input);
    if admitted.None? || !OmissionsQuoted(context, admitted.value) then None
    else
      var m := Materialize(g, d.stage, d.state, admitted.value, input, true);
      if && m.Some?
         && StateTransitionOk(d.stage, Authorized(input.kind), d.state, m.value.0)
         && DiffOk(d.state, m.value.0, obs, input, r)
      then Some(Runtime(d.revision + Bump(d.state, m.value.0), d.stage, m.value.1, m.value.0))
      else None
  }

  /** One private Draft step: no validation of the mixed State against its context. */
  function ProcessDraft(g: Grammar, d: Draft, obs: Observation, context: Context, input: Input, first: Reply): Result
  {
    if input.kind.FinalGateCall? || input.query != context.query || input.current != d.state then Rejection(d, 0, None)
    else if !first.Answer? then Rejection(d, 1, None)
    else Settled(d, DraftProposed(g, d, obs, context, input, first.response), 1, None)
  }

  /** A final check that lets a Draft commit. */
  predicate IsFinal(check: Response)
  {
    check.Checked? && check.complete && check.route.NoRoute? && !check.nextTool && !check.missing
  }

  function Commit(g: Grammar, formal: Runtime, draft: Draft, context: Context, check: Response): Option<Runtime>
  {
    if && IsFinal(check)
       && ValidState(g, context, draft.state)
       && (formal.stage.InitialGrounding? ==> draft.state.Complete())
       && StateTransitionOk(formal.stage, {DTables, DJoinKeys, DMapping, DKnowledge}, formal.state, draft.state)
       && FocusOk(formal.stage, NoFocus, draft.state)
    then Some(Runtime(formal.revision + Bump(formal.state, draft.state), formal.stage, NoFocus, draft.state))
    else None
  }

  /** A commit succeeds exactly on a complete final check of a State that is valid in its context, evaluated as far
      as the formal one, complete in the initial stage and unchanged in a frozen one; and then the formal revision
      grows by one exactly when the content differs, however many revisions the Draft went through. */
  lemma CommitsExactly(g: Grammar, formal: Runtime, draft: Draft, context: Context, check: Response)
    ensures Commit(g, formal, draft, context, check).Some?
            <==> && check.Checked? && check.complete && check.route.NoRoute? && !check.nextTool && !check.missing
                 && ValidState(g, context, draft.state)
                 && (formal.stage.InitialGrounding? ==> draft.state.Complete())
                 && (formal.stage in {SqlAttempt, Done} ==> draft.state == formal.state)
                 && (formal.state.tables.Some? ==> draft.state.tables.Some?)
                 && (formal.state.joinKeys.Some? ==> draft.state.joinKeys.Some?)
                 && (formal.state.mapping.Some? ==> draft.state.mapping.Some?)
                 && (formal.state.knowledge.Some? ==> draft.state.knowledge.Some?)
    ensures var next := Commit(g, formal, draft, context, check);
            next.Some? ==>
              && next.value.state == draft.state && next.value.stage == formal.stage && RuntimeOk(next.value)
              && next.value.revision == formal.revision + (if draft.state != formal.state then 1 else 0)
    ensures forall other: Draft :: other.state == draft.state ==>
              Commit(g, formal, other, context, check) == Commit(g, formal, draft, context, check)
  {
    MayMoveExactly(formal.stage, formal.state, draft.state);
    forall other: Draft | other.state == draft.state
      ensures Commit(g, formal, other, context, check) == Commit(g, formal, draft, context, check)
    {
      OnlyTheStateCommits(g, formal, draft, other, context, check);
    }
  }

  lemma OnlyTheStateCommits(g: Grammar, formal: Runtime, draft: Draft, other: Draft, context: Context, check: Response)
    requires other.state == draft.state
    ensures Commit(g, formal, other, context, check) == Commit(g, formal, draft, context, check)
  {
  }

  /** With every dimension authorized, a State may follow another unless the stage is frozen or a dimension is undone. */
  lemma MayMoveExactly(stage: Stage, prior: State, next: State)
    ensures StateTransitionOk(stage, {DTables, DJoinKeys, DMapping, DKnowledge}, prior, next)
            <==> (Frozen(stage) ==> next == prior) && !Regresses(prior, next)
  {
    NothingChangedExactly(prior, next);
    assert Changed(prior, next) <= {DTables, DJoinKeys, DMapping, DKnowledge};
  }

  /** A Draft step is recorded by the same rules, and a rejected one leaves the Draft as it was. */
  lemma DraftStepIsAtomic(g: Grammar, d: Draft, obs: Observation, context: Context, input: Input, first: Reply)
    ensures var res := ProcessDraft(g, d, obs, context, input, first);
            && res.Result? && Accounted(res.update) && res.update.before == d
            && (if res.update.status.Accepted? then RuntimeTransitionOk(Authorized(input.kind), d, res.runtime)
                else res.runtime == d)
  {
    if first.Answer? && DraftProposed(g, d, obs, context, input, first.response).Some? {
      NothingChangedExactly(d.state, DraftProposed(g, d, obs, context, input, first.response).value.state);
    }
  }

  // ----- control

  datatype StageEvent = GroundingCompleted | SubmitFailed | FollowUpArrived | TaskCompleted

  function Rank(stage: Stage): nat
  {
    match stage
    case InitialGrounding => 0
    case SqlAttempt => 1
    case P2Incremental => 2
    case Done => 3
  }

  function TransitionStage(rt: Runtime, event: StageEvent, forced: bool): Option<Runtime>
  {
    match event
    case GroundingCompleted =>
      if rt.stage.InitialGrounding? && rt.state.Complete() && rt.focus.NoFocus?
      then Some(rt.(stage := SqlAttempt)) else None
    case SubmitFailed =>
      if rt.stage.SqlAttempt? || rt.stage.P2Incremental? || (forced && rt.stage.InitialGrounding?)
      then Some(rt) else None
    case FollowUpArrived =>
      if rt.stage.SqlAttempt? || (forced && rt.stage.InitialGrounding?)
      then Some(rt.(stage := P2Incremental)) else None
    case TaskCompleted => Some(rt.(stage := Done))
  }

  /** Where each event leads, and from where: an attempt needs everything evaluated and no focus; a failed submission
      changes nothing; a follow-up opens Phase 2 after an attempt; only a forced exit may skip the attempt stage; a
      completed task is done from anywhere. Nothing but the stage is touched. */
  lemma StageTable(rt: Runtime, forced: bool)
    ensures TransitionStage(rt, GroundingCompleted, forced)
            == if rt.stage == InitialGrounding && rt.state.tables.Some? && rt.state.joinKeys.Some?
                  && rt.state.mapping.Some? && rt.state.knowledge.Some? && rt.focus == NoFocus
               then Some(Runtime(rt.revision, SqlAttempt, NoFocus, rt.state)) else None
    ensures TransitionStage(rt, SubmitFailed, forced)
            == if rt.stage in {SqlAttempt, P2Incremental} || (forced && rt.stage == InitialGrounding) then Some(rt) else None
    ensures TransitionStage(rt, FollowUpArrived, forced)
            == if rt.stage == SqlAttempt || (forced && rt.stage == InitialGrounding)
               then Some(Runtime(rt.revision, P2Incremental, rt.focus, rt.state)) else None
    ensures TransitionStage(rt, TaskCompleted, forced) == Some(Runtime(rt.revision, Done, rt.focus, rt.state))
  {
  }

  datatype Gate = Ready | DimensionNotEvaluated | InitialFocusPending | PendingClarification | InvalidStage | NotGated

  function FirstSubmitGate(rt: Runtime, firstSubmit: bool, pending: nat): Gate
  {
    if pending > 0 then PendingClarification
    else if !firstSubmit then NotGated
    else if !rt.state.Complete() then DimensionNotEvaluated
    else if rt.stage.InitialGrounding? && !rt.focus.NoFocus? then InitialFocusPending
    else if (rt.stage.InitialGrounding? || rt.stage.SqlAttempt?) && rt.focus.NoFocus? then Ready
    else InvalidStage
  }

  predicate Open(gate: Gate)
  {
    gate.Ready? || gate.NotGated?
  }

  /** For a Runtime the model can construct, a first submission waits for clarifications and for all four dimensions,
      and never for the focus of the initial stage. */
  lemma GateOpensExactly(rt: Runtime, pending: nat)
    requires RuntimeOk(rt)
    ensures FirstSubmitGate(rt, true, pending) != InitialFocusPending
    ensures rt.stage.InitialGrounding? ==> (Open(FirstSubmitGate(rt, true, pending)) <==> pending == 0 && rt.state.Complete())
    ensures Open(FirstSubmitGate(rt, true, pending)) ==>
              rt.state.Complete() && rt.focus.NoFocus? && (rt.stage.InitialGrounding? || rt.stage.SqlAttempt?)
  {
  }

  // ----- runs

  /** The formal Runtime, and the private Draft with the formal State it began from. */
  datatype Session = Session(runtime: Runtime, draft: Option<Draft>, base: State)

  datatype Event =
    | Direct(obs: Observation, context: Context, input: Input, repairAllowed: bool, first: Reply, second: Reply)
    | Control(event: StageEvent, forced: bool)
    | BeginDraft
    | DraftCall(obs: Observation, context: Context, input: Input, first: Reply)
    | CommitDraft(context: Context, check: Response)
    | DropDraft

  function Step(g: Grammar, s: Session, e: Event): Session
  {
    match e
    case Direct(obs, context, input, repairAllowed, first, second) =>
      var res := Process(g, s.runtime, obs, context, input, repairAllowed, first, second);
      if res.Escaped? then s else s.(runtime := res.runtime)
    case Control(event, forced) =>
      var next := TransitionStage(s.runtime, event, forced);
      if next.None? then s else s.(runtime := next.value)
    case BeginDraft => s.(draft := Some(s.runtime), base := s.runtime.state)
    case DraftCall(obs, context, input, first) =>
      if s.draft.None? then s
      else
        var res := ProcessDraft(g, s.draft.value, obs, context, input, first);
        if res.Escaped? then s else s.(draft := Some(res.runtime))
    case CommitDraft(context, check) =>
      if s.draft.None? then s
      else
        var next := Commit(g, s.runtime, s.draft.value, context, check);
        if next.None? then s else s.(runtime := next.value, draft := None)
    case DropDraft => s.(draft := None)
  }

  function Run(g: Grammar, s: Session, events: seq<Event>): Session
    decreases |events|
  {
    if events == [] then s else Step(g, Run(g, s, events[..|events| - 1]), events[|events| - 1])
  }

  /** The ordinary course of a task: grounded, submitted without success, followed up, done. The State is closed while
      the attempt is made and after the task, and open before it and in Phase 2. */
  lemma OrdinaryCourse(g: Grammar, s: Session)
    requires s.runtime.stage.InitialGrounding? && RuntimeOk(s.runtime) && s.runtime.state.Complete()
    ensures var events := [Control(GroundingCompleted, false), Control(SubmitFailed, false),
                           Control(FollowUpArrived, false), Control(TaskCompleted, false)];
            && Run(g, s, events[..1]).runtime.stage == SqlAttempt && Run(g, s, events[..2]).runtime.stage == SqlAttempt
            && Run(g, s, events[..3]).runtime.stage == P2Incremental && Run(g, s, events).runtime.stage == Done
            && forall k :: 1 <= k <= 4 ==> (Frozen(Run(g, s, events[..k]).runtime.stage) <==> k != 3)
  {
    var events := [Control(GroundingCompleted, false), Control(SubmitFailed, false),
                   Control(FollowUpArrived, false), Control(TaskCompleted, false)];
    assert events[..1][..0] == [] && events[..2][..1] == events[..1] && events[..3][..2] == events[..2];
    assert events[..4] == events && events[..4][..3] == events[..3];
    assert Run(g, s, events[..1]) == Step(g, s, events[0]);
    assert Run(g, s, events[..2]) == Step(g, Run(g, s, events[..1]), events[1]);
    assert Run(g, s, events[..3]) == Step(g, Run(g, s, events[..2]), events[2]);
    assert Run(g, s, events[..4]) == Step(g, Run(g, s, events[..3]), events[3]);
  }

  /** How often the formal State changed along a run. */
  function StateChanges(g: Grammar, s: Session, events: seq<Event>): nat
    decreases |events|
  {
    if events == [] then 0
    else
      var before := Run(g, s, events[..|events| - 1]);
      StateChanges(g, s, events[..|events| - 1])
      + (if Step(g, before, events[|events| - 1]).runtime.state != before.runtime.state then 1 else 0)
  }

  /** Leaving the initial stage means that everything has been evaluated. */
  predicate EvaluatedWhenLeft(rt: Runtime)
  {
    rt.stage.SqlAttempt? || rt.stage.P2Incremental? ==> rt.state.Complete()
  }

  /** What one event may do to the formal Runtime. */
  ghost predicate Legal(before: Runtime, after: Runtime, forced: bool)
  {
    && after.revision == before.revision + Bump(before.state, after.state)
    && !Regresses(before.state, after.state)
    && (Frozen(before.stage) ==> after.state == before.state)
    && Rank(before.stage) <= Rank(after.stage)
    && (RuntimeOk(before) ==> RuntimeOk(after))
    && (!forced && EvaluatedWhenLeft(before) ==> EvaluatedWhenLeft(after))
  }

  predicate IsForced(e: Event)
  {
    e.Control? && e.forced
  }

  lemma StepIsLegal(g: Grammar, s: Session, e: Event)
    ensures Legal(s.runtime, Step(g, s, e).runtime, IsForced(e))
    ensures e.DraftCall? || e.BeginDraft? || e.DropDraft? ==> Step(g, s, e).runtime == s.runtime
  {
    match e
    case Direct(obs, context, input, repairAllowed, first, second) =>
      CallIsAtomic(g, s.runtime, obs, context, input, repairAllowed, first, second);
      NothingChangedExactly(s.runtime.state, Step(g, s, e).runtime.state);
    case CommitDraft(context, check) =>
      if s.draft.Some? {
        CommitsExactly(g, s.runtime, s.draft.value, context, check);
      }
    case _ =>
  }

  /** Over any run, adversarial replies and interleaved Drafts included: the revision counts exactly the changes of the
      formal State, no dimension returns to null, the stage never goes back, and without a forced exit every attempt
      or Phase 2 State has all four dimensions evaluated. */
  lemma {:induction false} RunsAreLegal(g: Grammar, s: Session, events: seq<Event>)
    requires RuntimeOk(s.runtime) && EvaluatedWhenLeft(s.runtime)
    ensures var t := Run(g, s, events);
            && t.runtime.revision == s.runtime.revision + StateChanges(g, s, events)
            && !Regresses(s.runtime.state, t.runtime.state)
            && Rank(s.runtime.stage) <= Rank(t.runtime.stage)
            && RuntimeOk(t.runtime)
            && ((forall i :: 0 <= i < |events| ==> !IsForced(events[i])) ==> EvaluatedWhenLeft(t.runtime))
    decreases |events|
  {
    if events != [] {
      RunsAreLegal(g, s, events[..|events| - 1]);
      StepIsLegal(g, Run(g, s, events[..|events| - 1]), events[|events| - 1]);
    }
  }

  /** Steps of a run that keep to Drafts leave the formal Runtime alone, whatever the Draft goes through. */
  lemma {:induction false} DraftsArePrivate(g: Grammar, s: Session, events: seq<Event>)
    requires forall i :: 0 <= i < |events| ==> events[i].DraftCall? || events[i].BeginDraft? || events[i].DropDraft?
    ensures Run(g, s, events).runtime == s.runtime
    decreases |events|
  {
    if events != [] {
      DraftsArePrivate(g, s, events[..|events| - 1]);
      StepIsLegal(g, Run(g, s, events[..|events| - 1]), events[|events| - 1]);
    }
  }

  /** Draft steps keep a Draft that has begun, and never lower its revision. */
  lemma {:induction false} DraftCallsKeepTheDraft(g: Grammar, s: Session, calls: seq<Event>)
    requires s.draft.Some? && forall i :: 0 <= i < |calls| ==> calls[i].DraftCall?
    ensures var t := Run(g, s, calls);
            t.draft.Some? && t.draft.value.revision >= s.draft.value.revision && t.base == s.base
    decreases |calls|
  {
    if calls != [] {
      var before, e := Run(g, s, calls[..|calls| - 1]), calls[|calls| - 1];
      DraftCallsKeepTheDraft(g, s, calls[..|calls| - 1]);
      DraftStepIsAtomic(g, before.draft.value, e.obs, e.context, e.input, e.first);
    }
  }

  /** The session after a Draft was begun and taken through some steps. */
  function DraftCycle(g: Grammar, s: Session, calls: seq<Event>): Session
  {
    Run(g, Step(g, s, BeginDraft), calls)
  }

  /** A whole Draft cycle is one atomic update: until the commit the formal Runtime is untouched, and the commit
      raises its revision by one exactly when the final content differs from the base, however often the Draft changed. */
  lemma DraftCycleCommitsOnce(g: Grammar, s: Session, calls: seq<Event>, context: Context, check: Response)
    requires forall i :: 0 <= i < |calls| ==> calls[i].DraftCall?
    ensures var t := DraftCycle(g, s, calls);
            && t.draft.Some? && t.runtime == s.runtime && t.base == s.runtime.state
            && t.draft.value.revision >= s.runtime.revision
            && var u := Step(g, t, CommitDraft(context, check));
            if Commit(g, s.runtime, t.draft.value, context, check).Some? then
              && u.runtime.state == t.draft.value.state && u.draft.None?
              && ValidState(g, context, u.runtime.state)
              && u.runtime.revision == s.runtime.revision + (if u.runtime.state != s.runtime.state then 1 else 0)
            else u.runtime == s.runtime
  {
    var begun := Step(g, s, BeginDraft);
    DraftCallsKeepTheDraft(g, begun, calls);
    DraftsArePrivate(g, begun, calls);
    CommitsExactly(g, s.runtime, DraftCycle(g, s, calls).draft.value, context, check);
  }

  // ----- Phase 2 knowledge

  /** A materialized step of a Phase 2 input loses no knowledge, and a check adds at most the one exact definition. */
  lemma KnowledgeGrows(g: Grammar, stage: Stage, prior: State, obs: Observation, input: Input, r: Response,
                       admitted: Response, draft: bool)
    requires input.IsP2() && Admitted(prior, r, input) == Some(admitted)
    requires Materialize(g, stage, prior, admitted, input, draft).Some?
    requires DiffOk(prior, Materialize(g, stage, prior, admitted, input, draft).value.0, obs, input, r)
    ensures var next := Materialize(g, stage, prior, admitted, input, draft).value.0;
            && Facts(prior) <= Facts(next)
            && (input.kind.CheckCall? ==>
                  var added := Facts(next) - Facts(prior);
                  added == {} || (&& input.evidence.LatestTool? && input.evidence.name == "get_knowledge_definition"
                                  && input.evidence.definition.Some?
                                  && added == {Knowledge(BusinessRule, input.evidence.definition.value)}))
  {
    if input.kind.KnowledgeCall? {
      var update := KnowledgeUpdate(g, prior, admitted.ids, input).value;
      var selected := OfficialRules(g, admitted.ids, input).value;
      CanonElements(FactLess, prior.Facts() + selected);
      CanonElements(FactLess, update);
      assert Elements(prior.Facts()) <= Elements(prior.Facts() + selected);
    }
  }

  /** Knowledge a session holds formally is in its Draft too, as far as it was there when the Draft began. */
  ghost predicate DraftRemembers(s: Session)
  {
    s.draft.Some? ==> Facts(s.base) <= Facts(s.draft.value.state)
  }

  predicate IsP2Event(e: Event)
  {
    (e.Direct? || e.DraftCall? ==> e.input.IsP2())
  }

  lemma CandidateKeepsFacts(g: Grammar, rt: Runtime, obs: Observation, context: Context, input: Input, r: Response)
    requires input.IsP2() && Candidate(g, rt, obs, context, input, r).Some?
    ensures Facts(rt.state) <= Facts(Candidate(g, rt, obs, context, input, r).value.state)
  {
    KnowledgeGrows(g, rt.stage, rt.state, obs, input, r, Admitted(rt.state, r, input).value, false);
  }

  lemma DraftCandidateKeepsFacts(g: Grammar, d: Draft, obs: Observation, context: Context, input: Input, r: Response)
    requires input.IsP2() && DraftProposed(g, d, obs, context, input, r).Some?
    ensures Facts(d.state) <= Facts(DraftProposed(g, d, obs, context, input, r).value.state)
  {
    KnowledgeGrows(g, d.stage, d.state, obs, input, r, Admitted(d.state, r, input).value, true);
  }

  lemma DirectStepKeepsFacts(g: Grammar, s: Session, e: Event)
    requires e.Direct? && e.input.IsP2()
    ensures Facts(s.runtime.state) <= Facts(Step(g, s, e).runtime.state)
  {
    ResultIsCandidate(g, s.runtime, e.obs, e.context, e.input, e.repairAllowed, e.first, e.second);
    if e.first.Answer? && Candidate(g, s.runtime, e.obs, e.context, e.input, e.first.response).Some? {
      CandidateKeepsFacts(g, s.runtime, e.obs, e.context, e.input, e.first.response);
    }
    if e.second.Answer? && Candidate(g, s.runtime, e.obs, e.context, e.input, e.second.response).Some? {
      CandidateKeepsFacts(g, s.runtime, e.obs, e.context, e.input, e.second.response);
    }
  }

  lemma DraftStepKeepsFacts(g: Grammar, s: Session, e: Event)
    requires e.DraftCall? && e.input.IsP2() && s.draft.Some?
    ensures Step(g, s, e).draft.Some? && Facts(s.draft.value.state) <= Facts(Step(g, s, e).draft.value.state)
  {
    var d := s.draft.value;
    if e.first.Answer? {
      var next := DraftProposed(g, d, e.obs, e.context, e.input, e.first.response);
      if next.Some? {
        DraftCandidateKeepsFacts(g, d, e.obs, e.context, e.input, e.first.response);
      }
      DraftResult(g, d, e.obs, e.context, e.input, e.first.response);
    }
  }

  lemma DraftResult(g: Grammar, d: Draft, obs: Observation, context: Context, input: Input, r: Response)
    ensures var res := ProcessDraft(g, d, obs, context, input, Answer(r));
            res.runtime == d || DraftProposed(g, d, obs, context, input, r) == Some(res.runtime)
  {
  }

  /** A commit that succeeds loses no knowledge exactly when everything learnt since the Draft began is in the Draft. */
  lemma CommitKeepsFactsExactly(g: Grammar, s: Session, context: Context, check: Response)
    requires s.draft.Some? && DraftRemembers(s) && Commit(g, s.runtime, s.draft.value, context, check).Some?
    ensures Facts(s.runtime.state) <= Facts(Step(g, s, CommitDraft(context, check)).runtime.state)
            <==> Facts(s.runtime.state) - Facts(s.base) <= Facts(s.draft.value.state)
  {
    CommitsExactly(g, s.runtime, s.draft.value, context, check);
    var now, staged, base := Facts(s.runtime.state), Facts(s.draft.value.state), Facts(s.base);
    if now - base <= staged {
      forall f | f in now ensures f in staged {
        assert f in base || f in now - base;
      }
    }
  }

  /** The step is no commit that forgets something learnt since its Draft began. */
  predicate Remembers(g: Grammar, s: Session, e: Event)
  {
    e.CommitDraft? && s.draft.Some? && Commit(g, s.runtime, s.draft.value, e.context, e.check).Some? ==>
      Facts(s.runtime.state) - Facts(s.base) <= Facts(s.draft.value.state)
  }

  lemma OneEventKeepsFactsExactly(g: Grammar, s: Session, e: Event)
    requires DraftRemembers(s) && IsP2Event(e)
    ensures Facts(s.runtime.state) <= Facts(Step(g, s, e).runtime.state) <==> Remembers(g, s, e)
    ensures DraftRemembers(Step(g, s, e))
  {
    match e
    case Direct(_, _, _, _, _, _) =>
      DirectStepKeepsFacts(g, s, e);
    case DraftCall(_, _, _, _) =>
      if s.draft.Some? {
        DraftStepKeepsFacts(g, s, e);
      }
    case CommitDraft(context, check) =>
      if s.draft.Some? && Commit(g, s.runtime, s.draft.value, context, check).Some? {
        CommitKeepsFactsExactly(g, s, context, check);
      }
    case _ =>
  }

  /** Every step of the run keeps all knowledge. */
  predicate KeepsThroughout(g: Grammar, s: Session, events: seq<Event>)
    decreases |events|
  {
    events != [] ==>
      var before, e := Run(g, s, events[..|events| - 1]), events[|events| - 1];
      KeepsThroughout(g, s, events[..|events| - 1]) && Facts(before.runtime.state) <= Facts(Step(g, before, e).runtime.state)
  }

  predicate RemembersThroughout(g: Grammar, s: Session, events: seq<Event>)
    decreases |events|
  {
    events != [] ==>
      RemembersThroughout(g, s, events[..|events| - 1])
      && Remembers(g, Run(g, s, events[..|events| - 1]), events[|events| - 1])
  }

  /** Over a whole run of steps with a follow-up, direct or through Drafts, Phase 2 knowledge is kept throughout if and
      only if every commit that succeeds finds in its Draft what was learnt since the Draft began; and then nothing
      known at the start is missing at the end. */
  lemma {:induction false} KnowledgeIsNeverLost(g: Grammar, s: Session, events: seq<Event>)
    requires DraftRemembers(s) && (forall i :: 0 <= i < |events| ==> IsP2Event(events[i]))
    ensures KeepsThroughout(g, s, events) <==> RemembersThroughout(g, s, events)
    ensures RemembersThroughout(g, s, events) ==> Facts(s.runtime.state) <= Facts(Run(g, s, events).runtime.state)
    ensures DraftRemembers(Run(g, s, events))
    decreases |events|
  {
    if events != [] {
      KnowledgeIsNeverLost(g, s, events[..|events| - 1]);
      OneEventKeepsFactsExactly(g, Run(g, s, events[..|events| - 1]), events[|events| - 1]);
    }
  }

  // ----- a run that loses knowledge

  const NOTHING_NEEDED := State(Some([]), Some([]), Some([]), Some([]))

  const BEFORE_LEARNING := Session(Runtime(0, P2Incremental, NoFocus, NOTHING_NEEDED), None, NOTHING_NEEDED)

  /** A Phase 2 call that selects the one listed definition. */
  function LearnOne(definition: string): Event
  {
    var fact := Knowledge(BusinessRule, definition);
    Direct(Observation("o", 2, P2FollowUp, None, "f"),
           Context("q", Some("f"), {}, (x: string) => false, (x: string) => false, {fact}, "o"),
           Input(KnowledgeCall, "q", Some("f"), NOTHING_NEEDED, Some([]), None,
                 Some([Rule(true, Some(1), Some(definition))]), CheckContext),
           true, Answer(Selected([], [1])), Crash)
  }

  lemma OneRuleIsSelected(g: Grammar, definition: string, input: Input)
    requires g.isContent(definition) && input.rules == Some([Rule(true, Some(1), Some(definition))])
    ensures OfficialRules(g, [1], input) == Some([Knowledge(BusinessRule, definition)])
  {
    var rules := input.rules.value;
    assert rules[..0] == [];
    assert RulesOk(g, rules[..0]) && RulesById(rules[..0]) == map[];
    assert RulesById(rules) == map[1 := Knowledge(BusinessRule, definition)];
    assert SelectRules(RulesById(rules), [1]) == [Knowledge(BusinessRule, definition)];
  }

  lemma OneFactIsCanonical(g: Grammar, fact: Knowledge)
    requires g.isContent(fact.content)
    ensures Canon(FactLess, [fact]) == [fact] && ParseFacts(g, [fact]) == Some([fact])
  {
    assert [fact][1..] == [];
  }

  lemma LearningSucceeds(g: Grammar, definition: string, s: Session)
    requires g.isContent(definition) && s.runtime == BEFORE_LEARNING.runtime
    ensures var fact := Knowledge(BusinessRule, definition);
            Step(g, s, LearnOne(definition))
            == s.(runtime := Runtime(1, P2Incremental, NoFocus, NOTHING_NEEDED.(knowledge := Some([fact]))))
  {
    var e, rt := LearnOne(definition), s.runtime;
    var fact, learnt := Knowledge(BusinessRule, definition), NOTHING_NEEDED.(knowledge := Some([Knowledge(BusinessRule, definition)]));
    var r := e.first.response;
    assert InputOk(rt, e.obs, e.context, e.input);
    OneRuleIsSelected(g, definition, e.input);
    assert NOTHING_NEEDED.Facts() + [fact] == [fact];
    OneFactIsCanonical(g, fact);
    assert OmittedPhrases(e.input.Omitted()) == {};
    assert Materialize(g, rt.stage, rt.state, r, e.input, false) == Some((learnt, NoFocus));
    assert Changed(rt.state, learnt) == {DKnowledge};
    assert Candidate(g, rt, e.obs, e.context, e.input, r) == Some(Runtime(1, P2Incremental, NoFocus, learnt));
  }

  lemma StaleCommit(g: Grammar, s: Session, context: Context, check: Response)
    requires IsFinal(check) && s.draft == Some(BEFORE_LEARNING.runtime)
    requires s.runtime.stage.P2Incremental? && s.runtime.state.Complete() && s.runtime.state != NOTHING_NEEDED
    ensures Step(g, s, CommitDraft(context, check)).runtime
            == Runtime(s.runtime.revision + 1, P2Incremental, NoFocus, NOTHING_NEEDED)
  {
    assert ValidState(g, context, NOTHING_NEEDED);
    CommitsExactly(g, s.runtime, s.draft.value, context, check);
  }

  function StaleRun(definition: string, context: Context, check: Response): seq<Event>
  {
    [BeginDraft, LearnOne(definition), CommitDraft(context, check)]
  }

  /** A commit does not compare the formal State with the one its Draft began from: a Draft is begun, the formal State
      learns a definition, and the commit forgets it. */
  lemma StaleCommitLosesKnowledge(g: Grammar, definition: string, context: Context, check: Response)
    requires g.isContent(definition) && IsFinal(check)
    ensures var events := StaleRun(definition, context, check);
            && (forall i :: 0 <= i < |events| ==> IsP2Event(events[i]))
            && Knowledge(BusinessRule, definition) in Facts(Run(g, BEFORE_LEARNING, events[..2]).runtime.state)
            && Facts(Run(g, BEFORE_LEARNING, events).runtime.state) == {}
            && Run(g, BEFORE_LEARNING, events).runtime.revision == 2
            && !RemembersThroughout(g, BEFORE_LEARNING, events)
  {
    var events, fact := StaleRun(definition, context, check), Knowledge(BusinessRule, definition);
    assert events[..2][..1] == events[..1] && events[..1][..0] == [];
    var begun := BEFORE_LEARNING.(draft := Some(BEFORE_LEARNING.runtime));
    assert Run(g, BEFORE_LEARNING, events[..1]) == begun;
    LearningSucceeds(g, definition, begun);
    var learnt := Run(g, BEFORE_LEARNING, events[..2]);
    assert learnt.runtime.state.Facts() == [fact] && [fact][0] == fact;
    StaleCommit(g, learnt, context, check);
    KnowledgeIsNeverLost(g, BEFORE_LEARNING, events);
  }
}
