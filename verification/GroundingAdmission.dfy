/** When the Grounding service asks the updater at all, and what becomes of a reply that deserves to be accepted
    (valibra_agent/sql_grounding/service.py). */
module GroundingAdmission {
  import opened Options
  import opened Canonical
  import opened GroundingModels
  import opened MappingRepair
  import opened GroundingService
  import opened GroundingRuns

  /** The observation an opening call of Phase 1 is made on: its type and its tool. */
  const OPENINGS: map<CallKind, (ObservationType, string)> :=
    map[StructureCall := (Schema, "get_schema"),
        MappingCall := (Metadata, "get_all_column_meanings"),
        KnowledgeCall := (KnowledgeText, "get_all_knowledge_definitions"),
        CheckCall := (KnowledgeText, "get_all_knowledge_definitions")]

  /** The input speaks of this Runtime, this query and this observation. */
  ghost predicate Concerns(input: Input, rt: Runtime, obs: Observation, context: Context)
  {
    && input.query == context.query && input.current == rt.state && obs.id == context.latestObservation
    && (obs.what.UserQuery? ==> obs.content == context.query)
    && (obs.phase == 2 ==> input.followUp == context.followUp && input.clarifications.Some?)
  }

  /** The clarifications are answered, not from a later phase, and ask different questions. */
  ghost predicate Answered(input: Input, phase: int)
  {
    var cs := input.Clarifications();
    && (forall i :: 0 <= i < |cs| ==> cs[i].phase <= phase && cs[i].answer.Some?)
    && (forall i, j :: 0 <= i < j < |cs| ==> cs[i].question != cs[j].question)
  }

  /** The observation is the user's answer to one of the clarifications of its phase. */
  ghost predicate IsAnswer(obs: Observation, input: Input)
  {
    && obs.what == UserAnswer && obs.tool == Some("ask_user")
    && exists i :: 0 <= i < |input.Clarifications()|
         && input.Clarifications()[i].phase == obs.phase && input.Clarifications()[i].answer == Some(obs.content)
  }

  /** A call that continues from a tool result or an answer: a check of the latest piece of evidence. */
  ghost predicate ChecksLatest(input: Input)
  {
    input.kind.CheckCall? && !input.evidence.CheckContext?
  }

  /** Opening calls in the initial stage need their own tool's result, or the answer to a clarification. */
  ghost predicate OpensPhase1(obs: Observation, input: Input)
  {
    IsAnswer(obs, input) || (input.kind in OPENINGS && (obs.what, obs.tool) == (OPENINGS[input.kind].0, Some(OPENINGS[input.kind].1)))
  }

  /** Opening calls in Phase 2 need the follow-up, or the answer to a clarification. */
  ghost predicate OpensPhase2(obs: Observation, input: Input, context: Context)
  {
    IsAnswer(obs, input) || obs.what.P2FollowUp?
  }

  /** A check of the latest tool needs that tool's result; a check of the latest answer needs an answer of the user. */
  ghost predicate Continues(obs: Observation, input: Input)
  {
    match input.evidence
    case LatestTool(name, _) => obs.tool == Some(name)
    case LatestUserAnswer => obs.what.UserAnswer? && obs.tool == Some("ask_user")
    case _ => false
  }

  /** The updater is asked if and only if the input concerns this Runtime and observation, and the observation is the
      evidence that this kind of call needs in this stage. */
  lemma AsksExactly(g: Grammar, rt: Runtime, obs: Observation, context: Context, input: Input, repairAllowed: bool,
                    first: Reply, second: Reply)
    ensures Process(g, rt, obs, context, input, repairAllowed, first, second).calls > 0
            <==> && input.kind in {StructureCall, MappingCall, KnowledgeCall, CheckCall}
                 && Concerns(input, rt, obs, context) && Answered(input, obs.phase)
                 && (|| (rt.stage == InitialGrounding && obs.phase == 1 && !obs.what.P2FollowUp?
                         && if ChecksLatest(input) then Continues(obs, input) else OpensPhase1(obs, input))
                     || (rt.stage == P2Incremental && obs.phase == 2 && !obs.what.UserQuery?
                         && (obs.what.P2FollowUp? ==> context.followUp == Some(obs.content))
                         && if ChecksLatest(input) then Continues(obs, input) else OpensPhase2(obs, input, context)))
  {
    CallsExactly(g, rt, obs, context, input, repairAllowed, first, second);
  }

  lemma CallsExactly(g: Grammar, rt: Runtime, obs: Observation, context: Context, input: Input, repairAllowed: bool,
                     first: Reply, second: Reply)
    ensures Process(g, rt, obs, context, input, repairAllowed, first, second).calls > 0 <==> InputOk(rt, obs, context, input)
  {
    var scope := RepairScope(g, rt, context, input, repairAllowed, first);
    if scope.None? && first.Answer? {
      SettledCalls(rt, Candidate(g, rt, obs, context, input, first.response), 1, None);
    } else if scope.Some? && second.Answer? {
      SettledCalls(rt, Candidate(g, rt, obs, context, input, second.response), 2, scope);
      SettledCalls(rt, None, 2, scope);
    }
  }

  // ----- what becomes of a reply

  /** A call on a complete initial State with clarifications starts over and needs no further focus. */
  predicate StartsOver(rt: Runtime, input: Input)
  {
    rt.stage.InitialGrounding? && rt.state.Complete() && input.Clarifications() != []
  }

  /** The call was accepted, or changed nothing, at once: `next` is the State, with one revision more if it differs. */
  ghost predicate Takes(res: Result, rt: Runtime, next: State, focus: Focus)
  {
    && res.Result? && res.calls == 1 && res.repair.None? && !res.update.status.Rejected?
    && res.runtime == Runtime(rt.revision + (if next == rt.state then 0 else 1), rt.stage, focus, next)
  }

  ghost predicate Refuses(res: Result, rt: Runtime)
  {
    res.Result? && res.update.status.Rejected? && res.runtime == rt
  }

  lemma SettledTakes(rt: Runtime, next: Runtime)
    requires next.stage == rt.stage && next.revision == rt.revision + (if next.state == rt.state then 0 else 1)
    ensures Takes(Settled(rt, Some(next), 1, None), rt, next.state, next.focus)
  {
    NothingChangedExactly(rt.state, next.state);
  }

  lemma AskedStage(g: Grammar, rt: Runtime, obs: Observation, context: Context, input: Input, repairAllowed: bool,
                   first: Reply, second: Reply)
    requires Process(g, rt, obs, context, input, repairAllowed, first, second).calls > 0
    ensures InputOk(rt, obs, context, input) && rt.stage in {InitialGrounding, P2Incremental}
  {
    CallsExactly(g, rt, obs, context, input, repairAllowed, first, second);
  }

  lemma StructureCandidate(g: Grammar, rt: Runtime, obs: Observation, context: Context, input: Input,
                           tables: seq<string>, joinKeys: seq<string>)
    requires input.kind.StructureCall? && rt.stage in {InitialGrounding, P2Incremental}
    ensures var next := rt.state.(tables := Some(tables), joinKeys := Some(joinKeys));
            var focus := if StartsOver(rt, input) then NoFocus else OnMapping;
            Candidate(g, rt, obs, context, input, Structure(tables, joinKeys))
            == if ValidState(g, context, next) && (rt.stage.InitialGrounding? ==> (next.Complete() <==> StartsOver(rt, input)))
               then Some(Runtime(rt.revision + (if next == rt.state then 0 else 1), rt.stage, focus, next)) else None
  {
  }

  /** A structure reply is taken exactly when the State with its tables and relations is valid, and, in the initial
      stage, complete only where the call starts over. */
  lemma StructureOutcome(g: Grammar, rt: Runtime, obs: Observation, context: Context, input: Input, repairAllowed: bool,
                         tables: seq<string>, joinKeys: seq<string>, second: Reply)
    requires input.kind.StructureCall?
    requires Process(g, rt, obs, context, input, repairAllowed, Answer(Structure(tables, joinKeys)), second).calls > 0
    ensures var res := Process(g, rt, obs, context, input, repairAllowed, Answer(Structure(tables, joinKeys)), second);
            var next := rt.state.(tables := Some(tables), joinKeys := Some(joinKeys));
            if ValidState(g, context, next) && (rt.stage.InitialGrounding? ==> (next.Complete() <==> StartsOver(rt, input)))
            then Takes(res, rt, next, if StartsOver(rt, input) then NoFocus else OnMapping)
            else Refuses(res, rt) && res.calls == 1
  {
    var first := Answer(Structure(tables, joinKeys));
    AskedStage(g, rt, obs, context, input, repairAllowed, first, second);
    StructureCandidate(g, rt, obs, context, input, tables, joinKeys);
    var next := Candidate(g, rt, obs, context, input, first.response);
    if next.Some? {
      SettledTakes(rt, next.value);
    }
  }

  lemma MappingCandidate(g: Grammar, rt: Runtime, obs: Observation, context: Context, input: Input, form: MappingForm)
    requires input.kind.MappingCall? && rt.stage in {InitialGrounding, P2Incremental}
    ensures var next := rt.state.(tables := Some(form.tables), joinKeys := Some(form.joinKeys), mapping := Some(form.mapping));
            var focus := if StartsOver(rt, input) then NoFocus else OnKnowledge;
            var supported := ValidState(g, context, next) && forall u :: u in form.unresolved ==> Quoted(context, u.phrase);
            && (Proposed(g, rt, context, input, Mapped(form)).Some? <==> supported)
            && Candidate(g, rt, obs, context, input, Mapped(form))
               == if supported && (rt.stage.InitialGrounding? ==> (next.Complete() <==> StartsOver(rt, input)))
                  then Some(Runtime(rt.revision + (if next == rt.state then 0 else 1), rt.stage, focus, next)) else None
  {
  }

  /** A mapping reply whose State is valid and whose omissions are verbatim is taken at once, unless the initial stage
      would be complete too early or too late; one that is not is repaired or refused. */
  lemma MappingOutcome(g: Grammar, rt: Runtime, obs: Observation, context: Context, input: Input, repairAllowed: bool,
                       form: MappingForm, second: Reply)
    requires input.kind.MappingCall?
    requires Process(g, rt, obs, context, input, repairAllowed, Answer(Mapped(form)), second).calls > 0
    ensures var res := Process(g, rt, obs, context, input, repairAllowed, Answer(Mapped(form)), second);
            var next := rt.state.(tables := Some(form.tables), joinKeys := Some(form.joinKeys), mapping := Some(form.mapping));
            var supported := ValidState(g, context, next) && forall u :: u in form.unresolved ==> Quoted(context, u.phrase);
            if supported && (rt.stage.InitialGrounding? ==> (next.Complete() <==> StartsOver(rt, input)))
            then Takes(res, rt, next, if StartsOver(rt, input) then NoFocus else OnKnowledge)
            else res.Result? && (res.repair.None? ==> Refuses(res, rt) && res.calls == 1) && (supported ==> res.repair.None?)
  {
    var first := Answer(Mapped(form));
    AskedStage(g, rt, obs, context, input, repairAllowed, first, second);
    MappingCandidate(g, rt, obs, context, input, form);
    AtMostOneRepair(g, rt, obs, context, input, repairAllowed, first, second);
    var next := Candidate(g, rt, obs, context, input, first.response);
    if next.Some? {
      SettledTakes(rt, next.value);
    }
  }

  ghost predicate Lists(rules: seq<Rule>, id: int)
  {
    exists rule :: rule in rules && rule.id == Some(id)
  }

  /** The listing is acceptable and has a definition for every selected id. */
  ghost predicate Selectable(g: Grammar, input: Input, ids: seq<int>)
  {
    && input.rules.Some? && RulesOk(g, input.rules.value)
    && forall i :: 0 <= i < |ids| ==> Lists(input.rules.value, ids[i])
  }

  /** Different selected ids have different definitions, and none is selected twice. */
  ghost predicate SelectsApart(input: Input, ids: seq<int>)
  {
    && Distinct(ids) && |ids| <= MAX_DOMAIN_KNOWLEDGE
    && (input.rules.Some? ==>
          forall r, q :: r in input.rules.value && q in input.rules.value && r.definition == q.definition ==> r.id == q.id)
  }

  lemma SelectableIsResolved(g: Grammar, input: Input, ids: seq<int>)
    requires Selectable(g, input, ids)
    ensures OfficialRules(g, ids, input).Some?
  {
    var rules := input.rules.value;
    IndexedDefinitions(g, rules);
    forall i | 0 <= i < |ids| ensures ids[i] in RulesById(rules) {
      assert Lists(rules, ids[i]);
      var rule :| rule in rules && rule.id == Some(ids[i]);
    }
  }

  /** What the selection writes: the definitions of the ids, in Phase 2 beside what is known, sorted. */
  ghost predicate Writes(g: Grammar, rt: Runtime, input: Input, ids: seq<int>, facts: seq<Knowledge>)
  {
    && CanonicalFacts(facts) && |facts| <= MAX_DOMAIN_KNOWLEDGE && (forall f :: f in facts ==> g.isContent(f.content))
    && Elements(facts) == Definitions(input, ids) + (if input.IsP2() then Elements(rt.state.Facts()) else {})
  }

  lemma SelectionIsDistinct(g: Grammar, input: Input, ids: seq<int>)
    requires Selectable(g, input, ids) && SelectsApart(input, ids)
    ensures OfficialRules(g, ids, input).Some? && Distinct(OfficialRules(g, ids, input).value)
  {
    SelectableIsResolved(g, input, ids);
    var rules, selected := input.rules.value, OfficialRules(g, ids, input).value;
    IndexedDefinitions(g, rules);
    forall i, j | 0 <= i < j < |ids| ensures selected[i] != selected[j] {
      var r := RuleOf(rules, ids[i]);
      var q := RuleOf(rules, ids[j]);
      assert selected[i] == RulesById(rules)[ids[i]] && selected[j] == RulesById(rules)[ids[j]];
    }
  }

  lemma UpdateIsWritten(g: Grammar, rt: Runtime, input: Input, ids: seq<int>, facts: seq<Knowledge>)
    requires Selectable(g, input, ids) && Writes(g, rt, input, ids, facts)
    requires !input.IsP2() ==> SelectsApart(input, ids)
    ensures KnowledgeUpdate(g, rt.state, ids, input).Some?
    ensures ParseFacts(g, KnowledgeUpdate(g, rt.state, ids, input).value) == Some(facts)
  {
    SelectableIsResolved(g, input, ids);
    SelectionIsExact(g, ids, input);
    Orders();
    var selected, update := OfficialRules(g, ids, input).value, KnowledgeUpdate(g, rt.state, ids, input).value;
    if input.IsP2() {
      var all := rt.state.Facts() + selected;
      assert Elements(all) == Elements(rt.state.Facts()) + Elements(selected);
      assert Comparable(FactLess, Elements(all));
      CanonIsSorted(FactLess, all);
      CanonElements(FactLess, all);
      SortedIsUnique(FactLess, update, facts);
      SortedIsDistinct(facts);
    } else {
      SelectionIsDistinct(g, input, ids);
    }
    assert Elements(update) == Elements(facts);
    assert Comparable(FactLess, Elements(update));
    CanonIsSorted(FactLess, update);
    CanonElements(FactLess, update);
    SortedIsUnique(FactLess, Canon(FactLess, update), facts);
    forall f | f in update ensures g.isContent(f.content) {
      assert f in Elements(update);
      assert f in facts;
    }
  }

  lemma SortedIsDistinct(facts: seq<Knowledge>)
    requires CanonicalFacts(facts)
    ensures Distinct(facts)
  {
    Orders();
    forall i, j | 0 <= i < j < |facts| ensures facts[i] != facts[j] {
      assert FactLess(facts[i], facts[j]);
    }
  }

  /** The mappings a knowledge call may write: those proposed, except for phrases that Mapping left unresolved. */
  ghost predicate Keeps(input: Input, proposed: seq<Mapping>, kept: seq<Mapping>)
  {
    kept == Without(proposed, OmittedPhrases(input.Omitted()))
  }

  lemma {:induction false} WithoutNone(ms: seq<Mapping>)
    ensures Without(ms, {}) == ms
  {
    if ms != [] {
      WithoutNone(ms[..|ms| - 1]);
      assert ms == ms[..|ms| - 1] + [ms[|ms| - 1]];
    }
  }

  lemma SelectionAdmitted(prior: State, input: Input, mapping: seq<Mapping>, ids: seq<int>)
    requires MappedPhrases(prior.Mappings()) !! OmittedPhrases(input.Omitted())
    ensures Sanitised(prior, Selected(mapping, ids), input)
            == Some(Selected(Without(mapping, OmittedPhrases(input.Omitted())), ids))
  {
    if OmittedPhrases(input.Omitted()) == {} {
      WithoutNone(mapping);
    }
  }

  lemma KnowledgeMaterialized(g: Grammar, rt: Runtime, input: Input, kept: seq<Mapping>, ids: seq<int>, facts: seq<Knowledge>)
    requires input.kind.KnowledgeCall? && Selectable(g, input, ids) && Writes(g, rt, input, ids, facts)
    requires !input.IsP2() ==> SelectsApart(input, ids)
    requires ids == [] ==> kept == rt.state.Mappings()
    requires CrossConsistent(g, rt.state.(mapping := Some(kept), knowledge := Some(facts)))
    ensures Materialize(g, rt.stage, rt.state, Selected(kept, ids), input, false)
            == Some((rt.state.(mapping := Some(kept), knowledge := Some(facts)), NoFocus))
  {
    UpdateIsWritten(g, rt, input, ids, facts);
  }

  /** A valid State refers to declared tables only, wherever its expressions do. */
  lemma ValidIsCrossConsistent(g: Grammar, context: Context, s: State)
    requires ValidState(g, context, s)
    ensures CrossConsistent(g, s)
  {
    forall m, e, t | m in s.Mappings() && e in m.targets && t in g.fieldTables(e) ensures t in s.Tables() {
      assert MappingOk(g, context, s.Tables(), m);
      var k :| 0 <= k < |m.targets| && m.targets[k] == e;
      assert TargetOk(g, context, s.Tables(), m.targets[k]);
    }
    if s.joinKeys.Some? {
      forall r, t | r in s.joinKeys.value && t in g.relationTables(r) ensures t in s.Tables() {
        assert RelationOk(g, context, s.Tables(), r);
      }
    }
  }

  lemma KnowledgeConcluded(g: Grammar, rt: Runtime, obs: Observation, context: Context, input: Input, r: Response,
                           kept: seq<Mapping>, facts: seq<Knowledge>)
    requires r.Selected? && input.kind.KnowledgeCall? && rt.stage in {InitialGrounding, P2Incremental}
    requires obs.what !in {Schema, Metadata} && rt.state.tables.Some? && rt.state.joinKeys.Some?
    ensures var next := rt.state.(mapping := Some(kept), knowledge := Some(facts));
            Concluded(rt, obs, context, input, r, (next, NoFocus))
            == Some(Runtime(rt.revision + (if next == rt.state then 0 else 1), rt.stage, NoFocus, next))
  {
  }

  /** A knowledge reply is taken when its ids are listed and the resulting State is valid: it writes exactly the selected
      definitions, and the mappings except for phrases left unresolved. */
  lemma KnowledgeOutcome(g: Grammar, rt: Runtime, obs: Observation, context: Context, input: Input, repairAllowed: bool,
                         mapping: seq<Mapping>, ids: seq<int>, kept: seq<Mapping>, facts: seq<Knowledge>, second: Reply)
    requires input.kind.KnowledgeCall? && obs.what !in {Schema, Metadata}
    requires Process(g, rt, obs, context, input, repairAllowed, Answer(Selected(mapping, ids)), second).calls > 0
    requires MappedPhrases(rt.state.Mappings()) !! OmittedPhrases(input.Omitted()) && Keeps(input, mapping, kept)
    requires Selectable(g, input, ids) && Writes(g, rt, input, ids, facts) && (!input.IsP2() ==> SelectsApart(input, ids))
    requires ids == [] ==> kept == rt.state.Mappings()
    requires rt.state.tables.Some? && rt.state.joinKeys.Some?
    requires ValidState(g, context, rt.state.(mapping := Some(kept), knowledge := Some(facts)))
    ensures Takes(Process(g, rt, obs, context, input, repairAllowed, Answer(Selected(mapping, ids)), second), rt,
                  rt.state.(mapping := Some(kept), knowledge := Some(facts)), NoFocus)
  {
    var r, next := Selected(mapping, ids), rt.state.(mapping := Some(kept), knowledge := Some(facts));
    AskedStage(g, rt, obs, context, input, repairAllowed, Answer(r), second);
    SelectionAdmitted(rt.state, input, mapping, ids);
    ValidIsCrossConsistent(g, context, next);
    KnowledgeMaterialized(g, rt, input, kept, ids, facts);
    KnowledgeConcluded(g, rt, obs, context, input, r, kept, facts);
    SettledTakes(rt, Candidate(g, rt, obs, context, input, r).value);
  }

  // ----- checks

  /** The part of a check's decision that does not depend on its evidence. */
  ghost predicate Decides(rt: Runtime, context: Context, input: Input, r: Response)
  {
    && r.Checked? && input.unresolved.Some? && (r.complete ==> input.unresolved.value == [])
    && (r.clarifies.Some? ==> Quoted(context, r.clarifies.value))
    && (r.route == NoRoute <==> input.evidence != LatestUserAnswer)
    && rt.state.Complete()
  }

  lemma CheckConcluded(rt: Runtime, obs: Observation, context: Context, input: Input, r: Response)
    requires input.kind.CheckCall? && rt.stage in {InitialGrounding, P2Incremental} && Decides(rt, context, input, r)
    requires CheckOk(rt.state, rt.state.(mapping := Some(r.mapping), knowledge := Some(r.knowledge)), input, r)
    requires obs.what in {Schema, Metadata} ==> Some(r.knowledge) == rt.state.knowledge
    ensures var next := rt.state.(mapping := Some(r.mapping), knowledge := Some(r.knowledge));
            Concluded(rt, obs, context, input, r, (next, NoFocus))
            == Some(Runtime(rt.revision + (if next == rt.state then 0 else 1), rt.stage, NoFocus, next))
  {
  }

  lemma CheckProposed(g: Grammar, rt: Runtime, context: Context, input: Input, r: Response)
    requires input.kind.CheckCall? && r.Checked?
    requires ValidState(g, context, rt.state.(mapping := Some(r.mapping), knowledge := Some(r.knowledge)))
    ensures Proposed(g, rt, context, input, r)
            == Some((rt.state.(mapping := Some(r.mapping), knowledge := Some(r.knowledge)), NoFocus))
  {
  }

  lemma CheckCandidate(g: Grammar, rt: Runtime, obs: Observation, context: Context, input: Input, r: Response)
    requires input.kind.CheckCall? && rt.stage in {InitialGrounding, P2Incremental} && Decides(rt, context, input, r)
    requires CheckOk(rt.state, rt.state.(mapping := Some(r.mapping), knowledge := Some(r.knowledge)), input, r)
    requires ValidState(g, context, rt.state.(mapping := Some(r.mapping), knowledge := Some(r.knowledge)))
    requires obs.what in {Schema, Metadata} ==> Some(r.knowledge) == rt.state.knowledge
    ensures var next := rt.state.(mapping := Some(r.mapping), knowledge := Some(r.knowledge));
            Candidate(g, rt, obs, context, input, r)
            == Some(Runtime(rt.revision + (if next == rt.state then 0 else 1), rt.stage, NoFocus, next))
  {
    CheckProposed(g, rt, context, input, r);
    CheckConcluded(rt, obs, context, input, r);
  }

  lemma CheckTaken(g: Grammar, rt: Runtime, obs: Observation, context: Context, input: Input, repairAllowed: bool,
                   r: Response, second: Reply)
    requires input.kind.CheckCall? && Decides(rt, context, input, r)
    requires Process(g, rt, obs, context, input, repairAllowed, Answer(r), second).calls > 0
    requires CheckOk(rt.state, rt.state.(mapping := Some(r.mapping), knowledge := Some(r.knowledge)), input, r)
    requires ValidState(g, context, rt.state.(mapping := Some(r.mapping), knowledge := Some(r.knowledge)))
    requires obs.what in {Schema, Metadata} ==> Some(r.knowledge) == rt.state.knowledge
    ensures Takes(Process(g, rt, obs, context, input, repairAllowed, Answer(r), second), rt,
                  rt.state.(mapping := Some(r.mapping), knowledge := Some(r.knowledge)), NoFocus)
  {
    AskedStage(g, rt, obs, context, input, repairAllowed, Answer(r), second);
    CheckCandidate(g, rt, obs, context, input, r);
    SettledTakes(rt, Candidate(g, rt, obs, context, input, r).value);
  }

  /** A check that leaves the State as it is, on any evidence, is taken. */
  lemma CheckConfirms(g: Grammar, rt: Runtime, obs: Observation, context: Context, input: Input, repairAllowed: bool,
                      r: Response, second: Reply)
    requires input.kind.CheckCall? && Decides(rt, context, input, r) && ValidState(g, context, rt.state)
    requires Process(g, rt, obs, context, input, repairAllowed, Answer(r), second).calls > 0
    requires rt.state.mapping == Some(r.mapping) && rt.state.knowledge == Some(r.knowledge)
    ensures Takes(Process(g, rt, obs, context, input, repairAllowed, Answer(r), second), rt, rt.state, NoFocus)
  {
    assert rt.state.(mapping := Some(r.mapping), knowledge := Some(r.knowledge)) == rt.state;
    assert ChangedPhrases(rt.state, rt.state) == {};
    CheckTaken(g, rt, obs, context, input, repairAllowed, r, second);
  }

  /** A column's meaning may replace the targets of one mapped phrase. */
  lemma ColumnMeaningRepairs(g: Grammar, rt: Runtime, obs: Observation, context: Context, input: Input,
                             repairAllowed: bool, r: Response, k: nat, targets: seq<string>, second: Reply)
    requires input.kind.CheckCall? && Decides(rt, context, input, r)
    requires input.evidence.LatestTool? && input.evidence.name == "get_column_meaning"
    requires Process(g, rt, obs, context, input, repairAllowed, Answer(r), second).calls > 0
    requires k < |rt.state.Mappings()| && UniquePhrases(rt.state.Mappings())
    requires r.mapping == rt.state.Mappings()[k := Mapping(rt.state.Mappings()[k].phrase, targets)]
    requires rt.state.knowledge == Some(r.knowledge)
    requires ValidState(g, context, rt.state.(mapping := Some(r.mapping)))
    ensures Takes(Process(g, rt, obs, context, input, repairAllowed, Answer(r), second), rt,
                  rt.state.(mapping := Some(r.mapping)), NoFocus)
  {
    var ms, next := rt.state.Mappings(), rt.state.(mapping := Some(r.mapping));
    assert next == rt.state.(mapping := Some(r.mapping), knowledge := Some(r.knowledge));
    OnePhraseChanges(rt.state, next, k, targets);
    CheckTaken(g, rt, obs, context, input, repairAllowed, r, second);
  }

  lemma {:induction false} TargetsBut(ms: seq<Mapping>, k: nat, m: Mapping, p: string)
    requires k < |ms| && m.phrase == ms[k].phrase && p != m.phrase
    ensures Targets(ms[k := m], p) == Targets(ms, p)
    decreases |ms|
  {
    var last := |ms| - 1;
    if k < last {
      assert ms[k := m][..last] == ms[..last][k := m];
      TargetsBut(ms[..last], k, m, p);
    } else {
      assert ms[k := m][..last] == ms[..last];
    }
  }

  lemma OnePhraseChanges(prior: State, next: State, k: nat, targets: seq<string>)
    requires k < |prior.Mappings()|
    requires next.Mappings() == prior.Mappings()[k := Mapping(prior.Mappings()[k].phrase, targets)]
    ensures MappedPhrases(next.Mappings()) <= MappedPhrases(prior.Mappings()) && |ChangedPhrases(prior, next)| <= 1
  {
    var ms, m := prior.Mappings(), Mapping(prior.Mappings()[k].phrase, targets);
    forall p | p in MappedPhrases(next.Mappings()) ensures p in MappedPhrases(ms) {
      var x: Mapping :| x in ms[k := m] && x.phrase == p;
      var i :| 0 <= i < |ms| && ms[k := m][i] == x;
      assert ms[i].phrase == p && ms[i] in ms;
    }
    forall p | p in ChangedPhrases(prior, next) ensures p in {m.phrase} {
      if p != m.phrase {
        TargetsBut(ms, k, m, p);
      }
    }
    AtMostOne(ChangedPhrases(prior, next), m.phrase);
  }

  lemma AtMostOne<T>(s: set<T>, x: T)
    requires s <= {x}
    ensures |s| <= 1
  {
    assert s == {} || s == {x};
  }

  /** A knowledge definition may add the exact definition found. */
  lemma DefinitionAdds(g: Grammar, rt: Runtime, obs: Observation, context: Context, input: Input, repairAllowed: bool,
                       r: Response, second: Reply)
    requires input.kind.CheckCall? && Decides(rt, context, input, r) && obs.what !in {Schema, Metadata}
    requires input.evidence.LatestTool? && input.evidence.name == "get_knowledge_definition"
    requires input.evidence.definition.Some?
    requires Process(g, rt, obs, context, input, repairAllowed, Answer(r), second).calls > 0
    requires rt.state.mapping == Some(r.mapping)
    requires Elements(r.knowledge) == Elements(rt.state.Facts()) + {Knowledge(BusinessRule, input.evidence.definition.value)}
    requires ValidState(g, context, rt.state.(knowledge := Some(r.knowledge)))
    ensures Takes(Process(g, rt, obs, context, input, repairAllowed, Answer(r), second), rt,
                  rt.state.(knowledge := Some(r.knowledge)), NoFocus)
  {
    var next := rt.state.(knowledge := Some(r.knowledge));
    assert next == rt.state.(mapping := Some(r.mapping), knowledge := Some(r.knowledge));
    var found := Knowledge(BusinessRule, input.evidence.definition.value);
    assert Facts(next) - Facts(rt.state) == if found in Facts(rt.state) then {} else {found};
    CheckTaken(g, rt, obs, context, input, repairAllowed, r, second);
  }

  /** What one latest piece of evidence may change. */
  ghost predicate Licensed(input: Input, prior: State, next: State, p: string, q: string)
  {
    if !input.evidence.LatestTool? then next == prior
    else if input.evidence.name == "get_column_meaning" then
      && next.knowledge == prior.knowledge
      && (p != q ==> Targets(next.Mappings(), p) == Targets(prior.Mappings(), p)
                     || Targets(next.Mappings(), q) == Targets(prior.Mappings(), q))
      && (Targets(next.Mappings(), p).Some? ==> Targets(prior.Mappings(), p).Some?)
    else if input.evidence.name == "get_knowledge_definition" then
      && next.mapping == prior.mapping && Facts(prior) <= Facts(next)
      && forall f :: f in Facts(next) - Facts(prior) ==> input.evidence.definition == Some(f.content) && f.kind == BusinessRule
    else next == prior
  }

  lemma CheckOkIsLicensed(prior: State, next: State, input: Input, r: Response, p: string, q: string)
    requires r.Checked? && CheckOk(prior, next, input, r)
    ensures Licensed(input, prior, next, p, q)
  {
    TargetsOfMapped(next.Mappings(), p);
    TargetsOfMapped(next.Mappings(), q);
    TargetsOfMapped(prior.Mappings(), p);
    TargetsOfMapped(prior.Mappings(), q);
    if p != q {
      TwoOfOne(ChangedPhrases(prior, next), p, q);
    }
  }

  lemma CheckAccepted(g: Grammar, rt: Runtime, obs: Observation, context: Context, input: Input, r: Response)
    requires input.kind.CheckCall? && Candidate(g, rt, obs, context, input, r).Some?
    ensures r.Checked? && CheckOk(rt.state, Candidate(g, rt, obs, context, input, r).value.state, input, r)
  {
  }

  /** What a check that was taken may have changed: nothing without new tool evidence; after a column's meaning at most
      one phrase's targets, and no fact; after a definition at most that one fact, and no mapping. */
  lemma CheckChanges(g: Grammar, rt: Runtime, obs: Observation, context: Context, input: Input, r: Response, p: string,
                     q: string)
    requires input.kind.CheckCall? && Candidate(g, rt, obs, context, input, r).Some?
    ensures Licensed(input, rt.state, Candidate(g, rt, obs, context, input, r).value.state, p, q)
  {
    CheckAccepted(g, rt, obs, context, input, r);
    CheckOkIsLicensed(rt.state, Candidate(g, rt, obs, context, input, r).value.state, input, r, p, q);
  }

  lemma {:induction false} TargetsOfMapped(ms: seq<Mapping>, p: string)
    ensures Targets(ms, p).Some? <==> p in MappedPhrases(ms)
    decreases |ms|
  {
    if ms != [] {
      TargetsOfMapped(ms[..|ms| - 1], p);
      assert ms == ms[..|ms| - 1] + [ms[|ms| - 1]];
      OnePhraseMore(ms[..|ms| - 1], ms[|ms| - 1]);
    }
  }

  lemma TwoOfOne<T>(s: set<T>, x: T, y: T)
    requires x != y
    ensures |s| <= 1 ==> !(x in s && y in s)
  {
    if x in s && y in s {
      var rest := s - {x};
      assert y in rest;
      assert |rest| == |s| - 1;
    }
  }

  // ----- repairs

  /** A repair that keeps to its scope and whose State is valid is taken, by the second request. */
  lemma RepairOutcome(g: Grammar, rt: Runtime, obs: Observation, context: Context, input: Input, first: Reply,
                      form: MappingForm, scope: Scope)
    requires input.kind.MappingCall?
    requires Process(g, rt, obs, context, input, true, first, Answer(Mapped(form))).calls == 2
    requires RepairScope(g, rt, context, input, true, first) == Some(scope) && RepairOk(form, scope)
    ensures var res := Process(g, rt, obs, context, input, true, first, Answer(Mapped(form)));
            var next := rt.state.(tables := Some(form.tables), joinKeys := Some(form.joinKeys), mapping := Some(form.mapping));
            var supported := ValidState(g, context, next) && forall u :: u in form.unresolved ==> Quoted(context, u.phrase);
            && res.Result? && res.repair.Some? && res.repair.value.scope == scope
            && if supported && (rt.stage.InitialGrounding? ==> (next.Complete() <==> StartsOver(rt, input)))
               then !res.update.status.Rejected? && res.runtime.state == next && res.repair.value.outcome == RepairAccepted
               else Refuses(res, rt) && res.repair.value.outcome == RepairInvalid
  {
    AskedStage(g, rt, obs, context, input, true, first, Answer(Mapped(form)));
    MappingCandidate(g, rt, obs, context, input, form);
    var candidate := Candidate(g, rt, obs, context, input, Mapped(form));
    if candidate.Some? {
      NothingChangedExactly(rt.state, candidate.value.state);
    }
  }

  // ----- Drafts

  /** A Draft may still be changed, or is not. */
  predicate MayBecome(d: Draft, next: State)
  {
    d.stage in {InitialGrounding, P2Incremental} || next == d.state
  }

  /** A Draft step asks the updater unless it is the final gate or is made for another query or State. */
  lemma DraftAsksExactly(g: Grammar, d: Draft, obs: Observation, context: Context, input: Input, first: Reply)
    ensures ProcessDraft(g, d, obs, context, input, first).calls
            == if input.kind != FinalGateCall && input.query == context.query && input.current == d.state then 1 else 0
  {
    if first.Answer? {
      SettledCalls(d, DraftProposed(g, d, obs, context, input, first.response), 1, None);
    }
  }

  lemma DraftTakes(g: Grammar, d: Draft, obs: Observation, context: Context, input: Input, r: Response, next: State)
    requires input.kind != FinalGateCall && input.query == context.query && input.current == d.state
    requires DraftProposed(g, d, obs, context, input, r)
             == Some(Runtime(d.revision + (if next == d.state then 0 else 1), d.stage, NoFocus, next))
    ensures Takes(ProcessDraft(g, d, obs, context, input, Answer(r)), d, next, NoFocus)
  {
    SettledTakes(d, DraftProposed(g, d, obs, context, input, r).value);
  }

  /** A Draft takes any structure, valid beside the rest of the Draft or not. */
  lemma DraftStructureOutcome(g: Grammar, d: Draft, obs: Observation, context: Context, input: Input, tables: seq<string>,
                              joinKeys: seq<string>)
    requires input.kind.StructureCall? && input.query == context.query && input.current == d.state
    ensures var res := ProcessDraft(g, d, obs, context, input, Answer(Structure(tables, joinKeys)));
            var next := d.state.(tables := Some(tables), joinKeys := Some(joinKeys));
            if MayBecome(d, next) then Takes(res, d, next, NoFocus) else Refuses(res, d)
  {
    var next := d.state.(tables := Some(tables), joinKeys := Some(joinKeys));
    NothingChangedExactly(d.state, next);
    if MayBecome(d, next) {
      DraftTakes(g, d, obs, context, input, Structure(tables, joinKeys), next);
    }
  }

  /** And any mapping whose omissions are verbatim. */
  lemma DraftMappingOutcome(g: Grammar, d: Draft, obs: Observation, context: Context, input: Input, form: MappingForm)
    requires input.kind.MappingCall? && input.query == context.query && input.current == d.state
    ensures var res := ProcessDraft(g, d, obs, context, input, Answer(Mapped(form)));
            var next := d.state.(tables := Some(form.tables), joinKeys := Some(form.joinKeys), mapping := Some(form.mapping));
            if MayBecome(d, next) && forall u :: u in form.unresolved ==> Quoted(context, u.phrase)
            then Takes(res, d, next, NoFocus) else Refuses(res, d)
  {
    var next := d.state.(tables := Some(form.tables), joinKeys := Some(form.joinKeys), mapping := Some(form.mapping));
    NothingChangedExactly(d.state, next);
    if MayBecome(d, next) && forall u :: u in form.unresolved ==> Quoted(context, u.phrase) {
      DraftTakes(g, d, obs, context, input, Mapped(form), next);
    }
  }

  lemma DraftSelection(g: Grammar, d: Draft, obs: Observation, context: Context, input: Input, mapping: seq<Mapping>,
                       ids: seq<int>, kept: seq<Mapping>, facts: seq<Knowledge>)
    requires input.kind.KnowledgeCall? && obs.what !in {Schema, Metadata}
    requires Sanitised(d.state, Selected(mapping, ids), input) == Some(Selected(kept, ids))
    requires var next := d.state.(mapping := Some(kept), knowledge := Some(facts));
             && Materialize(g, d.stage, d.state, Selected(kept, ids), input, true) == Some((next, NoFocus))
             && MayBecome(d, next)
    requires d.state.tables.Some? && d.state.joinKeys.Some?
    ensures var next := d.state.(mapping := Some(kept), knowledge := Some(facts));
            DraftProposed(g, d, obs, context, input, Selected(mapping, ids))
            == Some(Runtime(d.revision + (if next == d.state then 0 else 1), d.stage, NoFocus, next))
  {
    NothingChangedExactly(d.state, d.state.(mapping := Some(kept), knowledge := Some(facts)));
  }

  /** And any selection of listed definitions that leaves the Draft consistent across its dimensions. */
  lemma DraftKnowledgeOutcome(g: Grammar, d: Draft, obs: Observation, context: Context, input: Input, mapping: seq<Mapping>,
                              ids: seq<int>, kept: seq<Mapping>, facts: seq<Knowledge>)
    requires input.kind.KnowledgeCall? && obs.what !in {Schema, Metadata}
    requires input.query == context.query && input.current == d.state
    requires MappedPhrases(d.state.Mappings()) !! OmittedPhrases(input.Omitted()) && Keeps(input, mapping, kept)
    requires Selectable(g, input, ids) && Writes(g, d, input, ids, facts) && (!input.IsP2() ==> SelectsApart(input, ids))
    requires ids == [] ==> kept == d.state.Mappings()
    requires d.state.tables.Some? && d.state.joinKeys.Some?
    requires var next := d.state.(mapping := Some(kept), knowledge := Some(facts));
             CrossConsistent(g, next) && MayBecome(d, next)
    ensures Takes(ProcessDraft(g, d, obs, context, input, Answer(Selected(mapping, ids))), d,
                  d.state.(mapping := Some(kept), knowledge := Some(facts)), NoFocus)
  {
    SelectionAdmitted(d.state, input, mapping, ids);
    UpdateIsWritten(g, d, input, ids, facts);
    DraftSelection(g, d, obs, context, input, mapping, ids, kept, facts);
    DraftTakes(g, d, obs, context, input, Selected(mapping, ids), d.state.(mapping := Some(kept), knowledge := Some(facts)));
  }

  /** A structure given to a new Draft is in the Draft, and formal once the Draft has been committed: on a final check,
      if it is then valid, and complete before the first attempt. */
  lemma DraftedStructureIsAdopted(g: Grammar, s: Session, obs: Observation, context: Context, input: Input,
                                  tables: seq<string>, joinKeys: seq<string>, evidence: Context, check: Response)
    requires input.kind.StructureCall? && input.query == context.query && input.current == s.runtime.state
    requires s.runtime.stage in {InitialGrounding, P2Incremental}
    ensures var next := s.runtime.state.(tables := Some(tables), joinKeys := Some(joinKeys));
            var drafted := [BeginDraft, DraftCall(obs, context, input, Answer(Structure(tables, joinKeys)))];
            var t, u := Run(g, s, drafted), Run(g, s, drafted + [CommitDraft(evidence, check)]);
            && t.runtime == s.runtime && t.draft.Some? && t.draft.value.state == next
            && if IsFinal(check) && ValidState(g, evidence, next) && (s.runtime.stage.InitialGrounding? ==> next.Complete())
               then u.runtime.state == next && u.draft.None? else u == t
  {
    var next := s.runtime.state.(tables := Some(tables), joinKeys := Some(joinKeys));
    var e := DraftCall(obs, context, input, Answer(Structure(tables, joinKeys)));
    var drafted, commit := [BeginDraft, e], CommitDraft(evidence, check);
    var begun := s.(draft := Some(s.runtime), base := s.runtime.state);
    assert drafted[..1] == [BeginDraft] && drafted[..1][..0] == [] && (drafted + [commit])[..2] == drafted;
    assert Run(g, s, drafted[..1]) == begun;
    DraftStructureOutcome(g, s.runtime, obs, context, input, tables, joinKeys);
    var t := Run(g, s, drafted);
    assert t == Step(g, begun, e);
    CommitsExactly(g, s.runtime, t.draft.value, evidence, check);
    assert Run(g, s, drafted + [commit]) == Step(g, t, commit);
  }
}
