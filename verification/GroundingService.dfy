/** The staged Grounding service: one proposal, or one proposal and one repair, accepted or rejected as a whole
    (valibra_agent/sql_grounding/service.py). The updater's replies are arbitrary. */
module GroundingService {
  import opened Options
  import opened Canonical
  import opened GroundingModels
  import opened MappingRepair

  datatype CallKind = StructureCall | MappingCall | KnowledgeCall | CheckCall | FinalGateCall

  datatype Route = NoRoute | StayCheck | RestartGrounding | Terminal

  /** The forms an updater can answer with, as constructed: canonical lists. A check's tool request is kept only as
      far as its clarification phrase, if any. */
  datatype Response =
    | Structure(tables: seq<string>, joinKeys: seq<string>)
    | Mapped(form: MappingForm)
    | Selected(mapping: seq<Mapping>, ids: seq<int>)
    | Checked(complete: bool, route: Route, missing: bool, nextTool: bool, clarifies: Option<string>,
              mapping: seq<Mapping>, knowledge: seq<Knowledge>)
    | FinalGate

  /** What the validators of each form guarantee. */
  ghost predicate WellFormed(r: Response)
  {
    match r
    case Structure(tables, joinKeys) => CanonicalTexts(tables) && CanonicalTexts(joinKeys)
    case Mapped(form) => CanonicalTexts(form.tables) && CanonicalTexts(form.joinKeys) && FormOk(form)
    case Selected(mapping, ids) => CanonicalMappings(mapping) && Distinct(ids)
    case Checked(complete, route, missing, nextTool, clarifies, mapping, knowledge) =>
      && CanonicalMappings(mapping) && CanonicalFacts(knowledge)
      && (route.RestartGrounding? || route.Terminal? ==> !complete && !nextTool)
      && (if complete then !missing && !nextTool else missing)
      && (clarifies.Some? ==> nextTool)
    case FinalGate => true
  }

  /** A reply of the updater: a form, a typed refusal (with the rejected form when it still parses), or any other
      exception. */
  datatype Reply = Answer(response: Response) | Refused(rejected: Option<RawForm>) | Crash

  ghost predicate ReplyOk(r: Reply)
  {
    r.Answer? ==> WellFormed(r.response)
  }

  datatype ObservationType =
    | UserQuery | P2FollowUp | Schema | Metadata | KnowledgeText | UserAnswer | SqlExecution | Submission | ToolError

  datatype Observation = Observation(id: string, phase: int, what: ObservationType, tool: Option<string>, content: string)

  /** An answered clarification; questions are their identity. */
  datatype Clarification = Clarification(phase: int, question: string, answer: Option<string>)

  /** One entry of the Official knowledge listing: whether its fields are the allowed ones, its id if it is an
      integer, and its definition if it is a text. */
  datatype Rule = Rule(fieldsOk: bool, id: Option<int>, definition: Option<string>)

  /** The latest evidence of a check. A tool carries the exact Official definition found in its result, if any. */
  datatype Evidence =
    | CheckContext
    | LatestTool(name: string, definition: Option<string>)
    | NullTool
    | LatestUserAnswer

  datatype Input = Input(
    kind: CallKind,
    query: string,
    followUp: Option<string>,
    current: State,
    clarifications: Option<seq<Clarification>>,
    unresolved: Option<seq<Unresolved>>,
    rules: Option<seq<Rule>>,
    evidence: Evidence)
  {
    /** A Phase 2 input is recognised by its follow-up text. */
    predicate IsP2()
    {
      followUp.Some?
    }

    function Clarifications(): seq<Clarification>
    {
      if clarifications.Some? then clarifications.value else []
    }

    function Omitted(): seq<Unresolved>
    {
      if unresolved.Some? then unresolved.value else []
    }
  }

  // ----- input validation

  predicate ObservationOk(rt: Runtime, obs: Observation, context: Context)
  {
    && context.latestObservation == obs.id
    && (obs.what.UserQuery? ==> rt.stage.InitialGrounding? && obs.phase == 1 && obs.content == context.query)
    && (obs.what.P2FollowUp? ==> rt.stage.P2Incremental? && obs.phase == 2 && Some(obs.content) == context.followUp)
  }

  predicate ClarificationsOk(obs: Observation, records: seq<Clarification>)
  {
    && (forall c :: c in records ==> c.phase <= obs.phase && c.answer.Some?)
    && (forall i, j :: 0 <= i < j < |records| ==> records[i].question != records[j].question)
  }

  predicate AnswersClarification(obs: Observation, records: seq<Clarification>)
  {
    && obs.what.UserAnswer? && obs.tool == Some("ask_user")
    && exists c :: c in records && c.phase == obs.phase && c.answer == Some(obs.content)
  }

  predicate ToolEvidence(obs: Observation, what: ObservationType, tool: string)
  {
    obs.what == what && obs.tool == Some(tool)
  }

  /** The observation that supports the call in Phase 1. */
  predicate SupportsP1(obs: Observation, input: Input)
  {
    if input.kind.CheckCall? && (input.evidence.LatestTool? || input.evidence.NullTool?) then obs.tool.Some?
    else if AnswersClarification(obs, input.Clarifications()) then true
    else
      match input.kind
      case StructureCall => ToolEvidence(obs, Schema, "get_schema")
      case MappingCall => ToolEvidence(obs, Metadata, "get_all_column_meanings")
      case KnowledgeCall => ToolEvidence(obs, KnowledgeText, "get_all_knowledge_definitions")
      case CheckCall =>
        if input.evidence.CheckContext? then ToolEvidence(obs, KnowledgeText, "get_all_knowledge_definitions")
        else ToolEvidence(obs, UserAnswer, "ask_user")
      case FinalGateCall => false
  }

  predicate SupportsP2(obs: Observation, input: Input)
  {
    if !input.kind.CheckCall? || input.evidence.CheckContext? then
      AnswersClarification(obs, input.Clarifications()) || obs.what.P2FollowUp?
    else if input.evidence.LatestUserAnswer? then ToolEvidence(obs, UserAnswer, "ask_user")
    else obs.tool.Some?
  }

  predicate InputOk(rt: Runtime, obs: Observation, context: Context, input: Input)
  {
    && ObservationOk(rt, obs, context)
    && !input.kind.FinalGateCall?
    && ClarificationsOk(obs, input.Clarifications())
    && (|| (rt.stage.InitialGrounding? && obs.phase == 1 && SupportsP1(obs, input))
        || (rt.stage.P2Incremental? && obs.phase == 2 && SupportsP2(obs, input)))
    && (input.kind.CheckCall? ==>
          && !input.evidence.NullTool?
          && (input.evidence.LatestTool? ==> Some(input.evidence.name) == obs.tool)
          && (input.evidence.LatestUserAnswer? ==> obs.what.UserAnswer?))
    && input.query == context.query
    && input.current == rt.state
    && (obs.phase == 2 ==> input.followUp == context.followUp && input.clarifications.Some?)
  }

  // ----- materialization

  /** Knowledge may not map a phrase that Mapping left unresolved; such mappings are dropped. */
  function Sanitised(prior: State, r: Response, input: Input): Option<Response>
    requires r.Selected?
  {
    var unresolved := OmittedPhrases(input.Omitted());
    if unresolved == {} then Some(r)
    else if MappedPhrases(prior.Mappings()) * unresolved != {} then None
    else Some(Selected(Without(r.mapping, unresolved), r.ids))
  }

  function Without(ms: seq<Mapping>, phrases: set<string>): seq<Mapping>
  {
    if ms == [] then []
    else
      Without(ms[..|ms| - 1], phrases) + (if ms[|ms| - 1].phrase in phrases then [] else [ms[|ms| - 1]])
  }

  predicate RuleOk(g: Grammar, rule: Rule)
  {
    rule.fieldsOk && rule.id.Some? && rule.definition.Some? && g.isContent(rule.definition.value)
  }

  /** Every entry is acceptable and no id repeats. */
  predicate RulesOk(g: Grammar, rules: seq<Rule>)
  {
    rules != [] ==>
      var before, last := rules[..|rules| - 1], rules[|rules| - 1];
      RulesOk(g, before) && RuleOk(g, last) && last.id.value !in RulesById(before)
  }

  function RulesById(rules: seq<Rule>): map<int, Knowledge>
  {
    if rules == [] then map[]
    else
      var before, last := RulesById(rules[..|rules| - 1]), rules[|rules| - 1];
      if last.id.Some? && last.definition.Some?
      then before[last.id.value := Knowledge(BusinessRule, last.definition.value)] else before
  }

  function SelectRules(byId: map<int, Knowledge>, ids: seq<int>): seq<Knowledge>
    requires forall i :: 0 <= i < |ids| ==> ids[i] in byId
  {
    seq(|ids|, i requires 0 <= i < |ids| => byId[ids[i]])
  }

  /** The exact Official definitions of the selected ids. */
  function OfficialRules(g: Grammar, ids: seq<int>, input: Input): Option<seq<Knowledge>>
  {
    if input.rules.None? || !RulesOk(g, input.rules.value) then None
    else
      var byId := RulesById(input.rules.value);
      if forall i :: 0 <= i < |ids| ==> ids[i] in byId then Some(SelectRules(byId, ids)) else None
  }

  /** The loop that checks and indexes the listing. */
  method IndexRules(g: Grammar, rules: seq<Rule>) returns (byId: Option<map<int, Knowledge>>)
    ensures byId == if RulesOk(g, rules) then Some(RulesById(rules)) else None
  {
    var found: map<int, Knowledge> := map[];
    for k := 0 to |rules|
      invariant RulesOk(g, rules[..k]) && found == RulesById(rules[..k])
    {
      var rule := rules[k];
      assert rules[..k + 1][..k] == rules[..k];
      if !rule.fieldsOk || rule.id.None? || rule.id.value in found
         || rule.definition.None? || !g.isContent(rule.definition.value) {
        BadPrefix(g, rules, k + 1);
        return None;
      }
      found := found[rule.id.value := Knowledge(BusinessRule, rule.definition.value)];
    }
    assert rules[..|rules|] == rules;
    byId := Some(found);
  }

  lemma {:induction false} BadPrefix(g: Grammar, rules: seq<Rule>, k: nat)
    requires k <= |rules| && !RulesOk(g, rules[..k])
    ensures !RulesOk(g, rules)
    decreases |rules| - k
  {
    if k == |rules| {
      assert rules[..k] == rules;
    } else {
      assert rules[..k + 1][..k] == rules[..k];
      BadPrefix(g, rules, k + 1);
    }
  }

  /** In Phase 2 nothing known is dropped: the selection is merged into what is there. */
  function KnowledgeUpdate(g: Grammar, prior: State, ids: seq<int>, input: Input): Option<seq<Knowledge>>
  {
    var selected := OfficialRules(g, ids, input);
    if selected.None? || !input.IsP2() then selected else Some(Canon(FactLess, prior.Facts() + selected.value))
  }

  /** The State a form stands for, with the focus that follows; `None` is a validation error. */
  function Materialize(g: Grammar, stage: Stage, prior: State, r: Response, input: Input, draft: bool):
    Option<(State, Focus)>
  {
    var cycle := draft || (stage.InitialGrounding? && prior.Complete() && input.Clarifications() != []);
    match (input.kind, r)
    case (StructureCall, Structure(tables, joinKeys)) =>
      Some((prior.(tables := Some(tables), joinKeys := Some(joinKeys)), if cycle then NoFocus else OnMapping))
    case (MappingCall, Mapped(form)) =>
      Some((MappedState(prior, form), if cycle then NoFocus else OnKnowledge))
    case (KnowledgeCall, Selected(mapping, ids)) =>
      if ids == [] && mapping != prior.Mappings() then None
      else
        var update := KnowledgeUpdate(g, prior, ids, input);
        if update.None? || ParseFacts(g, update.value).None? then None
        else
          var next := prior.(mapping := Some(mapping), knowledge := ParseFacts(g, update.value));
          if CrossConsistent(g, next) then Some((next, NoFocus)) else None
    case (CheckCall, Checked(_, _, _, _, _, mapping, knowledge)) =>
      Some((prior.(mapping := Some(mapping), knowledge := Some(knowledge)), NoFocus))
    case _ => None
  }

  // ----- validation of a materialized State

  function Authorized(kind: CallKind): set<Dimension>
  {
    match kind
    case StructureCall => {DTables, DJoinKeys}
    case MappingCall => {DTables, DJoinKeys, DMapping}
    case KnowledgeCall => {DMapping, DKnowledge}
    case CheckCall => {DMapping, DKnowledge}
    case FinalGateCall => {}
  }

  predicate StagedOk(kind: CallKind, prior: State, next: State)
  {
    match kind
    case StructureCall =>
      next.tables.Some? && next.joinKeys.Some? && next.mapping == prior.mapping && next.knowledge == prior.knowledge
    case MappingCall =>
      next.tables.Some? && next.joinKeys.Some? && next.mapping.Some? && next.knowledge == prior.knowledge
    case KnowledgeCall | CheckCall =>
      next.Complete() && next.tables == prior.tables && next.joinKeys == prior.joinKeys
    case FinalGateCall => false
  }

  function ChangedPhrases(prior: State, next: State): set<string>
  {
    set p | p in MappedPhrases(prior.Mappings()) + MappedPhrases(next.Mappings())
            && Targets(prior.Mappings(), p) != Targets(next.Mappings(), p)
  }

  /** The targets a phrase is mapped to. */
  function Targets(ms: seq<Mapping>, phrase: string): Option<seq<string>>
  {
    if ms == [] then None
    else if ms[|ms| - 1].phrase == phrase then Some(ms[|ms| - 1].targets)
    else Targets(ms[..|ms| - 1], phrase)
  }

  function Facts(s: State): set<Knowledge>
  {
    Elements(s.Facts())
  }

  /** What a check may do with its one latest piece of evidence. */
  predicate CheckOk(prior: State, next: State, input: Input, check: Response)
    requires check.Checked?
  {
    && input.unresolved.Some?
    && (check.complete ==> input.unresolved.value == [])
    && (input.evidence.LatestUserAnswer? <==> !check.route.NoRoute?)
    && match input.evidence
       case LatestUserAnswer => prior == next
       case CheckContext | NullTool => prior == next
       case LatestTool(name, definition) =>
         if name == "get_column_meaning" then
           && next.knowledge == prior.knowledge
           && MappedPhrases(next.Mappings()) <= MappedPhrases(prior.Mappings())
           && |ChangedPhrases(prior, next)| <= 1
         else if name == "get_knowledge_definition" then
           && next.mapping == prior.mapping
           && Facts(prior) <= Facts(next)
           && var added := Facts(next) - Facts(prior);
           && |added| <= 1
           && (added != {} ==> definition.Some? && added == {Knowledge(BusinessRule, definition.value)})
         else prior == next
  }

  predicate DiffOk(prior: State, next: State, obs: Observation, input: Input, r: Response)
  {
    && StagedOk(input.kind, prior, next)
    && (input.kind.CheckCall? && r.Checked? ==> CheckOk(prior, next, input, r))
    && ((obs.what.Schema? || obs.what.Metadata?) && prior.knowledge != next.knowledge ==>
          prior.knowledge.None? && next.knowledge == Some([]))
  }

  predicate OmissionsQuoted(context: Context, r: Response)
  {
    r.Mapped? ==> forall u :: u in r.form.unresolved ==> Quoted(context, u.phrase)
  }

  /** The form with what the service ignores removed. */
  function Admitted(prior: State, r: Response, input: Input): Option<Response>
  {
    if input.kind.KnowledgeCall? && r.Selected? then Sanitised(prior, r, input) else Some(r)
  }

  /** First half of the validation: up to a State supported by its context. */
  function Proposed(g: Grammar, rt: Runtime, context: Context, input: Input, r: Response): Option<(State, Focus)>
  {
    var admitted := Admitted(rt.state, r, input);
    if admitted.None? || !OmissionsQuoted(context, admitted.value) then None
    else
      var m := Materialize(g, rt.stage, rt.state, admitted.value, input, false);
      if m.Some? && ValidState(g, context, m.value.0) then m else None
  }

  /** Second half: the candidate Runtime. */
  function Concluded(rt: Runtime, obs: Observation, context: Context, input: Input, r: Response, m: (State, Focus)):
    Option<Runtime>
  {
    var next := Runtime(rt.revision + Bump(rt.state, m.0), rt.stage, m.1, m.0);
    if && (r.Checked? && r.clarifies.Some? ==> Quoted(context, r.clarifies.value))
       && FocusOk(rt.stage, m.1, m.0)
       && StateTransitionOk(rt.stage, Authorized(input.kind), rt.state, m.0)
       && DiffOk(rt.state, m.0, obs, input, r)
       && RuntimeTransitionOk(Authorized(input.kind), rt, next)
    then Some(next) else None
  }

  function Candidate(g: Grammar, rt: Runtime, obs: Observation, context: Context, input: Input, r: Response):
    Option<Runtime>
  {
    var m := Proposed(g, rt, context, input, r);
    if m.None? then None else Concluded(rt, obs, context, input, r, m.value)
  }

  // ----- the service

  datatype Status = Accepted | Rejected | Noop

  /** The telemetry record of one update. */
  datatype Update = Update(
    status: Status,
    before: Runtime,
    after: Runtime,
    changed: set<Dimension>)

  /** The accounting rules every record must meet. */
  predicate Accounted(u: Update)
  {
    var moved := u.after.focus != u.before.focus;
    && (!u.status.Rejected? ==> u.after.revision == u.before.revision + (if u.changed == {} then 0 else 1))
    && (u.status.Rejected? ==>
          u.after.revision == u.before.revision && u.after.state == u.before.state && u.changed == {} && !moved)
    && (u.status.Noop? ==> u.changed == {} && !moved)
    && (u.status.Accepted? ==> u.changed != {} || moved)
  }

  datatype Outcome = RepairAccepted | RepairProviderFailed | RepairInvalid

  datatype Repair = Repair(scope: Scope, outcome: Outcome)

  /** What a call returns: the Runtime, its record and how often the updater was asked; or the exception that left it. */
  datatype Result =
    | Result(runtime: Runtime, update: Update, calls: nat, repair: Option<Repair>)
    | Escaped(calls: nat)

  function Rejection(rt: Runtime, calls: nat, repair: Option<Repair>): Result
  {
    Result(rt, Update(Rejected, rt, rt, {}), calls, repair)
  }

  function Settled(rt: Runtime, next: Option<Runtime>, calls: nat, scope: Option<Scope>): Result
  {
    if next.None? then
      Rejection(rt, calls, if scope.Some? then Some(Repair(scope.value, RepairInvalid)) else None)
    else
      var changed := Changed(rt.state, next.value.state);
      var status := if changed != {} || next.value.focus != rt.focus then Accepted else Noop;
      Result(if status.Noop? then rt else next.value, Update(status, rt, next.value, changed), calls,
             if scope.Some? then Some(Repair(scope.value, RepairAccepted)) else None)
  }

  /** The answer to a repair request. */
  function Repaired(g: Grammar, rt: Runtime, obs: Observation, context: Context, input: Input, scope: Scope,
                    r: Response): Result
  {
    if r.Mapped? && RepairOk(r.form, scope)
    then Settled(rt, Candidate(g, rt, obs, context, input, r), 2, Some(scope))
    else Settled(rt, None, 2, Some(scope))
  }

  /** The scope of the one repair a first reply allows, if any. */
  function RepairScope(g: Grammar, rt: Runtime, context: Context, input: Input, repairAllowed: bool, first: Reply):
    Option<Scope>
  {
    if !repairAllowed || !input.kind.MappingCall? then None
    else
      match first
      case Refused(rejected) => if rejected.Some? then FormScope(g, rejected.value) else None
      case Answer(r) =>
        if Proposed(g, rt, context, input, r).None? && r.Mapped? then StateScope(g, context, rt.state, r.form) else None
      case Crash => None
  }

  /** One call of the service. The second reply is used only when a repair is asked for. */
  function Process(g: Grammar, rt: Runtime, obs: Observation, context: Context, input: Input, repairAllowed: bool,
                   first: Reply, second: Reply): Result
  {
    if !InputOk(rt, obs, context, input) then Rejection(rt, 0, None)
    else
      var scope := RepairScope(g, rt, context, input, repairAllowed, first);
      if scope.None? then
        if first.Answer? then Settled(rt, Candidate(g, rt, obs, context, input, first.response), 1, None)
        else Rejection(rt, 1, None)
      else
        match second
        case Answer(r) => Repaired(g, rt, obs, context, input, scope.value, r)
        case Refused(_) => Rejection(rt, 2, Some(Repair(scope.value, RepairProviderFailed)))
        case Crash =>
          if first.Refused? then Escaped(2) else Rejection(rt, 2, Some(Repair(scope.value, RepairInvalid)))
  }

  // ----- what every call keeps

  /** One legal step of the Runtime. */
  ghost predicate Steps(g: Grammar, context: Context, kind: CallKind, before: Runtime, after: Runtime)
  {
    && after.stage == before.stage
    && RuntimeOk(after)
    && ValidState(g, context, after.state)
    && RuntimeTransitionOk(Authorized(kind), before, after)
  }

  lemma CandidateSteps(g: Grammar, rt: Runtime, obs: Observation, context: Context, input: Input, r: Response)
    requires Candidate(g, rt, obs, context, input, r).Some?
    ensures Steps(g, context, input.kind, rt, Candidate(g, rt, obs, context, input, r).value)
  {
  }

  // ----- what an accepted State contains

  /** The Official definitions behind the selected ids. */
  function Definitions(input: Input, ids: seq<int>): set<Knowledge>
  {
    if input.rules.None? then {}
    else
      set rule | rule in input.rules.value && rule.id.Some? && rule.id.value in ids && rule.definition.Some?
        :: Knowledge(BusinessRule, rule.definition.value)
  }

  lemma {:induction false} WithoutKeepsTheRest(ms: seq<Mapping>, phrases: set<string>)
    ensures forall m :: m in Without(ms, phrases) <==> m in ms && m.phrase !in phrases
  {
    if ms != [] {
      WithoutKeepsTheRest(ms[..|ms| - 1], phrases);
      assert ms == ms[..|ms| - 1] + [ms[|ms| - 1]];
    }
  }

  lemma {:induction false} IndexedDefinitions(g: Grammar, rules: seq<Rule>)
    requires RulesOk(g, rules)
    ensures forall rule :: rule in rules ==>
              && rule.id.Some? && rule.definition.Some? && rule.id.value in RulesById(rules)
              && RulesById(rules)[rule.id.value] == Knowledge(BusinessRule, rule.definition.value)
  {
    if rules != [] {
      var before, last := rules[..|rules| - 1], rules[|rules| - 1];
      IndexedDefinitions(g, before);
      assert rules == before + [last];
    }
  }

  lemma {:induction false} RuleOf(rules: seq<Rule>, id: int) returns (rule: Rule)
    requires id in RulesById(rules)
    ensures rule in rules && rule.id == Some(id)
  {
    var before, last := rules[..|rules| - 1], rules[|rules| - 1];
    if last.id == Some(id) {
      rule := last;
    } else {
      rule := RuleOf(before, id);
    }
  }

  /** Resolving ids yields exactly the definitions listed under them. */
  lemma SelectionIsExact(g: Grammar, ids: seq<int>, input: Input)
    requires OfficialRules(g, ids, input).Some?
    ensures Elements(OfficialRules(g, ids, input).value) == Definitions(input, ids)
  {
    var rules, byId := input.rules.value, RulesById(input.rules.value);
    var selected := OfficialRules(g, ids, input).value;
    IndexedDefinitions(g, rules);
    forall k | k in Elements(selected) ensures k in Definitions(input, ids) {
      var i :| 0 <= i < |ids| && selected[i] == k;
      assert ids[i] in ids;
      assert ids[i] in byId;
      var rule := RuleOf(rules, ids[i]);
      assert rule.definition.Some? && byId[rule.id.value] == Knowledge(BusinessRule, rule.definition.value);
    }
    forall k | k in Definitions(input, ids) ensures k in Elements(selected) {
      var rule :| rule in rules && rule.id.Some? && rule.id.value in ids && k == Knowledge(BusinessRule, rule.definition.value);
      var i :| 0 <= i < |ids| && ids[i] == rule.id.value;
      assert selected[i] == byId[ids[i]];
    }
  }

  /** A knowledge call writes exactly the definitions of the selected ids - in Phase 2 beside what was known - and the
      proposed mappings except those for phrases that Mapping left unresolved. */
  lemma KnowledgeCallContent(g: Grammar, rt: Runtime, obs: Observation, context: Context, input: Input,
                             mapping: seq<Mapping>, ids: seq<int>)
    requires input.kind.KnowledgeCall? && Candidate(g, rt, obs, context, input, Selected(mapping, ids)).Some?
    ensures var next := Candidate(g, rt, obs, context, input, Selected(mapping, ids)).value.state;
            && next.tables == rt.state.tables && next.joinKeys == rt.state.joinKeys
            && Elements(next.Facts()) == Definitions(input, ids) + (if input.IsP2() then Elements(rt.state.Facts()) else {})
            && (forall m :: m in next.Mappings() <==> m in mapping && m.phrase !in OmittedPhrases(input.Omitted()))
  {
    WithoutKeepsTheRest(mapping, OmittedPhrases(input.Omitted()));
    SelectionIsExact(g, ids, input);
    var selected := OfficialRules(g, ids, input).value;
    var update := KnowledgeUpdate(g, rt.state, ids, input).value;
    CanonElements(FactLess, update);
    if input.IsP2() {
      CanonElements(FactLess, rt.state.Facts() + selected);
      assert Elements(rt.state.Facts() + selected) == Elements(rt.state.Facts()) + Elements(selected);
    }
  }

  /** A structure, mapping or check call writes exactly the dimensions of its form and leaves the others alone. */
  lemma CallContent(g: Grammar, rt: Runtime, obs: Observation, context: Context, input: Input, r: Response)
    requires Candidate(g, rt, obs, context, input, r).Some?
    ensures var prior, next := rt.state, Candidate(g, rt, obs, context, input, r).value.state;
            match input.kind
            case StructureCall =>
              && r.Structure? && next.tables == Some(r.tables) && next.joinKeys == Some(r.joinKeys)
              && next.mapping == prior.mapping && next.knowledge == prior.knowledge
            case MappingCall =>
              && r.Mapped? && next.tables == Some(r.form.tables) && next.joinKeys == Some(r.form.joinKeys)
              && next.mapping == Some(r.form.mapping) && next.knowledge == prior.knowledge
            case CheckCall =>
              && r.Checked? && next.mapping == Some(r.mapping) && next.knowledge == Some(r.knowledge)
              && next.tables == prior.tables && next.joinKeys == prior.joinKeys
              && (!input.evidence.LatestTool? ==> next == prior)
            case KnowledgeCall => r.Selected?
            case FinalGateCall => false
  {
  }

  /** What a result promises about the Runtime it was computed from. */
  ghost predicate Atomic(g: Grammar, context: Context, kind: CallKind, rt: Runtime, res: Result)
  {
    res.Result? ==>
      && Accounted(res.update) && res.update.before == rt
      && (if res.update.status.Accepted? then Steps(g, context, kind, rt, res.runtime) && res.runtime != rt
          else res.runtime == rt)
  }

  lemma SettledIsAtomic(g: Grammar, context: Context, kind: CallKind, rt: Runtime, next: Option<Runtime>, calls: nat,
                        scope: Option<Scope>)
    requires next.Some? ==> Steps(g, context, kind, rt, next.value)
    ensures Atomic(g, context, kind, rt, Settled(rt, next, calls, scope))
  {
    if next.Some? {
      NothingChangedExactly(rt.state, next.value.state);
    }
  }

  lemma AnswerIsAtomic(g: Grammar, rt: Runtime, obs: Observation, context: Context, input: Input, r: Response,
                       calls: nat, scope: Option<Scope>)
    ensures Atomic(g, context, input.kind, rt, Settled(rt, Candidate(g, rt, obs, context, input, r), calls, scope))
  {
    var next := Candidate(g, rt, obs, context, input, r);
    if next.Some? {
      CandidateSteps(g, rt, obs, context, input, r);
    }
    SettledIsAtomic(g, context, input.kind, rt, next, calls, scope);
  }

  /** Atomicity: a call that is not accepted leaves the Runtime untouched, and an accepted one makes one legal step
      to a State valid in its context whose revision grows by one exactly when the State changes. */
  lemma CallIsAtomic(g: Grammar, rt: Runtime, obs: Observation, context: Context, input: Input, repairAllowed: bool,
                     first: Reply, second: Reply)
    ensures Atomic(g, context, input.kind, rt, Process(g, rt, obs, context, input, repairAllowed, first, second))
  {
    var scope := RepairScope(g, rt, context, input, repairAllowed, first);
    if scope.None? && first.Answer? {
      AnswerIsAtomic(g, rt, obs, context, input, first.response, 1, None);
    } else if scope.Some? && second.Answer? {
      AnswerIsAtomic(g, rt, obs, context, input, second.response, 2, scope);
    }
  }

  /** A Runtime that changed is the candidate of one of the two answers. */
  lemma ResultIsCandidate(g: Grammar, rt: Runtime, obs: Observation, context: Context, input: Input,
                          repairAllowed: bool, first: Reply, second: Reply)
    ensures var res := Process(g, rt, obs, context, input, repairAllowed, first, second);
            res.Result? ==>
              || res.runtime == rt
              || (first.Answer? && Candidate(g, rt, obs, context, input, first.response) == Some(res.runtime))
              || (second.Answer? && Candidate(g, rt, obs, context, input, second.response) == Some(res.runtime))
  {
  }

  /** An exception leaves the service exactly when the repair of a form that did not parse crashes. */
  lemma EscapesExactly(g: Grammar, rt: Runtime, obs: Observation, context: Context, input: Input, repairAllowed: bool,
                       first: Reply, second: Reply)
    ensures Process(g, rt, obs, context, input, repairAllowed, first, second).Escaped?
            <==> && InputOk(rt, obs, context, input) && repairAllowed && input.kind.MappingCall?
                 && first.Refused? && first.rejected.Some? && Repairable(g, first.rejected.value) && second.Crash?
  {
  }

  lemma SettledCalls(rt: Runtime, next: Option<Runtime>, calls: nat, scope: Option<Scope>)
    ensures var res := Settled(rt, next, calls, scope);
            res.Result? && res.calls == calls && (res.repair.Some? <==> scope.Some?)
  {
  }

  /** The updater is asked at most twice, and twice exactly when a mapping was rejected in a way that can be repaired. */
  lemma AtMostOneRepair(g: Grammar, rt: Runtime, obs: Observation, context: Context, input: Input, repairAllowed: bool,
                        first: Reply, second: Reply)
    ensures var res := Process(g, rt, obs, context, input, repairAllowed, first, second);
            && res.calls <= 2
            && (res.calls == 2 <==> InputOk(rt, obs, context, input)
                                    && RepairScope(g, rt, context, input, repairAllowed, first).Some?)
            && (res.Result? ==> (res.repair.Some? <==> res.calls == 2))
  {
    var scope := RepairScope(g, rt, context, input, repairAllowed, first);
    if scope.None? && first.Answer? {
      SettledCalls(rt, Candidate(g, rt, obs, context, input, first.response), 1, None);
    } else if scope.Some? && second.Answer? {
      SettledCalls(rt, Candidate(g, rt, obs, context, input, second.response), 2, scope);
      SettledCalls(rt, None, 2, scope);
    }
  }

  /** The phrases a rejected reply mapped, in its order. */
  function RejectedPhrases(first: Reply): seq<string>
  {
    match first
    case Refused(Some(raw)) =>
      seq(|raw.items|, i requires 0 <= i < |raw.items| => if raw.items[i].Item? then raw.items[i].phrase else "")
    case Answer(Mapped(form)) => Phrases(form.mapping)
    case _ => []
  }

  /** The phrases a rejected reply left unresolved. */
  function RejectedOmissions(first: Reply): set<string>
  {
    match first
    case Refused(Some(raw)) => OmittedPhrases(raw.unresolved)
    case Answer(Mapped(form)) => OmittedPhrases(form.unresolved)
    case _ => {}
  }

  /** What is wrong with the `i`-th mapping of a rejected reply: its targets do not parse, or it is not supported. */
  predicate Fails(g: Grammar, context: Context, first: Reply, i: nat)
  {
    match first
    case Refused(Some(raw)) => i < |raw.items| && JudgeItem(g, raw.items[i]).good.None?
    case Answer(Mapped(form)) => i < |form.mapping| && !MappingOk(g, context, form.tables, form.mapping[i])
    case _ => false
  }

  /** The `i`-th mapping of a rejected reply as it must survive, when it does not fail. */
  function Surviving(g: Grammar, context: Context, first: Reply, i: nat): Option<Mapping>
  {
    match first
    case Refused(Some(raw)) => if i < |raw.items| then JudgeItem(g, raw.items[i]).good else None
    case Answer(Mapped(form)) =>
      if i < |form.mapping| && MappingOk(g, context, form.tables, form.mapping[i]) then Some(form.mapping[i]) else None
    case _ => None
  }

  /** The scope is that of the rejected reply: its phrases, its omissions, blame for exactly the mappings that fail,
      and every other mapping protected. */
  ghost predicate ScopeReads(g: Grammar, context: Context, first: Reply, scope: Scope)
  {
    && scope.original == RejectedPhrases(first) && OmittedPhrases(scope.unresolved) == RejectedOmissions(first)
    && (forall i :: 0 <= i < |scope.original| ==> (scope.original[i] in scope.invalid <==> Fails(g, context, first, i)))
    && (forall i: nat :: Surviving(g, context, first, i).Some? ==> Surviving(g, context, first, i).value in scope.valid)
  }

  lemma OmissionsKeepPhrases(g: Grammar, us: seq<Unresolved>)
    requires ParseOmissions(g, us).Some?
    ensures OmittedPhrases(ParseOmissions(g, us).value) == OmittedPhrases(us)
  {
    CanonElements(OmissionLess, us);
    var canon := ParseOmissions(g, us).value;
    assert forall u :: u in us <==> u in Elements(us);
    assert forall u :: u in canon <==> u in Elements(canon);
  }

  lemma FormScopeReads(g: Grammar, context: Context, raw: RawForm)
    requires FormScope(g, raw).Some?
    ensures ScopeReads(g, context, Refused(Some(raw)), FormScope(g, raw).value)
  {
    var scope, js := FormScope(g, raw).value, JudgeItems(g, raw.items);
    FormScopeBlamesExactly(g, raw);
    OmissionsKeepPhrases(g, raw.unresolved);
    assert JudgedPhrases(js) == RejectedPhrases(Refused(Some(raw)));
    forall i: nat | i < |raw.items| && JudgeItem(g, raw.items[i]).good.Some?
      ensures JudgeItem(g, raw.items[i]).good.value in scope.valid
    {
      assert js[i] == JudgeItem(g, raw.items[i]);
      ValidExactly(js, i);
    }
  }

  lemma StateScopeProtects(g: Grammar, context: Context, s: State, f: MappingForm, i: nat)
    requires StateScope(g, context, s, f).Some? && i < |f.mapping| && MappingOk(g, context, f.tables, f.mapping[i])
    ensures f.mapping[i] in StateScope(g, context, s, f).value.valid
  {
    var common := CommonState(s, f);
    var js := JudgeAlone(g, context, common, f.mapping);
    ValidationDecomposes(g, context, common, f.mapping);
    assert AloneOk(g, context, common, f.mapping[i]);
    assert js[i].good == Some(f.mapping[i]);
    ValidExactly(js, i);
  }

  lemma StateScopeReads(g: Grammar, context: Context, s: State, f: MappingForm)
    requires FormOk(f) && StateScope(g, context, s, f).Some?
    ensures ScopeReads(g, context, Answer(Mapped(f)), StateScope(g, context, s, f).value)
  {
    var scope := StateScope(g, context, s, f).value;
    StateScopeBlamesExactly(g, context, s, f);
    assert scope.original == Phrases(f.mapping);
    forall i: nat | Surviving(g, context, Answer(Mapped(f)), i).Some?
      ensures Surviving(g, context, Answer(Mapped(f)), i).value in scope.valid
    {
      StateScopeProtects(g, context, s, f, i);
    }
  }

  /** An accepted repair conserves the phrases of the rejected reply, mapped or unresolved, blames exactly the
      mappings of it that fail, keeps every other one and every omission, and maps no phrase it leaves unresolved. */
  lemma AcceptedRepairConserves(g: Grammar, rt: Runtime, obs: Observation, context: Context, input: Input,
                                repairAllowed: bool, first: Reply, second: Reply)
    requires ReplyOk(first) && ReplyOk(second)
    requires var res := Process(g, rt, obs, context, input, repairAllowed, first, second);
             res.Result? && res.repair.Some? && res.repair.value.outcome.RepairAccepted?
    ensures var scope := Process(g, rt, obs, context, input, repairAllowed, first, second).repair.value.scope;
            && second.Answer? && second.response.Mapped?
            && var form := second.response.form;
            && ScopeOk(scope) && ScopeReads(g, context, first, scope)
            && Elements(scope.valid) <= Elements(form.mapping) && Elements(scope.unresolved) <= Elements(form.unresolved)
            && MappedPhrases(form.mapping) + OmittedPhrases(form.unresolved)
               == Elements(RejectedPhrases(first)) + RejectedOmissions(first)
            && MappedPhrases(form.mapping) * OmittedPhrases(form.unresolved) == {}
  {
    var scope := RepairScope(g, rt, context, input, repairAllowed, first).value;
    RepairScopeReads(g, rt, context, input, repairAllowed, first);
    RepairConserves(second.response.form, scope);
  }

  lemma RepairScopeReads(g: Grammar, rt: Runtime, context: Context, input: Input, repairAllowed: bool, first: Reply)
    requires ReplyOk(first) && RepairScope(g, rt, context, input, repairAllowed, first).Some?
    ensures var scope := RepairScope(g, rt, context, input, repairAllowed, first).value;
            ScopeOk(scope) && ScopeReads(g, context, first, scope)
  {
    if first.Refused? {
      FormScopeBlamesExactly(g, first.rejected.value);
      FormScopeReads(g, context, first.rejected.value);
    } else {
      StateScopeBlamesExactly(g, context, rt.state, first.response.form);
      StateScopeReads(g, context, rt.state, first.response.form);
    }
  }
}
