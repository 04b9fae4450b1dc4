/** Proposals in any order normalise to the identical State, every reachable State is normal, and so a pure reordering
    is never an update (valibra_agent/sql_grounding/models.py, service.py). */
module NormalForm {
  import opened Options
  import opened Canonical
  import opened GroundingModels
  import opened MappingRepair
  import opened GroundingService
  import opened GroundingRuns

  /** A State whose parts are what their own construction yields. */
  predicate InNormalForm(g: Grammar, s: State)
  {
    && (s.tables.Some? ==> ParseTexts(s.tables.value, g.isTable, MAX_TABLES) == s.tables)
    && (s.joinKeys.Some? ==> ParseTexts(s.joinKeys.value, g.isRelation, MAX_JOIN_KEYS) == s.joinKeys)
    && (s.mapping.Some? ==> ParseMappings(g, s.mapping.value) == s.mapping)
    && (s.knowledge.Some? ==> ParseFacts(g, s.knowledge.value) == s.knowledge)
  }

  lemma {:induction false} InsertLength<T>(less: (T, T) -> bool, x: T, xs: seq<T>)
    ensures |Insert(less, x, xs)| <= |xs| + 1
  {
    if xs != [] && xs[0] != x && !less(x, xs[0]) {
      InsertLength(less, x, xs[1..]);
    }
  }

  lemma {:induction false} CanonLength<T>(less: (T, T) -> bool, xs: seq<T>)
    ensures |Canon(less, xs)| <= |xs|
  {
    if xs != [] {
      CanonLength(less, xs[1..]);
      InsertLength(less, xs[0], Canon(less, xs[1..]));
    }
  }

  lemma CanonIsNormal<T(!new)>(less: (T, T) -> bool, xs: seq<T>)
    requires StrictOrder(less) && Comparable(less, Elements(xs))
    ensures var ys := Canon(less, xs);
            Canon(less, ys) == ys && Sorted(less, ys) && Distinct(ys) && |ys| <= |xs| && forall y :: y in ys <==> y in xs
  {
    var ys := Canon(less, xs);
    CanonLength(less, xs);
    CanonIsSorted(less, xs);
    CanonElements(less, xs);
    CanonOfSorted(less, ys);
    forall y ensures y in ys <==> y in xs {
      assert y in Elements(ys) <==> y in Elements(xs);
    }
  }

  /** Constructing a constructed list again changes nothing. */
  lemma TextsReparse(xs: seq<string>, fits: string -> bool, limit: nat)
    requires ParseTexts(xs, fits, limit).Some?
    ensures var ys := ParseTexts(xs, fits, limit).value; ParseTexts(ys, fits, limit) == Some(ys)
  {
    TextOrder();
    assert Comparable(TextLess, Elements(xs));
    CanonIsNormal(TextLess, xs);
  }

  lemma FactsReparse(g: Grammar, ks: seq<Knowledge>)
    requires ParseFacts(g, ks).Some?
    ensures var ys := ParseFacts(g, ks).value; ParseFacts(g, ys) == Some(ys)
  {
    Orders();
    assert Comparable(FactLess, Elements(ks));
    CanonIsNormal(FactLess, ks);
  }

  lemma MappingReparse(g: Grammar, m: Mapping)
    requires ParseMapping(g, m).Some?
    ensures ParseMapping(g, ParseMapping(g, m).value) == ParseMapping(g, m)
  {
    TextsReparse(m.targets, g.isField, MAX_TARGETS_PER_MAPPING);
    CanonElements(TextLess, m.targets);
    EmptyElements(m.targets);
    EmptyElements(ParseMapping(g, m).value.targets);
  }

  lemma {:induction false} ParseEachFixed(g: Grammar, ms: seq<Mapping>)
    requires forall m :: m in ms ==> ParseMapping(g, m) == Some(m)
    ensures ParseEach(g, ms) == Some(ms)
  {
    if ms != [] {
      ParseEachFixed(g, ms[1..]);
      assert ms == [ms[0]] + ms[1..];
    }
  }

  lemma MappingsReparse(g: Grammar, ms: seq<Mapping>)
    requires ParseMappings(g, ms).Some?
    ensures var ys := ParseMappings(g, ms).value; ParseMappings(g, ys) == Some(ys)
  {
    var each, ys := ParseEach(g, ms).value, ParseMappings(g, ms).value;
    ParseEachIsPointwise(g, ms);
    ParsedPhrases(g, ms);
    Orders();
    CanonIsNormal(MappingLess, each);
    SortedPhrasesAreUnique(ys);
    forall y | y in ys ensures ParseMapping(g, y) == Some(y) {
      assert y in each;
      var k :| 0 <= k < |each| && each[k] == y;
      MappingReparse(g, ms[k]);
    }
    ParseEachFixed(g, ys);
  }

  // ----- proposals

  /** The forms as the updater sends them, before construction. */
  datatype Proposal =
    | ProposeStructure(tables: seq<string>, joinKeys: seq<string>)
    | ProposeMapping(tables: seq<string>, joinKeys: seq<string>, ms: seq<Mapping>, us: seq<Unresolved>)
    | ProposeKnowledge(ms: seq<Mapping>, ids: seq<int>)
    | ProposeCheck(complete: bool, route: Route, missing: bool, nextTool: bool, clarifies: Option<string>,
                   ms: seq<Mapping>, ks: seq<Knowledge>)

  function ConstructForm(g: Grammar, tables: seq<string>, joinKeys: seq<string>, ms: seq<Mapping>, us: seq<Unresolved>):
    Option<MappingForm>
  {
    var t, j := ParseTexts(tables, g.isTable, MAX_TABLES), ParseTexts(joinKeys, g.isRelation, MAX_JOIN_KEYS);
    var m, u := ParseMappings(g, ms), ParseOmissions(g, us);
    if t.Some? && j.Some? && m.Some? && u.Some? && MappedPhrases(m.value) * OmittedPhrases(u.value) == {}
    then Some(MappingForm(t.value, j.value, m.value, u.value)) else None
  }

  predicate NumberLess(a: int, b: int)
  {
    a < b
  }

  lemma IdsAreSorted(ids: seq<int>)
    ensures var ys := Canon(NumberLess, ids); Distinct(ys) && Elements(ys) == Elements(ids)
  {
    CanonIsNormal(NumberLess, ids);
    CanonElements(NumberLess, ids);
  }

  /** The form a proposal is constructed as, `None` when a validator refuses it. */
  function Construct(g: Grammar, p: Proposal): Option<Response>
  {
    match p
    case ProposeStructure(tables, joinKeys) =>
      var t, j := ParseTexts(tables, g.isTable, MAX_TABLES), ParseTexts(joinKeys, g.isRelation, MAX_JOIN_KEYS);
      if t.Some? && j.Some? then Some(Structure(t.value, j.value)) else None
    case ProposeMapping(tables, joinKeys, ms, us) =>
      var form := ConstructForm(g, tables, joinKeys, ms, us);
      if form.Some? then Some(Mapped(form.value)) else None
    case ProposeKnowledge(ms, ids) =>
      var m := ParseMappings(g, ms);
      if m.Some? && |ids| <= MAX_DOMAIN_KNOWLEDGE && Distinct(ids) then Some(Selected(m.value, Canon(NumberLess, ids))) else None
    case ProposeCheck(complete, route, missing, nextTool, clarifies, ms, ks) =>
      var m, k := ParseMappings(g, ms), ParseFacts(g, ks);
      if && m.Some? && k.Some?
         && (route.RestartGrounding? || route.Terminal? ==> !complete && !nextTool)
         && (if complete then !missing && !nextTool else missing)
         && (clarifies.Some? ==> nextTool)
      then Some(Checked(complete, route, missing, nextTool, clarifies, m.value, k.value)) else None
  }

  lemma TextsAreCanonical(xs: seq<string>, fits: string -> bool, limit: nat)
    requires ParseTexts(xs, fits, limit).Some?
    ensures CanonicalTexts(ParseTexts(xs, fits, limit).value)
  {
    TextOrder();
    assert Comparable(TextLess, Elements(xs));
    CanonIsSorted(TextLess, xs);
  }

  lemma OmissionsAreCanonical(g: Grammar, us: seq<Unresolved>)
    requires ParseOmissions(g, us).Some?
    ensures Sorted(OmissionLess, ParseOmissions(g, us).value)
  {
    Orders();
    TextOrder();
    forall a, b | a in Elements(us) && b in Elements(us) && a != b ensures OmissionLess(a, b) || OmissionLess(b, a) {
      var i :| 0 <= i < |us| && us[i] == a;
      var j :| 0 <= j < |us| && us[j] == b;
      assert a.phrase != b.phrase;
      assert Comparable(TextLess, {a.phrase, b.phrase});
    }
    CanonIsSorted(OmissionLess, us);
  }

  lemma FormIsWellFormed(g: Grammar, p: Proposal)
    requires p.ProposeMapping? && Construct(g, p).Some?
    ensures FormOk(Construct(g, p).value.form) && GroundingService.WellFormed(Construct(g, p).value)
  {
    TextsAreCanonical(p.tables, g.isTable, MAX_TABLES);
    TextsAreCanonical(p.joinKeys, g.isRelation, MAX_JOIN_KEYS);
    ParsedMappingsAreCanonical(g, p.ms);
    OmissionsAreCanonical(g, p.us);
  }

  /** Whatever is constructed meets the rules of its form. */
  lemma ConstructedIsWellFormed(g: Grammar, p: Proposal)
    requires Construct(g, p).Some?
    ensures GroundingService.WellFormed(Construct(g, p).value)
  {
    match p
    case ProposeStructure(tables, joinKeys) =>
      TextsAreCanonical(tables, g.isTable, MAX_TABLES);
      TextsAreCanonical(joinKeys, g.isRelation, MAX_JOIN_KEYS);
    case ProposeMapping(_, _, _, _) =>
      FormIsWellFormed(g, p);
    case ProposeKnowledge(ms, ids) =>
      ParsedMappingsAreCanonical(g, ms);
      IdsAreSorted(ids);
    case ProposeCheck(_, _, _, _, _, ms, ks) =>
      ParsedMappingsAreCanonical(g, ms);
      Orders();
      assert Comparable(FactLess, Elements(ks));
      CanonIsSorted(FactLess, ks);
  }

  // ----- every reachable State is normal

  /** The parts of a form are what their own construction yields. */
  predicate PartsAreNormal(g: Grammar, r: Response)
  {
    match r
    case Structure(tables, joinKeys) =>
      && ParseTexts(tables, g.isTable, MAX_TABLES) == Some(tables)
      && ParseTexts(joinKeys, g.isRelation, MAX_JOIN_KEYS) == Some(joinKeys)
    case Mapped(form) =>
      && ParseTexts(form.tables, g.isTable, MAX_TABLES) == Some(form.tables)
      && ParseTexts(form.joinKeys, g.isRelation, MAX_JOIN_KEYS) == Some(form.joinKeys)
      && ParseMappings(g, form.mapping) == Some(form.mapping)
    case Selected(mapping, _) => ParseMappings(g, mapping) == Some(mapping)
    case Checked(_, _, _, _, _, mapping, knowledge) =>
      ParseMappings(g, mapping) == Some(mapping) && ParseFacts(g, knowledge) == Some(knowledge)
    case FinalGate => true
  }

  lemma ConstructedIsNormal(g: Grammar, p: Proposal)
    requires Construct(g, p).Some?
    ensures PartsAreNormal(g, Construct(g, p).value)
  {
    match p
    case ProposeStructure(tables, joinKeys) =>
      TextsReparse(tables, g.isTable, MAX_TABLES);
      TextsReparse(joinKeys, g.isRelation, MAX_JOIN_KEYS);
    case ProposeMapping(tables, joinKeys, ms, _) =>
      TextsReparse(tables, g.isTable, MAX_TABLES);
      TextsReparse(joinKeys, g.isRelation, MAX_JOIN_KEYS);
      MappingsReparse(g, ms);
    case ProposeKnowledge(ms, _) =>
      MappingsReparse(g, ms);
    case ProposeCheck(_, _, _, _, _, ms, ks) =>
      MappingsReparse(g, ms);
      FactsReparse(g, ks);
  }

  lemma NormalMappings(g: Grammar, ms: seq<Mapping>)
    ensures ParseMappings(g, ms) == Some(ms)
            <==> && |ms| <= MAX_COLUMN_MAPPINGS && CanonicalMappings(ms) && UniquePhrases(ms)
                 && forall m :: m in ms ==> ParseMapping(g, m) == Some(m)
  {
    if ParseMappings(g, ms) == Some(ms) {
      MappingsReparseItems(g, ms);
    } else if |ms| <= MAX_COLUMN_MAPPINGS && CanonicalMappings(ms) && UniquePhrases(ms)
              && forall m :: m in ms ==> ParseMapping(g, m) == Some(m) {
      ParseEachFixed(g, ms);
      PhrasesCompare(ms);
      Orders();
      CanonOfSorted(MappingLess, ms);
    }
  }

  lemma MappingsReparseItems(g: Grammar, ms: seq<Mapping>)
    requires ParseMappings(g, ms) == Some(ms)
    ensures CanonicalMappings(ms) && forall m :: m in ms ==> ParseMapping(g, m) == Some(m)
  {
    var each := ParseEach(g, ms).value;
    ParseEachIsPointwise(g, ms);
    ParsedMappingsAreCanonical(g, ms);
    forall m | m in ms ensures ParseMapping(g, m) == Some(m) {
      assert m in Elements(ms);
      var raw :| raw in ms && ParseMapping(g, raw).Some? && ParseMapping(g, raw).value == m;
      MappingReparse(g, raw);
    }
  }

  lemma LastIsGreater(rest: seq<Mapping>, last: Mapping, kept: seq<Mapping>)
    requires CanonicalMappings(rest + [last]) && CanonicalMappings(kept) && forall m :: m in kept ==> m in rest
    ensures CanonicalMappings(kept + [last])
  {
    forall k | 0 <= k < |kept| ensures MappingLess(kept[k], last) {
      assert kept[k] in rest;
      var i :| 0 <= i < |rest| && rest[i] == kept[k];
      assert (rest + [last])[i] == rest[i] && (rest + [last])[|rest|] == last;
    }
  }

  lemma {:induction false} WithoutIsSubsequence(ms: seq<Mapping>, phrases: set<string>)
    requires CanonicalMappings(ms)
    ensures CanonicalMappings(Without(ms, phrases)) && |Without(ms, phrases)| <= |ms|
  {
    if ms != [] {
      var rest, last := ms[..|ms| - 1], ms[|ms| - 1];
      WithoutIsSubsequence(rest, phrases);
      WithoutKeepsTheRest(rest, phrases);
      assert ms == rest + [last];
      LastIsGreater(rest, last, Without(rest, phrases));
    }
  }

  lemma {:induction false} WithoutNothing(ms: seq<Mapping>, phrases: set<string>)
    requires forall m :: m in ms ==> m.phrase !in phrases
    ensures Without(ms, phrases) == ms
  {
    if ms != [] {
      WithoutNothing(ms[..|ms| - 1], phrases);
      assert ms == ms[..|ms| - 1] + [ms[|ms| - 1]];
    }
  }

  lemma WithoutStaysNormal(g: Grammar, ms: seq<Mapping>, phrases: set<string>)
    requires ParseMappings(g, ms) == Some(ms)
    ensures ParseMappings(g, Without(ms, phrases)) == Some(Without(ms, phrases))
  {
    NormalMappings(g, ms);
    WithoutIsSubsequence(ms, phrases);
    WithoutKeepsTheRest(ms, phrases);
    SortedPhrasesAreUnique(Without(ms, phrases));
    NormalMappings(g, Without(ms, phrases));
  }

  /** Whatever a normal form is merged into a normal State, the State stays normal. */
  lemma MaterializeKeepsNormalForm(g: Grammar, stage: Stage, prior: State, r: Response, input: Input, draft: bool)
    requires InNormalForm(g, prior) && PartsAreNormal(g, r) && Admitted(prior, r, input).Some?
    requires Materialize(g, stage, prior, Admitted(prior, r, input).value, input, draft).Some?
    ensures InNormalForm(g, Materialize(g, stage, prior, Admitted(prior, r, input).value, input, draft).value.0)
  {
    if input.kind.KnowledgeCall? && r.Selected? {
      WithoutStaysNormal(g, r.mapping, OmittedPhrases(input.Omitted()));
      FactsReparse(g, KnowledgeUpdate(g, prior, r.ids, input).value);
    }
  }

  /** The reply, if it is an answer, was constructed from some proposal. */
  ghost predicate IsConstructed(g: Grammar, reply: Reply)
  {
    reply.Answer? ==> exists p :: Construct(g, p) == Some(reply.response)
  }

  lemma ConstructedReplyIsNormal(g: Grammar, reply: Reply)
    requires IsConstructed(g, reply) && reply.Answer?
    ensures PartsAreNormal(g, reply.response)
  {
    var p :| Construct(g, p) == Some(reply.response);
    ConstructedIsNormal(g, p);
  }

  lemma CandidateKeepsNormalForm(g: Grammar, rt: Runtime, obs: Observation, context: Context, input: Input, reply: Reply)
    requires InNormalForm(g, rt.state) && IsConstructed(g, reply) && reply.Answer?
    requires Candidate(g, rt, obs, context, input, reply.response).Some?
    ensures InNormalForm(g, Candidate(g, rt, obs, context, input, reply.response).value.state)
  {
    ConstructedReplyIsNormal(g, reply);
    MaterializeKeepsNormalForm(g, rt.stage, rt.state, reply.response, input, false);
  }

  ghost predicate EventIsConstructed(g: Grammar, e: Event)
  {
    match e
    case Direct(_, _, _, _, first, second) => IsConstructed(g, first) && IsConstructed(g, second)
    case DraftCall(_, _, _, first) => IsConstructed(g, first)
    case _ => true
  }

  predicate SessionIsNormal(g: Grammar, s: GroundingRuns.Session)
  {
    InNormalForm(g, s.runtime.state) && (s.draft.Some? ==> InNormalForm(g, s.draft.value.state))
  }

  lemma DirectKeepsNormalForm(g: Grammar, s: GroundingRuns.Session, e: Event)
    requires SessionIsNormal(g, s) && e.Direct? && EventIsConstructed(g, e)
    ensures SessionIsNormal(g, Step(g, s, e))
  {
    ResultIsCandidate(g, s.runtime, e.obs, e.context, e.input, e.repairAllowed, e.first, e.second);
    if e.first.Answer? && Candidate(g, s.runtime, e.obs, e.context, e.input, e.first.response).Some? {
      CandidateKeepsNormalForm(g, s.runtime, e.obs, e.context, e.input, e.first);
    }
    if e.second.Answer? && Candidate(g, s.runtime, e.obs, e.context, e.input, e.second.response).Some? {
      CandidateKeepsNormalForm(g, s.runtime, e.obs, e.context, e.input, e.second);
    }
  }

  lemma DraftCallKeepsNormalForm(g: Grammar, s: GroundingRuns.Session, e: Event)
    requires SessionIsNormal(g, s) && e.DraftCall? && EventIsConstructed(g, e)
    ensures SessionIsNormal(g, Step(g, s, e))
  {
    if s.draft.Some? && e.first.Answer? {
      var d := s.draft.value;
      DraftResult(g, d, e.obs, e.context, e.input, e.first.response);
      ConstructedReplyIsNormal(g, e.first);
      if DraftProposed(g, d, e.obs, e.context, e.input, e.first.response).Some? {
        MaterializeKeepsNormalForm(g, d.stage, d.state, e.first.response, e.input, true);
      }
    }
  }

  lemma StepKeepsNormalForm(g: Grammar, s: GroundingRuns.Session, e: Event)
    requires SessionIsNormal(g, s) && EventIsConstructed(g, e)
    ensures SessionIsNormal(g, Step(g, s, e))
  {
    match e
    case Direct(_, _, _, _, _, _) => DirectKeepsNormalForm(g, s, e);
    case DraftCall(_, _, _, _) => DraftCallKeepsNormalForm(g, s, e);
    case CommitDraft(context, check) =>
      if s.draft.Some? {
        CommitsExactly(g, s.runtime, s.draft.value, context, check);
      }
    case _ =>
  }

  /** Over any run whose replies are constructed forms, formal State and Draft stay in normal form. */
  lemma {:induction false} RunsStayNormal(g: Grammar, s: GroundingRuns.Session, events: seq<Event>)
    requires SessionIsNormal(g, s) && forall i :: 0 <= i < |events| ==> EventIsConstructed(g, events[i])
    ensures SessionIsNormal(g, Run(g, s, events))
    decreases |events|
  {
    if events != [] {
      RunsStayNormal(g, s, events[..|events| - 1]);
      StepKeepsNormalForm(g, Run(g, s, events[..|events| - 1]), events[|events| - 1]);
    }
  }

  // ----- a rearrangement of the State

  /** The selected ids stand for nothing new: the definitions listed under them are the known facts, and in Phase 2,
      where a selection is added to what is known, among them. */
  predicate SelectsKnown(ids: seq<int>, s: State, input: Input)
  {
    s.knowledge.Some? && if input.IsP2() then Definitions(input, ids) <= Facts(s) else Definitions(input, ids) == Facts(s)
  }

  /** A proposal that says what the State already says, in another order: tables, relations, mappings, the targets of
      each, and facts. */
  predicate Rearranges(p: Proposal, s: State, input: Input)
  {
    match p
    case ProposeStructure(tables, joinKeys) => SameTexts(tables, s.tables) && SameTexts(joinKeys, s.joinKeys)
    case ProposeMapping(tables, joinKeys, ms, _) =>
      SameTexts(tables, s.tables) && SameTexts(joinKeys, s.joinKeys) && SameMappings(ms, s.mapping)
    case ProposeKnowledge(ms, ids) =>
      SameMappings(ms, s.mapping) && SelectsKnown(ids, s, input)
    case ProposeCheck(_, _, _, _, _, ms, ks) =>
      SameMappings(ms, s.mapping) && s.knowledge.Some? && multiset(ks) == multiset(s.knowledge.value)
  }

  predicate SameTexts(xs: seq<string>, current: Option<seq<string>>)
  {
    current.Some? && multiset(xs) == multiset(current.value)
  }

  predicate SameMappings(ms: seq<Mapping>, current: Option<seq<Mapping>>)
  {
    current.Some? && Rearranged(ms, current.value)
  }

  lemma SelectionChangesNothing(g: Grammar, s: State, ids: seq<int>, input: Input)
    requires InNormalForm(g, s) && SelectsKnown(ids, s, input)
    ensures var update := KnowledgeUpdate(g, s, ids, input);
            update.Some? && ParseFacts(g, update.value).Some? ==> ParseFacts(g, update.value) == s.knowledge
  {
    var update := KnowledgeUpdate(g, s, ids, input);
    if update.Some? && ParseFacts(g, update.value).Some? {
      SelectionIsExact(g, ids, input);
      var selected := OfficialRules(g, ids, input).value;
      if input.IsP2() {
        CanonElements(FactLess, s.Facts() + selected);
        assert Elements(s.Facts() + selected) == Elements(s.Facts()) + Elements(selected);
      }
      assert Elements(update.value) == Elements(s.knowledge.value);
      Orders();
      assert Comparable(FactLess, Elements(update.value));
      CanonIgnoresOrder(FactLess, update.value, s.knowledge.value);
    }
  }

  /** The form says what the State already says. */
  predicate StandsFor(r: Response, s: State)
  {
    match r
    case Structure(tables, joinKeys) => s.tables == Some(tables) && s.joinKeys == Some(joinKeys)
    case Mapped(form) =>
      s.tables == Some(form.tables) && s.joinKeys == Some(form.joinKeys) && s.mapping == Some(form.mapping)
    case Selected(mapping, _) => s.mapping == Some(mapping)
    case Checked(_, _, _, _, _, mapping, knowledge) => s.mapping == Some(mapping) && s.knowledge == Some(knowledge)
    case FinalGate => false
  }

  lemma TextsStand(xs: seq<string>, current: Option<seq<string>>, fits: string -> bool, limit: nat)
    requires SameTexts(xs, current) && ParseTexts(current.value, fits, limit) == current
    ensures ParseTexts(xs, fits, limit) == current
  {
    TextsParseAlike(xs, current.value, fits, limit);
  }

  lemma MappingsStand(g: Grammar, ms: seq<Mapping>, current: Option<seq<Mapping>>)
    requires SameMappings(ms, current) && ParseMappings(g, current.value) == current
    ensures ParseMappings(g, ms) == current
  {
    MappingsParseAlike(g, ms, current.value);
  }

  lemma StructureStands(g: Grammar, s: State, p: Proposal, input: Input)
    requires InNormalForm(g, s) && p.ProposeStructure? && Rearranges(p, s, input) && Construct(g, p).Some?
    ensures StandsFor(Construct(g, p).value, s)
  {
    TextsStand(p.tables, s.tables, g.isTable, MAX_TABLES);
    TextsStand(p.joinKeys, s.joinKeys, g.isRelation, MAX_JOIN_KEYS);
  }

  lemma MappingStands(g: Grammar, s: State, p: Proposal, input: Input)
    requires InNormalForm(g, s) && p.ProposeMapping? && Rearranges(p, s, input) && Construct(g, p).Some?
    ensures StandsFor(Construct(g, p).value, s)
  {
    TextsStand(p.tables, s.tables, g.isTable, MAX_TABLES);
    TextsStand(p.joinKeys, s.joinKeys, g.isRelation, MAX_JOIN_KEYS);
    MappingsStand(g, p.ms, s.mapping);
  }

  lemma SelectionStands(g: Grammar, s: State, p: Proposal, input: Input)
    requires InNormalForm(g, s) && p.ProposeKnowledge? && Rearranges(p, s, input) && Construct(g, p).Some?
    ensures StandsFor(Construct(g, p).value, s)
  {
    MappingsStand(g, p.ms, s.mapping);
  }

  lemma CheckStands(g: Grammar, s: State, p: Proposal, input: Input)
    requires InNormalForm(g, s) && p.ProposeCheck? && Rearranges(p, s, input) && Construct(g, p).Some?
    ensures StandsFor(Construct(g, p).value, s)
  {
    MappingsStand(g, p.ms, s.mapping);
    FactsParseAlike(g, p.ks, s.knowledge.value);
  }

  /** A rearrangement is constructed as what it rearranges. */
  lemma RearrangedStands(g: Grammar, s: State, p: Proposal, input: Input)
    requires InNormalForm(g, s) && Rearranges(p, s, input) && Construct(g, p).Some?
    ensures StandsFor(Construct(g, p).value, s)
  {
    match p
    case ProposeStructure(_, _) => StructureStands(g, s, p, input);
    case ProposeMapping(_, _, _, _) => MappingStands(g, s, p, input);
    case ProposeKnowledge(_, _) => SelectionStands(g, s, p, input);
    case ProposeCheck(_, _, _, _, _, _, _) => CheckStands(g, s, p, input);
  }

  lemma AdmittedSelection(s: State, mapping: seq<Mapping>, ids: seq<int>, input: Input)
    requires s.mapping == Some(mapping) && Sanitised(s, Selected(mapping, ids), input).Some?
    ensures Sanitised(s, Selected(mapping, ids), input) == Some(Selected(mapping, ids))
  {
    var omitted := OmittedPhrases(input.Omitted());
    if omitted != {} {
      assert s.Mappings() == mapping && MappedPhrases(mapping) * omitted == {};
      forall m | m in mapping ensures m.phrase !in omitted {
        assert m.phrase in MappedPhrases(mapping);
        assert m.phrase in omitted ==> m.phrase in MappedPhrases(mapping) * omitted;
      }
      WithoutNothing(mapping, omitted);
    }
  }

  lemma SelectionIsIdentity(g: Grammar, stage: Stage, s: State, mapping: seq<Mapping>, ids: seq<int>, input: Input,
                            draft: bool)
    requires InNormalForm(g, s) && s.mapping == Some(mapping) && SelectsKnown(ids, s, input)
    ensures var m := Materialize(g, stage, s, Selected(mapping, ids), input, draft); m.Some? ==> m.value.0 == s
  {
    SelectionChangesNothing(g, s, ids, input);
  }

  lemma FormIsIdentity(g: Grammar, stage: Stage, s: State, r: Response, input: Input, draft: bool)
    requires StandsFor(r, s) && !r.Selected?
    ensures var m := Materialize(g, stage, s, r, input, draft); m.Some? ==> m.value.0 == s
  {
  }

  /** A form that stands for a normal State is materialized as that very State, in every kind of call. */
  lemma StandingIsIdentity(g: Grammar, stage: Stage, s: State, r: Response, input: Input, draft: bool)
    requires InNormalForm(g, s) && StandsFor(r, s) && (r.Selected? ==> SelectsKnown(r.ids, s, input))
    requires Admitted(s, r, input).Some?
    ensures var m := Materialize(g, stage, s, Admitted(s, r, input).value, input, draft); m.Some? ==> m.value.0 == s
  {
    if r.Selected? {
      if input.kind.KnowledgeCall? {
        AdmittedSelection(s, r.mapping, r.ids, input);
      }
      SelectionIsIdentity(g, stage, s, r.mapping, r.ids, input, draft);
    } else {
      FormIsIdentity(g, stage, s, r, input, draft);
    }
  }

  lemma SortedIdsSelectTheSame(ids: seq<int>, s: State, input: Input)
    requires SelectsKnown(ids, s, input)
    ensures SelectsKnown(Canon(NumberLess, ids), s, input)
  {
    IdsAreSorted(ids);
    SameIdsDefineTheSame(input, Canon(NumberLess, ids), ids);
  }

  lemma SameIdsDefineTheSame(input: Input, a: seq<int>, b: seq<int>)
    requires Elements(a) == Elements(b)
    ensures Definitions(input, a) == Definitions(input, b)
  {
    forall k | k in Definitions(input, a) ensures k in Definitions(input, b) {
      var rule :| rule in input.rules.value && rule.id.Some? && rule.id.value in a && rule.definition.Some?
                  && k == Knowledge(BusinessRule, rule.definition.value);
      assert rule.id.value in Elements(a);
      assert rule.id.value in b;
    }
    forall k | k in Definitions(input, b) ensures k in Definitions(input, a) {
      var rule :| rule in input.rules.value && rule.id.Some? && rule.id.value in b && rule.definition.Some?
                  && k == Knowledge(BusinessRule, rule.definition.value);
      assert rule.id.value in Elements(b);
      assert rule.id.value in a;
    }
  }

  lemma RearrangedSelects(g: Grammar, s: State, p: Proposal, input: Input)
    requires p.ProposeKnowledge? && Rearranges(p, s, input) && Construct(g, p).Some?
    ensures SelectsKnown(Construct(g, p).value.ids, s, input)
  {
    SortedIdsSelectTheSame(p.ids, s, input);
  }

  lemma ConstructedKind(g: Grammar, p: Proposal)
    requires Construct(g, p).Some?
    ensures Construct(g, p).value.Selected? <==> p.ProposeKnowledge?
  {
  }

  /** A proposal that only rearranges a normal State is materialized as that very State. */
  lemma RearrangementIsIdentity(g: Grammar, stage: Stage, s: State, p: Proposal, input: Input, draft: bool)
    requires InNormalForm(g, s) && Rearranges(p, s, input) && Construct(g, p).Some?
    requires Admitted(s, Construct(g, p).value, input).Some?
    ensures var m := Materialize(g, stage, s, Admitted(s, Construct(g, p).value, input).value, input, draft);
            m.Some? ==> m.value.0 == s
  {
    RearrangedStands(g, s, p, input);
    ConstructedKind(g, p);
    if p.ProposeKnowledge? {
      RearrangedSelects(g, s, p, input);
    }
    StandingIsIdentity(g, stage, s, Construct(g, p).value, input, draft);
  }

  /** No change of the State and no new revision. */
  predicate NoUpdate(before: Runtime, after: Runtime)
  {
    after.state == before.state && after.revision == before.revision
  }

  lemma CandidateOf(g: Grammar, rt: Runtime, obs: Observation, context: Context, input: Input, r: Response)
    requires Admitted(rt.state, r, input).Some? ==>
               var m := Materialize(g, rt.stage, rt.state, Admitted(rt.state, r, input).value, input, false);
               m.Some? ==> m.value.0 == rt.state
    ensures var next := Candidate(g, rt, obs, context, input, r);
            next.Some? ==> NoUpdate(rt, next.value)
  {
  }

  lemma RearrangementIsNoCandidate(g: Grammar, rt: Runtime, obs: Observation, context: Context, input: Input, p: Proposal)
    requires InNormalForm(g, rt.state) && Rearranges(p, rt.state, input) && Construct(g, p).Some?
    ensures var next := Candidate(g, rt, obs, context, input, Construct(g, p).value);
            next.Some? ==> NoUpdate(rt, next.value)
  {
    var r := Construct(g, p).value;
    if Admitted(rt.state, r, input).Some? {
      RearrangementIsIdentity(g, rt.stage, rt.state, p, input, false);
    }
    CandidateOf(g, rt, obs, context, input, r);
  }

  /** A repair is asked for only if the State is no longer supported by the evidence in its context. */
  lemma RearrangementNeedsNoRepair(g: Grammar, rt: Runtime, context: Context, input: Input, repairAllowed: bool, p: Proposal)
    requires InNormalForm(g, rt.state) && Rearranges(p, rt.state, input) && Construct(g, p).Some?
    requires RepairScope(g, rt, context, input, repairAllowed, Answer(Construct(g, p).value)).Some?
    ensures !ValidState(g, context, rt.state)
  {
    RearrangedStands(g, rt.state, p, input);
    FormIsWellFormed(g, p);
    StateScopeBlamesExactly(g, context, rt.state, Construct(g, p).value.form);
  }

  lemma UnrepairedAnswer(g: Grammar, rt: Runtime, obs: Observation, context: Context, input: Input,
                         repairAllowed: bool, r: Response, second: Reply)
    requires var next := Candidate(g, rt, obs, context, input, r); next.Some? ==> NoUpdate(rt, next.value)
    ensures var res := Process(g, rt, obs, context, input, repairAllowed, Answer(r), second);
            && res.Result?
            && (res.repair.None? ==> NoUpdate(rt, res.runtime))
            && (RepairScope(g, rt, context, input, repairAllowed, Answer(r)).None? ==> res.repair.None?)
  {
    AtMostOneRepair(g, rt, obs, context, input, repairAllowed, Answer(r), second);
    var scope := RepairScope(g, rt, context, input, repairAllowed, Answer(r));
    if scope.None? {
      SettledCalls(rt, Candidate(g, rt, obs, context, input, r), 1, None);
    }
  }

  /** Answering any call with a rearrangement of the current State never raises the revision, with repair allowed or
      not. Only a repair could, and none is asked for while the State is valid in its context. */
  lemma ReorderingIsNoUpdate(g: Grammar, rt: Runtime, obs: Observation, context: Context, input: Input,
                             repairAllowed: bool, p: Proposal, second: Reply)
    requires InNormalForm(g, rt.state) && Rearranges(p, rt.state, input) && Construct(g, p).Some?
    ensures var res := Process(g, rt, obs, context, input, repairAllowed, Answer(Construct(g, p).value), second);
            && res.Result?
            && (res.repair.None? ==> NoUpdate(rt, res.runtime))
            && (ValidState(g, context, rt.state) ==> res.repair.None?)
  {
    var r := Construct(g, p).value;
    RearrangementIsNoCandidate(g, rt, obs, context, input, p);
    UnrepairedAnswer(g, rt, obs, context, input, repairAllowed, r, second);
    if RepairScope(g, rt, context, input, repairAllowed, Answer(r)).Some? {
      RearrangementNeedsNoRepair(g, rt, context, input, repairAllowed, p);
    }
  }

  lemma DraftOf(g: Grammar, d: Draft, obs: Observation, context: Context, input: Input, r: Response)
    requires Admitted(d.state, r, input).Some? ==>
               var m := Materialize(g, d.stage, d.state, Admitted(d.state, r, input).value, input, true);
               m.Some? ==> m.value.0 == d.state
    ensures var next := DraftProposed(g, d, obs, context, input, r);
            next.Some? ==> NoUpdate(d, next.value)
  {
  }

  lemma RearrangementIsNoDraft(g: Grammar, d: Draft, obs: Observation, context: Context, input: Input, p: Proposal)
    requires InNormalForm(g, d.state) && Rearranges(p, d.state, input) && Construct(g, p).Some?
    ensures var next := DraftProposed(g, d, obs, context, input, Construct(g, p).value);
            next.Some? ==> NoUpdate(d, next.value)
  {
    var r := Construct(g, p).value;
    if Admitted(d.state, r, input).Some? {
      RearrangementIsIdentity(g, d.stage, d.state, p, input, true);
    }
    DraftOf(g, d, obs, context, input, r);
  }

  /** Nor does such an answer change a Draft, in which nothing is repaired. */
  lemma DraftReorderingIsNoUpdate(g: Grammar, d: Draft, obs: Observation, context: Context, input: Input, p: Proposal)
    requires InNormalForm(g, d.state) && Rearranges(p, d.state, input) && Construct(g, p).Some?
    ensures var res := ProcessDraft(g, d, obs, context, input, Answer(Construct(g, p).value));
            res.Result? && NoUpdate(d, res.runtime)
  {
    RearrangementIsNoDraft(g, d, obs, context, input, p);
    DraftResult(g, d, obs, context, input, Construct(g, p).value);
    DraftStepIsAtomic(g, d, obs, context, input, Answer(Construct(g, p).value));
  }

  /** After any run of constructed replies, a rearrangement of the State reached is no update of it. */
  lemma ReorderingAfterAnyRun(g: Grammar, s: GroundingRuns.Session, events: seq<Event>, obs: Observation,
                              context: Context, input: Input, repairAllowed: bool, p: Proposal, second: Reply)
    requires SessionIsNormal(g, s) && forall i :: 0 <= i < |events| ==> EventIsConstructed(g, events[i])
    requires var t := Run(g, s, events); Rearranges(p, t.runtime.state, input) && ValidState(g, context, t.runtime.state)
    requires Construct(g, p).Some?
    ensures var t := Run(g, s, events);
            NoUpdate(t.runtime,
                     Step(g, t, Direct(obs, context, input, repairAllowed, Answer(Construct(g, p).value), second)).runtime)
  {
    var t := Run(g, s, events);
    RunsStayNormal(g, s, events);
    ReorderingIsNoUpdate(g, t.runtime, obs, context, input, repairAllowed, p, second);
  }
}
