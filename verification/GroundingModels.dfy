/** The four-dimensional Grounding State, its validation and its transitions
    (valibra_agent/sql_grounding/models.py). An SQL expression is opaque text; what parsing finds in it is a
    parameter, and a State's digest is compared by comparing States. */
module GroundingModels {
  import opened Options
  import opened Canonical

  const MAX_TABLES: nat := 64
  const MAX_JOIN_KEYS: nat := 64
  const MAX_COLUMN_MAPPINGS: nat := 128
  const MAX_TARGETS_PER_MAPPING: nat := 16
  const MAX_DOMAIN_KNOWLEDGE: nat := 64

  /** What the expression parser and the text checks say about a piece of text. */
  datatype Grammar = Grammar(
    isTable: string -> bool,
    isField: string -> bool,
    isRelation: string -> bool,
    isPhrase: string -> bool,
    isContent: string -> bool,
    fieldTables: string -> set<string>,
    relationTables: string -> set<string>)

  datatype Kind = BusinessRule | DatabaseCapability | RuntimeFact
  {
    function Rank(): nat
    {
      match this
      case BusinessRule => 0
      case DatabaseCapability => 1
      case RuntimeFact => 2
    }
  }

  datatype Mapping = Mapping(phrase: string, targets: seq<string>)

  datatype Knowledge = Knowledge(kind: Kind, content: string)

  datatype Reason = NoDirectMetadata | OtherReason

  datatype Unresolved = Unresolved(phrase: string, reason: Reason)

  /** `None` is not evaluated, an empty sequence is evaluated and not needed. */
  datatype State = State(
    tables: Option<seq<string>>,
    joinKeys: Option<seq<string>>,
    mapping: Option<seq<Mapping>>,
    knowledge: Option<seq<Knowledge>>)
  {
    predicate Complete()
    {
      tables.Some? && joinKeys.Some? && mapping.Some? && knowledge.Some?
    }

    function Tables(): seq<string>
    {
      if tables.Some? then tables.value else []
    }

    function Mappings(): seq<Mapping>
    {
      if mapping.Some? then mapping.value else []
    }

    function Facts(): seq<Knowledge>
    {
      if knowledge.Some? then knowledge.value else []
    }
  }

  datatype Stage = InitialGrounding | SqlAttempt | P2Incremental | Done

  datatype Focus = OnTables | OnJoinKeys | OnMapping | OnKnowledge | NoFocus

  datatype Dimension = DTables | DJoinKeys | DMapping | DKnowledge

  datatype Runtime = Runtime(revision: nat, stage: Stage, focus: Focus, state: State)

  /** The transient evidence a State is validated against. */
  datatype Context = Context(
    query: string,
    followUp: Option<string>,
    tables: set<string>,
    fieldKnown: string -> bool,
    relationKnown: string -> bool,
    facts: set<Knowledge>,
    latestObservation: string)

  // ----- canonical order

  predicate MappingLess(a: Mapping, b: Mapping)
  {
    TextLess(a.phrase, b.phrase)
  }

  predicate OmissionLess(a: Unresolved, b: Unresolved)
  {
    TextLess(a.phrase, b.phrase)
  }

  predicate FactLess(a: Knowledge, b: Knowledge)
  {
    a.kind.Rank() < b.kind.Rank() || (a.kind == b.kind && TextLess(a.content, b.content))
  }

  predicate UniquePhrases(ms: seq<Mapping>)
  {
    forall i, j :: 0 <= i < j < |ms| ==> ms[i].phrase != ms[j].phrase
  }

  predicate UniqueOmissions(us: seq<Unresolved>)
  {
    forall i, j :: 0 <= i < j < |us| ==> us[i].phrase != us[j].phrase
  }

  lemma Orders()
    ensures StrictOrder(MappingLess) && StrictOrder(OmissionLess) && StrictOrder(FactLess)
    ensures forall xs: set<Knowledge> :: Comparable(FactLess, xs)
  {
    TextOrder();
    forall a: Knowledge, b: Knowledge | a != b ensures FactLess(a, b) || FactLess(b, a) {
      assert Comparable(TextLess, {a.content, b.content});
    }
  }

  lemma PhrasesCompare(ms: seq<Mapping>)
    requires UniquePhrases(ms)
    ensures Comparable(MappingLess, Elements(ms))
  {
    TextOrder();
    forall a, b | a in Elements(ms) && b in Elements(ms) && a != b ensures MappingLess(a, b) || MappingLess(b, a) {
      var i :| 0 <= i < |ms| && ms[i] == a;
      var j :| 0 <= j < |ms| && ms[j] == b;
      assert a.phrase != b.phrase;
      assert Comparable(TextLess, {a.phrase, b.phrase});
    }
  }

  // ----- construction: the field validators sort and refuse duplicates

  function ParseTexts(xs: seq<string>, fits: string -> bool, limit: nat): Option<seq<string>>
  {
    if |xs| <= limit && (forall x :: x in xs ==> fits(x)) && Distinct(xs) then Some(Canon(TextLess, xs)) else None
  }

  function ParseMapping(g: Grammar, m: Mapping): Option<Mapping>
  {
    if !g.isPhrase(m.phrase) || m.targets == [] then None
    else
      var targets := ParseTexts(m.targets, g.isField, MAX_TARGETS_PER_MAPPING);
      if targets.Some? then Some(Mapping(m.phrase, targets.value)) else None
  }

  /** Every mapping parsed, in the order given; `None` if one does not parse. */
  function ParseEach(g: Grammar, ms: seq<Mapping>): Option<seq<Mapping>>
  {
    if ms == [] then Some([])
    else
      var head, tail := ParseMapping(g, ms[0]), ParseEach(g, ms[1..]);
      if head.Some? && tail.Some? then Some([head.value] + tail.value) else None
  }

  function ParseMappings(g: Grammar, ms: seq<Mapping>): Option<seq<Mapping>>
  {
    var each := ParseEach(g, ms);
    if each.Some? && |ms| <= MAX_COLUMN_MAPPINGS && UniquePhrases(ms) then Some(Canon(MappingLess, each.value)) else None
  }

  function ParseFacts(g: Grammar, ks: seq<Knowledge>): Option<seq<Knowledge>>
  {
    if |ks| <= MAX_DOMAIN_KNOWLEDGE && (forall k :: k in ks ==> g.isContent(k.content)) && Distinct(ks)
    then Some(Canon(FactLess, ks)) else None
  }

  function ParseOmissions(g: Grammar, us: seq<Unresolved>): Option<seq<Unresolved>>
  {
    if |us| <= MAX_COLUMN_MAPPINGS && (forall u :: u in us ==> g.isPhrase(u.phrase)) && UniqueOmissions(us)
    then Some(Canon(OmissionLess, us)) else None
  }

  /** What every constructed value satisfies. */
  ghost predicate CanonicalTexts(xs: seq<string>)
  {
    Sorted(TextLess, xs)
  }

  ghost predicate CanonicalMappings(ms: seq<Mapping>)
  {
    Sorted(MappingLess, ms)
  }

  ghost predicate CanonicalFacts(ks: seq<Knowledge>)
  {
    Sorted(FactLess, ks)
  }

  lemma SortedPhrasesAreUnique(ms: seq<Mapping>)
    requires CanonicalMappings(ms)
    ensures UniquePhrases(ms)
  {
    Orders();
    TextOrder();
    forall i, j | 0 <= i < j < |ms| ensures ms[i].phrase != ms[j].phrase {
      assert MappingLess(ms[i], ms[j]);
    }
  }

  // ----- validation

  predicate Quoted(context: Context, phrase: string)
  {
    Contains(context.query, phrase) || (context.followUp.Some? && Contains(context.followUp.value, phrase))
  }

  predicate Contains(text: string, phrase: string)
  {
    exists i :: 0 <= i <= |text| - |phrase| && OccursAt(text, phrase, i)
  }

  predicate OccursAt(text: string, phrase: string, i: nat)
    requires i + |phrase| <= |text|
  {
    text[i..i + |phrase|] == phrase
  }

  predicate TargetOk(g: Grammar, context: Context, declared: seq<string>, target: string)
  {
    context.fieldKnown(target) && forall t :: t in g.fieldTables(target) ==> t in declared
  }

  predicate MappingOk(g: Grammar, context: Context, declared: seq<string>, m: Mapping)
  {
    Quoted(context, m.phrase) && forall k :: 0 <= k < |m.targets| ==> TargetOk(g, context, declared, m.targets[k])
  }

  predicate RelationOk(g: Grammar, context: Context, declared: seq<string>, relation: string)
  {
    context.relationKnown(relation) && forall t :: t in g.relationTables(relation) ==> t in declared
  }

  /** The whole State except its mappings. */
  predicate CommonOk(g: Grammar, context: Context, s: State)
  {
    && (forall t :: t in s.Tables() ==> t in context.tables)
    && (s.joinKeys.Some? ==> forall r :: r in s.joinKeys.value ==> RelationOk(g, context, s.Tables(), r))
    && (forall f :: f in s.Facts() ==> f in context.facts)
  }

  /** The State is supported by the evidence in its context. */
  predicate ValidState(g: Grammar, context: Context, s: State)
  {
    CommonOk(g, context, s) && forall m :: m in s.Mappings() ==> MappingOk(g, context, s.Tables(), m)
  }

  /** The reference check of the model itself, which needs no context: made only where a State is rebuilt. */
  predicate CrossConsistent(g: Grammar, s: State)
  {
    && (s.joinKeys.Some? ==> forall r, t :: r in s.joinKeys.value && t in g.relationTables(r) ==> t in s.Tables())
    && (forall m, e, t :: m in s.Mappings() && e in m.targets && t in g.fieldTables(e) ==> t in s.Tables())
  }

  // ----- transitions

  function Changed(prior: State, next: State): set<Dimension>
  {
    (if prior.tables != next.tables then {DTables} else {})
    + (if prior.joinKeys != next.joinKeys then {DJoinKeys} else {})
    + (if prior.mapping != next.mapping then {DMapping} else {})
    + (if prior.knowledge != next.knowledge then {DKnowledge} else {})
  }

  predicate Frozen(stage: Stage)
  {
    stage.SqlAttempt? || stage.Done?
  }

  predicate Regresses(prior: State, next: State)
  {
    || (prior.tables.Some? && next.tables.None?)
    || (prior.joinKeys.Some? && next.joinKeys.None?)
    || (prior.mapping.Some? && next.mapping.None?)
    || (prior.knowledge.Some? && next.knowledge.None?)
  }

  predicate StateTransitionOk(stage: Stage, authorized: set<Dimension>, prior: State, next: State)
  {
    && Changed(prior, next) <= authorized
    && (Frozen(stage) ==> Changed(prior, next) == {})
    && !Regresses(prior, next)
  }

  /** The focus rule of the initial stage: no focus exactly when everything is evaluated. */
  predicate FocusOk(stage: Stage, focus: Focus, s: State)
  {
    stage.InitialGrounding? ==> (focus.NoFocus? <==> s.Complete())
  }

  predicate RuntimeOk(r: Runtime)
  {
    FocusOk(r.stage, r.focus, r.state)
  }

  function Bump(prior: State, next: State): nat
  {
    if prior == next then 0 else 1
  }

  predicate RuntimeTransitionOk(authorized: set<Dimension>, prior: Runtime, next: Runtime)
  {
    && StateTransitionOk(prior.stage, authorized, prior.state, next.state)
    && next.revision == prior.revision + Bump(prior.state, next.state)
  }

  lemma NothingChangedExactly(prior: State, next: State)
    ensures Changed(prior, next) == {} <==> prior == next
  {
    assert DTables in Changed(prior, next) <==> prior.tables != next.tables;
    assert DJoinKeys in Changed(prior, next) <==> prior.joinKeys != next.joinKeys;
    assert DMapping in Changed(prior, next) <==> prior.mapping != next.mapping;
    assert DKnowledge in Changed(prior, next) <==> prior.knowledge != next.knowledge;
  }

  // ----- canonical proposals

  lemma {:induction false} ParseEachIsPointwise(g: Grammar, ms: seq<Mapping>)
    ensures ParseEach(g, ms).Some? <==> forall m :: m in ms ==> ParseMapping(g, m).Some?
    ensures ParseEach(g, ms).Some? ==>
              |ParseEach(g, ms).value| == |ms|
              && forall k :: 0 <= k < |ms| ==> Some(ParseEach(g, ms).value[k]) == ParseMapping(g, ms[k])
  {
    if ms != [] {
      ParseEachIsPointwise(g, ms[1..]);
      assert ms == [ms[0]] + ms[1..];
    }
  }

  lemma ParsedPhrases(g: Grammar, ms: seq<Mapping>)
    requires ParseMappings(g, ms).Some?
    ensures var each := ParseEach(g, ms).value;
            UniquePhrases(each) && Comparable(MappingLess, Elements(each))
  {
    var each := ParseEach(g, ms).value;
    ParseEachIsPointwise(g, ms);
    forall i, j | 0 <= i < j < |each| ensures each[i].phrase != each[j].phrase {
      assert each[i].phrase == ms[i].phrase && each[j].phrase == ms[j].phrase;
    }
    PhrasesCompare(each);
  }

  /** Parsing mappings gives a canonical list of exactly the parsed items. */
  lemma ParsedMappingsAreCanonical(g: Grammar, ms: seq<Mapping>)
    requires ParseMappings(g, ms).Some?
    ensures CanonicalMappings(ParseMappings(g, ms).value)
    ensures Elements(ParseMappings(g, ms).value) == Parsed(g, ms)
  {
    var each := ParseEach(g, ms).value;
    ParseEachIsPointwise(g, ms);
    ParsedPhrases(g, ms);
    Orders();
    CanonIsSorted(MappingLess, each);
    CanonElements(MappingLess, each);
    forall m | m in ms ensures ParseMapping(g, m).value in Elements(each) {
      var k :| 0 <= k < |ms| && ms[k] == m;
      assert each[k] == ParseMapping(g, m).value;
    }
    forall p | p in each ensures p in Parsed(g, ms) {
      var k :| 0 <= k < |each| && each[k] == p;
      assert ms[k] in ms;
    }
  }

  // ----- the same proposal in another order

  function Phrases(ms: seq<Mapping>): seq<string>
  {
    seq(|ms|, i requires 0 <= i < |ms| => ms[i].phrase)
  }

  predicate SameMapping(m: Mapping, n: Mapping)
  {
    m.phrase == n.phrase && multiset(m.targets) == multiset(n.targets)
  }

  predicate Within(a: seq<Mapping>, b: seq<Mapping>)
  {
    forall i :: 0 <= i < |a| ==> exists j :: 0 <= j < |b| && SameMapping(a[i], b[j])
  }

  /** The same mappings in any order, each with its targets in any order. */
  predicate Rearranged(a: seq<Mapping>, b: seq<Mapping>)
  {
    multiset(Phrases(a)) == multiset(Phrases(b)) && Within(a, b) && Within(b, a)
  }

  predicate NoRepeats<T(==)>(m: multiset<T>)
  {
    forall x :: x in m ==> m[x] == 1
  }

  lemma {:induction false} DistinctByCount<T>(a: seq<T>)
    ensures Distinct(a) <==> NoRepeats(multiset(a))
  {
    if a != [] {
      var tail := a[1..];
      DistinctByCount(tail);
      DistinctTail(a);
      assert a == [a[0]] + tail;
      OneMore(a[0], multiset(tail));
      assert multiset(a) == multiset{a[0]} + multiset(tail);
      assert a[0] in tail <==> a[0] in multiset(tail);
    }
  }

  lemma OneMore<T>(x: T, m: multiset<T>)
    ensures NoRepeats(multiset{x} + m) <==> NoRepeats(m) && x !in m
  {
    var n := multiset{x} + m;
    assert forall y :: n[y] == m[y] + (if y == x then 1 else 0);
    if NoRepeats(n) {
      assert n[x] == 1;
      assert forall y :: y in m ==> n[y] == 1 && m[y] == 1;
    }
  }

  lemma DistinctTail<T>(a: seq<T>)
    requires a != []
    ensures Distinct(a) <==> Distinct(a[1..]) && a[0] !in a[1..]
  {
    if Distinct(a[1..]) && a[0] !in a[1..] {
      forall i, j | 0 <= i < j < |a| ensures a[i] != a[j] {
        assert a[j] == a[1..][j - 1];
        assert i > 0 ==> a[i] == a[1..][i - 1];
      }
    }
  }

  lemma PermutedSameElements<T>(a: seq<T>, b: seq<T>)
    requires multiset(a) == multiset(b)
    ensures Elements(a) == Elements(b) && Distinct(a) == Distinct(b) && |a| == |b|
    ensures forall x :: x in a <==> x in b
  {
    assert |multiset(a)| == |multiset(b)|;
    forall x ensures x in a <==> x in b {
      assert x in a <==> x in multiset(a);
      assert x in b <==> x in multiset(b);
    }
    DistinctByCount(a);
    DistinctByCount(b);
  }

  lemma TextsParseAlike(a: seq<string>, b: seq<string>, fits: string -> bool, limit: nat)
    requires multiset(a) == multiset(b)
    ensures ParseTexts(a, fits, limit) == ParseTexts(b, fits, limit)
  {
    PermutedSameElements(a, b);
    TextOrder();
    assert Comparable(TextLess, Elements(a));
    CanonIgnoresOrder(TextLess, a, b);
  }

  lemma FactsParseAlike(g: Grammar, a: seq<Knowledge>, b: seq<Knowledge>)
    requires multiset(a) == multiset(b)
    ensures ParseFacts(g, a) == ParseFacts(g, b)
  {
    PermutedSameElements(a, b);
    Orders();
    assert Comparable(FactLess, Elements(a));
    CanonIgnoresOrder(FactLess, a, b);
  }

  lemma MappingParsesAlike(g: Grammar, m: Mapping, n: Mapping)
    requires SameMapping(m, n)
    ensures ParseMapping(g, m) == ParseMapping(g, n)
  {
    PermutedSameElements(m.targets, n.targets);
    TextsParseAlike(m.targets, n.targets, g.isField, MAX_TARGETS_PER_MAPPING);
  }

  lemma UniquePhrasesExactly(ms: seq<Mapping>)
    ensures UniquePhrases(ms) <==> Distinct(Phrases(ms))
  {
    assert forall i :: 0 <= i < |ms| ==> Phrases(ms)[i] == ms[i].phrase;
  }

  /** Every item of `a` parses like some item of `b`. */
  ghost predicate Covered(g: Grammar, a: seq<Mapping>, b: seq<Mapping>)
  {
    forall m :: m in a ==> exists n :: n in b && ParseMapping(g, m) == ParseMapping(g, n)
  }

  lemma WithinIsCovered(g: Grammar, a: seq<Mapping>, b: seq<Mapping>)
    requires Within(a, b)
    ensures Covered(g, a, b)
  {
    forall m | m in a ensures exists n :: n in b && ParseMapping(g, m) == ParseMapping(g, n) {
      var i :| 0 <= i < |a| && a[i] == m;
      var j :| 0 <= j < |b| && SameMapping(a[i], b[j]);
      MappingParsesAlike(g, a[i], b[j]);
      assert b[j] in b;
    }
  }

  function Parsed(g: Grammar, ms: seq<Mapping>): set<Mapping>
  {
    set m | m in ms && ParseMapping(g, m).Some? :: ParseMapping(g, m).value
  }

  lemma SameShape(a: seq<Mapping>, b: seq<Mapping>)
    requires Rearranged(a, b)
    ensures |a| == |b| && UniquePhrases(a) == UniquePhrases(b)
  {
    PermutedSameElements(Phrases(a), Phrases(b));
    UniquePhrasesExactly(a);
    UniquePhrasesExactly(b);
  }

  lemma CoveredParses(g: Grammar, a: seq<Mapping>, b: seq<Mapping>)
    requires Covered(g, a, b) && ParseEach(g, b).Some?
    ensures ParseEach(g, a).Some?
  {
    ParseEachIsPointwise(g, a);
    ParseEachIsPointwise(g, b);
  }

  /** Mappings in any order, each with its targets in any order, parse to the identical canonical list, or fail alike. */
  lemma MappingsParseAlike(g: Grammar, a: seq<Mapping>, b: seq<Mapping>)
    requires Rearranged(a, b)
    ensures ParseMappings(g, a) == ParseMappings(g, b)
  {
    SameShape(a, b);
    WithinIsCovered(g, a, b);
    WithinIsCovered(g, b, a);
    CoveredAlike(g, a, b);
  }

  lemma CoveredAlike(g: Grammar, a: seq<Mapping>, b: seq<Mapping>)
    requires Covered(g, a, b) && Covered(g, b, a) && |a| == |b| && UniquePhrases(a) == UniquePhrases(b)
    ensures ParseMappings(g, a) == ParseMappings(g, b)
  {
    if ParseEach(g, b).Some? {
      CoveredParses(g, a, b);
    }
    if ParseEach(g, a).Some? {
      CoveredParses(g, b, a);
    }
    if ParseMappings(g, a).Some? {
      SameCanonicalForm(g, a, b);
    }
  }

  lemma SameCanonicalForm(g: Grammar, a: seq<Mapping>, b: seq<Mapping>)
    requires Covered(g, a, b) && Covered(g, b, a) && ParseMappings(g, a).Some? && ParseMappings(g, b).Some?
    ensures ParseMappings(g, a) == ParseMappings(g, b)
  {
    ParsedMappingsAreCanonical(g, a);
    ParsedMappingsAreCanonical(g, b);
    assert Parsed(g, a) == Parsed(g, b);
    Orders();
    SortedIsUnique(MappingLess, ParseMappings(g, a).value, ParseMappings(g, b).value);
  }
}
