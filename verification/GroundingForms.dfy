/** What the constructors of Grounding forms accept, what they make of it, and what a valid State is
    (valibra_agent/sql_grounding/models.py). */
module GroundingForms {
  import opened Options
  import opened Canonical
  import opened GroundingModels

  // ----- order

  /** At the first place where the texts differ, the first one has the smaller character or has ended. */
  ghost predicate DiffersDownAt(a: string, b: string, k: nat)
  {
    && k <= |a| && k < |b|
    && (forall i :: 0 <= i < k ==> a[i] == b[i])
    && (k < |a| ==> a[k] < b[k])
  }

  ghost predicate Before(a: string, b: string)
  {
    exists k: nat :: DiffersDownAt(a, b, k)
  }

  lemma {:induction false} TextLessExactly(a: string, b: string)
    ensures TextLess(a, b) <==> Before(a, b)
  {
    if a == "" || b == "" || a[0] != b[0] {
      if b != "" && TextLess(a, b) {
        assert DiffersDownAt(a, b, 0);
      }
      if k: nat :| DiffersDownAt(a, b, k) {
        assert k == 0;
      }
    } else {
      TextLessExactly(a[1..], b[1..]);
      if k: nat :| DiffersDownAt(a[1..], b[1..], k) {
        assert forall i :: 0 < i < k + 1 ==> a[i] == a[1..][i - 1] && b[i] == b[1..][i - 1];
        assert DiffersDownAt(a, b, k + 1);
      }
      if k: nat :| DiffersDownAt(a, b, k) {
        assert DiffersDownAt(a[1..], b[1..], k - 1);
      }
    }
  }

  function Spelling(kind: Kind): string
  {
    match kind
    case BusinessRule => "business_rule"
    case DatabaseCapability => "database_capability"
    case RuntimeFact => "runtime_state"
  }

  /** Facts are ordered by the spelling of their kind, then by content. */
  ghost predicate FactBefore(a: Knowledge, b: Knowledge)
  {
    Before(Spelling(a.kind), Spelling(b.kind)) || (a.kind == b.kind && Before(a.content, b.content))
  }

  lemma FactLessExactly(a: Knowledge, b: Knowledge)
    ensures FactLess(a, b) <==> FactBefore(a, b)
  {
    TextLessExactly(a.content, b.content);
    var x, y := Spelling(a.kind), Spelling(b.kind);
    if a.kind.Rank() < b.kind.Rank() {
      assert DiffersDownAt(x, y, 0);
    } else {
      assert a.kind == b.kind || y[0] < x[0];
      forall k: nat ensures !DiffersDownAt(x, y, k) {
      }
    }
  }

  // ----- lists

  ghost predicate NoRepetition<T(!new)>(xs: seq<T>)
  {
    forall i, j :: 0 <= i < j < |xs| ==> xs[i] != xs[j]
  }

  /** The list holds the same items, each before the next. */
  ghost predicate Arranges<T(!new)>(ys: seq<T>, xs: seq<T>, before: (T, T) -> bool)
  {
    (forall x :: x in ys <==> x in xs) && forall i, j :: 0 <= i < j < |ys| ==> before(ys[i], ys[j])
  }

  /** A list of texts is constructed if and only if it is short enough, every text fits and none is repeated; then it
      is put in order. */
  lemma TextsAreConstructed(xs: seq<string>, fits: string -> bool, limit: nat)
    ensures ParseTexts(xs, fits, limit).Some?
            <==> |xs| <= limit && NoRepetition(xs) && forall i :: 0 <= i < |xs| ==> fits(xs[i])
    ensures ParseTexts(xs, fits, limit).Some? ==> Arranges(ParseTexts(xs, fits, limit).value, xs, TextLess)
  {
    TextOrder();
    assert Comparable(TextLess, Elements(xs));
    CanonIsSorted(TextLess, xs);
    CanonElements(TextLess, xs);
    SameMembers(Canon(TextLess, xs), xs);
  }

  lemma SameMembers<T(!new)>(a: seq<T>, b: seq<T>)
    requires Elements(a) == Elements(b)
    ensures forall x :: x in a <==> x in b
  {
    forall x ensures x in a <==> x in b {
      assert x in a <==> x in Elements(a);
      assert x in b <==> x in Elements(b);
    }
  }

  lemma FactsAreConstructed(g: Grammar, ks: seq<Knowledge>)
    ensures ParseFacts(g, ks).Some?
            <==> |ks| <= 64 && NoRepetition(ks) && forall i :: 0 <= i < |ks| ==> g.isContent(ks[i].content)
    ensures ParseFacts(g, ks).Some? ==> Arranges(ParseFacts(g, ks).value, ks, FactLess)
  {
    Orders();
    CanonIsSorted(FactLess, ks);
    CanonElements(FactLess, ks);
    SameMembers(Canon(FactLess, ks), ks);
  }

  // ----- mappings

  /** A quoted phrase with one to sixteen distinct field expressions. */
  ghost predicate Readable(g: Grammar, m: Mapping)
  {
    && g.isPhrase(m.phrase) && 1 <= |m.targets| <= 16 && NoRepetition(m.targets)
    && forall i :: 0 <= i < |m.targets| ==> g.isField(m.targets[i])
  }

  lemma MappingIsConstructed(g: Grammar, m: Mapping)
    ensures ParseMapping(g, m).Some? <==> Readable(g, m)
    ensures ParseMapping(g, m).Some? ==>
              var p := ParseMapping(g, m).value;
              p.phrase == m.phrase && Arranges(p.targets, m.targets, TextLess)
  {
    TextsAreConstructed(m.targets, g.isField, 16);
  }

  /** A list of mappings is constructed if and only if there are at most 128, every one can be read and no phrase is
      repeated; then they are put in order of their phrases, each with its targets in order. */
  lemma MappingsAreConstructed(g: Grammar, ms: seq<Mapping>)
    ensures ParseMappings(g, ms).Some?
            <==> && |ms| <= 128 && (forall i :: 0 <= i < |ms| ==> Readable(g, ms[i]))
                 && forall i, j :: 0 <= i < j < |ms| ==> ms[i].phrase != ms[j].phrase
    ensures ParseMappings(g, ms).Some? ==>
              var ps := ParseMappings(g, ms).value;
              && (forall i, j :: 0 <= i < j < |ps| ==> Before(ps[i].phrase, ps[j].phrase))
              && (forall i :: 0 <= i < |ms| ==> ParseMapping(g, ms[i]).Some? && ParseMapping(g, ms[i]).value in ps)
              && (forall p :: p in ps ==> exists i :: 0 <= i < |ms| && ParseMapping(g, ms[i]) == Some(p))
  {
    ParseEachIsPointwise(g, ms);
    forall i | 0 <= i < |ms| ensures ParseMapping(g, ms[i]).Some? <==> Readable(g, ms[i]) {
      MappingIsConstructed(g, ms[i]);
    }
    if ParseMappings(g, ms).Some? {
      ParsedMappingsAreCanonical(g, ms);
      var ps := ParseMappings(g, ms).value;
      forall i | 0 <= i < |ms| ensures ParseMapping(g, ms[i]).Some? && ParseMapping(g, ms[i]).value in ps {
        assert ms[i] in ms;
        assert ParseMapping(g, ms[i]).value in Elements(ps);
      }
      forall i, j | 0 <= i < j < |ps| ensures Before(ps[i].phrase, ps[j].phrase) {
        assert MappingLess(ps[i], ps[j]);
        TextLessExactly(ps[i].phrase, ps[j].phrase);
      }
      forall p | p in ps ensures exists i :: 0 <= i < |ms| && ParseMapping(g, ms[i]) == Some(p) {
        assert p in Elements(ps);
        var m :| m in ms && ParseMapping(g, m) == Some(p);
        var i :| 0 <= i < |ms| && ms[i] == m;
      }
    } else if forall i :: 0 <= i < |ms| ==> Readable(g, ms[i]) {
      assert forall m :: m in ms ==> ParseMapping(g, m).Some?;
    }
  }

  lemma OmissionsAreConstructed(g: Grammar, us: seq<Unresolved>)
    ensures ParseOmissions(g, us).Some?
            <==> && |us| <= 128 && (forall i :: 0 <= i < |us| ==> g.isPhrase(us[i].phrase))
                 && forall i, j :: 0 <= i < j < |us| ==> us[i].phrase != us[j].phrase
    ensures ParseOmissions(g, us).Some? ==>
              var vs := ParseOmissions(g, us).value;
              && (forall u :: u in vs <==> u in us)
              && forall i, j :: 0 <= i < j < |vs| ==> Before(vs[i].phrase, vs[j].phrase)
  {
    if ParseOmissions(g, us).Some? {
      Orders();
      OmissionsCompare(us);
      CanonIsSorted(OmissionLess, us);
      CanonElements(OmissionLess, us);
      var vs := Canon(OmissionLess, us);
      SameMembers(vs, us);
      forall i, j | 0 <= i < j < |vs| ensures Before(vs[i].phrase, vs[j].phrase) {
        assert OmissionLess(vs[i], vs[j]);
        TextLessExactly(vs[i].phrase, vs[j].phrase);
      }
    }
  }

  lemma OmissionsCompare(us: seq<Unresolved>)
    requires UniqueOmissions(us)
    ensures Comparable(OmissionLess, Elements(us))
  {
    TextOrder();
    forall a, b | a in Elements(us) && b in Elements(us) && a != b ensures OmissionLess(a, b) || OmissionLess(b, a) {
      var i :| 0 <= i < |us| && us[i] == a;
      var j :| 0 <= j < |us| && us[j] == b;
      assert a.phrase != b.phrase;
      assert Comparable(TextLess, {a.phrase, b.phrase});
    }
  }

  // ----- valid States

  /** The phrase stands in the text, character by character. */
  ghost predicate StandsAt(text: string, phrase: string, at: nat)
  {
    at + |phrase| <= |text| && forall i :: 0 <= i < |phrase| ==> text[at + i] == phrase[i]
  }

  ghost predicate StandsIn(text: string, phrase: string)
  {
    exists at: nat :: StandsAt(text, phrase, at)
  }

  lemma ContainsExactly(text: string, phrase: string)
    ensures Contains(text, phrase) <==> StandsIn(text, phrase)
  {
    if i: nat :| 0 <= i <= |text| - |phrase| && OccursAt(text, phrase, i) {
      var part := text[i..i + |phrase|];
      assert forall k :: 0 <= k < |phrase| ==> text[i + k] == part[k];
      assert StandsAt(text, phrase, i);
    }
    if at: nat :| StandsAt(text, phrase, at) {
      assert text[at..at + |phrase|] == phrase;
      assert OccursAt(text, phrase, at);
    }
  }

  /** The evidence knows everything the State names, and every phrase is quoted from the query or the follow-up. */
  ghost predicate AllKnown(context: Context, s: State)
  {
    && (s.tables.Some? ==> forall t :: t in s.tables.value ==> t in context.tables)
    && (s.joinKeys.Some? ==> forall r :: r in s.joinKeys.value ==> context.relationKnown(r))
    && (s.knowledge.Some? ==> forall k :: k in s.knowledge.value ==> k in context.facts)
    && (s.mapping.Some? ==> forall m :: m in s.mapping.value ==>
          && (forall e :: e in m.targets ==> context.fieldKnown(e))
          && (StandsIn(context.query, m.phrase)
              || (context.followUp.Some? && StandsIn(context.followUp.value, m.phrase))))
  }

  /** A State is valid if and only if its own references are in order and the evidence knows what it names. */
  lemma ValidExactly(g: Grammar, context: Context, s: State)
    ensures ValidState(g, context, s) <==> CrossConsistent(g, s) && AllKnown(context, s)
  {
    forall m | m in s.Mappings()
      ensures MappingOk(g, context, s.Tables(), m)
              <==> && (StandsIn(context.query, m.phrase)
                       || (context.followUp.Some? && StandsIn(context.followUp.value, m.phrase)))
                   && (forall e :: e in m.targets ==> context.fieldKnown(e))
                   && (forall e, t :: e in m.targets && t in g.fieldTables(e) ==> t in s.Tables())
    {
      MappingOkExactly(g, context, s.Tables(), m);
    }
  }

  lemma MappingOkExactly(g: Grammar, context: Context, declared: seq<string>, m: Mapping)
    ensures MappingOk(g, context, declared, m)
            <==> && (StandsIn(context.query, m.phrase)
                     || (context.followUp.Some? && StandsIn(context.followUp.value, m.phrase)))
                 && (forall e :: e in m.targets ==> context.fieldKnown(e))
                 && (forall e, t :: e in m.targets && t in g.fieldTables(e) ==> t in declared)
  {
    ContainsExactly(context.query, m.phrase);
    if context.followUp.Some? {
      ContainsExactly(context.followUp.value, m.phrase);
    }
    if MappingOk(g, context, declared, m) {
      forall e | e in m.targets ensures TargetOk(g, context, declared, e) {
        var k :| 0 <= k < |m.targets| && m.targets[k] == e;
      }
    }
  }
}
