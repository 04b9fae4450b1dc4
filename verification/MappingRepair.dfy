/** Repair of rejected mappings: who is blamed, and what a repair may change
    (valibra_agent/sql_grounding/service.py). */
module MappingRepair {
  import opened Options
  import opened Canonical
  import opened GroundingModels

  datatype MappingForm = MappingForm(
    tables: seq<string>,
    joinKeys: seq<string>,
    mapping: seq<Mapping>,
    unresolved: seq<Unresolved>)

  /** One item of a rejected form; `None` for targets that are not a list of texts. */
  datatype RawItem = Item(phrase: string, targets: Option<seq<string>>) | Malformed

  /** A rejected form that still parses as an object with the four expected keys. */
  datatype RawForm = RawForm(
    tables: seq<string>,
    joinKeys: seq<string>,
    items: seq<RawItem>,
    unresolved: seq<Unresolved>)

  /** What a repair must respect. `original` are the phrases of the rejected mapping. */
  datatype Scope = Scope(
    tables: seq<string>,
    joinKeys: seq<string>,
    original: seq<string>,
    valid: seq<Mapping>,
    unresolved: seq<Unresolved>,
    invalid: seq<string>)

  function MappedPhrases(ms: seq<Mapping>): set<string>
  {
    set m | m in ms :: m.phrase
  }

  function OmittedPhrases(us: seq<Unresolved>): set<string>
  {
    set u | u in us :: u.phrase
  }

  /** The invariants of a constructed mapping form: canonical lists, and no phrase on both sides. */
  ghost predicate FormOk(f: MappingForm)
  {
    && CanonicalMappings(f.mapping)
    && Sorted(OmissionLess, f.unresolved)
    && MappedPhrases(f.mapping) * OmittedPhrases(f.unresolved) == {}
  }

  /** A scope blames exactly the original phrases that no valid mapping covers. */
  ghost predicate ScopeOk(s: Scope)
  {
    && MappedPhrases(s.valid) * Elements(s.invalid) == {}
    && MappedPhrases(s.valid) + Elements(s.invalid) == Elements(s.original)
    && s.invalid != []
    && Elements(s.original) * OmittedPhrases(s.unresolved) == {}
  }

  // ----- blame

  /** A phrase with its mapping, if that mapping is acceptable. */
  datatype Judged = Judged(phrase: string, good: Option<Mapping>)
  {
    predicate Coherent()
    {
      good.Some? ==> good.value.phrase == phrase
    }
  }

  function Valid(js: seq<Judged>): seq<Mapping>
  {
    if js == [] then []
    else
      var last := js[|js| - 1].good;
      Valid(js[..|js| - 1]) + (if last.Some? then [last.value] else [])
  }

  function Invalid(js: seq<Judged>): seq<string>
  {
    if js == [] then []
    else
      var last := js[|js| - 1];
      Invalid(js[..|js| - 1]) + (if last.good.None? then [last.phrase] else [])
  }

  predicate DistinctPhrases(js: seq<Judged>)
  {
    forall i, j :: 0 <= i < j < |js| ==> js[i].phrase != js[j].phrase
  }

  function JudgedPhrases(js: seq<Judged>): seq<string>
  {
    seq(|js|, i requires 0 <= i < |js| => js[i].phrase)
  }

  /** Every phrase is either covered by a valid mapping or blamed, never both. */
  lemma {:induction false} Partition(js: seq<Judged>)
    requires DistinctPhrases(js) && forall k :: 0 <= k < |js| ==> js[k].Coherent()
    ensures MappedPhrases(Valid(js)) * Elements(Invalid(js)) == {}
    ensures MappedPhrases(Valid(js)) + Elements(Invalid(js)) == Elements(JudgedPhrases(js))
    decreases |js|
  {
    if js != [] {
      var rest, last := js[..|js| - 1], js[|js| - 1];
      Partition(rest);
      assert JudgedPhrases(js) == JudgedPhrases(rest) + [last.phrase];
      assert Elements(JudgedPhrases(js)) == Elements(JudgedPhrases(rest)) + {last.phrase};
      assert last.phrase !in Elements(JudgedPhrases(rest));
      if last.good.Some? {
        OnePhraseMore(Valid(rest), last.good.value);
      } else {
        assert Elements(Invalid(rest) + [last.phrase]) == Elements(Invalid(rest)) + {last.phrase};
      }
    }
  }

  lemma OnePhraseMore(ms: seq<Mapping>, m: Mapping)
    ensures MappedPhrases(ms + [m]) == MappedPhrases(ms) + {m.phrase}
  {
  }

  lemma {:induction false} BlamedExactly(js: seq<Judged>, k: nat)
    requires k < |js| && DistinctPhrases(js) && forall i :: 0 <= i < |js| ==> js[i].Coherent()
    ensures js[k].phrase in Elements(Invalid(js)) <==> js[k].good.None?
    decreases |js|
  {
    var rest, last := js[..|js| - 1], js[|js| - 1];
    Partition(rest);
    if k < |rest| {
      BlamedExactly(rest, k);
    } else {
      assert last.phrase !in Elements(JudgedPhrases(rest));
    }
  }

  /** Every acceptable mapping is kept. */
  lemma {:induction false} ValidExactly(js: seq<Judged>, k: nat)
    requires k < |js| && js[k].good.Some?
    ensures js[k].good.value in Valid(js)
    decreases |js|
  {
    if k < |js| - 1 {
      ValidExactly(js[..|js| - 1], k);
    }
  }

  function ScopeOf(tables: seq<string>, joinKeys: seq<string>, js: seq<Judged>, unresolved: seq<Unresolved>): Scope
  {
    Scope(tables, joinKeys, JudgedPhrases(js), Valid(js), unresolved, Canon(TextLess, Invalid(js)))
  }

  lemma ScopeIsOk(tables: seq<string>, joinKeys: seq<string>, js: seq<Judged>, unresolved: seq<Unresolved>)
    requires DistinctPhrases(js) && (forall k :: 0 <= k < |js| ==> js[k].Coherent()) && Invalid(js) != []
    requires Elements(JudgedPhrases(js)) * OmittedPhrases(unresolved) == {}
    ensures ScopeOk(ScopeOf(tables, joinKeys, js, unresolved))
    ensures Elements(ScopeOf(tables, joinKeys, js, unresolved).invalid) == Elements(Invalid(js))
  {
    Partition(js);
    CanonElements(TextLess, Invalid(js));
    EmptyElements(Invalid(js));
    EmptyElements(Canon(TextLess, Invalid(js)));
  }

  lemma ScopeBlames(js: seq<Judged>, invalid: seq<string>)
    requires DistinctPhrases(js) && (forall k :: 0 <= k < |js| ==> js[k].Coherent())
    requires Elements(invalid) == Elements(Invalid(js))
    ensures forall k :: 0 <= k < |js| ==> (js[k].phrase in invalid <==> js[k].good.None?)
  {
    forall k | 0 <= k < |js| ensures js[k].phrase in invalid <==> js[k].good.None? {
      BlamedExactly(js, k);
      assert js[k].phrase in invalid <==> js[k].phrase in Elements(invalid);
    }
  }

  lemma DistinctJudged(js: seq<Judged>)
    requires Distinct(JudgedPhrases(js))
    ensures DistinctPhrases(js)
  {
    assert forall k :: 0 <= k < |js| ==> JudgedPhrases(js)[k] == js[k].phrase;
  }

  lemma DistinctGrows(xs: seq<string>, x: string)
    requires Distinct(xs) && x !in xs
    ensures Distinct(xs + [x])
  {
  }

  /** One more item judged. */
  lemma OneMoreJudged(js: seq<Judged>, k: nat)
    requires k < |js|
    ensures var before, after := js[..k], js[..k + 1];
            && Valid(after) == Valid(before) + (if js[k].good.Some? then [js[k].good.value] else [])
            && Invalid(after) == Invalid(before) + (if js[k].good.None? then [js[k].phrase] else [])
            && JudgedPhrases(after) == JudgedPhrases(before) + [js[k].phrase]
  {
    assert js[..k + 1][..k] == js[..k];
  }

  // ----- the scope of a form that does not parse

  /** The item has an acceptable phrase; only its targets can be at fault. */
  predicate Addressable(g: Grammar, item: RawItem)
  {
    item.Item? && g.isPhrase(item.phrase)
  }

  function JudgeItem(g: Grammar, item: RawItem): Judged
  {
    if item.Malformed? then Judged("", None)
    else
      Judged(item.phrase, if item.targets.Some? then ParseMapping(g, Mapping(item.phrase, item.targets.value)) else None)
  }

  function JudgeItems(g: Grammar, items: seq<RawItem>): seq<Judged>
  {
    seq(|items|, i requires 0 <= i < |items| => JudgeItem(g, items[i]))
  }

  predicate Repairable(g: Grammar, raw: RawForm)
  {
    && ParseTexts(raw.tables, g.isTable, MAX_TABLES).Some?
    && ParseTexts(raw.joinKeys, g.isRelation, MAX_JOIN_KEYS).Some?
    && ParseOmissions(g, raw.unresolved).Some?
    && AllAddressable(g, raw.items)
    && Elements(JudgedPhrases(JudgeItems(g, raw.items))) * OmittedPhrases(ParseOmissions(g, raw.unresolved).value) == {}
    && Invalid(JudgeItems(g, raw.items)) != []
  }

  function FormScope(g: Grammar, raw: RawForm): Option<Scope>
  {
    if !Repairable(g, raw) then None
    else
      Some(ScopeOf(ParseTexts(raw.tables, g.isTable, MAX_TABLES).value,
                   ParseTexts(raw.joinKeys, g.isRelation, MAX_JOIN_KEYS).value,
                   JudgeItems(g, raw.items),
                   ParseOmissions(g, raw.unresolved).value))
  }

  predicate AllAddressable(g: Grammar, items: seq<RawItem>)
  {
    && (forall i :: 0 <= i < |items| ==> Addressable(g, items[i]))
    && Distinct(JudgedPhrases(JudgeItems(g, items)))
  }

  /** The loop over the rejected items, which gives up at the first item it cannot address. */
  method JudgeRejectedItems(g: Grammar, items: seq<RawItem>)
    returns (ok: bool, phrases: seq<string>, valid: seq<Mapping>, invalid: seq<string>)
    ensures ok == AllAddressable(g, items)
    ensures var js := JudgeItems(g, items);
            ok ==> phrases == JudgedPhrases(js) && valid == Valid(js) && invalid == Invalid(js)
  {
    ghost var js := JudgeItems(g, items);
    phrases, valid, invalid := [], [], [];
    for k := 0 to |items|
      invariant forall i :: 0 <= i < k ==> Addressable(g, items[i])
      invariant Distinct(phrases) && phrases == JudgedPhrases(js[..k])
      invariant valid == Valid(js[..k]) && invalid == Invalid(js[..k])
    {
      var item := items[k];
      if !Addressable(g, item) || item.phrase in phrases {
        NotAddressable(g, items, k);
        return false, phrases, valid, invalid;
      }
      OneMoreJudged(js, k);
      DistinctGrows(phrases, item.phrase);
      phrases := phrases + [item.phrase];
      var judged := JudgeItem(g, item);
      if judged.good.Some? {
        valid := valid + [judged.good.value];
      } else {
        invalid := invalid + [item.phrase];
      }
    }
    assert js[..|items|] == js;
    ok := true;
  }

  method MappingFormRepairScope(g: Grammar, raw: RawForm) returns (scope: Option<Scope>)
    ensures scope == FormScope(g, raw)
  {
    var tables := ParseTexts(raw.tables, g.isTable, MAX_TABLES);
    var joinKeys := ParseTexts(raw.joinKeys, g.isRelation, MAX_JOIN_KEYS);
    var unresolved := ParseOmissions(g, raw.unresolved);
    if tables.None? || joinKeys.None? || unresolved.None? {
      return None;
    }
    var ok, phrases, valid, invalid := JudgeRejectedItems(g, raw.items);
    if !ok || Elements(phrases) * OmittedPhrases(unresolved.value) != {} || invalid == [] {
      return None;
    }
    scope := Some(Scope(tables.value, joinKeys.value, phrases, valid, unresolved.value, Canon(TextLess, invalid)));
  }

  lemma NotAddressable(g: Grammar, items: seq<RawItem>, k: nat)
    requires k < |items|
    requires !Addressable(g, items[k]) || items[k].phrase in JudgedPhrases(JudgeItems(g, items)[..k])
    ensures !AllAddressable(g, items)
  {
    var js := JudgeItems(g, items);
    if Addressable(g, items[k]) {
      var i :| 0 <= i < k && JudgedPhrases(js[..k])[i] == items[k].phrase;
      assert JudgedPhrases(js)[i] == JudgedPhrases(js)[k];
    }
  }

  /** A form's scope blames exactly the phrases whose targets do not parse. */
  lemma FormScopeBlamesExactly(g: Grammar, raw: RawForm)
    requires FormScope(g, raw).Some?
    ensures ScopeOk(FormScope(g, raw).value)
    ensures forall i :: 0 <= i < |raw.items| ==>
              (raw.items[i].phrase in FormScope(g, raw).value.invalid <==> JudgeItem(g, raw.items[i]).good.None?)
  {
    var js, s := JudgeItems(g, raw.items), FormScope(g, raw).value;
    DistinctJudged(js);
    assert forall k :: 0 <= k < |js| ==> js[k].Coherent();
    ScopeIsOk(s.tables, s.joinKeys, js, s.unresolved);
    ScopeBlames(js, s.invalid);
    assert forall i :: 0 <= i < |raw.items| ==> js[i] == JudgeItem(g, raw.items[i]);
  }

  // ----- the scope of a form whose State is invalid

  /** The candidate State without its mappings. */
  function CommonState(s: State, f: MappingForm): State
  {
    s.(tables := Some(f.tables), joinKeys := Some(f.joinKeys), mapping := Some([]))
  }

  function MappedState(s: State, f: MappingForm): State
  {
    CommonState(s, f).(mapping := Some(f.mapping))
  }

  predicate AloneOk(g: Grammar, context: Context, common: State, m: Mapping)
  {
    ValidState(g, context, common.(mapping := Some([m])))
  }

  function JudgeAlone(g: Grammar, context: Context, common: State, ms: seq<Mapping>): seq<Judged>
  {
    seq(|ms|, i requires 0 <= i < |ms| =>
      Judged(ms[i].phrase, if AloneOk(g, context, common, ms[i]) then Some(ms[i]) else None))
  }

  function StateScope(g: Grammar, context: Context, s: State, f: MappingForm): Option<Scope>
  {
    var js := JudgeAlone(g, context, CommonState(s, f), f.mapping);
    if ValidState(g, context, CommonState(s, f)) && (forall m :: m in f.mapping ==> Quoted(context, m.phrase))
       && Invalid(js) != []
    then Some(ScopeOf(f.tables, f.joinKeys, js, f.unresolved))
    else None
  }

  /** The loop that validates every mapping on its own. */
  method MappingStateRepairScope(g: Grammar, context: Context, s: State, f: MappingForm) returns (scope: Option<Scope>)
    ensures scope == StateScope(g, context, s, f)
  {
    var common := CommonState(s, f);
    if !ValidState(g, context, common) {
      return None;
    }
    ghost var js := JudgeAlone(g, context, common, f.mapping);
    var phrases, valid, invalid := [], [], [];
    for k := 0 to |f.mapping|
      invariant forall i :: 0 <= i < k ==> Quoted(context, f.mapping[i].phrase)
      invariant phrases == JudgedPhrases(js[..k])
      invariant valid == Valid(js[..k]) && invalid == Invalid(js[..k])
    {
      var m := f.mapping[k];
      if !Quoted(context, m.phrase) {
        return None;
      }
      OneMoreJudged(js, k);
      phrases := phrases + [m.phrase];
      if AloneOk(g, context, common, m) {
        valid := valid + [m];
      } else {
        invalid := invalid + [m.phrase];
      }
    }
    assert js[..|f.mapping|] == js;
    if invalid == [] {
      return None;
    }
    scope := Some(Scope(f.tables, f.joinKeys, phrases, valid, f.unresolved, Canon(TextLess, invalid)));
  }

  /** Validation decomposes: with the rest of the State valid, a mapping is valid on its own exactly when its own
      check passes, and the State is valid exactly when every mapping is. */
  lemma ValidationDecomposes(g: Grammar, context: Context, common: State, ms: seq<Mapping>)
    requires ValidState(g, context, common) && common.mapping == Some([])
    ensures forall m :: AloneOk(g, context, common, m) <==> MappingOk(g, context, common.Tables(), m)
    ensures ValidState(g, context, common.(mapping := Some(ms)))
            <==> forall m :: m in ms ==> MappingOk(g, context, common.Tables(), m)
  {
    forall m ensures AloneOk(g, context, common, m) <==> MappingOk(g, context, common.Tables(), m) {
      var alone := common.(mapping := Some([m]));
      assert CommonOk(g, context, alone) == CommonOk(g, context, common);
      assert m in alone.Mappings();
    }
    var all := common.(mapping := Some(ms));
    assert CommonOk(g, context, all) == CommonOk(g, context, common);
    assert all.Mappings() == ms && all.Tables() == common.Tables();
  }

  /** Someone is blamed exactly when something fails. */
  lemma {:induction false} BlameExists(js: seq<Judged>)
    ensures Invalid(js) != [] <==> exists k :: 0 <= k < |js| && js[k].good.None?
    decreases |js|
  {
    if js != [] {
      BlameExists(js[..|js| - 1]);
    }
  }

  /** A State's scope exists only for an invalid State, and blames exactly the phrases whose mapping fails. */
  lemma StateScopeBlamesExactly(g: Grammar, context: Context, s: State, f: MappingForm)
    requires FormOk(f) && StateScope(g, context, s, f).Some?
    ensures ScopeOk(StateScope(g, context, s, f).value)
    ensures !ValidState(g, context, MappedState(s, f))
    ensures forall i :: 0 <= i < |f.mapping| ==>
              (f.mapping[i].phrase in StateScope(g, context, s, f).value.invalid
               <==> !MappingOk(g, context, f.tables, f.mapping[i]))
  {
    var common, scope := CommonState(s, f), StateScope(g, context, s, f).value;
    var js := JudgeAlone(g, context, common, f.mapping);
    SortedPhrasesAreUnique(f.mapping);
    PhrasesAreMapped(f.mapping);
    assert JudgedPhrases(js) == Phrases(f.mapping);
    ScopeIsOk(f.tables, f.joinKeys, js, f.unresolved);
    ScopeBlames(js, scope.invalid);
    SomeoneFails(g, context, common, f.mapping);
    ValidationDecomposes(g, context, common, f.mapping);
    forall i | 0 <= i < |js|
      ensures f.mapping[i].phrase in scope.invalid <==> !MappingOk(g, context, f.tables, f.mapping[i])
    {
      assert js[i].phrase == f.mapping[i].phrase && (js[i].good.None? <==> !AloneOk(g, context, common, f.mapping[i]));
    }
  }

  lemma SomeoneFails(g: Grammar, context: Context, common: State, ms: seq<Mapping>)
    requires ValidState(g, context, common) && common.mapping == Some([])
    requires Invalid(JudgeAlone(g, context, common, ms)) != []
    ensures !ValidState(g, context, common.(mapping := Some(ms)))
  {
    var js := JudgeAlone(g, context, common, ms);
    BlameExists(js);
    var k :| 0 <= k < |js| && js[k].good.None?;
    assert ms[k] in ms && !AloneOk(g, context, common, ms[k]);
    ValidationDecomposes(g, context, common, ms);
  }

  lemma PhrasesAreMapped(ms: seq<Mapping>)
    ensures Elements(Phrases(ms)) == MappedPhrases(ms)
  {
    forall p ensures p in Elements(Phrases(ms)) <==> p in MappedPhrases(ms) {
      if p in Elements(Phrases(ms)) {
        var i :| 0 <= i < |ms| && Phrases(ms)[i] == p;
        assert ms[i] in ms;
      }
      if p in MappedPhrases(ms) {
        var m :| m in ms && m.phrase == p;
        var i :| 0 <= i < |ms| && ms[i] == m;
        assert Phrases(ms)[i] == p;
      }
    }
  }

  // ----- what a repair may change

  /** Tables and relations untouched, no new phrase, and every valid mapping kept. */
  predicate KeepsMapped(f: MappingForm, s: Scope)
  {
    && f.tables == s.tables && f.joinKeys == s.joinKeys
    && (forall p :: p in MappedPhrases(f.mapping) ==> p in s.original)
    && (forall m :: m in s.valid ==> m in f.mapping)
  }

  /** Every existing omission kept; a new one only for a blamed phrase, and only for lack of metadata. */
  predicate KeepsOmitted(f: MappingForm, s: Scope)
  {
    && (forall u :: u in s.unresolved ==> u in f.unresolved)
    && (forall u :: u in f.unresolved && u.phrase !in OmittedPhrases(s.unresolved) ==>
          u.phrase in s.invalid && u.reason.NoDirectMetadata?)
  }

  predicate RepairOk(f: MappingForm, s: Scope)
  {
    && KeepsMapped(f, s) && KeepsOmitted(f, s)
    && (forall p :: p in s.invalid ==> p in MappedPhrases(f.mapping) || p in OmittedPhrases(f.unresolved))
  }

  /** The items of a list by phrase. */
  function MappingsByPhrase(ms: seq<Mapping>): map<string, Mapping>
  {
    if ms == [] then map[] else MappingsByPhrase(ms[..|ms| - 1])[ms[|ms| - 1].phrase := ms[|ms| - 1]]
  }

  function OmissionsByPhrase(us: seq<Unresolved>): map<string, Unresolved>
  {
    if us == [] then map[] else OmissionsByPhrase(us[..|us| - 1])[us[|us| - 1].phrase := us[|us| - 1]]
  }

  lemma {:induction false} MappingLookup(ms: seq<Mapping>)
    requires UniquePhrases(ms)
    ensures MappingsByPhrase(ms).Keys == MappedPhrases(ms)
    ensures forall m :: m in ms <==> m.phrase in MappingsByPhrase(ms) && MappingsByPhrase(ms)[m.phrase] == m
    decreases |ms|
  {
    if ms != [] {
      var rest, last := ms[..|ms| - 1], ms[|ms| - 1];
      MappingLookup(rest);
      assert ms == rest + [last];
      assert last.phrase !in MappedPhrases(rest);
      OnePhraseMore(rest, last);
    }
  }

  lemma {:induction false} OmissionLookup(us: seq<Unresolved>)
    requires UniqueOmissions(us)
    ensures OmissionsByPhrase(us).Keys == OmittedPhrases(us)
    ensures forall u :: u in us <==> u.phrase in OmissionsByPhrase(us) && OmissionsByPhrase(us)[u.phrase] == u
    decreases |us|
  {
    if us != [] {
      var rest, last := us[..|us| - 1], us[|us| - 1];
      OmissionLookup(rest);
      assert us == rest + [last];
      assert last.phrase !in OmittedPhrases(rest);
      assert OmittedPhrases(rest + [last]) == OmittedPhrases(rest) + {last.phrase};
    }
  }

  lemma SortedOmissionsAreUnique(us: seq<Unresolved>)
    requires Sorted(OmissionLess, us)
    ensures UniqueOmissions(us)
  {
    Orders();
    TextOrder();
    forall i, j | 0 <= i < j < |us| ensures us[i].phrase != us[j].phrase {
      assert OmissionLess(us[i], us[j]);
    }
  }

  method CheckMapped(f: MappingForm, s: Scope) returns (ok: bool, repaired: map<string, Mapping>)
    requires FormOk(f)
    ensures ok == KeepsMapped(f, s) && repaired.Keys == MappedPhrases(f.mapping)
  {
    SortedPhrasesAreUnique(f.mapping);
    MappingLookup(f.mapping);
    repaired := MappingsByPhrase(f.mapping);
    if f.tables != s.tables || f.joinKeys != s.joinKeys || exists p :: p in repaired && p !in s.original {
      return false, repaired;
    }
    for k := 0 to |s.valid|
      invariant forall i :: 0 <= i < k ==> s.valid[i] in f.mapping
    {
      var m := s.valid[k];
      if m.phrase !in repaired || repaired[m.phrase] != m {
        return false, repaired;
      }
    }
    ok := true;
  }

  method CheckOmitted(f: MappingForm, s: Scope) returns (ok: bool, now: map<string, Unresolved>)
    requires FormOk(f)
    ensures ok == KeepsOmitted(f, s) && now.Keys == OmittedPhrases(f.unresolved)
  {
    SortedOmissionsAreUnique(f.unresolved);
    OmissionLookup(f.unresolved);
    now := OmissionsByPhrase(f.unresolved);
    for k := 0 to |s.unresolved|
      invariant forall i :: 0 <= i < k ==> s.unresolved[i] in f.unresolved
    {
      var u := s.unresolved[k];
      if u.phrase !in now || now[u.phrase] != u {
        return false, now;
      }
    }
    var added := now.Keys - OmittedPhrases(s.unresolved);
    ok := forall p :: p in added ==> p in s.invalid && now[p].reason.NoDirectMetadata?;
  }

  /** The validator looks both sides up by phrase and stops at the first violation. */
  method ValidateMappingRepairScope(f: MappingForm, s: Scope) returns (ok: bool)
    requires FormOk(f)
    ensures ok == RepairOk(f, s)
  {
    var mappedOk, repaired := CheckMapped(f, s);
    if !mappedOk {
      return false;
    }
    var omittedOk, now := CheckOmitted(f, s);
    if !omittedOk {
      return false;
    }
    for k := 0 to |s.invalid|
      invariant forall i :: 0 <= i < k ==> s.invalid[i] in repaired || s.invalid[i] in now
    {
      if s.invalid[k] !in repaired && s.invalid[k] !in now {
        return false;
      }
    }
    ok := true;
  }

  /** An accepted repair keeps every valid mapping and every existing omission, neither loses nor invents a phrase,
      and keeps mapped and unresolved phrases apart. */
  lemma RepairConserves(f: MappingForm, s: Scope)
    requires FormOk(f) && ScopeOk(s) && RepairOk(f, s)
    ensures Elements(s.valid) <= Elements(f.mapping) && Elements(s.unresolved) <= Elements(f.unresolved)
    ensures MappedPhrases(f.mapping) + OmittedPhrases(f.unresolved)
            == Elements(s.original) + OmittedPhrases(s.unresolved)
    ensures MappedPhrases(f.mapping) * OmittedPhrases(f.unresolved) == {}
  {
    forall p | p in Elements(s.original) + OmittedPhrases(s.unresolved)
      ensures p in MappedPhrases(f.mapping) + OmittedPhrases(f.unresolved)
    {
      if p in OmittedPhrases(s.unresolved) {
        var u :| u in s.unresolved && u.phrase == p;
        assert u in f.unresolved;
      } else if p in MappedPhrases(s.valid) {
        var m :| m in s.valid && m.phrase == p;
        assert m in f.mapping;
      } else {
        assert p in s.invalid;
      }
    }
    forall p | p in MappedPhrases(f.mapping) + OmittedPhrases(f.unresolved)
      ensures p in Elements(s.original) + OmittedPhrases(s.unresolved)
    {
      if p in OmittedPhrases(f.unresolved) && p !in OmittedPhrases(s.unresolved) {
        var u :| u in f.unresolved && u.phrase == p;
        assert u.phrase in Elements(s.invalid);
      }
    }
  }
}
