/** The lifecycle of a resolved-literal carrier beside the Draft it was staged on
    (valibra_agent/sql_grounding/resolved_literal_carrier_materialization.py). */
module LiteralCarriers {
  import opened Options
  import opened GroundingModels
  import opened GroundingService
  import opened GroundingRuns

  type StateDigest = State -> string

  /** The digest tells two States apart, if they differ. */
  predicate Apart(digest: StateDigest, a: State, b: State)
  {
    digest(a) == digest(b) ==> a == b
  }

  datatype Carrier = Carrier(
    task: string,
    draftId: string,
    phase: int,
    revision: nat,
    sha: string,
    phrase: string,
    source: string,
    comparison: string,
    literal: string)

  datatype CarrierStatus = InDraft | Committed | RolledBack

  datatype Lifecycle = Lifecycle(
    status: CarrierStatus,
    draftId: string,
    task: string,
    phase: int,
    baseRevision: nat,
    baseSha: string,
    draftRevision: nat,
    draftSha: string,
    committedRevision: Option<nat>,
    staged: seq<Carrier>,
    active: seq<Carrier>)

  // ----- materialization

  /** A shadow proposal: `Verified` carries what it was validated for. */
  datatype Shadow =
    | Omitted
    | Refuted
    | Verified(task: string, phase: int, revision: nat, sha: string, phrase: string, target: string, literal: string)

  datatype Materialized = NoCarrier | Carried(carrier: Carrier) | CarrierRefused

  /** The phrase is mapped exactly once, to exactly this target. */
  predicate MapsOnly(s: State, phrase: string, target: string)
  {
    var hits := Hits(s.Mappings(), phrase);
    |hits| == 1 && hits[0].targets == [target]
  }

  function Hits(ms: seq<Mapping>, phrase: string): seq<Mapping>
  {
    if ms == [] then []
    else Hits(ms[..|ms| - 1], phrase) + (if ms[|ms| - 1].phrase == phrase then [ms[|ms| - 1]] else [])
  }

  /** An inactive carrier for a verified proposal on the given Draft State, which is rebuilt and so must be consistent
      across its dimensions. `evidenceOk` is the check of the phrase's words, of the Official evidence and of its
      literal, `project` the comparison target of a source target. */
  function MaterializeCarrier(g: Grammar, digest: StateDigest, shadow: Shadow, state: State, context: Context, draftId: string,
                              task: string, phase: int, revision: nat, evidenceOk: Shadow -> bool,
                              project: string -> Option<string>): Materialized
  {
    if shadow.Omitted? then NoCarrier
    else if shadow.Refuted? then CarrierRefused
    else if shadow.task != task || shadow.phase != phase || shadow.revision != revision then CarrierRefused
    else if !CrossConsistent(g, state) then CarrierRefused
    else if shadow.sha != digest(state) || !MapsOnly(state, shadow.phrase, shadow.target) then CarrierRefused
    else if !QuotedIn(context, phase, shadow.phrase) || !evidenceOk(shadow) then CarrierRefused
    else
      var comparison := project(shadow.target);
      if comparison.None? then CarrierRefused
      else Carried(Carrier(task, draftId, phase, revision, digest(state), shadow.phrase, shadow.target,
                           comparison.value, shadow.literal))
  }

  predicate QuotedIn(context: Context, phase: int, phrase: string)
  {
    Contains(context.query, phrase) || (phase == 2 && context.followUp.Some? && Contains(context.followUp.value, phrase))
  }

  // ----- lifecycle

  predicate BelongsTo(l: Lifecycle, c: Carrier)
  {
    c.draftId == l.draftId && c.task == l.task && c.phase == l.phase
  }

  /** What the model validator demands of every lifecycle. */
  predicate LifecycleOk(l: Lifecycle)
  {
    && l.draftRevision >= l.baseRevision
    && (forall c :: c in l.staged + l.active ==> BelongsTo(l, c))
    && |l.staged| <= 1 && |l.active| <= 1
    && match l.status
       case InDraft =>
         && |l.staged| == 1 && l.active == [] && l.committedRevision.None?
         && l.staged[0].revision == l.draftRevision && l.staged[0].sha == l.draftSha
       case Committed =>
         && l.staged == [] && |l.active| == 1 && l.committedRevision.Some?
         && l.active[0].revision == l.committedRevision.value && l.active[0].sha == l.draftSha
       case RolledBack => l.staged == [] && l.active == [] && l.committedRevision.None?
  }

  function Validated(l: Lifecycle): Option<Lifecycle>
  {
    if LifecycleOk(l) then Some(l) else None
  }

  function Begin(c: Carrier, baseRevision: int, baseSha: string): Option<Lifecycle>
  {
    if baseRevision < 0 || c.revision < baseRevision then None
    else
      Validated(Lifecycle(InDraft, c.draftId, c.task, c.phase, baseRevision, baseSha, c.revision, c.sha, None, [c], []))
  }

  /** Activates the carrier beside the commit of its Draft's State. */
  function CommitCarrier(digest: StateDigest, l: Lifecycle, task: string, phase: int, before: Runtime, after: Runtime):
    Option<Lifecycle>
  {
    var sha := digest(after.state);
    if !l.status.InDraft? || l.task != task || l.phase != phase then None
    else if before.revision != l.baseRevision || digest(before.state) != l.baseSha then None
    else if sha != l.draftSha then None
    else if after.revision != l.baseRevision + (if sha != l.baseSha then 1 else 0) then None
    else if !forall c :: c in l.staged ==> MapsOnly(after.state, c.phrase, c.source) then None
    else
      Validated(l.(status := Committed, committedRevision := Some(after.revision), staged := [],
                   active := Rebound(l.staged, after.revision, sha)))
  }

  function Rebound(cs: seq<Carrier>, revision: nat, sha: string): seq<Carrier>
  {
    seq(|cs|, i requires 0 <= i < |cs| => cs[i].(revision := revision, sha := sha))
  }

  function Rollback(l: Lifecycle): Option<Lifecycle>
  {
    if !l.status.InDraft? then None
    else Validated(l.(status := RolledBack, staged := [], active := [], committedRevision := None))
  }

  datatype Exposure = Exposed(carriers: seq<Carrier>) | Stale

  /** The carriers a consumer may use, or the error for a carrier that outlived its State. */
  function ActiveCarriers(digest: StateDigest, l: Lifecycle, task: string, phase: int, rt: Runtime): Exposure
  {
    if !l.status.Committed? || l.task != task || l.phase != phase then Exposed([])
    else if l.committedRevision != Some(rt.revision) || l.draftSha != digest(rt.state) then Stale
    else Exposed(l.active)
  }

  // ----- carrier and commit agree

  /** A carrier staged on the final Draft State and begun at the formal base always commits with the Runtime the
      Draft's own commit produced, and is then the active one, bound to that Runtime's revision. */
  lemma CarrierCommitsWithItsDraft(digest: StateDigest, g: Grammar, formal: Runtime, draft: Draft, context: Context,
                                   check: Response, carrier: Carrier)
    requires Apart(digest, formal.state, draft.state) && formal.revision <= draft.revision
    requires carrier.revision == draft.revision && carrier.sha == digest(draft.state)
    requires MapsOnly(draft.state, carrier.phrase, carrier.source)
    requires Commit(g, formal, draft, context, check).Some?
    ensures var after := Commit(g, formal, draft, context, check).value;
            var begun := Begin(carrier, formal.revision, digest(formal.state));
            && begun.Some?
            && var done := CommitCarrier(digest, begun.value, carrier.task, carrier.phase, formal, after);
            && done.Some? && done.value.committedRevision == Some(after.revision)
            && ActiveCarriers(digest, done.value, carrier.task, carrier.phase, after)
               == Exposed([carrier.(revision := after.revision, sha := digest(after.state))])
  {
    CommitsExactly(g, formal, draft, context, check);
    var after := Commit(g, formal, draft, context, check).value;
    var begun := Begin(carrier, formal.revision, digest(formal.state));
    BeginSucceeds(carrier, formal.revision, digest(formal.state));
    assert forall c :: c in begun.value.staged ==> c == carrier;
    assert Rebound([carrier], after.revision, digest(after.state))
        == [carrier.(revision := after.revision, sha := digest(after.state))];
  }

  lemma BeginSucceeds(c: Carrier, baseRevision: nat, baseSha: string)
    requires baseRevision <= c.revision
    ensures Begin(c, baseRevision, baseSha)
            == Some(Lifecycle(InDraft, c.draftId, c.task, c.phase, baseRevision, baseSha, c.revision, c.sha, None, [c], []))
  {
  }

  /** When a carrier is granted: for a verified proposal made for this task, phase, revision and State, whose phrase is
      quoted and mapped to the proposed target alone, with the evidence in order and a target to compare with. */
  lemma CarriedExactly(g: Grammar, digest: StateDigest, shadow: Shadow, state: State, context: Context, draftId: string,
                       task: string, phase: int, revision: nat, evidenceOk: Shadow -> bool,
                       project: string -> Option<string>)
    ensures var m := MaterializeCarrier(g, digest, shadow, state, context, draftId, task, phase, revision, evidenceOk, project);
            && (m.Carried? <==>
                  && shadow.Verified? && shadow.task == task && shadow.phase == phase && shadow.revision == revision
                  && shadow.sha == digest(state) && CrossConsistent(g, state)
                  && (exists k :: 0 <= k < |state.Mappings()| && OnlyMapping(state.Mappings(), k, shadow.phrase)
                                  && state.Mappings()[k].targets == [shadow.target])
                  && (Contains(context.query, shadow.phrase)
                      || (phase == 2 && context.followUp.Some? && Contains(context.followUp.value, shadow.phrase)))
                  && evidenceOk(shadow) && project(shadow.target).Some?)
            && (m.NoCarrier? <==> shadow.Omitted?)
            && (m.Carried? ==> m.carrier == Carrier(task, draftId, phase, revision, digest(state), shadow.phrase,
                                                    shadow.target, project(shadow.target).value, shadow.literal))
  {
    if shadow.Verified? {
      MapsOnlyExactly(state, shadow.phrase, shadow.target);
    }
  }

  /** The `k`-th mapping is the only one of the phrase. */
  predicate OnlyMapping(ms: seq<Mapping>, k: nat, phrase: string)
    requires k < |ms|
  {
    ms[k].phrase == phrase && forall i :: 0 <= i < |ms| && i != k ==> ms[i].phrase != phrase
  }

  lemma {:induction false} NoHits(ms: seq<Mapping>, phrase: string)
    ensures Hits(ms, phrase) == [] <==> forall i :: 0 <= i < |ms| ==> ms[i].phrase != phrase
    decreases |ms|
  {
    if ms != [] {
      NoHits(ms[..|ms| - 1], phrase);
    }
  }

  lemma {:induction false} OneHit(ms: seq<Mapping>, phrase: string, targets: seq<string>)
    ensures (|Hits(ms, phrase)| == 1 && Hits(ms, phrase)[0].targets == targets)
            <==> exists k :: 0 <= k < |ms| && OnlyMapping(ms, k, phrase) && ms[k].targets == targets
    decreases |ms|
  {
    if ms != [] {
      var rest, last := ms[..|ms| - 1], |ms| - 1;
      NoHits(rest, phrase);
      OneHit(rest, phrase, targets);
      if k :| 0 <= k < |rest| && OnlyMapping(rest, k, phrase) && rest[k].targets == targets {
        assert ms[last].phrase != phrase ==> OnlyMapping(ms, k, phrase);
      }
      if k :| 0 <= k < |ms| && OnlyMapping(ms, k, phrase) && ms[k].targets == targets {
        if k < last {
          assert OnlyMapping(rest, k, phrase);
        }
      }
      if ms[last].phrase == phrase && Hits(rest, phrase) == [] && ms[last].targets == targets {
        assert OnlyMapping(ms, last, phrase);
      }
    }
  }

  lemma MapsOnlyExactly(s: State, phrase: string, target: string)
    ensures MapsOnly(s, phrase, target)
            <==> exists k :: 0 <= k < |s.Mappings()| && OnlyMapping(s.Mappings(), k, phrase) && s.Mappings()[k].targets == [target]
  {
    OneHit(s.Mappings(), phrase, [target]);
  }

  /** A materialized carrier meets the terms on which its Draft's commit activates it. */
  lemma MaterializedCarrierIsStaged(g: Grammar, digest: StateDigest, shadow: Shadow, draft: Draft, context: Context, draftId: string,
                                    task: string, phase: int, evidenceOk: Shadow -> bool,
                                    project: string -> Option<string>)
    requires var m := MaterializeCarrier(g, digest, shadow, draft.state, context, draftId, task, phase, draft.revision,
                                         evidenceOk, project); m.Carried?
    ensures var c := MaterializeCarrier(g, digest, shadow, draft.state, context, draftId, task, phase, draft.revision,
                                        evidenceOk, project).carrier;
            && c.task == task && c.phase == phase && c.revision == draft.revision && c.sha == digest(draft.state)
            && CrossConsistent(g, draft.state) && QuotedIn(context, phase, c.phrase)
            && MapsOnly(draft.state, c.phrase, c.source) && c.literal == shadow.literal
  {
  }

  /** Activation happens only beside the commit of the very State the carrier was staged on, from the very State its
      Draft began at, and raises the revision by one exactly when they differ. */
  lemma ActivatesOnlyWithItsState(digest: StateDigest, l: Lifecycle, task: string, phase: int, before: Runtime,
                                  after: Runtime, base: State, staged: State)
    requires Apart(digest, before.state, base) && Apart(digest, after.state, staged) && Apart(digest, base, staged)
    requires l.baseSha == digest(base) && l.draftSha == digest(staged)
    requires CommitCarrier(digest, l, task, phase, before, after).Some?
    ensures before.state == base && after.state == staged
    ensures after.revision == before.revision + (if staged != base then 1 else 0)
    ensures LifecycleOk(CommitCarrier(digest, l, task, phase, before, after).value)
  {
  }

  /** Nothing is exposed after a rollback, and a lifecycle ends only once. */
  lemma RollbackIsFinal(digest: StateDigest, l: Lifecycle, task: string, phase: int, rt: Runtime, before: Runtime,
                        after: Runtime)
    requires Rollback(l).Some?
    ensures ActiveCarriers(digest, Rollback(l).value, task, phase, rt) == Exposed([])
    ensures Rollback(Rollback(l).value).None?
    ensures CommitCarrier(digest, Rollback(l).value, task, phase, before, after).None?
    ensures CommitCarrier(digest, l, task, phase, before, after).Some? ==>
              Rollback(CommitCarrier(digest, l, task, phase, before, after).value).None?
  {
  }

  /** A whole Draft cycle with a carrier: materialized on the final Draft State and begun at the Runtime the Draft was
      begun from, it always commits with the Draft, and over any later run it is exposed exactly until the formal State
      changes again. */
  lemma CarrierFollowsItsDraftCycle(digest: StateDigest, g: Grammar, s: Session, calls: seq<Event>, context: Context,
                                    check: Response, shadow: Shadow, draftId: string, task: string, phase: int,
                                    evidenceOk: Shadow -> bool, project: string -> Option<string>, later: seq<Event>)
    requires RuntimeOk(s.runtime) && EvaluatedWhenLeft(s.runtime)
    requires forall i :: 0 <= i < |calls| ==> calls[i].DraftCall?
    requires var t := DraftCycle(g, s, calls);
             && t.draft.Some? && Commit(g, t.runtime, t.draft.value, context, check).Some?
             && Apart(digest, s.runtime.state, t.draft.value.state)
             && MaterializeCarrier(g, digest, shadow, t.draft.value.state, context, draftId, task, phase,
                                   t.draft.value.revision, evidenceOk, project).Carried?
    ensures var t := DraftCycle(g, s, calls);
            var carrier := MaterializeCarrier(g, digest, shadow, t.draft.value.state, context, draftId, task, phase,
                                              t.draft.value.revision, evidenceOk, project).carrier;
            var begun := Begin(carrier, s.runtime.revision, digest(s.runtime.state));
            && begun.Some?
            && var u := Step(g, t, CommitDraft(context, check));
            var done := CommitCarrier(digest, begun.value, task, phase, s.runtime, u.runtime);
            && done.Some?
            && ActiveCarriers(digest, done.value, task, phase, Run(g, u, later).runtime)
               == (if StateChanges(g, u, later) == 0
                   then Exposed([carrier.(revision := u.runtime.revision, sha := digest(u.runtime.state))]) else Stale)
  {
    var t := DraftCycle(g, s, calls);
    var draft := t.draft.value;
    DraftCycleCommitsOnce(g, s, calls, context, check);
    MaterializedCarrierIsStaged(g, digest, shadow, draft, context, draftId, task, phase, evidenceOk, project);
    var carrier := MaterializeCarrier(g, digest, shadow, draft.state, context, draftId, task, phase, draft.revision,
                                      evidenceOk, project).carrier;
    CarrierCommitsWithItsDraft(digest, g, s.runtime, draft, context, check, carrier);
    var begun := Begin(carrier, s.runtime.revision, digest(s.runtime.state)).value;
    var u := Step(g, t, CommitDraft(context, check));
    var done := CommitCarrier(digest, begun, task, phase, s.runtime, u.runtime).value;
    StepIsLegal(g, t, CommitDraft(context, check));
    ExposedExactlyUntilChanged(digest, done, g, u, later);
  }

  lemma {:induction false} UnchangedState(g: Grammar, s: Session, events: seq<Event>)
    requires StateChanges(g, s, events) == 0
    ensures Run(g, s, events).runtime.state == s.runtime.state
    decreases |events|
  {
    if events != [] {
      UnchangedState(g, s, events[..|events| - 1]);
    }
  }

  /** A committed carrier is exposed for its own task and phase for exactly as long as the formal State has not
      changed: after any later change it is stale, even when the content returns to the same value. */
  lemma ExposedExactlyUntilChanged(digest: StateDigest, l: Lifecycle, g: Grammar, s: Session, events: seq<Event>)
    requires l.status.Committed? && l.committedRevision == Some(s.runtime.revision) && l.draftSha == digest(s.runtime.state)
    requires RuntimeOk(s.runtime) && EvaluatedWhenLeft(s.runtime)
    ensures var now := Run(g, s, events).runtime;
            && ActiveCarriers(digest, l, l.task, l.phase, now)
               == (if StateChanges(g, s, events) == 0 then Exposed(l.active) else Stale)
            && forall task, phase :: task != l.task || phase != l.phase ==>
                 ActiveCarriers(digest, l, task, phase, now) == Exposed([])
  {
    RunsAreLegal(g, s, events);
    if StateChanges(g, s, events) == 0 {
      UnchangedState(g, s, events);
    }
  }
}
