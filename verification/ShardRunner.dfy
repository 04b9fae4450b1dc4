/** The crash-resumable shard runner (orchestrator/official_shard_runner.py). Every file is replaced atomically,
    and the process may die between any two writes. */
module ShardRunner {
  import opened Options

  datatype Record = Record(index: int, instance: string, database: string)

  datatype TaskResult = TaskResult(
    reward: int, phase1: bool, phase2: bool, elapsed: nat, tokens: nat, sql1: seq<string>, sql2: seq<string>)

  /** One committed model outcome; `verified` once its cleanup has been checked. */
  datatype Envelope = Envelope(record: Record, result: TaskResult, verified: bool)

  datatype Prediction = Prediction(instance: string, sql1: seq<string>, sql2: seq<string>)

  /** Digests of the input file and of the configuration. */
  datatype Pins = Pins(input: string, configuration: string)

  datatype Status = InProgress | Complete

  datatype PrivateIndex = PrivateIndex(status: Status, completed: seq<Envelope>)

  /** `digest` stands for the digest of the prediction file: the file's content at that moment. */
  datatype Checkpoint = Checkpoint(
    status: Status, pins: Pins, completed: seq<Record>, next: Option<int>,
    inProgress: Option<int>, digest: seq<Prediction>)

  datatype Summary = Summary(
    status: Status, pins: Pins, completed: seq<Record>, digest: seq<Prediction>, metrics: Metrics)

  datatype Metrics = Metrics(tasks: nat, reward: int, phase1: nat, phase2: nat, elapsed: nat, tokens: nat)

  /** The run directory. */
  datatype Disk = Disk(
    manifest: Option<seq<Record>>,
    envelopes: map<int, Envelope>,
    files: Files)

  /** The files derived from the envelopes. */
  datatype Files = Files(
    predictions: Option<seq<Prediction>>,
    privateResult: Option<seq<Envelope>>,
    index: Option<PrivateIndex>,
    checkpoint: Option<Checkpoint>,
    summary: Option<Summary>)

  const EMPTY := Disk(None, map[], Files(None, None, None, None, None))

  // ----- what the derived files are computed from

  function PredictionsOf(es: seq<Envelope>): (ps: seq<Prediction>)
    ensures |ps| == |es|
  {
    seq(|es|, i requires 0 <= i < |es| => Prediction(es[i].record.instance, es[i].result.sql1, es[i].result.sql2))
  }

  /** The index and instance lists of the checkpoint and the summary. */
  function RecordsOf(es: seq<Envelope>): (r: seq<Record>)
    ensures |r| == |es|
  {
    seq(|es|, i requires 0 <= i < |es| => es[i].record)
  }

  const NO_METRICS := Metrics(0, 0, 0, 0, 0, 0)

  function Count(b: bool): nat
  {
    if b then 1 else 0
  }

  function Adding(m: Metrics, r: TaskResult): Metrics
  {
    Metrics(m.tasks + 1, m.reward + r.reward, m.phase1 + Count(r.phase1), m.phase2 + Count(r.phase2),
            m.elapsed + r.elapsed, m.tokens + r.tokens)
  }

  function MetricsOf(es: seq<Envelope>): Metrics
  {
    if es == [] then NO_METRICS else Adding(MetricsOf(es[..|es| - 1]), es[|es| - 1].result)
  }

  /** A prediction carries its envelope's instance and the SQL of each phase in its own slot. */
  lemma PredictionsBySlot(es: seq<Envelope>, i: nat)
    requires i < |es|
    ensures var p := PredictionsOf(es)[i];
            p.instance == es[i].record.instance && p.sql1 == es[i].result.sql1 && p.sql2 == es[i].result.sql2
  {
  }

  /** Sum of one number of each envelope. */
  function Sum(es: seq<Envelope>, of: TaskResult -> int): int
  {
    if es == [] then 0 else Sum(es[..|es| - 1], of) + of(es[|es| - 1].result)
  }

  /** The positions of the envelopes with a property. */
  function Where(es: seq<Envelope>, has: TaskResult -> bool): set<nat>
  {
    set i: nat | i < |es| && has(es[i].result)
  }

  lemma OneMoreWhere(es: seq<Envelope>, has: TaskResult -> bool)
    requires es != []
    ensures |Where(es, has)| == |Where(es[..|es| - 1], has)| + (if has(es[|es| - 1].result) then 1 else 0)
  {
    var n, before := |es| - 1, Where(es[..|es| - 1], has);
    assert Where(es, has) == before + (if has(es[n].result) then {n} else {});
  }

  /** The metrics count the tasks and those that completed each phase, and add up rewards, times and tokens. */
  lemma {:induction false} MetricsExactly(es: seq<Envelope>)
    ensures var m := MetricsOf(es);
            && m.tasks == |es|
            && m.phase1 == |Where(es, (r: TaskResult) => r.phase1)| && m.phase2 == |Where(es, (r: TaskResult) => r.phase2)|
            && m.reward == Sum(es, (r: TaskResult) => r.reward) && m.elapsed == Sum(es, (r: TaskResult) => r.elapsed)
            && m.tokens == Sum(es, (r: TaskResult) => r.tokens)
    decreases |es|
  {
    if es != [] {
      MetricsExactly(es[..|es| - 1]);
      OneMoreWhere(es, (r: TaskResult) => r.phase1);
      OneMoreWhere(es, (r: TaskResult) => r.phase2);
    }
  }

  method ResultMetrics(es: seq<Envelope>) returns (m: Metrics)
    ensures m == MetricsOf(es)
  {
    m := NO_METRICS;
    for i := 0 to |es|
      invariant m == MetricsOf(es[..i])
    {
      assert es[..i + 1][..i] == es[..i];
      m := Adding(m, es[i].result);
    }
    assert es[..|es|] == es;
  }

  predicate DistinctInstances(m: seq<Record>)
  {
    forall i, j :: 0 <= i < j < |m| ==> m[i].instance != m[j].instance
  }

  /** A manifest numbers its records consecutively and never repeats an instance. */
  predicate ManifestOk(m: seq<Record>)
  {
    |m| > 0 && DistinctInstances(m) && forall i :: 0 <= i < |m| ==> m[i].index == m[0].index + i
  }

  // ----- the state of the run directory at any crash point

  /** Everything ever committed, in order, and the digests each outcome was produced under. */
  datatype History = History(outcomes: seq<Envelope>, under: seq<Pins>)

  /** The envelope files: one per index, from the first of the range on. */
  function AsFiles(first: int, es: seq<Envelope>): map<int, Envelope>
  {
    if es == [] then map[] else AsFiles(first, es[..|es| - 1])[first + |es| - 1 := es[|es| - 1]]
  }

  lemma {:induction false} FilesAt(first: int, es: seq<Envelope>, i: int)
    ensures i in AsFiles(first, es) <==> first <= i < first + |es|
    ensures i in AsFiles(first, es) ==> AsFiles(first, es)[i] == es[i - first]
    decreases |es|
  {
    if es != [] {
      FilesAt(first, es[..|es| - 1], i);
    }
  }

  /** The envelopes with a verified cleanup, when only the last may lack it. */
  function Verified(es: seq<Envelope>): (v: seq<Envelope>)
    ensures v <= es && |es| - 1 <= |v|
  {
    if es != [] && !es[|es| - 1].verified then es[..|es| - 1] else es
  }

  /** The committed envelopes follow the manifest from its first record, and only the last one may still wait for
      its cleanup. */
  ghost predicate OutcomesOk(es: seq<Envelope>, m: seq<Record>)
  {
    && |es| <= |m|
    && (forall i :: 0 <= i < |es| ==> es[i].record == m[i])
    && (forall i :: 0 <= i < |Verified(es)| ==> es[i].verified)
  }

  function Listed<T>(o: Option<seq<T>>): nat
  {
    if o.Some? then |o.value| else 0
  }

  function ListedInIndex(d: Files): nat
  {
    if d.index.Some? then |d.index.value.completed| else 0
  }

  function ListedInCheckpoint(d: Files): nat
  {
    if d.checkpoint.Some? then |d.checkpoint.value.completed| else 0
  }

  function ListedInSummary(d: Files): nat
  {
    if d.summary.Some? then |d.summary.value.completed| else 0
  }

  /** Summary, checkpoint, private index, predictions and verified envelopes are a chain of prefixes. */
  ghost predicate FilesOk(d: Files, v: seq<Envelope>, m: seq<Record>)
  {
    && ListedInSummary(d) <= ListedInCheckpoint(d) <= ListedInIndex(d) <= Listed(d.predictions) <= |v|
    && (d.predictions.Some? ==> d.predictions.value == PredictionsOf(v[..Listed(d.predictions)]))
    && (d.index.Some? ==> d.predictions.Some? && d.index.value.completed == v[..ListedInIndex(d)])
    && (d.checkpoint.Some? ==> d.index.Some? && CheckpointOk(d.checkpoint.value, v[..ListedInCheckpoint(d)], m))
    && (d.summary.Some? ==> d.checkpoint.Some? && SummaryOk(d.summary.value, d.checkpoint.value.pins,
                                                           v[..ListedInSummary(d)], m))
    && (d.privateResult.Some? ==> |v| == |m| && d.privateResult.value == v)
  }

  ghost predicate CheckpointOk(c: Checkpoint, done: seq<Envelope>, m: seq<Record>)
  {
    && |done| <= |m| && c.completed == m[..|done|] && c.digest == PredictionsOf(done)
    && c.next == (if |done| < |m| then Some(m[|done|].index) else None)
    && c.status == (if |done| == |m| && c.inProgress.None? then Complete else InProgress)
    && (c.inProgress.Some? ==> c.inProgress == c.next)
  }

  ghost predicate SummaryOk(s: Summary, pins: Pins, done: seq<Envelope>, m: seq<Record>)
  {
    && s.pins == pins && |done| <= |m| && s.completed == m[..|done|] && s.digest == PredictionsOf(done)
    && s.metrics == MetricsOf(done) && (s.status == Complete ==> |done| == |m|)
  }

  /** Every envelope was produced under the digests the checkpoint pins, and none exists before the checkpoint. */
  ghost predicate PinnedOk(d: Disk, h: History)
  {
    && |h.under| == |h.outcomes|
    && (h.outcomes != [] ==> d.files.checkpoint.Some?)
    && forall i :: 0 <= i < |h.under| ==> h.under[i] == d.files.checkpoint.value.pins
  }

  /** The run directory at any moment of any sequence of attempts; the summary is at most one task behind. */
  ghost predicate Consistent(d: Disk, h: History)
  {
    if d.manifest.None? then d == EMPTY && h == History([], [])
    else
      var m := d.manifest.value;
      && ManifestOk(m)
      && d.envelopes == AsFiles(m[0].index, h.outcomes)
      && OutcomesOk(h.outcomes, m)
      && FilesOk(d.files, Verified(h.outcomes), m)
      && |h.outcomes| <= ListedInSummary(d.files) + 1
      && PinnedOk(d, h)
  }

  /** A finished directory lists exactly the whole range, everywhere. */
  ghost predicate FinishedOk(d: Disk, h: History)
  {
    var v := h.outcomes;
    && d.manifest.Some? && OutcomesOk(v, d.manifest.value) && Verified(v) == v && |v| == |d.manifest.value|
    && d.files.predictions == Some(PredictionsOf(v))
    && d.files.privateResult == Some(v)
    && d.files.index == Some(PrivateIndex(Complete, v))
    && d.files.checkpoint.Some? && d.files.checkpoint.value.status == Complete && d.files.checkpoint.value.completed == d.manifest.value
    && d.files.summary.Some? && d.files.summary.value.status == Complete && d.files.summary.value.completed == d.manifest.value
    && d.files.summary.value.digest == PredictionsOf(v)
    && d.files.summary.value.metrics == MetricsOf(v)
  }

  /** Committed outcomes are never altered: only the missing cleanup mark of the last one may be added. */
  ghost predicate KeepsOutcomes(before: History, after: History)
  {
    && |before.outcomes| <= |after.outcomes|
    && |before.under| <= |after.under| && before.under <= after.under
    && forall i :: 0 <= i < |before.outcomes| ==>
         || after.outcomes[i] == before.outcomes[i]
         || (!before.outcomes[i].verified && after.outcomes[i] == before.outcomes[i].(verified := true))
  }

  // ----- the writes, one by one

  lemma WritingPredictions(d: Disk, h: History)
    requires Consistent(d, h) && d.manifest.Some?
    ensures Consistent(d.(files := d.files.(predictions := Some(PredictionsOf(Verified(h.outcomes))))), h)
  {
    var v := Verified(h.outcomes);
    assert v[..|v|] == v;
  }

  lemma WritingPrivateResult(d: Disk, h: History)
    requires Consistent(d, h) && d.manifest.Some? && |Verified(h.outcomes)| == |d.manifest.value|
    ensures Consistent(d.(files := d.files.(privateResult := Some(Verified(h.outcomes)))), h)
  {
  }

  lemma WritingIndex(d: Disk, h: History, status: Status)
    requires Consistent(d, h) && d.manifest.Some? && d.files.predictions == Some(PredictionsOf(Verified(h.outcomes)))
    ensures Consistent(d.(files := d.files.(index := Some(PrivateIndex(status, Verified(h.outcomes))))), h)
  {
    var v := Verified(h.outcomes);
    assert v[..|v|] == v;
  }

  lemma WritingCheckpoint(d: Disk, h: History, c: Checkpoint)
    requires Consistent(d, h) && d.manifest.Some? && CheckpointOk(c, Verified(h.outcomes), d.manifest.value)
    requires d.files.index.Some? && d.files.index.value.completed == Verified(h.outcomes)
    requires d.files.checkpoint.Some? ==> d.files.checkpoint.value.pins == c.pins
    ensures Consistent(d.(files := d.files.(checkpoint := Some(c))), h)
  {
    var v := Verified(h.outcomes);
    assert v[..|v|] == v;
  }

  lemma WritingSummary(d: Disk, h: History, s: Summary)
    requires Consistent(d, h) && d.manifest.Some? && d.files.checkpoint.Some?
    requires |d.files.checkpoint.value.completed| == |Verified(h.outcomes)|
    requires SummaryOk(s, d.files.checkpoint.value.pins, Verified(h.outcomes), d.manifest.value)
    ensures Consistent(d.(files := d.files.(summary := Some(s))), h)
  {
    var v := Verified(h.outcomes);
    assert v[..|v|] == v;
  }

  /** Committing a new model outcome at the next index, before its cleanup. */
  lemma WritingOutcome(d: Disk, h: History, e: Envelope)
    requires Consistent(d, h) && d.manifest.Some? && d.files.checkpoint.Some?
    requires Verified(h.outcomes) == h.outcomes && |h.outcomes| < |d.manifest.value|
    requires ListedInSummary(d.files) == |h.outcomes|
    requires e.record == d.manifest.value[|h.outcomes|] && !e.verified
    ensures var h' := History(h.outcomes + [e], h.under + [d.files.checkpoint.value.pins]);
            && Consistent(d.(envelopes := d.envelopes[e.record.index := e]), h') && KeepsOutcomes(h, h')
            && Verified(h'.outcomes) == h.outcomes && e.record.index !in d.envelopes
  {
    var es, m := h.outcomes + [e], d.manifest.value;
    assert es[..|es| - 1] == h.outcomes;
    FilesAt(m[0].index, h.outcomes, e.record.index);
    assert Verified(es) == h.outcomes;
    assert d.envelopes[e.record.index := e] == AsFiles(m[0].index, es);
  }

  /** The derived files stay prefixes when one more verified outcome follows. */
  lemma FilesFollow(d: Files, v: seq<Envelope>, v': seq<Envelope>, m: seq<Record>)
    requires FilesOk(d, v, m) && v <= v' && |v| < |m|
    ensures FilesOk(d, v', m)
  {
    assert forall n :: 0 <= n <= |v| ==> v'[..n] == v[..n];
  }

  /** The committed outcomes with the last one marked as verified. */
  function LastVerified(es: seq<Envelope>): seq<Envelope>
    requires es != []
  {
    es[..|es| - 1] + [es[|es| - 1].(verified := true)]
  }

  lemma MarkingLast(first: int, es: seq<Envelope>, m: seq<Record>)
    requires es != [] && OutcomesOk(es, m) && |Verified(es)| < |es|
    ensures Verified(es) == es[..|es| - 1] && Verified(LastVerified(es)) == LastVerified(es)
    ensures OutcomesOk(LastVerified(es), m)
    ensures AsFiles(first, LastVerified(es)) == AsFiles(first, es)[first + |es| - 1 := LastVerified(es)[|es| - 1]]
  {
    var k := |es| - 1;
    assert LastVerified(es)[..k] == es[..k];
  }

  lemma KeepsAllButMark(h: History)
    requires h.outcomes != []
    ensures KeepsOutcomes(h, h.(outcomes := LastVerified(h.outcomes)))
  {
  }

  /** Marking the last outcome's cleanup as verified. */
  lemma WritingCleanup(d: Disk, h: History)
    requires Consistent(d, h) && d.manifest.Some? && |Verified(h.outcomes)| < |h.outcomes|
    ensures var i := d.manifest.value[0].index + |h.outcomes| - 1;
            var es := LastVerified(h.outcomes);
            && Consistent(d.(envelopes := d.envelopes[i := es[|es| - 1]]), h.(outcomes := es))
            && Verified(es) == es
  {
    var m := d.manifest.value;
    var es, i := LastVerified(h.outcomes), m[0].index + |h.outcomes| - 1;
    MarkingLast(m[0].index, h.outcomes, m);
    FilesFollow(d.files, h.outcomes[..|h.outcomes| - 1], es, m);
  }

  // ----- the runner

  /** What one attempt is started with: the records of its slice, with their indices, and the two digests. */
  datatype Job = Job(first: int, last: int, slice: seq<Record>, pins: Pins)

  predicate LoadsInput(job: Job)
  {
    && |job.slice| == job.last - job.first + 1
    && DistinctInstances(job.slice)
  }

  predicate ValidRange(job: Job)
  {
    1 <= job.first <= job.last <= 600 && job.last - job.first + 1 in {50, 100}
  }

  function ManifestOf(job: Job): seq<Record>
  {
    seq(|job.slice|, i requires 0 <= i < |job.slice| => job.slice[i].(index := job.first + i))
  }

  /** A step of the runner goes on, the process dies right after a write, or an error ends the attempt. */
  datatype Progress = Going | Crashed | Raised

  datatype Outcome = Finished | Prepared | Stopped(how: Progress)

  /** The manifest lists the job's records, numbered through from the first index. */
  predicate Describes(m: seq<Record>, job: Job)
  {
    && |m| == |job.slice|
    && forall i :: 0 <= i < |m| ==> m[i] == Record(job.first + i, job.slice[i].instance, job.slice[i].database)
  }

  /** The range is one of the official sizes, and the input has exactly these records without repetition. */
  predicate Sound(job: Job)
  {
    && 1 <= job.first <= job.last <= 600 && (job.last - job.first == 49 || job.last - job.first == 99)
    && |job.slice| == job.last - job.first + 1
    && (forall i, j :: 0 <= i < j < |job.slice| ==> job.slice[i].instance != job.slice[j].instance)
  }

  /** The directory was not begun by another job: an existing manifest lists its records, and an existing checkpoint
      pins the same digests. */
  predicate Fits(d: Disk, job: Job)
  {
    && (d.manifest.Some? ==> Describes(d.manifest.value, job))
    && (d.files.checkpoint.Some? ==> d.files.checkpoint.value.pins == job.pins)
  }

  predicate Resumable(d: Disk, job: Job)
  {
    Sound(job) && Fits(d, job)
  }

  lemma StillFits(d: Disk, d': Disk, job: Job)
    requires d'.manifest == d.manifest
    requires d'.files.checkpoint.Some? ==> d'.files.checkpoint.value.pins == job.pins
    ensures Resumable(d, job) ==> Resumable(d', job)
  {
  }

  lemma ManifestDescribes(job: Job, m: seq<Record>)
    ensures Describes(m, job) <==> m == ManifestOf(job)
  {
    if Describes(m, job) {
      assert m == ManifestOf(job);
    }
  }

  class RunDirectory {
    var disk: Disk
    ghost var history: History
    ghost var log: seq<Event>

    constructor ()
      ensures disk == EMPTY && history == History([], []) && log == []
      ensures Consistent(disk, history)
    {
      disk, history, log := EMPTY, History([], []), [];
    }
  }

  /** The complete envelopes held in memory, sorted by index: the keys never leave the manifest's range. */
  method OrderedComplete(envelopes: map<int, Envelope>, ghost es: seq<Envelope>, m: seq<Record>) returns (v: seq<Envelope>)
    requires ManifestOk(m) && OutcomesOk(es, m) && envelopes == AsFiles(m[0].index, es)
    ensures v == Verified(es)
  {
    v := [];
    for i := 0 to |m|
      invariant v == Verified(es)[..if i <= |Verified(es)| then i else |Verified(es)|]
    {
      FilesAt(m[0].index, es, m[i].index);
      if m[i].index in envelopes && envelopes[m[i].index].verified {
        v := v + [envelopes[m[i].index]];
      }
    }
  }

  /** Checks that the prediction file lists the complete envelopes in order, without repetition. */
  predicate ValidPredictions(ps: seq<Prediction>, complete: seq<Envelope>)
  {
    && |ps| == |complete|
    && (forall i, j :: 0 <= i < j < |ps| ==> ps[i].instance != ps[j].instance)
    && (forall i :: 0 <= i < |ps| ==> ps[i].instance == complete[i].record.instance)
  }

  /** The check of the prediction file never fails on what the runner itself has written. */
  lemma PredictionsAreValid(v: seq<Envelope>, m: seq<Record>)
    requires ManifestOk(m) && |v| <= |m| && forall i :: 0 <= i < |v| ==> v[i].record == m[i]
    ensures ValidPredictions(PredictionsOf(v), v)
  {
  }

  /** Rewrites the derived files in order: predictions, the private result of a complete shard, private index,
      checkpoint, summary. */
  method WriteState(calm: bool, dir: RunDirectory, m: seq<Record>, pins: Pins, envelopes: map<int, Envelope>,
                    inProgress: Option<int>)
    returns (p: Progress)
    requires Consistent(dir.disk, dir.history) && dir.disk.manifest == Some(m) && envelopes == dir.disk.envelopes
    requires Verified(dir.history.outcomes) == dir.history.outcomes
    requires dir.disk.files.checkpoint.Some? ==> dir.disk.files.checkpoint.value.pins == pins
    requires inProgress.Some? ==>
               |dir.history.outcomes| < |m| && inProgress.value == m[|dir.history.outcomes|].index
    modifies dir`disk
    ensures Consistent(dir.disk, dir.history)
    ensures OnlyFilesChange(old(dir.disk), dir.disk, pins)
    ensures FinishedOk(old(dir.disk), dir.history) ==> FinishedOk(dir.disk, dir.history)
    ensures calm ==> p.Going?
    ensures p.Going? ==>
              && dir.disk.files.checkpoint.Some?
              && ListedInSummary(dir.disk.files) == |dir.history.outcomes|
              && (inProgress.None? && |dir.history.outcomes| == |m| ==> FinishedOk(dir.disk, dir.history))
  {
    var complete := OrderedComplete(envelopes, dir.history.outcomes, m);
    var status := if |complete| == |m| && inProgress.None? then Status.Complete else InProgress;
    p := WriteLists(calm, dir, m, complete, status);
    if !p.Going? {
      return;
    }
    p := WriteRecords(calm, dir, m, pins, complete, status, inProgress);
  }

  /** The predictions, which are checked right away, and the private result of a complete shard. */
  method WriteLists(calm: bool, dir: RunDirectory, m: seq<Record>, complete: seq<Envelope>, status: Status)
    returns (p: Progress)
    requires Consistent(dir.disk, dir.history) && dir.disk.manifest == Some(m)
    requires Verified(dir.history.outcomes) == dir.history.outcomes == complete
    requires status.Complete? ==> |complete| == |m|
    modifies dir`disk
    ensures Consistent(dir.disk, dir.history)
    ensures dir.disk == old(dir.disk).(files := dir.disk.files)
    ensures dir.disk.files.checkpoint == old(dir.disk).files.checkpoint
    ensures FinishedOk(old(dir.disk), dir.history) ==> FinishedOk(dir.disk, dir.history)
    ensures calm ==> p.Going?
    ensures p.Going? ==> dir.disk.files.predictions == Some(PredictionsOf(complete))
    ensures p.Going? && status.Complete? ==> dir.disk.files.privateResult == Some(complete)
  {
    var died: bool := *;
    WritingPredictions(dir.disk, dir.history);
    dir.disk := dir.disk.(files := dir.disk.files.(predictions := Some(PredictionsOf(complete))));
    if died && !calm {
      return Crashed;
    }
    PredictionsAreValid(complete, m);
    if !ValidPredictions(dir.disk.files.predictions.value, complete) {
      assert false;
    }
    if status.Complete? {
      WritingPrivateResult(dir.disk, dir.history);
      dir.disk := dir.disk.(files := dir.disk.files.(privateResult := Some(complete)));
    }
    died := *;
    p := if died && !calm then Crashed else Going;
  }

  /** Only derived files changed, under the given digests. */
  ghost predicate OnlyFilesChange(before: Disk, after: Disk, pins: Pins)
  {
    && after.manifest == before.manifest && after.envelopes == before.envelopes
    && (after.files.checkpoint.Some? ==> after.files.checkpoint.value.pins == pins)
    && (before.files.checkpoint.Some? ==> after.files.checkpoint.Some?)
  }

  method WriteRecords(calm: bool, dir: RunDirectory, m: seq<Record>, pins: Pins, complete: seq<Envelope>, status: Status,
                      inProgress: Option<int>) returns (p: Progress)
    requires Consistent(dir.disk, dir.history) && dir.disk.manifest == Some(m)
    requires Verified(dir.history.outcomes) == dir.history.outcomes == complete
    requires dir.disk.files.predictions == Some(PredictionsOf(complete))
    requires dir.disk.files.checkpoint.Some? ==> dir.disk.files.checkpoint.value.pins == pins
    requires inProgress.Some? ==> |complete| < |m| && inProgress.value == m[|complete|].index
    requires status == if |complete| == |m| && inProgress.None? then Status.Complete else InProgress
    requires status.Complete? ==> dir.disk.files.privateResult == Some(complete)
    modifies dir`disk
    ensures Consistent(dir.disk, dir.history)
    ensures OnlyFilesChange(old(dir.disk), dir.disk, pins)
    ensures FinishedOk(old(dir.disk), dir.history) ==> FinishedOk(dir.disk, dir.history)
    ensures calm ==> p.Going?
    ensures p.Going? ==>
              && dir.disk.files.checkpoint.Some?
              && ListedInSummary(dir.disk.files) == |complete|
              && (status.Complete? ==> FinishedOk(dir.disk, dir.history))
  {
    var digest := dir.disk.files.predictions.value;
    var next := if |complete| < |m| then Some(m[|complete|].index) else None;
    var index := PrivateIndex(status, complete);
    var c := Checkpoint(status, pins, RecordsOf(complete), next, inProgress, digest);
    var metrics := ResultMetrics(complete);
    var s := Summary(status, pins, RecordsOf(complete), digest, metrics);
    WritingRecords(dir.disk, dir.history, m, c, s);
    var died: bool := *;
    dir.disk := dir.disk.(files := dir.disk.files.(index := Some(index)));
    if died && !calm {
      return Crashed;
    }
    died := *;
    dir.disk := dir.disk.(files := dir.disk.files.(checkpoint := Some(c)));
    if died && !calm {
      return Crashed;
    }
    died := *;
    var unsafe: bool := *;
    dir.disk := dir.disk.(files := dir.disk.files.(summary := Some(s)));
    p := if calm then Going else if died then Crashed else if unsafe then Raised else Going;
  }

  /** Private index, checkpoint and summary, written in this order over up-to-date predictions. */
  lemma WritingRecords(d: Disk, h: History, m: seq<Record>, c: Checkpoint, s: Summary)
    requires Consistent(d, h) && d.manifest == Some(m) && Verified(h.outcomes) == h.outcomes
    requires d.files.predictions == Some(PredictionsOf(h.outcomes))
    requires d.files.checkpoint.Some? ==> d.files.checkpoint.value.pins == c.pins
    requires c.completed == s.completed == RecordsOf(h.outcomes) && c.digest == s.digest == PredictionsOf(h.outcomes)
    requires c.next == if |h.outcomes| < |m| then Some(m[|h.outcomes|].index) else None
    requires c.inProgress.Some? ==> c.inProgress == c.next
    requires c.status == s.status == if |h.outcomes| == |m| && c.inProgress.None? then Status.Complete else InProgress
    requires s.pins == c.pins && s.metrics == MetricsOf(h.outcomes)
    ensures var d1 := d.(files := d.files.(index := Some(PrivateIndex(c.status, h.outcomes))));
            var d2 := d1.(files := d1.files.(checkpoint := Some(c)));
            var d3 := d2.(files := d2.files.(summary := Some(s)));
            && Consistent(d1, h) && Consistent(d2, h) && Consistent(d3, h)
            && (c.status.Complete? && d.files.privateResult == Some(h.outcomes) ==> FinishedOk(d3, h))
            && (FinishedOk(d, h) ==> FinishedOk(d1, h) && FinishedOk(d2, h) && FinishedOk(d3, h))
  {
    var v := h.outcomes;
    assert RecordsOf(v) == m[..|v|];
    var d1 := d.(files := d.files.(index := Some(PrivateIndex(c.status, v))));
    var d2 := d1.(files := d1.files.(checkpoint := Some(c)));
    WritingIndex(d, h, c.status);
    WritingCheckpoint(d1, h, c);
    WritingSummary(d2, h, s);
  }

  lemma OutcomesAreKept(a: History, b: History, c: History)
    requires KeepsOutcomes(a, b) && KeepsOutcomes(b, c)
    ensures KeepsOutcomes(a, c)
  {
  }

  /** A model run is started, or its outcome is committed. */
  datatype Event = Started(index: int) | Committed(index: int)

  /** No task is run or committed again after its outcome was committed. */
  ghost predicate NeverRerun(log: seq<Event>)
  {
    forall a, b :: 0 <= a < b < |log| && log[a].Committed? ==> log[b].index != log[a].index
  }

  ghost predicate RunsOk(d: Disk, h: History, log: seq<Event>)
  {
    if d.manifest.None? || |d.manifest.value| == 0 then log == []
    else
      var first := d.manifest.value[0].index;
      && NeverRerun(log)
      && forall i :: Committed(i) in log <==> first <= i < first + |h.outcomes|
  }

  /** What a whole attempt, or any part of it, keeps: outcomes are not altered, a committed one is not run again,
      once the checkpoint exists its digests do not change, and a finished directory stays finished. */
  ghost predicate Continues(d: Disk, h: History, runs: seq<Event>, d': Disk, h': History, runs': seq<Event>)
  {
    && KeepsOutcomes(h, h')
    && (d.manifest.Some? ==> d'.manifest == d.manifest)
    && (d.files.checkpoint.Some? ==> d'.files.checkpoint.Some? && d'.files.checkpoint.value.pins == d.files.checkpoint.value.pins)
    && runs <= runs'
    && (RunsOk(d, h, runs) ==> RunsOk(d', h', runs'))
    && (FinishedOk(d, h) ==> FinishedOk(d', h'))
  }

  lemma ContinuesThrough(d0: Disk, h0: History, r0: seq<Event>, d1: Disk, h1: History, r1: seq<Event>,
                         d2: Disk, h2: History, r2: seq<Event>)
    requires Continues(d0, h0, r0, d1, h1, r1) && Continues(d1, h1, r1, d2, h2, r2)
    ensures Continues(d0, h0, r0, d2, h2, r2)
  {
    OutcomesAreKept(h0, h1, h2);
  }

  lemma ContinuesStill(d: Disk, h: History, runs: seq<Event>)
    ensures Continues(d, h, runs, d, h, runs)
  {
  }

  /** Checks the attempt against what an earlier one left: same manifest, same digests. */
  method PrepareRun(calm: bool, dir: RunDirectory, job: Job) returns (p: Progress, m: seq<Record>)
    requires Consistent(dir.disk, dir.history)
    modifies dir`disk
    ensures Consistent(dir.disk, dir.history)
    ensures Continues(old(dir.disk), dir.history, dir.log, dir.disk, dir.history, dir.log)
    ensures dir.disk == old(dir.disk) || (old(dir.disk) == EMPTY && dir.disk == EMPTY.(manifest := Some(ManifestOf(job))))
    ensures p.Going? ==> m == ManifestOf(job) && dir.disk.manifest == Some(m) && ManifestOk(m)
    ensures p.Going? && dir.disk.files.checkpoint.Some? ==> dir.disk.files.checkpoint.value.pins == job.pins
    ensures old(dir.disk).manifest.Some? ==> dir.disk == old(dir.disk) && !p.Crashed?
    ensures p.Raised? <==> !Resumable(old(dir.disk), job)
    ensures p.Raised? ==> dir.disk == old(dir.disk)
    ensures Resumable(old(dir.disk), job) ==> Resumable(dir.disk, job)
    ensures calm ==> !p.Crashed?
  {
    m := ManifestOf(job);
    ManifestDescribes(job, m);
    if dir.disk.manifest.Some? {
      ManifestDescribes(job, dir.disk.manifest.value);
    }
    if !ValidRange(job) || !LoadsInput(job) {
      return Raised, m;
    }
    if dir.disk.manifest.Some? {
      if dir.disk.manifest.value != m {
        return Raised, m;
      }
    } else {
      dir.disk := dir.disk.(manifest := Some(m));
      var died: bool := *;
      if died && !calm {
        return Crashed, m;
      }
    }
    if dir.disk.files.checkpoint.Some? && dir.disk.files.checkpoint.value.pins != job.pins {
      return Raised, m;
    }
    p := Going;
  }

  /** Reads every envelope file, checking it against the manifest. */
  method ReadEnvelopes(disk: Disk, ghost h: History, m: seq<Record>) returns (r: Option<map<int, Envelope>>)
    requires Consistent(disk, h) && disk.manifest == Some(m)
    ensures r == Some(disk.envelopes)
  {
    var envelopes, unread := map[], disk.envelopes.Keys;
    while unread != {}
      invariant unread <= disk.envelopes.Keys
      invariant envelopes == map k | k in disk.envelopes && k !in unread :: disk.envelopes[k]
    {
      ghost var some := SomeMember(unread);
      var i :| i in unread;
      FilesAt(m[0].index, h.outcomes, i);
      if !(m[0].index <= i < m[0].index + |m|) || disk.envelopes[i].record != m[i - m[0].index] {
        return None;
      }
      envelopes, unread := envelopes[i := disk.envelopes[i]], unread - {i};
    }
    assert envelopes == disk.envelopes;
    r := Some(envelopes);
  }

  lemma SomeMember<T(!new)>(s: set<T>) returns (x: T)
    requires s != {}
    ensures x in s
  {
    x :| x in s;
  }

  /** The envelope file of index `i` with its cleanup marked as verified. */
  function MarkedClean(d: Disk, i: int): Disk
    requires i in d.envelopes
  {
    d.(envelopes := d.envelopes[i := d.envelopes[i].(verified := true)])
  }

  ghost function LastMarkedClean(h: History): History
    requires h.outcomes != []
  {
    h.(outcomes := LastVerified(h.outcomes))
  }

  lemma LastFile(d: Disk, h: History, m: seq<Record>, i: int)
    requires Consistent(d, h) && d.manifest == Some(m) && h.outcomes != []
    requires i == m[0].index + |h.outcomes| - 1
    ensures i in d.envelopes
    ensures MarkedClean(d, i) == d.(envelopes := d.envelopes[i := LastVerified(h.outcomes)[|h.outcomes| - 1]])
  {
    FilesAt(m[0].index, h.outcomes, i);
  }

  lemma CleanupStep(d: Disk, h: History, m: seq<Record>, i: int)
    requires Consistent(d, h) && d.manifest == Some(m)
    requires |Verified(h.outcomes)| < |h.outcomes| && i == m[0].index + |h.outcomes| - 1
    ensures i in d.envelopes
    ensures Consistent(MarkedClean(d, i), LastMarkedClean(h))
    ensures Verified(LastVerified(h.outcomes)) == LastVerified(h.outcomes)
  {
    LastFile(d, h, m, i);
    assert LastMarkedClean(h) == h.(outcomes := LastVerified(h.outcomes));
    WritingCleanup(d, h);
  }

  lemma MarkContinues(d: Disk, h: History, i: int, runs: seq<Event>)
    requires i in d.envelopes && |Verified(h.outcomes)| < |h.outcomes|
    ensures Continues(d, h, runs, MarkedClean(d, i), LastMarkedClean(h), runs)
  {
    KeepsAllButMark(h);
    if RunsOk(d, h, runs) {
      assert RunsOk(MarkedClean(d, i), LastMarkedClean(h), runs);
    }
  }

  /** The disk and the history once an outcome is stored. */
  function Stored(d: Disk, e: Envelope): Disk
  {
    d.(envelopes := d.envelopes[e.record.index := e])
  }

  function Remembering(h: History, e: Envelope, pins: Pins): History
  {
    History(h.outcomes + [e], h.under + [pins])
  }

  lemma OutcomeStep(d: Disk, h: History, m: seq<Record>, e: Envelope, runs: seq<Event>)
    requires Consistent(d, h) && d.manifest == Some(m) && d.files.checkpoint.Some?
    requires Verified(h.outcomes) == h.outcomes && |h.outcomes| < |m| && ListedInSummary(d.files) == |h.outcomes|
    requires e.record == m[|h.outcomes|] && !e.verified
    ensures var d', h' := Stored(d, e), Remembering(h, e, d.files.checkpoint.value.pins);
            && Consistent(d', h') && |Verified(h'.outcomes)| < |h'.outcomes|
            && e.record.index == m[0].index + |h.outcomes|
            && Continues(d, h, runs, d', h', runs + [Started(e.record.index), Committed(e.record.index)])
  {
    WritingOutcome(d, h, e);
    StoredContinues(d, h, m, e, runs);
  }

  lemma StoredContinues(d: Disk, h: History, m: seq<Record>, e: Envelope, runs: seq<Event>)
    requires d.manifest == Some(m) && d.files.checkpoint.Some? && |h.outcomes| < |m|
    requires e.record.index == m[0].index + |h.outcomes| && |h.under| == |h.outcomes|
    ensures Continues(d, h, runs, Stored(d, e), Remembering(h, e, d.files.checkpoint.value.pins),
                      runs + [Started(e.record.index), Committed(e.record.index)])
  {
    if RunsOk(d, h, runs) {
      NextRun(d, h, runs, e.record.index);
    }
  }

  /** Running and committing the next index keeps the log in order. */
  lemma NextRun(d: Disk, h: History, runs: seq<Event>, i: int)
    requires d.manifest.Some? && |d.manifest.value| > 0 && i == d.manifest.value[0].index + |h.outcomes|
    requires RunsOk(d, h, runs)
    ensures RunsOk(d, h, runs + [Started(i)])
    ensures forall e, p :: RunsOk(d, History(h.outcomes + [e], p), runs + [Started(i), Committed(i)])
  {
    var log := runs + [Started(i), Committed(i)];
    assert Committed(i) !in runs;
    forall a, b | 0 <= a < b < |log| && log[a].Committed?
      ensures log[b].index != log[a].index
    {
      if b >= |runs| && a < |runs| {
        assert log[a] in runs;
      }
    }
    forall e, p
      ensures RunsOk(d, History(h.outcomes + [e], p), log)
    {
      forall k
        ensures Committed(k) in log <==> d.manifest.value[0].index <= k < d.manifest.value[0].index + |h.outcomes| + 1
      {
        assert Committed(k) in log <==> Committed(k) in runs || k == i;
      }
    }
    var started := runs + [Started(i)];
    assert forall k :: Committed(k) in started <==> Committed(k) in runs;
    forall a, b | 0 <= a < b < |started| && started[a].Committed?
      ensures started[b].index != started[a].index
    {
      if b == |runs| {
        assert started[a] in runs;
      }
    }
  }

  /** Stores the verified mark of the pending outcome. */
  method CommitCleanup(dir: RunDirectory, m: seq<Record>, i: int)
    requires Consistent(dir.disk, dir.history) && dir.disk.manifest == Some(m)
    requires |Verified(dir.history.outcomes)| < |dir.history.outcomes| && i == m[0].index + |dir.history.outcomes| - 1
    modifies dir`disk, dir`history
    ensures i in old(dir.disk).envelopes
    ensures dir.disk == MarkedClean(old(dir.disk), i) && dir.history == LastMarkedClean(old(dir.history))
    ensures Consistent(dir.disk, dir.history) && Verified(dir.history.outcomes) == dir.history.outcomes
    ensures Continues(old(dir.disk), old(dir.history), dir.log, dir.disk, dir.history, dir.log)
  {
    CleanupStep(dir.disk, dir.history, m, i);
    MarkContinues(dir.disk, dir.history, i, dir.log);
    dir.disk, dir.history := MarkedClean(dir.disk, i), LastMarkedClean(dir.history);
  }

  lemma UnverifiedIsLast(d: Disk, h: History, m: seq<Record>, i: int)
    requires Consistent(d, h) && d.manifest == Some(m) && i in d.envelopes && !d.envelopes[i].verified
    ensures |Verified(h.outcomes)| < |h.outcomes| && i == m[0].index + |h.outcomes| - 1
  {
    FilesAt(m[0].index, h.outcomes, i);
  }

  /** Retries one pending cleanup without running any model. */
  method RecoverOne(calm: bool, dir: RunDirectory, m: seq<Record>, i: int, envelopes: map<int, Envelope>)
    returns (p: Progress, envelopes': map<int, Envelope>)
    requires Consistent(dir.disk, dir.history) && dir.disk.manifest == Some(m) && envelopes == dir.disk.envelopes
    requires i in envelopes && !envelopes[i].verified
    modifies dir`disk, dir`history
    ensures Consistent(dir.disk, dir.history) && dir.disk.manifest == Some(m)
    ensures Continues(old(dir.disk), old(dir.history), dir.log, dir.disk, dir.history, dir.log)
    ensures dir.disk.files.checkpoint == old(dir.disk).files.checkpoint
    ensures p.Going? ==> envelopes' == dir.disk.envelopes && Verified(dir.history.outcomes) == dir.history.outcomes
    ensures dir.history == old(dir.history) || Verified(dir.history.outcomes) == dir.history.outcomes
    ensures calm ==> p.Going?
  {
    envelopes' := envelopes;
    var cleaned, died: bool := *, *;
    if !cleaned && !calm {
      ContinuesStill(dir.disk, dir.history, dir.log);
      return Raised, envelopes;
    }
    UnverifiedIsLast(dir.disk, dir.history, m, i);
    CommitCleanup(dir, m, i);
    if died && !calm {
      return Crashed, envelopes;
    }
    envelopes' := envelopes[i := envelopes[i].(verified := true)];
    p := Going;
  }

  /** Retries pending cleanups, in index order. */
  method RecoverPendingCleanup(calm: bool, dir: RunDirectory, m: seq<Record>, envelopes: map<int, Envelope>)
    returns (p: Progress, envelopes': map<int, Envelope>)
    requires Consistent(dir.disk, dir.history) && dir.disk.manifest == Some(m) && envelopes == dir.disk.envelopes
    modifies dir`disk, dir`history
    ensures Consistent(dir.disk, dir.history) && dir.disk.manifest == Some(m)
    ensures Continues(old(dir.disk), old(dir.history), dir.log, dir.disk, dir.history, dir.log)
    ensures dir.disk.files.checkpoint == old(dir.disk).files.checkpoint
    ensures p.Going? ==> envelopes' == dir.disk.envelopes && Verified(dir.history.outcomes) == dir.history.outcomes
    ensures calm ==> p.Going?
  {
    envelopes' := envelopes;
    for k := 0 to |m|
      invariant Consistent(dir.disk, dir.history) && dir.disk.manifest == Some(m) && envelopes' == dir.disk.envelopes
      invariant Continues(old(dir.disk), old(dir.history), dir.log, dir.disk, dir.history, dir.log)
      invariant dir.disk.files.checkpoint == old(dir.disk).files.checkpoint
      invariant k >= |dir.history.outcomes| ==> Verified(dir.history.outcomes) == dir.history.outcomes
    {
      var i := m[k].index;
      PendingIsLast(dir.disk, dir.history, m, k);
      if i in envelopes' && !envelopes'[i].verified {
        ghost var d, h := dir.disk, dir.history;
        p, envelopes' := RecoverOne(calm, dir, m, i, envelopes');
        ContinuesThrough(old(dir.disk), old(dir.history), dir.log, d, h, dir.log,
                         dir.disk, dir.history, dir.log);
        if !p.Going? {
          return;
        }
      }
    }
    p := Going;
  }

  /** If an envelope is unverified it is the last one; if the last one is verified, all are. */
  lemma PendingIsLast(d: Disk, h: History, m: seq<Record>, k: nat)
    requires Consistent(d, h) && d.manifest == Some(m) && k < |m|
    ensures var i := m[k].index;
            && (i in d.envelopes <==> k < |h.outcomes|)
            && (i in d.envelopes ==> d.envelopes[i] == h.outcomes[k])
            && (k == |h.outcomes| - 1 && h.outcomes[k].verified ==> Verified(h.outcomes) == h.outcomes)
  {
    FilesAt(m[0].index, h.outcomes, m[k].index);
  }

  /** Stores a model outcome before its cleanup. */
  method StoreOutcome(dir: RunDirectory, m: seq<Record>, pins: Pins, e: Envelope, ghost runs: seq<Event>)
    requires Consistent(dir.disk, dir.history) && dir.disk.manifest == Some(m)
    requires Verified(dir.history.outcomes) == dir.history.outcomes && |dir.history.outcomes| < |m|
    requires e.record == m[|dir.history.outcomes|] && !e.verified
    requires dir.disk.files.checkpoint.Some? && dir.disk.files.checkpoint.value.pins == pins
    requires ListedInSummary(dir.disk.files) == |dir.history.outcomes| && dir.log == runs + [Started(e.record.index)]
    modifies dir
    ensures dir.disk == Stored(old(dir.disk), e) && dir.history == Remembering(old(dir.history), e, pins)
    ensures Consistent(dir.disk, dir.history) && |Verified(dir.history.outcomes)| < |dir.history.outcomes|
    ensures e.record.index == m[0].index + |dir.history.outcomes| - 1
    ensures Continues(old(dir.disk), old(dir.history), runs, dir.disk, dir.history, dir.log)
  {
    OutcomeStep(dir.disk, dir.history, m, e, runs);
    dir.disk := Stored(dir.disk, e);
    dir.history := Remembering(dir.history, e, pins);
    dir.log := runs + [Started(e.record.index), Committed(e.record.index)];
  }

  /** Commits a model outcome, first without and then with a verified cleanup. */
  method CommitOutcome(calm: bool, dir: RunDirectory, m: seq<Record>, pins: Pins, k: nat, result: TaskResult,
                       ghost runs: seq<Event>)
    returns (p: Progress)
    requires Consistent(dir.disk, dir.history) && dir.disk.manifest == Some(m)
    requires Verified(dir.history.outcomes) == dir.history.outcomes && k == |dir.history.outcomes| < |m|
    requires dir.disk.files.checkpoint.Some? && dir.disk.files.checkpoint.value.pins == pins
    requires ListedInSummary(dir.disk.files) == k && dir.log == runs + [Started(m[k].index)]
    modifies dir
    ensures Consistent(dir.disk, dir.history)
    ensures Continues(old(dir.disk), old(dir.history), runs, dir.disk, dir.history, dir.log)
    ensures p.Going? ==>
              && dir.disk.envelopes == old(dir.disk).envelopes[m[k].index := Envelope(m[k], result, true)]
              && Verified(dir.history.outcomes) == dir.history.outcomes && |dir.history.outcomes| == k + 1
    ensures calm ==> p.Going?
  {
    var stopped: Progress := *;
    var died: bool := *;
    StoredThenClean(dir.disk, dir.history, Envelope(m[k], result, false), pins);
    StoreOutcome(dir, m, pins, Envelope(m[k], result, false), runs);
    if !stopped.Going? && !calm {
      return stopped;
    }
    CleanOutcome(dir, m, m[k].index, old(dir.disk), old(dir.history), runs);
    p := if died && !calm then Crashed else Going;
  }

  /** Storing an outcome and then marking it clean is storing it clean. */
  lemma StoredThenClean(d: Disk, h: History, e: Envelope, pins: Pins)
    ensures var i := e.record.index;
            MarkedClean(Stored(d, e), i) == d.(envelopes := d.envelopes[i := e.(verified := true)])
    ensures |LastMarkedClean(Remembering(h, e, pins)).outcomes| == |h.outcomes| + 1
  {
    var i := e.record.index;
    assert d.envelopes[i := e][i := e.(verified := true)] == d.envelopes[i := e.(verified := true)];
  }

  /** The cleanup of the outcome just stored, seen from before it was stored. */
  method CleanOutcome(dir: RunDirectory, m: seq<Record>, i: int, ghost d: Disk, ghost h: History, ghost runs: seq<Event>)
    requires Consistent(dir.disk, dir.history) && dir.disk.manifest == Some(m)
    requires |Verified(dir.history.outcomes)| < |dir.history.outcomes| && i == m[0].index + |dir.history.outcomes| - 1
    requires Continues(d, h, runs, dir.disk, dir.history, dir.log)
    modifies dir`disk, dir`history
    ensures i in old(dir.disk).envelopes
    ensures dir.disk == MarkedClean(old(dir.disk), i) && dir.history == LastMarkedClean(old(dir.history))
    ensures Consistent(dir.disk, dir.history) && Verified(dir.history.outcomes) == dir.history.outcomes
    ensures Continues(d, h, runs, dir.disk, dir.history, dir.log)
  {
    CommitCleanup(dir, m, i);
    ContinuesThrough(d, h, runs, old(dir.disk), old(dir.history), dir.log, dir.disk, dir.history, dir.log);
  }

  /** Runs the model on the next task and commits its outcome. */
  method RunTask(calm: bool, dir: RunDirectory, m: seq<Record>, pins: Pins, k: nat, envelopes: map<int, Envelope>)
    returns (p: Progress, envelopes': map<int, Envelope>)
    requires Consistent(dir.disk, dir.history) && dir.disk.manifest == Some(m) && envelopes == dir.disk.envelopes
    requires Verified(dir.history.outcomes) == dir.history.outcomes && k == |dir.history.outcomes| < |m|
    requires dir.disk.files.checkpoint.Some? && dir.disk.files.checkpoint.value.pins == pins
    requires ListedInSummary(dir.disk.files) == k
    modifies dir
    ensures Consistent(dir.disk, dir.history) && dir.disk.manifest == Some(m)
    ensures Continues(old(dir.disk), old(dir.history), old(dir.log), dir.disk, dir.history, dir.log)
    ensures dir.disk.files.checkpoint.Some? && dir.disk.files.checkpoint.value.pins == pins
    ensures p.Going? ==>
              && envelopes' == dir.disk.envelopes && Verified(dir.history.outcomes) == dir.history.outcomes
              && |dir.history.outcomes| == k + 1
    ensures calm ==> p.Going?
  {
    envelopes' := envelopes;
    PendingIsLast(dir.disk, dir.history, m, k);
    ghost var runs := dir.log;
    dir.log := runs + [Started(m[k].index)];
    var failed: bool := *;
    var result: TaskResult := *;
    if failed && !calm {
      // The failure is recorded and the attempt ends; nothing is checkpointed for this task.
      if RunsOk(dir.disk, dir.history, runs) {
        NextRun(dir.disk, dir.history, runs, m[k].index);
      }
      p := WriteState(calm, dir, m, pins, envelopes, Some(m[k].index));
      return if p.Crashed? then Crashed else Raised, envelopes;
    }
    p := CommitOutcome(calm, dir, m, pins, k, result, runs);
    envelopes' := envelopes[m[k].index := Envelope(m[k], result, true)];
  }

  /** A write of the derived files alone keeps everything that a whole attempt has to keep. */
  lemma FilesContinue(d: Disk, h: History, runs: seq<Event>, d': Disk, pins: Pins)
    requires OnlyFilesChange(d, d', pins) && (d.files.checkpoint.Some? ==> d.files.checkpoint.value.pins == pins)
    requires FinishedOk(d, h) ==> FinishedOk(d', h)
    ensures Continues(d, h, runs, d', h, runs)
  {
  }

  /** Announces a task, runs and commits it, and lists it in the derived files. */
  method AnnounceAndRun(calm: bool, dir: RunDirectory, m: seq<Record>, pins: Pins, k: nat, envelopes: map<int, Envelope>)
    returns (p: Progress, envelopes': map<int, Envelope>)
    requires Consistent(dir.disk, dir.history) && dir.disk.manifest == Some(m) && envelopes == dir.disk.envelopes
    requires Verified(dir.history.outcomes) == dir.history.outcomes && k == |dir.history.outcomes| < |m|
    requires dir.disk.files.checkpoint.Some? && dir.disk.files.checkpoint.value.pins == pins
    modifies dir
    ensures Consistent(dir.disk, dir.history) && dir.disk.manifest == Some(m)
    ensures Continues(old(dir.disk), old(dir.history), old(dir.log), dir.disk, dir.history, dir.log)
    ensures dir.disk.files.checkpoint.Some? && dir.disk.files.checkpoint.value.pins == pins
    ensures p.Going? ==>
              && envelopes' == dir.disk.envelopes && Verified(dir.history.outcomes) == dir.history.outcomes
              && |dir.history.outcomes| == k + 1 == ListedInSummary(dir.disk.files)
              && (k + 1 == |m| ==> FinishedOk(dir.disk, dir.history))
    ensures calm ==> p.Going?
  {
    ghost var d, h, runs := dir.disk, dir.history, dir.log;
    envelopes' := envelopes;
    p := WriteState(calm, dir, m, pins, envelopes, Some(m[k].index));
    FilesContinue(d, h, runs, dir.disk, pins);
    if !p.Going? {
      return;
    }
    ghost var d1 := dir.disk;
    p, envelopes' := RunTask(calm, dir, m, pins, k, envelopes);
    ContinuesThrough(d, h, runs, d1, h, runs, dir.disk, dir.history, dir.log);
    if !p.Going? {
      return;
    }
    ghost var d2, h2, runs2 := dir.disk, dir.history, dir.log;
    p := WriteState(calm, dir, m, pins, envelopes', None);
    FilesContinue(d2, h2, runs2, dir.disk, pins);
    ContinuesThrough(d, h, runs, d2, h2, runs2, dir.disk, dir.history, dir.log);
  }

  /** The main loop: every task that is not complete yet is announced, run, committed and listed, in index order. */
  method RunTasks(calm: bool, dir: RunDirectory, m: seq<Record>, pins: Pins, envelopes0: map<int, Envelope>) returns (o: Outcome)
    requires Consistent(dir.disk, dir.history) && dir.disk.manifest == Some(m) && envelopes0 == dir.disk.envelopes
    requires Verified(dir.history.outcomes) == dir.history.outcomes
    requires dir.disk.files.checkpoint.Some? && dir.disk.files.checkpoint.value.pins == pins
    requires |dir.history.outcomes| == |m| ==> FinishedOk(dir.disk, dir.history)
    modifies dir
    ensures Consistent(dir.disk, dir.history)
    ensures Continues(old(dir.disk), old(dir.history), old(dir.log), dir.disk, dir.history, dir.log)
    ensures o == Finished ==> FinishedOk(dir.disk, dir.history)
    ensures dir.disk.manifest == Some(m) && dir.disk.files.checkpoint.Some? && dir.disk.files.checkpoint.value.pins == pins
    ensures calm ==> o == Finished
  {
    var envelopes, completed := envelopes0, envelopes0.Keys;
    for k := 0 to |m|
      invariant Consistent(dir.disk, dir.history) && dir.disk.manifest == Some(m) && envelopes == dir.disk.envelopes
      invariant Verified(dir.history.outcomes) == dir.history.outcomes && k <= |dir.history.outcomes|
      invariant completed == envelopes.Keys
      invariant dir.disk.files.checkpoint.Some? && dir.disk.files.checkpoint.value.pins == pins
      invariant |dir.history.outcomes| == |m| ==> FinishedOk(dir.disk, dir.history)
      invariant Continues(old(dir.disk), old(dir.history), old(dir.log), dir.disk, dir.history, dir.log)
    {
      FilesAt(m[0].index, dir.history.outcomes, m[k].index);
      if m[k].index in completed {
        continue;
      }
      ghost var d, h, runs := dir.disk, dir.history, dir.log;
      var p;
      p, envelopes := AnnounceAndRun(calm, dir, m, pins, k, envelopes);
      ContinuesThrough(old(dir.disk), old(dir.history), old(dir.log), d, h, runs,
                       dir.disk, dir.history, dir.log);
      if !p.Going? {
        return Stopped(p);
      }
      completed := envelopes.Keys;
    }
    o := Finished;
  }

  /** Recovers pending cleanups and brings the derived files up to date. */
  method RecoverAndList(calm: bool, dir: RunDirectory, m: seq<Record>, pins: Pins, envelopes: map<int, Envelope>)
    returns (p: Progress, envelopes': map<int, Envelope>)
    requires Consistent(dir.disk, dir.history) && dir.disk.manifest == Some(m) && envelopes == dir.disk.envelopes
    requires dir.disk.files.checkpoint.Some? ==> dir.disk.files.checkpoint.value.pins == pins
    modifies dir`disk, dir`history
    ensures Consistent(dir.disk, dir.history) && dir.disk.manifest == Some(m)
    ensures Continues(old(dir.disk), old(dir.history), dir.log, dir.disk, dir.history, dir.log)
    ensures p.Going? ==>
              && envelopes' == dir.disk.envelopes && Verified(dir.history.outcomes) == dir.history.outcomes
              && dir.disk.files.checkpoint.Some? && dir.disk.files.checkpoint.value.pins == pins
              && (|dir.history.outcomes| == |m| ==> FinishedOk(dir.disk, dir.history))
    ensures dir.disk.files.checkpoint.Some? ==> dir.disk.files.checkpoint.value.pins == pins
    ensures calm ==> p.Going?
  {
    ghost var d, h := dir.disk, dir.history;
    p, envelopes' := RecoverPendingCleanup(calm, dir, m, envelopes);
    if !p.Going? {
      return;
    }
    ghost var d1, h1 := dir.disk, dir.history;
    p := WriteState(calm, dir, m, pins, envelopes', None);
    FilesContinue(d1, h1, dir.log, dir.disk, pins);
    ContinuesThrough(d, h, dir.log, d1, h1, dir.log, dir.disk, h1, dir.log);
  }

  /** Reads what an earlier attempt committed, recovers pending cleanups and brings the derived files up to date. */
  method Recover(calm: bool, dir: RunDirectory, m: seq<Record>, job: Job) returns (p: Progress, envelopes: map<int, Envelope>)
    requires Consistent(dir.disk, dir.history) && dir.disk.manifest == Some(m)
    requires dir.disk.files.checkpoint.Some? ==> dir.disk.files.checkpoint.value.pins == job.pins
    modifies dir`disk, dir`history
    ensures Consistent(dir.disk, dir.history) && dir.disk.manifest == Some(m)
    ensures Continues(old(dir.disk), old(dir.history), dir.log, dir.disk, dir.history, dir.log)
    ensures Resumable(old(dir.disk), job) ==> Resumable(dir.disk, job)
    ensures calm ==> p.Going?
    ensures p.Going? ==>
              && envelopes == dir.disk.envelopes && Verified(dir.history.outcomes) == dir.history.outcomes
              && dir.disk.files.checkpoint.Some? && dir.disk.files.checkpoint.value.pins == job.pins
              && (|dir.history.outcomes| == |m| ==> FinishedOk(dir.disk, dir.history))
  {
    var read := ReadEnvelopes(dir.disk, dir.history, m);
    p, envelopes := RecoverAndList(calm, dir, m, job.pins, read.value);
    StillFits(old(dir.disk), dir.disk, job);
  }

  /** Prepares an attempt: checks it against the directory, then recovers. */
  method CatchUp(calm: bool, dir: RunDirectory, job: Job) returns (p: Progress, m: seq<Record>, envelopes: map<int, Envelope>)
    requires Consistent(dir.disk, dir.history)
    modifies dir`disk, dir`history
    ensures Consistent(dir.disk, dir.history)
    ensures Continues(old(dir.disk), old(dir.history), dir.log, dir.disk, dir.history, dir.log)
    ensures !Resumable(old(dir.disk), job) ==> p.Raised? && dir.disk == old(dir.disk)
    ensures Resumable(old(dir.disk), job) ==> Resumable(dir.disk, job)
    ensures calm && Resumable(old(dir.disk), job) ==> p.Going?
    ensures p.Going? ==>
              && m == ManifestOf(job) && dir.disk.manifest == Some(m) && envelopes == dir.disk.envelopes
              && Verified(dir.history.outcomes) == dir.history.outcomes
              && dir.disk.files.checkpoint.Some? && dir.disk.files.checkpoint.value.pins == job.pins
              && (|dir.history.outcomes| == |m| ==> FinishedOk(dir.disk, dir.history))
  {
    ghost var d, h, runs := dir.disk, dir.history, dir.log;
    envelopes := map[];
    p, m := PrepareRun(calm, dir, job);
    if !p.Going? {
      return;
    }
    ghost var d1 := dir.disk;
    p, envelopes := Recover(calm, dir, m, job);
    ContinuesThrough(d, h, runs, d1, h, runs, dir.disk, dir.history, runs);
  }

  /** One attempt, from whatever an earlier one left. A job that does not fit the directory is refused without a
      change; a calm attempt of a job that fits runs to its end. */
  method Run(calm: bool, dir: RunDirectory, job: Job, prepareOnly: bool) returns (o: Outcome)
    requires Consistent(dir.disk, dir.history)
    modifies dir
    ensures Consistent(dir.disk, dir.history)
    ensures Continues(old(dir.disk), old(dir.history), old(dir.log), dir.disk, dir.history, dir.log)
    ensures o == Finished ==> FinishedOk(dir.disk, dir.history) && Describes(dir.disk.manifest.value, job)
    ensures o in {Finished, Prepared} ==> dir.disk.files.checkpoint.Some? && dir.disk.files.checkpoint.value.pins == job.pins
    ensures !Resumable(old(dir.disk), job) ==> o == Stopped(Raised) && dir.disk == old(dir.disk)
    ensures calm && Resumable(old(dir.disk), job) ==> o == if prepareOnly then Prepared else Finished
    ensures Resumable(old(dir.disk), job) ==> Resumable(dir.disk, job)
  {
    ghost var d, h, runs := dir.disk, dir.history, dir.log;
    var p, m, envelopes := CatchUp(calm, dir, job);
    if !p.Going? {
      return Stopped(p);
    }
    if prepareOnly {
      return Prepared;
    }
    ghost var d1, h1 := dir.disk, dir.history;
    o := RunTasks(calm, dir, m, job.pins, envelopes);
    ContinuesThrough(d, h, runs, d1, h1, runs, dir.disk, dir.history, dir.log);
  }

  /** One attempt of a campaign; when it is calm nothing dies or fails in it. */
  datatype Attempt = Attempt(job: Job, calm: bool, prepareOnly: bool)

  /** Any number of attempts, each of which may die at any write or be started with other arguments: the directory is
      consistent after every one of them, nothing committed is ever altered or run again, and as soon as one attempt
      finishes, the directory lists the whole range, whatever attempts follow. When all attempts are made with the same
      sound job, every calm one that is not only preparing finishes, whatever happened to the attempts before it. */
  method Campaign(attempts: seq<Attempt>) returns (dir: RunDirectory, outcomes: seq<Outcome>)
    ensures fresh(dir) && Consistent(dir.disk, dir.history)
    ensures |outcomes| == |attempts|
    ensures Finished in outcomes ==> FinishedOk(dir.disk, dir.history)
    ensures OneSoundJob(attempts) ==> CalmOnesFinish(attempts, outcomes)
    ensures RunsOk(dir.disk, dir.history, dir.log)
    ensures forall k :: 0 <= k < |dir.history.under| ==>
              dir.disk.files.checkpoint.Some? && dir.history.under[k] == dir.disk.files.checkpoint.value.pins
  {
    dir := new RunDirectory();
    outcomes := [];
    for i := 0 to |attempts|
      invariant fresh(dir) && Consistent(dir.disk, dir.history) && |outcomes| == i
      invariant RunsOk(dir.disk, dir.history, dir.log)
      invariant Finished in outcomes ==> FinishedOk(dir.disk, dir.history)
      invariant OneSoundJob(attempts) ==>
                  (i < |attempts| ==> Resumable(dir.disk, attempts[i].job)) && CalmOnesFinish(attempts[..i], outcomes)
    {
      ghost var d, h, runs := dir.disk, dir.history, dir.log;
      var a := attempts[i];
      var o := Run(a.calm, dir, a.job, a.prepareOnly);
      assert Continues(d, h, runs, dir.disk, dir.history, dir.log);
      OneMoreAttempt(attempts, outcomes, o, i);
      outcomes := outcomes + [o];
    }
    assert attempts[..|attempts|] == attempts;
  }

  /** All attempts are made with the same job, and a new directory can be begun with it. */
  predicate OneSoundJob(attempts: seq<Attempt>)
  {
    forall i :: 0 <= i < |attempts| ==> attempts[i].job == attempts[0].job && Resumable(EMPTY, attempts[i].job)
  }

  predicate CalmOnesFinish(attempts: seq<Attempt>, outcomes: seq<Outcome>)
  {
    |outcomes| == |attempts| &&
    forall i :: 0 <= i < |attempts| && attempts[i].calm && !attempts[i].prepareOnly ==> outcomes[i] == Finished
  }

  lemma OneMoreAttempt(attempts: seq<Attempt>, outcomes: seq<Outcome>, o: Outcome, i: nat)
    requires i < |attempts| && |outcomes| == i
    ensures CalmOnesFinish(attempts[..i], outcomes) && (attempts[i].calm && !attempts[i].prepareOnly ==> o == Finished)
            ==> CalmOnesFinish(attempts[..i + 1], outcomes + [o])
  {
  }
}
