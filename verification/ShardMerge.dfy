/** Merging completed shard directories (scripts/merge_official_shards.py). */
module ShardMerge {
  import opened Options
  import opened ShardRunner

  /** What the merge reads from one shard directory. */
  datatype Source = Source(
    summary: Summary,
    checkpoint: Checkpoint,
    configuration: string,
    manifest: seq<Record>,
    predictions: seq<Prediction>,
    envelopes: map<int, Envelope>)

  /** One merged record with the prediction and the envelope it was looked up with. */
  datatype Entry = Entry(record: Record, prediction: Prediction, envelope: Option<Envelope>)

  datatype Merged = Merged(manifest: seq<Record>, predictions: seq<Prediction>, metrics: Metrics)

  predicate SortedByIndex(m: seq<Record>)
  {
    forall i, j :: 0 <= i < j < |m| ==> m[i].index <= m[j].index
  }

  /** A source must be complete, ordered, and agree with itself. */
  predicate ValidSource(s: Source)
  {
    && s.summary.status == Complete && s.checkpoint.status == Complete
    && |s.manifest| == |s.predictions|
    && DistinctInstances(s.manifest)
    && SortedByIndex(s.manifest)
    && (forall k :: 0 <= k < |s.manifest| ==> s.manifest[k].instance == s.predictions[k].instance)
    && s.summary.digest == s.predictions
  }

  /** The prediction dictionary of a source; a later duplicate would win. */
  function ById(ps: seq<Prediction>): map<string, Prediction>
  {
    if ps == [] then map[] else ById(ps[..|ps| - 1])[ps[|ps| - 1].instance := ps[|ps| - 1]]
  }

  lemma {:induction false} ByIdFinds(ps: seq<Prediction>, k: nat)
    requires k < |ps| && forall i, j :: 0 <= i < j < |ps| ==> ps[i].instance != ps[j].instance
    ensures ps[k].instance in ById(ps) && ById(ps)[ps[k].instance] == ps[k]
    decreases |ps|
  {
    if k < |ps| - 1 {
      ByIdFinds(ps[..|ps| - 1], k);
    }
  }

  function EntryOf(s: Source, r: Record): Entry
  {
    var byId := ById(s.predictions);
    Entry(r,
          if r.instance in byId then byId[r.instance] else Prediction(r.instance, [], []),
          if r.index in s.envelopes then Some(s.envelopes[r.index]) else None)
  }

  function EntriesOf(s: Source): (es: seq<Entry>)
    ensures |es| == |s.manifest|
  {
    seq(|s.manifest|, k requires 0 <= k < |s.manifest| => EntryOf(s, s.manifest[k]))
  }

  predicate AllValid(sources: seq<Source>)
  {
    forall s :: s in sources ==> ValidSource(s)
  }

  function AllEntries(sources: seq<Source>): seq<Entry>
  {
    if sources == [] then [] else EntriesOf(sources[0]) + AllEntries(sources[1..])
  }

  /** Stable insertion by global index. */
  function Insert(e: Entry, es: seq<Entry>): seq<Entry>
  {
    if es == [] || e.record.index <= es[0].record.index then [e] + es else [es[0]] + Insert(e, es[1..])
  }

  function Sort(es: seq<Entry>): seq<Entry>
  {
    if es == [] then [] else Insert(es[0], Sort(es[1..]))
  }

  predicate Sorted(es: seq<Entry>)
  {
    forall i, j :: 0 <= i < j < |es| ==> es[i].record.index <= es[j].record.index
  }

  lemma {:induction false} InsertKeeps(e: Entry, es: seq<Entry>)
    requires Sorted(es)
    ensures Sorted(Insert(e, es)) && multiset(Insert(e, es)) == multiset{e} + multiset(es)
  {
    if es == [] || e.record.index <= es[0].record.index {
      Prepended(e, es);
    } else {
      InsertKeeps(e, es[1..]);
      InsertedBehind(e, es, Insert(e, es[1..]));
    }
  }

  lemma InsertedBehind(e: Entry, es: seq<Entry>, tail: seq<Entry>)
    requires es != [] && Sorted(es) && es[0].record.index <= e.record.index
    requires Sorted(tail) && multiset(tail) == multiset{e} + multiset(es[1..])
    ensures Sorted([es[0]] + tail) && multiset([es[0]] + tail) == multiset{e} + multiset(es)
  {
    TailBag(es);
    forall x | x in es[1..] ensures es[0].record.index <= x.record.index {
      var i :| 0 <= i < |es[1..]| && es[1..][i] == x;
      assert x == es[i + 1];
    }
    SortedAfterHead(e, es[0], es[1..], tail);
    Prepended(es[0], tail);
  }

  lemma Prepended(e: Entry, es: seq<Entry>)
    ensures multiset([e] + es) == multiset{e} + multiset(es)
  {
  }

  lemma SortedAfterHead(e: Entry, head: Entry, rest: seq<Entry>, tail: seq<Entry>)
    requires Sorted(tail) && multiset(tail) == multiset{e} + multiset(rest)
    requires head.record.index <= e.record.index && forall x :: x in rest ==> head.record.index <= x.record.index
    ensures Sorted([head] + tail)
  {
    forall x | x in tail
      ensures head.record.index <= x.record.index
    {
      assert x in multiset(tail);
      assert x == e || x in multiset(rest);
    }
  }

  lemma {:induction false} SortKeeps(es: seq<Entry>)
    ensures Sorted(Sort(es)) && multiset(Sort(es)) == multiset(es)
  {
    if es != [] {
      SortKeeps(es[1..]);
      InsertKeeps(es[0], Sort(es[1..]));
      assert es == [es[0]] + es[1..];
    }
  }

  /** Two sorted arrangements of the same entries agree as soon as the indices of one never repeat. */
  lemma {:induction false} SortedIsUnique(a: seq<Entry>, b: seq<Entry>)
    requires Sorted(a) && Sorted(b) && multiset(a) == multiset(b)
    requires forall i, j :: 0 <= i < j < |a| ==> a[i].record.index < a[j].record.index
    ensures a == b
    decreases |a|
  {
    assert |a| == |multiset(a)| == |multiset(b)| == |b|;
    if a != [] {
      FirstEntriesAgree(a, b);
      TailBag(a);
      TailBag(b);
      SortedIsUnique(a[1..], b[1..]);
      assert a == [a[0]] + a[1..] && b == [b[0]] + b[1..];
    }
  }

  lemma FirstEntriesAgree(a: seq<Entry>, b: seq<Entry>)
    requires Sorted(a) && Sorted(b) && multiset(a) == multiset(b) && a != [] && b != []
    requires forall i, j :: 0 <= i < j < |a| ==> a[i].record.index < a[j].record.index
    ensures a[0] == b[0]
  {
    assert a[0] in multiset(b) && b[0] in multiset(a);
    var i :| 0 <= i < |a| && a[i] == b[0];
    var j :| 0 <= j < |b| && b[j] == a[0];
  }

  lemma TailBag(es: seq<Entry>)
    requires es != []
    ensures multiset(es[1..]) == multiset(es) - multiset{es[0]}
  {
    assert es == [es[0]] + es[1..];
  }

  /** The merged indices are exactly start..end. */
  predicate Covers(es: seq<Entry>, start: int, end: int)
  {
    |es| == (if end < start then 0 else end - start + 1) && forall k :: 0 <= k < |es| ==> es[k].record.index == start + k
  }

  predicate DistinctEntries(es: seq<Entry>)
  {
    forall i, j :: 0 <= i < j < |es| ==> es[i].record.instance != es[j].record.instance
  }

  predicate AllClean(es: seq<Entry>)
  {
    forall k :: 0 <= k < |es| ==> es[k].envelope.Some? && es[k].envelope.value.verified
  }

  function RecordsIn(es: seq<Entry>): (r: seq<Record>)
    ensures |r| == |es|
  {
    seq(|es|, k requires 0 <= k < |es| => es[k].record)
  }

  function PredictionsIn(es: seq<Entry>): (r: seq<Prediction>)
    ensures |r| == |es|
  {
    seq(|es|, k requires 0 <= k < |es| => es[k].prediction)
  }

  function EnvelopesIn(es: seq<Entry>): (r: seq<Envelope>)
    requires AllClean(es)
    ensures |r| == |es|
  {
    seq(|es|, k requires 0 <= k < |es| => es[k].envelope.value)
  }

  /** All sources were produced from this input and from one and the same configuration. */
  predicate SameOrigin(sources: seq<Source>, input: string, hash: string -> string)
  {
    && sources != []
    && var c := sources[0].configuration;
    && forall s :: s in sources ==> s.summary.pins == Pins(input, hash(c)) && s.configuration == c
  }

  function MergeEntries(es: seq<Entry>, start: int, end: int): Option<Merged>
  {
    if !Covers(es, start, end) || !DistinctEntries(es) || !AllClean(es) then None
    else Some(Merged(RecordsIn(es), PredictionsIn(es), MetricsOf(EnvelopesIn(es))))
  }

  /** The whole merge; `None` stands for any of its refusals. */
  function Merge(sources: seq<Source>, input: string, hash: string -> string, start: int, end: int): Option<Merged>
  {
    if !AllValid(sources) || !SameOrigin(sources, input, hash) then None
    else MergeEntries(Sort(AllEntries(sources)), start, end)
  }

  /** The records of one source, looked up in its prediction dictionary. */
  method EntriesOfSource(s: Source) returns (es: seq<Entry>)
    requires ValidSource(s)
    ensures es == EntriesOf(s)
  {
    var byId := map[];
    for k := 0 to |s.predictions|
      invariant byId == ById(s.predictions[..k])
    {
      assert s.predictions[..k + 1][..k] == s.predictions[..k];
      byId := byId[s.predictions[k].instance := s.predictions[k]];
    }
    assert s.predictions[..|s.predictions|] == s.predictions;
    es := [];
    for k := 0 to |s.manifest|
      invariant es == EntriesOf(s)[..k]
    {
      PredictionOfRecord(s, k);
      var m := s.manifest[k];
      es := es + [Entry(m, byId[m.instance], if m.index in s.envelopes then Some(s.envelopes[m.index]) else None)];
    }
  }

  /** The dictionary gives every record the prediction at its own position. */
  lemma PredictionOfRecord(s: Source, k: nat)
    requires ValidSource(s) && k < |s.manifest|
    ensures s.manifest[k].instance in ById(s.predictions)
    ensures EntryOf(s, s.manifest[k]).prediction == s.predictions[k]
  {
    forall i, j | 0 <= i < j < |s.predictions|
      ensures s.predictions[i].instance != s.predictions[j].instance
    {
      assert s.manifest[i].instance != s.manifest[j].instance;
    }
    ByIdFinds(s.predictions, k);
  }

  /** One record list over all sources. */
  method CollectRecords(sources: seq<Source>) returns (records: seq<Entry>)
    requires AllValid(sources)
    ensures records == AllEntries(sources)
  {
    records := [];
    for i := 0 to |sources|
      invariant records + AllEntries(sources[i..]) == AllEntries(sources)
    {
      assert sources[i] in sources;
      var es := EntriesOfSource(sources[i]);
      assert sources[i..][0] == sources[i] && sources[i..][1..] == sources[i + 1..];
      assert (records + es) + AllEntries(sources[i + 1..]) == records + (es + AllEntries(sources[i + 1..]));
      records := records + es;
    }
    assert sources[|sources|..] == [] && records + [] == records;
  }

  /** Collects one record list over the sources, sorts it and checks it. */
  method MergeShards(sources: seq<Source>, input: string, hash: string -> string, start: int, end: int)
    returns (r: Option<Merged>)
    ensures r == Merge(sources, input, hash, start, end)
  {
    for i := 0 to |sources|
      invariant forall k :: 0 <= k < i ==> ValidSource(sources[k])
    {
      if !ValidSource(sources[i]) {
        assert sources[i] in sources;
        return None;
      }
    }
    if !SameOrigin(sources, input, hash) {
      return None;
    }
    var records := CollectRecords(sources);
    var sorted := Sort(records);
    if !Covers(sorted, start, end) || !DistinctEntries(sorted) || !AllClean(sorted) {
      return None;
    }
    var metrics := ResultMetrics(EnvelopesIn(sorted));
    r := Some(Merged(RecordsIn(sorted), PredictionsIn(sorted), metrics));
  }

  // ----- the order of the sources does not matter

  lemma {:induction false} EntriesAppend(a: seq<Source>, b: seq<Source>)
    ensures AllEntries(a + b) == AllEntries(a) + AllEntries(b)
  {
    if a == [] {
      assert a + b == b;
    } else {
      assert (a + b)[1..] == a[1..] + b;
      EntriesAppend(a[1..], b);
      assert EntriesOf(a[0]) + (AllEntries(a[1..]) + AllEntries(b)) == AllEntries(a) + AllEntries(b);
    }
  }

  /** The entries of one source can be counted apart from those of the others. */
  lemma EntriesWithout(b: seq<Source>, j: nat)
    requires j < |b|
    ensures multiset(AllEntries(b)) == multiset(EntriesOf(b[j])) + multiset(AllEntries(b[..j] + b[j + 1..]))
    ensures multiset(b[..j] + b[j + 1..]) == multiset(b) - multiset{b[j]}
  {
    SplitAround(b, j);
    SplitEntries(b[..j], b[j], b[j + 1..]);
  }

  lemma SplitAround(b: seq<Source>, j: nat)
    requires j < |b|
    ensures b == b[..j] + ([b[j]] + b[j + 1..])
    ensures multiset(b[..j] + b[j + 1..]) == multiset(b) - multiset{b[j]}
  {
    assert b == b[..j] + ([b[j]] + b[j + 1..]);
    assert multiset(b) == multiset(b[..j]) + multiset{b[j]} + multiset(b[j + 1..]);
  }

  lemma SplitEntries(p: seq<Source>, s: Source, q: seq<Source>)
    ensures multiset(AllEntries(p + ([s] + q))) == multiset(EntriesOf(s)) + multiset(AllEntries(p + q))
  {
    EntriesAppend(p, [s] + q);
    EntriesAppend(p, q);
    assert ([s] + q)[1..] == q;
  }

  lemma ValidityIsOrderFree(a: seq<Source>, b: seq<Source>)
    requires multiset(a) == multiset(b)
    ensures AllValid(a) == AllValid(b)
    ensures forall s :: s in a <==> s in b
  {
    forall s
      ensures s in a <==> s in b
    {
      assert s in a <==> s in multiset(a);
      assert s in b <==> s in multiset(b);
    }
  }

  lemma {:induction false} EntriesAreOrderFree(a: seq<Source>, b: seq<Source>)
    requires multiset(a) == multiset(b)
    ensures multiset(AllEntries(a)) == multiset(AllEntries(b))
    decreases |a|
  {
    if a == [] {
      assert |b| == |multiset(b)| == |multiset(a)| == 0;
    } else {
      HeadEntries(a);
      var rest := WithoutFirst(a, b);
      EntriesAreOrderFree(a[1..], rest);
    }
  }

  lemma HeadEntries(a: seq<Source>)
    requires a != []
    ensures multiset(AllEntries(a)) == multiset(EntriesOf(a[0])) + multiset(AllEntries(a[1..]))
  {
  }

  /** The sources of `b` without the first source of `a`. */
  lemma WithoutFirst(a: seq<Source>, b: seq<Source>) returns (rest: seq<Source>)
    requires a != [] && multiset(a) == multiset(b)
    ensures multiset(a[1..]) == multiset(rest)
    ensures multiset(AllEntries(b)) == multiset(EntriesOf(a[0])) + multiset(AllEntries(rest))
  {
    assert a == [a[0]] + a[1..];
    assert a[0] in multiset(b);
    var j :| 0 <= j < |b| && b[j] == a[0];
    EntriesWithout(b, j);
    rest := b[..j] + b[j + 1..];
  }

  /** Merging the same shards in any order gives the same result, refusals included. */
  lemma MergeIsOrderFree(a: seq<Source>, b: seq<Source>, input: string, hash: string -> string, start: int, end: int)
    requires multiset(a) == multiset(b)
    ensures Merge(a, input, hash, start, end) == Merge(b, input, hash, start, end)
  {
    ValidityIsOrderFree(a, b);
    OriginIsOrderFree(a, b, input, hash);
    if AllValid(a) && SameOrigin(a, input, hash) {
      EntriesAreOrderFree(a, b);
      SortKeeps(AllEntries(a));
      SortKeeps(AllEntries(b));
      var x, y := Sort(AllEntries(a)), Sort(AllEntries(b));
      if Covers(x, start, end) {
        SortedIsUnique(x, y);
      } else if Covers(y, start, end) {
        SortedIsUnique(y, x);
      }
    }
  }

  lemma OriginIsOrderFree(a: seq<Source>, b: seq<Source>, input: string, hash: string -> string)
    requires multiset(a) == multiset(b)
    ensures SameOrigin(a, input, hash) == SameOrigin(b, input, hash)
  {
    ValidityIsOrderFree(a, b);
    assert |a| == |multiset(a)| == |multiset(b)| == |b|;
    if a != [] {
      assert a[0] in b && b[0] in a;
    }
  }

  // ----- shards that partition a range

  function Plus(a: Metrics, b: Metrics): Metrics
  {
    Metrics(a.tasks + b.tasks, a.reward + b.reward, a.phase1 + b.phase1, a.phase2 + b.phase2,
            a.elapsed + b.elapsed, a.tokens + b.tokens)
  }

  function ManifestsOf(sources: seq<Source>): seq<Record>
  {
    if sources == [] then [] else sources[0].manifest + ManifestsOf(sources[1..])
  }

  function AllPredictions(sources: seq<Source>): seq<Prediction>
  {
    if sources == [] then [] else sources[0].predictions + AllPredictions(sources[1..])
  }

  function SummedMetrics(sources: seq<Source>): Metrics
  {
    if sources == [] then NO_METRICS else Plus(sources[0].summary.metrics, SummedMetrics(sources[1..]))
  }

  lemma {:induction false} MetricsAppend(a: seq<Envelope>, b: seq<Envelope>)
    ensures MetricsOf(a + b) == Plus(MetricsOf(a), MetricsOf(b))
    decreases |b|
  {
    if b == [] {
      assert a + b == a;
    } else {
      var c, rest := a + b, b[..|b| - 1];
      MetricsAppend(a, rest);
      assert c[..|c| - 1] == a + rest && c[|c| - 1] == b[|b| - 1];
    }
  }

  /** A shard whose envelopes are all there and clean, and whose summary counts exactly them. */
  ghost predicate CompleteShard(s: Source)
  {
    && ValidSource(s)
    && AllClean(EntriesOf(s))
    && s.summary.metrics == MetricsOf(EnvelopesIn(EntriesOf(s)))
  }

  lemma {:induction false} ConcatenatedEntries(sources: seq<Source>)
    requires forall s :: s in sources ==> CompleteShard(s)
    ensures AllValid(sources)
    ensures var es := AllEntries(sources);
            && RecordsIn(es) == ManifestsOf(sources) && PredictionsIn(es) == AllPredictions(sources)
            && AllClean(es) && MetricsOf(EnvelopesIn(es)) == SummedMetrics(sources)
  {
    if sources != [] {
      var s, rest := sources[0], sources[1..];
      assert s in sources && forall x :: x in rest ==> x in sources;
      ConcatenatedEntries(rest);
      OneSourceEntries(s);
      JoinedEntries(EntriesOf(s), AllEntries(rest));
    }
    assert AllValid(sources);
  }

  lemma OneSourceEntries(s: Source)
    requires ValidSource(s)
    ensures RecordsIn(EntriesOf(s)) == s.manifest && PredictionsIn(EntriesOf(s)) == s.predictions
  {
    forall k | 0 <= k < |s.manifest|
      ensures EntriesOf(s)[k].prediction == s.predictions[k]
    {
      PredictionOfRecord(s, k);
    }
  }

  lemma JoinedEntries(a: seq<Entry>, b: seq<Entry>)
    ensures RecordsIn(a + b) == RecordsIn(a) + RecordsIn(b) && PredictionsIn(a + b) == PredictionsIn(a) + PredictionsIn(b)
    ensures AllClean(a) && AllClean(b) ==>
              AllClean(a + b) && MetricsOf(EnvelopesIn(a + b)) == Plus(MetricsOf(EnvelopesIn(a)), MetricsOf(EnvelopesIn(b)))
  {
    if AllClean(a) && AllClean(b) {
      assert EnvelopesIn(a + b) == EnvelopesIn(a) + EnvelopesIn(b);
      MetricsAppend(EnvelopesIn(a), EnvelopesIn(b));
    }
  }

  lemma {:induction false} SortOfSorted(es: seq<Entry>)
    requires Sorted(es)
    ensures Sort(es) == es
  {
    if es != [] {
      SortOfSorted(es[1..]);
      assert es == [es[0]] + es[1..];
    }
  }

  /** Complete shards of one input and configuration that partition start..end merge, in any order of the sources,
      into the concatenation by range, and the merged metrics are the sums of the shard metrics. */
  lemma MergeIsConcatenation(sources: seq<Source>, ordered: seq<Source>, input: string, hash: string -> string,
                             start: int, end: int)
    requires multiset(sources) == multiset(ordered)
    requires forall s :: s in ordered ==> CompleteShard(s)
    requires SameOrigin(ordered, input, hash)
    requires DistinctInstances(ManifestsOf(ordered))
    requires start <= end + 1 && |ManifestsOf(ordered)| == end - start + 1
    requires forall k :: 0 <= k < |ManifestsOf(ordered)| ==> ManifestsOf(ordered)[k].index == start + k
    ensures Merge(sources, input, hash, start, end)
         == Some(Merged(ManifestsOf(ordered), AllPredictions(ordered), SummedMetrics(ordered)))
  {
    MergeIsOrderFree(sources, ordered, input, hash, start, end);
    ConcatenatedEntries(ordered);
    PartitionIsAccepted(AllEntries(ordered), ManifestsOf(ordered), start, end);
  }

  /** Entries whose records already run from start to end without repeating an instance pass every check. */
  lemma PartitionIsAccepted(es: seq<Entry>, m: seq<Record>, start: int, end: int)
    requires RecordsIn(es) == m && DistinctInstances(m)
    requires start <= end + 1 && |m| == end - start + 1
    requires forall k :: 0 <= k < |m| ==> m[k].index == start + k
    ensures Sort(es) == es && Covers(es, start, end) && DistinctEntries(es)
  {
    assert forall k :: 0 <= k < |es| ==> es[k].record == m[k];
    SortOfSorted(es);
  }

  // ----- what is merged

  /** The source says of itself that it is complete, was made from this input and configuration, and lists a prediction
      for each of its records, in order of the records. */
  ghost predicate SaysComplete(s: Source, input: string, hash: string -> string, configuration: string)
  {
    && s.summary.status.Complete? && s.checkpoint.status.Complete?
    && s.configuration == configuration && s.summary.pins.input == input && s.summary.pins.configuration == hash(configuration)
    && |s.manifest| == |s.predictions| && s.predictions == s.summary.digest
    && (forall k :: 0 <= k < |s.manifest| ==> s.predictions[k].instance == s.manifest[k].instance)
    && (forall i, j :: 0 <= i < j < |s.manifest| ==> s.manifest[i].index <= s.manifest[j].index)
  }

  ghost predicate AllFrom(sources: seq<Source>, input: string, hash: string -> string, configuration: string)
  {
    forall s :: s in sources ==> SaysComplete(s, input, hash, configuration)
  }

  ghost predicate AllFit(sources: seq<Source>, input: string, hash: string -> string)
  {
    exists c :: AllFrom(sources, input, hash, c)
  }

  /** No two records share an index or an instance, and there is one for each index of the range. */
  ghost predicate Partition(m: seq<Record>, start: int, end: int)
  {
    && |m| == (if end < start then 0 else end - start + 1)
    && (forall i :: 0 <= i < |m| ==> start <= m[i].index <= end)
    && (forall i, j :: 0 <= i < j < |m| ==> m[i].index != m[j].index)
    && (forall i, j :: 0 <= i < j < |m| ==> m[i].instance != m[j].instance)
  }

  /** Every record of the source has its envelope, and that envelope its verified cleanup. */
  ghost predicate Cleaned(s: Source)
  {
    forall k :: 0 <= k < |s.manifest| ==> s.manifest[k].index in s.envelopes && s.envelopes[s.manifest[k].index].verified
  }

  function Image<T>(es: seq<Entry>, of: Entry -> T): (r: seq<T>)
    ensures |r| == |es|
  {
    seq(|es|, k requires 0 <= k < |es| => of(es[k]))
  }

  lemma {:induction false} InsertedImage<T>(e: Entry, es: seq<Entry>, of: Entry -> T)
    ensures multiset(Image(Insert(e, es), of)) == multiset{of(e)} + multiset(Image(es, of))
  {
    if es == [] || e.record.index <= es[0].record.index {
      assert Image([e] + es, of) == [of(e)] + Image(es, of);
    } else {
      InsertedImage(e, es[1..], of);
      assert Image([es[0]] + Insert(e, es[1..]), of) == [of(es[0])] + Image(Insert(e, es[1..]), of);
      assert Image(es, of) == [of(es[0])] + Image(es[1..], of);
    }
  }

  lemma {:induction false} SortedImage<T>(es: seq<Entry>, of: Entry -> T)
    ensures multiset(Image(Sort(es), of)) == multiset(Image(es, of))
  {
    if es != [] {
      SortedImage(es[1..], of);
      InsertedImage(es[0], Sort(es[1..]), of);
      assert Image(es, of) == [of(es[0])] + Image(es[1..], of);
    }
  }

  ghost predicate NoneTwice<T>(s: seq<T>)
  {
    forall i, j :: 0 <= i < j < |s| ==> s[i] != s[j]
  }

  lemma {:induction false} NoneTwiceInBag<T(!new)>(s: seq<T>)
    ensures NoneTwice(s) <==> forall x :: multiset(s)[x] <= 1
    decreases |s|
  {
    if s != [] {
      var rest, last := s[..|s| - 1], s[|s| - 1];
      NoneTwiceInBag(rest);
      assert s == rest + [last];
      assert multiset(s) == multiset(rest) + multiset{last};
      if NoneTwice(rest) && last !in rest {
        assert multiset(rest)[last] == 0;
      }
      if !NoneTwice(rest) {
        var x :| multiset(rest)[x] > 1;
        assert multiset(s)[x] > 1;
        var i, j :| 0 <= i < j < |rest| && rest[i] == rest[j];
        assert s[i] == s[j];
      } else if last in rest {
        assert multiset(s)[last] > 1;
        var i :| 0 <= i < |rest| && rest[i] == last;
        assert s[i] == s[|s| - 1];
      }
    }
  }

  /** Sorting keeps repetitions. */
  lemma SortKeepsRepetition<T(!new)>(es: seq<Entry>, of: Entry -> T)
    ensures NoneTwice(Image(Sort(es), of)) == NoneTwice(Image(es, of))
  {
    SortedImage(es, of);
    NoneTwiceInBag(Image(Sort(es), of));
    NoneTwiceInBag(Image(es, of));
  }

  lemma SortKeepsMembers(es: seq<Entry>)
    ensures |Sort(es)| == |es| && forall e :: e in es <==> e in Sort(es)
  {
    SortKeeps(es);
    assert |multiset(Sort(es))| == |multiset(es)|;
    forall e ensures e in es <==> e in Sort(es) {
      assert e in es <==> e in multiset(es);
      assert e in Sort(es) <==> e in multiset(Sort(es));
    }
  }

  /** Sorted entries without a repeated index that fill a range stand in its order. */
  lemma {:induction false} FilledFromBelow(es: seq<Entry>, start: int, k: nat)
    requires Sorted(es) && NoneTwice(Image(es, (e: Entry) => e.record.index)) && k < |es|
    requires forall i :: 0 <= i < |es| ==> start <= es[i].record.index
    ensures start + k <= es[k].record.index
  {
    if k > 0 {
      FilledFromBelow(es, start, k - 1);
      var ixs := Image(es, (e: Entry) => e.record.index);
      assert ixs[k - 1] != ixs[k];
    }
  }

  lemma {:induction false} FilledFromAbove(es: seq<Entry>, end: int, k: nat)
    requires Sorted(es) && NoneTwice(Image(es, (e: Entry) => e.record.index)) && k < |es|
    requires forall i :: 0 <= i < |es| ==> es[i].record.index <= end
    ensures es[k].record.index <= end - (|es| - 1 - k)
    decreases |es| - k
  {
    if k < |es| - 1 {
      FilledFromAbove(es, end, k + 1);
      var ixs := Image(es, (e: Entry) => e.record.index);
      assert ixs[k] != ixs[k + 1];
    }
  }

  /** The checks of the sorted list are the checks of its records in any order. */
  lemma CheckedExactly(es: seq<Entry>, start: int, end: int)
    ensures Covers(Sort(es), start, end) && DistinctEntries(Sort(es)) <==> Partition(RecordsIn(es), start, end)
    ensures AllClean(Sort(es)) <==> AllClean(es)
  {
    RepetitionInRecords(es);
    DistinctByImage(Sort(es));
    if Partition(RecordsIn(es), start, end) {
      PartitionCovers(es, start, end);
    }
    if Covers(Sort(es), start, end) {
      CoveredPartition(es, start, end);
    }
    SortKeepsMembers(es);
    CleanMembers(es);
    CleanMembers(Sort(es));
  }

  /** Whether records repeat an index or an instance can be seen in the sorted list. */
  lemma RepetitionInRecords(es: seq<Entry>)
    ensures NoneTwice(Image(Sort(es), (e: Entry) => e.record.index))
            <==> forall i, j :: 0 <= i < j < |es| ==> RecordsIn(es)[i].index != RecordsIn(es)[j].index
    ensures NoneTwice(Image(Sort(es), (e: Entry) => e.record.instance))
            <==> forall i, j :: 0 <= i < j < |es| ==> RecordsIn(es)[i].instance != RecordsIn(es)[j].instance
  {
    var m := RecordsIn(es);
    var ixs, names := Image(es, (e: Entry) => e.record.index), Image(es, (e: Entry) => e.record.instance);
    SortKeepsRepetition(es, (e: Entry) => e.record.index);
    SortKeepsRepetition(es, (e: Entry) => e.record.instance);
    assert forall i :: 0 <= i < |m| ==> m[i].index == ixs[i] && m[i].instance == names[i];
  }

  lemma CoveredPartition(es: seq<Entry>, start: int, end: int)
    requires Covers(Sort(es), start, end)
    ensures NoneTwice(Image(Sort(es), (e: Entry) => e.record.index))
    ensures |RecordsIn(es)| == (if end < start then 0 else end - start + 1)
    ensures forall i :: 0 <= i < |es| ==> start <= RecordsIn(es)[i].index <= end
  {
    SortKeepsMembers(es);
    CoveredOnce(Sort(es), start, end);
    forall i | 0 <= i < |es| ensures start <= RecordsIn(es)[i].index <= end {
      assert es[i] in Sort(es);
    }
  }

  lemma DistinctByImage(es: seq<Entry>)
    ensures DistinctEntries(es) <==> NoneTwice(Image(es, (e: Entry) => e.record.instance))
  {
    var names := Image(es, (e: Entry) => e.record.instance);
    assert forall i :: 0 <= i < |es| ==> names[i] == es[i].record.instance;
  }

  lemma CleanMembers(es: seq<Entry>)
    ensures AllClean(es) <==> forall e :: e in es ==> e.envelope.Some? && e.envelope.value.verified
  {
  }

  lemma CoveredOnce(es: seq<Entry>, start: int, end: int)
    requires Covers(es, start, end)
    ensures NoneTwice(Image(es, (e: Entry) => e.record.index))
    ensures forall e :: e in es ==> start <= e.record.index <= end
  {
  }

  lemma PartitionCovers(es: seq<Entry>, start: int, end: int)
    requires Partition(RecordsIn(es), start, end) && NoneTwice(Image(Sort(es), (e: Entry) => e.record.index))
    ensures Covers(Sort(es), start, end)
  {
    var sorted := Sort(es);
    SortKeeps(es);
    SortKeepsMembers(es);
    forall k | 0 <= k < |sorted| ensures start <= sorted[k].record.index <= end {
      assert sorted[k] in es;
      var i :| 0 <= i < |es| && es[i] == sorted[k];
      assert RecordsIn(es)[i] == sorted[k].record;
    }
    forall k | 0 <= k < |sorted| ensures sorted[k].record.index == start + k {
      FilledFromBelow(sorted, start, k);
      FilledFromAbove(sorted, end, k);
    }
  }

  lemma {:induction false} AllRecords(sources: seq<Source>)
    ensures RecordsIn(AllEntries(sources)) == ManifestsOf(sources)
    ensures AllClean(AllEntries(sources)) <==> forall s :: s in sources ==> Cleaned(s)
  {
    if sources != [] {
      AllRecords(sources[1..]);
      var own, others := EntriesOf(sources[0]), AllEntries(sources[1..]);
      assert RecordsIn(own) == sources[0].manifest;
      assert RecordsIn(own + others) == RecordsIn(own) + RecordsIn(others);
      assert AllClean(own) <==> Cleaned(sources[0]) by {
        assert forall k :: 0 <= k < |own| ==> own[k].record == sources[0].manifest[k];
      }
      CleanMembers(own);
      CleanMembers(others);
      CleanMembers(own + others);
      assert sources == [sources[0]] + sources[1..];
    }
  }

  /** No instance is repeated within a source if none is over all of them. */
  lemma {:induction false} PartsAreDistinct(sources: seq<Source>)
    requires DistinctInstances(ManifestsOf(sources))
    ensures forall s :: s in sources ==> DistinctInstances(s.manifest)
  {
    if sources != [] {
      var own, others := sources[0].manifest, ManifestsOf(sources[1..]);
      forall i, j | 0 <= i < j < |own| ensures own[i].instance != own[j].instance {
        assert own[i] == (own + others)[i] && own[j] == (own + others)[j];
      }
      forall i, j | 0 <= i < j < |others| ensures others[i].instance != others[j].instance {
        assert others[i] == (own + others)[|own| + i] && others[j] == (own + others)[|own| + j];
      }
      PartsAreDistinct(sources[1..]);
    }
  }

  /** Sources are merged if and only if there are any, all fit one input and one configuration, their records partition
      the range, and every record's envelope is there with its cleanup. */
  lemma MergesExactly(sources: seq<Source>, input: string, hash: string -> string, start: int, end: int)
    ensures Merge(sources, input, hash, start, end).Some?
            <==> && sources != [] && AllFit(sources, input, hash)
                 && Partition(ManifestsOf(sources), start, end) && forall s :: s in sources ==> Cleaned(s)
  {
    AllRecords(sources);
    CheckedExactly(AllEntries(sources), start, end);
    if Partition(ManifestsOf(sources), start, end) {
      PartsAreDistinct(sources);
    }
    if sources != [] {
      FitExactly(sources, input, hash);
    }
  }

  lemma FitExactly(sources: seq<Source>, input: string, hash: string -> string)
    requires sources != []
    ensures AllValid(sources) && SameOrigin(sources, input, hash)
            <==> AllFit(sources, input, hash) && forall s :: s in sources ==> DistinctInstances(s.manifest)
  {
    var c := sources[0].configuration;
    assert sources[0] in sources;
    if AllValid(sources) && SameOrigin(sources, input, hash) {
      assert AllFrom(sources, input, hash, c);
    }
  }

  lemma {:induction false} EntryOfSource(sources: seq<Source>, s: Source, i: nat)
    requires s in sources && i < |s.manifest|
    ensures EntryOf(s, s.manifest[i]) in AllEntries(sources)
  {
    if s == sources[0] {
      assert EntriesOf(s)[i] in EntriesOf(s);
    } else {
      EntryOfSource(sources[1..], s, i);
    }
  }

  /** In the merged result every record of every source stands at the place of its index, beside its own prediction,
      and the metrics are those of the envelopes in that order. */
  lemma MergedAtTheirIndex(sources: seq<Source>, input: string, hash: string -> string, start: int, end: int)
    returns (all: seq<Envelope>)
    requires Merge(sources, input, hash, start, end).Some?
    ensures var merged := Merge(sources, input, hash, start, end).value;
            && |merged.manifest| == |merged.predictions| == |all| == |ManifestsOf(sources)|
            && merged.metrics == MetricsOf(all)
            && (forall s, i :: s in sources && 0 <= i < |s.manifest| ==>
                  var k := s.manifest[i].index - start;
                  && 0 <= k < |all| && i < |s.predictions| && s.manifest[i].index in s.envelopes
                  && merged.manifest[k] == s.manifest[i] && merged.predictions[k] == s.predictions[i]
                  && all[k] == s.envelopes[s.manifest[i].index])
  {
    var merged := Merge(sources, input, hash, start, end).value;
    var sorted := Sort(AllEntries(sources));
    SortKeepsMembers(AllEntries(sources));
    AllRecords(sources);
    all := EnvelopesIn(sorted);
    forall s, i | s in sources && 0 <= i < |s.manifest|
      ensures var k := s.manifest[i].index - start;
              && 0 <= k < |all| && i < |s.predictions| && s.manifest[i].index in s.envelopes
              && merged.manifest[k] == s.manifest[i] && merged.predictions[k] == s.predictions[i]
              && all[k] == s.envelopes[s.manifest[i].index]
    {
      EntryOfSource(sources, s, i);
      PredictionOfRecord(s, i);
      var e := EntryOf(s, s.manifest[i]);
      var k :| 0 <= k < |sorted| && sorted[k] == e;
      assert e.record.index == start + k;
    }
  }

  /** What the merge reads from a run directory. */
  function SourceOf(d: Disk, configuration: string): Source
    requires d.manifest.Some? && d.files.predictions.Some? && d.files.checkpoint.Some? && d.files.summary.Some?
  {
    Source(d.files.summary.value, d.files.checkpoint.value, configuration, d.manifest.value,
           d.files.predictions.value, d.envelopes)
  }

  /** Every run directory the runner has finished is a complete shard for the merge. */
  lemma FinishedRunIsComplete(d: Disk, h: History, configuration: string)
    requires Consistent(d, h) && FinishedOk(d, h)
    ensures CompleteShard(SourceOf(d, configuration))
  {
    var s := SourceOf(d, configuration);
    var m, v := d.manifest.value, h.outcomes;
    assert v[..|v|] == v;
    assert DistinctInstances(s.manifest);
    assert SortedByIndex(s.manifest);
    assert ValidSource(s);
    forall k | 0 <= k < |m|
      ensures EntriesOf(s)[k].envelope == Some(v[k]) && v[k].verified
    {
      FilesAt(m[0].index, v, m[k].index);
    }
    assert EnvelopesIn(EntriesOf(s)) == v;
  }
}
