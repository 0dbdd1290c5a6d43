/** The write-behind cache over the synth-state bucket, as a machine whose steps
    may interleave in any order: the engine records an encoding, the writer takes
    the pending entries, the broker settles one Put (internal/durable/durable.go). */
module Durable {
  import opened Prelude

  /** `batchEntry`: a value taken for writing, and what the bucket held before. */
  datatype Taken = Taken(value: Bytes, before: Bytes)

  /** `pending` and `written` are the State's maps, `batch` the writer's unsettled
      entries. An absent `written` entry reads as the empty string, as a nil slice does. */
  datatype Cache = Cache(pending: map<string, Bytes>, written: map<string, Bytes>, batch: map<string, Taken>)

  /** How a Put ends: stored and acknowledged, not stored, or stored with the
      acknowledgement lost, which the writer also sees as an error. */
  datatype Outcome = Stored | Refused | StoredUnacked

  datatype Store = Store(cache: Cache, bucket: map<string, Bytes>)

  datatype Step =
    | Recorded(key: string, raw: Bytes)
    | Took
    | Put(putKey: string, outcome: Outcome)

  function WrittenAt(c: Cache, k: string): Bytes {
    if k in c.written then c.written[k] else []
  }

  /** `record`. */
  function Record(c: Cache, k: string, raw: Bytes): Cache {
    if k !in c.pending && raw == WrittenAt(c, k) then c
    else c.(pending := c.pending[k := raw])
  }

  /** `takePending`: taken values are marked written at once. */
  function Take(c: Cache): Cache {
    Cache(map[], c.written + c.pending,
          map k | k in c.pending :: Taken(c.pending[k], WrittenAt(c, k)))
  }

  /** One entry of `write`, after its Put: a failure is rolled back and re-queued
      unless something newer is pending. */
  function Settle(c: Cache, k: string, failed: bool): Cache
    requires k in c.batch
  {
    var t := c.batch[k];
    var rest := c.batch - {k};
    if !failed then c.(batch := rest)
    else
      Cache(if k in c.pending then c.pending else c.pending[k := t.value],
            if WrittenAt(c, k) == t.value then c.written[k := t.before] else c.written,
            rest)
  }

  function PutInto(bucket: map<string, Bytes>, k: string, v: Bytes, o: Outcome): map<string, Bytes> {
    if o.Refused? then bucket else bucket[k := v]
  }

  /** The single writer takes only with nothing unsettled and settles only what it took. */
  predicate Enabled(s: Store, step: Step) {
    match step
    case Recorded(_, _) => true
    case Took => s.cache.batch == map[]
    case Put(k, _) => k in s.cache.batch
  }

  /** One atomic step; a step that is not enabled does nothing. */
  function Next(s: Store, step: Step): Store {
    if !Enabled(s, step) then s
    else
      match step
      case Recorded(k, raw) => s.(cache := Record(s.cache, k, raw))
      case Took => s.(cache := Take(s.cache))
      case Put(k, o) =>
        Store(Settle(s.cache, k, !o.Stored?), PutInto(s.bucket, k, s.cache.batch[k].value, o))
  }

  function Run(s: Store, steps: seq<Step>): Store {
    if steps == [] then s else Next(Run(s, steps[..|steps| - 1]), steps[|steps| - 1])
  }

  /** How many batches were taken. */
  function Takes(steps: seq<Step>): nat {
    if steps == [] then 0 else Takes(steps[..|steps| - 1]) + if steps[|steps| - 1].Took? then 1 else 0
  }

  // ---- One key at a time ----

  /** Everything the store knows about one key. */
  datatype Slot = Slot(pending: Option<Bytes>, written: Bytes, batch: Option<Taken>, bucket: Option<Bytes>)

  function SlotOf(s: Store, k: string): Slot {
    Slot(Lookup(s.cache.pending, k), WrittenAt(s.cache, k), Lookup(s.cache.batch, k), Lookup(s.bucket, k))
  }

  /** The encodings recorded for one key, in order. */
  function RecordedOf(steps: seq<Step>, k: string): seq<Bytes> {
    if steps == [] then []
    else
      var step := steps[|steps| - 1];
      RecordedOf(steps[..|steps| - 1], k) + (if step.Recorded? && step.key == k then [step.raw] else [])
  }

  /** What the key has been observed to be: what load found usable, then every
      recorded encoding. */
  function Observed(s: Store, steps: seq<Step>, k: string): seq<Bytes> {
    [WrittenAt(s.cache, k)] + RecordedOf(steps, k)
  }

  /** Acknowledged Puts so far, and which observation the batch and the bucket hold. */
  datatype Ledger = Ledger(acked: nat, batchAt: nat, bucketAt: nat)

  /** The ledger after one step from `was`; `latest` is the index of the latest
      observation of the key. */
  function LedgerNext(l: Ledger, was: Store, step: Step, k: string, latest: nat): Ledger {
    if !Enabled(was, step) then l
    else if step.Took? && k in was.cache.pending then l.(batchAt := latest)
    else if step.Put? && step.putKey == k then
      Ledger(if step.outcome.Stored? then l.acked + 1 else l.acked, l.batchAt,
             if step.outcome.Refused? then l.bucketAt else l.batchAt)
    else l
  }

  function Track(s: Store, steps: seq<Step>, k: string): Ledger {
    if steps == [] then Ledger(0, 0, 0)
    else
      var init := steps[..|steps| - 1];
      LedgerNext(Track(s, init, k), Run(s, init), steps[|steps| - 1], k, |RecordedOf(init, k)|)
  }

  /** How often consecutive observations differ. */
  function Changes(obs: seq<Bytes>): nat {
    if |obs| < 2 then 0
    else Changes(obs[..|obs| - 1]) + if obs[|obs| - 1] != obs[|obs| - 2] then 1 else 0
  }

  function One<T>(o: Option<T>): nat {
    if o.Some? then 1 else 0
  }

  /** What load leaves: nothing queued, and what is marked written is in the bucket. */
  predicate JustLoaded(s: Store) {
    && s.cache.pending == map[] && s.cache.batch == map[]
    && forall k :: k in s.cache.written ==> k in s.bucket && s.bucket[k] == s.cache.written[k]
  }

  predicate NonEmptyRaws(steps: seq<Step>) {
    forall i :: 0 <= i < |steps| ==> steps[i].Recorded? ==> steps[i].raw != []
  }

  /** The coherence invariant of one key. The first clause is the history one; the
      next three say where the latest observation is; the last is write economy. */
  ghost predicate Coherent(slot: Slot, l: Ledger, obs: seq<Bytes>, origin: Option<Bytes>)
    requires obs != []
  {
    var latest := obs[|obs| - 1];
    && l.bucketAt < |obs|
    && slot.bucket == (if l.bucketAt == 0 then origin else Some(obs[l.bucketAt]))
    && (slot.pending.Some? ==> |obs| > 1 && slot.pending.value == latest)
    && (slot.batch.Some? ==>
          && l.bucketAt <= l.batchAt && 0 < l.batchAt < |obs|
          && slot.batch.value.value == obs[l.batchAt] == slot.written
          && (slot.pending.None? ==> obs[l.batchAt] == latest))
    && (slot.pending.None? && slot.batch.None? ==>
          && slot.written == latest
          && (|obs| > 1 ==> slot.bucket == Some(latest)))
    && l.acked + One(slot.pending) + One(slot.batch) <= Changes(obs)
  }

  lemma SlotNext(s: Store, step: Step, k: string)
    requires Enabled(s, step)
    ensures var was, now := SlotOf(s, k), SlotOf(Next(s, step), k);
            match step
            case Recorded(x, raw) =>
              now == if x == k && !(was.pending.None? && raw == was.written)
                     then was.(pending := Some(raw)) else was
            case Took =>
              now == if was.pending.Some?
                     then Slot(None, was.pending.value, Some(Taken(was.pending.value, was.written)), was.bucket)
                     else was.(batch := None)
            case Put(x, o) =>
              if x != k then now == was
              else
                var t := was.batch;
                t.Some? && now.batch == None &&
                now.bucket == (if o.Refused? then was.bucket else Some(t.value.value)) &&
                now.pending == (if o.Stored? || was.pending.Some? then was.pending else Some(t.value.value)) &&
                now.written == (if !o.Stored? && was.written == t.value.value then t.value.before else was.written)
  {
  }

  lemma CoherentRecorded(was: Slot, l: Ledger, obs: seq<Bytes>, origin: Option<Bytes>, raw: Bytes)
    requires obs != [] && Coherent(was, l, obs, origin) && raw != []
    requires obs[0] != [] ==> origin == Some(obs[0])
    ensures Coherent(if was.pending.None? && raw == was.written then was else was.(pending := Some(raw)),
                     l, obs + [raw], origin)
  {
    assert (obs + [raw])[..|obs|] == obs;
  }

  /** One step of anything keeps one key coherent. */
  lemma CoherentNext(was: Store, step: Step, k: string, l: Ledger, obs: seq<Bytes>, origin: Option<Bytes>)
    requires obs != [] && Coherent(SlotOf(was, k), l, obs, origin)
    requires obs[0] != [] ==> origin == Some(obs[0])
    requires step.Recorded? ==> step.raw != []
    ensures Coherent(SlotOf(Next(was, step), k), LedgerNext(l, was, step, k, |obs| - 1),
                     if step.Recorded? && step.key == k then obs + [step.raw] else obs, origin)
  {
    if Enabled(was, step) {
      SlotNext(was, step, k);
      if step.Recorded? && step.key == k {
        CoherentRecorded(SlotOf(was, k), l, obs, origin, step.raw);
      }
    }
  }

  /** Write-behind coherence, for every key and every interleaving of recording
      with the writer and any outcome of any Put. */
  lemma {:induction false} AlwaysCoherent(s: Store, steps: seq<Step>, k: string)
    requires JustLoaded(s) && NonEmptyRaws(steps)
    ensures Coherent(SlotOf(Run(s, steps), k), Track(s, steps, k), Observed(s, steps, k), Lookup(s.bucket, k))
  {
    if steps == [] {
      StartsCoherent(s, k);
    } else {
      var n := |steps| - 1;
      AlwaysCoherent(s, steps[..n], k);
      ObservedNext(s, steps, k);
      CoherentNext(Run(s, steps[..n]), steps[n], k, Track(s, steps[..n], k), Observed(s, steps[..n], k),
                   Lookup(s.bucket, k));
    }
  }

  lemma StartsCoherent(s: Store, k: string)
    requires JustLoaded(s)
    ensures Coherent(SlotOf(s, k), Ledger(0, 0, 0), [WrittenAt(s.cache, k)], Lookup(s.bucket, k))
  {
  }

  lemma ObservedNext(s: Store, steps: seq<Step>, k: string)
    requires steps != []
    ensures var obs := Observed(s, steps[..|steps| - 1], k);
            var step := steps[|steps| - 1];
            Observed(s, steps, k) == if step.Recorded? && step.key == k then obs + [step.raw] else obs
  {
  }

  /** Where a recorded key's latest encoding is: pending; else unsettled; else
      both marked written and in the bucket. */
  lemma {:induction false} LatestIsKept(s: Store, steps: seq<Step>, k: string)
    requires JustLoaded(s) && NonEmptyRaws(steps) && RecordedOf(steps, k) != []
    ensures var latest := RecordedOf(steps, k)[|RecordedOf(steps, k)| - 1];
            var now := Run(s, steps);
            if k in now.cache.pending then now.cache.pending[k] == latest
            else if k in now.cache.batch then now.cache.batch[k].value == latest
            else WrittenAt(now.cache, k) == latest && k in now.bucket && now.bucket[k] == latest
  {
    AlwaysCoherent(s, steps, k);
  }

  /** With nothing pending and nothing unsettled, the bucket holds exactly the
      latest encoding of every recorded key and is untouched at every other. */
  lemma {:induction false} FlushedBucketIsCurrent(s: Store, steps: seq<Step>, k: string)
    requires JustLoaded(s) && NonEmptyRaws(steps)
    requires Run(s, steps).cache.pending == map[] && Run(s, steps).cache.batch == map[]
    ensures var recorded := RecordedOf(steps, k);
            Lookup(Run(s, steps).bucket, k) ==
            if recorded == [] then Lookup(s.bucket, k) else Some(recorded[|recorded| - 1])
  {
    AlwaysCoherent(s, steps, k);
  }

  lemma {:induction false} RecordedConcat(a: seq<Step>, b: seq<Step>, k: string)
    requires forall i :: 0 <= i < |b| ==> !b[i].Recorded?
    ensures RecordedOf(a + b, k) == RecordedOf(a, k)
  {
    if b == [] {
      assert a + b == a;
    } else {
      assert (a + b)[..|a + b| - 1] == a + b[..|b| - 1];
      RecordedConcat(a, b[..|b| - 1], k);
    }
  }

  /** A flush, whose steps record nothing and after which nothing is pending, leaves
      in the bucket the latest encoding of every key recorded since load. */
  lemma {:induction false} FlushStores(s: Store, steps: seq<Step>, flush: seq<Step>, k: string)
    requires JustLoaded(s) && NonEmptyRaws(steps) && forall i :: 0 <= i < |flush| ==> !flush[i].Recorded?
    requires Run(s, steps + flush).cache.pending == map[] && Run(s, steps + flush).cache.batch == map[]
    ensures var recorded := RecordedOf(steps, k);
            Lookup(Run(s, steps + flush).bucket, k) ==
            if recorded == [] then Lookup(s.bucket, k) else Some(recorded[|recorded| - 1])
  {
    RecordedConcat(steps, flush, k);
    FlushedBucketIsCurrent(s, steps + flush, k);
  }

  /** Write economy: acknowledged Puts of a key never exceed its changes. */
  lemma {:induction false} PutsNeverExceedChanges(s: Store, steps: seq<Step>, k: string)
    requires JustLoaded(s) && NonEmptyRaws(steps)
    ensures Track(s, steps, k).acked <= Changes(Observed(s, steps, k))
  {
    AlwaysCoherent(s, steps, k);
  }

  /** Stop the process anywhere: the bucket holds what it held at boot or an
      encoding that was recorded. */
  lemma {:induction false} BucketWasObserved(s: Store, steps: seq<Step>, k: string)
    requires JustLoaded(s) && NonEmptyRaws(steps)
    ensures var at := Track(s, steps, k).bucketAt;
            at <= |RecordedOf(steps, k)| &&
            Lookup(Run(s, steps).bucket, k) ==
            if at == 0 then Lookup(s.bucket, k) else Some(RecordedOf(steps, k)[at - 1])
  {
    AlwaysCoherent(s, steps, k);
  }

  /** As a run goes on, which recorded encoding the bucket holds never moves back. */
  lemma {:induction false} HistoryOnlyAdvances(s: Store, steps: seq<Step>, more: seq<Step>, k: string)
    requires JustLoaded(s) && NonEmptyRaws(steps + more)
    ensures Track(s, steps, k).bucketAt <= Track(s, steps + more, k).bucketAt
  {
    if more == [] {
      assert steps + more == steps;
    } else {
      var n := |more| - 1;
      assert (steps + more)[..|steps + more| - 1] == steps + more[..n];
      HistoryOnlyAdvances(s, steps, more[..n], k);
      AlwaysCoherent(s, steps + more[..n], k);
    }
  }

  lemma {:induction false} RunConcat(s: Store, a: seq<Step>, b: seq<Step>)
    ensures Run(s, a + b) == Run(Run(s, a), b)
  {
    if b == [] {
      assert a + b == a;
    } else {
      var n := |b| - 1;
      assert (a + b)[..|a + b| - 1] == a + b[..n];
      RunConcat(s, a, b[..n]);
    }
  }
}
