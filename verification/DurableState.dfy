/** The durable layer itself: the `State` object of internal/durable/durable.go,
    each method proved to be steps of the write-behind machine. Locks and the wake
    channel are the atomicity of the steps. */
module DurableState {
  import opened Prelude
  import opened Model
  import opened Durable
  import opened Loading
  import KeyCodec
  import Synth

  /** The bucket, whose Puts succeed, fail, or succeed with the acknowledgement lost:
      the n-th Put ends as `weather` has it. */
  class Bucket {
    var data: map<string, Bytes>
    const weather: nat -> Outcome
    var puts: nat

    constructor (data: map<string, Bytes>, weather: nat -> Outcome)
      ensures this.data == data && this.weather == weather && puts == 0
    {
      this.data, this.weather, puts := data, weather, 0;
    }

    method Put(k: string, v: Bytes) returns (failed: bool)
      modifies this
      ensures data == PutInto(old(data), k, v, weather(old(puts))) && failed == !weather(old(puts)).Stored?
      ensures puts == old(puts) + 1
    {
      var outcome := weather(puts);
      if !outcome.Refused? {
        data := data[k := v];
      }
      failed := !outcome.Stored?;
      puts := puts + 1;
    }
  }

  class State {
    const reg: Synth.Registry
    const codec: Codec
    var pending: map<string, Bytes>
    var written: map<string, Bytes>
    var closed: bool

    /** The machine's view, given the batch the writer has in hand. */
    function View(batch: map<string, Taken>): Cache
      reads this
    {
      Cache(pending, written, batch)
    }

    constructor (reg: Synth.Registry, codec: Codec)
      ensures this.reg == reg && this.codec == codec && !closed
      ensures View(map[]) == Cache(map[], map[], map[])
    {
      this.reg, this.codec := reg, codec;
      pending, written, closed := map[], map[], false;
    }

    /** The change hook. A facet that cannot be encoded is not remembered. */
    method Record(d: DeviceId, f: Facet)
      modifies this`pending
      ensures View(map[]) ==
              var raw := codec.marshal(f);
              if raw.None? then old(View(map[]))
              else Durable.Record(old(View(map[])), KeyCodec.Key(d, f.Kind()), raw.value)
    {
      var raw := codec.marshal(f);
      if raw.None? {
        return;
      }
      var kk := KeyCodec.Key(d, f.Kind());
      var queued := kk in pending;
      if !queued && raw.value == (if kk in written then written[kk] else []) {
        return;
      }
      pending := pending[kk := raw.value];
    }

    method TakePending() returns (batch: map<string, Taken>)
      modifies this`pending, this`written
      ensures View(batch) == Take(old(View(map[])))
    {
      batch := map[];
      ghost var was := View(map[]);
      var left := pending.Keys;
      while left != {}
        invariant pending == was.pending
        invariant PartlyTaken(was, left, batch, written)
        decreases |left|
      {
        var k :| k in left;
        TakeOne(was, left, batch, written, k);
        batch := batch[k := Taken(pending[k], if k in written then written[k] else [])];
        written := written[k := pending[k]];
        left := left - {k};
      }
      pending := map[];
      TakeAll(was, batch, written);
    }

    /** One Put of a batch, and what `write` does about its error. */
    method PutOne(kv: Bucket, ghost left: map<string, Taken>, k: string, t: Taken) returns (failed: bool)
      requires k in left && left[k] == t
      modifies this`pending, this`written, kv
      ensures kv.puts == old(kv.puts) + 1 && failed == !kv.weather(old(kv.puts)).Stored?
      ensures Store(View(left - {k}), kv.data) ==
              Next(Store(old(View(left)), old(kv.data)), Put(k, kv.weather(old(kv.puts))))
      ensures !failed ==> pending == old(pending)
    {
      failed := kv.Put(k, t.value);
      if failed {
        if (if k in written then written[k] else []) == t.value {
          written := written[k := t.before];
        }
        if k !in pending {
          pending := pending[k := t.value];
        }
      }
    }

    /** Puts a batch, entry by entry in any order; every entry is settled, whatever
        becomes of its Put. */
    method Write(kv: Bucket, batch: map<string, Taken>) returns (failed: bool, ghost steps: seq<Step>)
      modifies this`pending, this`written, kv
      ensures Store(View(map[]), kv.data) == Run(Store(old(View(batch)), old(kv.data)), steps)
      ensures kv.puts == old(kv.puts) + |steps| && AsWeather(steps, kv.weather, old(kv.puts))
      ensures failed <==> BadWeather(kv.weather, old(kv.puts), kv.puts)
      ensures !failed ==> pending == old(pending)
    {
      failed, steps := false, [];
      var left := batch;
      ghost var start := Store(View(batch), kv.data);
      while left != map[]
        invariant Store(View(left), kv.data) == Run(start, steps)
        invariant kv.puts == old(kv.puts) + |steps| && AsWeather(steps, kv.weather, old(kv.puts))
        invariant failed <==> BadWeather(kv.weather, old(kv.puts), kv.puts)
        invariant !failed ==> pending == old(pending)
        decreases |left.Keys|
      {
        var k :| k in left;
        ghost var put := Put(k, kv.weather(kv.puts));
        MoreWeather(kv.weather, old(kv.puts), kv.puts);
        var err := PutOne(kv, left, k, left[k]);
        RunNext(start, steps, put);
        WeatherNext(steps, kv.weather, old(kv.puts), put);
        steps := steps + [put];
        left := left - {k};
        failed := failed || err;
      }
    }

    /** One round of the writer's loop: take what is pending, if anything, and write it. */
    method Round(kv: Bucket) returns (wrote: bool, ghost steps: seq<Step>)
      modifies this`pending, this`written, kv
      ensures Store(View(map[]), kv.data) == Run(Store(old(View(map[])), old(kv.data)), steps)
      ensures old(kv.puts) <= kv.puts && (wrote <==> old(pending) != map[])
      ensures if wrote then Took1(steps) else steps == [] && pending == map[]
      ensures wrote && pending != map[] ==> Marred(steps) && BadWeather(kv.weather, old(kv.puts), kv.puts)
    {
      ghost var was := Store(View(map[]), kv.data);
      var batch := TakePending();
      if batch == map[] {
        TakeNothing(was.cache);
        assert Take(was.cache).batch.Keys == was.cache.pending.Keys;
        return false, [];
      }
      assert batch.Keys == was.cache.pending.Keys;
      ghost var puts := kv.puts;
      var failed, more := Write(kv, batch);
      if failed {
        BadPutMars([Took], more, kv.weather, puts, kv.puts);
      }
      RoundTook(was, more, kv.weather, puts);
      return true, [Took] + more;
    }

    /** `Flush` and the writer's loop behind it, after the engine has stopped: rounds
        until nothing is pending or the window, here a number of rounds, closes.
        Returns how many keys are left unwritten: none, unless every round was used
        and a Put of the flush was not acknowledged. */
    method Flush(kv: Bucket, rounds: nat) returns (left: nat, ghost steps: seq<Step>)
      modifies this, kv
      ensures closed && left == |pending|
      ensures Store(View(map[]), kv.data) == Run(Store(old(View(map[])), old(kv.data)), steps)
      ensures forall i :: 0 <= i < |steps| ==> !steps[i].Recorded?
      ensures left > 0 ==> Takes(steps) == rounds
      ensures rounds > 0 && left > 0 ==> Marred(steps) && BadWeather(kv.weather, old(kv.puts), kv.puts)
    {
      closed := true;
      steps := [];
      ghost var start := Store(View(map[]), kv.data);
      var n, wrote := rounds, true;
      while wrote && n > 0
        invariant closed && 0 <= n <= rounds && old(kv.puts) <= kv.puts
        invariant Store(View(map[]), kv.data) == Run(start, steps)
        invariant forall i :: 0 <= i < |steps| ==> !steps[i].Recorded?
        invariant wrote ==> Takes(steps) == rounds - n
        invariant !wrote ==> pending == map[]
        invariant n < rounds && pending != map[] ==> Marred(steps) && BadWeather(kv.weather, old(kv.puts), kv.puts)
        decreases n
      {
        ghost var before, puts, more := steps, kv.puts, [];
        wrote, more := Round(kv);
        RunConcat(start, before, more);
        TakesConcat(before, more);
        MarredLater(before, more);
        LaterWeather(kv.weather, old(kv.puts), puts, kv.puts);
        steps := before + more;
        n := n - 1;
      }
      left := |pending|;
    }

    /** `load`, once the listing and every read succeed: the listing holds every key
        of the bucket, in any order, and perhaps keys deleted since. */
    method Load(kv: Bucket, listing: seq<string>, ids: seq<DeviceId>, engine: Synth.Engine)
      requires engine.reg == reg && TypedCodec(reg, codec)
      requires Covers(listing, kv.data)
      requires written == map[]
      modifies this`written, engine`prev, engine`seeded
      ensures written == LoadedWritten(reg, codec, kv.data)
      ensures engine.View() == SeedAll(reg, codec, kv.data, listing, old(engine.View()), ids)
    {
      var byDevice: map<DeviceId, seq<Facet>> := map[];
      var loaded: map<string, Bytes> := map[];
      for i := 0 to |listing|
        invariant forall kk :: kk in loaded <==>
                    kk in listing[..i] && kk in kv.data && Usable(reg, codec, kk, kv.data[kk]).Some?
        invariant forall kk :: kk in loaded ==> loaded[kk] == kv.data[kk]
        invariant AllListed(reg, codec, kv.data, listing[..i], byDevice)
        invariant written == map[] && engine.View() == old(engine.View())
      {
        assert listing[..i + 1] == listing[..i] + [listing[i]];
        var kk := listing[i];
        var e := KeyCodec.ParseKey(kk);
        var f := if e.Some? && kk in kv.data then DecodeFacet(reg, codec, e.value.kind, kv.data[kk]) else None;
        ghost var was := byDevice;
        if f.Some? {
          var d := e.value.device;
          byDevice := byDevice[d := (if d in byDevice then byDevice[d] else []) + [f.value]];
          loaded := loaded[kk := kv.data[kk]];
        }
        ListedNextForAll(reg, codec, kv.data, listing[..i], kk, was, byDevice);
      }
      assert listing[..|listing|] == listing;
      written := written + loaded;
      assert written == LoadedWritten(reg, codec, kv.data);
      SeedDevices(kv.data, listing, byDevice, ids, engine);
    }

    /** The end of `load`: every configured device is seeded, with nothing if
        nothing was stored for it. */
    method SeedDevices(ghost bucket: map<string, Bytes>, ghost listing: seq<string>,
                       byDevice: map<DeviceId, seq<Facet>>, ids: seq<DeviceId>, engine: Synth.Engine)
      requires engine.reg == reg && AllListed(reg, codec, bucket, listing, byDevice)
      modifies engine`prev, engine`seeded
      ensures engine.View() == SeedAll(reg, codec, bucket, listing, old(engine.View()), ids)
    {
      for i := 0 to |ids|
        invariant engine.View() == SeedAll(reg, codec, bucket, listing, old(engine.View()), ids[..i])
      {
        assert ids[..i + 1][..i] == ids[..i];
        var facets := if ids[i] in byDevice then byDevice[ids[i]] else [];
        ListedSeeds(reg, codec, bucket, listing, byDevice, ids[i]);
        engine.Seed(ids[i], facets);
      }
      assert ids[..|ids|] == ids;
    }
  }

  function SeedAll(reg: Synth.Registry, codec: Codec, bucket: map<string, Bytes>, listing: seq<string>,
                   s: Synth.State, ids: seq<DeviceId>): Synth.State
  {
    if ids == [] then s
    else
      var d := ids[|ids| - 1];
      Synth.SeedDevice(SeedAll(reg, codec, bucket, listing, s, ids[..|ids| - 1]), d,
                       LoadedMemory(reg, codec, bucket, listing, d))
  }

  /** Part way through the listing, a device's facet list seeds each kind with the
      last usable entry so far. */
  ghost predicate ListedMemory(reg: Synth.Registry, codec: Codec, bucket: map<string, Bytes>, listed: seq<string>,
                               byDevice: map<DeviceId, seq<Facet>>, d: DeviceId, k: Kind)
  {
    Lookup(Synth.SeedMap(reg, if d in byDevice then byDevice[d] else []), k) ==
    LastListed(reg, codec, bucket, listed, d, k)
  }

  ghost predicate AllListed(reg: Synth.Registry, codec: Codec, bucket: map<string, Bytes>, listed: seq<string>,
                            byDevice: map<DeviceId, seq<Facet>>)
  {
    forall d, k :: ListedMemory(reg, codec, bucket, listed, byDevice, d, k)
  }

  /** What `load` appends for one listed key. */
  ghost predicate Appended(reg: Synth.Registry, codec: Codec, bucket: map<string, Bytes>, kk: string,
                           was: map<DeviceId, seq<Facet>>, now: map<DeviceId, seq<Facet>>)
  {
    var e := KeyCodec.ParseKey(kk);
    var f := if e.Some? && kk in bucket then DecodeFacet(reg, codec, e.value.kind, bucket[kk]) else None;
    now == if f.None? then was
           else was[e.value.device := (if e.value.device in was then was[e.value.device] else []) + [f.value]]
  }

  lemma ListedNextForAll(reg: Synth.Registry, codec: Codec, bucket: map<string, Bytes>, listed: seq<string>, kk: string,
                         was: map<DeviceId, seq<Facet>>, now: map<DeviceId, seq<Facet>>)
    requires TypedCodec(reg, codec)
    requires AllListed(reg, codec, bucket, listed, was) && Appended(reg, codec, bucket, kk, was, now)
    ensures AllListed(reg, codec, bucket, listed + [kk], now)
  {
    var next := listed + [kk];
    forall d: DeviceId, k: Kind ensures ListedMemory(reg, codec, bucket, next, now, d, k) {
      ListedNext(reg, codec, bucket, listed, kk, was, now, d, k);
    }
  }

  lemma SeedMapNext(reg: Synth.Registry, facets: seq<Facet>, f: Facet)
    requires f.Kind() in reg && f.GoType() == reg[f.Kind()].zero.GoType()
    ensures Synth.SeedMap(reg, facets + [f]) == Synth.SeedMap(reg, facets)[f.Kind() := f]
  {
    assert (facets + [f])[..|facets|] == facets;
  }

  lemma ListedNext(reg: Synth.Registry, codec: Codec, bucket: map<string, Bytes>, listed: seq<string>, kk: string,
                   was: map<DeviceId, seq<Facet>>, now: map<DeviceId, seq<Facet>>, d: DeviceId, k: Kind)
    requires TypedCodec(reg, codec)
    requires ListedMemory(reg, codec, bucket, listed, was, d, k) && Appended(reg, codec, bucket, kk, was, now)
    ensures ListedMemory(reg, codec, bucket, listed + [kk], now, d, k)
  {
    assert (listed + [kk])[..|listed|] == listed;
    var e := KeyCodec.ParseKey(kk);
    var f := if e.Some? && kk in bucket then DecodeFacet(reg, codec, e.value.kind, bucket[kk]) else None;
    if f.Some? {
      var d0 := e.value.device;
      SeedMapNext(reg, if d0 in was then was[d0] else [], f.value);
    }
  }

  /** After the listing, a device's facet list seeds what `load` is to seed. */
  lemma ListedSeeds(reg: Synth.Registry, codec: Codec, bucket: map<string, Bytes>, listing: seq<string>,
                    byDevice: map<DeviceId, seq<Facet>>, d: DeviceId)
    requires AllListed(reg, codec, bucket, listing, byDevice)
    ensures Synth.SeedMap(reg, if d in byDevice then byDevice[d] else []) ==
            LoadedMemory(reg, codec, bucket, listing, d)
  {
    var seeded := Synth.SeedMap(reg, if d in byDevice then byDevice[d] else []);
    forall k ensures Lookup(seeded, k) == Lookup(LoadedMemory(reg, codec, bucket, listing, d), k) {
      assert ListedMemory(reg, codec, bucket, listing, byDevice, d, k);
      OnlyDiffedKinds(reg, codec, bucket, listing, d, k);
    }
    SameLookups(seeded, LoadedMemory(reg, codec, bucket, listing, d));
  }

  lemma SameLookups(a: map<Kind, Facet>, b: map<Kind, Facet>)
    requires forall k :: Lookup(a, k) == Lookup(b, k)
    ensures a == b
  {
    forall k ensures k in a <==> k in b { assert Lookup(a, k) == Lookup(b, k); }
    forall k | k in a ensures a[k] == b[k] { assert Lookup(a, k) == Lookup(b, k); }
  }

  /** `takePending` part way: the keys not in `left` are in the batch and marked written. */
  ghost predicate PartlyTaken(was: Cache, left: set<string>, batch: map<string, Taken>, written: map<string, Bytes>) {
    && left <= was.pending.Keys
    && batch.Keys == was.pending.Keys - left
    && written.Keys == was.written.Keys + batch.Keys
    && (forall k :: k in batch ==> batch[k] == Taken(was.pending[k], WrittenAt(was, k)))
    && (forall k :: k in written ==> written[k] == if k in batch then was.pending[k] else was.written[k])
  }

  lemma TakeOne(was: Cache, left: set<string>, batch: map<string, Taken>, written: map<string, Bytes>, k: string)
    requires PartlyTaken(was, left, batch, written) && k in left
    ensures PartlyTaken(was, left - {k},
                        batch[k := Taken(was.pending[k], if k in written then written[k] else [])],
                        written[k := was.pending[k]])
  {
    var before := if k in written then written[k] else [];
    assert before == WrittenAt(was, k);
    var batch' := batch[k := Taken(was.pending[k], before)];
    assert batch'.Keys == batch.Keys + {k};
    assert written[k := was.pending[k]].Keys == written.Keys + {k};
  }

  lemma TakeAll(was: Cache, batch: map<string, Taken>, written: map<string, Bytes>)
    requires PartlyTaken(was, {}, batch, written)
    ensures Cache(map[], written, batch) == Take(was)
  {
    assert batch == Take(was).batch;
    assert written == Take(was).written;
  }

  lemma TakeNothing(c: Cache)
    requires c.batch == map[] && Take(c).batch == map[]
    ensures Take(c) == c
  {
    assert Take(c).batch.Keys == c.pending.Keys;
    assert c.written + map[] == c.written;
  }

  /** A Put among the steps was not acknowledged. */
  ghost predicate Marred(steps: seq<Step>) {
    exists i :: 0 <= i < |steps| && steps[i].Put? && !steps[i].outcome.Stored?
  }

  /** One take, then Puts only. */
  ghost predicate Took1(steps: seq<Step>) {
    steps != [] && steps[0].Took? && forall i :: 1 <= i < |steps| ==> steps[i].Put?
  }

  /** The steps are Puts that end as the bucket's weather has it from the n-th on. */
  ghost predicate AsWeather(steps: seq<Step>, weather: nat -> Outcome, n: nat) {
    forall i :: 0 <= i < |steps| ==> steps[i].Put? && steps[i].outcome == weather(n + i)
  }

  lemma WeatherNext(steps: seq<Step>, weather: nat -> Outcome, n: nat, step: Step)
    requires AsWeather(steps, weather, n) && step.Put? && step.outcome == weather(n + |steps|)
    ensures AsWeather(steps + [step], weather, n)
  {
  }

  /** Some Put of these is not acknowledged. */
  ghost predicate BadWeather(weather: nat -> Outcome, from: nat, to: nat) {
    exists n :: from <= n < to && !weather(n).Stored?
  }

  lemma MoreWeather(weather: nat -> Outcome, from: nat, to: nat)
    requires from <= to
    ensures BadWeather(weather, from, to + 1) <==> BadWeather(weather, from, to) || !weather(to).Stored?
  {
  }

  lemma LaterWeather(weather: nat -> Outcome, from: nat, mid: nat, to: nat)
    requires from <= mid <= to
    ensures BadWeather(weather, from, mid) || BadWeather(weather, mid, to) ==> BadWeather(weather, from, to)
  {
  }

  lemma MarredLater(a: seq<Step>, b: seq<Step>)
    ensures Marred(a) || Marred(b) ==> Marred(a + b)
  {
    if Marred(a) {
      var i :| 0 <= i < |a| && a[i].Put? && !a[i].outcome.Stored?;
      assert (a + b)[i] == a[i];
    }
    if Marred(b) {
      var i :| 0 <= i < |b| && b[i].Put? && !b[i].outcome.Stored?;
      assert (a + b)[|a| + i] == b[i];
    }
  }

  lemma BadPutMars(a: seq<Step>, more: seq<Step>, weather: nat -> Outcome, from: nat, to: nat)
    requires AsWeather(more, weather, from) && to == from + |more| && BadWeather(weather, from, to)
    ensures Marred(a + more)
  {
    var n :| from <= n < to && !weather(n).Stored?;
    assert more[n - from].outcome == weather(from + (n - from));
    MarredLater(a, more);
  }

  lemma {:induction false} RoundTook(was: Store, more: seq<Step>, weather: nat -> Outcome, n: nat)
    requires was.cache.batch == map[] && AsWeather(more, weather, n)
    ensures Run(was, [Took] + more) == Run(Store(Take(was.cache), was.bucket), more)
    ensures Took1([Took] + more)
  {
    RunConcat(was, [Took], more);
    assert [Took][..0] == [];
    var all := [Took] + more;
    forall i | 1 <= i < |all| ensures all[i].Put? {
      assert all[i] == more[i - 1];
    }
  }

  lemma {:induction false} TakesConcat(a: seq<Step>, b: seq<Step>)
    ensures Took1(b) ==> Takes(a + b) == Takes(a) + 1
    ensures b == [] ==> a + b == a
  {
    if Took1(b) {
      var init := b[..|b| - 1];
      assert (a + b)[..|a + b| - 1] == a + init;
      if init == [] {
        assert a + init == a;
      } else {
        TakesConcat(a, init);
      }
    }
  }

  lemma RunNext(start: Store, steps: seq<Step>, step: Step)
    ensures Run(start, steps + [step]) == Next(Run(start, steps), step)
  {
    assert (steps + [step])[..|steps|] == steps;
  }

}
