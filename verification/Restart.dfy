/** Restart transparency: one life of the collector is boot, hold, load, seed, poll
    and write back, interleaved with the writer in any way; a chain of lives that
    each flush clean emits what one uninterrupted life would have. */
module Restart {
  import opened Prelude
  import opened Model
  import opened Synth
  import opened Loading
  import Durable
  import KeyCodec
  import Strings

  datatype Env = Env(reg: Registry, codec: Codec)

  function Raw(env: Env, f: Facet): Bytes {
    var raw := env.codec.marshal(f);
    if raw.Some? then raw.value else []
  }

  predicate DurableFacet(env: Env, f: Facet) {
    var k := f.Kind();
    k in env.reg && !env.reg[k].volatile && f.GoType() == env.reg[k].zero.GoType()
  }

  /** Facet encodings are non-empty and decode back to the facet, for every durable kind. */
  ghost predicate Faithful(env: Env) {
    && WellFormed(env.reg)
    && TypedCodec(env.reg, env.codec)
    && forall f :: DurableFacet(env, f) ==>
         env.codec.marshal(f).Some? && Raw(env, f) != [] &&
         DecodeFacet(env.reg, env.codec, f.Kind(), Raw(env, f)) == Some(f)
  }

  // ---- One life ----

  /** `toSeed` are the devices load has yet to seed, `recovered` and `listing` the
      bucket load read and the order it read it in.
      `seen`, `out` and `moves` log the readings not held, the events emitted, and
      the durable steps since load. */
  datatype World = World(engine: Synth.State, store: Durable.Store, toSeed: seq<DeviceId>,
                         loaded: bool, recovered: map<string, Bytes>, listing: seq<string>,
                         seen: seq<Reading>, out: seq<Emitted>, moves: seq<Durable.Step>)

  datatype Step =
    | Poll(reading: Reading)
    | Load(listing: seq<string>)
    | Seed
    | Take
    | Put(key: string, outcome: Durable.Outcome)

  function Boot(bucket: map<string, Bytes>, ids: seq<DeviceId>): World {
    World(Synth.State.State(map[], map[], true, {}), Durable.Store(Durable.Cache(map[], map[], map[]), bucket),
          ids, false, map[], [], [], [], [])
  }

  function Moved(w: World, step: Durable.Step): World {
    w.(store := Durable.Next(w.store, step), moves := w.moves + [step])
  }

  /** What a facet read does: diff, remember, and record if durable. Polls of a
      device not yet seeded are held and do nothing. */
  function Polled(env: Env, w: World, r: Reading): World {
    var (engine, events) := Observe(env.reg, w.engine, r);
    if Held(w.engine, r.base.deviceId) then w
    else
      var w1 := w.(engine := engine, seen := w.seen + [r], out := w.out + events);
      if Evidence(env.reg, w.engine, r) && !env.reg[r.facet.Kind()].volatile && env.codec.marshal(r.facet).Some?
      then Moved(w1, Durable.Recorded(KeyCodec.Key(r.base.deviceId, r.facet.Kind()), Raw(env, r.facet)))
      else w1
  }

  /** The writer starts only after every device is seeded. */
  function Next(env: Env, w: World, step: Step): World {
    match step
    case Poll(r) => Polled(env, w, r)
    case Load(listing) =>
      if w.loaded || !Covers(listing, w.store.bucket) then w
      else w.(loaded := true, recovered := w.store.bucket, listing := listing,
              store := AtLoad(env, w.store.bucket))
    case Seed =>
      if !w.loaded || w.toSeed == [] then w
      else
        var d := w.toSeed[0];
        w.(engine := SeedDevice(w.engine, d, LoadedMemory(env.reg, env.codec, w.recovered, w.listing, d)),
            toSeed := w.toSeed[1..])
    case Take => if !w.loaded || w.toSeed != [] then w else Moved(w, Durable.Took)
    case Put(k, o) => if !w.loaded || w.toSeed != [] then w else Moved(w, Durable.Put(k, o))
  }

  function AtLoad(env: Env, bucket: map<string, Bytes>): Durable.Store {
    Durable.Store(Durable.Cache(map[], LoadedWritten(env.reg, env.codec, bucket), map[]), bucket)
  }

  datatype Life = Life(ids: seq<DeviceId>, steps: seq<Step>)

  function RunFrom(env: Env, w: World, steps: seq<Step>): World {
    if steps == [] then w else Next(env, RunFrom(env, w, steps[..|steps| - 1]), steps[|steps| - 1])
  }

  function Live(env: Env, bucket: map<string, Bytes>, life: Life): World {
    RunFrom(env, Boot(bucket, life.ids), life.steps)
  }

  // ---- What a life keeps ----

  /** The cell a boot seeds: what the last usable entry listed says. */
  function BootCell(env: Env, bucket: map<string, Bytes>, listing: seq<string>, d: DeviceId, k: Kind): Cell {
    Cell(LastListed(env.reg, env.codec, bucket, listing, d, k), None)
  }

  /** The cell of the (device, kind)'s own key. */
  function StoredCell(env: Env, bucket: map<string, Bytes>, d: DeviceId, k: Kind): Cell {
    Cell(StoredFacet(env.reg, env.codec, bucket, d, k), None)
  }

  function RawsOf(env: Env, g: seq<Reading>): seq<Bytes> {
    seq(|g|, i requires 0 <= i < |g| => Raw(env, g[i].facet))
  }

  /** Of the whole process: the durable machine has run since load, and devices are
      seeded once, in order. */
  ghost predicate Steady(env: Env, bucket: map<string, Bytes>, w: World) {
    && w.engine.hold
    && Durable.NonEmptyRaws(w.moves)
    && (if w.loaded
        then w.recovered == bucket && Covers(w.listing, bucket) && w.store == Durable.Run(AtLoad(env, bucket), w.moves)
        else w.store == Durable.Store(Durable.Cache(map[], map[], map[]), bucket) &&
             w.moves == [] && w.listing == [] && w.engine.seeded == {})
    && Distinct(w.toSeed)
    && (forall i :: 0 <= i < |w.toSeed| ==> w.toSeed[i] !in w.engine.seeded)
  }

  /** Of one durable (device, kind): its events and memory are its differ folded
      over its good readings from what load seeded, and its recorded encodings
      are those of the same readings. */
  ghost predicate Follows(env: Env, bucket: map<string, Bytes>, w: World, d: DeviceId, k: Kind)
    requires k in env.reg
  {
    var good := GoodOf(env.reg, w.seen, d, k);
    && Durable.RecordedOf(w.moves, KeyCodec.Key(d, k)) == RawsOf(env, good)
    && (if d in w.engine.seeded
        then Tracks(env.reg, BootCell(env, bucket, w.listing, d, k), w.engine, w.out, good, d, k)
        else good == [] && EventsOf(w.out, d, k) == [])
  }

  lemma {:induction false} RecordedNext(moves: seq<Durable.Step>, step: Durable.Step, kk: string)
    ensures Durable.RecordedOf(moves + [step], kk) ==
            Durable.RecordedOf(moves, kk) + if step.Recorded? && step.key == kk then [step.raw] else []
    ensures Durable.NonEmptyRaws(moves) && (step.Recorded? ==> step.raw != []) ==>
              Durable.NonEmptyRaws(moves + [step])
  {
    assert (moves + [step])[..|moves|] == moves;
  }

  lemma MovedKeeps(env: Env, bucket: map<string, Bytes>, w: World, step: Durable.Step)
    requires w.loaded && Steady(env, bucket, w)
    requires step.Recorded? ==> step.raw != []
    ensures Steady(env, bucket, Moved(w, step))
  {
    RecordedNext(w.moves, step, "");
    assert (w.moves + [step])[..|w.moves|] == w.moves;
  }

  lemma PolledKeeps(env: Env, bucket: map<string, Bytes>, w: World, r: Reading)
    requires Faithful(env) && Steady(env, bucket, w)
    ensures Steady(env, bucket, Polled(env, w, r))
  {
    if !Held(w.engine, r.base.deviceId) {
      var (engine, events) := Observe(env.reg, w.engine, r);
      var w1 := w.(engine := engine, seen := w.seen + [r], out := w.out + events);
      assert Steady(env, bucket, w1);
      if Evidence(env.reg, w.engine, r) && !env.reg[r.facet.Kind()].volatile {
        assert DurableFacet(env, r.facet);
        MovedKeeps(env, bucket, w1,
                   Durable.Recorded(KeyCodec.Key(r.base.deviceId, r.facet.Kind()), Raw(env, r.facet)));
      }
    }
  }

  lemma StepKeeps(env: Env, bucket: map<string, Bytes>, w: World, step: Step)
    requires Faithful(env) && Steady(env, bucket, w)
    ensures Steady(env, bucket, Next(env, w, step))
  {
    match step
    case Poll(r) => PolledKeeps(env, bucket, w, r);
    case Load(listing) =>
    case Seed =>
    case Take => if w.loaded { MovedKeeps(env, bucket, w, Durable.Took); }
    case Put(k, o) => if w.loaded { MovedKeeps(env, bucket, w, Durable.Put(k, o)); }
  }

  lemma GoodOfNext(reg: Registry, seen: seq<Reading>, r: Reading, d: DeviceId, k: Kind)
    ensures GoodOf(reg, seen + [r], d, k) ==
            if Good(reg, r) && Concerns(r, d, k) then GoodOf(reg, seen, d, k) + [r] else GoodOf(reg, seen, d, k)
  {
    assert (seen + [r])[..|seen|] == seen;
  }

  lemma {:induction false} PolledMoves(env: Env, w: World, r: Reading)
    requires Faithful(env) && !Held(w.engine, r.base.deviceId)
    ensures var w' := Polled(env, w, r);
            w'.seen == w.seen + [r] &&
            w'.moves ==
            if Good(env.reg, r) && !env.reg[r.facet.Kind()].volatile
            then w.moves + [Durable.Recorded(KeyCodec.Key(r.base.deviceId, r.facet.Kind()), Raw(env, r.facet))]
            else w.moves
  {
    if Good(env.reg, r) && !env.reg[r.facet.Kind()].volatile {
      assert DurableFacet(env, r.facet);
    }
  }

  lemma {:induction false} PolledRecords(env: Env, w: World, r: Reading, d: DeviceId, k: Kind)
    requires Faithful(env) && k in env.reg && !env.reg[k].volatile
    requires !Held(w.engine, r.base.deviceId)
    requires Durable.RecordedOf(w.moves, KeyCodec.Key(d, k)) == RawsOf(env, GoodOf(env.reg, w.seen, d, k))
    ensures var w' := Polled(env, w, r);
            Durable.RecordedOf(w'.moves, KeyCodec.Key(d, k)) == RawsOf(env, GoodOf(env.reg, w'.seen, d, k))
  {
    PolledMoves(env, w, r);
    GoodOfNext(env.reg, w.seen, r, d, k);
    RawsNext(env, GoodOf(env.reg, w.seen, d, k), r);
    if Good(env.reg, r) && !env.reg[r.facet.Kind()].volatile {
      var kk := KeyCodec.Key(r.base.deviceId, r.facet.Kind());
      KeyCodec.KeyInjective(r.base.deviceId, r.facet.Kind(), d, k);
      RecordedNext(w.moves, Durable.Recorded(kk, Raw(env, r.facet)), KeyCodec.Key(d, k));
    } else {
      assert !(Good(env.reg, r) && Concerns(r, d, k));
    }
  }

  lemma {:induction false} RawsNext(env: Env, good: seq<Reading>, r: Reading)
    ensures RawsOf(env, good + [r]) == RawsOf(env, good) + [Raw(env, r.facet)]
  {
  }

  lemma {:induction false} PolledTracks(env: Env, bucket: map<string, Bytes>, w: World, r: Reading, d: DeviceId,
                                        k: Kind)
    requires Faithful(env) && k in env.reg && !env.reg[k].volatile && !Held(w.engine, r.base.deviceId)
    requires w.engine.hold && Follows(env, bucket, w, d, k)
    ensures var (engine, events) := Observe(env.reg, w.engine, r);
            var good := GoodOf(env.reg, w.seen + [r], d, k);
            engine.seeded == w.engine.seeded &&
            if d in w.engine.seeded
            then Tracks(env.reg, BootCell(env, bucket, w.listing, d, k), engine, w.out + events, good, d, k)
            else good == [] && EventsOf(w.out + events, d, k) == []
  {
    GoodOfNext(env.reg, w.seen, r, d, k);
    if d in w.engine.seeded {
      TracksNext(env.reg, BootCell(env, bucket, w.listing, d, k), w.engine, w.out,
                 GoodOf(env.reg, w.seen, d, k), r, d, k);
    } else {
      ObserveProjects(env.reg, w.engine, r, d, k);
      EventsOfConcat(w.out, Observe(env.reg, w.engine, r).1, d, k);
    }
  }

  lemma {:induction false} PolledFollows(env: Env, bucket: map<string, Bytes>, w: World, r: Reading, d: DeviceId,
                                         k: Kind)
    requires Faithful(env) && k in env.reg && !env.reg[k].volatile
    requires Steady(env, bucket, w) && Follows(env, bucket, w, d, k)
    ensures Follows(env, bucket, Polled(env, w, r), d, k)
  {
    if !Held(w.engine, r.base.deviceId) {
      PolledRecords(env, w, r, d, k);
      PolledTracks(env, bucket, w, r, d, k);
    }
  }

  lemma {:induction false} SeedFollows(env: Env, bucket: map<string, Bytes>, w: World, d: DeviceId, k: Kind)
    requires Faithful(env) && k in env.reg && !env.reg[k].volatile
    requires Steady(env, bucket, w) && Follows(env, bucket, w, d, k)
    ensures Follows(env, bucket, Next(env, w, Seed), d, k)
  {
    if w.loaded && w.toSeed != [] {
      var x := w.toSeed[0];
      assert x !in w.engine.seeded;
      if x == d {
        var engine := Next(env, w, Seed).engine;
        OnlyDiffedKinds(env.reg, env.codec, bucket, w.listing, d, k);
        assert CellOf(env.reg, engine, d, k) == BootCell(env, bucket, w.listing, d, k);
      } else {
        assert CellOf(env.reg, Next(env, w, Seed).engine, d, k) == CellOf(env.reg, w.engine, d, k);
      }
    }
  }

  lemma StepFollows(env: Env, bucket: map<string, Bytes>, w: World, step: Step, d: DeviceId, k: Kind)
    requires Faithful(env) && k in env.reg && !env.reg[k].volatile
    requires Steady(env, bucket, w) && Follows(env, bucket, w, d, k)
    ensures Follows(env, bucket, Next(env, w, step), d, k)
  {
    match step
    case Poll(r) => PolledFollows(env, bucket, w, r, d, k);
    case Load(listing) =>
    case Seed => SeedFollows(env, bucket, w, d, k);
    case Take => RecordedNext(w.moves, Durable.Took, KeyCodec.Key(d, k));
    case Put(kk, o) => RecordedNext(w.moves, Durable.Put(kk, o), KeyCodec.Key(d, k));
  }

  lemma {:induction false} LifeFollows(env: Env, bucket: map<string, Bytes>, ids: seq<DeviceId>, steps: seq<Step>,
                                       d: DeviceId, k: Kind)
    requires Faithful(env) && k in env.reg && !env.reg[k].volatile && Distinct(ids)
    ensures Steady(env, bucket, RunFrom(env, Boot(bucket, ids), steps))
    ensures Follows(env, bucket, RunFrom(env, Boot(bucket, ids), steps), d, k)
  {
    if steps != [] {
      var n := |steps| - 1;
      LifeFollows(env, bucket, ids, steps[..n], d, k);
      var w := RunFrom(env, Boot(bucket, ids), steps[..n]);
      StepKeeps(env, bucket, w, steps[n]);
      StepFollows(env, bucket, w, steps[n], d, k);
    }
  }

  lemma LoadIsClean(env: Env, bucket: map<string, Bytes>)
    ensures Durable.JustLoaded(AtLoad(env, bucket))
  {
  }

  /** The (device, kind) has no usable entry under another key. */
  ghost predicate Own(env: Env, bucket: map<string, Bytes>, d: DeviceId, k: Kind) {
    OwnKeyOnly(env.reg, env.codec, bucket, d, k)
  }

  /** From any bucket, the events of a life are its differ folded over the readings
      it did not hold, from what load found last, whether or not the device was seeded. */
  lemma {:induction false} LifeEventsFromLoad(env: Env, bucket: map<string, Bytes>, life: Life, d: DeviceId, k: Kind)
    requires Faithful(env) && k in env.reg && !env.reg[k].volatile && Distinct(life.ids)
    ensures var w := Live(env, bucket, life);
            EventsOf(w.out, d, k) ==
            Fold(env.reg[k], BootCell(env, bucket, w.listing, d, k), GoodOf(env.reg, w.seen, d, k)).1
  {
    LifeFollows(env, bucket, life.ids, life.steps, d, k);
  }

  lemma {:induction false} BootsFromOwnKey(env: Env, bucket: map<string, Bytes>, w: World, d: DeviceId, k: Kind)
    requires Steady(env, bucket, w) && w.loaded && Own(env, bucket, d, k)
    ensures BootCell(env, bucket, w.listing, d, k) == StoredCell(env, bucket, d, k)
  {
    OwnKeyLoads(env.reg, env.codec, bucket, w.listing, d, k);
  }

  /** So they are determined by the boot bucket and those readings, if the
      (device, kind) has no usable entry under another key. */
  lemma {:induction false} LifeEvents(env: Env, bucket: map<string, Bytes>, life: Life, d: DeviceId, k: Kind)
    requires Faithful(env) && k in env.reg && !env.reg[k].volatile && Distinct(life.ids)
    requires Own(env, bucket, d, k)
    ensures var w := Live(env, bucket, life);
            EventsOf(w.out, d, k) ==
            Fold(env.reg[k], StoredCell(env, bucket, d, k), GoodOf(env.reg, w.seen, d, k)).1
  {
    LifeFollows(env, bucket, life.ids, life.steps, d, k);
    var w := Live(env, bucket, life);
    if w.loaded {
      BootsFromOwnKey(env, bucket, w, d, k);
    }
  }

  // ---- What a life leaves behind ----

  /** Keys in spellings the program does not write are never touched. */
  ghost predicate OthersUntouched(bucket: map<string, Bytes>, s: Durable.Store) {
    && (forall kk :: kk in s.cache.pending ==> KeyCodec.Canonical(kk))
    && (forall kk :: kk in s.cache.batch ==> KeyCodec.Canonical(kk))
    && (forall kk :: !KeyCodec.Canonical(kk) ==> Lookup(s.bucket, kk) == Lookup(bucket, kk))
  }

  lemma MoveKeepsOthers(bucket: map<string, Bytes>, s: Durable.Store, step: Durable.Step)
    requires OthersUntouched(bucket, s) && (step.Recorded? ==> KeyCodec.Canonical(step.key))
    ensures OthersUntouched(bucket, Durable.Next(s, step))
  {
  }

  lemma StepKeepsOthers(env: Env, bucket: map<string, Bytes>, w: World, step: Step)
    requires OthersUntouched(bucket, w.store)
    ensures OthersUntouched(bucket, Next(env, w, step).store)
  {
    match step
    case Poll(r) =>
      var recorded := Durable.Recorded(KeyCodec.Key(r.base.deviceId, r.facet.Kind()), Raw(env, r.facet));
      KeyCodec.KeyIsCanonical(r.base.deviceId, r.facet.Kind());
      MoveKeepsOthers(bucket, w.store, recorded);
    case Load(listing) =>
    case Seed =>
    case Take => MoveKeepsOthers(bucket, w.store, Durable.Took);
    case Put(k, o) => MoveKeepsOthers(bucket, w.store, Durable.Put(k, o));
  }

  lemma {:induction false} LifeKeepsOthers(env: Env, bucket: map<string, Bytes>, ids: seq<DeviceId>, steps: seq<Step>)
    ensures OthersUntouched(bucket, RunFrom(env, Boot(bucket, ids), steps).store)
  {
    if steps != [] {
      var n := |steps| - 1;
      LifeKeepsOthers(env, bucket, ids, steps[..n]);
      StepKeepsOthers(env, bucket, RunFrom(env, Boot(bucket, ids), steps[..n]), steps[n]);
    }
  }

  /** A life, ended anywhere, gives no (device, kind) an entry under another key. */
  lemma {:induction false} LifeKeepsOwn(env: Env, bucket: map<string, Bytes>, life: Life, d: DeviceId, k: Kind)
    requires Own(env, bucket, d, k)
    ensures Own(env, Live(env, bucket, life).store.bucket, d, k)
  {
    LifeKeepsOthers(env, bucket, life.ids, life.steps);
    var after := Live(env, bucket, life).store.bucket;
    forall kk | kk in after && FacetAt(env.reg, env.codec, after, kk, d, k).Some?
      ensures kk == KeyCodec.Key(d, k)
    {
      assert KeyCodec.Canonical(kk) || Lookup(after, kk) == Lookup(bucket, kk);
    }
  }

  /** Stop a life anywhere, even mid-write: the bucket then holds the memory the
      engine had after some number of the good readings, and the next load will
      seed it, so the next life resumes from a state that was really observed. */
  lemma {:induction false} CrashRestoresAnObservedState(env: Env, bucket: map<string, Bytes>, life: Life,
                                                        d: DeviceId, k: Kind)
    returns (n: nat)
    requires Faithful(env) && k in env.reg && !env.reg[k].volatile && Distinct(life.ids)
    requires Own(env, bucket, d, k)
    ensures var w := Live(env, bucket, life);
            var good := GoodOf(env.reg, w.seen, d, k);
            n <= |good| &&
            n == (if w.loaded then Durable.Track(AtLoad(env, bucket), w.moves, KeyCodec.Key(d, k)).bucketAt else 0) &&
            Own(env, w.store.bucket, d, k) &&
            StoredCell(env, w.store.bucket, d, k) ==
            Fold(env.reg[k], StoredCell(env, bucket, d, k), good[..n]).0
  {
    LifeFollows(env, bucket, life.ids, life.steps, d, k);
    LifeKeepsOwn(env, bucket, life, d, k);
    var w := Live(env, bucket, life);
    var good := GoodOf(env.reg, w.seen, d, k);
    if w.loaded {
      n := BucketIsBehind(env, bucket, w, d, k);
    } else {
      n := 0;
      assert good[..0] == [];
    }
    FoldKeepsNoTime(env.reg[k], StoredCell(env, bucket, d, k).prev, good[..n]);
  }

  /** If it ended clean, that is the memory after all of them. */
  lemma {:induction false} CleanRestoresEverything(env: Env, bucket: map<string, Bytes>, life: Life, d: DeviceId,
                                                   k: Kind)
    requires Faithful(env) && k in env.reg && !env.reg[k].volatile && Distinct(life.ids)
    requires Own(env, bucket, d, k) && Clean(Live(env, bucket, life))
    ensures var w := Live(env, bucket, life);
            Own(env, w.store.bucket, d, k) &&
            StoredCell(env, w.store.bucket, d, k) ==
            Fold(env.reg[k], StoredCell(env, bucket, d, k), GoodOf(env.reg, w.seen, d, k)).0
  {
    LifeFollows(env, bucket, life.ids, life.steps, d, k);
    LifeKeepsOwn(env, bucket, life, d, k);
    var w := Live(env, bucket, life);
    if w.loaded {
      CleanIsCurrent(env, bucket, w, d, k);
    }
    FoldKeepsNoTime(env.reg[k], StoredCell(env, bucket, d, k).prev, GoodOf(env.reg, w.seen, d, k));
  }

  lemma {:induction false} BucketIsBehind(env: Env, bucket: map<string, Bytes>, w: World, d: DeviceId, k: Kind)
    returns (n: nat)
    requires Faithful(env) && k in env.reg && !env.reg[k].volatile
    requires w.loaded && Steady(env, bucket, w)
    requires Durable.RecordedOf(w.moves, KeyCodec.Key(d, k)) == RawsOf(env, GoodOf(env.reg, w.seen, d, k))
    ensures var good := GoodOf(env.reg, w.seen, d, k);
            n <= |good| &&
            n == Durable.Track(AtLoad(env, bucket), w.moves, KeyCodec.Key(d, k)).bucketAt &&
            StoredCell(env, w.store.bucket, d, k).prev ==
            Fold(env.reg[k], StoredCell(env, bucket, d, k), good[..n]).0.prev
  {
    var good := GoodOf(env.reg, w.seen, d, k);
    var kk := KeyCodec.Key(d, k);
    LoadIsClean(env, bucket);
    Durable.BucketWasObserved(AtLoad(env, bucket), w.moves, kk);
    n := Durable.Track(AtLoad(env, bucket), w.moves, kk).bucketAt;
    if n > 0 {
      GoodOfIsGood(env.reg, w.seen, d, k, n - 1);
      assert good[..n][n - 1] == good[n - 1];
      StoredIsLast(env, w.store.bucket, StoredCell(env, bucket, d, k), good[..n], d, k);
    } else {
      assert good[..0] == [];
      SameEntrySameCell(env, bucket, w.store.bucket, d, k);
    }
  }

  lemma {:induction false} SameEntrySameCell(env: Env, a: map<string, Bytes>, b: map<string, Bytes>, d: DeviceId,
                                             k: Kind)
    requires Lookup(a, KeyCodec.Key(d, k)) == Lookup(b, KeyCodec.Key(d, k))
    ensures StoredCell(env, a, d, k) == StoredCell(env, b, d, k)
  {
  }

  lemma {:induction false} StoredIsLast(env: Env, bucket: map<string, Bytes>, c: Cell, good: seq<Reading>,
                                        d: DeviceId, k: Kind)
    requires Faithful(env) && k in env.reg && !env.reg[k].volatile && good != []
    requires Good(env.reg, good[|good| - 1]) && good[|good| - 1].facet.Kind() == k
    requires Lookup(bucket, KeyCodec.Key(d, k)) == Some(Raw(env, good[|good| - 1].facet))
    ensures StoredCell(env, bucket, d, k).prev == Fold(env.reg[k], c, good).0.prev
  {
    var r := good[|good| - 1];
    assert DurableFacet(env, r.facet);
    OwnKeyIsUsable(env.reg, env.codec, bucket, d, k);
    CellIsLastReading(env.reg[k], c, good);
  }

  /** A life that ends with nothing pending and nothing unsettled. */
  predicate Clean(w: World) {
    w.store.cache.pending == map[] && w.store.cache.batch == map[]
  }

  lemma {:induction false} CleanIsCurrent(env: Env, bucket: map<string, Bytes>, w: World, d: DeviceId, k: Kind)
    requires Faithful(env) && k in env.reg && !env.reg[k].volatile
    requires w.loaded && Steady(env, bucket, w) && Clean(w)
    requires Durable.RecordedOf(w.moves, KeyCodec.Key(d, k)) == RawsOf(env, GoodOf(env.reg, w.seen, d, k))
    ensures StoredCell(env, w.store.bucket, d, k).prev ==
            Fold(env.reg[k], StoredCell(env, bucket, d, k), GoodOf(env.reg, w.seen, d, k)).0.prev
  {
    var good := GoodOf(env.reg, w.seen, d, k);
    LoadIsClean(env, bucket);
    Durable.FlushedBucketIsCurrent(AtLoad(env, bucket), w.moves, KeyCodec.Key(d, k));
    if good != [] {
      GoodOfIsGood(env.reg, w.seen, d, k, |good| - 1);
      StoredIsLast(env, w.store.bucket, StoredCell(env, bucket, d, k), good, d, k);
    } else {
      SameEntrySameCell(env, bucket, w.store.bucket, d, k);
    }
  }

  /** A clean end: what the next load will seed is exactly what the engine remembers. */
  lemma {:induction false} CleanLifeIsStored(env: Env, bucket: map<string, Bytes>, life: Life, d: DeviceId, k: Kind)
    requires Faithful(env) && k in env.reg && !env.reg[k].volatile && Distinct(life.ids)
    requires Own(env, bucket, d, k) && Clean(Live(env, bucket, life))
    ensures var w := Live(env, bucket, life);
            Own(env, w.store.bucket, d, k) &&
            StoredCell(env, w.store.bucket, d, k) ==
            Fold(env.reg[k], StoredCell(env, bucket, d, k), GoodOf(env.reg, w.seen, d, k)).0 &&
            (d in w.engine.seeded ==>
               StoredCell(env, w.store.bucket, d, k).prev == CellOf(env.reg, w.engine, d, k).prev) &&
            (d !in w.engine.seeded ==> StoredCell(env, w.store.bucket, d, k) == StoredCell(env, bucket, d, k))
  {
    LifeFollows(env, bucket, life.ids, life.steps, d, k);
    var w := Live(env, bucket, life);
    if w.loaded {
      BootsFromOwnKey(env, bucket, w, d, k);
    }
    CleanRestoresEverything(env, bucket, life, d, k);
  }

  // ---- A clean end can be reached ----

  function PutAll(keys: seq<string>): seq<Step> {
    seq(|keys|, i requires 0 <= i < |keys| => Put(keys[i], Durable.Stored))
  }

  /** Acknowledged Puts of all that is unsettled settle it, and touch nothing else. */
  lemma {:induction false} PutsSettle(env: Env, w: World, keys: seq<string>, n: nat)
    requires w.loaded && w.toSeed == [] && n <= |keys| && Distinct(keys)
    requires forall kk :: kk in keys <==> kk in w.store.cache.batch
    ensures var w' := RunFrom(env, w, PutAll(keys)[..n]);
            w' == w.(store := w'.store, moves := w'.moves) &&
            w'.store.cache.pending == w.store.cache.pending &&
            forall kk :: kk in w'.store.cache.batch <==> kk in keys && kk !in keys[..n]
  {
    if n > 0 {
      PutsSettle(env, w, keys, n - 1);
      assert PutAll(keys)[..n][..n - 1] == PutAll(keys)[..n - 1];
      assert keys[..n] == keys[..n - 1] + [keys[n - 1]];
      assert keys[n - 1] !in keys[..n - 1];
    }
  }

  lemma {:induction false} SettledAll(env: Env, w: World)
    requires w.loaded && w.toSeed == []
    ensures var w' := RunFrom(env, w, PutAll(Strings.SortedKeys(w.store.cache.batch.Keys)));
            w' == w.(store := w'.store, moves := w'.moves) &&
            w'.store.cache.pending == w.store.cache.pending && w'.store.cache.batch == map[]
  {
    var keys := Strings.SortedKeys(w.store.cache.batch.Keys);
    Strings.SortedKeysDistinct(w.store.cache.batch.Keys);
    PutsSettle(env, w, keys, |keys|);
    assert PutAll(keys)[..|keys|] == PutAll(keys) && keys[..|keys|] == keys;
  }

  /** From any moment of any life that has seeded its devices, acknowledged writes
      alone reach a clean end, and change nothing the engine remembers or emitted. */
  lemma {:induction false} CleanEndReachable(env: Env, w: World) returns (steps: seq<Step>)
    requires w.loaded && w.toSeed == []
    ensures forall i :: 0 <= i < |steps| ==> steps[i].Take? || steps[i].Put?
    ensures var w' := RunFrom(env, w, steps);
            Clean(w') && w' == w.(store := w'.store, moves := w'.moves)
  {
    var first := PutAll(Strings.SortedKeys(w.store.cache.batch.Keys));
    SettledAll(env, w);
    var w1 := RunFrom(env, w, first);
    var w2 := Next(env, w1, Take);
    assert w2.store.cache.pending == map[];
    var second := PutAll(Strings.SortedKeys(w2.store.cache.batch.Keys));
    SettledAll(env, w2);
    steps := first + [Take] + second;
    RunFromConcat(env, w, first + [Take], second);
    RunFromConcat(env, w, first, [Take]);
    assert [Take][..0] == [];
    assert RunFrom(env, w1, [Take]) == w2;
  }

  // ---- Many lives ----

  datatype Chain = Chain(bucket: map<string, Bytes>, seen: seq<Reading>, out: seq<Emitted>, clean: bool)

  function RunLives(env: Env, bucket: map<string, Bytes>, lives: seq<Life>): Chain {
    if lives == [] then Chain(bucket, [], [], true)
    else
      var before := RunLives(env, bucket, lives[..|lives| - 1]);
      var w := Live(env, before.bucket, lives[|lives| - 1]);
      Chain(w.store.bucket, before.seen + w.seen, before.out + w.out, before.clean && Clean(w))
  }

  predicate AllDistinct(lives: seq<Life>) {
    forall i :: 0 <= i < |lives| ==> Distinct(lives[i].ids)
  }

  /** A fold of a durable kind does not depend on the differ's own time. */
  lemma {:induction false} FoldKeepsNoTime(df: Differ, prev: Option<Facet>, g: seq<Reading>)
    requires !df.stateful
    ensures Fold(df, Cell(prev, None), g).0.last == None
  {
    if g != [] { FoldKeepsNoTime(df, prev, g[..|g| - 1]); }
  }

  lemma {:induction false} LivesFold(env: Env, bucket: map<string, Bytes>, lives: seq<Life>, d: DeviceId, k: Kind)
    requires Faithful(env) && k in env.reg && !env.reg[k].volatile
    requires AllDistinct(lives) && Own(env, bucket, d, k)
    requires RunLives(env, bucket, lives).clean
    ensures var chain := RunLives(env, bucket, lives);
            Own(env, chain.bucket, d, k) &&
            (StoredCell(env, chain.bucket, d, k), EventsOf(chain.out, d, k)) ==
            Fold(env.reg[k], StoredCell(env, bucket, d, k), GoodOf(env.reg, chain.seen, d, k))
  {
    if lives != [] {
      var n := |lives| - 1;
      LivesFold(env, bucket, lives[..n], d, k);
      var before := RunLives(env, bucket, lives[..n]);
      var w := Live(env, before.bucket, lives[n]);
      LifeEvents(env, before.bucket, lives[n], d, k);
      CleanRestoresEverything(env, before.bucket, lives[n], d, k);
      GoodOfConcat(env.reg, before.seen, w.seen, d, k);
      EventsOfConcat(before.out, w.out, d, k);
      FoldConcat(env.reg[k], StoredCell(env, bucket, d, k), GoodOf(env.reg, before.seen, d, k),
                 GoodOf(env.reg, w.seen, d, k));
    }
  }

  /** The headline: cut a run of polls into any number of lives, each flushed clean
      and each held until its bucket is loaded, with the keys listed in any order,
      the writer interleaved in any way and any Puts failing on the way. Every
      durable (device, kind) without a second usable entry then emits exactly what
      one uninterrupted life seeing the same polls emits. */
  lemma {:induction false} RestartsAreInvisible(env: Env, bucket: map<string, Bytes>, lives: seq<Life>, whole: Life,
                                                d: DeviceId, k: Kind)
    requires Faithful(env) && k in env.reg && !env.reg[k].volatile && Own(env, bucket, d, k)
    requires Distinct(whole.ids) && AllDistinct(lives)
    requires RunLives(env, bucket, lives).clean
    requires Live(env, bucket, whole).seen == RunLives(env, bucket, lives).seen
    ensures EventsOf(RunLives(env, bucket, lives).out, d, k) == EventsOf(Live(env, bucket, whole).out, d, k)
  {
    LivesFold(env, bucket, lives, d, k);
    LifeEvents(env, bucket, whole, d, k);
  }

  // ---- The uninterrupted life, written out ----

  function Polls(rs: seq<Reading>): seq<Step> {
    seq(|rs|, i requires 0 <= i < |rs| => Poll(rs[i]))
  }

  /** Load, seed every device, then take the polls. */
  function Uninterrupted(listing: seq<string>, ids: seq<DeviceId>, rs: seq<Reading>): Life {
    Life(ids, [Load(listing)] + seq(|ids|, i requires 0 <= i < |ids| => Seed) + Polls(rs))
  }

  function Elements(ids: seq<DeviceId>): set<DeviceId> {
    set d | d in ids
  }

  lemma SeedOne(env: Env, w: World, ids: seq<DeviceId>, n: nat)
    requires 0 < n <= |ids| && w.loaded && w.toSeed == ids[n - 1..] && w.engine.seeded == Elements(ids[..n - 1])
    ensures var w' := Next(env, w, Seed);
            w' == w.(engine := w'.engine, toSeed := ids[n..]) && w'.engine.seeded == Elements(ids[..n])
  {
    assert ids[n - 1..][1..] == ids[n..];
    assert ids[..n] == ids[..n - 1] + [ids[n - 1]];
  }

  lemma {:induction false} SeedingFinishes(env: Env, bucket: map<string, Bytes>, listing: seq<string>,
                                           ids: seq<DeviceId>, n: nat)
    requires n <= |ids| && Covers(listing, bucket)
    ensures var w := RunFrom(env, Boot(bucket, ids), [Load(listing)] + seq(n, i => Seed));
            w.loaded && w.toSeed == ids[n..] && w.seen == [] && w.out == [] &&
            w.engine.seeded == Elements(ids[..n])
  {
    var steps := [Load(listing)] + seq(n, i => Seed);
    if n == 0 {
      assert steps[..0] == [];
      assert steps == [Load(listing)];
    } else {
      SeedingFinishes(env, bucket, listing, ids, n - 1);
      assert steps[..|steps| - 1] == [Load(listing)] + seq(n - 1, i => Seed);
      var before := steps[..n];
      assert steps == before + [Seed] && before == [Load(listing)] + seq(n - 1, i => Seed);
      SeedOne(env, RunFrom(env, Boot(bucket, ids), before), ids, n);
    }
  }

  lemma PollIsSeen(env: Env, w: World, r: Reading)
    requires r.base.deviceId in w.engine.seeded
    ensures Polled(env, w, r).seen == w.seen + [r]
    ensures Polled(env, w, r).engine.seeded == w.engine.seeded
  {
  }

  lemma {:induction false} PollsAreSeen(env: Env, w: World, rs: seq<Reading>)
    requires forall r :: r in rs ==> r.base.deviceId in w.engine.seeded
    ensures RunFrom(env, w, Polls(rs)).seen == w.seen + rs
    ensures RunFrom(env, w, Polls(rs)).engine.seeded == w.engine.seeded
  {
    if rs != [] {
      var n := |rs| - 1;
      assert Polls(rs)[..n] == Polls(rs[..n]);
      PollsAreSeen(env, w, rs[..n]);
      PollIsSeen(env, RunFrom(env, w, Polls(rs[..n])), rs[n]);
      assert Polls(rs)[n] == Poll(rs[n]);
      assert rs == rs[..n] + [rs[n]];
    }
  }

  lemma {:induction false} RunFromConcat(env: Env, w: World, a: seq<Step>, b: seq<Step>)
    ensures RunFrom(env, w, a + b) == RunFrom(env, RunFrom(env, w, a), b)
  {
    if b == [] {
      assert a + b == a;
    } else {
      var n := |b| - 1;
      assert (a + b)[..|a + b| - 1] == a + b[..n];
      RunFromConcat(env, w, a, b[..n]);
    }
  }

  /** The headline against the plainest run there is: load once, seed every device,
      poll. It needs only that every device seen in some life is configured. */
  lemma {:induction false} RestartsMatchOneRun(env: Env, bucket: map<string, Bytes>, lives: seq<Life>,
                                               listing: seq<string>, ids: seq<DeviceId>, d: DeviceId, k: Kind)
    requires Faithful(env) && k in env.reg && !env.reg[k].volatile && Own(env, bucket, d, k)
    requires Distinct(ids) && AllDistinct(lives) && Covers(listing, bucket)
    requires RunLives(env, bucket, lives).clean
    requires forall r :: r in RunLives(env, bucket, lives).seen ==> r.base.deviceId in ids
    ensures var rs := RunLives(env, bucket, lives).seen;
            Live(env, bucket, Uninterrupted(listing, ids, rs)).seen == rs &&
            EventsOf(RunLives(env, bucket, lives).out, d, k) ==
            EventsOf(Live(env, bucket, Uninterrupted(listing, ids, rs)).out, d, k)
  {
    var rs := RunLives(env, bucket, lives).seen;
    UninterruptedSees(env, bucket, listing, ids, rs);
    RestartsAreInvisible(env, bucket, lives, Uninterrupted(listing, ids, rs), d, k);
  }

  lemma {:induction false} UninterruptedSees(env: Env, bucket: map<string, Bytes>, listing: seq<string>,
                                             ids: seq<DeviceId>, rs: seq<Reading>)
    requires Covers(listing, bucket) && forall r :: r in rs ==> r.base.deviceId in ids
    ensures Live(env, bucket, Uninterrupted(listing, ids, rs)).seen == rs
  {
    var seeding := [Load(listing)] + seq(|ids|, i requires 0 <= i < |ids| => Seed);
    assert seeding == [Load(listing)] + seq(|ids|, i => Seed);
    SeedingFinishes(env, bucket, listing, ids, |ids|);
    assert ids[..|ids|] == ids;
    var w := RunFrom(env, Boot(bucket, ids), seeding);
    PollsAreSeen(env, w, rs);
    RunFromConcat(env, Boot(bucket, ids), seeding, Polls(rs));
    assert [] + rs == rs;
  }

  lemma {:induction false} UninterruptedLists(env: Env, bucket: map<string, Bytes>, listing: seq<string>,
                                              ids: seq<DeviceId>, rs: seq<Reading>)
    requires Covers(listing, bucket)
    ensures Live(env, bucket, Uninterrupted(listing, ids, rs)).listing == listing
  {
    var steps := Uninterrupted(listing, ids, rs).steps;
    ListingStays(env, Boot(bucket, ids), steps, |steps|);
  }

  lemma {:induction false} ListingStays(env: Env, w: World, steps: seq<Step>, n: nat)
    requires 0 < n <= |steps| && !w.loaded && steps[0].Load? && Covers(steps[0].listing, w.store.bucket)
    ensures RunFrom(env, w, steps[..n]).loaded && RunFrom(env, w, steps[..n]).listing == steps[0].listing
    ensures steps[..|steps|] == steps
  {
    assert steps[..n][..n - 1] == steps[..n - 1];
    if n > 1 {
      ListingStays(env, w, steps, n - 1);
    }
  }

  /** The steps of a run without the polls it held. */
  function Unheld(env: Env, w: World, steps: seq<Step>): seq<Step> {
    if steps == [] then []
    else
      var n := |steps| - 1;
      var held := steps[n].Poll? && Held(RunFrom(env, w, steps[..n]).engine, steps[n].reading.base.deviceId);
      Unheld(env, w, steps[..n]) + if held then [] else [steps[n]]
  }

  /** Polls of a device not yet seeded are as if never taken: a run ends, to the
      last detail, where the same run without them ends. */
  lemma {:induction false} HeldPollsAreNeverTaken(env: Env, w: World, steps: seq<Step>)
    ensures RunFrom(env, w, Unheld(env, w, steps)) == RunFrom(env, w, steps)
  {
    if steps != [] {
      var n := |steps| - 1;
      var kept := Unheld(env, w, steps[..n]);
      HeldPollsAreNeverTaken(env, w, steps[..n]);
      if Unheld(env, w, steps) == kept + [steps[n]] {
        assert (kept + [steps[n]])[..|kept|] == kept;
      } else {
        assert Unheld(env, w, steps) == kept;
      }
    }
  }

  /** A bucket in the program's own spelling stays so, and so gives every
      (device, kind) of every life of a chain its own key only. */
  lemma {:induction false} LifeKeepsCanonical(env: Env, bucket: map<string, Bytes>, ids: seq<DeviceId>,
                                              steps: seq<Step>)
    requires forall kk :: kk in bucket ==> KeyCodec.Canonical(kk)
    ensures var after := RunFrom(env, Boot(bucket, ids), steps).store.bucket;
            (forall kk :: kk in after ==> KeyCodec.Canonical(kk)) && forall d, k :: Own(env, after, d, k)
  {
    LifeKeepsOthers(env, bucket, ids, steps);
    var after := RunFrom(env, Boot(bucket, ids), steps).store.bucket;
    forall kk | kk in after ensures KeyCodec.Canonical(kk) {
      assert !KeyCodec.Canonical(kk) ==> Lookup(after, kk) == Lookup(bucket, kk);
    }
    forall d, k ensures Own(env, after, d, k) {
      CanonicalMeansOwnKeys(env.reg, env.codec, after, d, k);
    }
  }
}
