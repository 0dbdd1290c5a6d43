/** Snapshots and readings: a poll handed to the engine, with its change hook recording
    what is remembered, is the life's polls of its readings one by one
    (internal/synth/synth.go, internal/durable/durable.go). */
module Polling {
  import opened Prelude
  import opened Model
  import opened Synth
  import opened Loading
  import opened Restart
  import Durable
  import DurableState
  import KeyCodec

  /** The change hook of one remembered facet. */
  function RecordOne(codec: Codec, c: Durable.Cache, change: Change): Durable.Cache {
    var raw := codec.marshal(change.facet);
    if raw.None? then c else Durable.Record(c, KeyCodec.Key(change.device, change.facet.Kind()), raw.value)
  }

  function RecordAll(codec: Codec, c: Durable.Cache, changes: seq<Change>): Durable.Cache {
    if changes == [] then c
    else RecordOne(codec, RecordAll(codec, c, changes[..|changes| - 1]), changes[|changes| - 1])
  }

  /** `Engine.Apply` with the durable state as its change hook. The hook runs inside
      `Apply`, under the engine's lock, and touches nothing the engine reads. */
  method ApplyAndRecord(engine: Synth.Engine, state: DurableState.State, snap: Snapshot)
    returns (events: seq<Emitted>)
    modifies engine`prev, engine`last, state`pending
    ensures (engine.View(), events) == ApplySnapshot(engine.reg, old(engine.View()), snap)
    ensures state.View(map[]) ==
            RecordAll(state.codec, old(state.View(map[])),
                      if Held(old(engine.View()), snap.base.deviceId) then [] else Changes(engine.reg, Readings(snap)))
  {
    var found, changes, rejected := engine.Apply(snap);
    events := found;
    ghost var applied := engine.View();
    for i := 0 to |changes|
      invariant state.View(map[]) == RecordAll(state.codec, old(state.View(map[])), changes[..i])
      invariant engine.View() == applied
    {
      assert changes[..i + 1][..i] == changes[..i];
      state.Record(changes[i].device, changes[i].facet);
    }
    assert changes[..|changes|] == changes;
  }

  /** A seeded device has a memory, however little is in it. */
  lemma {:induction false} SeededIsRemembered(env: Env, bucket: map<string, Bytes>, ids: seq<DeviceId>,
                                              steps: seq<Step>)
    ensures var s := RunFrom(env, Boot(bucket, ids), steps).engine;
            s.hold && forall d :: d in s.seeded ==> d in s.prev
  {
    if steps != [] {
      var n := |steps| - 1;
      SeededIsRemembered(env, bucket, ids, steps[..n]);
      StepRemembers(env, RunFrom(env, Boot(bucket, ids), steps[..n]), steps[n]);
    }
  }

  lemma {:induction false} StepRemembers(env: Env, w: World, step: Step)
    requires w.engine.hold && forall d :: d in w.engine.seeded ==> d in w.engine.prev
    ensures var s := Next(env, w, step).engine;
            s.hold && forall d :: d in s.seeded ==> d in s.prev
  {
    match step
    case Poll(r) =>
    case Load(listing) =>
    case Seed =>
    case Take =>
    case Put(k, o) =>
  }

  lemma {:induction false} ReadingPolls(env: Env, w: World, r: Reading)
    requires Faithful(env) && !Held(w.engine, r.base.deviceId)
    ensures var w' := Polled(env, w, r);
            var (s, events) := Observe(env.reg, w.engine, r);
            w'.engine == s && w'.out == w.out + events && w'.seen == w.seen + [r] &&
            w'.store.bucket == w.store.bucket &&
            w'.store.cache ==
            if Good(env.reg, r) && !env.reg[r.facet.Kind()].volatile
            then RecordOne(env.codec, w.store.cache, Change(r.base.deviceId, r.facet))
            else w.store.cache
  {
    if Good(env.reg, r) && !env.reg[r.facet.Kind()].volatile {
      assert DurableFacet(env, r.facet);
    }
  }

  /** What some of a snapshot's readings come to, read one by one. */
  ghost predicate Came(env: Env, w: World, w': World, rs: seq<Reading>) {
    var (s, out) := Run(env.reg, w.engine, rs);
    w'.engine == s && w'.out == w.out + out && w'.seen == w.seen + rs &&
    w'.store == Durable.Store(RecordAll(env.codec, w.store.cache, Changes(env.reg, rs)), w.store.bucket)
  }

  lemma {:induction false} RecordsNext(env: Env, c: Durable.Cache, rs: seq<Reading>, r: Reading)
    ensures RecordAll(env.codec, c, Changes(env.reg, rs + [r])) ==
            if Good(env.reg, r) && !env.reg[r.facet.Kind()].volatile
            then RecordOne(env.codec, RecordAll(env.codec, c, Changes(env.reg, rs)), Change(r.base.deviceId, r.facet))
            else RecordAll(env.codec, c, Changes(env.reg, rs))
  {
    assert (rs + [r])[..|rs|] == rs;
    var changes, change := Changes(env.reg, rs), Change(r.base.deviceId, r.facet);
    if Good(env.reg, r) && !env.reg[r.facet.Kind()].volatile {
      assert (changes + [change])[..|changes|] == changes;
    } else {
      assert changes + [] == changes;
    }
  }

  lemma {:induction false} RunSnoc(reg: Registry, s: Synth.State, rs: seq<Reading>, r: Reading)
    ensures var (s1, out1) := Run(reg, s, rs);
            var (s2, out2) := Observe(reg, s1, r);
            Run(reg, s, rs + [r]) == (s2, out1 + out2)
  {
    assert (rs + [r])[..|rs|] == rs;
  }

  lemma {:induction false} CameNext(env: Env, w: World, w': World, rs: seq<Reading>, r: Reading)
    requires Faithful(env) && Came(env, w, w', rs) && !Held(w'.engine, r.base.deviceId)
    ensures Came(env, w, Polled(env, w', r), rs + [r])
  {
    var (s, out) := Run(env.reg, w.engine, rs);
    var (s1, events) := Observe(env.reg, s, r);
    RunSnoc(env.reg, w.engine, rs, r);
    ReadingPolls(env, w', r);
    RecordsNext(env, w.store.cache, rs, r);
    ThreeConcat(w.out, out, events);
    assert (w.seen + rs) + [r] == w.seen + (rs + [r]);
  }

  lemma {:induction false} ThreeConcat(a: seq<Emitted>, b: seq<Emitted>, c: seq<Emitted>)
    ensures (a + b) + c == a + (b + c)
  {
  }

  lemma {:induction false} ReadingsCome(env: Env, w: World, rs: seq<Reading>, d: DeviceId)
    requires Faithful(env) && !Held(w.engine, d) && forall r :: r in rs ==> r.base.deviceId == d
    ensures Came(env, w, RunFrom(env, w, Polls(rs)), rs)
    ensures !Held(RunFrom(env, w, Polls(rs)).engine, d)
  {
    if rs == [] {
      assert w.out + [] == w.out && w.seen + [] == w.seen;
    } else {
      var n := |rs| - 1;
      assert Polls(rs)[..n] == Polls(rs[..n]) && Polls(rs)[n] == Poll(rs[n]);
      ReadingsCome(env, w, rs[..n], d);
      CameNext(env, w, RunFrom(env, w, Polls(rs[..n])), rs[..n], rs[n]);
      assert rs == rs[..n] + [rs[n]];
    }
  }

  lemma {:induction false} HeldReadingsDoNothing(env: Env, w: World, rs: seq<Reading>, d: DeviceId)
    requires Held(w.engine, d) && forall r :: r in rs ==> r.base.deviceId == d
    ensures RunFrom(env, w, Polls(rs)) == w
  {
    if rs != [] {
      var n := |rs| - 1;
      assert Polls(rs)[..n] == Polls(rs[..n]) && Polls(rs)[n] == Poll(rs[n]);
      HeldReadingsDoNothing(env, w, rs[..n], d);
    }
  }

  /** At any moment of any life, handing a snapshot to `Apply`, with what it tells the
      change hook recorded, takes the life where polling its readings one by one takes
      it; so what is proved of lives of readings holds of the polls runners make. */
  lemma {:induction false} SnapshotIsItsReadings(env: Env, bucket: map<string, Bytes>, life: Life, snap: Snapshot)
    requires Faithful(env)
    ensures var w := Live(env, bucket, life);
            var w' := RunFrom(env, w, Polls(Readings(snap)));
            var (s, out) := ApplySnapshot(env.reg, w.engine, snap);
            var changes := if Held(w.engine, snap.base.deviceId) then [] else Changes(env.reg, Readings(snap));
            w'.engine == s && w'.out == w.out + out &&
            w'.store == Durable.Store(RecordAll(env.codec, w.store.cache, changes), w.store.bucket)
  {
    var w, d := Live(env, bucket, life), snap.base.deviceId;
    SeededIsRemembered(env, bucket, life.ids, life.steps);
    if Held(w.engine, d) {
      HeldReadingsDoNothing(env, w, Readings(snap), d);
      assert w.out + [] == w.out;
    } else {
      ReadingsCome(env, w, Readings(snap), d);
      assert w.engine.prev[d := w.engine.prev[d]] == w.engine.prev;
      assert Touch(w.engine, d) == w.engine;
    }
  }
}
