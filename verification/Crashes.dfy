/** Lives that end anywhere, and what a consumer of the events makes of restarts:
    after clean ends it never notices; after a crash the next life resumes from an
    earlier memory, and the exact cost of that is stated
    (internal/durable/durable.go, internal/synth/synth.go). */
module Crashes {
  import opened Prelude
  import opened Model
  import opened Synth
  import opened Restart
  import Durable
  import FaultDiffer
  import IncidentDiffer
  import KeyCodec
  import Streams

  // ---- Replay over a chain of clean lives ----

  function FaultIds(c: Cell): set<string> {
    FaultDiffer.Before(c.prev).Keys
  }

  function Active(c: Cell): map<string, IncidentDiffer.Assessment> {
    IncidentDiffer.View(IncidentDiffer.Before(c.prev))
  }

  /** Over any number of restarts, replaying a device's raises and clears over the
      faults first stored gives the faults last stored, each raised and cleared in turn. */
  lemma {:induction false} FaultsSurviveRestarts(env: Env, bucket: map<string, Bytes>, lives: seq<Life>, d: DeviceId)
    requires Faithful(env) && "fault-set" in env.reg && Streams.DiffsFaults(env.reg["fault-set"])
    requires !env.reg["fault-set"].volatile && AllDistinct(lives) && Own(env, bucket, d, "fault-set")
    requires RunLives(env, bucket, lives).clean
    ensures var chain := RunLives(env, bucket, lives);
            var was, events := FaultIds(StoredCell(env, bucket, d, "fault-set")), EventsOf(chain.out, d, "fault-set");
            FaultDiffer.Fold(was, events) == FaultIds(StoredCell(env, chain.bucket, d, "fault-set")) &&
            FaultDiffer.Lifecycle(was, events)
  {
    LivesFold(env, bucket, lives, d, "fault-set");
    Streams.FaultFold(env.reg["fault-set"], StoredCell(env, bucket, d, "fault-set"),
                      GoodOf(env.reg, RunLives(env, bucket, lives).seen, d, "fault-set"));
  }

  /** The same for incidents and their assessments. */
  lemma {:induction false} IncidentsSurviveRestarts(env: Env, bucket: map<string, Bytes>, lives: seq<Life>, d: DeviceId)
    requires Faithful(env) && "zone-incidents" in env.reg && Streams.DiffsIncidents(env.reg["zone-incidents"])
    requires !env.reg["zone-incidents"].volatile && AllDistinct(lives) && Own(env, bucket, d, "zone-incidents")
    requires RunLives(env, bucket, lives).clean
    ensures var chain := RunLives(env, bucket, lives);
            var was, events := Active(StoredCell(env, bucket, d, "zone-incidents")),
                               EventsOf(chain.out, d, "zone-incidents");
            IncidentDiffer.Fold(was, events) == Active(StoredCell(env, chain.bucket, d, "zone-incidents")) &&
            IncidentDiffer.Lifecycle(was, events)
  {
    LivesFold(env, bucket, lives, d, "zone-incidents");
    Streams.IncidentFold(env.reg["zone-incidents"], StoredCell(env, bucket, d, "zone-incidents"),
                         GoodOf(env.reg, RunLives(env, bucket, lives).seen, d, "zone-incidents"));
  }

  // ---- Lives that crash ----

  /** How many of a life's good readings of a (device, kind) its bucket has caught up with. */
  function CaughtUp(env: Env, bucket: map<string, Bytes>, w: World, d: DeviceId, k: Kind): nat {
    if w.loaded then Durable.Track(AtLoad(env, bucket), w.moves, KeyCodec.Key(d, k)).bucketAt else 0
  }

  /** The readings that survive in the bucket, and those lost from it. */
  function Survivors(env: Env, bucket: map<string, Bytes>, w: World, d: DeviceId, k: Kind): seq<Reading> {
    var good, n := GoodOf(env.reg, w.seen, d, k), CaughtUp(env, bucket, w, d, k);
    if n <= |good| then good[..n] else good
  }

  function Lost(env: Env, bucket: map<string, Bytes>, w: World, d: DeviceId, k: Kind): seq<Reading> {
    var good, n := GoodOf(env.reg, w.seen, d, k), CaughtUp(env, bucket, w, d, k);
    if n <= |good| then good[n..] else []
  }

  /** A chain of lives, each stopped anywhere: the bucket left, the readings it
      remembers, the events emitted, and the events the remembered readings and then
      each life's own readings call for. */
  datatype Past = Past(bucket: map<string, Bytes>, kept: seq<Reading>, out: seq<Emitted>, due: seq<Event>)

  function RunCrashes(env: Env, bucket: map<string, Bytes>, lives: seq<Life>, d: DeviceId, k: Kind): Past
    requires k in env.reg
  {
    if lives == [] then Past(bucket, [], [], [])
    else
      var n := |lives| - 1;
      var past := RunCrashes(env, bucket, lives[..n], d, k);
      var w := Live(env, past.bucket, lives[n]);
      var from := Fold(env.reg[k], StoredCell(env, bucket, d, k), past.kept).0;
      Past(w.store.bucket, past.kept + Survivors(env, past.bucket, w, d, k), past.out + w.out,
           past.due + Fold(env.reg[k], from, GoodOf(env.reg, w.seen, d, k)).1)
  }

  lemma {:induction false} LifeSplits(env: Env, bucket: map<string, Bytes>, life: Life, d: DeviceId, k: Kind)
    requires Faithful(env) && k in env.reg && !env.reg[k].volatile && Distinct(life.ids) && Own(env, bucket, d, k)
    ensures var w := Live(env, bucket, life);
            GoodOf(env.reg, w.seen, d, k) == Survivors(env, bucket, w, d, k) + Lost(env, bucket, w, d, k) &&
            Own(env, w.store.bucket, d, k) &&
            StoredCell(env, w.store.bucket, d, k) ==
            Fold(env.reg[k], StoredCell(env, bucket, d, k), Survivors(env, bucket, w, d, k)).0
  {
    var n := CrashRestoresAnObservedState(env, bucket, life, d, k);
    var good := GoodOf(env.reg, Live(env, bucket, life).seen, d, k);
    assert good == good[..n] + good[n..];
  }

  /** Lives that crash lose memory and nothing else: after any chain of them the
      bucket holds the memory of the surviving readings, and what the chain has
      emitted is, life by life, what a collector that had taken only the survivors
      so far would emit for that life's readings. */
  lemma {:induction false} CrashesOnlyForget(env: Env, bucket: map<string, Bytes>, lives: seq<Life>, d: DeviceId,
                                             k: Kind)
    requires Faithful(env) && k in env.reg && !env.reg[k].volatile && AllDistinct(lives) && Own(env, bucket, d, k)
    ensures var past := RunCrashes(env, bucket, lives, d, k);
            Own(env, past.bucket, d, k) &&
            StoredCell(env, past.bucket, d, k) == Fold(env.reg[k], StoredCell(env, bucket, d, k), past.kept).0 &&
            EventsOf(past.out, d, k) == past.due
  {
    if lives != [] {
      var n := |lives| - 1;
      CrashesOnlyForget(env, bucket, lives[..n], d, k);
      var past := RunCrashes(env, bucket, lives[..n], d, k);
      var w := Live(env, past.bucket, lives[n]);
      LifeSplits(env, past.bucket, lives[n], d, k);
      LifeEvents(env, past.bucket, lives[n], d, k);
      FoldConcat(env.reg[k], StoredCell(env, bucket, d, k), past.kept, Survivors(env, past.bucket, w, d, k));
      EventsOfConcat(past.out, w.out, d, k);
    }
  }

  /** What a crash repeats: the events of a life end with those of its lost readings,
      taken from the memory the next life starts with. */
  lemma {:induction false} LostReadingsAreReplayed(env: Env, bucket: map<string, Bytes>, life: Life, next: Life,
                                                   d: DeviceId, k: Kind)
    requires Faithful(env) && k in env.reg && !env.reg[k].volatile && Own(env, bucket, d, k)
    requires Distinct(life.ids) && Distinct(next.ids)
    ensures var w := Live(env, bucket, life);
            var w' := Live(env, w.store.bucket, next);
            var lost, again := Lost(env, bucket, w, d, k), GoodOf(env.reg, w'.seen, d, k);
            var from := StoredCell(env, w.store.bucket, d, k);
            EventsOf(w.out, d, k) ==
            Fold(env.reg[k], StoredCell(env, bucket, d, k), Survivors(env, bucket, w, d, k)).1 +
            Fold(env.reg[k], from, lost).1 &&
            EventsOf(w'.out, d, k) == Fold(env.reg[k], from, again).1
  {
    var w := Live(env, bucket, life);
    LifeSplits(env, bucket, life, d, k);
    LifeEvents(env, bucket, life, d, k);
    LifeEvents(env, w.store.bucket, next, d, k);
    FoldConcat(env.reg[k], StoredCell(env, bucket, d, k), Survivors(env, bucket, w, d, k), Lost(env, bucket, w, d, k));
  }

  /** So a next life whose first good polls find what the lost ones found, at whatever
      times, begins by emitting again, up to their times, exactly the events of the
      lost readings. */
  lemma {:induction false} LostFacetsAreReplayed(env: Env, bucket: map<string, Bytes>, life: Life, next: Life,
                                                 d: DeviceId, k: Kind)
    requires Faithful(env) && k in env.reg && !env.reg[k].volatile && Own(env, bucket, d, k)
    requires Distinct(life.ids) && Distinct(next.ids) && Streams.TimeBlind(env.reg[k])
    ensures var w := Live(env, bucket, life);
            var w' := Live(env, w.store.bucket, next);
            var kept, lost := Survivors(env, bucket, w, d, k), Lost(env, bucket, w, d, k);
            var again := GoodOf(env.reg, w'.seen, d, k);
            var early := Fold(env.reg[k], StoredCell(env, bucket, d, k), kept).1;
            |early| <= |EventsOf(w.out, d, k)| &&
            (|lost| <= |again| && Streams.SameFacets(again[..|lost|], lost) ==>
               AllUnstamped(EventsOf(w.out, d, k)[|early|..]) <= AllUnstamped(EventsOf(w'.out, d, k)))
  {
    LostReadingsAreReplayed(env, bucket, life, next, d, k);
    var w := Live(env, bucket, life);
    var w' := Live(env, w.store.bucket, next);
    var lost, again := Lost(env, bucket, w, d, k), GoodOf(env.reg, w'.seen, d, k);
    var from := StoredCell(env, w.store.bucket, d, k);
    var early := Fold(env.reg[k], StoredCell(env, bucket, d, k), Survivors(env, bucket, w, d, k)).1;
    assert EventsOf(w.out, d, k)[|early|..] == Fold(env.reg[k], from, lost).1;
    if |lost| <= |again| && Streams.SameFacets(again[..|lost|], lost) {
      FoldReplays(env.reg[k], from, lost, again);
    }
  }

  lemma {:induction false} FoldReplays(df: Differ, c: Cell, lost: seq<Reading>, again: seq<Reading>)
    requires Streams.TimeBlind(df) && |lost| <= |again| && Streams.SameFacets(again[..|lost|], lost)
    ensures AllUnstamped(Fold(df, c, lost).1) <= AllUnstamped(Fold(df, c, again).1)
  {
    var head, tail := again[..|lost|], again[|lost|..];
    assert again == head + tail;
    FoldConcat(df, c, head, tail);
    Streams.FoldIsTimeBlind(df, c, head, lost);
    var (c1, early) := Fold(df, c, head);
    UnstampedConcat(early, Fold(df, c1, tail).1);
  }

  /** Exactly when a fault consumer that followed a life to its crash is right again
      after the next life's first good poll: for each fault of which the consumer and
      the bucket disagree, the device must now agree with the consumer. A fault raised
      in the lost readings and cleared while the collector was down stays standing. */
  lemma {:induction false} FaultConsumerAfterCrash(env: Env, bucket: map<string, Bytes>, life: Life, next: Life,
                                                   r: Reading, d: DeviceId)
    requires Faithful(env) && "fault-set" in env.reg && Streams.DiffsFaults(env.reg["fault-set"])
    requires !env.reg["fault-set"].volatile && Own(env, bucket, d, "fault-set")
    requires Distinct(life.ids) && Distinct(next.ids)
    requires GoodOf(env.reg, Live(env, Live(env, bucket, life).store.bucket, next).seen, d, "fault-set") == [r]
    ensures var k := "fault-set";
            var w := Live(env, bucket, life);
            var events := EventsOf(Live(env, w.store.bucket, next).out, d, k);
            var standing := FaultDiffer.Fold(FaultIds(StoredCell(env, bucket, d, k)), EventsOf(w.out, d, k));
            var stored, now := FaultIds(StoredCell(env, w.store.bucket, d, k)), FaultDiffer.Before(Some(r.facet)).Keys;
            FaultDiffer.Fold(standing, events) == now <==> FaultDiffer.SidesWith(now, standing, stored)
  {
    var w := Live(env, bucket, life);
    LifeKeepsOwn(env, bucket, life, d, "fault-set");
    FirstPollEmits(env, w.store.bucket, next, r, d);
    FaultDiffer.ResyncsExactlyWhen(
      FaultDiffer.Fold(FaultIds(StoredCell(env, bucket, d, "fault-set")), EventsOf(w.out, d, "fault-set")),
      StoredCell(env, w.store.bucket, d, "fault-set").prev, r.facet, r.base);
  }

  lemma {:induction false} FirstPollEmits(env: Env, bucket: map<string, Bytes>, life: Life, r: Reading, d: DeviceId)
    requires Faithful(env) && "fault-set" in env.reg && Streams.DiffsFaults(env.reg["fault-set"])
    requires !env.reg["fault-set"].volatile && Own(env, bucket, d, "fault-set") && Distinct(life.ids)
    requires GoodOf(env.reg, Live(env, bucket, life).seen, d, "fault-set") == [r]
    ensures EventsOf(Live(env, bucket, life).out, d, "fault-set") ==
            FaultDiffer.Diff(StoredCell(env, bucket, d, "fault-set").prev, r.facet, r.base)
  {
    var from := StoredCell(env, bucket, d, "fault-set");
    LifeEvents(env, bucket, life, d, "fault-set");
    FoldNext(env.reg["fault-set"], from, [], r);
    assert [] + [r] == [r];
    assert [] + FaultDiffer.Diff(from.prev, r.facet, r.base) == FaultDiffer.Diff(from.prev, r.facet, r.base);
  }

  /** The same for incidents: for each incident of which the consumer and the bucket
      disagree, the poll must differ from the bucket. */
  lemma {:induction false} IncidentConsumerAfterCrash(env: Env, bucket: map<string, Bytes>, life: Life, next: Life,
                                                      r: Reading, d: DeviceId)
    requires Faithful(env) && "zone-incidents" in env.reg && Streams.DiffsIncidents(env.reg["zone-incidents"])
    requires !env.reg["zone-incidents"].volatile && Own(env, bucket, d, "zone-incidents")
    requires Distinct(life.ids) && Distinct(next.ids)
    requires GoodOf(env.reg, Live(env, Live(env, bucket, life).store.bucket, next).seen, d, "zone-incidents") == [r]
    ensures var k := "zone-incidents";
            var w := Live(env, bucket, life);
            var events := EventsOf(Live(env, w.store.bucket, next).out, d, k);
            var active := IncidentDiffer.Fold(Active(StoredCell(env, bucket, d, k)), EventsOf(w.out, d, k));
            var stored, now := Active(StoredCell(env, w.store.bucket, d, k)), Active(Cell(Some(r.facet), None));
            IncidentDiffer.Fold(active, events) == now <==> IncidentDiffer.Reports(now, active, stored)
  {
    var w := Live(env, bucket, life);
    LifeKeepsOwn(env, bucket, life, d, "zone-incidents");
    FirstIncidentPollEmits(env, w.store.bucket, next, r, d);
    IncidentDiffer.ResyncsExactlyWhen(
      IncidentDiffer.Fold(Active(StoredCell(env, bucket, d, "zone-incidents")), EventsOf(w.out, d, "zone-incidents")),
      StoredCell(env, w.store.bucket, d, "zone-incidents").prev, r.facet, r.base);
  }

  lemma {:induction false} FirstIncidentPollEmits(env: Env, bucket: map<string, Bytes>, life: Life, r: Reading,
                                                  d: DeviceId)
    requires Faithful(env) && "zone-incidents" in env.reg && Streams.DiffsIncidents(env.reg["zone-incidents"])
    requires !env.reg["zone-incidents"].volatile && Own(env, bucket, d, "zone-incidents") && Distinct(life.ids)
    requires GoodOf(env.reg, Live(env, bucket, life).seen, d, "zone-incidents") == [r]
    ensures EventsOf(Live(env, bucket, life).out, d, "zone-incidents") ==
            IncidentDiffer.Diff(StoredCell(env, bucket, d, "zone-incidents").prev, r.facet, r.base)
  {
    var from := StoredCell(env, bucket, d, "zone-incidents");
    LifeEvents(env, bucket, life, d, "zone-incidents");
    FoldNext(env.reg["zone-incidents"], from, [], r);
    assert [] + [r] == [r];
    assert [] + IncidentDiffer.Diff(from.prev, r.facet, r.base) == IncidentDiffer.Diff(from.prev, r.facet, r.base);
  }
}
