/** Exactly when restarts are invisible. A bucket can hold a second usable entry for
    a (device, kind), under a spelling of its key that the program never writes and
    so never corrects; load may then seed from it at every boot
    (internal/durable/durable.go). */
module SecondEntries {
  import opened Prelude
  import opened Model
  import opened Synth
  import opened Loading
  import opened Restart
  import Durable
  import FaultDiffer
  import IncidentDiffer
  import KeyCodec
  import Streams

  // ---- A life of one poll ----

  /** Boot, poll once, and write back what was recorded. */
  function OnePoll(listing: seq<string>, r: Reading): Life {
    Life([r.base.deviceId],
         [Load(listing), Seed, Poll(r), Take, Put(KeyCodec.Key(r.base.deviceId, r.facet.Kind()), Durable.Stored)])
  }

  /** The world in which `OnePoll` polls. */
  function Seeded(env: Env, bucket: map<string, Bytes>, listing: seq<string>, d: DeviceId): World {
    Next(env, Next(env, Boot(bucket, [d]), Load(listing)), Seed)
  }

  lemma {:induction false} SeededIsReady(env: Env, bucket: map<string, Bytes>, listing: seq<string>, d: DeviceId)
    requires Covers(listing, bucket)
    ensures var w := Seeded(env, bucket, listing, d);
            w.loaded && w.toSeed == [] && w.listing == listing && w.seen == [] && d in w.engine.seeded &&
            w.store == AtLoad(env, bucket) && Clean(w)
  {
    var w1 := Next(env, Boot(bucket, [d]), Load(listing));
    assert w1.toSeed == [d] && w1.loaded;
    assert w1.toSeed[1..] == [];
  }

  lemma {:induction false} PollTakePut(env: Env, w: World, r: Reading)
    requires Faithful(env) && Good(env.reg, r) && DurableFacet(env, r.facet)
    requires w.loaded && w.toSeed == [] && r.base.deviceId in w.engine.seeded && Clean(w)
    ensures var kk := KeyCodec.Key(r.base.deviceId, r.facet.Kind());
            var w' := Next(env, Next(env, Next(env, w, Poll(r)), Take), Put(kk, Durable.Stored));
            w'.seen == w.seen + [r] && w'.listing == w.listing && w'.loaded && Clean(w')
  {
    var kk := KeyCodec.Key(r.base.deviceId, r.facet.Kind());
    PolledMoves(env, w, r);
    RecordTakePut(w.store, kk, Raw(env, r.facet));
  }

  lemma {:induction false} RecordTakePut(s: Durable.Store, kk: string, raw: Bytes)
    requires s.cache.pending == map[] && s.cache.batch == map[]
    ensures var s1 := Durable.Next(s, Durable.Recorded(kk, raw));
            var s3 := Durable.Next(Durable.Next(s1, Durable.Took), Durable.Put(kk, Durable.Stored));
            s3.cache.pending == map[] && s3.cache.batch == map[]
  {
    var s1 := Durable.Next(s, Durable.Recorded(kk, raw));
    assert s1.cache.pending.Keys <= {kk};
    var s2 := Durable.Next(s1, Durable.Took);
    assert s2.cache.batch.Keys == s1.cache.pending.Keys;
    var s3 := Durable.Next(s2, Durable.Put(kk, Durable.Stored));
    assert kk !in s3.cache.batch && s3.cache.batch.Keys <= {kk};
    assert s3.cache.batch == map[];
  }

  lemma {:induction false} OnePollRuns(env: Env, bucket: map<string, Bytes>, listing: seq<string>, r: Reading)
    requires Faithful(env) && Good(env.reg, r) && DurableFacet(env, r.facet) && Covers(listing, bucket)
    ensures var w := Live(env, bucket, OnePoll(listing, r));
            w.seen == [r] && w.listing == listing && w.loaded && Clean(w)
  {
    var d := r.base.deviceId;
    var put := Put(KeyCodec.Key(d, r.facet.Kind()), Durable.Stored);
    SeededIsReady(env, bucket, listing, d);
    PollTakePut(env, Seeded(env, bucket, listing, d), r);
    RunFromFive(env, Boot(bucket, [d]), Load(listing), Seed, Poll(r), Take, put);
  }

  lemma {:induction false} RunFromFive(env: Env, w: World, a: Step, b: Step, c: Step, d: Step, e: Step)
    ensures RunFrom(env, w, [a, b, c, d, e]) ==
            Next(env, Next(env, Next(env, Next(env, Next(env, w, a), b), c), d), e)
  {
    assert [a][..0] == [];
    assert RunFrom(env, w, [a]) == Next(env, w, a);
    assert [a, b][..1] == [a];
    assert RunFrom(env, w, [a, b]) == Next(env, RunFrom(env, w, [a]), b);
    assert [a, b, c][..2] == [a, b];
    assert RunFrom(env, w, [a, b, c]) == Next(env, RunFrom(env, w, [a, b]), c);
    assert [a, b, c, d][..3] == [a, b, c];
    assert RunFrom(env, w, [a, b, c, d]) == Next(env, RunFrom(env, w, [a, b, c]), d);
    assert [a, b, c, d, e][..4] == [a, b, c, d];
  }

  // ---- What a second entry does ----

  /** What the poll of a facet emits when `prev` is remembered. */
  function Emits(env: Env, prev: Facet, r: Reading): seq<Event>
    requires r.facet.Kind() in env.reg
  {
    env.reg[r.facet.Kind()].diff(Some(prev), None, r.facet, r.base)
  }

  lemma {:induction false} FoldOfTwo(df: Differ, prev: Facet, r: Reading)
    requires !df.stateful
    ensures Fold(df, Cell(Some(prev), None), [r]).1 == df.diff(Some(prev), None, r.facet, r.base)
    ensures Fold(df, Cell(Some(prev), None), [r, r]).1 ==
            df.diff(Some(prev), None, r.facet, r.base) + df.diff(Some(r.facet), None, r.facet, r.base)
  {
    var c := Cell(Some(prev), None);
    FoldNext(df, c, [], r);
    assert [] + [r] == [r];
    FoldNext(df, c, [r], r);
    assert [r] + [r] == [r, r];
    assert [] + df.diff(Some(prev), None, r.facet, r.base) == df.diff(Some(prev), None, r.facet, r.base);
  }

  lemma {:induction false} GoodOfTwo(reg: Registry, r: Reading, d: DeviceId, k: Kind)
    requires Good(reg, r) && Concerns(r, d, k)
    ensures GoodOf(reg, [r], d, k) == [r] && GoodOf(reg, [r, r], d, k) == [r, r]
  {
    GoodOfNext(reg, [], r, d, k);
    assert [] + [r] == [r];
    GoodOfNext(reg, [r], r, d, k);
    assert [r] + [r] == [r, r];
  }

  lemma {:induction false} BootsFromLast(env: Env, bucket: map<string, Bytes>, listing: seq<string>, kk: string,
                                         d: DeviceId, k: Kind)
    requires listing != [] && listing[|listing| - 1] == kk && FacetAt(env.reg, env.codec, bucket, kk, d, k).Some?
    ensures BootCell(env, bucket, listing, d, k) == Cell(FacetAt(env.reg, env.codec, bucket, kk, d, k), None)
  {
  }

  /** A life of one poll that lists the second entry last emits the change from it. */
  lemma {:induction false} OnePollFromSecond(env: Env, bucket: map<string, Bytes>, listing: seq<string>, kk: string,
                                             r: Reading)
    requires Faithful(env) && Good(env.reg, r) && DurableFacet(env, r.facet)
    requires Covers(listing, bucket) && listing != [] && listing[|listing| - 1] == kk
    requires FacetAt(env.reg, env.codec, bucket, kk, r.base.deviceId, r.facet.Kind()).Some?
    requires !KeyCodec.Canonical(kk)
    ensures var w := Live(env, bucket, OnePoll(listing, r));
            var d, k := r.base.deviceId, r.facet.Kind();
            var second := FacetAt(env.reg, env.codec, bucket, kk, d, k);
            w.seen == [r] && Clean(w) && EventsOf(w.out, d, k) == Emits(env, second.value, r) &&
            FacetAt(env.reg, env.codec, w.store.bucket, kk, d, k) == second && kk in w.store.bucket
  {
    var d, k := r.base.deviceId, r.facet.Kind();
    var life := OnePoll(listing, r);
    OnePollRuns(env, bucket, listing, r);
    LifeEventsFromLoad(env, bucket, life, d, k);
    GoodOfTwo(env.reg, r, d, k);
    BootsFromLast(env, bucket, listing, kk, d, k);
    FoldOfTwo(env.reg[k], FacetAt(env.reg, env.codec, bucket, kk, d, k).value, r);
    SecondStays(env, bucket, life, kk, d, k);
  }

  lemma {:induction false} SecondStays(env: Env, bucket: map<string, Bytes>, life: Life, kk: string, d: DeviceId,
                                       k: Kind)
    requires kk in bucket && !KeyCodec.Canonical(kk)
    ensures var after := Live(env, bucket, life).store.bucket;
            kk in after && FacetAt(env.reg, env.codec, after, kk, d, k) == FacetAt(env.reg, env.codec, bucket, kk, d, k)
  {
    LifeKeepsOthers(env, bucket, life.ids, life.steps);
    assert Lookup(Live(env, bucket, life).store.bucket, kk) == Lookup(bucket, kk);
  }

  lemma {:induction false} TwoLives(env: Env, bucket: map<string, Bytes>, a: Life, b: Life)
    ensures var w1 := Live(env, bucket, a);
            var w2 := Live(env, w1.store.bucket, b);
            RunLives(env, bucket, [a, b]) ==
            Chain(w2.store.bucket, w1.seen + w2.seen, w1.out + w2.out, Clean(w1) && Clean(w2))
  {
    var w1 := Live(env, bucket, a);
    assert [a][..0] == [];
    assert [] + w1.seen == w1.seen && [] + w1.out == w1.out;
    assert RunLives(env, bucket, [a]) == Chain(w1.store.bucket, w1.seen, w1.out, Clean(w1));
    assert [a, b][..1] == [a];
  }

  lemma {:induction false} SecondIsNotCanonical(d: DeviceId, k: Kind, kk: string)
    requires KeyCodec.ParseKey(kk) == Some(KeyCodec.Entry(d, k)) && kk != KeyCodec.Key(d, k)
    ensures !KeyCodec.Canonical(kk)
  {
  }

  /** A second usable entry shows: two lives that poll the same facet, flushed clean,
      both emit the change from it, while one life that polls it twice emits that
      change once. */
  lemma {:induction false} SecondEntryReplays(env: Env, bucket: map<string, Bytes>, kk: string, r: Reading)
    returns (lives: seq<Life>, whole: Life)
    requires Faithful(env) && Good(env.reg, r) && DurableFacet(env, r.facet)
    requires FacetAt(env.reg, env.codec, bucket, kk, r.base.deviceId, r.facet.Kind()).Some?
    requires kk != KeyCodec.Key(r.base.deviceId, r.facet.Kind())
    ensures AllDistinct(lives) && Distinct(whole.ids) && RunLives(env, bucket, lives).clean
    ensures RunLives(env, bucket, lives).seen == Live(env, bucket, whole).seen == [r, r]
    ensures var d, k := r.base.deviceId, r.facet.Kind();
            var second := FacetAt(env.reg, env.codec, bucket, kk, d, k).value;
            EventsOf(RunLives(env, bucket, lives).out, d, k) == Emits(env, second, r) + Emits(env, second, r) &&
            EventsOf(Live(env, bucket, whole).out, d, k) == Emits(env, second, r) + Emits(env, r.facet, r)
  {
    var d, k := r.base.deviceId, r.facet.Kind();
    SecondIsNotCanonical(d, k, kk);
    var listing := ListingEndingWith(bucket, kk);
    var first := OnePoll(listing, r);
    OnePollFromSecond(env, bucket, listing, kk, r);
    var between := Live(env, bucket, first).store.bucket;
    var again := ListingEndingWith(between, kk);
    OnePollFromSecond(env, between, again, kk, r);
    lives := [first, OnePoll(again, r)];
    TwoLives(env, bucket, first, OnePoll(again, r));
    EventsOfConcat(Live(env, bucket, first).out, Live(env, between, OnePoll(again, r)).out, d, k);
    whole := Uninterrupted(listing, [d], [r, r]);
    UninterruptedFromSecond(env, bucket, listing, kk, r);
  }

  lemma {:induction false} UninterruptedFromSecond(env: Env, bucket: map<string, Bytes>, listing: seq<string>,
                                                   kk: string, r: Reading)
    requires Faithful(env) && Good(env.reg, r) && DurableFacet(env, r.facet)
    requires Covers(listing, bucket) && listing != [] && listing[|listing| - 1] == kk
    requires FacetAt(env.reg, env.codec, bucket, kk, r.base.deviceId, r.facet.Kind()).Some?
    ensures var d, k := r.base.deviceId, r.facet.Kind();
            var w := Live(env, bucket, Uninterrupted(listing, [d], [r, r]));
            var second := FacetAt(env.reg, env.codec, bucket, kk, d, k).value;
            w.seen == [r, r] && EventsOf(w.out, d, k) == Emits(env, second, r) + Emits(env, r.facet, r)
  {
    var d, k := r.base.deviceId, r.facet.Kind();
    UninterruptedSees(env, bucket, listing, [d], [r, r]);
    UninterruptedLists(env, bucket, listing, [d], [r, r]);
    LifeEventsFromLoad(env, bucket, Uninterrupted(listing, [d], [r, r]), d, k);
    GoodOfTwo(env.reg, r, d, k);
    BootsFromLast(env, bucket, listing, kk, d, k);
    FoldOfTwo(env.reg[k], FacetAt(env.reg, env.codec, bucket, kk, d, k).value, r);
  }

  // ---- The exact condition ----

  /** For any facet remembered, some reading emits something else than when that
      reading's own facet is remembered: the differ tells facets apart. */
  ghost predicate Discerning(env: Env, d: DeviceId, k: Kind)
    requires k in env.reg
  {
    forall f: Facet :: f.Kind() == k && f.GoType() == env.reg[k].zero.GoType() ==> Discerned(env, d, k, f)
  }

  ghost predicate Discerned(env: Env, d: DeviceId, k: Kind, f: Facet) {
    exists r :: Tells(env, d, k, f, r)
  }

  predicate Tells(env: Env, d: DeviceId, k: Kind, f: Facet, r: Reading) {
    Good(env.reg, r) && Concerns(r, d, k) && Emits(env, f, r) != Emits(env, r.facet, r)
  }

  ghost predicate Comparable(env: Env, bucket: map<string, Bytes>, lives: seq<Life>, whole: Life) {
    && AllDistinct(lives) && Distinct(whole.ids) && RunLives(env, bucket, lives).clean
    && Live(env, bucket, whole).seen == RunLives(env, bucket, lives).seen
  }

  ghost predicate Invisible(env: Env, bucket: map<string, Bytes>, d: DeviceId, k: Kind) {
    forall lives, whole :: Comparable(env, bucket, lives, whole) ==>
      EventsOf(RunLives(env, bucket, lives).out, d, k) == EventsOf(Live(env, bucket, whole).out, d, k)
  }

  /** Exactly when restarts from a bucket are invisible for a (device, kind), over
      every chain of clean lives and every listing order: when no other key of the
      bucket names it with a usable value. */
  lemma {:induction false} InvisibleExactlyWhen(env: Env, bucket: map<string, Bytes>, d: DeviceId, k: Kind)
    requires Faithful(env) && k in env.reg && !env.reg[k].volatile && Discerning(env, d, k)
    ensures Invisible(env, bucket, d, k) <==> Own(env, bucket, d, k)
  {
    if Own(env, bucket, d, k) {
      forall lives, whole | Comparable(env, bucket, lives, whole)
        ensures EventsOf(RunLives(env, bucket, lives).out, d, k) == EventsOf(Live(env, bucket, whole).out, d, k)
      {
        RestartsAreInvisible(env, bucket, lives, whole, d, k);
      }
    } else {
      SecondEntryIsVisible(env, bucket, d, k);
    }
  }

  lemma {:induction false} SecondIsTold(env: Env, bucket: map<string, Bytes>, d: DeviceId, k: Kind)
    returns (kk: string, r: Reading)
    requires Faithful(env) && k in env.reg && Discerning(env, d, k) && !Own(env, bucket, d, k)
    ensures kk in bucket && FacetAt(env.reg, env.codec, bucket, kk, d, k).Some? && kk != KeyCodec.Key(d, k)
    ensures Tells(env, d, k, FacetAt(env.reg, env.codec, bucket, kk, d, k).value, r)
  {
    kk :| kk in bucket && FacetAt(env.reg, env.codec, bucket, kk, d, k).Some? && kk != KeyCodec.Key(d, k);
    var f := FacetAt(env.reg, env.codec, bucket, kk, d, k).value;
    assert DecodeFacet(env.reg, env.codec, k, bucket[kk]) == Some(f);
    assert Discerned(env, d, k, f);
    r :| Tells(env, d, k, f, r);
  }

  lemma {:induction false} SecondEntryIsVisible(env: Env, bucket: map<string, Bytes>, d: DeviceId, k: Kind)
    requires Faithful(env) && k in env.reg && !env.reg[k].volatile && Discerning(env, d, k)
    requires !Own(env, bucket, d, k)
    ensures !Invisible(env, bucket, d, k)
  {
    var kk, r := SecondIsTold(env, bucket, d, k);
    var f := FacetAt(env.reg, env.codec, bucket, kk, d, k).value;
    var lives, whole := SecondEntryReplays(env, bucket, kk, r);
    var again, settled := Emits(env, f, r), Emits(env, r.facet, r);
    if again + again == again + settled {
      SameStart(again, again, settled);
      assert false;
    }
    assert Comparable(env, bucket, lives, whole);
  }

  lemma {:induction false} SameStart(a: seq<Event>, b: seq<Event>, c: seq<Event>)
    requires a + b == a + c
    ensures b == c
  {
    assert b == (a + b)[|a|..] && c == (a + c)[|a|..];
  }

  // ---- Two instances ----

  /** The fault differ tells facets apart, so the condition is exact for fault sets. */
  lemma {:induction false} FaultsAreDiscerning(env: Env, d: DeviceId)
    requires "fault-set" in env.reg && env.reg["fault-set"].zero.FaultSet?
    requires Streams.DiffsFaults(env.reg["fault-set"])
    ensures Discerning(env, d, "fault-set")
  {
    forall f: Facet | f.Kind() == "fault-set" && f.GoType() == env.reg["fault-set"].zero.GoType()
      ensures Discerned(env, d, "fault-set", f)
    {
      var curr := if FaultDiffer.Before(Some(f)) == map[] then FaultSet([Fault("a", 0, 0, "")]) else FaultSet([]);
      FaultsTold(env, d, f, Reading(Base(d, "", 0), curr, false));
    }
  }

  lemma {:induction false} FaultsTold(env: Env, d: DeviceId, f: Facet, r: Reading)
    requires "fault-set" in env.reg && env.reg["fault-set"].zero.FaultSet?
    requires Streams.DiffsFaults(env.reg["fault-set"])
    requires r.facet.FaultSet? && !r.failed && r.base.deviceId == d
    requires FaultDiffer.Before(Some(f)).Keys != FaultDiffer.Before(Some(r.facet)).Keys
    ensures Tells(env, d, "fault-set", f, r)
  {
    FaultDiffer.DiffReproduces(Some(f), r.facet, r.base);
    FaultDiffer.RepeatIsSilent(r.facet, r.base);
  }

  /** And the incident differ. */
  lemma {:induction false} IncidentsAreDiscerning(env: Env, d: DeviceId)
    requires "zone-incidents" in env.reg && env.reg["zone-incidents"].zero.ZoneIncidents?
    requires Streams.DiffsIncidents(env.reg["zone-incidents"])
    ensures Discerning(env, d, "zone-incidents")
  {
    forall f: Facet | f.Kind() == "zone-incidents" && f.GoType() == env.reg["zone-incidents"].zero.GoType()
      ensures Discerned(env, d, "zone-incidents", f)
    {
      var one := ZoneIncident("a", "", 0, 0, 0, 0, false, 0, 0, 0);
      var curr := if IncidentDiffer.Before(Some(f)) == map[] then ZoneIncidents([one]) else ZoneIncidents([]);
      assert IncidentDiffer.Before(Some(f)).Keys != IncidentDiffer.Before(Some(curr)).Keys;
      IncidentsTold(env, d, f, Reading(Base(d, "", 0), curr, false));
    }
  }

  lemma {:induction false} IncidentsTold(env: Env, d: DeviceId, f: Facet, r: Reading)
    requires "zone-incidents" in env.reg && env.reg["zone-incidents"].zero.ZoneIncidents?
    requires Streams.DiffsIncidents(env.reg["zone-incidents"])
    requires r.facet.ZoneIncidents? && !r.failed && r.base.deviceId == d
    requires IncidentDiffer.Before(Some(f)).Keys != IncidentDiffer.Before(Some(r.facet)).Keys
    ensures Tells(env, d, "zone-incidents", f, r)
  {
    IncidentDiffer.ChangeShows(f, r.facet, r.base);
  }

  /** Device "a" with both `YQ.` and `YR.` keys: the program writes only the first. */
  function TwoSpellings(env: Env, k: Kind, own: Facet, second: Facet): map<string, Bytes> {
    map["YQ." + k := Raw(env, own), "YR." + k := Raw(env, second)]
  }

  /** Whatever the two entries hold, polling what the first holds replays the change
      from the second at every restart. */
  lemma {:induction false} TwoSpellingsReplay(env: Env, k: Kind, second: Facet, r: Reading)
    returns (lives: seq<Life>, whole: Life)
    requires Faithful(env) && DurableFacet(env, second) && second.Kind() == k
    requires Good(env.reg, r) && Concerns(r, [97], k) && !env.reg[k].volatile
    ensures Comparable(env, TwoSpellings(env, k, r.facet, second), lives, whole)
    ensures var bucket := TwoSpellings(env, k, r.facet, second);
            EventsOf(RunLives(env, bucket, lives).out, [97], k) == Emits(env, second, r) + Emits(env, second, r) &&
            EventsOf(Live(env, bucket, whole).out, [97], k) == Emits(env, second, r) + Emits(env, r.facet, r)
  {
    KeyCodec.SecondSpelling(k);
    var bucket := TwoSpellings(env, k, r.facet, second);
    assert ("YR." + k)[1] != ("YQ." + k)[1];
    assert bucket["YR." + k] == Raw(env, second);
    assert FacetAt(env.reg, env.codec, bucket, "YR." + k, [97], k) == Some(second);
    lives, whole := SecondEntryReplays(env, bucket, "YR." + k, r);
  }
}
