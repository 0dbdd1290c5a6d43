/** The fault-set differ: a raise for each fault that appeared, a clear for each
    that vanished (internal/synth/fault.go). */
module FaultDiffer {
  import opened Prelude
  import opened Model
  import opened Strings

  /** Later entries with the same id win. */
  function Index(faults: seq<Fault>): (m: map<string, Fault>)
    ensures forall f :: f in faults ==> f.id in m
    ensures forall id :: id in m ==> m[id].id == id && m[id] in faults
  {
    if faults == [] then map[]
    else
      var last := faults[|faults| - 1];
      Index(faults[..|faults| - 1])[last.id := last]
  }

  function FaultsOf(f: Facet): seq<Fault> {
    if f.FaultSet? then f.faults else []
  }

  function Before(prev: Option<Facet>): map<string, Fault> {
    if prev.None? then map[] else Index(FaultsOf(prev.value))
  }

  function Rise(before: map<string, Fault>, id: string, f: Fault, base: Base): seq<Event> {
    if id in before then [] else [FaultRaised(base, f)]
  }

  function Gone(now: map<string, Fault>, id: string, base: Base): seq<Event> {
    if id in now then [] else [FaultCleared(base, id)]
  }

  function Raises(before: map<string, Fault>, now: map<string, Fault>, ids: seq<string>, base: Base): seq<Event>
    requires forall id :: id in ids ==> id in now
  {
    if ids == [] then []
    else Raises(before, now, ids[..|ids| - 1], base) + Rise(before, ids[|ids| - 1], now[ids[|ids| - 1]], base)
  }

  function Clears(now: map<string, Fault>, ids: seq<string>, base: Base): seq<Event> {
    if ids == [] then [] else Clears(now, ids[..|ids| - 1], base) + Gone(now, ids[|ids| - 1], base)
  }

  ghost function Diff(prev: Option<Facet>, curr: Facet, base: Base): seq<Event> {
    var before, now := Before(prev), Index(FaultsOf(curr));
    Raises(before, now, SortedKeys(now.Keys), base) + Clears(now, SortedKeys(before.Keys), base)
  }

  /** `index`. */
  method BuildIndex(faults: seq<Fault>) returns (m: map<string, Fault>)
    ensures m == Index(faults)
  {
    m := map[];
    for i := 0 to |faults|
      invariant m == Index(faults[..i])
    {
      assert faults[..i + 1][..i] == faults[..i];
      m := m[faults[i].id := faults[i]];
    }
    assert faults[..|faults|] == faults;
  }

  /** The first loop of `faultDiffer.Diff`. */
  method CollectRaises(before: map<string, Fault>, now: map<string, Fault>, base: Base) returns (events: seq<Event>)
    ensures events == Raises(before, now, SortedKeys(now.Keys), base)
  {
    events := [];
    var ids := KeysInOrder(now.Keys);
    for i := 0 to |ids|
      invariant events == Raises(before, now, ids[..i], base)
    {
      RaisesNext(before, now, ids, i, base);
      if ids[i] !in before {
        events := events + [FaultRaised(base, now[ids[i]])];
      }
    }
    assert ids[..|ids|] == ids;
  }

  lemma {:induction false} RaisesNext(before: map<string, Fault>, now: map<string, Fault>, ids: seq<string>,
                                      i: nat, base: Base)
    requires i < |ids|
    requires forall id :: id in ids ==> id in now
    ensures Raises(before, now, ids[..i + 1], base) ==
            Raises(before, now, ids[..i], base) + Rise(before, ids[i], now[ids[i]], base)
  {
    assert ids[..i + 1][..i] == ids[..i];
  }

  lemma {:induction false} ClearsNext(now: map<string, Fault>, ids: seq<string>, i: nat, base: Base)
    requires i < |ids|
    ensures Clears(now, ids[..i + 1], base) ==
            Clears(now, ids[..i], base) + Gone(now, ids[i], base)
  {
    assert ids[..i + 1][..i] == ids[..i];
  }

  /** The second loop of `faultDiffer.Diff`. */
  method CollectClears(before: map<string, Fault>, now: map<string, Fault>, base: Base) returns (events: seq<Event>)
    ensures events == Clears(now, SortedKeys(before.Keys), base)
  {
    events := [];
    var ids := KeysInOrder(before.Keys);
    for i := 0 to |ids|
      invariant events == Clears(now, ids[..i], base)
    {
      ClearsNext(now, ids, i, base);
      if ids[i] !in now {
        events := events + [FaultCleared(base, ids[i])];
      }
    }
    assert ids[..|ids|] == ids;
  }

  /** `faultDiffer.Diff`. */
  method DiffFaults(prev: Option<Facet>, curr: Facet, base: Base) returns (events: seq<Event>)
    ensures events == Diff(prev, curr, base)
  {
    var now := BuildIndex(FaultsOf(curr));
    var before: map<string, Fault> := map[];
    if prev.Some? {
      before := BuildIndex(FaultsOf(prev.value));
    }
    var raised := CollectRaises(before, now, base);
    var cleared := CollectClears(before, now, base);
    events := raised + cleared;
  }

  // ---- What each event says ----

  /** A raise carries the fault as the device reports it now, and a clear the id of one
      no longer reported; both carry the poll's base. */
  ghost predicate Says(before: map<string, Fault>, now: map<string, Fault>, base: Base, e: Event) {
    match e
    case FaultRaised(b, f) => b == base && f.id in now && now[f.id] == f && f.id !in before
    case FaultCleared(b, id) => b == base && id in before && id !in now
    case _ => false
  }

  ghost predicate AllSay(before: map<string, Fault>, now: map<string, Fault>, base: Base, events: seq<Event>) {
    forall i :: 0 <= i < |events| ==> Says(before, now, base, events[i])
  }

  lemma {:induction false} RaisesSay(before: map<string, Fault>, now: map<string, Fault>, ids: seq<string>, base: Base)
    requires forall id :: id in ids ==> id in now && now[id].id == id
    ensures AllSay(before, now, base, Raises(before, now, ids, base))
  {
    if ids != [] {
      RaisesSay(before, now, ids[..|ids| - 1], base);
      var id := ids[|ids| - 1];
      assert id in now && now[id].id == id;
    }
  }

  lemma {:induction false} ClearsSay(before: map<string, Fault>, now: map<string, Fault>, ids: seq<string>, base: Base)
    requires forall id :: id in ids ==> id in before
    ensures AllSay(before, now, base, Clears(now, ids, base))
  {
    if ids != [] {
      ClearsSay(before, now, ids[..|ids| - 1], base);
    }
  }

  lemma {:induction false} DiffSays(prev: Option<Facet>, curr: Facet, base: Base)
    ensures AllSay(Before(prev), Index(FaultsOf(curr)), base, Diff(prev, curr, base))
  {
    var before, now := Before(prev), Index(FaultsOf(curr));
    SortedKeysDistinct(before.Keys);
    SortedKeysDistinct(now.Keys);
    RaisesSay(before, now, SortedKeys(now.Keys), base);
    ClearsSay(before, now, SortedKeys(before.Keys), base);
  }

  // ---- What a consumer can rebuild from the stream ----

  /** A consumer's set of standing faults after one event. */
  function Consume(standing: set<string>, e: Event): set<string> {
    match e
    case FaultRaised(_, f) => standing + {f.id}
    case FaultCleared(_, id) => standing - {id}
    case _ => standing
  }

  function Fold(standing: set<string>, events: seq<Event>): set<string> {
    if events == [] then standing
    else Consume(Fold(standing, events[..|events| - 1]), events[|events| - 1])
  }

  /** A raise is only ever for a fault not standing, a clear only for one that is. */
  predicate Fits(standing: set<string>, e: Event) {
    match e
    case FaultRaised(_, f) => f.id !in standing
    case FaultCleared(_, id) => id in standing
    case _ => false
  }

  predicate Lifecycle(standing: set<string>, events: seq<Event>) {
    events == [] ||
    (Lifecycle(standing, events[..|events| - 1]) &&
     Fits(Fold(standing, events[..|events| - 1]), events[|events| - 1]))
  }

  lemma {:induction false} FoldConcat(standing: set<string>, a: seq<Event>, b: seq<Event>)
    ensures Fold(standing, a + b) == Fold(Fold(standing, a), b)
    ensures Lifecycle(standing, a + b) <==> Lifecycle(standing, a) && Lifecycle(Fold(standing, a), b)
  {
    if b == [] {
      assert a + b == a;
    } else {
      var n := |b| - 1;
      assert (a + b)[..|a + b| - 1] == a + b[..n];
      FoldConcat(standing, a, b[..n]);
    }
  }

  /** After the first loop, the ids visited stand as well. */
  ghost predicate Risen(before: set<string>, standing: set<string>, ids: seq<string>) {
    forall x :: x in standing <==> x in before || x in ids
  }

  lemma RiseFold(before: map<string, Fault>, standing: set<string>, done: seq<string>, f: Fault, base: Base)
    requires Risen(before.Keys, standing, done) && f.id !in done
    ensures var events := Rise(before, f.id, f, base);
            Risen(before.Keys, Fold(standing, events), done + [f.id]) && Lifecycle(standing, events)
  {
    if f.id !in before {
      var e := FaultRaised(base, f);
      assert [e][..0] == [];
      assert Fits(standing, e) && Fold(standing, [e]) == standing + {f.id};
    }
  }

  lemma {:induction false} RaisesFold(before: map<string, Fault>, now: map<string, Fault>, ids: seq<string>, base: Base)
    requires Distinct(ids)
    requires forall id :: id in ids ==> id in now && now[id].id == id
    ensures Risen(before.Keys, Fold(before.Keys, Raises(before, now, ids, base)), ids)
    ensures Lifecycle(before.Keys, Raises(before, now, ids, base))
  {
    if ids != [] {
      var n := |ids| - 1;
      var init, id := ids[..n], ids[n];
      assert ids == init + [id];
      RaisesFold(before, now, init, base);
      var sofar := Raises(before, now, init, base);
      RiseFold(before, Fold(before.Keys, sofar), init, now[id], base);
      FoldConcat(before.Keys, sofar, Rise(before, id, now[id], base));
    }
  }

  /** After the second loop, the ids visited stand only if still present. */
  ghost predicate Swept(standing: set<string>, after: set<string>, now: map<string, Fault>, ids: seq<string>) {
    forall x :: x in after <==> x in standing && (x in now || x !in ids)
  }

  lemma SweepFold(standing: set<string>, after: set<string>, now: map<string, Fault>, done: seq<string>,
                  id: string, base: Base)
    requires Swept(standing, after, now, done) && id in standing && id !in done
    ensures var events := Gone(now, id, base);
            Swept(standing, Fold(after, events), now, done + [id]) && Lifecycle(after, events)
  {
    if id !in now {
      var e := FaultCleared(base, id);
      assert [e][..0] == [];
      assert Fits(after, e) && Fold(after, [e]) == after - {id};
    }
  }

  lemma {:induction false} ClearsFold(standing: set<string>, now: map<string, Fault>, ids: seq<string>, base: Base)
    requires Distinct(ids)
    requires forall id :: id in ids ==> id in standing
    ensures Swept(standing, Fold(standing, Clears(now, ids, base)), now, ids)
    ensures Lifecycle(standing, Clears(now, ids, base))
  {
    if ids != [] {
      var n := |ids| - 1;
      var init, id := ids[..n], ids[n];
      assert ids == init + [id];
      ClearsFold(standing, now, init, base);
      var sofar := Clears(now, init, base);
      SweepFold(standing, Fold(standing, sofar), now, init, id, base);
      FoldConcat(standing, sofar, Gone(now, id, base));
    }
  }

  lemma {:induction false} RaisesThenClears(before: map<string, Fault>, now: map<string, Fault>,
                                            nowIds: seq<string>, beforeIds: seq<string>, base: Base)
    requires Distinct(nowIds) && Distinct(beforeIds)
    requires forall id :: id in nowIds <==> id in now
    requires forall id :: id in beforeIds <==> id in before
    requires forall id :: id in now ==> now[id].id == id
    ensures Fold(before.Keys, Raises(before, now, nowIds, base) + Clears(now, beforeIds, base)) == now.Keys
    ensures Lifecycle(before.Keys, Raises(before, now, nowIds, base) + Clears(now, beforeIds, base))
  {
    var raised := Raises(before, now, nowIds, base);
    RaisesFold(before, now, nowIds, base);
    ClearsFold(Fold(before.Keys, raised), now, beforeIds, base);
    FoldConcat(before.Keys, raised, Clears(now, beforeIds, base));
  }

  /** One poll: a consumer holding the previous fault ids ends with exactly the
      current ones, and every event is a real transition. */
  lemma {:induction false} DiffReproduces(prev: Option<Facet>, curr: Facet, base: Base)
    ensures Fold(Before(prev).Keys, Diff(prev, curr, base)) == Index(FaultsOf(curr)).Keys
    ensures Lifecycle(Before(prev).Keys, Diff(prev, curr, base))
  {
    var before, now := Before(prev), Index(FaultsOf(curr));
    SortedKeysDistinct(before.Keys);
    SortedKeysDistinct(now.Keys);
    RaisesThenClears(before, now, SortedKeys(now.Keys), SortedKeys(before.Keys), base);
  }

  lemma {:induction false} RaisesTimeless(before: map<string, Fault>, now: map<string, Fault>, ids: seq<string>,
                                          a: Base, b: Base)
    requires forall id :: id in ids ==> id in now
    ensures AllUnstamped(Raises(before, now, ids, a)) == AllUnstamped(Raises(before, now, ids, b))
  {
    if ids != [] {
      var init, id := ids[..|ids| - 1], ids[|ids| - 1];
      RaisesTimeless(before, now, init, a, b);
      UnstampedConcat(Raises(before, now, init, a), Rise(before, id, now[id], a));
      UnstampedConcat(Raises(before, now, init, b), Rise(before, id, now[id], b));
    }
  }

  lemma {:induction false} ClearsTimeless(now: map<string, Fault>, ids: seq<string>, a: Base, b: Base)
    ensures AllUnstamped(Clears(now, ids, a)) == AllUnstamped(Clears(now, ids, b))
  {
    if ids != [] {
      var init, id := ids[..|ids| - 1], ids[|ids| - 1];
      ClearsTimeless(now, init, a, b);
      UnstampedConcat(Clears(now, init, a), Gone(now, id, a));
      UnstampedConcat(Clears(now, init, b), Gone(now, id, b));
    }
  }

  /** What is raised and cleared does not depend on when the poll was taken. */
  lemma {:induction false} DiffIsTimeless(prev: Option<Facet>, curr: Facet, a: Base, b: Base)
    ensures AllUnstamped(Diff(prev, curr, a)) == AllUnstamped(Diff(prev, curr, b))
  {
    var before, now := Before(prev), Index(FaultsOf(curr));
    RaisesTimeless(before, now, SortedKeys(now.Keys), a, b);
    ClearsTimeless(now, SortedKeys(before.Keys), a, b);
    UnstampedConcat(Raises(before, now, SortedKeys(now.Keys), a), Clears(now, SortedKeys(before.Keys), a));
    UnstampedConcat(Raises(before, now, SortedKeys(now.Keys), b), Clears(now, SortedKeys(before.Keys), b));
  }

  // ---- A consumer that is not where the differ is ----

  lemma {:induction false} RaisesOnto(standing: set<string>, before: map<string, Fault>, now: map<string, Fault>,
                                      ids: seq<string>, base: Base)
    requires forall id :: id in ids ==> id in now && now[id].id == id
    ensures forall x :: x in Fold(standing, Raises(before, now, ids, base)) <==>
              x in standing || (x in ids && x !in before)
  {
    if ids != [] {
      var init, id := ids[..|ids| - 1], ids[|ids| - 1];
      assert ids == init + [id];
      RaisesOnto(standing, before, now, init, base);
      var events := Rise(before, id, now[id], base);
      FoldConcat(standing, Raises(before, now, init, base), events);
      if events != [] { assert events[..0] == []; }
    }
  }

  lemma {:induction false} ClearsOnto(standing: set<string>, now: map<string, Fault>, ids: seq<string>, base: Base)
    ensures forall x :: x in Fold(standing, Clears(now, ids, base)) <==> x in standing && (x !in ids || x in now)
  {
    if ids != [] {
      var init, id := ids[..|ids| - 1], ids[|ids| - 1];
      assert ids == init + [id];
      ClearsOnto(standing, now, init, base);
      var events := Gone(now, id, base);
      FoldConcat(standing, Clears(now, init, base), events);
      if events != [] { assert events[..0] == []; }
    }
  }

  lemma {:induction false} DiffOnto(standing: set<string>, prev: Option<Facet>, curr: Facet, base: Base)
    ensures var before, now := Before(prev).Keys, Index(FaultsOf(curr)).Keys;
            forall x :: x in Fold(standing, Diff(prev, curr, base)) <==>
              if x in before && x !in now then false else x in standing || (x in now && x !in before)
  {
    var before, now := Before(prev), Index(FaultsOf(curr));
    SortedKeysDistinct(before.Keys);
    SortedKeysDistinct(now.Keys);
    var raised := Raises(before, now, SortedKeys(now.Keys), base);
    RaisesOnto(standing, before, now, SortedKeys(now.Keys), base);
    ClearsOnto(Fold(standing, raised), now, SortedKeys(before.Keys), base);
    FoldConcat(standing, raised, Clears(now, SortedKeys(before.Keys), base));
  }

  /** Wherever two sets of faults differ, a third sides with the first. */
  ghost predicate SidesWith(now: set<string>, standing: set<string>, stored: set<string>) {
    forall x :: x in standing + stored && (x in standing) != (x in stored) ==> ((x in now) == (x in standing))
  }

  /** Exactly when one poll puts a consumer right whose faults differ from those the
      differ remembers: when the poll sides with the consumer wherever they differ. */
  lemma {:induction false} ResyncsExactlyWhen(standing: set<string>, prev: Option<Facet>, curr: Facet, base: Base)
    ensures var before, now := Before(prev).Keys, Index(FaultsOf(curr)).Keys;
            Fold(standing, Diff(prev, curr, base)) == now <==> SidesWith(now, standing, before)
  {
    DiffOnto(standing, prev, curr, base);
    var before, now := Before(prev).Keys, Index(FaultsOf(curr)).Keys;
    var after := Fold(standing, Diff(prev, curr, base));
    if SidesWith(now, standing, before) {
      forall x ensures x in after <==> x in now {
        assert x in standing + before <==> x in standing || x in before;
      }
    }
  }

  lemma {:induction false} NothingNew(now: map<string, Fault>, raised: seq<string>, cleared: seq<string>, base: Base)
    requires (forall id :: id in raised ==> id in now) && (forall id :: id in cleared ==> id in now)
    ensures Raises(now, now, raised, base) == [] && Clears(now, cleared, base) == []
  {
    if raised != [] {
      NothingNew(now, raised[..|raised| - 1], cleared, base);
    } else if cleared != [] {
      NothingNew(now, raised, cleared[..|cleared| - 1], base);
    }
  }

  /** A poll that repeats the last good one emits nothing. */
  lemma {:induction false} RepeatIsSilent(f: Facet, base: Base)
    ensures Diff(Some(f), f, base) == []
  {
    var now := Index(FaultsOf(f));
    SortedKeysDistinct(now.Keys);
    NothingNew(now, SortedKeys(now.Keys), SortedKeys(now.Keys), base);
  }

  lemma {:induction false} SameIndex(a: seq<Fault>, b: seq<Fault>)
    requires forall x :: x in a <==> x in b
    requires forall x, y :: x in a && y in a && x.id == y.id ==> x == y
    ensures Index(a) == Index(b)
  {
    var ma, mb := Index(a), Index(b);
    forall id | id in ma ensures id in mb && ma[id] == mb[id] {
      assert ma[id] in b;
      assert mb[id] in a;
    }
    forall id | id in mb ensures id in ma {
      assert mb[id] in a;
    }
  }

  /** The events depend only on the faults present, not on the order the device
      listed them in, provided entries that share an id are equal. */
  lemma {:induction false} OrderIsInvisible(prev: Option<Facet>, a: seq<Fault>, b: seq<Fault>, base: Base)
    requires forall x :: x in a <==> x in b
    requires forall x, y :: x in a && y in a && x.id == y.id ==> x == y
    ensures Diff(prev, FaultSet(a), base) == Diff(prev, FaultSet(b), base)
    ensures Before(Some(FaultSet(a))) == Before(Some(FaultSet(b)))
  {
    SameIndex(a, b);
  }
}
