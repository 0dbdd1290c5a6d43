/** The zone-incident differ: detected, updated and cleared events keyed on the
    sensor's own incident id (internal/synth/perception.go). */
module IncidentDiffer {
  import opened Prelude
  import opened Model
  import opened Strings

  /** Later entries with the same id win. */
  function Index(incidents: seq<ZoneIncident>): (m: map<string, ZoneIncident>)
    ensures forall x :: x in incidents ==> x.id in m
    ensures forall id :: id in m ==> m[id].id == id && m[id] in incidents
  {
    if incidents == [] then map[]
    else
      var last := incidents[|incidents| - 1];
      Index(incidents[..|incidents| - 1])[last.id := last]
  }

  function IncidentsOf(f: Facet): seq<ZoneIncident> {
    if f.ZoneIncidents? then f.incidents else []
  }

  function Before(prev: Option<Facet>): map<string, ZoneIncident> {
    if prev.None? then map[] else Index(IncidentsOf(prev.value))
  }

  /** `assessmentChanged`: severity, confidence and speed only. */
  predicate AssessmentChanged(prev: ZoneIncident, curr: ZoneIncident) {
    prev.severity != curr.severity || prev.confidence != curr.confidence ||
    prev.speed != curr.speed || prev.speedReported != curr.speedReported
  }

  function Present(before: map<string, ZoneIncident>, x: ZoneIncident, base: Base): seq<Event> {
    if x.id !in before then [IncidentDetected(base, x)]
    else if AssessmentChanged(before[x.id], x) then
      [IncidentUpdated(base, x.id, x.zoneId, x.severity, x.speed, x.speedReported, x.confidence)]
    else []
  }

  function Changes(before: map<string, ZoneIncident>, now: map<string, ZoneIncident>, ids: seq<string>,
                   base: Base): seq<Event>
    requires forall id :: id in ids ==> id in now
  {
    if ids == [] then []
    else Changes(before, now, ids[..|ids| - 1], base) + Present(before, now[ids[|ids| - 1]], base)
  }

  function Gone(now: map<string, ZoneIncident>, x: ZoneIncident, base: Base): seq<Event> {
    if x.id in now then [] else [IncidentCleared(base, x.id, x.zoneId)]
  }

  function Clears(before: map<string, ZoneIncident>, now: map<string, ZoneIncident>, ids: seq<string>,
                  base: Base): seq<Event>
    requires forall id :: id in ids ==> id in before
  {
    if ids == [] then []
    else
      var id := ids[|ids| - 1];
      Clears(before, now, ids[..|ids| - 1], base) +
      (if id in now then [] else [IncidentCleared(base, before[id].id, before[id].zoneId)])
  }

  ghost function Diff(prev: Option<Facet>, curr: Facet, base: Base): seq<Event> {
    var before, now := Before(prev), Index(IncidentsOf(curr));
    Changes(before, now, SortedKeys(now.Keys), base) + Clears(before, now, SortedKeys(before.Keys), base)
  }

  /** `byIncidentID`. */
  method BuildIndex(incidents: seq<ZoneIncident>) returns (m: map<string, ZoneIncident>)
    ensures m == Index(incidents)
  {
    m := map[];
    for i := 0 to |incidents|
      invariant m == Index(incidents[..i])
    {
      assert incidents[..i + 1][..i] == incidents[..i];
      m := m[incidents[i].id := incidents[i]];
    }
    assert incidents[..|incidents|] == incidents;
  }

  /** The detected-and-updated loop of `zoneIncidentDiffer.Diff`. */
  method CollectChanges(before: map<string, ZoneIncident>, now: map<string, ZoneIncident>, base: Base)
    returns (events: seq<Event>)
    requires forall id :: id in now ==> now[id].id == id
    ensures events == Changes(before, now, SortedKeys(now.Keys), base)
  {
    events := [];
    var ids := KeysInOrder(now.Keys);
    for i := 0 to |ids|
      invariant events == Changes(before, now, ids[..i], base)
    {
      var x := now[ids[i]];
      ChangesNext(before, now, ids, i, base);
      if ids[i] !in before {
        events := events + [IncidentDetected(base, x)];
      } else if AssessmentChanged(before[ids[i]], x) {
        events := events +
          [IncidentUpdated(base, x.id, x.zoneId, x.severity, x.speed, x.speedReported, x.confidence)];
      }
    }
    assert ids[..|ids|] == ids;
  }

  lemma {:induction false} ChangesNext(before: map<string, ZoneIncident>, now: map<string, ZoneIncident>,
                                       ids: seq<string>, i: nat, base: Base)
    requires i < |ids|
    requires forall id :: id in ids ==> id in now
    ensures Changes(before, now, ids[..i + 1], base) ==
            Changes(before, now, ids[..i], base) + Present(before, now[ids[i]], base)
  {
    assert ids[..i + 1][..i] == ids[..i];
  }

  lemma {:induction false} ClearsNext(before: map<string, ZoneIncident>, now: map<string, ZoneIncident>,
                                      ids: seq<string>, i: nat, base: Base)
    requires i < |ids|
    requires forall id :: id in ids ==> id in before
    ensures var x := before[ids[i]];
            Clears(before, now, ids[..i + 1], base) ==
            if ids[i] in now then Clears(before, now, ids[..i], base)
            else Clears(before, now, ids[..i], base) + [IncidentCleared(base, x.id, x.zoneId)]
  {
    assert ids[..i + 1][..i] == ids[..i];
  }

  /** The cleared loop of `zoneIncidentDiffer.Diff`. */
  method CollectClears(before: map<string, ZoneIncident>, now: map<string, ZoneIncident>, base: Base)
    returns (events: seq<Event>)
    ensures events == Clears(before, now, SortedKeys(before.Keys), base)
  {
    events := [];
    var ids := KeysInOrder(before.Keys);
    for i := 0 to |ids|
      invariant events == Clears(before, now, ids[..i], base)
    {
      ClearsNext(before, now, ids, i, base);
      if ids[i] !in now {
        events := events + [IncidentCleared(base, before[ids[i]].id, before[ids[i]].zoneId)];
      }
    }
    assert ids[..|ids|] == ids;
  }

  /** `zoneIncidentDiffer.Diff`. */
  method DiffIncidents(prev: Option<Facet>, curr: Facet, base: Base) returns (events: seq<Event>)
    ensures events == Diff(prev, curr, base)
  {
    var now := BuildIndex(IncidentsOf(curr));
    var before: map<string, ZoneIncident> := map[];
    if prev.Some? {
      before := BuildIndex(IncidentsOf(prev.value));
    }
    var changed := CollectChanges(before, now, base);
    var cleared := CollectClears(before, now, base);
    events := changed + cleared;
  }

  // ---- What each event says ----

  /** A detection carries the incident as the sensor reports it now, an update the zone
      and assessment it reports now, and a clear the zone it last reported; all carry
      the poll's base. */
  ghost predicate Says(before: map<string, ZoneIncident>, now: map<string, ZoneIncident>, base: Base, e: Event) {
    match e
    case IncidentDetected(b, x) => b == base && x.id in now && now[x.id] == x && x.id !in before
    case IncidentUpdated(b, id, zone, severity, speed, reported, confidence) =>
      b == base && id in now && id in before && zone == now[id].zoneId &&
      severity == now[id].severity && speed == now[id].speed && reported == now[id].speedReported &&
      confidence == now[id].confidence
    case IncidentCleared(b, id, zone) => b == base && id in before && id !in now && zone == before[id].zoneId
    case _ => false
  }

  ghost predicate AllSay(before: map<string, ZoneIncident>, now: map<string, ZoneIncident>, base: Base,
                         events: seq<Event>)
  {
    forall i :: 0 <= i < |events| ==> Says(before, now, base, events[i])
  }

  lemma {:induction false} ChangesSay(before: map<string, ZoneIncident>, now: map<string, ZoneIncident>,
                                      ids: seq<string>, base: Base)
    requires forall id :: id in ids ==> id in now && now[id].id == id
    ensures AllSay(before, now, base, Changes(before, now, ids, base))
  {
    if ids != [] {
      ChangesSay(before, now, ids[..|ids| - 1], base);
      var id := ids[|ids| - 1];
      assert id in now && now[id].id == id;
      assert AllSay(before, now, base, Present(before, now[id], base));
    }
  }

  lemma {:induction false} ClearsSay(before: map<string, ZoneIncident>, now: map<string, ZoneIncident>,
                                     ids: seq<string>, base: Base)
    requires forall id :: id in ids ==> id in before && before[id].id == id
    ensures AllSay(before, now, base, Clears(before, now, ids, base))
  {
    if ids != [] {
      ClearsSay(before, now, ids[..|ids| - 1], base);
      var id := ids[|ids| - 1];
      assert id in before && before[id].id == id;
    }
  }

  lemma {:induction false} DiffSays(prev: Option<Facet>, curr: Facet, base: Base)
    ensures AllSay(Before(prev), Index(IncidentsOf(curr)), base, Diff(prev, curr, base))
  {
    var before, now := Before(prev), Index(IncidentsOf(curr));
    SortedKeysDistinct(before.Keys);
    SortedKeysDistinct(now.Keys);
    ChangesSay(before, now, SortedKeys(now.Keys), base);
    ClearsSay(before, now, SortedKeys(before.Keys), base);
  }

  // ---- What a consumer can rebuild from the stream ----

  datatype Assessment = Assessment(severity: nat, speed: nat, speedReported: bool, confidence: nat)

  function Assess(x: ZoneIncident): Assessment {
    Assessment(x.severity, x.speed, x.speedReported, x.confidence)
  }

  /** The active incidents and their assessments. */
  function View(m: map<string, ZoneIncident>): map<string, Assessment> {
    map id | id in m :: Assess(m[id])
  }

  /** A consumer's active incidents after one event. */
  function Consume(active: map<string, Assessment>, e: Event): map<string, Assessment> {
    match e
    case IncidentDetected(_, x) => active[x.id := Assess(x)]
    case IncidentUpdated(_, id, _, severity, speed, reported, confidence) =>
      active[id := Assessment(severity, speed, reported, confidence)]
    case IncidentCleared(_, id, _) => active - {id}
    case _ => active
  }

  function Fold(active: map<string, Assessment>, events: seq<Event>): map<string, Assessment> {
    if events == [] then active
    else Consume(Fold(active, events[..|events| - 1]), events[|events| - 1])
  }

  /** Per id: detected only when inactive; updated only when active and only
      with a different assessment; cleared only when active. */
  predicate Fits(active: map<string, Assessment>, e: Event) {
    match e
    case IncidentDetected(_, x) => x.id !in active
    case IncidentUpdated(_, id, _, severity, speed, reported, confidence) =>
      id in active && active[id] != Assessment(severity, speed, reported, confidence)
    case IncidentCleared(_, id, _) => id in active
    case _ => false
  }

  predicate Lifecycle(active: map<string, Assessment>, events: seq<Event>) {
    events == [] ||
    (Lifecycle(active, events[..|events| - 1]) &&
     Fits(Fold(active, events[..|events| - 1]), events[|events| - 1]))
  }

  lemma {:induction false} FoldConcat(active: map<string, Assessment>, a: seq<Event>, b: seq<Event>)
    ensures Fold(active, a + b) == Fold(Fold(active, a), b)
    ensures Lifecycle(active, a + b) <==> Lifecycle(active, a) && Lifecycle(Fold(active, a), b)
  {
    if b == [] {
      assert a + b == a;
    } else {
      var n := |b| - 1;
      assert (a + b)[..|a + b| - 1] == a + b[..n];
      FoldConcat(active, a, b[..n]);
    }
  }

  /** After the first loop, the ids visited carry the current assessment and
      every other id is as it was. */
  ghost predicate Overlaid(active: map<string, Assessment>, before: map<string, ZoneIncident>,
                           now: map<string, ZoneIncident>, ids: seq<string>)
    requires forall id :: id in ids ==> id in now
  {
    && (forall x :: x in active <==> x in before || x in ids)
    && (forall x :: x in active ==> active[x] == if x in ids then Assess(now[x]) else Assess(before[x]))
  }

  lemma {:induction false} ChangesFold(before: map<string, ZoneIncident>, now: map<string, ZoneIncident>,
                                       ids: seq<string>, base: Base)
    requires Distinct(ids)
    requires forall id :: id in ids ==> id in now && now[id].id == id
    ensures Overlaid(Fold(View(before), Changes(before, now, ids, base)), before, now, ids)
    ensures Lifecycle(View(before), Changes(before, now, ids, base))
  {
    if ids != [] {
      var n := |ids| - 1;
      var init, id := ids[..n], ids[n];
      assert ids == init + [id];
      ChangesFold(before, now, init, base);
      var sofar := Changes(before, now, init, base);
      PresentFold(Fold(View(before), sofar), before, now, init, id, base);
      FoldConcat(View(before), sofar, Present(before, now[id], base));
    }
  }

  lemma PresentFold(active: map<string, Assessment>, before: map<string, ZoneIncident>, now: map<string, ZoneIncident>,
                    done: seq<string>, id: string, base: Base)
    requires forall x :: x in done + [id] ==> x in now
    requires id !in done && now[id].id == id
    requires Overlaid(active, before, now, done)
    ensures Overlaid(Fold(active, Present(before, now[id], base)), before, now, done + [id])
    ensures Lifecycle(active, Present(before, now[id], base))
  {
    var events := Present(before, now[id], base);
    if events != [] {
      assert events[..|events| - 1] == [];
      assert id in active <==> id in before;
      assert Fits(active, events[0]);
      assert Fold(active, events) == active[id := Assess(now[id])];
    }
  }

  /** After the second loop, the ids visited survive only if still present. */
  ghost predicate Swept(active: map<string, Assessment>, after: map<string, Assessment>,
                        now: map<string, ZoneIncident>, ids: seq<string>)
  {
    && (forall x :: x in after <==> x in active && (x in now || x !in ids))
    && (forall x :: x in after ==> after[x] == active[x])
  }

  lemma GoneFold(active: map<string, Assessment>, after: map<string, Assessment>, now: map<string, ZoneIncident>,
                 done: seq<string>, x: ZoneIncident, base: Base)
    requires Swept(active, after, now, done) && x.id in active && x.id !in done
    ensures Swept(active, Fold(after, Gone(now, x, base)), now, done + [x.id])
    ensures Lifecycle(after, Gone(now, x, base))
  {
    var events := Gone(now, x, base);
    if events != [] {
      assert events[..|events| - 1] == [];
      assert Fits(after, events[0]);
      assert Fold(after, events) == after - {x.id};
    }
  }

  lemma {:induction false} ClearsFold(active: map<string, Assessment>, before: map<string, ZoneIncident>,
                                      now: map<string, ZoneIncident>, ids: seq<string>, base: Base)
    requires Distinct(ids)
    requires forall id :: id in ids ==> id in active && id in before && before[id].id == id
    ensures Swept(active, Fold(active, Clears(before, now, ids, base)), now, ids)
    ensures Lifecycle(active, Clears(before, now, ids, base))
  {
    if ids != [] {
      var n := |ids| - 1;
      var init, id := ids[..n], ids[n];
      assert ids == init + [id];
      ClearsFold(active, before, now, init, base);
      var sofar := Clears(before, now, init, base);
      GoneFold(active, Fold(active, sofar), now, init, before[id], base);
      FoldConcat(active, sofar, Gone(now, before[id], base));
      assert Clears(before, now, ids, base) == sofar + Gone(now, before[id], base);
    }
  }

  lemma OverlaidThenSwept(before: map<string, ZoneIncident>, now: map<string, ZoneIncident>,
                          active: map<string, Assessment>, after: map<string, Assessment>,
                          nowIds: seq<string>, beforeIds: seq<string>)
    requires forall id :: id in nowIds <==> id in now
    requires forall id :: id in beforeIds <==> id in before
    requires Overlaid(active, before, now, nowIds) && Swept(active, after, now, beforeIds)
    ensures after == View(now)
  {
    forall x ensures x in after <==> x in View(now) {
      assert x in active <==> x in before || x in now;
    }
  }

  lemma ChangesThenClears(before: map<string, ZoneIncident>, now: map<string, ZoneIncident>,
                          nowIds: seq<string>, beforeIds: seq<string>, base: Base)
    requires Distinct(nowIds) && Distinct(beforeIds)
    requires forall id :: id in nowIds <==> id in now
    requires forall id :: id in beforeIds <==> id in before
    requires forall id :: id in now ==> now[id].id == id
    requires forall id :: id in before ==> before[id].id == id
    ensures Fold(View(before), Changes(before, now, nowIds, base) + Clears(before, now, beforeIds, base)) == View(now)
    ensures Lifecycle(View(before), Changes(before, now, nowIds, base) + Clears(before, now, beforeIds, base))
  {
    var changed, cleared := Changes(before, now, nowIds, base), Clears(before, now, beforeIds, base);
    ChangesFold(before, now, nowIds, base);
    var active := Fold(View(before), changed);
    ClearsFold(active, before, now, beforeIds, base);
    OverlaidThenSwept(before, now, active, Fold(active, cleared), nowIds, beforeIds);
    FoldConcat(View(before), changed, cleared);
  }

  /** One poll: a consumer holding the previous assessments ends with exactly
      the current ones, and every event is a real transition. */
  lemma {:induction false} DiffReproduces(prev: Option<Facet>, curr: Facet, base: Base)
    ensures Fold(View(Before(prev)), Diff(prev, curr, base)) == View(Index(IncidentsOf(curr)))
    ensures Lifecycle(View(Before(prev)), Diff(prev, curr, base))
  {
    var before, now := Before(prev), Index(IncidentsOf(curr));
    SortedKeysDistinct(before.Keys);
    SortedKeysDistinct(now.Keys);
    ChangesThenClears(before, now, SortedKeys(now.Keys), SortedKeys(before.Keys), base);
  }

  lemma {:induction false} ChangesTimeless(before: map<string, ZoneIncident>, now: map<string, ZoneIncident>,
                                           ids: seq<string>, a: Base, b: Base)
    requires forall id :: id in ids ==> id in now
    ensures AllUnstamped(Changes(before, now, ids, a)) == AllUnstamped(Changes(before, now, ids, b))
  {
    if ids != [] {
      var init, id := ids[..|ids| - 1], ids[|ids| - 1];
      ChangesTimeless(before, now, init, a, b);
      UnstampedConcat(Changes(before, now, init, a), Present(before, now[id], a));
      UnstampedConcat(Changes(before, now, init, b), Present(before, now[id], b));
    }
  }

  function ClearOf(before: map<string, ZoneIncident>, now: map<string, ZoneIncident>, id: string,
                   base: Base): seq<Event>
    requires id in before
  {
    if id in now then [] else [IncidentCleared(base, before[id].id, before[id].zoneId)]
  }

  lemma {:induction false} ClearsTimeless(before: map<string, ZoneIncident>, now: map<string, ZoneIncident>,
                                          ids: seq<string>, a: Base, b: Base)
    requires forall id :: id in ids ==> id in before
    ensures AllUnstamped(Clears(before, now, ids, a)) == AllUnstamped(Clears(before, now, ids, b))
  {
    if ids != [] {
      var init, id := ids[..|ids| - 1], ids[|ids| - 1];
      ClearsTimeless(before, now, init, a, b);
      UnstampedConcat(Clears(before, now, init, a), ClearOf(before, now, id, a));
      UnstampedConcat(Clears(before, now, init, b), ClearOf(before, now, id, b));
    }
  }

  /** What is detected, updated and cleared does not depend on when the poll was taken. */
  lemma {:induction false} DiffIsTimeless(prev: Option<Facet>, curr: Facet, a: Base, b: Base)
    ensures AllUnstamped(Diff(prev, curr, a)) == AllUnstamped(Diff(prev, curr, b))
  {
    var before, now := Before(prev), Index(IncidentsOf(curr));
    var ids, gone := SortedKeys(now.Keys), SortedKeys(before.Keys);
    ChangesTimeless(before, now, ids, a, b);
    ClearsTimeless(before, now, gone, a, b);
    UnstampedConcat(Changes(before, now, ids, a), Clears(before, now, gone, a));
    UnstampedConcat(Changes(before, now, ids, b), Clears(before, now, gone, b));
  }

  // ---- A consumer that is not where the differ is ----

  lemma {:induction false} PresentOnto(active: map<string, Assessment>, before: map<string, ZoneIncident>,
                                       y: ZoneIncident, base: Base, x: string)
    ensures Lookup(Fold(active, Present(before, y, base)), x) ==
            if x == y.id && (x !in before || AssessmentChanged(before[x], y)) then Some(Assess(y))
            else Lookup(active, x)
  {
    var events := Present(before, y, base);
    if events != [] {
      assert events[..0] == [];
      assert Fold(active, events) == active[y.id := Assess(y)];
    }
  }

  lemma {:induction false} ClearOnto(active: map<string, Assessment>, before: map<string, ZoneIncident>,
                                     now: map<string, ZoneIncident>, id: string, base: Base, x: string)
    requires id in before && before[id].id == id
    ensures Lookup(Fold(active, ClearOf(before, now, id, base)), x) ==
            if x == id && x !in now then None else Lookup(active, x)
  {
    var events := ClearOf(before, now, id, base);
    if events != [] {
      assert events[..0] == [];
      assert Fold(active, events) == active - {id};
    }
  }

  lemma {:induction false} ChangesOnto(active: map<string, Assessment>, before: map<string, ZoneIncident>,
                                       now: map<string, ZoneIncident>, ids: seq<string>, base: Base, x: string)
    requires forall id :: id in ids ==> id in now && now[id].id == id
    ensures Lookup(Fold(active, Changes(before, now, ids, base)), x) ==
            if x in ids && (x !in before || AssessmentChanged(before[x], now[x])) then Some(Assess(now[x]))
            else Lookup(active, x)
  {
    if ids != [] {
      var init, id := ids[..|ids| - 1], ids[|ids| - 1];
      assert ids == init + [id];
      ChangesOnto(active, before, now, init, base, x);
      var sofar := Changes(before, now, init, base);
      FoldConcat(active, sofar, Present(before, now[id], base));
      PresentOnto(Fold(active, sofar), before, now[id], base, x);
    }
  }

  lemma {:induction false} ClearsOnto(active: map<string, Assessment>, before: map<string, ZoneIncident>,
                                      now: map<string, ZoneIncident>, ids: seq<string>, base: Base, x: string)
    requires forall id :: id in ids ==> id in before && before[id].id == id
    ensures Lookup(Fold(active, Clears(before, now, ids, base)), x) ==
            if x in ids && x !in now then None else Lookup(active, x)
  {
    if ids != [] {
      var init, id := ids[..|ids| - 1], ids[|ids| - 1];
      assert ids == init + [id];
      ClearsOnto(active, before, now, init, base, x);
      var sofar := Clears(before, now, init, base);
      FoldConcat(active, sofar, ClearOf(before, now, id, base));
      ClearOnto(Fold(active, sofar), before, now, id, base, x);
    }
  }

  /** One poll sets what changed from the differ's memory and leaves the rest as the
      consumer has it. */
  lemma {:induction false} DiffOnto(active: map<string, Assessment>, prev: Option<Facet>, curr: Facet, base: Base,
                                    x: string)
    ensures var was, now := Lookup(View(Before(prev)), x), Lookup(View(Index(IncidentsOf(curr))), x);
            Lookup(Fold(active, Diff(prev, curr, base)), x) == if now == was then Lookup(active, x) else now
  {
    var before, now := Before(prev), Index(IncidentsOf(curr));
    SortedKeysDistinct(before.Keys);
    SortedKeysDistinct(now.Keys);
    var changed := Changes(before, now, SortedKeys(now.Keys), base);
    ChangesOnto(active, before, now, SortedKeys(now.Keys), base, x);
    ClearsOnto(Fold(active, changed), before, now, SortedKeys(before.Keys), base, x);
    FoldConcat(active, changed, Clears(before, now, SortedKeys(before.Keys), base));
  }

  /** Wherever a consumer and the differ's memory differ, the poll differs from the memory. */
  ghost predicate Reports(now: map<string, Assessment>, active: map<string, Assessment>, was: map<string, Assessment>) {
    forall x :: x in active.Keys + was.Keys && Lookup(active, x) != Lookup(was, x) ==> Lookup(now, x) != Lookup(was, x)
  }

  /** Exactly when one poll puts a consumer right whose incidents differ from those the
      differ remembers: when, wherever they differ, the poll changed what is remembered. */
  lemma {:induction false} ResyncsExactlyWhen(active: map<string, Assessment>, prev: Option<Facet>, curr: Facet,
                                              base: Base)
    ensures var was, now := View(Before(prev)), View(Index(IncidentsOf(curr)));
            Fold(active, Diff(prev, curr, base)) == now <==> Reports(now, active, was)
  {
    var was, now := View(Before(prev)), View(Index(IncidentsOf(curr)));
    var after := Fold(active, Diff(prev, curr, base));
    forall x
      ensures Lookup(after, x) == if Lookup(now, x) == Lookup(was, x) then Lookup(active, x) else Lookup(now, x)
    {
      DiffOnto(active, prev, curr, base, x);
    }
    if Reports(now, active, was) {
      forall x ensures Lookup(after, x) == Lookup(now, x) {
        assert x in active.Keys + was.Keys <==> x in active || x in was;
      }
      SameAssessments(after, now);
    }
  }

  lemma {:induction false} SameAssessments(a: map<string, Assessment>, b: map<string, Assessment>)
    requires forall x :: Lookup(a, x) == Lookup(b, x)
    ensures a == b
  {
    forall x ensures x in a <==> x in b { assert Lookup(a, x) == Lookup(b, x); }
    forall x | x in a ensures a[x] == b[x] { assert Lookup(a, x) == Lookup(b, x); }
  }

  lemma {:induction false} NothingNew(now: map<string, ZoneIncident>, ids: seq<string>, gone: seq<string>, base: Base)
    requires forall id :: id in now ==> now[id].id == id
    requires (forall id :: id in ids ==> id in now) && (forall id :: id in gone ==> id in now)
    ensures Changes(now, now, ids, base) == [] && Clears(now, now, gone, base) == []
  {
    if ids != [] {
      NothingNew(now, ids[..|ids| - 1], gone, base);
    } else if gone != [] {
      NothingNew(now, ids, gone[..|gone| - 1], base);
    }
  }

  /** A poll that repeats the last good one emits nothing. */
  lemma {:induction false} RepeatIsSilent(f: Facet, base: Base)
    ensures Diff(Some(f), f, base) == []
  {
    var now := Index(IncidentsOf(f));
    SortedKeysDistinct(now.Keys);
    NothingNew(now, SortedKeys(now.Keys), SortedKeys(now.Keys), base);
  }

  /** A poll of other incidents than remembered emits what its repeat does not. */
  lemma {:induction false} ChangeShows(f: Facet, curr: Facet, base: Base)
    requires Before(Some(f)).Keys != Before(Some(curr)).Keys
    ensures Diff(Some(f), curr, base) != Diff(Some(curr), curr, base)
  {
    RepeatIsSilent(curr, base);
    if Diff(Some(f), curr, base) == [] {
      SilentMeansSame(Before(Some(f)), Index(IncidentsOf(curr)), Diff(Some(f), curr, base)) by {
        DiffReproduces(Some(f), curr, base);
      }
      assert false;
    }
  }

  lemma {:induction false} SilentMeansSame(before: map<string, ZoneIncident>, now: map<string, ZoneIncident>,
                                           events: seq<Event>)
    requires events == [] && Fold(View(before), events) == View(now)
    ensures before.Keys == now.Keys
  {
    ViewKeys(before);
    ViewKeys(now);
  }

  lemma {:induction false} ViewKeys(m: map<string, ZoneIncident>)
    ensures View(m).Keys == m.Keys
  {
  }

  lemma {:induction false} SameIndex(a: seq<ZoneIncident>, b: seq<ZoneIncident>)
    requires forall x :: x in a <==> x in b
    requires forall x, y :: x in a && y in a && x.id == y.id ==> x == y
    ensures Index(a) == Index(b)
  {
    var ma, mb := Index(a), Index(b);
    forall id | id in ma ensures id in mb && ma[id] == mb[id] {
      assert ma[id] in b;
      assert mb[id] in a;
    }
    forall id | id in mb ensures id in ma {
      assert mb[id] in a;
    }
  }

  /** The events depend only on the incidents present, not on the order the
      sensor listed them in, provided entries that share an id are equal. */
  lemma {:induction false} OrderIsInvisible(prev: Option<Facet>, a: seq<ZoneIncident>, b: seq<ZoneIncident>, base: Base)
    requires forall x :: x in a <==> x in b
    requires forall x, y :: x in a && y in a && x.id == y.id ==> x == y
    ensures Diff(prev, ZoneIncidents(a), base) == Diff(prev, ZoneIncidents(b), base)
    ensures Before(Some(ZoneIncidents(a))) == Before(Some(ZoneIncidents(b)))
  {
    SameIndex(a, b);
  }
}
