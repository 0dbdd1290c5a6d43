/** The synth engine: one differ per facet kind, diffing each good facet against
    the last good one of the same device and kind (internal/synth/synth.go). */
module Synth {
  import opened Prelude
  import opened Model

  /** A registered differ. `diff` is given the engine's previous facet, the
      differ's own previous sample time (only a stateful differ keeps one), the
      current facet and the event base. */
  datatype Differ = Differ(zero: Facet, volatile: bool, stateful: bool,
                           diff: (Option<Facet>, Option<Time>, Facet, Base) -> seq<Event>)

  type Registry = map<Kind, Differ>

  /** Differs are registered under their own kind, and one that keeps state the
      engine cannot persist says so by being volatile. */
  ghost predicate WellFormed(reg: Registry) {
    forall k :: k in reg ==> reg[k].zero.Kind() == k && (reg[k].stateful ==> reg[k].volatile)
  }

  /** `prev` and `seeded` are the engine's; `last` is the stateful differs' own
      memory, by kind. */
  datatype State = State(prev: map<DeviceId, map<Kind, Facet>>, last: map<Kind, map<DeviceId, Time>>,
                         hold: bool, seeded: set<DeviceId>)

  /** One facet of one snapshot, with whether the snapshot also reports its kind failed. */
  datatype Reading = Reading(base: Base, facet: Facet, failed: bool)

  /** An event tagged with the device and kind whose differ produced it. */
  datatype Emitted = Emitted(device: DeviceId, kind: Kind, event: Event)

  /** What the change hook is told: a facet now remembered for a device. */
  datatype Change = Change(device: DeviceId, facet: Facet)

  // ---- One facet ----

  function Remembered(s: State, d: DeviceId): map<Kind, Facet> {
    if d in s.prev then s.prev[d] else map[]
  }

  function LastOf(reg: Registry, s: State, d: DeviceId, k: Kind): Option<Time> {
    if k in reg && reg[k].stateful && k in s.last then Lookup(s.last[k], d) else None
  }

  predicate Held(s: State, d: DeviceId) {
    s.hold && d !in s.seeded
  }

  /** The facet is of a diffed kind, was read without failure, and has the type
      its differ diffs. */
  predicate Good(reg: Registry, r: Reading) {
    var k := r.facet.Kind();
    k in reg && !r.failed && r.facet.GoType() == reg[k].zero.GoType()
  }

  predicate Rejected(reg: Registry, r: Reading) {
    var k := r.facet.Kind();
    k in reg && !r.failed && r.facet.GoType() != reg[k].zero.GoType()
  }

  predicate Evidence(reg: Registry, s: State, r: Reading) {
    !Held(s, r.base.deviceId) && Good(reg, r)
  }

  function Tag(d: DeviceId, k: Kind, events: seq<Event>): seq<Emitted> {
    seq(|events|, i requires 0 <= i < |events| => Emitted(d, k, events[i]))
  }

  /** The body of `Apply`'s loop for one facet. */
  function Observe(reg: Registry, s: State, r: Reading): (State, seq<Emitted>) {
    if !Evidence(reg, s, r) then (s, [])
    else
      var d, k := r.base.deviceId, r.facet.Kind();
      var events := reg[k].diff(Lookup(Remembered(s, d), k), LastOf(reg, s, d, k), r.facet, r.base);
      var times := if k in s.last then s.last[k] else map[];
      (State(s.prev[d := Remembered(s, d)[k := r.facet]],
             if reg[k].stateful then s.last[k := times[d := r.base.occurredAt]] else s.last,
             s.hold, s.seeded),
       Tag(d, k, events))
  }

  /** `Seed`: facets of a kind with no differ, or of the wrong type, are ignored. */
  function SeedMap(reg: Registry, facets: seq<Facet>): map<Kind, Facet> {
    if facets == [] then map[]
    else
      var f := facets[|facets| - 1];
      var m := SeedMap(reg, facets[..|facets| - 1]);
      if f.Kind() in reg && f.GoType() == reg[f.Kind()].zero.GoType() then m[f.Kind() := f] else m
  }

  function SeedDevice(s: State, d: DeviceId, dev: map<Kind, Facet>): State {
    s.(prev := s.prev[d := dev], seeded := s.seeded + {d})
  }

  // ---- Whole runs ----

  function Run(reg: Registry, s: State, rs: seq<Reading>): (State, seq<Emitted>) {
    if rs == [] then (s, [])
    else
      var (s1, out1) := Run(reg, s, rs[..|rs| - 1]);
      var (s2, out2) := Observe(reg, s1, rs[|rs| - 1]);
      (s2, out1 + out2)
  }

  function Readings(snap: Snapshot): seq<Reading> {
    seq(|snap.facets|, i requires 0 <= i < |snap.facets| =>
      Reading(snap.base, snap.facets[i], snap.facets[i].Kind() in snap.failed))
  }

  /** `Apply` makes the device's map before looking at any facet. */
  function Touch(s: State, d: DeviceId): State {
    s.(prev := s.prev[d := Remembered(s, d)])
  }

  function ApplySnapshot(reg: Registry, s: State, snap: Snapshot): (State, seq<Emitted>) {
    var d := snap.base.deviceId;
    if Held(s, d) then (s, []) else Run(reg, Touch(s, d), Readings(snap))
  }

  /** The change hook's calls for good readings: durable kinds only. */
  function Changes(reg: Registry, rs: seq<Reading>): seq<Change> {
    if rs == [] then []
    else
      var r := rs[|rs| - 1];
      Changes(reg, rs[..|rs| - 1]) +
      (if Good(reg, r) && !reg[r.facet.Kind()].volatile then [Change(r.base.deviceId, r.facet)] else [])
  }

  function Rejections(reg: Registry, rs: seq<Reading>): seq<Facet> {
    if rs == [] then []
    else
      var r := rs[|rs| - 1];
      Rejections(reg, rs[..|rs| - 1]) + (if Rejected(reg, r) then [r.facet] else [])
  }

  predicate Usable(reg: Registry, f: Facet) {
    f.Kind() in reg && f.GoType() == reg[f.Kind()].zero.GoType()
  }

  /** What `Seed` keeps of a kind is the last usable facet of it, and nothing if there is none. */
  lemma {:induction false} SeedKeepsLast(reg: Registry, facets: seq<Facet>, i: nat)
    requires i < |facets| && Usable(reg, facets[i])
    requires forall j :: i < j < |facets| && Usable(reg, facets[j]) ==> facets[j].Kind() != facets[i].Kind()
    ensures Lookup(SeedMap(reg, facets), facets[i].Kind()) == Some(facets[i])
  {
    if i < |facets| - 1 {
      SeedKeepsLast(reg, facets[..|facets| - 1], i);
    }
  }

  lemma {:induction false} SeedKeepsUsable(reg: Registry, facets: seq<Facet>, k: Kind)
    ensures k in SeedMap(reg, facets) ==>
              exists i :: 0 <= i < |facets| && Usable(reg, facets[i]) && facets[i].Kind() == k
  {
    if facets != [] {
      SeedKeepsUsable(reg, facets[..|facets| - 1], k);
    }
  }

  /** The hook is told of a facet exactly when the snapshot has it, of a durable kind,
      rightly typed and not failed. */
  lemma {:induction false} ChangesExactly(reg: Registry, snap: Snapshot, n: nat, f: Facet)
    requires n <= |snap.facets|
    ensures Change(snap.base.deviceId, f) in Changes(reg, Readings(snap)[..n]) <==>
            f in snap.facets[..n] && Usable(reg, f) && f.Kind() !in snap.failed && !reg[f.Kind()].volatile
  {
    if n > 0 {
      ChangesExactly(reg, snap, n - 1, f);
      assert Readings(snap)[..n][..n - 1] == Readings(snap)[..n - 1];
      assert snap.facets[..n] == snap.facets[..n - 1] + [snap.facets[n - 1]];
    }
  }

  /** And a facet is rejected exactly when it is of a diffed kind, not failed, and of
      another type than its differ's. */
  lemma {:induction false} RejectsExactly(reg: Registry, snap: Snapshot, n: nat, f: Facet)
    requires n <= |snap.facets|
    ensures f in Rejections(reg, Readings(snap)[..n]) <==>
            f in snap.facets[..n] && f.Kind() in reg && f.Kind() !in snap.failed &&
            f.GoType() != reg[f.Kind()].zero.GoType()
  {
    if n > 0 {
      RejectsExactly(reg, snap, n - 1, f);
      assert Readings(snap)[..n][..n - 1] == Readings(snap)[..n - 1];
      assert snap.facets[..n] == snap.facets[..n - 1] + [snap.facets[n - 1]];
    }
  }

  lemma RunNext(reg: Registry, s: State, rs: seq<Reading>, i: nat)
    requires i < |rs|
    ensures var (s1, out1) := Run(reg, s, rs[..i]);
            var (s2, out2) := Observe(reg, s1, rs[i]);
            Run(reg, s, rs[..i + 1]) == (s2, out1 + out2)
    ensures Changes(reg, rs[..i + 1]) == Changes(reg, rs[..i]) +
            if Good(reg, rs[i]) && !reg[rs[i].facet.Kind()].volatile
            then [Change(rs[i].base.deviceId, rs[i].facet)] else []
    ensures Rejections(reg, rs[..i + 1]) ==
            Rejections(reg, rs[..i]) + if Rejected(reg, rs[i]) then [rs[i].facet] else []
  {
    assert rs[..i + 1][..i] == rs[..i];
  }

  class Engine {
    const reg: Registry
    var prev: map<DeviceId, map<Kind, Facet>>
    var last: map<Kind, map<DeviceId, Time>>
    var hold: bool
    var seeded: set<DeviceId>

    function View(): State
      reads this
    {
      State(prev, last, hold, seeded)
    }

    constructor (reg: Registry)
      ensures this.reg == reg && View() == State(map[], map[], false, {})
    {
      this.reg := reg;
      prev, last, hold, seeded := map[], map[], false, {};
    }

    method HoldUntilSeeded()
      modifies this`hold
      ensures View() == old(View()).(hold := true)
    {
      hold := true;
    }

    method Seed(d: DeviceId, facets: seq<Facet>)
      modifies this`prev, this`seeded
      ensures View() == SeedDevice(old(View()), d, SeedMap(reg, facets))
    {
      var dev: map<Kind, Facet> := map[];
      for i := 0 to |facets|
        invariant dev == SeedMap(reg, facets[..i])
      {
        assert facets[..i + 1][..i] == facets[..i];
        var f := facets[i];
        if f.Kind() in reg && f.GoType() == reg[f.Kind()].zero.GoType() {
          dev := dev[f.Kind() := f];
        }
      }
      assert facets[..|facets|] == facets;
      prev := prev[d := dev];
      seeded := seeded + {d};
    }

    /** `Apply`, with what it told the change and reject hooks. */
    method Apply(snap: Snapshot)
      returns (events: seq<Emitted>, changes: seq<Change>, rejected: seq<Facet>)
      modifies this`prev, this`last
      ensures (View(), events) == ApplySnapshot(reg, old(View()), snap)
      ensures changes == if Held(old(View()), snap.base.deviceId) then [] else Changes(reg, Readings(snap))
      ensures rejected == if Held(old(View()), snap.base.deviceId) then [] else Rejections(reg, Readings(snap))
    {
      var d := snap.base.deviceId;
      events, changes, rejected := [], [], [];
      if hold && d !in seeded {
        return;
      }
      prev := prev[d := if d in prev then prev[d] else map[]];
      ghost var start := View();
      ghost var rs := Readings(snap);
      for i := 0 to |snap.facets|
        invariant (View(), events) == Run(reg, start, rs[..i])
        invariant changes == Changes(reg, rs[..i])
        invariant rejected == Rejections(reg, rs[..i])
        invariant hold == start.hold && seeded == start.seeded && d in prev
      {
        var f := snap.facets[i];
        ghost var before := View();
        assert events + [] == events;
        RunNext(reg, start, rs, i);
        assert rs[i] == Reading(snap.base, f, f.Kind() in snap.failed);
        var k := f.Kind();
        if k !in reg {
          continue;
        }
        if k in snap.failed {
          continue;
        }
        if f.GoType() != reg[k].zero.GoType() {
          rejected := rejected + [f];
          continue;
        }
        var found := reg[k].diff(Lookup(prev[d], k), LastOf(reg, View(), d, k), f, snap.base);
        events := events + Tag(d, k, found);
        if reg[k].stateful {
          last := last[k := (if k in last then last[k] else map[])[d := snap.base.occurredAt]];
        }
        prev := prev[d := prev[d][k := f]];
        assert (View(), Tag(d, k, found)) == Observe(reg, before, rs[i]);
        if !reg[k].volatile {
          changes := changes + [Change(d, f)];
        }
      }
      assert rs[..|rs|] == rs;
    }
  }

  /** `NewEngine`'s registration loop: a second differ for a kind is refused. */
  method Register(differs: seq<Differ>) returns (result: Result<Registry, Kind>)
    ensures result.Ok? <==>
            forall i, j :: 0 <= i < j < |differs| ==> differs[i].zero.Kind() != differs[j].zero.Kind()
    ensures result.Ok? ==> forall i :: 0 <= i < |differs| ==>
              differs[i].zero.Kind() in result.value && result.value[differs[i].zero.Kind()] == differs[i]
    ensures result.Ok? ==> forall k :: k in result.value ==> result.value[k].zero.Kind() == k
  {
    var reg: Registry := map[];
    for n := 0 to |differs|
      invariant forall i, j :: 0 <= i < j < n ==> differs[i].zero.Kind() != differs[j].zero.Kind()
      invariant forall i :: 0 <= i < n ==>
                  differs[i].zero.Kind() in reg && reg[differs[i].zero.Kind()] == differs[i]
      invariant forall k :: k in reg ==> reg[k].zero.Kind() == k
      invariant forall k :: k in reg ==> exists i :: 0 <= i < n && differs[i].zero.Kind() == k
    {
      var k := differs[n].zero.Kind();
      if k in reg {
        return Err(k);
      }
      reg := reg[k := differs[n]];
    }
    return Ok(reg);
  }

  // ---- Projection: each (device, kind) is diffed as if it were alone ----

  /** All the engine and a differ know about one (device, kind). */
  datatype Cell = Cell(prev: Option<Facet>, last: Option<Time>)

  function CellOf(reg: Registry, s: State, d: DeviceId, k: Kind): Cell {
    Cell(Lookup(Remembered(s, d), k), LastOf(reg, s, d, k))
  }

  function EventsOf(out: seq<Emitted>, d: DeviceId, k: Kind): seq<Event> {
    if out == [] then []
    else
      var e := out[|out| - 1];
      EventsOf(out[..|out| - 1], d, k) + (if e.device == d && e.kind == k then [e.event] else [])
  }

  predicate Concerns(r: Reading, d: DeviceId, k: Kind) {
    r.base.deviceId == d && r.facet.Kind() == k
  }

  /** The good readings of one (device, kind), in order. */
  function GoodOf(reg: Registry, rs: seq<Reading>, d: DeviceId, k: Kind): seq<Reading> {
    if rs == [] then []
    else
      var r := rs[|rs| - 1];
      GoodOf(reg, rs[..|rs| - 1], d, k) + (if Good(reg, r) && Concerns(r, d, k) then [r] else [])
  }

  lemma {:induction false} GoodOfIsGood(reg: Registry, rs: seq<Reading>, d: DeviceId, k: Kind, i: nat)
    requires i < |GoodOf(reg, rs, d, k)|
    ensures Good(reg, GoodOf(reg, rs, d, k)[i]) && Concerns(GoodOf(reg, rs, d, k)[i], d, k)
  {
    var n := |rs| - 1;
    if i < |GoodOf(reg, rs[..n], d, k)| {
      GoodOfIsGood(reg, rs[..n], d, k, i);
    }
  }

  function Advance(df: Differ, c: Cell, r: Reading): Cell {
    Cell(Some(r.facet), if df.stateful then Some(r.base.occurredAt) else c.last)
  }

  /** One differ folded over one list of readings: the specification of what the
      engine does for one (device, kind). */
  function Fold(df: Differ, c: Cell, rs: seq<Reading>): (Cell, seq<Event>) {
    if rs == [] then (c, [])
    else
      var (c1, events) := Fold(df, c, rs[..|rs| - 1]);
      var r := rs[|rs| - 1];
      (Advance(df, c1, r), events + df.diff(c1.prev, c1.last, r.facet, r.base))
  }

  lemma {:induction false} EventsOfConcat(a: seq<Emitted>, b: seq<Emitted>, d: DeviceId, k: Kind)
    ensures EventsOf(a + b, d, k) == EventsOf(a, d, k) + EventsOf(b, d, k)
  {
    if b == [] {
      assert a + b == a;
    } else {
      var n := |b| - 1;
      assert (a + b)[..|a + b| - 1] == a + b[..n];
      EventsOfConcat(a, b[..n], d, k);
    }
  }

  lemma {:induction false} EventsOfTag(d0: DeviceId, k0: Kind, events: seq<Event>, d: DeviceId, k: Kind)
    ensures EventsOf(Tag(d0, k0, events), d, k) == if d0 == d && k0 == k then events else []
  {
    if events != [] {
      var n := |events| - 1;
      assert Tag(d0, k0, events)[..n] == Tag(d0, k0, events[..n]);
      EventsOfTag(d0, k0, events[..n], d, k);
      assert events == events[..n] + [events[n]];
    }
  }

  lemma {:induction false} GoodOfConcat(reg: Registry, a: seq<Reading>, b: seq<Reading>, d: DeviceId, k: Kind)
    ensures GoodOf(reg, a + b, d, k) == GoodOf(reg, a, d, k) + GoodOf(reg, b, d, k)
  {
    if b == [] {
      assert a + b == a;
    } else {
      var n := |b| - 1;
      assert (a + b)[..|a + b| - 1] == a + b[..n];
      GoodOfConcat(reg, a, b[..n], d, k);
    }
  }

  lemma {:induction false} FoldConcat(df: Differ, c: Cell, a: seq<Reading>, b: seq<Reading>)
    ensures Fold(df, c, a + b) ==
            var (c1, e1) := Fold(df, c, a);
            var (c2, e2) := Fold(df, c1, b);
            (c2, e1 + e2)
  {
    if b == [] {
      assert a + b == a;
      assert Fold(df, c, a).1 + [] == Fold(df, c, a).1;
    } else {
      var n := |b| - 1;
      assert (a + b)[..|a + b| - 1] == a + b[..n];
      FoldConcat(df, c, a, b[..n]);
      var (c1, e1) := Fold(df, c, a);
      var (c2, e2) := Fold(df, c1, b[..n]);
      var found := df.diff(c2.prev, c2.last, b[n].facet, b[n].base);
      assert (e1 + e2) + found == e1 + (e2 + found);
    }
  }

  lemma FoldNext(df: Differ, c: Cell, rs: seq<Reading>, r: Reading)
    ensures Fold(df, c, rs + [r]) ==
            var (c1, events) := Fold(df, c, rs);
            (Advance(df, c1, r), events + df.diff(c1.prev, c1.last, r.facet, r.base))
  {
    assert (rs + [r])[..|rs|] == rs;
  }

  /** One facet moves at most its own cell, and moves it as its differ would. */
  lemma ObserveProjects(reg: Registry, s: State, r: Reading, d: DeviceId, k: Kind)
    requires k in reg
    ensures var (s', out) := Observe(reg, s, r);
            var c := CellOf(reg, s, d, k);
            s'.hold == s.hold && s'.seeded == s.seeded &&
            if Evidence(reg, s, r) && Concerns(r, d, k)
            then CellOf(reg, s', d, k) == Advance(reg[k], c, r) &&
                 EventsOf(out, d, k) == reg[k].diff(c.prev, c.last, r.facet, r.base)
            else CellOf(reg, s', d, k) == c && EventsOf(out, d, k) == []
  {
    if Evidence(reg, s, r) {
      var d0, k0 := r.base.deviceId, r.facet.Kind();
      var c := CellOf(reg, s, d0, k0);
      EventsOfTag(d0, k0, reg[k0].diff(c.prev, c.last, r.facet, r.base), d, k);
    }
  }

  /** Over any interleaved run, the events and memory of a (device, kind) are its
      differ folded over its own good readings; while held, it has none. */
  lemma {:induction false} Projection(reg: Registry, s: State, rs: seq<Reading>, d: DeviceId, k: Kind)
    requires k in reg
    ensures Projects(reg, s, Run(reg, s, rs).0, Run(reg, s, rs).1,
                     if Held(s, d) then [] else GoodOf(reg, rs, d, k), d, k)
  {
    if rs != [] {
      var n := |rs| - 1;
      Projection(reg, s, rs[..n], d, k);
      var (s1, out1) := Run(reg, s, rs[..n]);
      var good := if Held(s, d) then [] else GoodOf(reg, rs[..n], d, k);
      TracksNext(reg, CellOf(reg, s, d, k), s1, out1, good, rs[n], d, k);
      assert good + [] == good;
    }
  }

  /** A cell and its events are its differ folded over `good` from `start`. */
  ghost predicate Tracks(reg: Registry, start: Cell, s: State, out: seq<Emitted>, good: seq<Reading>, d: DeviceId,
                         k: Kind)
    requires k in reg
  {
    (CellOf(reg, s, d, k), EventsOf(out, d, k)) == Fold(reg[k], start, good)
  }

  ghost predicate Projects(reg: Registry, s: State, s': State, out: seq<Emitted>, good: seq<Reading>, d: DeviceId,
                           k: Kind)
    requires k in reg
  {
    s'.hold == s.hold && s'.seeded == s.seeded && Tracks(reg, CellOf(reg, s, d, k), s', out, good, d, k)
  }

  lemma TracksNext(reg: Registry, start: Cell, s: State, out: seq<Emitted>, good: seq<Reading>,
                   r: Reading, d: DeviceId, k: Kind)
    requires k in reg
    requires Tracks(reg, start, s, out, good, d, k)
    ensures var (s2, more) := Observe(reg, s, r);
            s2.hold == s.hold && s2.seeded == s.seeded &&
            Tracks(reg, start, s2, out + more,
                   if Evidence(reg, s, r) && Concerns(r, d, k) then good + [r] else good, d, k)
  {
    var (s2, more) := Observe(reg, s, r);
    ObserveProjects(reg, s, r, d, k);
    EventsOfConcat(out, more, d, k);
    FoldNext(reg[k], start, good, r);
    assert EventsOf(out, d, k) + [] == EventsOf(out, d, k);
  }

  /** Absence of evidence changes nothing: two runs with the same good readings of
      a (device, kind) agree on its events and on what is remembered for it,
      whatever failed, absent, rejected or foreign readings surround them. */
  lemma OnlyGoodReadingsMatter(reg: Registry, s: State, a: seq<Reading>, b: seq<Reading>, d: DeviceId, k: Kind)
    requires k in reg
    requires GoodOf(reg, a, d, k) == GoodOf(reg, b, d, k)
    ensures EventsOf(Run(reg, s, a).1, d, k) == EventsOf(Run(reg, s, b).1, d, k)
    ensures CellOf(reg, Run(reg, s, a).0, d, k) == CellOf(reg, Run(reg, s, b).0, d, k)
  {
    Projection(reg, s, a, d, k);
    Projection(reg, s, b, d, k);
  }

  /** A differ's own time and the engine's facet always come from the same
      reading, the last good one. */
  lemma CellIsLastReading(df: Differ, c: Cell, rs: seq<Reading>)
    requires rs != []
    ensures Fold(df, c, rs).0.prev == Some(rs[|rs| - 1].facet)
    ensures df.stateful ==> Fold(df, c, rs).0.last == Some(rs[|rs| - 1].base.occurredAt)
  {
  }

  /** `Apply` over a list of snapshots is the facet-by-facet run over all their
      readings, so the run-level results are about polls. */
  function ApplyAll(reg: Registry, s: State, snaps: seq<Snapshot>): (State, seq<Emitted>) {
    if snaps == [] then (s, [])
    else
      var (s1, out1) := ApplyAll(reg, s, snaps[..|snaps| - 1]);
      var (s2, out2) := ApplySnapshot(reg, s1, snaps[|snaps| - 1]);
      (s2, out1 + out2)
  }

  function AllReadings(snaps: seq<Snapshot>): seq<Reading> {
    if snaps == [] then [] else AllReadings(snaps[..|snaps| - 1]) + Readings(snaps[|snaps| - 1])
  }

  lemma {:induction false} NoneConcern(reg: Registry, snap: Snapshot, d: DeviceId, k: Kind, n: nat)
    requires snap.base.deviceId != d && n <= |Readings(snap)|
    ensures GoodOf(reg, Readings(snap)[..n], d, k) == []
  {
    if n > 0 {
      NoneConcern(reg, snap, d, k, n - 1);
      assert Readings(snap)[..n][..n - 1] == Readings(snap)[..n - 1];
    }
  }

  lemma {:induction false} PollsProject(reg: Registry, s: State, snaps: seq<Snapshot>, d: DeviceId, k: Kind)
    requires k in reg
    ensures Projects(reg, s, ApplyAll(reg, s, snaps).0, ApplyAll(reg, s, snaps).1,
                     if Held(s, d) then [] else GoodOf(reg, AllReadings(snaps), d, k), d, k)
  {
    if snaps != [] {
      var n := |snaps| - 1;
      PollsProject(reg, s, snaps[..n], d, k);
      PollProjects(reg, ApplyAll(reg, s, snaps[..n]).0, snaps[n], d, k);
      EventsOfConcat(ApplyAll(reg, s, snaps[..n]).1,
                     ApplySnapshot(reg, ApplyAll(reg, s, snaps[..n]).0, snaps[n]).1, d, k);
      GoodOfConcat(reg, AllReadings(snaps[..n]), Readings(snaps[n]), d, k);
      FoldConcat(reg[k], CellOf(reg, s, d, k), GoodOf(reg, AllReadings(snaps[..n]), d, k),
                 GoodOf(reg, Readings(snaps[n]), d, k));
    }
  }

  lemma {:induction false} FailedAreNotGood(reg: Registry, snap: Snapshot, d: DeviceId, k: Kind, n: nat)
    requires n <= |Readings(snap)|
    requires k in snap.failed || forall i :: 0 <= i < |snap.facets| && snap.facets[i].Kind() == k ==>
                                   k !in reg || snap.facets[i].GoType() != reg[k].zero.GoType()
    ensures GoodOf(reg, Readings(snap)[..n], d, k) == []
  {
    if n > 0 {
      FailedAreNotGood(reg, snap, d, k, n - 1);
      assert Readings(snap)[..n][..n - 1] == Readings(snap)[..n - 1];
    }
  }

  /** A kind a snapshot reports failed, or has no rightly typed facet of, is silent and
      keeps its memory, whatever facets of it the snapshot carries. */
  lemma {:induction false} FailedKindIsSilent(reg: Registry, s: State, snap: Snapshot, d: DeviceId, k: Kind)
    requires k in reg
    requires k in snap.failed || forall i :: 0 <= i < |snap.facets| && snap.facets[i].Kind() == k ==>
                                   snap.facets[i].GoType() != reg[k].zero.GoType()
    ensures EventsOf(ApplySnapshot(reg, s, snap).1, d, k) == []
    ensures CellOf(reg, ApplySnapshot(reg, s, snap).0, d, k) == CellOf(reg, s, d, k)
  {
    PollProjects(reg, s, snap, d, k);
    FailedAreNotGood(reg, snap, d, k, |Readings(snap)|);
    assert Readings(snap)[..|Readings(snap)|] == Readings(snap);
  }

  /** Every event of a fold is one of its differ's, of one of the readings. */
  lemma {:induction false} EventFrom(df: Differ, c: Cell, g: seq<Reading>, i: nat) returns (j: nat, k: nat)
    requires i < |Fold(df, c, g).1|
    ensures j < |g|
    ensures var c1 := Fold(df, c, g[..j]).0;
            k < |df.diff(c1.prev, c1.last, g[j].facet, g[j].base)| &&
            Fold(df, c, g).1[i] == df.diff(c1.prev, c1.last, g[j].facet, g[j].base)[k]
  {
    var n := |g| - 1;
    var before := Fold(df, c, g[..n]).1;
    if i < |before| {
      j, k := EventFrom(df, c, g[..n], i);
      assert g[..n][..j] == g[..j];
    } else {
      j, k := n, i - |before|;
    }
  }

  lemma {:induction false} GoodFrom(reg: Registry, snaps: seq<Snapshot>, d: DeviceId, k: Kind, j: nat)
    returns (n: nat, m: nat)
    requires j < |GoodOf(reg, AllReadings(snaps), d, k)|
    ensures n < |snaps| && m < |snaps[n].facets| && k !in snaps[n].failed && snaps[n].base.deviceId == d
    ensures var r := GoodOf(reg, AllReadings(snaps), d, k)[j];
            r.base == snaps[n].base && r.facet == snaps[n].facets[m] && r.facet.Kind() == k
  {
    var last := |snaps| - 1;
    var before, more := AllReadings(snaps[..last]), Readings(snaps[last]);
    GoodOfConcat(reg, before, more, d, k);
    var earlier := |GoodOf(reg, before, d, k)|;
    if j < earlier {
      n, m := GoodFrom(reg, snaps[..last], d, k, j);
    } else {
      n := last;
      m := GoodAt(reg, more, d, k, j - earlier);
    }
  }

  lemma {:induction false} GoodAt(reg: Registry, rs: seq<Reading>, d: DeviceId, k: Kind, j: nat) returns (m: nat)
    requires j < |GoodOf(reg, rs, d, k)|
    ensures m < |rs| && rs[m] == GoodOf(reg, rs, d, k)[j] && Good(reg, rs[m]) && Concerns(rs[m], d, k)
  {
    var n := |rs| - 1;
    if j < |GoodOf(reg, rs[..n], d, k)| {
      m := GoodAt(reg, rs[..n], d, k, j);
    } else {
      m := n;
    }
  }

  lemma PollProjects(reg: Registry, s: State, snap: Snapshot, d: DeviceId, k: Kind)
    requires k in reg
    ensures Projects(reg, s, ApplySnapshot(reg, s, snap).0, ApplySnapshot(reg, s, snap).1,
                     if Held(s, d) then [] else GoodOf(reg, Readings(snap), d, k), d, k)
  {
    if snap.base.deviceId != d {
      NoneConcern(reg, snap, d, k, |Readings(snap)|);
      assert Readings(snap)[..|Readings(snap)|] == Readings(snap);
    }
    if !Held(s, snap.base.deviceId) {
      Projection(reg, Touch(s, snap.base.deviceId), Readings(snap), d, k);
    }
  }
}
