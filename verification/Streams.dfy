/** What the event stream of a whole run says about a device, poll by poll:
    standing faults, active incidents and detector volumes. */
module Streams {
  import opened Prelude
  import opened Model
  import opened Synth
  import FaultDiffer
  import IncidentDiffer
  import DetectorDiffer

  ghost predicate DiffsFaults(df: Differ) {
    forall prev, last, curr, base :: df.diff(prev, last, curr, base) == FaultDiffer.Diff(prev, curr, base)
  }

  ghost predicate DiffsIncidents(df: Differ) {
    forall prev, last, curr, base :: df.diff(prev, last, curr, base) == IncidentDiffer.Diff(prev, curr, base)
  }

  ghost predicate DiffsDetectors(df: Differ) {
    && df.stateful
    && forall prev, last, curr, base :: df.diff(prev, last, curr, base) == DetectorDiffer.Diff(prev, last, curr, base)
  }

  /** The differ's events depend on the poll's base only in their own base. */
  ghost predicate TimeBlind(df: Differ) {
    !df.stateful &&
    forall prev, last, curr, a, b ::
      AllUnstamped(df.diff(prev, last, curr, a)) == AllUnstamped(df.diff(prev, last, curr, b))
  }

  lemma {:induction false} FaultsAreTimeBlind(df: Differ)
    requires DiffsFaults(df) && !df.stateful
    ensures TimeBlind(df)
  {
    forall prev, last, curr, a, b
      ensures AllUnstamped(df.diff(prev, last, curr, a)) == AllUnstamped(df.diff(prev, last, curr, b))
    {
      FaultDiffer.DiffIsTimeless(prev, curr, a, b);
    }
  }

  lemma {:induction false} IncidentsAreTimeBlind(df: Differ)
    requires DiffsIncidents(df) && !df.stateful
    ensures TimeBlind(df)
  {
    forall prev, last, curr, a, b
      ensures AllUnstamped(df.diff(prev, last, curr, a)) == AllUnstamped(df.diff(prev, last, curr, b))
    {
      IncidentDiffer.DiffIsTimeless(prev, curr, a, b);
    }
  }

  predicate SameFacets(g: seq<Reading>, h: seq<Reading>) {
    |g| == |h| && forall i :: 0 <= i < |g| ==> g[i].facet == h[i].facet
  }

  /** Equal facets at any times give equal events up to their base. */
  lemma {:induction false} FoldIsTimeBlind(df: Differ, c: Cell, g: seq<Reading>, h: seq<Reading>)
    requires TimeBlind(df) && SameFacets(g, h)
    ensures Fold(df, c, g).0 == Fold(df, c, h).0
    ensures AllUnstamped(Fold(df, c, g).1) == AllUnstamped(Fold(df, c, h).1)
  {
    if g != [] {
      var n := |g| - 1;
      FoldIsTimeBlind(df, c, g[..n], h[..n]);
      var (c1, e1) := Fold(df, c, g[..n]);
      var (c2, e2) := Fold(df, c, h[..n]);
      UnstampedConcat(e1, df.diff(c1.prev, c1.last, g[n].facet, g[n].base));
      UnstampedConcat(e2, df.diff(c2.prev, c2.last, h[n].facet, h[n].base));
    }
  }

  // ---- Faults ----

  lemma {:induction false} FaultFold(df: Differ, c: Cell, g: seq<Reading>)
    requires DiffsFaults(df)
    ensures var (c', events) := Synth.Fold(df, c, g);
            FaultDiffer.Fold(FaultDiffer.Before(c.prev).Keys, events) == FaultDiffer.Before(c'.prev).Keys &&
            FaultDiffer.Lifecycle(FaultDiffer.Before(c.prev).Keys, events)
  {
    if g != [] {
      var n := |g| - 1;
      FaultFold(df, c, g[..n]);
      var (c1, events) := Synth.Fold(df, c, g[..n]);
      FaultDiffer.FoldConcat(FaultDiffer.Before(c.prev).Keys, events, FaultDiffer.Diff(c1.prev, g[n].facet, g[n].base));
      FaultDiffer.DiffReproduces(c1.prev, g[n].facet, g[n].base);
    }
  }

  /** Whatever polls are taken of whatever devices, replaying a device's raises
      and clears over the faults it started with gives exactly the faults of its
      last good poll, and each fault is raised, cleared, raised, cleared in turn. */
  lemma {:induction false} FaultStream(reg: Registry, s: State, snaps: seq<Snapshot>, d: DeviceId)
    requires "fault-set" in reg && DiffsFaults(reg["fault-set"])
    ensures var (s', out) := ApplyAll(reg, s, snaps);
            var was := FaultDiffer.Before(CellOf(reg, s, d, "fault-set").prev).Keys;
            var events := EventsOf(out, d, "fault-set");
            FaultDiffer.Fold(was, events) == FaultDiffer.Before(CellOf(reg, s', d, "fault-set").prev).Keys &&
            FaultDiffer.Lifecycle(was, events)
  {
    PollsProject(reg, s, snaps, d, "fault-set");
    FaultFold(reg["fault-set"], CellOf(reg, s, d, "fault-set"),
              if Held(s, d) then [] else GoodOf(reg, AllReadings(snaps), d, "fault-set"));
  }

  /** Every raise, in any run, carries a fault that the snapshot it is stamped with
      lists for the device, exactly as listed; and every clear is stamped with a snapshot
      whose fault set lacks the fault. Neither is of a snapshot that reports its fault
      set failed. */
  lemma {:induction false} FaultEventsSay(reg: Registry, s: State, snaps: seq<Snapshot>, d: DeviceId, i: nat)
    returns (n: nat, m: nat)
    requires "fault-set" in reg && DiffsFaults(reg["fault-set"])
    requires i < |EventsOf(ApplyAll(reg, s, snaps).1, d, "fault-set")|
    ensures n < |snaps| && m < |snaps[n].facets| && "fault-set" !in snaps[n].failed && snaps[n].base.deviceId == d
    ensures var e := EventsOf(ApplyAll(reg, s, snaps).1, d, "fault-set")[i];
            var faults := FaultDiffer.FaultsOf(snaps[n].facets[m]);
            match e
            case FaultRaised(base, f) => base == snaps[n].base && f in faults
            case FaultCleared(base, id) => base == snaps[n].base && forall f :: f in faults ==> f.id != id
            case _ => false
  {
    var k := "fault-set";
    PollsProject(reg, s, snaps, d, k);
    var g := if Held(s, d) then [] else GoodOf(reg, AllReadings(snaps), d, k);
    var c := CellOf(reg, s, d, k);
    var j, at := EventFrom(reg[k], c, g, i);
    FaultDiffer.DiffSays(Fold(reg[k], c, g[..j]).0.prev, g[j].facet, g[j].base);
    n, m := GoodFrom(reg, snaps, d, k, j);
  }

  // ---- Incidents ----

  lemma {:induction false} IncidentFold(df: Differ, c: Cell, g: seq<Reading>)
    requires DiffsIncidents(df)
    ensures var (c', events) := Synth.Fold(df, c, g);
            var was := IncidentDiffer.View(IncidentDiffer.Before(c.prev));
            IncidentDiffer.Fold(was, events) == IncidentDiffer.View(IncidentDiffer.Before(c'.prev)) &&
            IncidentDiffer.Lifecycle(was, events)
  {
    if g != [] {
      var n := |g| - 1;
      IncidentFold(df, c, g[..n]);
      var (c1, events) := Synth.Fold(df, c, g[..n]);
      IncidentDiffer.FoldConcat(IncidentDiffer.View(IncidentDiffer.Before(c.prev)), events,
                                IncidentDiffer.Diff(c1.prev, g[n].facet, g[n].base));
      IncidentDiffer.DiffReproduces(c1.prev, g[n].facet, g[n].base);
    }
  }

  /** Whatever polls are taken of whatever devices, replaying a sensor's events
      over the incidents it started with gives exactly the ids and assessments of
      its last good poll; each incident goes detected, updated any number of
      times, cleared, and every update is a change. */
  lemma {:induction false} IncidentStream(reg: Registry, s: State, snaps: seq<Snapshot>, d: DeviceId)
    requires "zone-incidents" in reg && DiffsIncidents(reg["zone-incidents"])
    ensures var (s', out) := ApplyAll(reg, s, snaps);
            var was := IncidentDiffer.View(IncidentDiffer.Before(CellOf(reg, s, d, "zone-incidents").prev));
            var events := EventsOf(out, d, "zone-incidents");
            IncidentDiffer.Fold(was, events) ==
            IncidentDiffer.View(IncidentDiffer.Before(CellOf(reg, s', d, "zone-incidents").prev)) &&
            IncidentDiffer.Lifecycle(was, events)
  {
    PollsProject(reg, s, snaps, d, "zone-incidents");
    IncidentFold(reg["zone-incidents"], CellOf(reg, s, d, "zone-incidents"),
                 if Held(s, d) then [] else GoodOf(reg, AllReadings(snaps), d, "zone-incidents"));
  }

  /** Every detection, in any run, carries an incident that the snapshot it is stamped
      with lists, exactly as listed; every update the zone and assessment of one; and
      every clear is stamped with a snapshot that lacks the incident. */
  lemma {:induction false} IncidentEventsSay(reg: Registry, s: State, snaps: seq<Snapshot>, d: DeviceId, i: nat)
    returns (n: nat, m: nat)
    requires "zone-incidents" in reg && DiffsIncidents(reg["zone-incidents"])
    requires i < |EventsOf(ApplyAll(reg, s, snaps).1, d, "zone-incidents")|
    ensures n < |snaps| && m < |snaps[n].facets| && "zone-incidents" !in snaps[n].failed && snaps[n].base.deviceId == d
    ensures var e := EventsOf(ApplyAll(reg, s, snaps).1, d, "zone-incidents")[i];
            var xs := IncidentDiffer.IncidentsOf(snaps[n].facets[m]);
            match e
            case IncidentDetected(base, x) => base == snaps[n].base && x in xs
            case IncidentUpdated(base, id, zone, severity, speed, reported, confidence) =>
              base == snaps[n].base &&
              exists x :: x in xs && x.id == id && x.zoneId == zone && x.severity == severity && x.speed == speed &&
                          x.speedReported == reported && x.confidence == confidence
            case IncidentCleared(base, id, _) => base == snaps[n].base && forall x :: x in xs ==> x.id != id
            case _ => false
  {
    var k := "zone-incidents";
    PollsProject(reg, s, snaps, d, k);
    var g := if Held(s, d) then [] else GoodOf(reg, AllReadings(snaps), d, k);
    var c := CellOf(reg, s, d, k);
    var j, at := EventFrom(reg[k], c, g, i);
    IncidentDiffer.DiffSays(Fold(reg[k], c, g[..j]).0.prev, g[j].facet, g[j].base);
    n, m := GoodFrom(reg, snaps, d, k, j);
  }

  // ---- Detector volumes ----

  /** The channel is in the reading, once. */
  predicate Samples(r: Reading, channel: uint32) {
    var samples := DetectorDiffer.SamplesOf(r.facet);
    DetectorDiffer.DistinctChannels(samples) && channel in DetectorDiffer.ByChannel(samples)
  }

  /** The channel's counter in a reading that has it. */
  function Count(r: Reading, channel: uint32): uint32 {
    var m := DetectorDiffer.ByChannel(DetectorDiffer.SamplesOf(r.facet));
    if channel in m then m[channel].volume else 0
  }

  /** The counter's value just before each reset, summed. */
  function ResetTotal(g: seq<Reading>, channel: uint32): int {
    if |g| < 2 then 0
    else
      var n := |g| - 1;
      ResetTotal(g[..n], channel) +
      if Count(g[n], channel) < Count(g[n - 1], channel) then Count(g[n - 1], channel) else 0
  }

  function TotalVolume(events: seq<Event>, channel: uint32): int {
    if events == [] then 0
    else
      var e := events[|events| - 1];
      TotalVolume(events[..|events| - 1], channel) +
      if e.DetectorReport? then DetectorDiffer.VolumeFor(e.readings, channel) else 0
  }

  /** Report i runs from reading i to reading i+1. */
  ghost predicate Tiles(events: seq<Event>, g: seq<Reading>) {
    && |events| + 1 == |g|
    && forall i :: 0 <= i < |events| ==>
         events[i].DetectorReport? &&
         events[i].start == g[i].base.occurredAt &&
         events[i].start + events[i].duration == g[i + 1].base.occurredAt
  }

  /** Every reading has the channel. */
  predicate AllSample(g: seq<Reading>, channel: uint32) {
    g == [] || (AllSample(g[..|g| - 1], channel) && Samples(g[|g| - 1], channel))
  }

  ghost predicate Conserves(events: seq<Event>, g: seq<Reading>, channel: uint32)
    requires g != []
  {
    && Tiles(events, g)
    && TotalVolume(events, channel) ==
       Count(g[|g| - 1], channel) - Count(g[0], channel) + ResetTotal(g, channel)
  }

  lemma TilesNext(events: seq<Event>, g: seq<Reading>, report: Event, r: Reading)
    requires g != [] && Tiles(events, g)
    requires report.DetectorReport? && report.start == g[|g| - 1].base.occurredAt
    requires report.start + report.duration == r.base.occurredAt
    ensures Tiles(events + [report], g + [r])
  {
  }

  lemma TotalsNext(events: seq<Event>, g: seq<Reading>, report: Event, r: Reading, channel: uint32)
    requires g != [] && report.DetectorReport?
    ensures TotalVolume(events + [report], channel) ==
            TotalVolume(events, channel) + DetectorDiffer.VolumeFor(report.readings, channel)
    ensures ResetTotal(g + [r], channel) ==
            ResetTotal(g, channel) +
            if Count(r, channel) < Count(g[|g| - 1], channel) then Count(g[|g| - 1], channel) else 0
  {
    assert (events + [report])[..|events|] == events;
    assert (g + [r])[..|g|] == g;
  }

  lemma DetectorNext(df: Differ, c: Cell, g: seq<Reading>, r: Reading, channel: uint32)
    requires DiffsDetectors(df)
    requires g != [] && Samples(g[|g| - 1], channel) && Samples(r, channel)
    requires Conserves(Fold(df, c, g).1, g, channel)
    ensures Conserves(Fold(df, c, g + [r]).1, g + [r], channel)
  {
    var was := g[|g| - 1];
    var events := Fold(df, c, g).1;
    CellIsLastReading(df, c, g);
    FoldNext(df, c, g, r);
    DetectorDiffer.ReportCovers(was.facet, was.base.occurredAt, r.facet, r.base, channel);
    var found := DetectorDiffer.Diff(Some(was.facet), Some(was.base.occurredAt), r.facet, r.base);
    assert found == [found[0]];
    assert Fold(df, c, g + [r]).1 == events + [found[0]];
    TilesNext(events, g, found[0], r);
    TotalsNext(events, g, found[0], r, channel);
  }

  lemma DetectorFirst(df: Differ, c: Cell, r: Reading, channel: uint32)
    requires DiffsDetectors(df) && c.last.None? && Samples(r, channel)
    ensures Conserves(Fold(df, c, [r]).1, [r], channel)
  {
    FoldNext(df, c, [], r);
    assert [] + [r] == [r];
    assert Fold(df, c, [r]).1 == [];
  }

  lemma {:induction false} DetectorFold(df: Differ, c: Cell, g: seq<Reading>, channel: uint32)
    requires DiffsDetectors(df)
    requires c.last.None? && g != [] && AllSample(g, channel)
    ensures Conserves(Fold(df, c, g).1, g, channel)
  {
    var n := |g| - 1;
    if n > 0 {
      DetectorFold(df, c, g[..n], channel);
      assert g == g[..n] + [g[n]];
      DetectorNext(df, c, g[..n], g[n], channel);
    } else {
      assert g == [g[0]];
      DetectorFirst(df, c, g[0], channel);
    }
  }

  /** Across any polls, failed ones and other devices' included, the reports of
      a device whose good readings all carry a channel meet end to start from
      its first good reading to its last, and their volumes for the channel add
      up to the counter's net advance plus its value at each reset. */
  lemma {:induction false} DetectorConservation(reg: Registry, s: State, snaps: seq<Snapshot>, d: DeviceId,
                                                channel: uint32)
    requires "detector-samples" in reg && DiffsDetectors(reg["detector-samples"])
    requires !Held(s, d) && LastOf(reg, s, d, "detector-samples").None?
    requires GoodOf(reg, AllReadings(snaps), d, "detector-samples") != []
    requires AllSample(GoodOf(reg, AllReadings(snaps), d, "detector-samples"), channel)
    ensures var g := GoodOf(reg, AllReadings(snaps), d, "detector-samples");
            var events := EventsOf(ApplyAll(reg, s, snaps).1, d, "detector-samples");
            Conserves(events, g, channel)
  {
    PollsProject(reg, s, snaps, d, "detector-samples");
    DetectorFold(reg["detector-samples"], CellOf(reg, s, d, "detector-samples"),
                 GoodOf(reg, AllReadings(snaps), d, "detector-samples"), channel);
  }
}
