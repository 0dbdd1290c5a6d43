/** The detector differ: cumulative counters to per-interval volumes. The one
    differ with a memory of its own, the previous sample time per device
    (internal/synth/detector.go). */
module DetectorDiffer {
  import opened Prelude
  import opened Model

  /** Later samples of the same channel win. */
  function ByChannel(samples: seq<DetectorSample>): map<uint32, DetectorSample> {
    if samples == [] then map[]
    else
      var s := samples[|samples| - 1];
      ByChannel(samples[..|samples| - 1])[s.channel := s]
  }

  /** A counter that went backwards was reset: its value is the count since. */
  function Delta(prev: uint32, curr: uint32): uint32 {
    if curr >= prev then curr - prev else curr
  }

  function SamplesOf(f: Facet): seq<DetectorSample> {
    if f.DetectorSamples? then f.samples else []
  }

  /** One reading per sample whose channel was sampled before, in sample order. */
  function Collect(before: map<uint32, DetectorSample>, samples: seq<DetectorSample>): seq<DetectorReading> {
    if samples == [] then []
    else
      var s := samples[|samples| - 1];
      Collect(before, samples[..|samples| - 1]) +
      (if s.channel in before
       then [DetectorReading(s.channel, Delta(before[s.channel].volume, s.volume), s.occupancy)]
       else [])
  }

  function Insert(r: seq<DetectorReading>, x: DetectorReading): seq<DetectorReading> {
    if r == [] || r[|r| - 1].channel <= x.channel then r + [x]
    else Insert(r[..|r| - 1], x) + [r[|r| - 1]]
  }

  function SortReadings(r: seq<DetectorReading>): seq<DetectorReading> {
    if r == [] then [] else Insert(SortReadings(r[..|r| - 1]), r[|r| - 1])
  }

  function Report(before: map<uint32, DetectorSample>, start: Time, curr: Facet, base: Base): seq<Event> {
    var readings := Collect(before, SamplesOf(curr));
    if readings == [] then []
    else [DetectorReport(base, start, base.occurredAt - start, SortReadings(readings))]
  }

  /** `Diff` as a function of the engine's previous facet and the differ's own
      previous sample time. */
  function Diff(prev: Option<Facet>, last: Option<Time>, curr: Facet, base: Base): seq<Event> {
    if last.None? || prev.None? then []
    else Report(ByChannel(SamplesOf(prev.value)), last.value, curr, base)
  }

  class Detector {
    var last: map<DeviceId, Time>

    constructor ()
      ensures last == map[]
    {
      last := map[];
    }

    /** `detectorDiffer.Diff`: the poll's time is remembered whatever is emitted. */
    method DiffSamples(prev: Option<Facet>, curr: Facet, base: Base) returns (events: seq<Event>)
      modifies this
      ensures last == old(last)[base.deviceId := base.occurredAt]
      ensures events ==
              Diff(prev, if base.deviceId in old(last) then Some(old(last)[base.deviceId]) else None, curr, base)
    {
      var hadPrev := base.deviceId in last;
      var start := if hadPrev then last[base.deviceId] else 0;
      last := last[base.deviceId := base.occurredAt];
      if !hadPrev || prev.None? {
        return [];
      }
      var before := BuildByChannel(SamplesOf(prev.value));
      var readings := CollectReadings(before, SamplesOf(curr));
      if |readings| == 0 {
        return [];
      }
      var sorted := SortByChannel(readings);
      return [DetectorReport(base, start, base.occurredAt - start, sorted)];
    }
  }

  /** `byChannel`. */
  method BuildByChannel(samples: seq<DetectorSample>) returns (m: map<uint32, DetectorSample>)
    ensures m == ByChannel(samples)
  {
    m := map[];
    for i := 0 to |samples|
      invariant m == ByChannel(samples[..i])
    {
      assert samples[..i + 1][..i] == samples[..i];
      m := m[samples[i].channel := samples[i]];
    }
    assert samples[..|samples|] == samples;
  }

  method CollectReadings(before: map<uint32, DetectorSample>, samples: seq<DetectorSample>)
    returns (readings: seq<DetectorReading>)
    ensures readings == Collect(before, samples)
  {
    readings := [];
    for i := 0 to |samples|
      invariant readings == Collect(before, samples[..i])
    {
      assert samples[..i + 1][..i] == samples[..i];
      var s := samples[i];
      if s.channel in before {
        readings := readings + [DetectorReading(s.channel, Delta(before[s.channel].volume, s.volume), s.occupancy)];
      }
    }
    assert samples[..|samples|] == samples;
  }

  method SortByChannel(readings: seq<DetectorReading>) returns (r: seq<DetectorReading>)
    ensures r == SortReadings(readings)
  {
    r := [];
    for i := 0 to |readings|
      invariant r == SortReadings(readings[..i])
    {
      assert readings[..i + 1][..i] == readings[..i];
      r := Insert(r, readings[i]);
    }
    assert readings[..|readings|] == readings;
  }

  // ---- What a report says about a channel ----

  /** Each channel at most once, as an adapter reports them. */
  predicate DistinctChannels(samples: seq<DetectorSample>) {
    forall i, j :: 0 <= i < j < |samples| ==> samples[i].channel != samples[j].channel
  }

  ghost predicate Ordered(r: seq<DetectorReading>) {
    forall i, j :: 0 <= i < j < |r| ==> r[i].channel <= r[j].channel
  }

  lemma {:induction false} InsertKeepsElements(r: seq<DetectorReading>, x: DetectorReading)
    ensures multiset(Insert(r, x)) == multiset(r) + multiset{x}
  {
    if r != [] && r[|r| - 1].channel > x.channel {
      var n := |r| - 1;
      InsertKeepsElements(r[..n], x);
      assert r == r[..n] + [r[n]];
    }
  }

  lemma {:induction false} InsertKeepsOrder(r: seq<DetectorReading>, x: DetectorReading)
    requires Ordered(r)
    ensures Ordered(Insert(r, x))
  {
    if r != [] && r[|r| - 1].channel > x.channel {
      var n := |r| - 1;
      InsertKeepsOrder(r[..n], x);
      InsertKeepsElements(r[..n], x);
      var s := Insert(r[..n], x);
      forall i | 0 <= i < |s| ensures s[i].channel <= r[n].channel {
        assert s[i] in multiset(s);
        assert s[i] in r[..n] || s[i] == x;
      }
    }
  }

  /** Sorting loses and invents no reading, and orders them by channel. */
  lemma {:induction false} SortKeepsElements(r: seq<DetectorReading>)
    ensures multiset(SortReadings(r)) == multiset(r)
    ensures Ordered(SortReadings(r))
  {
    if r != [] {
      var n := |r| - 1;
      SortKeepsElements(r[..n]);
      InsertKeepsElements(SortReadings(r[..n]), r[n]);
      InsertKeepsOrder(SortReadings(r[..n]), r[n]);
      SplitLast(r);
    }
  }

  /** Readings of one channel are one reading. */
  ghost predicate OnePerChannel(r: seq<DetectorReading>) {
    forall x, y :: x in r && y in r && x.channel == y.channel ==> x == y
  }

  lemma {:induction false} SplitLast(s: seq<DetectorReading>)
    requires s != []
    ensures multiset(s[..|s| - 1]) == multiset(s) - multiset{s[|s| - 1]}
    ensures s == s[..|s| - 1] + [s[|s| - 1]]
  {
    assert s == s[..|s| - 1] + [s[|s| - 1]];
  }

  lemma {:induction false} NoneAfterLast(s: seq<DetectorReading>, x: DetectorReading)
    requires Ordered(s) && x in multiset(s)
    ensures s != [] && x in s && x.channel <= s[|s| - 1].channel
  {
    var i :| 0 <= i < |s| && s[i] == x;
  }

  lemma {:induction false} LastMatches(s: seq<DetectorReading>, t: seq<DetectorReading>)
    requires Ordered(s) && Ordered(t) && multiset(s) == multiset(t) && OnePerChannel(s) && s != []
    ensures t != [] && s[|s| - 1] == t[|t| - 1]
  {
    var x := s[|s| - 1];
    assert x in multiset(s);
    NoneAfterLast(t, x);
    var y := t[|t| - 1];
    assert y in multiset(t);
    NoneAfterLast(s, y);
  }

  lemma {:induction false} InitIsOnePerChannel(s: seq<DetectorReading>)
    requires OnePerChannel(s) && s != []
    ensures OnePerChannel(s[..|s| - 1])
  {
    forall x, y | x in s[..|s| - 1] && y in s[..|s| - 1] && x.channel == y.channel ensures x == y {
      assert x in s && y in s;
    }
  }

  /** There is one channel order of given readings. */
  lemma {:induction false} OneOrder(s: seq<DetectorReading>, t: seq<DetectorReading>)
    requires Ordered(s) && Ordered(t) && multiset(s) == multiset(t) && OnePerChannel(s)
    ensures s == t
  {
    if s == [] {
      assert |multiset(t)| == 0;
    } else {
      LastMatches(s, t);
      SplitLast(s);
      SplitLast(t);
      InitIsOnePerChannel(s);
      OneOrder(s[..|s| - 1], t[..|t| - 1]);
    }
  }

  lemma {:induction false} CollectedOncePerChannel(before: map<uint32, DetectorSample>, samples: seq<DetectorSample>)
    requires DistinctChannels(samples)
    ensures OnePerChannel(Collect(before, samples))
    ensures forall x :: x in Collect(before, samples) ==>
              exists i :: 0 <= i < |samples| && samples[i].channel == x.channel
  {
    if samples != [] {
      CollectedOncePerChannel(before, samples[..|samples| - 1]);
    }
  }

  /** Whatever way the readings are put in channel order, stable or not, the report
      is the same. */
  lemma AnySortWillDo(before: map<uint32, DetectorSample>, samples: seq<DetectorSample>, sorted: seq<DetectorReading>)
    requires DistinctChannels(samples)
    requires Ordered(sorted) && multiset(sorted) == multiset(Collect(before, samples))
    ensures sorted == SortReadings(Collect(before, samples))
  {
    var readings := Collect(before, samples);
    CollectedOncePerChannel(before, samples);
    SortKeepsElements(readings);
    forall x ensures x in SortReadings(readings) <==> x in readings {
      assert x in multiset(readings) <==> x in multiset(SortReadings(readings));
    }
    OneOrder(SortReadings(readings), sorted);
  }

  /** The delta a list of readings carries for one channel: 0 if it has none. */
  function VolumeFor(readings: seq<DetectorReading>, channel: uint32): int {
    if readings == [] then 0
    else
      VolumeFor(readings[..|readings| - 1], channel) +
      (if readings[|readings| - 1].channel == channel then readings[|readings| - 1].volumeDelta else 0)
  }

  lemma {:induction false} VolumeConcat(a: seq<DetectorReading>, b: seq<DetectorReading>, channel: uint32)
    ensures VolumeFor(a + b, channel) == VolumeFor(a, channel) + VolumeFor(b, channel)
  {
    if b == [] {
      assert a + b == a;
    } else {
      var n := |b| - 1;
      assert (a + b)[..|a + b| - 1] == a + b[..n];
      VolumeConcat(a, b[..n], channel);
    }
  }

  lemma {:induction false} VolumeInsert(r: seq<DetectorReading>, x: DetectorReading, channel: uint32)
    ensures VolumeFor(Insert(r, x), channel) ==
            VolumeFor(r, channel) + if x.channel == channel then x.volumeDelta else 0
  {
    if r == [] || r[|r| - 1].channel <= x.channel {
      VolumeConcat(r, [x], channel);
      assert [x][..0] == [];
    } else {
      var n := |r| - 1;
      VolumeInsert(r[..n], x, channel);
      VolumeConcat(Insert(r[..n], x), [r[n]], channel);
      assert [r[n]][..0] == [];
    }
  }

  lemma {:induction false} VolumeSorted(r: seq<DetectorReading>, channel: uint32)
    ensures VolumeFor(SortReadings(r), channel) == VolumeFor(r, channel)
  {
    if r != [] {
      var n := |r| - 1;
      VolumeSorted(r[..n], channel);
      VolumeInsert(SortReadings(r[..n]), r[n], channel);
    }
  }

  lemma {:induction false} VolumeCollected(before: map<uint32, DetectorSample>, samples: seq<DetectorSample>,
                                           channel: uint32)
    requires DistinctChannels(samples)
    ensures VolumeFor(Collect(before, samples), channel) ==
            if channel in before && channel in ByChannel(samples)
            then Delta(before[channel].volume, ByChannel(samples)[channel].volume)
            else 0
    ensures channel in before && channel in ByChannel(samples) ==> Collect(before, samples) != []
    ensures channel in ByChannel(samples) ==> exists i :: 0 <= i < |samples| && samples[i].channel == channel
  {
    if samples != [] {
      var n := |samples| - 1;
      var s := samples[n];
      VolumeCollected(before, samples[..n], channel);
      var added := if s.channel in before
                   then [DetectorReading(s.channel, Delta(before[s.channel].volume, s.volume), s.occupancy)]
                   else [];
      VolumeConcat(Collect(before, samples[..n]), added, channel);
      if s.channel in before { assert added[..0] == []; }
    }
  }

  /** What one reading of a report says: the occupancy sampled now, and the vehicles
      counted since the sample before, or since the counter's reset. */
  ghost predicate Says(before: map<uint32, DetectorSample>, samples: seq<DetectorSample>, r: DetectorReading) {
    exists i :: 0 <= i < |samples| && SaysOf(before, samples[i], r)
  }

  predicate SaysOf(before: map<uint32, DetectorSample>, s: DetectorSample, r: DetectorReading) {
    s.channel == r.channel && s.channel in before && r.occupancy == s.occupancy &&
    r.volumeDelta == if s.volume >= before[s.channel].volume then s.volume - before[s.channel].volume else s.volume
  }

  lemma {:induction false} CollectedSay(before: map<uint32, DetectorSample>, samples: seq<DetectorSample>)
    ensures forall r :: r in Collect(before, samples) ==> Says(before, samples, r)
  {
    if samples != [] {
      var n := |samples| - 1;
      CollectedSay(before, samples[..n]);
      forall r | r in Collect(before, samples) ensures Says(before, samples, r) {
        if r in Collect(before, samples[..n]) {
          var i :| 0 <= i < n && SaysOf(before, samples[..n][i], r);
          assert SaysOf(before, samples[i], r);
        } else {
          assert SaysOf(before, samples[n], r);
        }
      }
    }
  }

  /** A report carries the poll's base, starts at the sample before and ends at the
      poll, and its readings are of the samples. */
  lemma {:induction false} ReportSays(prev: Facet, start: Time, curr: Facet, base: Base)
    ensures var events := Diff(Some(prev), Some(start), curr, base);
            |events| <= 1 &&
            forall e :: e in events ==>
              e.DetectorReport? && e.base == base && e.start == start && e.start + e.duration == base.occurredAt &&
              Ordered(e.readings) &&
              forall r :: r in e.readings ==> Says(ByChannel(SamplesOf(prev)), SamplesOf(curr), r)
  {
    var readings := Collect(ByChannel(SamplesOf(prev)), SamplesOf(curr));
    CollectedSay(ByChannel(SamplesOf(prev)), SamplesOf(curr));
    SortKeepsElements(readings);
    forall r | r in SortReadings(readings) ensures r in readings {
      assert r in multiset(SortReadings(readings));
    }
  }

  /** When a channel is in both samples, one report covers the whole interval
      between them and its volume for the channel is the counter's advance. */
  lemma ReportCovers(prev: Facet, start: Time, curr: Facet, base: Base, channel: uint32)
    requires DistinctChannels(SamplesOf(curr))
    requires channel in ByChannel(SamplesOf(prev)) && channel in ByChannel(SamplesOf(curr))
    ensures var events := Diff(Some(prev), Some(start), curr, base);
            |events| == 1 && events[0].DetectorReport? &&
            events[0].start == start && events[0].start + events[0].duration == base.occurredAt &&
            VolumeFor(events[0].readings, channel) ==
            Delta(ByChannel(SamplesOf(prev))[channel].volume, ByChannel(SamplesOf(curr))[channel].volume)
  {
    var before := ByChannel(SamplesOf(prev));
    VolumeCollected(before, SamplesOf(curr), channel);
    VolumeSorted(Collect(before, SamplesOf(curr)), channel);
  }
}
