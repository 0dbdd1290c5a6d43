/** What a consumer of the broker's stream, as opposed to the engine's events, can
    rebuild: from the adapters' snapshots through engine, sink, queue and broker
    (internal/synth/synth.go, internal/app/app.go, internal/publish/publish.go). */
module Consumer {
  import opened Prelude
  import opened Model
  import FaultDiffer
  import IncidentDiffer
  import Publish
  import Sink
  import Streams
  import Synth

  /** `source` says which of the engine's events an event given to the sink is, if
      it is one; `read` is the consumer's decoding of a message. */
  datatype Reader = Reader(source: Sink.Occurrence -> Option<Synth.Emitted>, read: Publish.Msg -> Option<Synth.Emitted>)

  /** The consumer can read what is published of the engine's events. */
  ghost predicate Legible(sys: Sink.System, c: Reader) {
    forall closed, ev :: Sink.Settled(sys, closed, ev).Accepted? ==>
      c.read(Sink.Settled(sys, closed, ev).msg) == c.source(ev)
  }

  function One(e: Option<Synth.Emitted>): seq<Synth.Emitted> {
    if e.Some? then [e.value] else []
  }

  /** The engine's events among those given. */
  function Sources(c: Reader, given: seq<Sink.Occurrence>): seq<Synth.Emitted> {
    if given == [] then [] else Sources(c, given[..|given| - 1]) + One(c.source(given[|given| - 1]))
  }

  /** The engine's events the consumer reads. */
  function ReadAll(c: Reader, msgs: seq<Publish.Msg>): seq<Synth.Emitted> {
    if msgs == [] then [] else ReadAll(c, msgs[..|msgs| - 1]) + One(c.read(msgs[|msgs| - 1]))
  }

  /** No event was dropped anywhere on the way, and none is still on it. */
  ghost predicate NothingDropped(w: Sink.World) {
    && (forall i :: 0 <= i < |w.log| ==> w.log[i].Accepted?)
    && w.pub.counters.queueFull == w.pub.counters.unpublishable == w.pub.counters.atShutdown == 0
    && w.pub.inflight.None? && w.pub.queue == []
  }

  lemma {:induction false} AllPublished(cfg: Publish.Config, p: Publish.Pub)
    requires Publish.Accounted(cfg, p) && Publish.Handled(p)
    requires p.counters.queueFull == p.counters.unpublishable == p.counters.atShutdown == 0
    requires p.inflight.None? && p.queue == []
    ensures |p.fates| == |p.accepted| && forall j :: 0 <= j < |p.fates| ==> p.fates[j] == Publish.Published
  {
    assert |p.accepted[|p.fates|..]| == 0;
    forall j | 0 <= j < |p.fates| ensures p.fates[j] == Publish.Published {
      assert p.fates[j] in multiset(p.fates);
      match p.fates[j]
      case Published =>
      case Evicted =>
      case Unpublishable =>
      case InFlight =>
      case CutShort =>
      case Abandoned =>
    }
  }

  lemma {:induction false} PickAll(accepted: seq<Publish.Msg>, fates: seq<Publish.Fate>, landed: bool)
    requires |fates| <= |accepted| && forall j :: 0 <= j < |fates| ==> fates[j] == Publish.Published
    ensures Publish.Pick(accepted, fates, landed) == accepted[..|fates|]
  {
    if fates != [] {
      var n := |fates| - 1;
      PickAll(accepted, fates[..n], landed);
      assert accepted[..n + 1] == accepted[..n] + [accepted[n]];
    }
  }

  lemma {:induction false} StreamIsAccepted(cfg: Publish.Config, steps: seq<Publish.Step>)
    requires cfg.capacity >= 1
    requires var p := Publish.Run(cfg, Publish.Start(), steps);
             Publish.DistinctIds(p.accepted) && p.inflight.None? && p.queue == [] &&
             p.counters.queueFull == p.counters.unpublishable == p.counters.atShutdown == 0
    ensures var p := Publish.Run(cfg, Publish.Start(), steps);
            p.stream == p.accepted
  {
    Publish.AlwaysAccounted(cfg, steps);
    Publish.AlwaysStreamed(cfg, steps);
    var p := Publish.Run(cfg, Publish.Start(), steps);
    AllPublished(cfg, p);
    PickAll(p.accepted, p.fates, p.landed);
    assert p.accepted[..|p.fates|] == p.accepted;
  }

  lemma {:induction false} AcceptedAreRead(sys: Sink.System, c: Reader, log: seq<Sink.Settlement>,
                                           given: seq<Sink.Occurrence>, closings: seq<bool>)
    requires Legible(sys, c) && |log| == |given| == |closings|
    requires forall i :: 0 <= i < |log| ==> log[i] == Sink.Settled(sys, closings[i], given[i]) && log[i].Accepted?
    ensures ReadAll(c, Sink.AcceptedOf(log)) == Sources(c, given)
  {
    if log != [] {
      var n := |log| - 1;
      AcceptedAreRead(sys, c, log[..n], given[..n], closings[..n]);
      var before := Sink.AcceptedOf(log[..n]);
      assert Sink.AcceptedOf(log) == before + [log[n].msg];
      assert (before + [log[n].msg])[..|before|] == before;
      assert c.read(log[n].msg) == c.source(given[n]);
    }
  }

  /** If nothing is dropped, what the consumer reads from the broker's stream is
      exactly the engine's events, in order and once each. */
  lemma {:induction false} StreamTellsEverything(sys: Sink.System, c: Reader, steps: seq<Sink.Step>)
    requires sys.publisher.capacity >= 1 && Legible(sys, c)
    requires Publish.DistinctIds(Sink.Run(sys, steps).pub.accepted) && NothingDropped(Sink.Run(sys, steps))
    ensures ReadAll(c, Sink.Run(sys, steps).pub.stream) == Sources(c, Sink.Given(steps))
  {
    Sink.AlwaysBalanced(sys, steps);
    Sink.PublisherRuns(sys, steps);
    StreamIsAccepted(sys.publisher, Sink.PublisherSteps(sys, steps));
    AcceptedAreRead(sys, c, Sink.Run(sys, steps).log, Sink.Given(steps), Sink.Closings(sys, steps));
  }

  /** The engine's events of one device and kind all reach the sink, in order; events
      of other devices, and of the collector itself, may come between them. */
  ghost predicate Fed(c: Reader, given: seq<Sink.Occurrence>, out: seq<Synth.Emitted>, d: DeviceId, k: Kind) {
    Synth.EventsOf(Sources(c, given), d, k) == Synth.EventsOf(out, d, k)
  }

  /** From snapshots to stream: whatever was polled, lost, retried and deduplicated on
      the way, a consumer of the broker's stream that replays a device's raises and
      clears over the faults it started with holds the faults of the device's last good
      poll, if nothing was dropped. */
  lemma {:induction false} ConsumerHoldsFaults(reg: Synth.Registry, s: Synth.State, snaps: seq<Snapshot>, d: DeviceId,
                                               sys: Sink.System, c: Reader, steps: seq<Sink.Step>)
    requires "fault-set" in reg && Streams.DiffsFaults(reg["fault-set"])
    requires sys.publisher.capacity >= 1 && Legible(sys, c)
    requires Publish.DistinctIds(Sink.Run(sys, steps).pub.accepted) && NothingDropped(Sink.Run(sys, steps))
    requires Fed(c, Sink.Given(steps), Synth.ApplyAll(reg, s, snaps).1, d, "fault-set")
    ensures var read := Synth.EventsOf(ReadAll(c, Sink.Run(sys, steps).pub.stream), d, "fault-set");
            var was := FaultDiffer.Before(Synth.CellOf(reg, s, d, "fault-set").prev).Keys;
            var now := FaultDiffer.Before(Synth.CellOf(reg, Synth.ApplyAll(reg, s, snaps).0, d, "fault-set").prev).Keys;
            FaultDiffer.Fold(was, read) == now && FaultDiffer.Lifecycle(was, read)
  {
    StreamTellsEverything(sys, c, steps);
    Streams.FaultStream(reg, s, snaps, d);
  }

  /** And one that replays a sensor's incident events holds its last good poll's ids
      and assessments. */
  lemma {:induction false} ConsumerHoldsIncidents(reg: Synth.Registry, s: Synth.State, snaps: seq<Snapshot>,
                                                  d: DeviceId,
                                                  sys: Sink.System, c: Reader, steps: seq<Sink.Step>)
    requires "zone-incidents" in reg && Streams.DiffsIncidents(reg["zone-incidents"])
    requires sys.publisher.capacity >= 1 && Legible(sys, c)
    requires Publish.DistinctIds(Sink.Run(sys, steps).pub.accepted) && NothingDropped(Sink.Run(sys, steps))
    requires Fed(c, Sink.Given(steps), Synth.ApplyAll(reg, s, snaps).1, d, "zone-incidents")
    ensures var k := "zone-incidents";
            var read := Synth.EventsOf(ReadAll(c, Sink.Run(sys, steps).pub.stream), d, k);
            var was := IncidentDiffer.View(IncidentDiffer.Before(Synth.CellOf(reg, s, d, k).prev));
            var now := IncidentDiffer.Before(Synth.CellOf(reg, Synth.ApplyAll(reg, s, snaps).0, d, k).prev);
            IncidentDiffer.Fold(was, read) == IncidentDiffer.View(now) && IncidentDiffer.Lifecycle(was, read)
  {
    StreamTellsEverything(sys, c, steps);
    Streams.IncidentStream(reg, s, snaps, d);
  }
}
