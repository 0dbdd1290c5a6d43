/** The pipeline end to end: ids computed from the event make the stream hold each
    occurrence once (internal/app/app.go, internal/cloudevents/eventid.go,
    internal/publish/publish.go). */
module Occurrences {
  import opened Prelude
  import opened Sink
  import EventId
  import Publish
  import SourceUrn

  /** `idOf` is `EventID` of the UTF-8 bytes of source and ce-type. */
  ghost predicate Hashing(sys: System, p: EventId.Primitives, utf8: string -> Bytes) {
    forall source, ceType, at, identity ::
      sys.idOf(source, ceType, at, identity) ==
      EventId.IdOf(p, EventId.Event(utf8(source), utf8(ceType), at, identity))
  }

  /** The occurrence a claimed event is. */
  function OccurrenceOf(sys: System, utf8: string -> Bytes, ev: Occurrence): EventId.Event {
    match FirstClaim(sys.emitters, ev)
    case Claimed(ceType, data, identity) =>
      EventId.Event(utf8(SourceUrn.SourceFor(sys.tenant, ev.deviceKind, ev.deviceId)), utf8(ceType), ev.occurredAt,
                    if identity.Some? then identity.value else data)
    case _ => EventId.Event([], [], ev.occurredAt, [])
  }

  predicate SameOccurrence(a: EventId.Event, b: EventId.Event) {
    a.source == b.source && a.ceType == b.ceType && EventId.Millis(a.at) == EventId.Millis(b.at) &&
    a.identity == b.identity
  }

  /** The events accepted, in order. */
  function AcceptedEvents(log: seq<Settlement>, given: seq<Occurrence>): seq<Occurrence>
    requires |log| == |given|
  {
    if log == [] then []
    else
      var n := |log| - 1;
      AcceptedEvents(log[..n], given[..n]) + if log[n].Accepted? then [given[n]] else []
  }

  lemma {:induction false} AcceptedIdOf(sys: System, p: EventId.Primitives, utf8: string -> Bytes, closed: bool,
                                        ev: Occurrence)
    requires Hashing(sys, p, utf8) && Settled(sys, closed, ev).Accepted?
    ensures Settled(sys, closed, ev).msg.id == EventId.IdOf(p, OccurrenceOf(sys, utf8, ev))
  {
  }

  lemma {:induction false} AcceptedIds(sys: System, p: EventId.Primitives, utf8: string -> Bytes,
                                       log: seq<Settlement>, given: seq<Occurrence>, closings: seq<bool>, i: nat)
    requires Hashing(sys, p, utf8) && |log| == |given| == |closings|
    requires forall j :: 0 <= j < |log| ==> log[j] == Settled(sys, closings[j], given[j])
    requires i < |AcceptedOf(log)|
    ensures |AcceptedEvents(log, given)| == |AcceptedOf(log)|
    ensures AcceptedOf(log)[i].id == EventId.IdOf(p, OccurrenceOf(sys, utf8, AcceptedEvents(log, given)[i]))
  {
    SameLength(log, given);
    var n := |log| - 1;
    if i < |AcceptedOf(log[..n])| {
      AcceptedIds(sys, p, utf8, log[..n], given[..n], closings[..n], i);
    } else {
      SameLength(log[..n], given[..n]);
      AcceptedIdOf(sys, p, utf8, closings[n], given[n]);
    }
  }

  lemma {:induction false} SameLength(log: seq<Settlement>, given: seq<Occurrence>)
    requires |log| == |given|
    ensures |AcceptedEvents(log, given)| == |AcceptedOf(log)|
  {
    if log != [] {
      SameLength(log[..|log| - 1], given[..|log| - 1]);
    }
  }

  /** The occurrences accepted in a run. */
  function Accepted(sys: System, utf8: string -> Bytes, steps: seq<Step>): (es: seq<EventId.Event>)
    requires |Run(sys, steps).log| == |Given(steps)|
  {
    var evs := AcceptedEvents(Run(sys, steps).log, Given(steps));
    seq(|evs|, i requires 0 <= i < |evs| => OccurrenceOf(sys, utf8, evs[i]))
  }

  /** No separators in the framing, times in range, and no digest collisions. */
  ghost predicate Hashable(p: EventId.Primitives, es: seq<EventId.Event>) {
    && (forall i :: 0 <= i < |es| ==> EventId.Framed(p, es[i]))
    && (forall i, j :: 0 <= i < j < |es| ==> EventId.NoCollision(p, es[i], es[j]))
  }

  predicate AllDifferent(es: seq<EventId.Event>) {
    forall i, j :: 0 <= i < j < |es| ==> !SameOccurrence(es[i], es[j])
  }

  lemma {:induction false} IdsTellOccurrences(p: EventId.Primitives, es: seq<EventId.Event>, msgs: seq<Publish.Msg>)
    requires |es| == |msgs| && forall i :: 0 <= i < |msgs| ==> msgs[i].id == EventId.IdOf(p, es[i])
    requires Hashable(p, es)
    ensures Publish.DistinctIds(msgs) <==> AllDifferent(es)
  {
    forall i, j | 0 <= i < j < |es| ensures msgs[i].id == msgs[j].id <==> SameOccurrence(es[i], es[j]) {
      EventId.SameIdExactlyWhen(p, es[i], es[j]);
    }
  }

  /** In every run of the pipeline, the accepted messages have distinct ids exactly
      when the accepted events are different occurrences. */
  lemma {:induction false} DistinctIdsExactlyWhen(sys: System, p: EventId.Primitives, utf8: string -> Bytes,
                                                  steps: seq<Step>)
    requires Hashing(sys, p, utf8)
    ensures |Run(sys, steps).log| == |Given(steps)|
    ensures Hashable(p, Accepted(sys, utf8, steps)) ==>
              (Publish.DistinctIds(Run(sys, steps).pub.accepted) <==> AllDifferent(Accepted(sys, utf8, steps)))
  {
    AlwaysBalanced(sys, steps);
    var w, given := Run(sys, steps), Given(steps);
    SameLength(w.log, given);
    var es := Accepted(sys, utf8, steps);
    forall i | 0 <= i < |es| ensures w.pub.accepted[i].id == EventId.IdOf(p, es[i]) {
      AcceptedIds(sys, p, utf8, w.log, given, Closings(sys, steps), i);
    }
    if Hashable(p, es) {
      IdsTellOccurrences(p, es, w.pub.accepted);
    }
  }

  /** So a run that accepts different occurrences, whatever is lost and retried on the
      way, puts no message in the stream twice and every published one in it. */
  lemma {:induction false} OccurrencesArePublishedOnce(sys: System, p: EventId.Primitives, utf8: string -> Bytes,
                                                       steps: seq<Step>)
    requires sys.publisher.capacity >= 1 && Hashing(sys, p, utf8)
    requires |Run(sys, steps).log| == |Given(steps)|
    requires Hashable(p, Accepted(sys, utf8, steps)) && AllDifferent(Accepted(sys, utf8, steps))
    ensures var pub := Run(sys, steps).pub;
            Publish.DistinctIds(pub.stream) && |pub.fates| <= |pub.accepted| &&
            (forall j :: 0 <= j < |pub.fates| && pub.fates[j] == Publish.Published ==> pub.accepted[j] in pub.stream) &&
            |pub.stream| == pub.counters.published + if pub.landed then 1 else 0
  {
    DistinctIdsExactlyWhen(sys, p, utf8, steps);
    PublisherRuns(sys, steps);
    Publish.ExactlyOnce(sys.publisher, PublisherSteps(sys, steps));
  }
}
