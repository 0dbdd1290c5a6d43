/** The sink every event passes through: encoded by the first emitter to claim it,
    given a source, and queued for publishing, or dropped and counted
    (internal/app/app.go). With the publisher, this accounts for every event. */
module Sink {
  import opened Prelude
  import Publish
  import Publisher
  import Subject
  import Tokens
  import SourceUrn

  /** A domain event, as far as the sink looks into it. */
  datatype Occurrence = Occurrence(deviceKind: string, deviceId: string, occurredAt: Time, body: Bytes)

  /** What an emitter makes of an event. */
  datatype Encoding = Failed | Declined | Claimed(ceType: string, data: Bytes, identity: Option<Bytes>)

  type Emitter = Occurrence -> Encoding

  /** `idOf` is the event id of a source, ce-type, time and identity. */
  datatype System = System(emitters: seq<Emitter>, tenant: SourceUrn.Tenant, tmpl: Subject.Template,
                           idOf: (string, string, Time, Bytes) -> string, publisher: Publish.Config)

  /** Where one event ends, as the sink sees it. */
  datatype Settlement = EncodeError | NoSource | NoEmitter | Refused | Accepted(msg: Publish.Msg)

  datatype Drops = Drops(encodeErrors: nat, noSource: nat, noEmitter: nat)

  /** The sink's counters, what became of each event so far, and the publisher. */
  datatype World = World(drops: Drops, log: seq<Settlement>, pub: Publish.Pub)

  /** The first emitter that does not decline decides. */
  function FirstClaim(emitters: seq<Emitter>, ev: Occurrence): Encoding {
    if emitters == [] then Declined
    else
      var e := emitters[0](ev);
      if e.Declined? then FirstClaim(emitters[1..], ev) else e
  }

  lemma {:induction false} FirstClaimIsFirst(emitters: seq<Emitter>, ev: Occurrence, i: nat)
    requires i <= |emitters| && forall j :: 0 <= j < i ==> emitters[j](ev).Declined?
    requires i < |emitters| ==> !emitters[i](ev).Declined?
    ensures FirstClaim(emitters, ev) == if i < |emitters| then emitters[i](ev) else Declined
  {
    if i > 0 {
      FirstClaimIsFirst(emitters[1..], ev, i - 1);
    }
  }

  /** The publisher's part: refused if the subject cannot be rendered, or when draining. */
  function Submitted(sys: System, closed: bool, ceType: string, id: string, data: Bytes, deviceId: string): Settlement {
    var subject := Subject.Rendered(sys.tmpl, ceType, deviceId);
    if subject.Err? || closed then Refused else Accepted(Publish.Msg(id, subject.value, data))
  }

  function Settled(sys: System, closed: bool, ev: Occurrence): Settlement {
    match FirstClaim(sys.emitters, ev)
    case Failed => EncodeError
    case Declined => NoEmitter
    case Claimed(ceType, data, identity) =>
      var source := SourceUrn.SourceFor(sys.tenant, ev.deviceKind, ev.deviceId);
      if source == "" then NoSource
      else
        var id := sys.idOf(source, ceType, ev.occurredAt, if identity.Some? then identity.value else data);
        Submitted(sys, closed, ceType, id, data, ev.deviceId)
  }

  function Bump(d: Drops, s: Settlement): Drops {
    match s
    case EncodeError => d.(encodeErrors := d.encodeErrors + 1)
    case NoSource => d.(noSource := d.noSource + 1)
    case NoEmitter => d.(noEmitter := d.noEmitter + 1)
    case _ => d
  }

  /** One event through the sink. */
  function Sunk(sys: System, w: World, ev: Occurrence): World {
    var s := Settled(sys, w.pub.closed, ev);
    World(Bump(w.drops, s), w.log + [s],
          if s.Accepted? then Publish.Enqueued(sys.publisher, w.pub, s.msg) else w.pub)
  }

  class Sink {
    const sys: System
    const publisher: Publisher.Publisher
    var encodeErrors: nat
    var noSource: nat
    var noEmitter: nat
    ghost var log: seq<Settlement>

    ghost predicate Valid()
      reads this, publisher
    {
      publisher.Valid() && publisher.cfg == sys.publisher && sys.publisher.capacity >= 1
    }

    ghost function View(): World
      reads this, publisher
    {
      World(Drops(encodeErrors, noSource, noEmitter), log, publisher.now)
    }

    constructor (sys: System, publisher: Publisher.Publisher)
      requires publisher.Valid() && publisher.cfg == sys.publisher && sys.publisher.capacity >= 1
      ensures Valid() && View() == World(Drops(0, 0, 0), [], publisher.now)
      ensures this.sys == sys && this.publisher == publisher
    {
      this.sys, this.publisher := sys, publisher;
      encodeErrors, noSource, noEmitter := 0, 0, 0;
      log := [];
    }

    /** `Publisher.Enqueue`, from the envelope. */
    method Submit(ceType: string, id: string, data: Bytes, deviceId: string) returns (refused: bool)
      requires Valid()
      modifies publisher`queue, publisher`counters, publisher`now, publisher`steps
      ensures Valid()
      ensures var s := Submitted(sys, publisher.closed, ceType, id, data, deviceId);
              refused == s.Refused? &&
              publisher.now == if refused then old(publisher.now)
                               else Publish.Enqueued(sys.publisher, old(publisher.now), s.msg)
    {
      var subject := Subject.Render(sys.tmpl, ceType, deviceId);
      if subject.Err? {
        return true;
      }
      refused := publisher.Enqueue(Publish.Msg(id, subject.value, data));
    }

    /** `encodeAndEnqueue`. */
    method EncodeAndEnqueue(ev: Occurrence)
      requires Valid()
      modifies this`encodeErrors, this`noSource, this`noEmitter, this`log
      modifies publisher`queue, publisher`counters, publisher`now, publisher`steps
      ensures Valid() && View() == Sunk(sys, old(View()), ev)
    {
      log := log + [Settled(sys, publisher.closed, ev)];
      for i := 0 to |sys.emitters|
        invariant FirstClaim(sys.emitters, ev) == FirstClaim(sys.emitters[i..], ev)
      {
        match sys.emitters[i](ev) {
          case Failed =>
            encodeErrors := encodeErrors + 1;
            return;
          case Declined =>
            assert sys.emitters[i..][1..] == sys.emitters[i + 1..];
          case Claimed(ceType, data, identity) =>
            var source := SourceUrn.SourceFor(sys.tenant, ev.deviceKind, ev.deviceId);
            if source == "" {
              noSource := noSource + 1;
              return;
            }
            var id := sys.idOf(source, ceType, ev.occurredAt, if identity.Some? then identity.value else data);
            var _ := Submit(ceType, id, data, ev.deviceId);
            return;
        }
      }
      noEmitter := noEmitter + 1;
    }

    /** The sink handed to runners, heartbeat and log shipper. */
    method Receive(events: seq<Occurrence>)
      requires Valid()
      modifies this`encodeErrors, this`noSource, this`noEmitter, this`log
      modifies publisher`queue, publisher`counters, publisher`now, publisher`steps
      ensures Valid() && View() == SunkAll(sys, old(View()), events)
    {
      for i := 0 to |events|
        invariant Valid() && View() == SunkAll(sys, old(View()), events[..i])
      {
        assert events[..i + 1][..i] == events[..i];
        EncodeAndEnqueue(events[i]);
      }
      assert events[..|events|] == events;
    }
  }

  function SunkAll(sys: System, w: World, events: seq<Occurrence>): World {
    if events == [] then w else Sunk(sys, SunkAll(sys, w, events[..|events| - 1]), events[|events| - 1])
  }

  // ---- What each settlement means ----

  /** The i-th emitter decides: all before it decline and it does not. */
  predicate Decides(emitters: seq<Emitter>, ev: Occurrence, i: nat) {
    i < |emitters| && !emitters[i](ev).Declined? && forall j :: 0 <= j < i ==> emitters[j](ev).Declined?
  }

  predicate AllDecline(emitters: seq<Emitter>, ev: Occurrence) {
    forall i :: 0 <= i < |emitters| ==> emitters[i](ev).Declined?
  }

  /** Exactly when an event ends as each kind of drop: no emitter when all decline; encode
      error when the emitter that decides fails; no source when it claims an event of
      a device kind without an entity kind; and otherwise the publisher has it. */
  lemma {:induction false} SettlesExactly(sys: System, closed: bool, ev: Occurrence, i: nat)
    requires AllDecline(sys.emitters, ev) || Decides(sys.emitters, ev, i)
    ensures var s := Settled(sys, closed, ev);
            if AllDecline(sys.emitters, ev) then s == NoEmitter
            else
              match sys.emitters[i](ev)
              case Failed => s == EncodeError
              case Claimed(_, _, _) =>
                if SourceUrn.EntityKind(ev.deviceKind).None? then s == NoSource else s.Refused? || s.Accepted?
  {
    FirstClaimIsFirst(sys.emitters, ev, if AllDecline(sys.emitters, ev) then |sys.emitters| else i);
  }

  /** The message an accepted event becomes: the claimed ce-type and the event's device
      id rendered, the claimed data, and the id of what was claimed. */
  ghost predicate MessageOf(sys: System, ev: Occurrence, m: Publish.Msg) {
    var claim := FirstClaim(sys.emitters, ev);
    claim.Claimed? &&
    Subject.Rendered(sys.tmpl, claim.ceType, ev.deviceId) == Ok(m.subject) &&
    m.data == claim.data &&
    m.id == sys.idOf(SourceUrn.SourceFor(sys.tenant, ev.deviceKind, ev.deviceId), claim.ceType, ev.occurredAt,
                     match claim.identity case Some(identity) => identity case None => claim.data)
  }

  lemma {:induction false} AcceptedMessage(sys: System, closed: bool, ev: Occurrence)
    requires Settled(sys, closed, ev).Accepted?
    ensures MessageOf(sys, ev, Settled(sys, closed, ev).msg)
  {
  }

  // ---- Whole runs: the sink and the publisher interleaved ----

  datatype Step = Sink(ev: Occurrence) | Publishing(step: Publish.Step)

  function Start(): World {
    World(Drops(0, 0, 0), [], Publish.Start())
  }

  /** Only the sink offers events to the publisher. */
  function Apply(sys: System, w: World, step: Step): World {
    match step
    case Sink(ev) => Sunk(sys, w, ev)
    case Publishing(s) => if s.Offer? then w else w.(pub := Publish.Apply(sys.publisher, w.pub, s))
  }

  function Run(sys: System, steps: seq<Step>): World {
    if steps == [] then Start() else Apply(sys, Run(sys, steps[..|steps| - 1]), steps[|steps| - 1])
  }

  /** The events given to the sink. */
  function Given(steps: seq<Step>): seq<Occurrence> {
    if steps == [] then []
    else
      var last := steps[|steps| - 1];
      Given(steps[..|steps| - 1]) + if last.Sink? then [last.ev] else []
  }

  /** Whether the publisher was draining when each event was given. */
  function Closings(sys: System, steps: seq<Step>): seq<bool> {
    if steps == [] then []
    else
      var n := |steps| - 1;
      Closings(sys, steps[..n]) + if steps[n].Sink? then [Run(sys, steps[..n]).pub.closed] else []
  }

  /** How many events had a settlement. */
  ghost function Count(log: seq<Settlement>, s: Settlement): nat {
    multiset(log)[s]
  }

  /** The messages of the accepted events, in the order they were given. */
  function AcceptedOf(log: seq<Settlement>): seq<Publish.Msg> {
    if log == [] then []
    else
      var s := log[|log| - 1];
      AcceptedOf(log[..|log| - 1]) + if s.Accepted? then [s.msg] else []
  }

  /** What one step is to the publisher: at most one step of its own. */
  function PublisherStep(sys: System, w: World, step: Step): Option<Publish.Step> {
    match step
    case Publishing(s) => if s.Offer? then None else Some(s)
    case Sink(ev) =>
      var s := Settled(sys, w.pub.closed, ev);
      if s.Accepted? then Some(Publish.Offer(s.msg)) else None
  }

  function PublisherSteps(sys: System, steps: seq<Step>): seq<Publish.Step> {
    if steps == [] then []
    else
      var n := |steps| - 1;
      var s := PublisherStep(sys, Run(sys, steps[..n]), steps[n]);
      PublisherSteps(sys, steps[..n]) + if s.Some? then [s.value] else []
  }

  lemma PublisherMoves(sys: System, w: World, step: Step)
    ensures var s := PublisherStep(sys, w, step);
            Apply(sys, w, step).pub == if s.Some? then Publish.Apply(sys.publisher, w.pub, s.value) else w.pub
  {
  }

  /** Seen from the publisher, a run of the whole is a run of the publisher. */
  lemma {:induction false} PublisherRuns(sys: System, steps: seq<Step>)
    ensures Run(sys, steps).pub == Publish.Run(sys.publisher, Publish.Start(), PublisherSteps(sys, steps))
  {
    if steps != [] {
      var n := |steps| - 1;
      PublisherRuns(sys, steps[..n]);
      var w := Run(sys, steps[..n]);
      PublisherMoves(sys, w, steps[n]);
      var s := PublisherStep(sys, w, steps[n]);
      if s.Some? {
        Publisher.RunNext(sys.publisher, Publish.Start(), PublisherSteps(sys, steps[..n]), s.value);
      } else {
        assert PublisherSteps(sys, steps) == PublisherSteps(sys, steps[..n]);
      }
    }
  }

  lemma OnlyOffersAreAccepted(cfg: Publish.Config, p: Publish.Pub, s: Publish.Step)
    requires !s.Offer?
    ensures Publish.Apply(cfg, p, s).accepted == p.accepted
    ensures p.closed ==> Publish.Apply(cfg, p, s).closed
  {
    match s
    case Provision(ok) =>
    case Next =>
    case Attempt(result) =>
    case Lands(index) =>
    case Quit =>
    case Finish =>
    case _ =>
  }

  /** What every interleaving keeps: the log holds the settlement of each event
      given, the counters are its tally, and the accepted sequence is its messages. */
  ghost predicate Balanced(sys: System, w: World, given: seq<Occurrence>, closings: seq<bool>) {
    && |w.log| == |given| == |closings|
    && (forall i :: 0 <= i < |given| ==> w.log[i] == Settled(sys, closings[i], given[i]))
    && w.drops == Drops(Count(w.log, EncodeError), Count(w.log, NoSource), Count(w.log, NoEmitter))
    && w.pub.accepted == AcceptedOf(w.log)
  }

  lemma SettlesNext(log: seq<Settlement>, s: Settlement)
    ensures AcceptedOf(log + [s]) == AcceptedOf(log) + if s.Accepted? then [s.msg] else []
  {
    assert (log + [s])[..|log|] == log;
  }

  lemma CountNext(log: seq<Settlement>, s: Settlement, t: Settlement)
    ensures Count(log + [s], t) == Count(log, t) + if s == t then 1 else 0
  {
    assert multiset(log + [s]) == multiset(log) + multiset{s};
  }

  lemma DropsNext(w: World, s: Settlement)
    requires w.drops == Drops(Count(w.log, EncodeError), Count(w.log, NoSource), Count(w.log, NoEmitter))
    ensures var log := w.log + [s];
            Bump(w.drops, s) == Drops(Count(log, EncodeError), Count(log, NoSource), Count(log, NoEmitter))
  {
    CountNext(w.log, s, EncodeError);
    CountNext(w.log, s, NoSource);
    CountNext(w.log, s, NoEmitter);
  }

  lemma {:induction false} AcceptedWhileOpen(sys: System, closed: bool, ev: Occurrence)
    ensures Settled(sys, closed, ev).Accepted? ==> !closed
  {
  }

  lemma {:induction false} SinkAccepts(sys: System, w: World, ev: Occurrence)
    ensures var s := Settled(sys, w.pub.closed, ev);
            Sunk(sys, w, ev).pub.accepted == w.pub.accepted + if s.Accepted? then [s.msg] else []
  {
    AcceptedWhileOpen(sys, w.pub.closed, ev);
  }

  lemma {:induction false} SinkBalances(sys: System, w: World, given: seq<Occurrence>, closings: seq<bool>,
                                        ev: Occurrence)
    requires Balanced(sys, w, given, closings)
    ensures Balanced(sys, Sunk(sys, w, ev), given + [ev], closings + [w.pub.closed])
  {
    var s := Settled(sys, w.pub.closed, ev);
    SinkAccepts(sys, w, ev);
    SettlesNext(w.log, s);
    DropsNext(w, s);
    forall i | 0 <= i < |given + [ev]|
      ensures (w.log + [s])[i] == Settled(sys, (closings + [w.pub.closed])[i], (given + [ev])[i])
    {
      if i < |given| {
        assert w.log[i] == Settled(sys, closings[i], given[i]);
      }
    }
  }

  lemma {:induction false} AlwaysBalanced(sys: System, steps: seq<Step>)
    ensures Balanced(sys, Run(sys, steps), Given(steps), Closings(sys, steps))
  {
    if steps != [] {
      var n := |steps| - 1;
      AlwaysBalanced(sys, steps[..n]);
      var w := Run(sys, steps[..n]);
      match steps[n]
      case Publishing(s) => if !s.Offer? { OnlyOffersAreAccepted(sys.publisher, w.pub, s); }
      case Sink(ev) => SinkBalances(sys, w, Given(steps[..n]), Closings(sys, steps[..n]), ev);
    }
  }

  /** The acceptance index of an accepted event. */
  function IndexOf(log: seq<Settlement>, i: nat): nat
    requires i <= |log|
  {
    |AcceptedOf(log[..i])|
  }

  lemma {:induction false} AcceptedAt(log: seq<Settlement>, i: nat)
    requires i < |log| && log[i].Accepted?
    ensures IndexOf(log, i) < |AcceptedOf(log)| && AcceptedOf(log)[IndexOf(log, i)] == log[i].msg
    decreases |log|
  {
    var n := |log| - 1;
    assert log[..n][..i] == log[..i];
    if i < n {
      AcceptedAt(log[..n], i);
    }
  }

  /** Acceptance indices are handed out in order, each once. */
  lemma {:induction false} IndicesAscend(log: seq<Settlement>, i: nat, j: nat)
    requires i < j < |log| && log[i].Accepted?
    ensures IndexOf(log, i) < IndexOf(log, j)
  {
    assert log[..j][..i] == log[..i];
    AcceptedAt(log[..j], i);
  }

  /** Where an accepted message is: its fate is decided or in the drainer's hands, or
      it is still queued. */
  ghost predicate Placed(p: Publish.Pub, at: nat, m: Publish.Msg) {
    if at < |p.fates|
    then (p.fates[at] == Publish.InFlight <==> p.inflight.Some? && p.at == at) &&
         (p.fates[at] == Publish.InFlight ==> p.inflight == Some(m))
    else at - |p.fates| < |p.queue| && p.queue[at - |p.fates|] == m
  }

  lemma {:induction false} AcceptedIsPlaced(cfg: Publish.Config, p: Publish.Pub, at: nat)
    requires Publish.Accounted(cfg, p) && Publish.Handled(p) && at < |p.accepted|
    ensures Placed(p, at, p.accepted[at])
  {
  }

  lemma {:induction false} IndexIsOwn(log: seq<Settlement>, i: nat)
    requires i < |log| && log[i].Accepted?
    ensures forall j :: 0 <= j < |log| && j != i && log[j].Accepted? ==> IndexOf(log, j) != IndexOf(log, i)
  {
    forall j | 0 <= j < |log| && j != i && log[j].Accepted? ensures IndexOf(log, j) != IndexOf(log, i) {
      if i < j { IndicesAscend(log, i, j); } else { IndicesAscend(log, j, i); }
    }
  }

  /** Each event ends in exactly one place: the i-th event given has the one
      settlement its encoding, its source and the publisher's draining give it, and,
      if that is acceptance, an acceptance index of its own whose message is its own
      and has exactly one fate or one place in the queue. */
  lemma {:induction false} EachEventEndsOnce(sys: System, steps: seq<Step>, i: nat)
    requires sys.publisher.capacity >= 1 && i < |Given(steps)|
    ensures var w := Run(sys, steps);
            |w.log| == |Given(steps)| == |Closings(sys, steps)| &&
            w.log[i] == Settled(sys, Closings(sys, steps)[i], Given(steps)[i])
    ensures var w := Run(sys, steps);
            w.log[i].Accepted? ==>
              var at := IndexOf(w.log, i);
              at < |w.pub.accepted| && w.pub.accepted[at] == w.log[i].msg && Placed(w.pub, at, w.log[i].msg) &&
              forall j :: 0 <= j < |w.log| && j != i && w.log[j].Accepted? ==> IndexOf(w.log, j) != at
  {
    AlwaysBalanced(sys, steps);
    var w := Run(sys, steps);
    if w.log[i].Accepted? {
      AcceptedAt(w.log, i);
      PublisherRuns(sys, steps);
      Publish.AlwaysAccounted(sys.publisher, PublisherSteps(sys, steps));
      AcceptedIsPlaced(sys.publisher, w.pub, IndexOf(w.log, i));
      IndexIsOwn(w.log, i);
    }
  }

  lemma {:induction false} LogSums(log: seq<Settlement>)
    ensures |log| == Count(log, EncodeError) + Count(log, NoSource) + Count(log, NoEmitter) + Count(log, Refused) +
                     |AcceptedOf(log)|
  {
    if log == [] {
      assert multiset(log) == multiset{};
    } else {
      var n := |log| - 1;
      LogSums(log[..n]);
      assert log == log[..n] + [log[n]];
      SettlesNext(log[..n], log[n]);
      CountNext(log[..n], log[n], EncodeError);
      CountNext(log[..n], log[n], NoSource);
      CountNext(log[..n], log[n], NoEmitter);
      CountNext(log[..n], log[n], Refused);
    }
  }

  /** The totals: at every moment of every run the events given are the encode
      errors, no-source and no-emitter drops and refusals in the log, what the
      publisher has counted, the one in flight and the queue. */
  lemma {:induction false} EveryEventEndsOnce(sys: System, steps: seq<Step>)
    requires sys.publisher.capacity >= 1
    ensures var w := Run(sys, steps);
            var c := w.pub.counters;
            w.drops == Drops(Count(w.log, EncodeError), Count(w.log, NoSource), Count(w.log, NoEmitter)) &&
            |Given(steps)| ==
            w.drops.encodeErrors + w.drops.noSource + w.drops.noEmitter + Count(w.log, Refused) +
            c.published + c.queueFull + c.unpublishable + c.atShutdown +
            (if w.pub.inflight.Some? then 1 else 0) + |w.pub.queue|
    ensures var w := Run(sys, steps);
            var c := w.pub.counters;
            w.pub.finished ==>
              |Given(steps)| ==
              w.drops.encodeErrors + w.drops.noSource + w.drops.noEmitter + Count(w.log, Refused) +
              c.published + c.queueFull + c.unpublishable + c.atShutdown
  {
    AlwaysBalanced(sys, steps);
    LogSums(Run(sys, steps).log);
    PublisherRuns(sys, steps);
    Publish.EveryEventIsAccountedFor(sys.publisher, PublisherSteps(sys, steps));
    if Run(sys, steps).pub.finished {
      Publish.DrainSettlesEverything(sys.publisher, PublisherSteps(sys, steps));
    }
  }

  // ---- With boot validation, only draining refuses ----

  /** Boot has accepted the ce-types the emitters declare, and they claim no others. */
  ghost predicate Booted(sys: System, ceTypes: seq<string>, devices: seq<string>) {
    && Subject.WellFormed(sys.tmpl) && Subject.Accepts(sys.tmpl, ceTypes, devices)
    && forall i, ev :: 0 <= i < |sys.emitters| && sys.emitters[i](ev).Claimed? ==> sys.emitters[i](ev).ceType in ceTypes
  }

  lemma {:induction false} ClaimsAreListed(emitters: seq<Emitter>, ceTypes: seq<string>, ev: Occurrence)
    requires forall i :: 0 <= i < |emitters| && emitters[i](ev).Claimed? ==> emitters[i](ev).ceType in ceTypes
    requires FirstClaim(emitters, ev).Claimed?
    ensures FirstClaim(emitters, ev).ceType in ceTypes
  {
    if emitters[0](ev).Declined? {
      ClaimsAreListed(emitters[1..], ceTypes, ev);
    }
  }

  /** The device id is not a legal token, and the template renders it. An adapter
      names the device of its snapshots, so this can be true of an event although
      every configured id is legal. */
  predicate Unroutable(t: Subject.Template, deviceId: string) {
    Subject.Uses(t, Subject.Device) && !Tokens.Legal(Subject.DeviceToken(t, deviceId))
  }

  /** What an event needs to reach the publisher at all. */
  predicate Publishable(sys: System, ev: Occurrence) {
    FirstClaim(sys.emitters, ev).Claimed? && SourceUrn.EntityKind(ev.deviceKind).Some?
  }

  /** Exactly when an event is refused, and so lost uncounted, by a booted collector:
      an emitter claims it, its device kind has a source, and either the publisher is
      draining or the device id the event carries cannot be rendered. */
  lemma {:induction false} RefusedExactlyWhen(sys: System, ceTypes: seq<string>, devices: seq<string>, closed: bool,
                                              ev: Occurrence)
    requires Booted(sys, ceTypes, devices)
    ensures Settled(sys, closed, ev).Refused? <==>
            Publishable(sys, ev) && (closed || Unroutable(sys.tmpl, ev.deviceId))
  {
    if FirstClaim(sys.emitters, ev).Claimed? {
      ClaimsAreListed(sys.emitters, ceTypes, ev);
      var i :| 0 <= i < |ceTypes| && ceTypes[i] == FirstClaim(sys.emitters, ev).ceType;
      Subject.AcceptedMeansRoutable(sys.tmpl, ceTypes, devices, i, "");
    }
  }

  /** The filter of the namespace of what an event is claimed as captures its message. */
  ghost predicate Routed(sys: System, ev: Occurrence, m: Publish.Msg)
    requires FirstClaim(sys.emitters, ev).Claimed?
  {
    var ce := Subject.Decompose(FirstClaim(sys.emitters, ev).ceType);
    ce.Ok? && Subject.Binding(sys.tmpl, ce.value.namespace).Ok? &&
    Tokens.Captures(Subject.Binding(sys.tmpl, ce.value.namespace).value, m.subject) &&
    Tokens.Split(m.subject) == Subject.Texts(sys.tmpl, ce.value, ev.deviceId) &&
    Tokens.AllLegal(Tokens.Split(m.subject))
  }

  /** Nothing a booted collector accepts, from whatever device, can miss its stream: its
      subject is the template filled in, token by token, every token legal, and the
      filter of its namespace captures it. */
  lemma {:induction false} AcceptedIsRouted(sys: System, ceTypes: seq<string>, devices: seq<string>, closed: bool,
                                            ev: Occurrence)
    requires Booted(sys, ceTypes, devices) && Settled(sys, closed, ev).Accepted?
    ensures FirstClaim(sys.emitters, ev).Claimed?
    ensures Routed(sys, ev, Settled(sys, closed, ev).msg)
  {
    AcceptedMessage(sys, closed, ev);
    RefusedExactlyWhen(sys, ceTypes, devices, closed, ev);
    ClaimsAreListed(sys.emitters, ceTypes, ev);
    var ceType := FirstClaim(sys.emitters, ev).ceType;
    var i :| 0 <= i < |ceTypes| && ceTypes[i] == ceType;
    assert ([""] + devices)[0] == "";
    Subject.PassesExactlyWhen(sys.tmpl, ceType, "");
    Subject.LegalTexts(sys.tmpl, Subject.Decompose(ceType).value, ev.deviceId);
    Subject.RenderedTokens(sys.tmpl, ceType, ev.deviceId);
    Subject.CapturedByItsFilter(sys.tmpl, ceType, ev.deviceId);
  }

  lemma {:induction false} AcceptedIsGiven(log: seq<Settlement>, m: Publish.Msg) returns (i: nat)
    requires m in AcceptedOf(log)
    ensures i < |log| && log[i] == Accepted(m)
  {
    var n := |log| - 1;
    if m in AcceptedOf(log[..n]) {
      i := AcceptedIsGiven(log[..n], m);
    } else {
      i := n;
    }
  }

  /** Every message in the broker's stream, in every run of a booted collector, is the
      message of an event that was given, and is captured by its namespace's filter. */
  lemma {:induction false} StreamIsRouted(sys: System, ceTypes: seq<string>, devices: seq<string>, steps: seq<Step>,
                                          k: nat)
    returns (i: nat)
    requires Booted(sys, ceTypes, devices) && sys.publisher.capacity >= 1
    requires k < |Run(sys, steps).pub.stream|
    ensures i < |Given(steps)|
    ensures FirstClaim(sys.emitters, Given(steps)[i]).Claimed?
    ensures MessageOf(sys, Given(steps)[i], Run(sys, steps).pub.stream[k])
    ensures Routed(sys, Given(steps)[i], Run(sys, steps).pub.stream[k])
  {
    AlwaysBalanced(sys, steps);
    PublisherRuns(sys, steps);
    Publish.StreamIsOfAccepted(sys.publisher, PublisherSteps(sys, steps));
    var w := Run(sys, steps);
    i := AcceptedIsGiven(w.log, w.pub.stream[k]);
    AcceptedMessage(sys, Closings(sys, steps)[i], Given(steps)[i]);
    AcceptedIsRouted(sys, ceTypes, devices, Closings(sys, steps)[i], Given(steps)[i]);
  }

  /** An event of a configured device, or of none, is always routable. */
  lemma {:induction false} ConfiguredIsRoutable(sys: System, ceTypes: seq<string>, devices: seq<string>, ev: Occurrence)
    requires Booted(sys, ceTypes, devices) && ceTypes != [] && (ev.deviceId == "" || ev.deviceId in devices)
    ensures !Unroutable(sys.tmpl, ev.deviceId)
  {
    Subject.AcceptedMeansRoutable(sys.tmpl, ceTypes, devices, 0, ev.deviceId);
  }

  /** So it is refused exactly when it would be published and the publisher is draining. */
  lemma {:induction false} RefusedExactlyWhenDraining(sys: System, ceTypes: seq<string>, devices: seq<string>,
                                                      closed: bool, ev: Occurrence)
    requires Booted(sys, ceTypes, devices) && (ev.deviceId == "" || ev.deviceId in devices)
    ensures Settled(sys, closed, ev).Refused? <==> closed && Publishable(sys, ev)
  {
    RefusedExactlyWhen(sys, ceTypes, devices, closed, ev);
    if FirstClaim(sys.emitters, ev).Claimed? {
      ClaimsAreListed(sys.emitters, ceTypes, ev);
      ConfiguredIsRoutable(sys, ceTypes, devices, ev);
    }
  }

  /** Over whole runs: which of the events given were refused, each at the time it
      was given. */
  lemma {:induction false} RefusalsExactlyWhen(sys: System, ceTypes: seq<string>, devices: seq<string>,
                                               steps: seq<Step>, i: nat)
    requires Booted(sys, ceTypes, devices) && i < |Given(steps)|
    ensures |Run(sys, steps).log| == |Given(steps)| == |Closings(sys, steps)|
    ensures Run(sys, steps).log[i] == Refused <==>
            Publishable(sys, Given(steps)[i]) &&
            (Closings(sys, steps)[i] || Unroutable(sys.tmpl, Given(steps)[i].deviceId))
  {
    AlwaysBalanced(sys, steps);
    RefusedExactlyWhen(sys, ceTypes, devices, Closings(sys, steps)[i], Given(steps)[i]);
  }

  lemma {:induction false} GivenByDevices(steps: seq<Step>, devices: seq<string>, i: nat)
    requires forall j :: 0 <= j < |steps| && steps[j].Sink? ==>
               steps[j].ev.deviceId == "" || steps[j].ev.deviceId in devices
    requires i < |Given(steps)|
    ensures Given(steps)[i].deviceId == "" || Given(steps)[i].deviceId in devices
  {
    var n := |steps| - 1;
    if i < |Given(steps[..n])| {
      GivenByDevices(steps[..n], devices, i);
    }
  }

  lemma DrainingStays(sys: System, w: World, step: Step)
    requires w.pub.closed
    ensures Apply(sys, w, step).pub.closed
  {
    match step
    case Publishing(s) => if !s.Offer? { OnlyOffersAreAccepted(sys.publisher, w.pub, s); }
    case Sink(ev) =>
  }

  lemma {:induction false} OpenThroughout(sys: System, steps: seq<Step>, i: nat)
    requires !Run(sys, steps).pub.closed && i < |Closings(sys, steps)|
    ensures !Closings(sys, steps)[i]
  {
    var n := |steps| - 1;
    if Run(sys, steps[..n]).pub.closed {
      DrainingStays(sys, Run(sys, steps[..n]), steps[n]);
    }
    if i < |Closings(sys, steps[..n])| {
      OpenThroughout(sys, steps[..n], i);
    }
  }

  /** Until shutdown begins, and so in all that runners, heartbeat and shipper ever
      give, only an unroutable device id is refused. */
  lemma {:induction false} RefusedBeforeDrainExactlyWhen(sys: System, ceTypes: seq<string>, devices: seq<string>,
                                                         steps: seq<Step>, i: nat)
    requires Booted(sys, ceTypes, devices) && i < |Given(steps)| && !Run(sys, steps).pub.closed
    ensures |Run(sys, steps).log| == |Given(steps)|
    ensures Run(sys, steps).log[i] == Refused <==>
            Publishable(sys, Given(steps)[i]) && Unroutable(sys.tmpl, Given(steps)[i].deviceId)
  {
    RefusalsExactlyWhen(sys, ceTypes, devices, steps, i);
    OpenThroughout(sys, steps, i);
  }

  /** So, if every event is of a configured device or of none, it then refuses nothing. */
  lemma {:induction false} NothingRefusedBeforeDrain(sys: System, ceTypes: seq<string>, devices: seq<string>,
                                                     steps: seq<Step>)
    requires Booted(sys, ceTypes, devices)
    requires forall i :: 0 <= i < |steps| && steps[i].Sink? ==>
               steps[i].ev.deviceId == "" || steps[i].ev.deviceId in devices
    requires !Run(sys, steps).pub.closed
    ensures Refused !in Run(sys, steps).log
  {
    AlwaysBalanced(sys, steps);
    var w := Run(sys, steps);
    forall i | 0 <= i < |w.log| ensures w.log[i] != Refused {
      GivenByDevices(steps, devices, i);
      OpenThroughout(sys, steps, i);
      RefusedExactlyWhenDraining(sys, ceTypes, devices, false, Given(steps)[i]);
    }
  }
}
