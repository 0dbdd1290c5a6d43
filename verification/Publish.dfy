/** The publisher's queue and its one drainer, against a broker that keeps its
    store and drops repeated message ids (internal/publish/publish.go). */
module Publish {
  import opened Prelude

  datatype Msg = Msg(id: string, subject: string, data: Bytes)

  /** `capacity` is the queue bound; `rejects` is the broker's permanent refusal,
      a property of the message alone. */
  datatype Config = Config(capacity: nat, rejects: Msg -> bool)

  /** What became of an accepted event that has left the queue: acknowledged,
      evicted by a full queue, never acceptable, in the drainer's hands, in its
      hands when it was stopped, or still queued when it was. */
  datatype Fate = Published | Evicted | Unpublishable | InFlight | CutShort | Abandoned

  datatype Counters = Counters(published: nat, queueFull: nat, unpublishable: nat, atShutdown: nat)

  /** Where the drainer is: at the top of its loop or about to look at the queue,
      waiting in `next` after finding it empty, backing off, or returned. */
  datatype Phase = AtTop | Waiting | BackingOff | Exited

  /** The publisher, then its history: the events accepted, the fates of those that
      left the queue, the index of the one in flight, whether it has been sent at all
      and whether the broker has stored it, and the broker's stream. */
  datatype Pub = Pub(queue: seq<Msg>, closed: bool, stopped: bool, provisioned: bool, inflight: Option<Msg>,
                     phase: Phase, finished: bool, counters: Counters,
                     accepted: seq<Msg>, fates: seq<Fate>, at: nat, tried: bool, landed: bool, stream: seq<Msg>)

  /** How one publish attempt of an acceptable message ends. */
  datatype Attempt = Acked | AckLost | NotStored

  datatype Step =
    | Offer(msg: Msg)
    | Provision(ok: bool)
    | Next
    | Attempt(result: Attempt)
    | Lands(index: nat)
    | Retry
    | Quit
    | Close
    | Stop
    | Finish

  function Start(): Pub {
    Pub([], false, false, false, None, AtTop, false, Counters(0, 0, 0, 0), [], [], 0, false, false, [])
  }

  // ---- The steps ----

  /** `Enqueue`, once the subject is rendered: refused when draining, and a full
      queue evicts its oldest event. */
  function Enqueued(cfg: Config, p: Pub, m: Msg): Pub {
    if p.closed then p
    else
      var full := |p.queue| >= cfg.capacity && p.queue != [];
      p.(queue := (if full then p.queue[1..] else p.queue) + [m],
         accepted := p.accepted + [m],
         fates := if full then p.fates + [Evicted] else p.fates,
         counters := if full then p.counters.(queueFull := p.counters.queueFull + 1) else p.counters)
  }

  /** The top of the drain loop: return if drained empty, else provision the streams. */
  function Provisioned(p: Pub, ok: bool): Pub {
    if p.phase != AtTop || p.provisioned then p
    else if p.inflight.None? && p.closed && p.queue == [] then p.(phase := Exited)
    else if ok then p.(provisioned := true)
    else p.(phase := BackingOff)
  }

  /** `next`, one look: take the oldest queued event, return when draining with none
      left, or wait. */
  function Took(p: Pub): Pub {
    if p.phase != AtTop || !p.provisioned || p.inflight.Some? then p
    else if p.queue != [] then
      p.(inflight := Some(p.queue[0]), queue := p.queue[1..],
         fates := p.fates + [InFlight], at := |p.fates|, tried := false, landed := false)
    else if p.closed then p.(phase := Exited)
    else p.(phase := Waiting)
  }

  /** The broker appends a message unless it has one with the same id. */
  function Deliver(stream: seq<Msg>, m: Msg): seq<Msg> {
    if exists i :: 0 <= i < |stream| && stream[i].id == m.id then stream else stream + [m]
  }

  /** One publish attempt and the switch on its error. */
  function Attempted(cfg: Config, p: Pub, result: Attempt): Pub {
    if p.phase != AtTop || !p.provisioned || p.inflight.None? || p.at >= |p.fates| then p
    else
      var m := p.inflight.value;
      if cfg.rejects(m) then
        p.(inflight := None, fates := p.fates[p.at := Unpublishable],
           counters := p.counters.(unpublishable := p.counters.unpublishable + 1))
      else
        match result
        case Acked =>
          p.(stream := Deliver(p.stream, m), inflight := None, landed := false,
             fates := p.fates[p.at := Published],
             counters := p.counters.(published := p.counters.published + 1))
        case AckLost =>
          p.(stream := Deliver(p.stream, m), tried := true, landed := true, provisioned := false, phase := BackingOff)
        case NotStored =>
          p.(tried := true, provisioned := false, phase := BackingOff)
  }

  /** A message that was sent, of any attempt so far, may still reach the broker. */
  predicate MayLand(cfg: Config, p: Pub, index: nat) {
    index < |p.fates| && index < |p.accepted| && !cfg.rejects(p.accepted[index]) &&
    (p.fates[index] == Published ||
     (index == p.at && p.tried && (p.fates[index] == InFlight || p.fates[index] == CutShort)))
  }

  /** An attempt already reported as timed out reaches the broker late: between
      retries, after a later attempt was acknowledged, or after the drainer stopped. */
  function LandedLate(cfg: Config, p: Pub, index: nat): Pub {
    if !MayLand(cfg, p, index) then p
    else p.(stream := Deliver(p.stream, p.accepted[index]), landed := p.landed || p.fates[index] != Published)
  }

  /** The drainer notices the hard stop, backing off or waiting for an event, even if
      one has been queued since it looked: what it holds is counted as dropped at
      shutdown. */
  function QuitNow(p: Pub): Pub {
    if !p.stopped || !(p.phase == BackingOff || p.phase == Waiting) then p
    else if p.inflight.None? || p.at >= |p.fates| then p.(phase := Exited)
    else
      p.(phase := Exited, inflight := None, fates := p.fates[p.at := CutShort],
         counters := p.counters.(atShutdown := p.counters.atShutdown + 1))
  }

  /** The end of `Drain`, after the drainer has returned: what is queued is dropped. */
  function Finished(p: Pub): Pub {
    if p.phase != Exited || !p.closed || p.finished then p
    else
      p.(finished := true, queue := [], fates := p.fates + seq(|p.queue|, i => Abandoned),
         counters := p.counters.(atShutdown := p.counters.atShutdown + |p.queue|))
  }

  function Apply(cfg: Config, p: Pub, step: Step): Pub {
    match step
    case Offer(m) => Enqueued(cfg, p, m)
    case Provision(ok) => Provisioned(p, ok)
    case Next => Took(p)
    case Attempt(result) => Attempted(cfg, p, result)
    case Lands(index) => LandedLate(cfg, p, index)
    case Retry => if p.phase == BackingOff || p.phase == Waiting then p.(phase := AtTop) else p
    case Quit => QuitNow(p)
    case Close => p.(closed := true)
    case Stop => if p.closed then p.(stopped := true) else p
    case Finish => Finished(p)
  }

  function Run(cfg: Config, p: Pub, steps: seq<Step>): Pub {
    if steps == [] then p else Apply(cfg, Run(cfg, p, steps[..|steps| - 1]), steps[|steps| - 1])
  }

  // ---- Accounting ----

  /** The four counters, read off the fates. */
  ghost function Tally(fates: seq<Fate>): Counters {
    var m := multiset(fates);
    Counters(m[Published], m[Evicted], m[Unpublishable], m[CutShort] + m[Abandoned])
  }

  function Bump(c: Counters, f: Fate): Counters {
    match f
    case Published => c.(published := c.published + 1)
    case Evicted => c.(queueFull := c.queueFull + 1)
    case Unpublishable => c.(unpublishable := c.unpublishable + 1)
    case InFlight => c
    case _ => c.(atShutdown := c.atShutdown + 1)
  }

  lemma TallyAppend(fates: seq<Fate>, f: Fate)
    ensures Tally(fates + [f]) == Bump(Tally(fates), f)
  {
    assert multiset(fates + [f]) == multiset(fates) + multiset{f};
  }

  lemma TallySettle(fates: seq<Fate>, at: nat, f: Fate)
    requires at < |fates| && fates[at] == InFlight
    ensures Tally(fates[at := f]) == Bump(Tally(fates), f)
  {
    assert multiset(fates[at := f]) == multiset(fates) - multiset{InFlight} + multiset{f};
  }

  ghost predicate Accounted(cfg: Config, p: Pub) {
    && |p.queue| <= cfg.capacity
    && |p.fates| <= |p.accepted| && p.queue == p.accepted[|p.fates|..]
    && p.counters == Tally(p.fates)
  }

  /** The event in flight left the queue last, but for evictions since. */
  ghost predicate Handled(p: Pub) {
    && (p.inflight.Some? ==>
          p.at < |p.fates| <= |p.accepted| && p.fates[p.at] == InFlight && p.accepted[p.at] == p.inflight.value)
    && (p.inflight.Some? ==> forall j :: p.at < j < |p.fates| ==> p.fates[j] == Evicted)
    && (forall j :: 0 <= j < |p.fates| && p.fates[j] == InFlight ==> p.inflight.Some? && j == p.at)
    && (p.phase == Exited ==> p.inflight.None?)
    && (p.finished ==> p.phase == Exited && p.closed && p.queue == [])
    && (forall j :: 0 <= j < |p.fates| && p.fates[j] == CutShort ==> p.phase == Exited && j == p.at)
    && (p.at < |p.fates| && p.fates[p.at] == CutShort ==>
          forall j :: p.at < j < |p.fates| ==> p.fates[j] != Published)
  }

  lemma OfferAccounts(cfg: Config, p: Pub, m: Msg)
    requires cfg.capacity >= 1 && Accounted(cfg, p) && Handled(p)
    ensures Accounted(cfg, Enqueued(cfg, p, m)) && Handled(Enqueued(cfg, p, m))
  {
    TallyAppend(p.fates, Evicted);
    QueueIsSuffix(p.accepted, |p.fates|, m);
    EvictedHandles(p, Enqueued(cfg, p, m));
  }

  lemma QueueIsSuffix(accepted: seq<Msg>, n: nat, m: Msg)
    requires n <= |accepted|
    ensures (accepted + [m])[n..] == accepted[n..] + [m]
    ensures n < |accepted| ==> (accepted + [m])[n + 1..] == accepted[n..][1..] + [m]
  {
  }

  lemma EvictedHandles(p: Pub, p': Pub)
    requires |p.fates| <= |p.accepted| && Handled(p)
    requires p'.fates == p.fates || p'.fates == p.fates + [Evicted]
    requires p.accepted <= p'.accepted && |p'.fates| <= |p'.accepted| && (p' == p || !p.closed)
    requires p'.inflight == p.inflight && p'.at == p.at && p'.phase == p.phase && p'.finished == p.finished
    ensures Handled(p')
  {
  }

  lemma NextAccounts(cfg: Config, p: Pub)
    requires Accounted(cfg, p) && Handled(p)
    ensures Accounted(cfg, Took(p)) && Handled(Took(p))
  {
    TallyAppend(p.fates, InFlight);
  }

  /** The in-flight event's fate is settled, and nothing else is. */
  lemma SettleHandles(p: Pub, p': Pub, f: Fate)
    requires |p.fates| <= |p.accepted| && Handled(p) && p.inflight.Some?
    requires p'.inflight.None? && p'.accepted == p.accepted && p'.queue == p.queue && p'.at == p.at
    requires p'.fates == p.fates[p.at := f] && f != InFlight
    requires p'.finished == p.finished && p'.closed == p.closed
    requires if f == CutShort then p'.phase == Exited else p'.phase == p.phase
    ensures Handled(p')
  {
    assert p.phase != Exited;
  }

  /** What an attempt settles the in-flight event as, if it does. */
  function SettledAs(cfg: Config, p: Pub, result: Attempt): Option<Fate> {
    if p.phase != AtTop || !p.provisioned || p.inflight.None? || p.at >= |p.fates| then None
    else if cfg.rejects(p.inflight.value) then Some(Unpublishable)
    else if result == Acked then Some(Published)
    else None
  }

  lemma {:induction false} AttemptChanges(cfg: Config, p: Pub, result: Attempt)
    ensures var p', f := Attempted(cfg, p, result), SettledAs(cfg, p, result);
            p'.queue == p.queue && p'.accepted == p.accepted && p'.at == p.at && p'.finished == p.finished &&
            p'.closed == p.closed &&
            if f.Some?
            then p.at < |p.fates| && p'.fates == p.fates[p.at := f.value] && p'.inflight.None? && p'.phase == p.phase &&
                 p'.counters == Bump(p.counters, f.value)
            else p'.fates == p.fates && p'.counters == p.counters && p'.inflight == p.inflight &&
                 (p'.phase == p.phase || (p'.phase == BackingOff && p.phase == AtTop))
  {
    if SettledAs(cfg, p, result).Some? {
      if cfg.rejects(p.inflight.value) {
        assert Attempted(cfg, p, result).fates == p.fates[p.at := Unpublishable];
      } else {
        assert Attempted(cfg, p, result).fates == p.fates[p.at := Published];
      }
    } else {
      assert Attempted(cfg, p, result).fates == p.fates;
    }
  }

  lemma {:induction false} AttemptAccounts(cfg: Config, p: Pub, result: Attempt)
    requires Accounted(cfg, p) && Handled(p)
    ensures Accounted(cfg, Attempted(cfg, p, result)) && Handled(Attempted(cfg, p, result))
  {
    var p', f := Attempted(cfg, p, result), SettledAs(cfg, p, result);
    AttemptChanges(cfg, p, result);
    if f.Some? {
      TallySettle(p.fates, p.at, f.value);
      SettleHandles(p, p', f.value);
    } else {
      PlainStepAccounts(cfg, p, p');
    }
  }

  lemma QuitAccounts(cfg: Config, p: Pub)
    requires Accounted(cfg, p) && Handled(p)
    ensures Accounted(cfg, QuitNow(p)) && Handled(QuitNow(p))
  {
    if p.inflight.Some? && QuitNow(p).inflight.None? {
      TallySettle(p.fates, p.at, CutShort);
      SettleHandles(p, QuitNow(p), CutShort);
    }
  }

  lemma {:induction false} AbandonAll(fates: seq<Fate>, n: nat)
    ensures Tally(fates + seq(n, i => Abandoned)) == Tally(fates).(atShutdown := Tally(fates).atShutdown + n)
  {
    if n == 0 {
      assert fates + seq(0, i => Abandoned) == fates;
    } else {
      AbandonAll(fates, n - 1);
      TallyAppend(fates + seq(n - 1, i => Abandoned), Abandoned);
      assert fates + seq(n, i => Abandoned) == fates + seq(n - 1, i => Abandoned) + [Abandoned];
    }
  }

  lemma FinishAccounts(cfg: Config, p: Pub)
    requires Accounted(cfg, p) && Handled(p)
    ensures Accounted(cfg, Finished(p)) && Handled(Finished(p))
  {
    AbandonAll(p.fates, |p.queue|);
  }

  lemma {:induction false} LateAccounts(cfg: Config, p: Pub, index: nat)
    requires Accounted(cfg, p) && Handled(p)
    ensures Accounted(cfg, LandedLate(cfg, p, index)) && Handled(LandedLate(cfg, p, index))
  {
    PlainStepAccounts(cfg, p, LandedLate(cfg, p, index));
  }

  lemma {:induction false} StepAccounts(cfg: Config, p: Pub, step: Step)
    requires cfg.capacity >= 1 && Accounted(cfg, p) && Handled(p)
    ensures Accounted(cfg, Apply(cfg, p, step)) && Handled(Apply(cfg, p, step))
  {
    match step
    case Offer(m) => OfferAccounts(cfg, p, m);
    case Next => NextAccounts(cfg, p);
    case Attempt(result) => AttemptAccounts(cfg, p, result);
    case Lands(index) => LateAccounts(cfg, p, index);
    case Quit => QuitAccounts(cfg, p);
    case Finish => FinishAccounts(cfg, p);
    case _ => QuietAccounts(cfg, p, step);
  }

  predicate Quiet(step: Step) {
    step.Provision? || step.Retry? || step.Close? || step.Stop?
  }

  lemma {:induction false} QuietChanges(cfg: Config, p: Pub, step: Step)
    requires Quiet(step)
    ensures var p' := Apply(cfg, p, step);
            p' == p.(closed := p'.closed, stopped := p'.stopped, provisioned := p'.provisioned, phase := p'.phase) &&
            (p.closed ==> p'.closed) && (p.phase == Exited ==> p'.phase == Exited) &&
            (p'.phase == Exited ==> p.phase == Exited || p.inflight.None?)
  {
    match step
    case Provision(ok) => assert Apply(cfg, p, step) == Provisioned(p, ok);
    case Retry =>
    case Close =>
    case Stop =>
  }

  lemma QuietAccounts(cfg: Config, p: Pub, step: Step)
    requires Quiet(step) && Accounted(cfg, p) && Handled(p)
    ensures Accounted(cfg, Apply(cfg, p, step)) && Handled(Apply(cfg, p, step))
  {
    QuietChanges(cfg, p, step);
    PlainStepAccounts(cfg, p, Apply(cfg, p, step));
  }

  /** Provisioning, backoff, close and stop touch neither the queue nor the history. */
  lemma PlainStepAccounts(cfg: Config, p: Pub, p': Pub)
    requires Accounted(cfg, p) && Handled(p)
    requires p'.queue == p.queue && p'.accepted == p.accepted && p'.fates == p.fates && p'.counters == p.counters
    requires p'.inflight == p.inflight && p'.at == p.at && p'.finished == p.finished
    requires p.closed ==> p'.closed
    requires p.phase == Exited ==> p'.phase == Exited
    requires p'.phase == Exited ==> p.phase == Exited || p.inflight.None?
    ensures Accounted(cfg, p') && Handled(p')
  {
  }

  lemma {:induction false} AlwaysAccounted(cfg: Config, steps: seq<Step>)
    requires cfg.capacity >= 1
    ensures var p := Run(cfg, Start(), steps);
            Accounted(cfg, p) && Handled(p)
  {
    if steps != [] {
      AlwaysAccounted(cfg, steps[..|steps| - 1]);
      StepAccounts(cfg, Run(cfg, Start(), steps[..|steps| - 1]), steps[|steps| - 1]);
    }
  }

  lemma {:induction false} FatesPartition(fates: seq<Fate>)
    ensures var m := multiset(fates);
            |fates| == m[Published] + m[Evicted] + m[Unpublishable] + m[InFlight] + m[CutShort] + m[Abandoned]
  {
    if fates == [] {
      assert multiset(fates) == multiset{};
    } else {
      var n := |fates| - 1;
      FatesPartition(fates[..n]);
      assert fates == fates[..n] + [fates[n]];
      assert multiset(fates) == multiset(fates[..n]) + multiset{fates[n]};
      match fates[n]
      case Published =>
      case Evicted =>
      case Unpublishable =>
      case InFlight =>
      case CutShort =>
      case Abandoned =>
    }
  }

  lemma {:induction false} FewInFlight(fates: seq<Fate>, f: Fate, at: nat)
    requires forall j :: 0 <= j < |fates| && fates[j] == f ==> j == at
    ensures multiset(fates)[f] == if at < |fates| && fates[at] == f then 1 else 0
  {
    if fates != [] {
      var n := |fates| - 1;
      FewInFlight(fates[..n], f, at);
      assert fates == fates[..n] + [fates[n]];
    }
  }

  /** At every moment of every run, the queue is what remains of the accepted
      sequence, within its bound, and the counters, the event in flight and the
      queue account for every accepted event exactly once. */
  lemma {:induction false} EveryEventIsAccountedFor(cfg: Config, steps: seq<Step>)
    requires cfg.capacity >= 1
    ensures var p := Run(cfg, Start(), steps);
            |p.queue| <= cfg.capacity && |p.fates| <= |p.accepted| && p.queue == p.accepted[|p.fates|..] &&
            p.counters.published + p.counters.queueFull + p.counters.unpublishable + p.counters.atShutdown +
            (if p.inflight.Some? then 1 else 0) + |p.queue| == |p.accepted|
  {
    AlwaysAccounted(cfg, steps);
    var p := Run(cfg, Start(), steps);
    FatesPartition(p.fates);
    FewInFlight(p.fates, InFlight, p.at);
  }

  /** After Drain the four counters alone sum to the events accepted. */
  lemma {:induction false} DrainSettlesEverything(cfg: Config, steps: seq<Step>)
    requires cfg.capacity >= 1
    requires Run(cfg, Start(), steps).finished
    ensures var p := Run(cfg, Start(), steps);
            p.counters.published + p.counters.queueFull + p.counters.unpublishable + p.counters.atShutdown ==
            |p.accepted|
  {
    EveryEventIsAccountedFor(cfg, steps);
    AlwaysAccounted(cfg, steps);
  }

  // ---- The stream ----

  ghost predicate DistinctIds(msgs: seq<Msg>) {
    forall i, j :: 0 <= i < j < |msgs| ==> msgs[i].id != msgs[j].id
  }

  predicate Kept(f: Fate, landed: bool) {
    f == Published || (landed && (f == InFlight || f == CutShort))
  }

  /** The accepted events whose fate is to be in the stream, in acceptance order. */
  function Pick(accepted: seq<Msg>, fates: seq<Fate>, landed: bool): seq<Msg>
    requires |fates| <= |accepted|
  {
    if fates == [] then []
    else
      var n := |fates| - 1;
      Pick(accepted, fates[..n], landed) + if Kept(fates[n], landed) then [accepted[n]] else []
  }

  ghost predicate Streamed(cfg: Config, p: Pub)
    requires |p.fates| <= |p.accepted|
  {
    && (DistinctIds(p.accepted) ==> p.stream == Pick(p.accepted, p.fates, p.landed))
    && (p.landed ==> p.at < |p.fates| && (p.fates[p.at] == InFlight || p.fates[p.at] == CutShort))
    && (p.landed && p.inflight.Some? ==> !cfg.rejects(p.inflight.value))
  }

  lemma {:induction false} PickSame(accepted: seq<Msg>, more: seq<Msg>, f1: seq<Fate>, f2: seq<Fate>, l1: bool,
                                    l2: bool)
    requires |f1| == |f2| <= |accepted|
    requires forall j :: 0 <= j < |f1| ==> Kept(f1[j], l1) == Kept(f2[j], l2)
    ensures Pick(accepted, f1, l1) == Pick(accepted + more, f2, l2)
  {
    if f1 != [] {
      var n := |f1| - 1;
      PickSame(accepted, more, f1[..n], f2[..n], l1, l2);
    }
  }

  /** Fates that keep nothing, appended, change nothing. */
  lemma {:induction false} PickAppend(accepted: seq<Msg>, fates: seq<Fate>, more: seq<Fate>, landed: bool)
    requires |fates| + |more| <= |accepted|
    requires forall j :: 0 <= j < |more| ==> !Kept(more[j], landed)
    ensures Pick(accepted, fates + more, landed) == Pick(accepted, fates, landed)
  {
    if more == [] {
      assert fates + more == fates;
    } else {
      var n := |more| - 1;
      assert (fates + more)[..|fates + more| - 1] == fates + more[..n];
      PickAppend(accepted, fates, more[..n], landed);
    }
  }

  /** The in-flight event reaches the stream after everything before it: what
      follows it in the fates was evicted. */
  lemma {:induction false} PickLands(accepted: seq<Msg>, fates: seq<Fate>, at: nat, f: Fate)
    requires at < |fates| <= |accepted| && Kept(f, true)
    requires fates[at] == InFlight
    requires forall j :: at < j < |fates| ==> fates[j] == Evicted
    requires forall j :: 0 <= j < |fates| && fates[j] == InFlight ==> j == at
    requires forall j :: 0 <= j < |fates| ==> fates[j] != CutShort
    ensures Pick(accepted, fates[at := f], true) == Pick(accepted, fates, false) + [accepted[at]]
    ensures Pick(accepted, fates[at := f], f != Published) == Pick(accepted, fates[at := f], true)
  {
    var landed := fates[at := f];
    assert accepted + [] == accepted;
    PickLate(accepted, fates, at);
    PickSame(accepted, [], landed, fates, true, true);
    PickSame(accepted, [], landed, landed, f != Published, true);
  }

  /** Everything picked comes from a kept index. */
  lemma {:induction false} PickedFrom(accepted: seq<Msg>, fates: seq<Fate>, landed: bool, i: nat) returns (j: nat)
    requires |fates| <= |accepted| && i < |Pick(accepted, fates, landed)|
    ensures j < |fates| && Kept(fates[j], landed) && accepted[j] == Pick(accepted, fates, landed)[i]
  {
    var n := |fates| - 1;
    if i < |Pick(accepted, fates[..n], landed)| {
      j := PickedFrom(accepted, fates[..n], landed, i);
    } else {
      j := n;
    }
  }

  lemma {:induction false} PickHolds(accepted: seq<Msg>, fates: seq<Fate>, landed: bool, j: nat) returns (i: nat)
    requires j < |fates| <= |accepted| && Kept(fates[j], landed)
    ensures i < |Pick(accepted, fates, landed)| && Pick(accepted, fates, landed)[i] == accepted[j]
  {
    var n := |fates| - 1;
    if j < n {
      i := PickHolds(accepted, fates[..n], landed, j);
    } else {
      i := |Pick(accepted, fates[..n], landed)|;
    }
  }

  /** Deduplication does what the history says: a first delivery of the in-flight
      event appends it, a repeat does nothing. */
  lemma DeliverInFlight(cfg: Config, p: Pub)
    requires Accounted(cfg, p) && Handled(p) && Streamed(cfg, p)
    requires p.inflight.Some? && DistinctIds(p.accepted)
    ensures Deliver(p.stream, p.inflight.value) == if p.landed then p.stream else p.stream + [p.inflight.value]
  {
    if p.landed {
      var i := PickHolds(p.accepted, p.fates, true, p.at);
      assert p.stream[i].id == p.inflight.value.id;
    } else {
      forall i | 0 <= i < |p.stream| ensures p.stream[i].id != p.inflight.value.id {
        var j := PickedFrom(p.accepted, p.fates, false, i);
        assert j != p.at;
      }
    }
  }

  lemma {:induction false} AttemptPicks(cfg: Config, p: Pub, result: Attempt)
    requires Accounted(cfg, p) && Handled(p) && Streamed(cfg, p) && DistinctIds(p.accepted)
    requires p.phase == AtTop && p.provisioned && p.inflight.Some?
    ensures var p' := Attempted(cfg, p, result);
            |p'.fates| <= |p'.accepted| && p'.stream == Pick(p'.accepted, p'.fates, p'.landed)
  {
    var p' := Attempted(cfg, p, result);
    var m := p.inflight.value;
    assert p.accepted + [] == p.accepted;
    if cfg.rejects(m) {
      PickSame(p.accepted, [], p.fates, p'.fates, false, false);
    } else if result == Acked || result == AckLost {
      DeliverInFlight(cfg, p);
      if p.landed {
        PickSame(p.accepted, [], p.fates, p'.fates, true, p'.landed);
      } else {
        PickLands(p.accepted, p.fates, p.at, p'.fates[p.at]);
        assert p'.fates == p.fates[p.at := p'.fates[p.at]];
      }
    }
  }

  lemma AttemptStreams(cfg: Config, p: Pub, result: Attempt)
    requires Accounted(cfg, p) && Handled(p) && Streamed(cfg, p)
    ensures |Attempted(cfg, p, result).fates| <= |p.accepted| && Streamed(cfg, Attempted(cfg, p, result))
  {
    if p.phase == AtTop && p.provisioned && p.inflight.Some? {
      AttemptLeaves(cfg, p, result);
      if DistinctIds(p.accepted) {
        AttemptPicks(cfg, p, result);
      }
    }
  }

  /** Of the in-flight event: what an attempt leaves landed is the one in flight,
      acceptable, and followed by evictions only. */
  lemma AttemptLeaves(cfg: Config, p: Pub, result: Attempt)
    requires Accounted(cfg, p) && Handled(p) && Streamed(cfg, p)
    requires p.phase == AtTop && p.provisioned && p.inflight.Some?
    ensures var p' := Attempted(cfg, p, result);
            |p'.fates| == |p.fates| && p'.accepted == p.accepted &&
            (p'.landed ==>
               p'.inflight == p.inflight && p'.fates == p.fates && p'.at == p.at && !cfg.rejects(p.inflight.value))
  {
  }

  /** The one event that is kept only if landed comes after all that are kept anyway. */
  lemma {:induction false} PickLate(accepted: seq<Msg>, fates: seq<Fate>, at: nat)
    requires at < |fates| <= |accepted| && (fates[at] == InFlight || fates[at] == CutShort)
    requires forall j :: 0 <= j < |fates| && j != at ==> fates[j] != InFlight && fates[j] != CutShort
    requires forall j :: at < j < |fates| ==> fates[j] != Published
    ensures Pick(accepted, fates, true) == Pick(accepted, fates, false) + [accepted[at]]
  {
    var before, after := fates[..at + 1], fates[at + 1..];
    assert fates == before + after;
    PickAppend(accepted, before, after, true);
    PickAppend(accepted, before, after, false);
    assert before[..at] == fates[..at] && accepted + [] == accepted;
    PickSame(accepted, [], fates[..at], fates[..at], true, false);
  }

  lemma {:induction false} LatePicks(cfg: Config, p: Pub, index: nat)
    requires Accounted(cfg, p) && Handled(p) && Streamed(cfg, p) && DistinctIds(p.accepted) && MayLand(cfg, p, index)
    ensures var p' := LandedLate(cfg, p, index);
            p'.stream == Pick(p'.accepted, p'.fates, p'.landed)
  {
    if Kept(p.fates[index], p.landed) {
      var i := PickHolds(p.accepted, p.fates, p.landed, index);
      assert p.stream[i].id == p.accepted[index].id;
    } else {
      forall i | 0 <= i < |p.stream| ensures p.stream[i].id != p.accepted[index].id {
        var j := PickedFrom(p.accepted, p.fates, p.landed, i);
        assert j != index;
      }
      PickLate(p.accepted, p.fates, index);
    }
  }

  lemma {:induction false} LateStreams(cfg: Config, p: Pub, index: nat)
    requires Accounted(cfg, p) && Handled(p) && Streamed(cfg, p)
    ensures |LandedLate(cfg, p, index).fates| <= |p.accepted| && Streamed(cfg, LandedLate(cfg, p, index))
  {
    if MayLand(cfg, p, index) && DistinctIds(p.accepted) {
      LatePicks(cfg, p, index);
    }
  }

  lemma OfferPicks(cfg: Config, p: Pub, m: Msg)
    requires Accounted(cfg, p) && Streamed(cfg, p) && !p.closed
    requires |Enqueued(cfg, p, m).fates| <= |p.accepted| + 1 && DistinctIds(p.accepted + [m])
    ensures var p' := Enqueued(cfg, p, m);
            p'.stream == Pick(p'.accepted, p'.fates, p'.landed)
  {
    var p' := Enqueued(cfg, p, m);
    assert DistinctIds(p.accepted) by {
      assert forall i :: 0 <= i < |p.accepted| ==> p.accepted[i] == p'.accepted[i];
    }
    PickSame(p.accepted, [m], p.fates, p.fates, p.landed, p.landed);
    if p'.fates != p.fates {
      PickAppend(p'.accepted, p.fates, [Evicted], p.landed);
    }
  }

  lemma OfferStreams(cfg: Config, p: Pub, m: Msg)
    requires cfg.capacity >= 1 && Accounted(cfg, p) && Handled(p) && Streamed(cfg, p)
    ensures Accounted(cfg, Enqueued(cfg, p, m)) && Streamed(cfg, Enqueued(cfg, p, m))
  {
    OfferAccounts(cfg, p, m);
    if !p.closed && DistinctIds(p.accepted + [m]) {
      OfferPicks(cfg, p, m);
    }
  }

  lemma NextStreams(cfg: Config, p: Pub)
    requires Accounted(cfg, p) && Handled(p) && Streamed(cfg, p)
    ensures Accounted(cfg, Took(p)) && Streamed(cfg, Took(p))
  {
    NextAccounts(cfg, p);
    if Took(p).fates != p.fates {
      assert !p.landed;
      PickAppend(p.accepted, p.fates, [InFlight], false);
    }
  }

  lemma {:induction false} QuitStreams(cfg: Config, p: Pub)
    requires Accounted(cfg, p) && Handled(p) && Streamed(cfg, p)
    ensures Accounted(cfg, QuitNow(p)) && Streamed(cfg, QuitNow(p))
  {
    QuitAccounts(cfg, p);
    if QuitNow(p).fates != p.fates {
      PickSame(p.accepted, [], p.fates, QuitNow(p).fates, p.landed, p.landed);
      assert p.accepted + [] == p.accepted;
    }
  }

  lemma FinishStreams(cfg: Config, p: Pub)
    requires Accounted(cfg, p) && Handled(p) && Streamed(cfg, p)
    ensures Accounted(cfg, Finished(p)) && Streamed(cfg, Finished(p))
  {
    FinishAccounts(cfg, p);
    if Finished(p).fates != p.fates {
      PickAppend(p.accepted, p.fates, seq(|p.queue|, i => Abandoned), p.landed);
    }
  }

  lemma {:induction false} StepStreams(cfg: Config, p: Pub, step: Step)
    requires cfg.capacity >= 1 && Accounted(cfg, p) && Handled(p) && Streamed(cfg, p)
    ensures |Apply(cfg, p, step).fates| <= |Apply(cfg, p, step).accepted| && Streamed(cfg, Apply(cfg, p, step))
  {
    match step
    case Offer(m) => OfferStreams(cfg, p, m);
    case Next => NextStreams(cfg, p);
    case Attempt(result) => AttemptStreams(cfg, p, result);
    case Lands(index) => LateStreams(cfg, p, index);
    case Quit => QuitStreams(cfg, p);
    case Finish => FinishStreams(cfg, p);
    case _ => QuietStreams(cfg, p, step);
  }

  lemma PlainStepStreams(cfg: Config, p: Pub, p': Pub)
    requires |p.fates| <= |p.accepted| && Streamed(cfg, p)
    requires p' == p.(closed := p'.closed, stopped := p'.stopped, provisioned := p'.provisioned, phase := p'.phase)
    ensures |p'.fates| <= |p'.accepted| && Streamed(cfg, p')
  {
  }

  lemma QuietStreams(cfg: Config, p: Pub, step: Step)
    requires Quiet(step) && |p.fates| <= |p.accepted| && Streamed(cfg, p)
    ensures |Apply(cfg, p, step).fates| <= |Apply(cfg, p, step).accepted| && Streamed(cfg, Apply(cfg, p, step))
  {
    QuietChanges(cfg, p, step);
    PlainStepStreams(cfg, p, Apply(cfg, p, step));
  }

  lemma {:induction false} AlwaysStreamed(cfg: Config, steps: seq<Step>)
    requires cfg.capacity >= 1
    ensures var p := Run(cfg, Start(), steps);
            |p.fates| <= |p.accepted| && Streamed(cfg, p)
  {
    AlwaysAccounted(cfg, steps);
    if steps != [] {
      var n := |steps| - 1;
      AlwaysStreamed(cfg, steps[..n]);
      AlwaysAccounted(cfg, steps[..n]);
      StepStreams(cfg, Run(cfg, Start(), steps[..n]), steps[n]);
    }
  }

  /** The broker holds nothing that was not accepted, distinct ids or not. */
  ghost predicate AllAccepted(p: Pub) {
    (forall i :: 0 <= i < |p.stream| ==> p.stream[i] in p.accepted) &&
    (p.inflight.Some? ==> p.inflight.value in p.accepted)
  }

  lemma {:induction false} DeliverAdds(stream: seq<Msg>, m: Msg, accepted: seq<Msg>)
    requires m in accepted && forall i :: 0 <= i < |stream| ==> stream[i] in accepted
    ensures forall i :: 0 <= i < |Deliver(stream, m)| ==> Deliver(stream, m)[i] in accepted
  {
  }

  lemma {:induction false} AttemptKeepsAccepted(cfg: Config, p: Pub, result: Attempt)
    requires AllAccepted(p)
    ensures AllAccepted(Attempted(cfg, p, result))
  {
    AttemptChanges(cfg, p, result);
    if p.inflight.Some? {
      DeliverAdds(p.stream, p.inflight.value, p.accepted);
    }
  }

  lemma {:induction false} LateKeepsAccepted(cfg: Config, p: Pub, index: nat)
    requires AllAccepted(p)
    ensures AllAccepted(LandedLate(cfg, p, index))
  {
    if MayLand(cfg, p, index) {
      DeliverAdds(p.stream, p.accepted[index], p.accepted);
    }
  }

  lemma {:induction false} TookKeepsAccepted(cfg: Config, p: Pub)
    requires Accounted(cfg, p) && AllAccepted(p)
    ensures AllAccepted(Took(p))
  {
    if p.queue != [] {
      assert p.queue[0] == p.accepted[|p.fates|];
    }
  }

  lemma {:induction false} EndKeepsAccepted(p: Pub)
    requires AllAccepted(p)
    ensures AllAccepted(QuitNow(p)) && AllAccepted(Finished(p))
  {
  }

  lemma {:induction false} StepAccepts(cfg: Config, p: Pub, step: Step)
    requires Accounted(cfg, p) && AllAccepted(p)
    ensures AllAccepted(Apply(cfg, p, step))
  {
    match step
    case Offer(m) => OfferKeepsAccepted(cfg, p, m);
    case Next => TookKeepsAccepted(cfg, p);
    case Attempt(result) => AttemptKeepsAccepted(cfg, p, result);
    case Lands(index) => LateKeepsAccepted(cfg, p, index);
    case Quit => EndKeepsAccepted(p);
    case Finish => EndKeepsAccepted(p);
    case _ => QuietChanges(cfg, p, step);
  }

  lemma {:induction false} OfferKeepsAccepted(cfg: Config, p: Pub, m: Msg)
    requires AllAccepted(p)
    ensures AllAccepted(Enqueued(cfg, p, m))
  {
    forall x | x in p.accepted ensures x in p.accepted + [m] {
      var i :| 0 <= i < |p.accepted| && p.accepted[i] == x;
      assert (p.accepted + [m])[i] == x;
    }
  }

  lemma {:induction false} StreamIsOfAccepted(cfg: Config, steps: seq<Step>)
    requires cfg.capacity >= 1
    ensures AllAccepted(Run(cfg, Start(), steps))
  {
    if steps != [] {
      StreamIsOfAccepted(cfg, steps[..|steps| - 1]);
      AlwaysAccounted(cfg, steps[..|steps| - 1]);
      StepAccepts(cfg, Run(cfg, Start(), steps[..|steps| - 1]), steps[|steps| - 1]);
    }
  }

  lemma {:induction false} PickLength(accepted: seq<Msg>, fates: seq<Fate>, landed: bool)
    requires |fates| <= |accepted|
    ensures var m := multiset(fates);
            |Pick(accepted, fates, landed)| == m[Published] + if landed then m[InFlight] + m[CutShort] else 0
  {
    if fates != [] {
      var n := |fates| - 1;
      PickLength(accepted, fates[..n], landed);
      assert fates == fates[..n] + [fates[n]];
    }
  }

  /** The acceptance indices of the events in the stream. */
  function Places(fates: seq<Fate>, landed: bool): seq<nat> {
    if fates == [] then []
    else
      var n := |fates| - 1;
      Places(fates[..n], landed) + if Kept(fates[n], landed) then [n] else []
  }

  lemma {:induction false} PicksInOrder(accepted: seq<Msg>, fates: seq<Fate>, landed: bool)
    requires |fates| <= |accepted|
    ensures var at := Places(fates, landed);
            |at| == |Pick(accepted, fates, landed)| &&
            (forall i :: 0 <= i < |at| ==> at[i] < |fates| && Pick(accepted, fates, landed)[i] == accepted[at[i]]) &&
            (forall i, j :: 0 <= i < j < |at| ==> at[i] < at[j])
  {
    if fates != [] {
      PicksInOrder(accepted, fates[..|fates| - 1], landed);
    }
  }

  /** The one accepted event that may be in the stream without being counted as
      published: in the drainer's hands, or in them when it was stopped. */
  predicate Extra(p: Pub, at: nat) {
    p.landed && at == p.at < |p.fates| && at < |p.accepted| &&
    if p.fates[at] == InFlight then p.inflight == Some(p.accepted[at]) else p.fates[at] == CutShort
  }

  lemma {:induction false} PlacesAreKept(fates: seq<Fate>, landed: bool, i: nat)
    requires i < |Places(fates, landed)|
    ensures Places(fates, landed)[i] < |fates| && Kept(fates[Places(fates, landed)[i]], landed)
  {
    var n := |fates| - 1;
    if i < |Places(fates[..n], landed)| {
      PlacesAreKept(fates[..n], landed, i);
    }
  }

  /** What follows the in-flight event was evicted, so nothing in the stream comes after it. */
  lemma {:induction false} ExtraIsLast(cfg: Config, p: Pub, i: nat)
    requires Accounted(cfg, p) && Handled(p) && Streamed(cfg, p)
    requires i < |Places(p.fates, p.landed)|
    ensures var at := Places(p.fates, p.landed);
            at[i] < |p.fates| && (p.fates[at[i]] == Published || (i == |at| - 1 && Extra(p, at[i])))
  {
    var at := Places(p.fates, p.landed);
    PlacesAreKept(p.fates, p.landed, i);
    if p.fates[at[i]] != Published {
      assert at[i] == p.at;
      PicksInOrder(p.accepted, p.fates, p.landed);
      if i < |at| - 1 {
        PlacesAreKept(p.fates, p.landed, i + 1);
      }
    }
  }

  /** Exactly once, in order, under any lost acknowledgements, late arrivals,
      failures, evictions and shutdown: given distinct ids, the stream is the accepted events at a
      strictly increasing list of indices, none twice; it holds every event counted
      as published, and at most one more, the one in flight or cut short by the stop,
      which comes last. */
  lemma {:induction false} ExactlyOnce(cfg: Config, steps: seq<Step>)
    requires cfg.capacity >= 1 && DistinctIds(Run(cfg, Start(), steps).accepted)
    ensures var p := Run(cfg, Start(), steps);
            var at := Places(p.fates, p.landed);
            |at| == |p.stream| &&
            (forall i :: 0 <= i < |at| ==> at[i] < |p.accepted| && p.stream[i] == p.accepted[at[i]]) &&
            (forall i, j :: 0 <= i < j < |at| ==> at[i] < at[j]) &&
            (forall i :: 0 <= i < |at| ==>
               at[i] < |p.fates| && (p.fates[at[i]] == Published || (i == |at| - 1 && Extra(p, at[i])))) &&
            DistinctIds(p.stream)
    ensures var p := Run(cfg, Start(), steps);
            |p.fates| <= |p.accepted| &&
            (forall j :: 0 <= j < |p.fates| && p.fates[j] == Published ==> p.accepted[j] in p.stream) &&
            |p.stream| == p.counters.published + if p.landed then 1 else 0
  {
    AlwaysStreamed(cfg, steps);
    AlwaysAccounted(cfg, steps);
    var p := Run(cfg, Start(), steps);
    PicksInOrder(p.accepted, p.fates, p.landed);
    forall i | 0 <= i < |Places(p.fates, p.landed)|
      ensures var at := Places(p.fates, p.landed);
              at[i] < |p.fates| && (p.fates[at[i]] == Published || (i == |at| - 1 && Extra(p, at[i])))
    {
      ExtraIsLast(cfg, p, i);
    }
    forall j | 0 <= j < |p.fates| && p.fates[j] == Published ensures p.accepted[j] in p.stream {
      var i := PickHolds(p.accepted, p.fates, p.landed, j);
    }
    PickLength(p.accepted, p.fates, p.landed);
    FewInFlight(p.fates, InFlight, p.at);
    FewInFlight(p.fates, CutShort, p.at);
  }
}
