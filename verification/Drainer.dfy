/** The drain loop turn by turn: which steps a turn takes, given what everyone else
    does meanwhile, and why it ends (internal/publish/publish.go). */
module Drainer {
  import opened Prelude
  import opened Publish

  /** What the rest of the world does during one turn: the steps of others before
      each of the drainer's critical sections, whether provisioning works, how the
      attempt ends, the steps of others while it waits or backs off, and whether it
      then sees a hard stop if there is one. */
  datatype Weather = Weather(first: seq<Step>, provision: bool, second: seq<Step>, third: seq<Step>,
                             result: Attempt, last: seq<Step>, seesStop: bool)

  /** Not the drainer's: an enqueue, `Drain` starting, its window closing, a late arrival. */
  predicate Outside(step: Step) {
    step.Offer? || step.Close? || step.Stop? || step.Lands?
  }

  predicate AllOutside(steps: seq<Step>) {
    forall i :: 0 <= i < |steps| ==> Outside(steps[i])
  }

  predicate Proper(w: Weather) {
    AllOutside(w.first) && AllOutside(w.second) && AllOutside(w.third) && AllOutside(w.last)
  }

  /** The end of a backoff or a wait. */
  function Rested(cfg: Config, p: Pub, w: Weather): seq<Step> {
    w.last + [if Run(cfg, p, w.last).stopped && w.seesStop then Quit else Retry]
  }

  /** One attempt, and the backoff if it did not settle the event. */
  function Tried(cfg: Config, p: Pub, w: Weather): seq<Step> {
    [Step.Attempt(w.result)] +
    if Attempted(cfg, p, w.result).phase == BackingOff then Rested(cfg, Attempted(cfg, p, w.result), w) else []
  }

  /** An attempt at the event in hand. */
  function Trying(cfg: Config, p: Pub, w: Weather): seq<Step> {
    w.third + Tried(cfg, Run(cfg, p, w.third), w)
  }

  /** After the look at the queue. */
  function Looked(cfg: Config, p: Pub, w: Weather): seq<Step> {
    if p.phase == Exited then [] else if p.phase == Waiting then Rested(cfg, p, w) else Trying(cfg, p, w)
  }

  /** From provisioned streams: `next` unless an event is in hand, then an attempt. */
  function Sending(cfg: Config, p: Pub, w: Weather): seq<Step> {
    if p.inflight.Some? then Trying(cfg, p, w) else [Next] + Looked(cfg, Took(p), w)
  }

  function Ready(cfg: Config, p: Pub, w: Weather): seq<Step> {
    w.second + Sending(cfg, Run(cfg, p, w.second), w)
  }

  /** After an attempt to provision. */
  function Ensured(cfg: Config, p: Pub, w: Weather): seq<Step> {
    if p.phase == Exited then [] else if p.phase == BackingOff then Rested(cfg, p, w) else Ready(cfg, p, w)
  }

  function Top(cfg: Config, p: Pub, w: Weather): seq<Step> {
    if p.provisioned then Ready(cfg, p, w)
    else [Provision(w.provision)] + Ensured(cfg, Provisioned(p, w.provision), w)
  }

  /** The steps of one turn. */
  function TurnSteps(cfg: Config, p: Pub, w: Weather): seq<Step> {
    w.first + Top(cfg, Run(cfg, p, w.first), w)
  }

  /** The steps of as many turns as there is weather for, until the drainer returns. */
  function DrainSteps(cfg: Config, p: Pub, ws: seq<Weather>): seq<Step>
    decreases |ws|
  {
    if ws == [] || p.phase == Exited then []
    else
      var turn := TurnSteps(cfg, p, ws[0]);
      turn + DrainSteps(cfg, Run(cfg, p, turn), ws[1..])
  }

  lemma {:induction false} RunConcat(cfg: Config, p: Pub, a: seq<Step>, b: seq<Step>)
    ensures Run(cfg, p, a + b) == Run(cfg, Run(cfg, p, a), b)
  {
    if b == [] {
      assert a + b == a;
    } else {
      assert (a + b)[..|a + b| - 1] == a + b[..|b| - 1];
      RunConcat(cfg, p, a, b[..|b| - 1]);
    }
  }

  lemma {:induction false} RunOne(cfg: Config, p: Pub, step: Step)
    ensures Run(cfg, p, [step]) == Apply(cfg, p, step)
  {
    assert [step][..0] == [];
  }

  lemma {:induction false} Assoc(a: seq<Step>, b: seq<Step>, c: seq<Step>)
    ensures (a + b) + c == a + (b + c)
  {
  }

  lemma {:induction false} EnsuredIs(cfg: Config, p: Pub, w: Weather)
    ensures p.phase == Exited ==> Ensured(cfg, p, w) == []
    ensures p.phase == BackingOff ==> Ensured(cfg, p, w) == Rested(cfg, p, w)
    ensures p.phase == AtTop ==> Ensured(cfg, p, w) == Ready(cfg, p, w)
  {
  }

  lemma {:induction false} OneThenRest(cfg: Config, p: Pub, step: Step, rest: seq<Step>)
    ensures Run(cfg, p, [step] + rest) == Run(cfg, Apply(cfg, p, step), rest)
  {
    RunConcat(cfg, p, [step], rest);
    RunOne(cfg, p, step);
  }

  lemma {:induction false} TurnThenRest(cfg: Config, p: Pub, before: seq<Step>, ws: seq<Weather>, n: nat)
    requires n < |ws| && p.phase != Exited
    ensures var turn := TurnSteps(cfg, p, ws[n]);
            (before + turn) + DrainSteps(cfg, Run(cfg, p, turn), ws[n + 1..]) ==
            before + DrainSteps(cfg, p, ws[n..])
  {
    assert ws[n..][1..] == ws[n + 1..] && ws[n..][0] == ws[n];
  }

  // ---- What others cannot do ----

  /** Others leave the drainer's hands alone, and cannot empty the queue. */
  ghost predicate Untouched(p: Pub, p': Pub) {
    && p'.phase == p.phase && p'.provisioned == p.provisioned && p'.inflight == p.inflight
    && p'.finished == p.finished && (p.closed ==> p'.closed) && (p.stopped ==> p'.stopped)
    && (p.queue != [] ==> p'.queue != [])
    && (p.closed ==> p'.queue == p.queue && p'.counters == p.counters)
  }

  lemma {:induction false} OneOutside(cfg: Config, p: Pub, step: Step)
    requires Outside(step)
    ensures Untouched(p, Apply(cfg, p, step))
  {
    match step
    case Offer(m) =>
    case Close =>
    case Stop =>
    case Lands(index) =>
  }

  lemma {:induction false} OthersLeave(cfg: Config, p: Pub, steps: seq<Step>)
    requires AllOutside(steps)
    ensures Untouched(p, Run(cfg, p, steps))
  {
    if steps != [] {
      OthersLeave(cfg, p, steps[..|steps| - 1]);
      OneOutside(cfg, Run(cfg, p, steps[..|steps| - 1]), steps[|steps| - 1]);
    }
  }

  lemma {:induction false} StaysSound(cfg: Config, p: Pub, steps: seq<Step>)
    requires cfg.capacity >= 1 && Accounted(cfg, p) && Handled(p)
    ensures Accounted(cfg, Run(cfg, p, steps)) && Handled(Run(cfg, p, steps))
  {
    if steps != [] {
      StaysSound(cfg, p, steps[..|steps| - 1]);
      StepAccounts(cfg, Run(cfg, p, steps[..|steps| - 1]), steps[|steps| - 1]);
    }
  }

  // ---- Every turn does something ----

  lemma {:induction false} StillIn(x: Step, a: seq<Step>, b: seq<Step>)
    requires x in b
    ensures x in a + b
  {
    var i :| 0 <= i < |b| && b[i] == x;
    assert (a + b)[|a| + i] == x;
  }

  lemma {:induction false} TriedAttempts(cfg: Config, p: Pub, w: Weather)
    ensures Step.Attempt(w.result) in Tried(cfg, p, w)
  {
    assert Tried(cfg, p, w)[0] == Step.Attempt(w.result);
  }

  lemma {:induction false} TookSomething(p: Pub)
    requires p.phase == AtTop && p.queue != []
    ensures Took(p).phase == AtTop
  {
  }

  lemma {:induction false} SendingAttempts(cfg: Config, p: Pub, w: Weather)
    requires p.phase == AtTop && p.provisioned && (p.inflight.Some? || p.queue != [])
    ensures Step.Attempt(w.result) in Sending(cfg, p, w)
  {
    var p1 := if p.inflight.Some? then p else Took(p);
    if p.inflight.None? {
      TookSomething(p);
    }
    TriedAttempts(cfg, Run(cfg, p1, w.third), w);
    StillIn(Step.Attempt(w.result), w.third, Tried(cfg, Run(cfg, p1, w.third), w));
    StillIn(Step.Attempt(w.result), [Next], Trying(cfg, p1, w));
  }

  lemma {:induction false} ReadyAttempts(cfg: Config, p: Pub, w: Weather)
    requires Proper(w) && p.phase == AtTop && p.provisioned && (p.inflight.Some? || p.queue != [])
    ensures Step.Attempt(w.result) in Ready(cfg, p, w)
  {
    OthersLeave(cfg, p, w.second);
    SendingAttempts(cfg, Run(cfg, p, w.second), w);
    StillIn(Step.Attempt(w.result), w.second, Sending(cfg, Run(cfg, p, w.second), w));
  }

  /** With something to send, a turn that finds its streams provisioned, or provisions
      them, makes an attempt. */
  lemma {:induction false} TurnAttempts(cfg: Config, p: Pub, w: Weather)
    requires Proper(w) && p.phase == AtTop && (p.inflight.Some? || p.queue != [])
    requires p.provisioned || w.provision
    ensures Step.Attempt(w.result) in TurnSteps(cfg, p, w)
  {
    OthersLeave(cfg, p, w.first);
    var p1 := Run(cfg, p, w.first);
    if p1.provisioned {
      ReadyAttempts(cfg, p1, w);
    } else {
      ReadyAttempts(cfg, Provisioned(p1, true), w);
      StillIn(Step.Attempt(w.result), [Provision(true)], Ready(cfg, Provisioned(p1, true), w));
    }
    StillIn(Step.Attempt(w.result), w.first, Top(cfg, p1, w));
  }

  /** A turn that makes no attempt looked for an event and there was none when it
      began, or did not find its streams provisioned. */
  lemma {:induction false} IdleTurnsAreExcused(cfg: Config, p: Pub, w: Weather)
    requires Proper(w) && p.phase == AtTop
    ensures var turn := TurnSteps(cfg, p, w);
            Step.Attempt(w.result) in turn ||
            (!w.provision && Provision(false) in turn) ||
            (p.inflight.None? && p.queue == [] && (Next in turn || Provision(w.provision) in turn))
  {
    if (p.inflight.Some? || p.queue != []) && (p.provisioned || w.provision) {
      TurnAttempts(cfg, p, w);
    } else {
      OthersLeave(cfg, p, w.first);
      var p1 := Run(cfg, p, w.first);
      if p1.provisioned {
        OthersLeave(cfg, p1, w.second);
        var sending := Sending(cfg, Run(cfg, p1, w.second), w);
        assert sending[0] == Next;
        StillIn(Next, w.second, sending);
        StillIn(Next, w.first, Top(cfg, p1, w));
      } else {
        assert Top(cfg, p1, w)[0] == Provision(w.provision);
        StillIn(Provision(w.provision), w.first, Top(cfg, p1, w));
      }
    }
  }

  // ---- Draining ends ----

  /** Streams can be provisioned and every attempt is acknowledged. */
  predicate Calm(w: Weather) {
    Proper(w) && w.provision && w.result == Acked
  }

  function Outstanding(p: Pub): nat {
    |p.queue| + if p.inflight.Some? then 1 else 0
  }

  /** One event fewer, counted as published or refused for good, and nothing lost. */
  ghost predicate OneFewer(p: Pub, p': Pub) {
    && p'.phase == AtTop && p'.closed && p'.provisioned && Outstanding(p') == Outstanding(p) - 1
    && p'.counters.published + p'.counters.unpublishable == p.counters.published + p.counters.unpublishable + 1
    && p'.counters.queueFull == p.counters.queueFull && p'.counters.atShutdown == p.counters.atShutdown
  }

  lemma {:induction false} CalmAttempt(cfg: Config, p: Pub, w: Weather)
    requires cfg.capacity >= 1 && Accounted(cfg, p) && Handled(p) && Calm(w)
    requires p.phase == AtTop && p.closed && p.provisioned && p.inflight.Some?
    ensures OneFewer(p, Run(cfg, p, Trying(cfg, p, w)))
  {
    OthersLeave(cfg, p, w.third);
    StaysSound(cfg, p, w.third);
    var p1 := Run(cfg, p, w.third);
    AckedSettles(cfg, p1);
    assert Tried(cfg, p1, w) == [Step.Attempt(Acked)];
    RunConcat(cfg, p, w.third, Tried(cfg, p1, w));
    RunOne(cfg, p1, Step.Attempt(Acked));
  }

  lemma {:induction false} AckedSettles(cfg: Config, p: Pub)
    requires Handled(p) && p.phase == AtTop && p.closed && p.provisioned && p.inflight.Some?
    ensures OneFewer(p, Attempted(cfg, p, Acked))
  {
    AttemptChanges(cfg, p, Acked);
    assert SettledAs(cfg, p, Acked).Some?;
    AttemptKeepsStreams(cfg, p);
  }

  lemma {:induction false} AttemptKeepsStreams(cfg: Config, p: Pub)
    ensures Attempted(cfg, p, Acked).provisioned == p.provisioned
  {
  }

  /** What a calm turn of a draining publisher comes to. */
  ghost predicate Settles(p: Pub, p': Pub) {
    if Outstanding(p) == 0 then p'.phase == Exited && Outstanding(p') == 0 && p'.counters == p.counters
    else OneFewer(p, p')
  }

  lemma {:induction false} CalmSending(cfg: Config, p: Pub, w: Weather)
    requires cfg.capacity >= 1 && Accounted(cfg, p) && Handled(p) && Calm(w)
    requires p.phase == AtTop && p.closed && p.provisioned
    ensures Settles(p, Run(cfg, p, Sending(cfg, p, w)))
  {
    if p.inflight.Some? {
      CalmAttempt(cfg, p, w);
    } else {
      OneThenRest(cfg, p, Next, Looked(cfg, Took(p), w));
      if p.queue != [] {
        NextAccounts(cfg, p);
        CalmAttempt(cfg, Took(p), w);
      }
    }
  }

  lemma {:induction false} CalmReady(cfg: Config, p: Pub, w: Weather)
    requires cfg.capacity >= 1 && Accounted(cfg, p) && Handled(p) && Calm(w)
    requires p.phase == AtTop && p.closed && p.provisioned
    ensures Settles(p, Run(cfg, p, Ready(cfg, p, w)))
  {
    OthersLeave(cfg, p, w.second);
    StaysSound(cfg, p, w.second);
    CalmSending(cfg, Run(cfg, p, w.second), w);
    RunConcat(cfg, p, w.second, Sending(cfg, Run(cfg, p, w.second), w));
  }

  lemma {:induction false} CalmProvision(p: Pub)
    requires p.phase == AtTop && p.closed && !p.provisioned
    ensures var p' := Provisioned(p, true);
            p'.closed && p'.queue == p.queue && p'.inflight == p.inflight && p'.counters == p.counters &&
            if Outstanding(p) == 0 then p'.phase == Exited else p'.phase == AtTop && p'.provisioned
  {
  }

  lemma {:induction false} CalmTop(cfg: Config, p: Pub, w: Weather)
    requires cfg.capacity >= 1 && Accounted(cfg, p) && Handled(p) && Calm(w)
    requires p.phase == AtTop && p.closed
    ensures Settles(p, Run(cfg, p, Top(cfg, p, w)))
  {
    if p.provisioned {
      CalmReady(cfg, p, w);
    } else {
      var p1 := Provisioned(p, true);
      CalmProvision(p);
      OneThenRest(cfg, p, Provision(true), Ensured(cfg, p1, w));
      if p1.phase != Exited {
        QuietAccounts(cfg, p, Provision(true));
        CalmReady(cfg, p1, w);
      }
    }
  }

  /** A calm turn of a draining publisher settles one event, or finds none and returns. */
  lemma {:induction false} CalmTurn(cfg: Config, p: Pub, w: Weather)
    requires cfg.capacity >= 1 && Accounted(cfg, p) && Handled(p) && Calm(w)
    requires p.phase == AtTop && p.closed
    ensures Settles(p, Run(cfg, p, TurnSteps(cfg, p, w)))
  {
    OthersLeave(cfg, p, w.first);
    StaysSound(cfg, p, w.first);
    CalmTop(cfg, Run(cfg, p, w.first), w);
    RunConcat(cfg, p, w.first, Top(cfg, Run(cfg, p, w.first), w));
  }

  ghost predicate AllCalm(ws: seq<Weather>) {
    forall i :: 0 <= i < |ws| ==> Calm(ws[i])
  }

  /** A publisher told to drain does so in calm weather: after at most one turn for
      each event outstanding, and one more, the drainer has returned, nothing is queued
      or in flight, every event has been published or found unpublishable, and none was
      dropped. */
  lemma {:induction false} CalmDrainFinishes(cfg: Config, p: Pub, ws: seq<Weather>)
    requires cfg.capacity >= 1 && Accounted(cfg, p) && Handled(p) && AllCalm(ws)
    requires p.phase == AtTop && p.closed && |ws| > Outstanding(p)
    ensures var p' := Run(cfg, p, DrainSteps(cfg, p, ws));
            p'.phase == Exited && Outstanding(p') == 0 &&
            p'.counters.published + p'.counters.unpublishable ==
            p.counters.published + p.counters.unpublishable + Outstanding(p) &&
            p'.counters.queueFull == p.counters.queueFull && p'.counters.atShutdown == p.counters.atShutdown
    decreases |ws|
  {
    var turn := TurnSteps(cfg, p, ws[0]);
    var p1 := Run(cfg, p, turn);
    CalmTurn(cfg, p, ws[0]);
    RunConcat(cfg, p, turn, DrainSteps(cfg, p1, ws[1..]));
    if Outstanding(p) > 0 {
      StaysSound(cfg, p, turn);
      CalmDrainFinishes(cfg, p1, ws[1..]);
    } else {
      assert DrainSteps(cfg, p1, ws[1..]) == [];
    }
  }
}
