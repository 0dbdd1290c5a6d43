/** The publisher object: its methods and drain loop, each proved to be steps of
    the publishing machine. Between any two of the drainer's critical sections the
    rest of the collector may enqueue, start the drain, or close its window. */
module Publisher {
  import opened Prelude
  import opened Publish
  import opened Drainer

  lemma RunNext(cfg: Config, p: Pub, steps: seq<Step>, step: Step)
    ensures Run(cfg, p, steps + [step]) == Apply(cfg, Run(cfg, p, steps), step)
  {
    assert (steps + [step])[..|steps|] == steps;
  }

  datatype Outcome = Proceed | Continue | Return

  class Publisher {
    const cfg: Config
    var queue: seq<Msg>
    var closed: bool
    var counters: Counters
    /** The drainer's context has been cancelled. */
    var stopped: bool
    /** The drainer's own variables. */
    var provisioned: bool
    var inflight: Option<Msg>
    /** The broker's stream, the machine state these fields realise, and the steps taken to reach it. */
    ghost var stream: seq<Msg>
    ghost var now: Pub
    ghost var steps: seq<Step>

    ghost predicate Valid()
      reads this
    {
      && now == Run(cfg, Start(), steps)
      && now.queue == queue && now.closed == closed && now.counters == counters && now.stopped == stopped
      && now.provisioned == provisioned && now.inflight == inflight && now.stream == stream
    }

    constructor (cfg: Config)
      ensures Valid() && this.cfg == cfg && steps == []
    {
      this.cfg := cfg;
      queue, closed, counters, stopped := [], false, Counters(0, 0, 0, 0), false;
      provisioned, inflight, stream := false, None, [];
      now, steps := Start(), [];
    }

    /** Logs one step of the machine. */
    ghost method Did(step: Step)
      requires now == Run(cfg, Start(), steps)
      modifies this`now, this`steps
      ensures now == Apply(cfg, old(now), step) && steps == old(steps) + [step]
      ensures now == Run(cfg, Start(), steps)
    {
      RunNext(cfg, Start(), steps, step);
      now, steps := Apply(cfg, now, step), steps + [step];
    }

    /** `Enqueue`, given the rendered message: refuses only while draining. */
    method Enqueue(m: Msg) returns (refused: bool)
      requires Valid() && cfg.capacity >= 1
      modifies this`queue, this`counters, this`now, this`steps
      ensures Valid() && steps == old(steps) + [Offer(m)]
      ensures refused == closed && now == Enqueued(cfg, old(now), m)
      ensures now.accepted == if refused then old(now).accepted else old(now).accepted + [m]
      ensures counters == old(counters).(queueFull := counters.queueFull)
      ensures !refused ==> queue == old(queue)[if |old(queue)| >= cfg.capacity then 1 else 0..] + [m]
      ensures refused ==> queue == old(queue) && counters == old(counters)
    {
      if closed {
        refused := true;
      } else {
        if |queue| >= cfg.capacity {
          queue := queue[1..];
          counters := counters.(queueFull := counters.queueFull + 1);
        }
        queue := queue + [m];
        refused := false;
      }
      Did(Offer(m));
    }

    /** A message sent in some earlier attempt reaches the broker late. */
    ghost method LandLate(index: nat)
      requires Valid()
      modifies this`stream, this`now, this`steps
      ensures Valid() && steps == old(steps) + [Lands(index)]
    {
      if MayLand(cfg, now, index) {
        stream := Deliver(stream, now.accepted[index]);
      }
      Did(Lands(index));
    }

    /** Someone else: an enqueue, `Drain` starting, its window closing, or the broker. */
    method Other(step: Step)
      requires Valid() && cfg.capacity >= 1 && Outside(step)
      modifies this`queue, this`counters, this`closed, this`stopped, this`stream, this`now, this`steps
      ensures Valid() && steps == old(steps) + [step]
    {
      match step {
        case Offer(m) => var _ := Enqueue(m);
        case Close =>
          closed := true;
          Did(Close);
        case Stop =>
          stopped := stopped || closed;
          Did(Stop);
        case Lands(index) => LandLate(index);
      }
    }

    /** Everyone else, the broker included. */
    method Others(outside: seq<Step>)
      requires Valid() && cfg.capacity >= 1 && AllOutside(outside)
      modifies this`queue, this`counters, this`closed, this`stopped, this`stream, this`now, this`steps
      ensures Valid() && steps == old(steps) + outside && now == Run(cfg, old(now), outside)
      ensures Untouched(old(now), now)
    {
      for i := 0 to |outside|
        invariant Valid() && steps == old(steps) + outside[..i]
      {
        assert outside[..i + 1] == outside[..i] + [outside[i]];
        Other(outside[i]);
      }
      assert outside[..|outside|] == outside;
      RunConcat(cfg, Start(), old(steps), outside);
      OthersLeave(cfg, old(now), outside);
    }

    /** The end of a backoff or of the wait in `next`: on to another turn, or, if the
        stop is seen, out, and then what is in flight is counted by the drainer's
        deferred function. */
    method Rest(w: Weather) returns (again: bool)
      requires Valid() && cfg.capacity >= 1 && Proper(w) && (now.phase == BackingOff || now.phase == Waiting)
      modifies this
      ensures Valid() && steps == old(steps) + Rested(cfg, old(now), w)
      ensures now.phase == if again then AtTop else Exited
      ensures again ==> inflight == old(inflight) && provisioned == old(provisioned)
      ensures !again ==> stopped && inflight.None?
      ensures now.finished == old(now.finished) && (old(closed) ==> closed)
    {
      Others(w.last);
      again := !(stopped && w.seesStop);
      if again {
        GoOn();
      } else {
        StopNow();
      }
    }

    method GoOn()
      requires Valid() && (now.phase == BackingOff || now.phase == Waiting)
      modifies this`now, this`steps
      ensures Valid() && steps == old(steps) + [Retry] && now == old(now).(phase := AtTop)
    {
      Did(Retry);
    }

    /** The hard stop: the drainer returns, and what it holds is counted. */
    method StopNow()
      requires Valid() && cfg.capacity >= 1 && stopped && (now.phase == BackingOff || now.phase == Waiting)
      modifies this`counters, this`inflight, this`now, this`steps
      ensures Valid() && steps == old(steps) + [Quit] && now.phase == Exited && inflight.None?
      ensures now.finished == old(now.finished)
      ensures counters == old(counters).(atShutdown := counters.atShutdown)
    {
      Sound();
      if inflight.Some? {
        counters := counters.(atShutdown := counters.atShutdown + 1);
        inflight := None;
      }
      Did(Quit);
    }

    /** What every reachable state says about the drainer's hands. */
    lemma Sound()
      requires Valid() && cfg.capacity >= 1
      ensures inflight.Some? ==> now.at < |now.fates| && now.phase != Exited
      ensures now.finished ==> now.phase == Exited
    {
      AlwaysAccounted(cfg, steps);
    }

    /** `next`, one look at the queue: the oldest event if there is one; else nothing,
        and the drainer returns if draining or waits for more. */
    method TakeNext()
      requires Valid() && cfg.capacity >= 1 && now.phase == AtTop && provisioned && inflight.None?
      modifies this`queue, this`inflight, this`now, this`steps
      ensures Valid() && steps == old(steps) + [Next] && now == Took(old(now))
      ensures old(queue) != [] ==> inflight == Some(old(queue)[0]) && queue == old(queue)[1..] && now.phase == AtTop
      ensures old(queue) == [] ==> inflight.None? && now.phase == if closed then Exited else Waiting
    {
      if queue != [] {
        inflight := Some(queue[0]);
        queue := queue[1..];
      }
      Did(Next);
    }

    /** One `PublishMsg` and the settled branches of the switch on its error. The broker
        keeps its stream, drops repeated ids, and may lose the acknowledgement or the
        message. */
    method TryPublish(result: Attempt) returns (settled: bool)
      requires Valid() && cfg.capacity >= 1 && now.phase == AtTop && provisioned && inflight.Some?
      modifies this`stream, this`counters, this`inflight, this`provisioned, this`now, this`steps
      ensures Valid() && steps == old(steps) + [Step.Attempt(result)] && now.finished == old(now.finished)
      ensures settled <==> cfg.rejects(old(inflight).value) || result == Acked
      ensures now.phase == if settled then AtTop else BackingOff
      ensures inflight == if settled then None else old(inflight)
      ensures stream == if cfg.rejects(old(inflight).value) || result == NotStored then old(stream)
                        else Publish.Deliver(old(stream), old(inflight).value)
    {
      Sound();
      var m := inflight.value;
      if !cfg.rejects(m) && result != NotStored {
        stream := Deliver(stream, m);
      }
      settled := cfg.rejects(m) || result == Acked;
      if settled {
        counters := if cfg.rejects(m) then counters.(unpublishable := counters.unpublishable + 1)
                    else counters.(published := counters.published + 1);
        inflight := None;
      } else {
        provisioned := false;
      }
      Did(Step.Attempt(result));
    }

    /** One attempt, made whatever the weather, and the backoff if it did not settle
        the event. */
    method PublishOnce(w: Weather) returns (again: bool)
      requires Valid() && cfg.capacity >= 1 && now.phase == AtTop && provisioned && inflight.Some? && Proper(w)
      modifies this
      ensures Valid() && steps == old(steps) + Tried(cfg, old(now), w)
      ensures old(steps) + [Step.Attempt(w.result)] <= steps
      ensures now.finished == old(now.finished) && now.phase == if again then AtTop else Exited
      ensures cfg.rejects(old(inflight).value) || w.result == Acked ==> again && inflight.None?
      ensures cfg.rejects(old(inflight).value) ==> stream == old(stream)
      ensures w.result == Acked && !cfg.rejects(old(inflight).value) ==>
                counters.published == old(counters.published) + 1 &&
                stream == Publish.Deliver(old(stream), old(inflight).value)
      ensures again ==> inflight == None || inflight == old(inflight)
      ensures again && inflight.None? && !cfg.rejects(old(inflight).value) ==> w.result == Acked
      ensures old(closed) ==> closed
    {
      var settled := TryPublish(w.result);
      if settled {
        return true;
      }
      again := Rest(w);
    }

    /** The rest of a turn with an event in hand. */
    method TryToSend(w: Weather) returns (again: bool)
      requires Valid() && cfg.capacity >= 1 && now.phase == AtTop && provisioned && inflight.Some? && Proper(w)
      modifies this
      ensures Valid() && steps == old(steps) + Trying(cfg, old(now), w)
      ensures now.finished == old(now.finished) && now.phase == if again then AtTop else Exited
      ensures old(closed) ==> closed
    {
      ghost var tried := Tried(cfg, Run(cfg, now, w.third), w);
      Assoc(steps, w.third, tried);
      Others(w.third);
      again := PublishOnce(w);
    }

    /** The rest of a turn, once the streams are provisioned. */
    method Send(w: Weather) returns (again: bool)
      requires Valid() && cfg.capacity >= 1 && now.phase == AtTop && provisioned && Proper(w)
      modifies this
      ensures Valid() && steps == old(steps) + Sending(cfg, old(now), w)
      ensures now.finished == old(now.finished) && now.phase == if again then AtTop else Exited
      ensures old(closed) ==> closed
    {
      if inflight.Some? {
        again := TryToSend(w);
        return;
      }
      Assoc(steps, [Next], Looked(cfg, Took(now), w));
      TakeNext();
      if inflight.Some? {
        again := TryToSend(w);
      } else if closed {
        assert steps + [] == steps;
        again := false;
      } else {
        again := Rest(w);
      }
    }

    /** The top of `drain`'s loop: return if drained empty, else provision, else back off. */
    method EnsureStreams(w: Weather) returns (outcome: Outcome)
      requires Valid() && cfg.capacity >= 1 && now.phase == AtTop && !provisioned && Proper(w)
      modifies this
      ensures Valid() && now.finished == old(now.finished)
      ensures steps == old(steps) + if outcome == Proceed then [Provision(w.provision)] else Top(cfg, old(now), w)
      ensures outcome == Proceed ==> Top(cfg, old(now), w) == [Provision(w.provision)] + Ready(cfg, now, w)
      ensures now.phase == if outcome == Return then Exited else AtTop
      ensures outcome == Proceed <==> Provisioned(old(now), w.provision).phase == AtTop
      ensures outcome == Proceed ==> provisioned && now == Provisioned(old(now), w.provision)
      ensures outcome != Return ==> inflight == old(inflight)
      ensures old(inflight).None? && old(closed) && old(queue) == [] ==> outcome == Return
      ensures old(closed) ==> closed
    {
      ghost var p := Provisioned(now, w.provision);
      EnsuredIs(cfg, p, w);
      Assoc(steps, [Provision(w.provision)], Ensured(cfg, p, w));
      assert steps + [Provision(w.provision)] + [] == steps + [Provision(w.provision)];
      outcome := Provide(w.provision);
      if outcome == Continue {
        var again := Rest(w);
        outcome := if again then Continue else Return;
      }
    }

    /** One look at whether to return, and one attempt to provision. */
    method Provide(ok: bool) returns (outcome: Outcome)
      requires Valid() && cfg.capacity >= 1 && now.phase == AtTop && !provisioned
      modifies this`provisioned, this`now, this`steps
      ensures Valid() && steps == old(steps) + [Provision(ok)] && now == Provisioned(old(now), ok)
      ensures outcome == if inflight.None? && closed && queue == [] then Return else if ok then Proceed else Continue
      ensures now.phase == match outcome case Return => Exited case Proceed => AtTop case Continue => BackingOff
      ensures outcome == Proceed ==> provisioned
      ensures now.finished == old(now.finished)
    {
      Did(Provision(ok));
      if inflight.None? && closed && queue == [] {
        return Return;
      }
      if ok {
        provisioned := true;
        return Proceed;
      }
      return Continue;
    }

    /** The rest of a turn, once its streams are provisioned. */
    method FromReady(w: Weather) returns (again: bool)
      requires Valid() && cfg.capacity >= 1 && now.phase == AtTop && provisioned && Proper(w)
      modifies this
      ensures Valid() && steps == old(steps) + Ready(cfg, old(now), w)
      ensures now.finished == old(now.finished) && now.phase == if again then AtTop else Exited
      ensures old(closed) ==> closed
    {
      Assoc(steps, w.second, Sending(cfg, Run(cfg, now, w.second), w));
      Others(w.second);
      again := Send(w);
    }

    /** The rest of a turn, from its first critical section. */
    method FromTop(w: Weather) returns (again: bool)
      requires Valid() && cfg.capacity >= 1 && now.phase == AtTop && Proper(w)
      modifies this
      ensures Valid() && steps == old(steps) + Top(cfg, old(now), w)
      ensures now.finished == old(now.finished) && now.phase == if again then AtTop else Exited
      ensures old(closed) ==> closed
    {
      if provisioned {
        again := FromReady(w);
        return;
      }
      ghost var before := steps;
      var outcome := EnsureStreams(w);
      if outcome == Proceed {
        Assoc(before, [Provision(w.provision)], Ready(cfg, now, w));
        again := FromReady(w);
      } else {
        again := outcome == Continue;
      }
    }

    /** One turn of `drain`'s loop. */
    method OneTurn(w: Weather) returns (again: bool)
      requires Valid() && cfg.capacity >= 1 && now.phase == AtTop && Proper(w)
      modifies this
      ensures Valid() && steps == old(steps) + TurnSteps(cfg, old(now), w)
      ensures now == Run(cfg, old(now), TurnSteps(cfg, old(now), w))
      ensures now.finished == old(now.finished) && now.phase == if again then AtTop else Exited
      ensures old(closed) ==> closed
    {
      ghost var top := Top(cfg, Run(cfg, now, w.first), w);
      Assoc(steps, w.first, top);
      RunConcat(cfg, Start(), steps, w.first + top);
      Others(w.first);
      again := FromTop(w);
    }

    /** `drain`, for as many turns of its loop as there is weather for. */
    method DrainLoop(ws: seq<Weather>) returns (returned: bool)
      requires Valid() && cfg.capacity >= 1 && now.phase == AtTop
      requires forall i :: 0 <= i < |ws| ==> Proper(ws[i])
      modifies this
      ensures Valid() && steps == old(steps) + DrainSteps(cfg, old(now), ws)
      ensures now.finished == old(now.finished) && (returned <==> now.phase == Exited)
      ensures old(closed) ==> closed
    {
      var again := true;
      var n := 0;
      while again && n < |ws|
        invariant 0 <= n <= |ws|
        invariant Valid() && now.finished == old(now.finished)
        invariant steps + DrainSteps(cfg, now, ws[n..]) == old(steps) + DrainSteps(cfg, old(now), ws)
        invariant now.phase == if again then AtTop else Exited
        invariant old(closed) ==> closed
        decreases |ws| - n
      {
        ghost var before, was := steps, now;
        again := OneTurn(ws[n]);
        TurnThenRest(cfg, was, before, ws, n);
        n := n + 1;
      }
      assert steps + [] == steps;
      returned := !again;
    }

    /** The end of `Drain`, once the drainer has returned: what is left is counted. */
    method CountLeft()
      requires Valid() && cfg.capacity >= 1 && now.phase == Exited && now.closed && !now.finished
      modifies this`queue, this`counters, this`now, this`steps
      ensures Valid() && now.finished && queue == [] && old(steps) <= steps && now.accepted == old(now).accepted
      ensures counters == old(counters).(atShutdown := old(counters).atShutdown + |old(queue)|)
    {
      counters := counters.(atShutdown := counters.atShutdown + |queue|);
      queue := [];
      Did(Finish);
    }

    /** `Drain`: stop accepting, let the drainer finish or stop it when the window
        closes, and count what is left. If the drainer has returned, every accepted
        event has been counted exactly once. In calm weather it returns within a turn
        for each event outstanding and one more, and drops nothing. */
    method Drain(ws: seq<Weather>) returns (returned: bool)
      requires Valid() && cfg.capacity >= 1 && now.phase == AtTop
      requires forall i :: 0 <= i < |ws| ==> Proper(ws[i])
      modifies this
      ensures Valid() && closed && old(steps) + [Close] <= steps
      ensures returned ==>
                queue == [] && inflight.None? &&
                counters.published + counters.queueFull + counters.unpublishable + counters.atShutdown ==
                |now.accepted|
      ensures AllCalm(ws) && |ws| > old(Outstanding(now)) ==>
                returned && counters.atShutdown == old(counters.atShutdown) &&
                counters.queueFull == old(counters.queueFull) &&
                counters.published + counters.unpublishable ==
                old(counters.published + counters.unpublishable + Outstanding(now))
    {
      Sound();
      closed := true;
      Did(Close);
      ghost var p, before := now, steps;
      returned := DrainLoop(ws);
      RunConcat(cfg, Start(), before, DrainSteps(cfg, p, ws));
      if AllCalm(ws) && |ws| > Outstanding(p) {
        AlwaysAccounted(cfg, before);
        CalmDrainFinishes(cfg, p, ws);
      }
      if returned {
        ExitMeansClosed(cfg, steps);
        CountLeft();
        Sound();
        DrainSettlesEverything(cfg, steps);
      }
    }
  }

  /** The drainer returns, and is stopped, only once draining has begun. */
  predicate Draining(p: Pub) {
    (p.phase == Exited || p.stopped) ==> p.closed
  }

  lemma StepKeepsDraining(cfg: Config, p: Pub, step: Step)
    requires Draining(p)
    ensures Draining(Apply(cfg, p, step))
  {
  }

  lemma {:induction false} ExitMeansClosed(cfg: Config, steps: seq<Step>)
    ensures Draining(Run(cfg, Start(), steps))
  {
    if steps != [] {
      ExitMeansClosed(cfg, steps[..|steps| - 1]);
      StepKeepsDraining(cfg, Run(cfg, Start(), steps[..|steps| - 1]), steps[|steps| - 1]);
    }
  }
}
