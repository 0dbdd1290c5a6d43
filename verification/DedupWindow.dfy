/** A broker that remembers message ids only for a window of time: exactly when its
    stream is still free of duplicates (internal/publish/publish.go). */
module DedupWindow {
  import opened Prelude
  import opened Publish

  /** A message that reached the broker, and when. */
  datatype Delivery = Delivery(msg: Msg, at: Time)

  /** The broker drops a message whose id it stored less than a window ago; a
      dropped repeat does not extend the window. */
  function DeliverAt(stream: seq<Delivery>, window: Time, d: Delivery): seq<Delivery> {
    if exists i :: 0 <= i < |stream| && stream[i].msg.id == d.msg.id && d.at - stream[i].at < window then stream
    else stream + [d]
  }

  function Windowed(window: Time, ds: seq<Delivery>): seq<Delivery> {
    if ds == [] then [] else DeliverAt(Windowed(window, ds[..|ds| - 1]), window, ds[|ds| - 1])
  }

  /** The stream of a broker that never forgets an id. */
  function Unwindowed(ds: seq<Delivery>): seq<Msg> {
    if ds == [] then [] else Deliver(Unwindowed(ds[..|ds| - 1]), ds[|ds| - 1].msg)
  }

  function Msgs(ds: seq<Delivery>): (msgs: seq<Msg>)
    ensures |msgs| == |ds|
  {
    seq(|ds|, i requires 0 <= i < |ds| => ds[i].msg)
  }

  /** The first delivery of each id. */
  function Firsts(ds: seq<Delivery>): seq<Delivery> {
    if ds == [] then []
    else
      var init, d := Firsts(ds[..|ds| - 1]), ds[|ds| - 1];
      if Landed(init, d.msg.id) then init else init + [d]
  }

  predicate Landed(ds: seq<Delivery>, id: string) {
    exists i :: 0 <= i < |ds| && ds[i].msg.id == id
  }

  /** Every repeat comes less than a window after its id first landed. */
  ghost predicate InTime(window: Time, ds: seq<Delivery>) {
    ds == [] ||
    (InTime(window, ds[..|ds| - 1]) && Prompt(window, Firsts(ds[..|ds| - 1]), ds[|ds| - 1]))
  }

  ghost predicate Prompt(window: Time, firsts: seq<Delivery>, d: Delivery) {
    forall i :: 0 <= i < |firsts| && firsts[i].msg.id == d.msg.id ==> d.at - firsts[i].at < window
  }

  lemma {:induction false} OneMoreFirst(firsts: seq<Delivery>, d: Delivery)
    requires DistinctIds(Msgs(firsts))
    ensures var next := if Landed(firsts, d.msg.id) then firsts else firsts + [d];
            DistinctIds(Msgs(next)) && Msgs(next) == Deliver(Msgs(firsts), d.msg)
  {
    var msgs := Msgs(firsts);
    assert Msgs(firsts + [d]) == msgs + [d.msg];
    if Landed(firsts, d.msg.id) {
      var i :| 0 <= i < |firsts| && firsts[i].msg.id == d.msg.id;
      assert msgs[i].id == d.msg.id;
    } else {
      forall i | 0 <= i < |msgs| ensures msgs[i].id != d.msg.id {
        assert msgs[i] == firsts[i].msg;
      }
    }
  }

  lemma {:induction false} FirstsAreDistinct(ds: seq<Delivery>)
    ensures DistinctIds(Msgs(Firsts(ds))) && Msgs(Firsts(ds)) == Unwindowed(ds)
  {
    if ds != [] {
      FirstsAreDistinct(ds[..|ds| - 1]);
      OneMoreFirst(Firsts(ds[..|ds| - 1]), ds[|ds| - 1]);
    }
  }

  /** The window never removes anything, so a duplicate, once stored, stays. */
  lemma {:induction false} DuplicateStays(stream: seq<Delivery>, window: Time, d: Delivery)
    requires !DistinctIds(Msgs(stream))
    ensures !DistinctIds(Msgs(DeliverAt(stream, window, d)))
  {
    var i, j :| 0 <= i < j < |Msgs(stream)| && Msgs(stream)[i].id == Msgs(stream)[j].id;
    var next := Msgs(DeliverAt(stream, window, d));
    assert next[i] == Msgs(stream)[i] && next[j] == Msgs(stream)[j];
  }

  /** A late repeat of an id stored once is stored again. */
  lemma {:induction false} LateIsStored(firsts: seq<Delivery>, window: Time, d: Delivery)
    requires DistinctIds(Msgs(firsts)) && !Prompt(window, firsts, d)
    ensures !DistinctIds(Msgs(DeliverAt(firsts, window, d)))
  {
    var i :| 0 <= i < |firsts| && firsts[i].msg.id == d.msg.id && d.at - firsts[i].at >= window;
    forall j | 0 <= j < |firsts| && firsts[j].msg.id == d.msg.id ensures j == i {
      assert Msgs(firsts)[j].id == Msgs(firsts)[i].id;
    }
    var next := Msgs(DeliverAt(firsts, window, d));
    assert DeliverAt(firsts, window, d) == firsts + [d];
    assert next[i].id == next[|firsts|].id;
  }

  lemma {:induction false} PromptIsDropped(firsts: seq<Delivery>, window: Time, d: Delivery)
    requires Prompt(window, firsts, d)
    ensures DeliverAt(firsts, window, d) == if Landed(firsts, d.msg.id) then firsts else firsts + [d]
  {
  }

  /** Over any deliveries at any times: the window stores what an unforgetting broker
      would, without duplicates, exactly when every repeat is in time. */
  lemma {:induction false} NoDuplicatesExactlyWhen(window: Time, ds: seq<Delivery>)
    ensures DistinctIds(Msgs(Windowed(window, ds))) <==> InTime(window, ds)
    ensures InTime(window, ds) ==> Windowed(window, ds) == Firsts(ds) && Msgs(Windowed(window, ds)) == Unwindowed(ds)
  {
    FirstsAreDistinct(ds);
    if ds != [] {
      var init, d := ds[..|ds| - 1], ds[|ds| - 1];
      NoDuplicatesExactlyWhen(window, init);
      FirstsAreDistinct(init);
      if !InTime(window, init) {
        DuplicateStays(Windowed(window, init), window, d);
      } else if Prompt(window, Firsts(init), d) {
        PromptIsDropped(Firsts(init), window, d);
      } else {
        LateIsStored(Firsts(init), window, d);
      }
    }
  }

  // ---- The publisher against such a broker ----

  /** The delivery a step makes, if any: an attempt of an acceptable message that
      arrives, acknowledged or not, or one that arrives late. */
  function DeliveryOf(cfg: Config, p: Pub, step: Publish.Step, at: Time): seq<Delivery> {
    if step.Attempt? && step.result != NotStored && p.phase == AtTop && p.provisioned && p.inflight.Some? &&
       p.at < |p.fates| && !cfg.rejects(p.inflight.value)
    then [Delivery(p.inflight.value, at)]
    else if step.Lands? && MayLand(cfg, p, step.index) then [Delivery(p.accepted[step.index], at)]
    else []
  }

  function Deliveries(cfg: Config, steps: seq<Publish.Step>, times: seq<Time>): seq<Delivery>
    requires |times| == |steps|
  {
    if steps == [] then []
    else
      var n := |steps| - 1;
      Deliveries(cfg, steps[..n], times[..n]) + DeliveryOf(cfg, Run(cfg, Start(), steps[..n]), steps[n], times[n])
  }

  lemma {:induction false} StreamMoves(cfg: Config, p: Pub, step: Publish.Step, at: Time)
    ensures var ds := DeliveryOf(cfg, p, step, at);
            Apply(cfg, p, step).stream == if ds == [] then p.stream else Deliver(p.stream, ds[0].msg)
  {
    match step
    case Attempt(result) =>
    case Lands(index) =>
    case Offer(m) =>
    case Next =>
    case Quit =>
    case Finish =>
    case _ =>
  }

  lemma {:induction false} StreamIsDelivered(cfg: Config, steps: seq<Publish.Step>, times: seq<Time>)
    requires |times| == |steps|
    ensures Run(cfg, Start(), steps).stream == Unwindowed(Deliveries(cfg, steps, times))
  {
    if steps != [] {
      var n := |steps| - 1;
      var before := Deliveries(cfg, steps[..n], times[..n]);
      StreamIsDelivered(cfg, steps[..n], times[..n]);
      StreamMoves(cfg, Run(cfg, Start(), steps[..n]), steps[n], times[n]);
      var more := DeliveryOf(cfg, Run(cfg, Start(), steps[..n]), steps[n], times[n]);
      if more != [] {
        assert (before + more)[..|before|] == before;
      } else {
        assert before + more == before;
      }
    }
  }

  /** Exactly when the publisher's stream is free of duplicates on a broker with a
      window, in any run at any times: when every retry of an event that has landed
      comes within the window of its landing. The stream is then that of a broker
      which never forgets, so all that holds of that one holds of it. */
  lemma {:induction false} WindowSufficesExactlyWhen(cfg: Config, steps: seq<Publish.Step>, times: seq<Time>,
                                                     window: Time)
    requires |times| == |steps|
    ensures var ds := Deliveries(cfg, steps, times);
            (DistinctIds(Msgs(Windowed(window, ds))) <==> InTime(window, ds)) &&
            (InTime(window, ds) ==> Msgs(Windowed(window, ds)) == Run(cfg, Start(), steps).stream)
  {
    StreamIsDelivered(cfg, steps, times);
    NoDuplicatesExactlyWhen(window, Deliveries(cfg, steps, times));
  }
}
