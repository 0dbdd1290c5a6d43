/** The log shipper's rate limiter and its accounting (internal/logship/logship.go). */
module LogShip {
  import opened Prelude
  import opened Arithmetic

  /** Go's zero `time.Time`, the start of year 1, which `admit` takes to mean that no
      window is open. */
  const ZERO_INSTANT: Time := -62_135_596_800_000_000_000

  /** `windowStart` and `sent`. */
  datatype Gate = Gate(windowStart: Time, sent: nat)

  datatype Limits = Limits(limit: nat, window: Time)

  function Opened(l: Limits, g: Gate, now: Time): Gate {
    if g.windowStart == ZERO_INSTANT || now - g.windowStart >= l.window then Gate(now, 0) else g
  }

  predicate Admits(l: Limits, g: Gate, now: Time) {
    Opened(l, g, now).sent < l.limit
  }

  /** `admit`: the gate afterwards. */
  function Admit(l: Limits, g: Gate, now: Time): Gate {
    var o := Opened(l, g, now);
    if o.sent < l.limit then o.(sent := o.sent + 1) else o
  }

  /** The gate after a list of clock readings, and how many were admitted. */
  function After(l: Limits, g: Gate, times: seq<Time>): Gate
    decreases |times|
  {
    if times == [] then g else After(l, Admit(l, g, times[0]), times[1..])
  }

  function Admitted(l: Limits, g: Gate, times: seq<Time>): nat
    decreases |times|
  {
    if times == [] then 0
    else (if Admits(l, g, times[0]) then 1 else 0) + Admitted(l, Admit(l, g, times[0]), times[1..])
  }

  predicate NonDecreasing(times: seq<Time>) {
    forall i, j :: 0 <= i <= j < |times| ==> times[i] <= times[j]
  }

  predicate NeverZero(times: seq<Time>) {
    forall i :: 0 <= i < |times| ==> times[i] != ZERO_INSTANT
  }

  predicate Within(times: seq<Time>, from: Time, to: Time) {
    forall i :: 0 <= i < |times| ==> from <= times[i] <= to
  }

  /** What an open window may still admit up to an instant: what it has left, and
      one limit for each further window that fits. */
  function Budget(l: Limits, g: Gate, to: Time): int
    requires l.window > 0
  {
    (if g.sent < l.limit then l.limit - g.sent else 0) + (to - g.windowStart) / l.window * l.limit
  }

  /** Each reading spends from the budget what it admits. */
  lemma BudgetIsSpent(l: Limits, g: Gate, now: Time, to: Time)
    requires l.window > 0 && g.windowStart != ZERO_INSTANT && g.windowStart <= now <= to
    ensures (if Admits(l, g, now) then 1 else 0) + Budget(l, Admit(l, g, now), to) <= Budget(l, g, to)
  {
    if now - g.windowStart >= l.window {
      DivOrder(to - now, to - g.windowStart, l.window);
      MulOrder((to - now) / l.window, (to - g.windowStart) / l.window, l.limit);
    }
  }

  lemma {:induction false} OpenWindowBound(l: Limits, g: Gate, times: seq<Time>, to: Time)
    requires l.window > 0 && g.windowStart != ZERO_INSTANT
    requires NonDecreasing(times) && NeverZero(times) && Within(times, g.windowStart, to) && g.windowStart <= to
    ensures Admitted(l, g, times) <= Budget(l, g, to)
    decreases |times|
  {
    if times == [] {
      DivOrder(0, to - g.windowStart, l.window);
      MulOrder(0, (to - g.windowStart) / l.window, l.limit);
    } else {
      BudgetIsSpent(l, g, times[0], to);
      FirstThenRest(times, to);
      OpenWindowBound(l, Admit(l, g, times[0]), times[1..], to);
    }
  }

  lemma FirstThenRest(times: seq<Time>, to: Time)
    requires times != [] && NonDecreasing(times) && NeverZero(times) && times[|times| - 1] <= to
    ensures NonDecreasing(times[1..]) && NeverZero(times[1..]) && Within(times[1..], times[0], to)
  {
  }

  /** The limiter is not stricter than it says: within one window it admits every
      record until the limit is reached. */
  lemma {:induction false} WindowAdmitsUpToLimit(l: Limits, g: Gate, times: seq<Time>)
    requires g.windowStart != ZERO_INSTANT && g.sent <= l.limit
    requires forall i :: 0 <= i < |times| ==> times[i] - g.windowStart < l.window
    ensures Admitted(l, g, times) == if |times| <= l.limit - g.sent then |times| else l.limit - g.sent
    decreases |times|
  {
    if times != [] {
      assert forall i :: 0 <= i < |times[1..]| ==> times[1..][i] == times[i + 1];
      WindowAdmitsUpToLimit(l, Admit(l, g, times[0]), times[1..]);
    }
  }

  /** A reachable gate: no window yet, or one opened at some earlier reading. */
  lemma {:induction false} GateIsEarlier(l: Limits, g: Gate, times: seq<Time>, next: Time)
    requires NeverZero(times) && NonDecreasing(times + [next])
    requires g.windowStart == ZERO_INSTANT || (times + [next])[0] >= g.windowStart
    ensures var g' := After(l, g, times);
            g'.windowStart == ZERO_INSTANT || g'.windowStart <= next
    ensures times != [] ==> After(l, g, times).windowStart != ZERO_INSTANT
    decreases |times|
  {
    if times != [] {
      assert (times + [next])[1..] == times[1..] + [next];
      assert (times + [next])[0] <= (times + [next])[1];
      GateIsEarlier(l, Admit(l, g, times[0]), times[1..], next);
      assert times[0] != ZERO_INSTANT;
      if times[1..] == [] {
        assert After(l, g, times) == Admit(l, g, times[0]);
      }
    }
  }

  /** The rate bound. Whatever was logged before, the records admitted in any span
      of length `span` number at most the limit times the windows that fit plus two. */
  lemma RateBound(l: Limits, before: seq<Time>, during: seq<Time>, from: Time, span: Time)
    requires l.window > 0 && span >= 0
    requires NonDecreasing(before + during) && NeverZero(before + during)
    requires Within(during, from, from + span)
    ensures Admitted(l, After(l, Gate(ZERO_INSTANT, 0), before), during) <= l.limit * (span / l.window + 2)
  {
    var g := After(l, Gate(ZERO_INSTANT, 0), before);
    if during == [] {
      DivOrder(0, span, l.window);
      MulOrder(0, span / l.window + 2, l.limit);
    } else {
      LaterReadings(before, during);
      GateIsEarlier(l, Gate(ZERO_INSTANT, 0), before, during[0]);
      SpanBound(l, g, during, from, span);
    }
  }

  lemma LaterReadings(before: seq<Time>, during: seq<Time>)
    requires NonDecreasing(before + during) && NeverZero(before + during) && during != []
    ensures NonDecreasing(before + [during[0]]) && NeverZero(before)
    ensures NonDecreasing(during) && NeverZero(during)
  {
    var all := before + during;
    assert forall i :: 0 <= i < |before| ==> before[i] == all[i];
    assert forall i :: 0 <= i < |during| ==> during[i] == all[|before| + i];
    assert forall i :: 0 <= i < |before + [during[0]]| ==> (before + [during[0]])[i] == all[i];
  }

  /** The bound from any gate that is not ahead of the span's first reading. */
  lemma SpanBound(l: Limits, g: Gate, during: seq<Time>, from: Time, span: Time)
    requires l.window > 0 && span >= 0 && during != []
    requires NonDecreasing(during) && NeverZero(during) && Within(during, from, from + span)
    requires g.windowStart == ZERO_INSTANT || g.windowStart <= during[0]
    ensures Admitted(l, g, during) <= l.limit * (span / l.window + 2)
  {
    var now, to := during[0], from + span;
    var o := Opened(l, g, now);
    assert Admit(l, g, now) == Admit(l, o, now) && (Admits(l, g, now) <==> Admits(l, o, now));
    assert Within(during, o.windowStart, to);
    OpenWindowBound(l, o, during, to);
    BudgetBound(l, o, to, span);
  }

  lemma BudgetBound(l: Limits, g: Gate, to: Time, span: Time)
    requires l.window > 0 && to - g.windowStart < span + l.window
    ensures Budget(l, g, to) <= l.limit * (span / l.window + 2)
  {
    var x, w := (to - g.windowStart) / l.window, span / l.window;
    DivOrder(to - g.windowStart, span, l.window);
    MulOrder(x, w + 1, l.limit);
    assert (w + 1) * l.limit + l.limit == l.limit * (w + 2);
  }

  /** In a span shorter than one window: at most twice the limit. */
  lemma ShortSpanBound(l: Limits, before: seq<Time>, during: seq<Time>, from: Time, span: Time)
    requires 0 <= span < l.window
    requires NonDecreasing(before + during) && NeverZero(before + during)
    requires Within(during, from, from + span)
    ensures Admitted(l, After(l, Gate(ZERO_INSTANT, 0), before), during) <= 2 * l.limit
  {
    RateBound(l, before, during, from, span);
  }

  /** The condition is needed: a clock reading the zero instant opens a new window
      every time, and nothing is ever suppressed. */
  lemma {:induction false} ZeroInstantNeverLimits(l: Limits, times: seq<Time>, sent: nat)
    requires l.limit > 0 && forall i :: 0 <= i < |times| ==> times[i] == ZERO_INSTANT
    ensures Admitted(l, Gate(ZERO_INSTANT, sent), times) == |times|
    decreases |times|
  {
    if times != [] {
      ZeroInstantNeverLimits(l, times[1..], 1);
    }
  }

  ghost predicate Bounded(l: Limits, before: seq<Time>, during: seq<Time>, from: Time, span: Time)
    requires l.window > 0
  {
    span >= 0 && NonDecreasing(before + during) && Within(during, from, from + span) ==>
      Admitted(l, After(l, Gate(ZERO_INSTANT, 0), before), during) <= l.limit * (span / l.window + 2)
  }

  predicate ReadsFrom(clock: iset<Time>, times: seq<Time>) {
    forall i :: 0 <= i < |times| ==> times[i] in clock
  }

  lemma ZeroInstantBreaksTheBound(l: Limits)
    requires l.window > 0 && l.limit > 0
    ensures var zeros := seq(2 * l.limit + 1, i => ZERO_INSTANT);
            !Bounded(l, [], zeros, ZERO_INSTANT, 0)
  {
    var zeros := seq(2 * l.limit + 1, i => ZERO_INSTANT);
    ZeroInstantNeverLimits(l, zeros, 0);
    assert [] + zeros == zeros;
    DivIs(0, 0, 0, l.window);
  }

  /** Exactly when a clock's readings keep the bound in every run: when the zero
      instant is not one of them. */
  lemma RateBoundExactlyWhen(l: Limits, clock: iset<Time>)
    requires l.window > 0 && l.limit > 0
    ensures (forall before, during, from, span :: ReadsFrom(clock, before + during) ==>
               Bounded(l, before, during, from, span)) <==>
            ZERO_INSTANT !in clock
  {
    if ZERO_INSTANT in clock {
      var zeros := seq(2 * l.limit + 1, i => ZERO_INSTANT);
      ZeroInstantBreaksTheBound(l);
      assert ReadsFrom(clock, [] + zeros);
    } else {
      forall before, during, from, span | ReadsFrom(clock, before + during)
        ensures Bounded(l, before, during, from, span)
      {
        BoundedWithoutZero(l, before, during, from, span);
      }
    }
  }

  lemma BoundedWithoutZero(l: Limits, before: seq<Time>, during: seq<Time>, from: Time, span: Time)
    requires l.window > 0 && NeverZero(before + during)
    ensures Bounded(l, before, during, from, span)
  {
    if span >= 0 && NonDecreasing(before + during) && Within(during, from, from + span) {
      RateBound(l, before, during, from, span);
    }
  }

  // ---- Shipping ----

  datatype Record = Record(time: Time, level: int, message: string)

  datatype Settings = Settings(floor: int, limits: Limits)

  /** What became of a record at or above the floor: over the limit; admitted and not
      yet sent, as its logger is between the two; on or through the channel; or
      admitted and finding the channel full. */
  datatype Fate = Limited | Sending | Sent | Full

  datatype Entry = Entry(record: Record, fate: Fate)

  /** The handler's shipping state: the gate, the records waiting on the channel and
      the counter of suppressed records; then the history: every record at or above
      the floor in the order admitted or limited, the indices of those sent in the
      order sent, and how many the collector has taken off the channel. */
  datatype Shipper = Shipper(gate: Gate, out: seq<Record>, suppressed: nat,
                             entries: seq<Entry>, order: seq<nat>, taken: nat)

  /** Loggers run concurrently: `admit` is one step, under its lock, and the send
      another, with any steps of anyone in between. */
  datatype Step =
    | Logged(record: Record, now: Time)
    | Send(index: nat)
    | Receive

  function NewShipper(): Shipper {
    Shipper(Gate(ZERO_INSTANT, 0), [], 0, [], [], 0)
  }

  predicate HasRoom(s: Settings, h: Shipper) {
    |h.out| < 4 * s.limits.limit
  }

  /** `Handle` up to `admit`: a record over the limit is suppressed. */
  function LoggedTo(s: Settings, h: Shipper, r: Record, now: Time): Shipper {
    if r.level < s.floor then h
    else
      var ok := Admits(s.limits, h.gate, now);
      h.(gate := Admit(s.limits, h.gate, now),
         suppressed := if ok then h.suppressed else h.suppressed + 1,
         entries := h.entries + [Entry(r, if ok then Sending else Limited)])
  }

  /** The end of `ship`: a record finding the channel full is suppressed. */
  function SentBy(s: Settings, h: Shipper, index: nat): Shipper {
    if index >= |h.entries| || h.entries[index].fate != Sending then h
    else if HasRoom(s, h) then
      h.(out := h.out + [h.entries[index].record], order := h.order + [index],
         entries := h.entries[index := h.entries[index].(fate := Sent)])
    else
      h.(suppressed := h.suppressed + 1, entries := h.entries[index := h.entries[index].(fate := Full)])
  }

  function Apply(s: Settings, h: Shipper, step: Step): Shipper {
    match step
    case Logged(r, now) => LoggedTo(s, h, r, now)
    case Send(index) => SentBy(s, h, index)
    case Receive => if h.out == [] then h else h.(out := h.out[1..], taken := h.taken + 1)
  }

  function Run(s: Settings, steps: seq<Step>): Shipper {
    if steps == [] then NewShipper() else Apply(s, Run(s, steps[..|steps| - 1]), steps[|steps| - 1])
  }

  /** The records given to the handler that are at or above the floor. */
  function Offered(s: Settings, steps: seq<Step>): seq<Record> {
    if steps == [] then []
    else
      var step := steps[|steps| - 1];
      Offered(s, steps[..|steps| - 1]) + OfferOf(s, step)
  }

  function Count(entries: seq<Entry>, fate: Fate): nat {
    if entries == [] then 0
    else Count(entries[..|entries| - 1], fate) + if entries[|entries| - 1].fate == fate then 1 else 0
  }

  lemma {:induction false} CountSet(entries: seq<Entry>, index: nat, e: Entry, fate: Fate)
    requires index < |entries|
    ensures Count(entries[index := e], fate) ==
            Count(entries, fate) - (if entries[index].fate == fate then 1 else 0) + if e.fate == fate then 1 else 0
  {
    var n := |entries| - 1;
    var next := entries[index := e];
    if index < n {
      assert next[..n] == entries[..n][index := e];
      CountSet(entries[..n], index, e, fate);
    } else {
      assert next[..n] == entries[..n];
    }
  }

  lemma {:induction false} CountSnoc(entries: seq<Entry>, e: Entry, fate: Fate)
    ensures Count(entries + [e], fate) == Count(entries, fate) + if e.fate == fate then 1 else 0
  {
    assert (entries + [e])[..|entries|] == entries;
  }

  lemma {:induction false} EveryFateCounts(entries: seq<Entry>)
    ensures |entries| ==
            Count(entries, Limited) + Count(entries, Sending) + Count(entries, Sent) + Count(entries, Full)
  {
    if entries != [] {
      EveryFateCounts(entries[..|entries| - 1]);
    }
  }

  /** The indices sent are those of the entries sent, each once. */
  ghost predicate Indexed(order: seq<nat>, entries: seq<Entry>) {
    && Distinct(order)
    && (forall i :: 0 <= i < |order| ==> order[i] < |entries| && entries[order[i]].fate == Sent)
    && (forall j :: 0 <= j < |entries| && entries[j].fate == Sent ==> j in order)
  }

  ghost predicate Holds(h: Shipper, i: nat)
    requires i < |h.out| && |h.order| == h.taken + |h.out|
  {
    var index := h.order[h.taken + i];
    index < |h.entries| && h.out[i] == h.entries[index].record
  }

  /** The last of them are on the channel. */
  ghost predicate OnChannel(h: Shipper) {
    && |h.order| == h.taken + |h.out|
    && (forall i :: 0 <= i < |h.out| ==> Holds(h, i))
  }

  ghost predicate Ordered(h: Shipper) {
    Indexed(h.order, h.entries) && OnChannel(h)
  }

  ghost predicate Counted(s: Settings, h: Shipper) {
    && |h.out| <= 4 * s.limits.limit
    && h.suppressed == Count(h.entries, Limited) + Count(h.entries, Full)
    && |h.order| == Count(h.entries, Sent)
  }

  ghost predicate Recorded(h: Shipper, offered: seq<Record>) {
    |h.entries| == |offered| && forall i :: 0 <= i < |offered| ==> h.entries[i].record == offered[i]
  }

  lemma {:induction false} SentCounts(s: Settings, h: Shipper, index: nat)
    requires Counted(s, h)
    ensures Counted(s, SentBy(s, h, index))
  {
    if index < |h.entries| && h.entries[index].fate == Sending {
      var e := h.entries[index].(fate := if HasRoom(s, h) then Sent else Full);
      CountSet(h.entries, index, e, Limited);
      CountSet(h.entries, index, e, Full);
      CountSet(h.entries, index, e, Sent);
    }
  }

  lemma {:induction false} LoggedCounts(s: Settings, h: Shipper, r: Record, now: Time)
    requires Counted(s, h)
    ensures Counted(s, LoggedTo(s, h, r, now))
  {
    var e := Entry(r, if Admits(s.limits, h.gate, now) then Sending else Limited);
    CountSnoc(h.entries, e, Limited);
    CountSnoc(h.entries, e, Full);
    CountSnoc(h.entries, e, Sent);
  }

  lemma {:induction false} OneMoreIndex(order: seq<nat>, index: nat)
    requires Distinct(order) && index !in order
    ensures Distinct(order + [index]) && index in order + [index]
    ensures forall j :: j in order ==> j in order + [index]
  {
    assert (order + [index])[|order|] == index;
  }

  lemma {:induction false} SentIndexed(order: seq<nat>, entries: seq<Entry>, index: nat)
    requires Indexed(order, entries) && index < |entries| && entries[index].fate == Sending
    ensures Indexed(order + [index], entries[index := entries[index].(fate := Sent)])
    ensures Indexed(order, entries[index := entries[index].(fate := Full)])
  {
    OneMoreIndex(order, index);
  }

  lemma {:induction false} SentOnChannel(s: Settings, h: Shipper, index: nat)
    requires OnChannel(h)
    ensures OnChannel(SentBy(s, h, index))
  {
    var h' := SentBy(s, h, index);
    forall i | 0 <= i < |h'.out| ensures Holds(h', i) {
      if i < |h.out| {
        assert Holds(h, i);
      }
    }
  }

  lemma {:induction false} SentOrders(s: Settings, h: Shipper, index: nat)
    requires Ordered(h)
    ensures Ordered(SentBy(s, h, index))
  {
    SentOnChannel(s, h, index);
    if index < |h.entries| && h.entries[index].fate == Sending {
      SentIndexed(h.order, h.entries, index);
    }
  }

  lemma {:induction false} LoggedOrders(s: Settings, h: Shipper, r: Record, now: Time)
    requires Ordered(h)
    ensures Ordered(LoggedTo(s, h, r, now))
  {
    var h' := LoggedTo(s, h, r, now);
    forall i | 0 <= i < |h'.out| ensures Holds(h', i) {
      assert Holds(h, i);
    }
  }

  lemma {:induction false} ReceiveOrders(s: Settings, h: Shipper)
    requires Ordered(h)
    ensures Ordered(Apply(s, h, Receive))
  {
    if h.out != [] {
      var h' := Apply(s, h, Receive);
      forall i | 0 <= i < |h'.out| ensures Holds(h', i) {
        assert Holds(h, i + 1);
      }
    }
  }

  lemma {:induction false} StepKeeps(s: Settings, h: Shipper, step: Step)
    requires Ordered(h) && Counted(s, h)
    ensures Ordered(Apply(s, h, step)) && Counted(s, Apply(s, h, step))
  {
    match step
    case Logged(r, now) =>
      LoggedCounts(s, h, r, now);
      LoggedOrders(s, h, r, now);
    case Send(index) =>
      SentCounts(s, h, index);
      SentOrders(s, h, index);
    case Receive => ReceiveOrders(s, h);
  }

  function OfferOf(s: Settings, step: Step): seq<Record> {
    if step.Logged? && step.record.level >= s.floor then [step.record] else []
  }

  lemma {:induction false} StepRecords(s: Settings, h: Shipper, offered: seq<Record>, step: Step)
    requires Recorded(h, offered)
    ensures Recorded(Apply(s, h, step), offered + OfferOf(s, step))
  {
    if OfferOf(s, step) == [] {
      assert offered + OfferOf(s, step) == offered;
    }
  }

  /** Every record at or above the floor has one fate, under any interleaving of
      loggers, their sends and the collector: those sent, in the order of their sends,
      are the ones taken off the channel and then those on it; those over the limit or
      finding the channel full are as many as the counter says; the rest are between
      the two, in the hands of their loggers. */
  lemma {:induction false} EveryRecordIsAccountedFor(s: Settings, steps: seq<Step>)
    ensures var h := Run(s, steps);
            Recorded(h, Offered(s, steps)) && Ordered(h) && Counted(s, h) &&
            |Offered(s, steps)| == h.taken + |h.out| + Count(h.entries, Sending) + h.suppressed
  {
    if steps != [] {
      var init, step := steps[..|steps| - 1], steps[|steps| - 1];
      EveryRecordIsAccountedFor(s, init);
      StepKeeps(s, Run(s, init), step);
      StepRecords(s, Run(s, init), Offered(s, init), step);
    }
    EveryFateCounts(Run(s, steps).entries);
  }

  // ---- The order of what is shipped ----

  ghost predicate Ascending(order: seq<nat>) {
    forall i, j :: 0 <= i < j < |order| ==> order[i] < order[j]
  }

  /** Sends of one list of steps are in the order of their records. */
  ghost predicate SendsInOrder(s: Settings, steps: seq<Step>) {
    steps == [] ||
    (SendsInOrder(s, steps[..|steps| - 1]) &&
     InTurn(s, Run(s, steps[..|steps| - 1]), steps[|steps| - 1]))
  }

  /** A send that ships is of a later record than all shipped before it. */
  ghost predicate InTurn(s: Settings, h: Shipper, step: Step) {
    step.Send? && SentBy(s, h, step.index).order != h.order ==> forall i :: i in h.order ==> i < step.index
  }

  /** Records are on the channel in the order logged exactly when loggers do not
      overtake one another between admission and send. */
  lemma {:induction false} InOrderExactlyWhen(s: Settings, steps: seq<Step>)
    ensures Ascending(Run(s, steps).order) <==> SendsInOrder(s, steps)
  {
    if steps != [] {
      var n := |steps| - 1;
      InOrderExactlyWhen(s, steps[..n]);
      var h := Run(s, steps[..n]);
      if steps[n].Send? && SentBy(s, h, steps[n].index).order != h.order {
        OneMoreSent(h.order, steps[n].index);
      }
    }
  }

  lemma {:induction false} OneMoreSent(order: seq<nat>, index: nat)
    ensures Ascending(order + [index]) <==> Ascending(order) && forall i :: i in order ==> i < index
  {
    var next := order + [index];
    if Ascending(next) {
      forall i, j | 0 <= i < j < |order| ensures order[i] < order[j] {
        assert next[i] < next[j];
      }
      forall i | i in order ensures i < index {
        var k :| 0 <= k < |order| && order[k] == i;
        assert next[k] < next[|order|];
      }
    }
    if Ascending(order) && forall i :: i in order ==> i < index {
      forall i, j | 0 <= i < j < |next| ensures next[i] < next[j] {
        assert order[i] in order;
      }
    }
  }

  // ---- The rate bound, of the records shipped ----

  /** The clock readings of a run: one for each record at or above the floor. */
  function Readings(s: Settings, steps: seq<Step>): seq<Time> {
    if steps == [] then []
    else Readings(s, steps[..|steps| - 1]) + ReadingOf(s, steps[|steps| - 1])
  }

  function ReadingOf(s: Settings, step: Step): seq<Time> {
    if step.Logged? && step.record.level >= s.floor then [step.now] else []
  }

  lemma {:induction false} StepNext(s: Settings, steps: seq<Step>, step: Step)
    ensures Run(s, steps + [step]) == Apply(s, Run(s, steps), step)
    ensures Readings(s, steps + [step]) == Readings(s, steps) + ReadingOf(s, step)
  {
    assert (steps + [step])[..|steps|] == steps;
  }

  lemma {:induction false} OneMoreReading(l: Limits, g: Gate, times: seq<Time>, now: Time)
    ensures After(l, g, times + [now]) == Admit(l, After(l, g, times), now)
    ensures Admitted(l, g, times + [now]) == Admitted(l, g, times) + if Admits(l, After(l, g, times), now) then 1 else 0
    decreases |times|
  {
    if times == [] {
      assert [] + [now] == [now] && [now][1..] == [];
    } else {
      assert (times + [now])[0] == times[0] && (times + [now])[1..] == times[1..] + [now];
      OneMoreReading(l, Admit(l, g, times[0]), times[1..], now);
    }
  }

  lemma {:induction false} ReadingsConcat(s: Settings, a: seq<Step>, b: seq<Step>)
    ensures Readings(s, a + b) == Readings(s, a) + Readings(s, b)
  {
    if b == [] {
      assert a + b == a;
    } else {
      assert (a + b)[..|a + b| - 1] == a + b[..|b| - 1];
      ReadingsConcat(s, a, b[..|b| - 1]);
    }
  }

  lemma {:induction false} ReadingsWithin(s: Settings, steps: seq<Step>, from: Time, to: Time)
    requires forall i :: 0 <= i < |steps| && steps[i].Logged? ==> from <= steps[i].now <= to
    ensures Within(Readings(s, steps), from, to)
  {
    if steps != [] {
      ReadingsWithin(s, steps[..|steps| - 1], from, to);
    }
  }

  /** The records that have passed the gate: all but those limited. */
  function Passed(h: Shipper): int {
    |h.entries| - Count(h.entries, Limited)
  }

  lemma {:induction false} OneMoreStep(s: Settings, h: Shipper, g: Gate, times: seq<Time>, step: Step)
    requires h.gate == After(s.limits, g, times)
    ensures Apply(s, h, step).gate == After(s.limits, g, times + ReadingOf(s, step))
    ensures Passed(Apply(s, h, step)) - Passed(h) ==
            Admitted(s.limits, g, times + ReadingOf(s, step)) - Admitted(s.limits, g, times)
  {
    match step
    case Logged(r, now) =>
      if r.level >= s.floor {
        OneMoreReading(s.limits, g, times, now);
        CountSnoc(h.entries, Entry(r, if Admits(s.limits, h.gate, now) then Sending else Limited), Limited);
      } else {
        assert times + [] == times;
      }
    case Send(index) =>
      assert times + [] == times;
      if index < |h.entries| && h.entries[index].fate == Sending {
        CountSet(h.entries, index, h.entries[index].(fate := if HasRoom(s, h) then Sent else Full), Limited);
      }
    case Receive => assert times + [] == times;
  }

  /** The gate moves with the clock, and `steps` after `before` pass what it admits. */
  lemma {:induction false} PassesWhatIsAdmitted(s: Settings, before: seq<Step>, steps: seq<Step>)
    ensures Run(s, before + steps).gate == After(s.limits, Run(s, before).gate, Readings(s, steps))
    ensures Passed(Run(s, before + steps)) ==
            Passed(Run(s, before)) + Admitted(s.limits, Run(s, before).gate, Readings(s, steps))
  {
    if steps == [] {
      assert before + steps == before;
    } else {
      var init, step := steps[..|steps| - 1], steps[|steps| - 1];
      assert steps == init + [step] && before + steps == (before + init) + [step];
      PassesWhatIsAdmitted(s, before, init);
      StepNext(s, init, step);
      StepNext(s, before + init, step);
      OneMoreStep(s, Run(s, before + init), Run(s, before).gate, Readings(s, init), step);
    }
  }

  lemma {:induction false} GateFollowsClock(s: Settings, steps: seq<Step>)
    ensures Run(s, steps).gate == After(s.limits, Gate(ZERO_INSTANT, 0), Readings(s, steps))
  {
    assert [] + steps == steps;
    PassesWhatIsAdmitted(s, [], steps);
  }

  /** The bound, as one number. */
  function Cap(l: Limits, span: Time): int
    requires l.window > 0
  {
    l.limit * (span / l.window + 2)
  }

  lemma {:induction false} RateCap(l: Limits, before: seq<Time>, during: seq<Time>, from: Time, span: Time)
    requires l.window > 0 && span >= 0
    requires NonDecreasing(before + during) && NeverZero(before + during)
    requires Within(during, from, from + span)
    ensures Admitted(l, After(l, Gate(ZERO_INSTANT, 0), before), during) <= Cap(l, span)
  {
    RateBound(l, before, during, from, span);
  }

  lemma {:induction false} SpanKeepsBound(s: Settings, before: seq<Step>, steps: seq<Step>, from: Time, span: Time)
    requires s.limits.window > 0 && span >= 0
    requires NonDecreasing(Readings(s, before + steps)) && NeverZero(Readings(s, before + steps))
    requires forall i :: 0 <= i < |steps| && steps[i].Logged? ==> from <= steps[i].now <= from + span
    ensures Admitted(s.limits, After(s.limits, Gate(ZERO_INSTANT, 0), Readings(s, before)), Readings(s, steps)) <=
            Cap(s.limits, span)
  {
    ReadingsConcat(s, before, steps);
    ReadingsWithin(s, steps, from, from + span);
    RateCap(s.limits, Readings(s, before), Readings(s, steps), from, span);
  }

  /** So the records logged in a span of length `span` of any run that are shipped, or
      ever will be, keep the bound. */
  lemma {:induction false} ShippedWithinBound(s: Settings, before: seq<Step>, steps: seq<Step>, from: Time, span: Time)
    requires s.limits.window > 0 && span >= 0
    requires NonDecreasing(Readings(s, before + steps)) && NeverZero(Readings(s, before + steps))
    requires forall i :: 0 <= i < |steps| && steps[i].Logged? ==> from <= steps[i].now <= from + span
    ensures Passed(Run(s, before + steps)) - Passed(Run(s, before)) <= Cap(s.limits, span)
  {
    PassesWhatIsAdmitted(s, before, steps);
    GateFollowsClock(s, before);
    SpanKeepsBound(s, before, steps, from, span);
  }

  // ---- The handler ----

  /** No logger is between admission and send, and what was shipped is in order. */
  ghost predicate Quiet(h: Shipper) {
    && Count(h.entries, Sending) == 0
    && (forall i :: i in h.order ==> i < |h.entries|) && Ascending(h.order)
  }

  function ShipsNow(s: Settings, h: Shipper, r: Record, at: Time): bool {
    r.level >= s.floor && Admits(s.limits, h.gate, at) && HasRoom(s, h)
  }

  /** One record logged and sent with nobody in between. */
  lemma {:induction false} ShipsOne(s: Settings, h: Shipper, r: Record, at: Time)
    requires Quiet(h)
    ensures var h' := SentBy(s, LoggedTo(s, h, r, at), |h.entries|);
            Quiet(h') &&
            h'.gate == (if r.level >= s.floor then Admit(s.limits, h.gate, at) else h.gate) &&
            h'.out == (if ShipsNow(s, h, r, at) then h.out + [r] else h.out) &&
            h'.suppressed == h.suppressed + if r.level >= s.floor && !ShipsNow(s, h, r, at) then 1 else 0
  {
    var index, h1 := |h.entries|, LoggedTo(s, h, r, at);
    if r.level < s.floor {
      NothingToSend(s, h1, index);
    } else {
      CountSnoc(h.entries, h1.entries[index], Sending);
      LastIsSent(s, h1, index);
      if ShipsNow(s, h, r, at) {
        OneMoreSent(h.order, index);
      }
    }
  }

  class Handler {
    const settings: Settings
    var gate: Gate
    var out: seq<Record>
    var suppressed: nat
    ghost var now: Shipper
    ghost var steps: seq<Step>

    /** No other logger is between admission and send: one goroutine's view. */
    ghost predicate Valid()
      reads this
    {
      && now == Run(settings, steps) && now.gate == gate && now.out == out && now.suppressed == suppressed
      && Quiet(now)
    }

    constructor (settings: Settings)
      ensures Valid() && this.settings == settings && steps == []
    {
      this.settings := settings;
      gate, out, suppressed := Gate(ZERO_INSTANT, 0), [], 0;
      now, steps := NewShipper(), [];
    }

    ghost method Did(step: Step)
      requires now == Run(settings, steps)
      modifies this`now, this`steps
      ensures now == Apply(settings, old(now), step) && steps == old(steps) + [step] && now == Run(settings, steps)
    {
      StepNext(settings, steps, step);
      now, steps := Apply(settings, now, step), steps + [step];
    }

    /** `admit`. */
    method AdmitNow(at: Time) returns (ok: bool)
      modifies this`gate
      ensures ok == Admits(settings.limits, old(gate), at) && gate == Admit(settings.limits, old(gate), at)
    {
      if gate.windowStart == ZERO_INSTANT || at - gate.windowStart >= settings.limits.window {
        gate := Gate(at, 0);
      }
      if gate.sent >= settings.limits.limit {
        return false;
      }
      gate := gate.(sent := gate.sent + 1);
      return true;
    }

    /** `Handle` and `ship`: a record at or above the floor is put on the channel if
        admitted with room, and otherwise counted, exactly once. */
    method Handle(r: Record, at: Time)
      requires Valid()
      modifies this
      ensures Valid()
      ensures var shipped := r.level >= settings.floor && Admits(settings.limits, old(gate), at) &&
                             |old(out)| < 4 * settings.limits.limit;
              out == (if shipped then old(out) + [r] else old(out)) &&
              suppressed == old(suppressed) + if r.level >= settings.floor && !shipped then 1 else 0
      ensures steps == old(steps) + [Logged(r, at), Send(|old(now).entries|)]
    {
      ghost var index := |now.entries|;
      ShipsOne(settings, now, r, at);
      if r.level >= settings.floor {
        var ok := AdmitNow(at);
        if ok && |out| < 4 * settings.limits.limit {
          out := out + [r];
        } else {
          suppressed := suppressed + 1;
        }
      }
      Did(Logged(r, at));
      Did(Send(index));
    }

    /** The collector takes a shipped record off the channel. */
    method Receive() returns (r: Option<Record>)
      requires Valid()
      modifies this`out, this`now, this`steps
      ensures Valid() && steps == old(steps) + [Step.Receive]
      ensures if old(out) == [] then r == None && out == []
              else r == Some(old(out)[0]) && out == old(out)[1..] && now.taken == old(now).taken + 1
    {
      Did(Step.Receive);
      if out == [] {
        return None;
      }
      r := Some(out[0]);
      out := out[1..];
    }

    /** Between calls, the records at or above the floor are those taken, those on the
        channel and those suppressed, the first two in the order logged. */
    lemma Accounts()
      requires Valid()
      ensures |Offered(settings, steps)| == now.taken + |out| + suppressed
      ensures Recorded(now, Offered(settings, steps)) && Ordered(now) && Ascending(now.order)
    {
      EveryRecordIsAccountedFor(settings, steps);
    }
  }

  lemma {:induction false} NothingToSend(s: Settings, h: Shipper, index: nat)
    requires index >= |h.entries|
    ensures SentBy(s, h, index) == h
  {
  }

  lemma {:induction false} LastIsSent(s: Settings, h: Shipper, index: nat)
    requires index + 1 == |h.entries| && Count(h.entries, Sending) == if h.entries[index].fate == Sending then 1 else 0
    ensures Count(SentBy(s, h, index).entries, Sending) == 0
  {
    if h.entries[index].fate == Sending {
      CountSet(h.entries, index, h.entries[index].(fate := if HasRoom(s, h) then Sent else Full), Sending);
    }
  }
}
