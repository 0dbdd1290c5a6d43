/** The poll machine of one device: reads bounded by a deadline, abandoned reads
    never overlapped, adapter faults kept apart from device faults
    (internal/runner/runner.go, internal/stats/devices.go). */
module Runner {
  import opened Prelude
  import opened Model

  /** How an adapter's `Read` ends. */
  datatype Raw = Panicked | Returned(snap: Option<Snapshot>, failed: bool)

  /** What `readGuarded` makes of it. */
  datatype Outcome = AdapterFault | Failure | Success(snap: Snapshot)

  /** A panic, or no snapshot and no error, is the adapter's fault. */
  function Guarded(raw: Raw): Outcome {
    match raw
    case Panicked => AdapterFault
    case Returned(snap, failed) =>
      if failed then Failure else if snap.None? then AdapterFault else Success(snap.value)
  }

  /** A snapshot handed to the engine: the poll it was handed over in, and the read it came from. */
  datatype Applied = Applied(poll: nat, read: nat, snap: Snapshot)

  /** `failures` and `pending` are the runner's, `tracked` and `everPolled` the
      device tracker's, `faults` the adapter-fault counter. `current` is the read this
      poll waits on. `live` are reads still running, `done` results sitting in their
      channels. Then the history: polls begun, the poll each read was started in,
      the reachability events sent and the snapshots applied. */
  datatype World = World(failures: nat, pending: Option<nat>, tracked: nat, everPolled: bool, faults: nat,
                         current: Option<nat>, live: set<nat>, done: map<nat, Raw>, next: nat,
                         polls: nat, startedIn: map<nat, nat>, reachable: seq<bool>, applied: seq<Applied>)

  datatype Step =
    | Begin(stopping: bool)
    | ReadEnds(read: nat, raw: Raw)
    | Deliver(stopping: bool)
    | Deadline(stopping: bool)

  function Start(): World {
    World(0, None, 0, false, 0, None, {}, map[], 0, 0, map[], [], [])
  }

  /** The error branch of `pollOnce`: silent when the collector is stopping. */
  function Failed(w: World, stopping: bool): World {
    if stopping then w
    else
      w.(failures := w.failures + 1, tracked := w.tracked + 1,
         reachable := if w.failures == 0 then w.reachable + [false] else w.reachable)
  }

  /** The success branch of `pollOnce`. */
  function Succeeded(w: World, read: nat, snap: Snapshot): World {
    w.(failures := 0, tracked := 0, everPolled := true,
       reachable := if w.failures > 0 then w.reachable + [true] else w.reachable,
       applied := w.applied + [Applied(w.polls, read, snap)])
  }

  /** A poll begins: an earlier read still running fails it at once, otherwise a
      new read is started. */
  function Begun(w: World, stopping: bool): World {
    if w.current.Some? then w
    else
      var w1 := w.(polls := w.polls + 1);
      if w.pending.Some? && w.pending.value !in w.done then Failed(w1, stopping)
      else
        w1.(pending := None, current := Some(w.next), live := w.live + {w.next}, next := w.next + 1,
            startedIn := w.startedIn[w.next := w1.polls])
  }

  /** The adapter returns, in time or late: its result waits in the channel. */
  function Ended(w: World, read: nat, raw: Raw): World {
    if read !in w.live then w
    else w.(live := w.live - {read}, done := w.done[read := raw])
  }

  /** The poll receives the result of its own read. */
  function Delivered(w: World, stopping: bool): World {
    if w.current.None? || w.current.value !in w.done then w
    else
      var read := w.current.value;
      var w1 := w.(current := None);
      match Guarded(w.done[read])
      case AdapterFault => w1.(faults := w1.faults + 1)
      case Failure => Failed(w1, stopping)
      case Success(snap) => Succeeded(w1, read, snap)
  }

  /** The deadline wins: the read is abandoned and the poll has failed. */
  function TimedOut(w: World, stopping: bool): World {
    if w.current.None? then w
    else Failed(w.(pending := w.current, current := None), stopping)
  }

  function Apply(w: World, step: Step): World {
    match step
    case Begin(stopping) => Begun(w, stopping)
    case ReadEnds(read, raw) => Ended(w, read, raw)
    case Deliver(stopping) => Delivered(w, stopping)
    case Deadline(stopping) => TimedOut(w, stopping)
  }

  function Run(w: World, steps: seq<Step>): World {
    if steps == [] then w else Apply(Run(w, steps[..|steps| - 1]), steps[|steps| - 1])
  }

  // ---- What every interleaving keeps ----

  /** The only read that may be running is the one this poll waits on, or the one
      an earlier poll abandoned, and there is never both. */
  ghost predicate NoOverlap(w: World) {
    && (w.current.Some? ==> w.pending.None?)
    && (forall r :: r in w.live ==> w.current == Some(r) || w.pending == Some(r))
    && (forall r :: r in w.live ==> r !in w.done)
    && (forall r :: r in w.live || r in w.done || r in w.startedIn ==> r < w.next)
    && (w.pending.Some? ==> w.pending.value < w.next && (w.pending.value in w.live || w.pending.value in w.done))
  }

  /** A read's result reaches the engine only in the poll that started the read. */
  ghost predicate Fresh(w: World) {
    && (forall r :: r in w.startedIn ==> r < w.next)
    && (w.current.Some? ==> w.current.value in w.startedIn && w.startedIn[w.current.value] == w.polls)
    && (forall i :: 0 <= i < |w.applied| ==>
          w.applied[i].read in w.startedIn && w.startedIn[w.applied[i].read] == w.applied[i].poll <= w.polls)
    && (forall i :: 0 <= i < |w.applied| && w.current.Some? ==> w.applied[i].poll < w.polls)
    && (forall i, j :: 0 <= i < j < |w.applied| ==> w.applied[i].poll < w.applied[j].poll)
  }

  /** Reachability events alternate from unreachable, and the last one agrees with
      the failure count, which is the tracker's. */
  ghost predicate Alternates(w: World) {
    && w.failures == w.tracked
    && (forall i :: 0 <= i < |w.reachable| ==> w.reachable[i] == (i % 2 == 1))
    && (w.failures > 0 <==> |w.reachable| % 2 == 1)
    && (w.applied != [] <==> w.everPolled)
  }

  ghost predicate Sound(w: World) {
    && NoOverlap(w) && Fresh(w) && Alternates(w)
    && (w.current.Some? ==> w.current.value in w.live || w.current.value in w.done)
  }

  lemma BeginKeepsReports(w: World, stopping: bool)
    requires Alternates(w)
    ensures Alternates(Begun(w, stopping))
  {
  }

  lemma BeginKeepsReads(w: World, stopping: bool)
    requires NoOverlap(w)
    ensures NoOverlap(Begun(w, stopping))
    ensures var w' := Begun(w, stopping);
            w'.current.Some? && w'.current != w.current ==> w'.current.value in w'.live
  {
  }

  lemma BeginKeeps(w: World, stopping: bool)
    requires Sound(w)
    ensures Sound(Begun(w, stopping))
  {
    BeginKeepsReads(w, stopping);
    BeginKeepsReports(w, stopping);
    assert Fresh(Begun(w, stopping));
  }

  lemma EndKeeps(w: World, read: nat, raw: Raw)
    requires Sound(w)
    ensures Sound(Ended(w, read, raw))
  {
  }

  lemma DeliverKeepsReads(w: World, stopping: bool)
    requires Sound(w)
    ensures NoOverlap(Delivered(w, stopping)) && Fresh(Delivered(w, stopping))
  {
  }

  lemma DeliverKeepsReports(w: World, stopping: bool)
    requires Alternates(w)
    ensures Alternates(Delivered(w, stopping))
    ensures Delivered(w, stopping) == w || Delivered(w, stopping).current == None
  {
  }

  lemma DeadlineKeeps(w: World, stopping: bool)
    requires Sound(w)
    ensures Sound(TimedOut(w, stopping))
  {
  }

  lemma StepKeeps(w: World, step: Step)
    requires Sound(w)
    ensures Sound(Apply(w, step))
  {
    match step
    case Begin(stopping) => BeginKeeps(w, stopping);
    case ReadEnds(read, raw) => EndKeeps(w, read, raw);
    case Deliver(stopping) =>
      DeliverKeepsReads(w, stopping);
      DeliverKeepsReports(w, stopping);
    case Deadline(stopping) => DeadlineKeeps(w, stopping);
  }

  lemma {:induction false} Safe(steps: seq<Step>)
    ensures Sound(Run(Start(), steps))
  {
    if steps != [] {
      Safe(steps[..|steps| - 1]);
      StepKeeps(Run(Start(), steps[..|steps| - 1]), steps[|steps| - 1]);
    }
  }

  /** Under any interleaving of polls, deadlines, late returns, panics and shutdown,
      at most one Read of the adapter is ever running. */
  lemma {:induction false} NeverOverlaps(steps: seq<Step>)
    ensures |Run(Start(), steps).live| <= 1
  {
    Safe(steps);
    var w := Run(Start(), steps);
    if w.current.Some? {
      assert w.live <= {w.current.value};
      SubsetSize(w.live, {w.current.value});
    } else if w.pending.Some? {
      assert w.live <= {w.pending.value};
      SubsetSize(w.live, {w.pending.value});
    } else {
      assert w.live == {};
    }
  }

  lemma SubsetSize(a: set<nat>, b: set<nat>)
    requires a <= b
    ensures |a| <= |b|
  {
    assert b == a + (b - a);
  }

  /** Every snapshot applied came from a read started in that same poll. */
  lemma {:induction false} OnlyFreshResultsApply(steps: seq<Step>, i: nat)
    requires i < |Run(Start(), steps).applied|
    ensures var w := Run(Start(), steps);
            w.applied[i].read in w.startedIn && w.startedIn[w.applied[i].read] == w.applied[i].poll
  {
    Safe(steps);
  }

  /** No poll, and so no read, is applied twice. */
  lemma {:induction false} NothingAppliesTwice(steps: seq<Step>, i: nat, j: nat)
    requires i < j < |Run(Start(), steps).applied|
    ensures var w := Run(Start(), steps);
            w.applied[i].poll < w.applied[j].poll && w.applied[i].read != w.applied[j].read
  {
    Safe(steps);
  }

  /** Reachability events strictly alternate, starting with unreachable, and the
      device is last reported unreachable exactly while failures are being counted. */
  lemma {:induction false} ReachabilityAlternates(steps: seq<Step>)
    ensures var w := Run(Start(), steps);
            (w.reachable != [] ==> w.reachable[0] == false) &&
            (forall i :: 0 < i < |w.reachable| ==> w.reachable[i] != w.reachable[i - 1]) &&
            (w.failures > 0 <==> w.reachable != [] && !w.reachable[|w.reachable| - 1])
  {
    Safe(steps);
    OddIsReachable(Run(Start(), steps).reachable);
  }

  lemma OddIsReachable(reports: seq<bool>)
    requires forall i :: 0 <= i < |reports| ==> reports[i] == (i % 2 == 1)
    ensures reports != [] ==> reports[0] == false
    ensures forall i :: 0 < i < |reports| ==> reports[i] != reports[i - 1]
    ensures |reports| % 2 == 1 <==> reports != [] && !reports[|reports| - 1]
  {
    forall i | 0 < i < |reports| ensures reports[i] != reports[i - 1] {
      var j := i - 1;
      assert reports[j] == (j % 2 == 1);
    }
    if reports != [] {
      var j := |reports| - 1;
      assert reports[j] == (j % 2 == 1);
    }
  }

  lemma {:induction false} CountsAgree(steps: seq<Step>)
    ensures Run(Start(), steps).failures == Run(Start(), steps).tracked
  {
    Safe(steps);
  }

  // ---- Only a device's own outcomes are reported ----

  /** What a poll says about the device. */
  datatype Verdict = Down | Up

  /** The verdict a step reaches, if any: an adapter fault says nothing of the
      device, and neither does a poll cut short by shutdown. */
  function VerdictOf(w: World, step: Step): seq<Verdict> {
    match step
    case Begin(stopping) =>
      if w.current.None? && w.pending.Some? && w.pending.value !in w.done && !stopping then [Down] else []
    case ReadEnds(_, _) => []
    case Deliver(stopping) =>
      if w.current.None? || w.current.value !in w.done then []
      else (
        match w.done[w.current.value]
        case Panicked => []
        case Returned(snap, failed) =>
          if failed then if stopping then [] else [Down]
          else if snap.None? then []
          else [Up]
      )
    case Deadline(stopping) => if w.current.Some? && !stopping then [Down] else []
  }

  function Verdicts(steps: seq<Step>): seq<Verdict> {
    if steps == [] then []
    else
      var n := |steps| - 1;
      Verdicts(steps[..n]) + VerdictOf(Run(Start(), steps[..n]), steps[n])
  }

  /** What delivering a read's result does, by how the adapter's `Read` ended. An error
      is the device's failure, unless the collector is stopping; a panic, or no snapshot
      and no error, is the adapter's fault and says nothing of the device; a snapshot is
      a success and is applied, once, for this poll. */
  ghost predicate Answers(w: World, w': World, stopping: bool, raw: Raw, read: nat) {
    match raw
    case Panicked => Blamed(w, w')
    case Returned(snap, failed) =>
      if failed then
        w'.faults == w.faults && w'.applied == w.applied && w'.everPolled == w.everPolled &&
        w'.failures == (if stopping then w.failures else w.failures + 1) &&
        w'.tracked == (if stopping then w.tracked else w.tracked + 1) &&
        w'.reachable == (if !stopping && w.failures == 0 then w.reachable + [false] else w.reachable)
      else if snap.None? then Blamed(w, w')
      else
        w'.faults == w.faults && w'.failures == 0 && w'.tracked == 0 && w'.everPolled &&
        w'.reachable == (if w.failures > 0 then w.reachable + [true] else w.reachable) &&
        w'.applied == w.applied + [Applied(w.polls, read, snap.value)]
  }

  /** One more adapter fault, and nothing said of the device. */
  ghost predicate Blamed(w: World, w': World) {
    w'.faults == w.faults + 1 && w'.failures == w.failures && w'.tracked == w.tracked &&
    w'.reachable == w.reachable && w'.applied == w.applied && w'.everPolled == w.everPolled
  }

  lemma {:induction false} DeliveryAnswers(w: World, stopping: bool)
    requires w.current.Some? && w.current.value in w.done
    ensures Delivered(w, stopping).current == None && Delivered(w, stopping).pending == w.pending
    ensures Answers(w, Delivered(w, stopping), stopping, w.done[w.current.value], w.current.value)
  {
    match w.done[w.current.value]
    case Panicked =>
    case Returned(snap, failed) =>
  }

  /** The failures in a row at the end. */
  function Streak(vs: seq<Verdict>): nat {
    if vs == [] || vs[|vs| - 1] == Up then 0 else Streak(vs[..|vs| - 1]) + 1
  }

  /** The changes of reachability, taking a device as reachable at first. */
  function Edges(vs: seq<Verdict>): seq<bool> {
    if vs == [] then []
    else
      var n := |vs| - 1;
      var wasUp := n == 0 || vs[n - 1] == Up;
      Edges(vs[..n]) + if wasUp == (vs[n] == Up) then [] else [vs[n] == Up]
  }

  function Ups(vs: seq<Verdict>): nat {
    if vs == [] then 0 else Ups(vs[..|vs| - 1]) + if vs[|vs| - 1] == Up then 1 else 0
  }

  ghost predicate Reports(w: World, vs: seq<Verdict>) {
    w.reachable == Edges(vs) && w.failures == Streak(vs) && w.tracked == Streak(vs) && |w.applied| == Ups(vs)
  }

  lemma VerdictNext(vs: seq<Verdict>, v: Verdict)
    ensures Streak(vs + [v]) == if v == Up then 0 else Streak(vs) + 1
    ensures Ups(vs + [v]) == Ups(vs) + if v == Up then 1 else 0
    ensures Edges(vs + [v]) ==
            Edges(vs) +
            if v == Down && Streak(vs) == 0 then [false] else if v == Up && Streak(vs) > 0 then [true] else []
  {
    assert (vs + [v])[..|vs|] == vs;
  }

  /** What a device's verdict does to the runner's reports. */
  lemma {:induction false} VerdictReports(w: World, w': World, vs: seq<Verdict>, v: Verdict)
    requires Reports(w, vs)
    requires w'.failures == (if v == Up then 0 else w.failures + 1) && w'.tracked == w'.failures
    requires |w'.applied| == |w.applied| + if v == Up then 1 else 0
    requires w'.reachable == w.reachable + if v == Down && w.failures == 0 then [false]
                                           else if v == Up && w.failures > 0 then [true] else []
    ensures Reports(w', vs + [v])
  {
    VerdictNext(vs, v);
  }

  /** Every step keeps what is reported, or reports its one verdict. */
  ghost predicate Spoke(w: World, w': World, found: seq<Verdict>) {
    if found == [] then
      w'.failures == w.failures && w'.tracked == w.tracked && w'.applied == w.applied && w'.reachable == w.reachable
    else
      |found| == 1 && w.tracked == w.failures &&
      w'.failures == (if found[0] == Up then 0 else w.failures + 1) && w'.tracked == w'.failures &&
      |w'.applied| == |w.applied| + (if found[0] == Up then 1 else 0) &&
      w'.reachable == w.reachable + if found[0] == Down && w.failures == 0 then [false]
                                    else if found[0] == Up && w.failures > 0 then [true] else []
  }

  lemma {:induction false} DeliverSpeaks(w: World, stopping: bool)
    requires w.failures == w.tracked
    ensures Spoke(w, Delivered(w, stopping), VerdictOf(w, Deliver(stopping)))
  {
    if w.current.Some? && w.current.value in w.done {
      DeliveryAnswers(w, stopping);
    }
  }

  lemma {:induction false} StepSpeaks(w: World, step: Step)
    requires w.failures == w.tracked
    ensures Spoke(w, Apply(w, step), VerdictOf(w, step))
  {
    match step
    case Begin(stopping) =>
    case ReadEnds(read, raw) =>
    case Deliver(stopping) => DeliverSpeaks(w, stopping);
    case Deadline(stopping) =>
  }

  lemma {:induction false} StepReports(w: World, step: Step, vs: seq<Verdict>)
    requires Reports(w, vs)
    ensures Reports(Apply(w, step), vs + VerdictOf(w, step))
  {
    var found := VerdictOf(w, step);
    StepSpeaks(w, step);
    if found == [] {
      assert vs + found == vs;
    } else {
      assert found == [found[0]];
      VerdictReports(w, Apply(w, step), vs, found[0]);
    }
  }

  /** In every run the reachability events are exactly the changes in the sequence
      of verdicts, and both failure counts its trailing failures: adapter faults,
      late results and shutdown leave no trace. */
  lemma {:induction false} ReportsAreEdges(steps: seq<Step>)
    ensures Reports(Run(Start(), steps), Verdicts(steps))
  {
    if steps != [] {
      var n := |steps| - 1;
      ReportsAreEdges(steps[..n]);
      StepReports(Run(Start(), steps[..n]), steps[n], Verdicts(steps[..n]));
    }
  }

  /** Readiness latches: no later outage takes it back. */
  lemma {:induction false} EverPolledLatches(w: World, steps: seq<Step>)
    requires w.everPolled
    ensures Run(w, steps).everPolled
  {
    if steps != [] {
      EverPolledLatches(w, steps[..|steps| - 1]);
    }
  }
}
