/** The runner and the device tracker as objects, each method proved to be steps of
    the poll machine (internal/runner/runner.go, internal/stats/devices.go). */
module PollLoop {
  import opened Prelude
  import opened Model
  import opened Runner
  import Synth

  // ---- The device tracker ----

  datatype DeviceStatus = DeviceStatus(lastSuccess: Option<Time>, lastError: string, lastErrorAt: Option<Time>,
                                       consecutiveFailures: nat)

  const UNTOUCHED := DeviceStatus(None, "", None, 0)

  class Devices {
    var byId: map<DeviceId, DeviceStatus>
    var everPolled: bool

    function Entry(id: DeviceId): DeviceStatus
      reads this
    {
      if id in byId then byId[id] else UNTOUCHED
    }

    constructor (ids: seq<DeviceId>)
      ensures !everPolled && byId.Keys == (set id | id in ids)
      ensures forall id :: Entry(id) == UNTOUCHED
    {
      byId := map id | id in ids :: UNTOUCHED;
      everPolled := false;
    }

    method PollOK(id: DeviceId, at: Time)
      modifies this
      ensures everPolled
      ensures byId == old(byId)[id := old(Entry(id)).(lastSuccess := Some(at), consecutiveFailures := 0)]
    {
      var s := Entry(id);
      byId := byId[id := s.(lastSuccess := Some(at), consecutiveFailures := 0)];
      everPolled := true;
    }

    /** The last success is kept through failures, and the last error through recovery. */
    method PollFailed(id: DeviceId, at: Time, error: string)
      modifies this`byId
      ensures byId == old(byId)[id := old(Entry(id)).(lastError := error, lastErrorAt := Some(at),
                                consecutiveFailures := old(Entry(id)).consecutiveFailures + 1)]
    {
      var s := Entry(id);
      byId := byId[id := s.(lastError := error, lastErrorAt := Some(at),
                            consecutiveFailures := s.consecutiveFailures + 1)];
    }
  }

  // ---- The runner ----

  lemma RunNext(w: World, steps: seq<Step>, step: Step)
    ensures Run(w, steps + [step]) == Apply(Run(w, steps), step)
  {
    assert (steps + [step])[..|steps|] == steps;
  }

  class PollRunner {
    const deviceId: DeviceId
    const deviceKind: string
    const devices: Devices
    const engine: Synth.Engine
    var consecutiveFailures: nat
    var pending: Option<nat>
    var faults: nat
    /** Reads still running, and the results waiting in their channels. */
    var live: set<nat>
    var done: map<nat, Raw>
    var next: nat
    ghost var now: World
    ghost var steps: seq<Step>

    ghost predicate Valid()
      reads this, devices
    {
      && now == Run(Start(), steps)
      && now.failures == consecutiveFailures && now.pending == pending && now.faults == faults
      && now.live == live && now.done == done && now.next == next
      && now.tracked == devices.Entry(deviceId).consecutiveFailures
      && (now.everPolled ==> devices.everPolled)
    }

    constructor (deviceId: DeviceId, deviceKind: string, devices: Devices, engine: Synth.Engine)
      requires devices.Entry(deviceId).consecutiveFailures == 0
      ensures Valid() && now == Start()
      ensures this.deviceId == deviceId && this.devices == devices && this.engine == engine
    {
      this.deviceId, this.deviceKind, this.devices, this.engine := deviceId, deviceKind, devices, engine;
      consecutiveFailures, pending, faults := 0, None, 0;
      live, done, next := {}, map[], 0;
      now, steps := Start(), [];
    }

    ghost method Did(step: Step)
      requires now == Run(Start(), steps)
      modifies this`now, this`steps
      ensures now == Apply(old(now), step) && steps == old(steps) + [step] && now == Run(Start(), steps)
    {
      RunNext(Start(), steps, step);
      now, steps := Apply(now, step), steps + [step];
    }

    /** The adapter: some running reads end, each in its own way. */
    method ReadsEnd(ends: seq<(nat, Raw)>)
      requires Valid()
      modifies this`live, this`done, this`now, this`steps
      ensures Valid() && now == old(now).(live := live, done := done)
      ensures steps == old(steps) + EndSteps(ends) && now == Run(old(now), EndSteps(ends))
    {
      for i := 0 to |ends|
        invariant Valid() && now == old(now).(live := live, done := done)
        invariant steps == old(steps) + EndSteps(ends[..i]) && now == Run(old(now), EndSteps(ends[..i]))
      {
        EndsNext(ends, i);
        RunNext(old(now), EndSteps(ends[..i]), ReadEnds(ends[i].0, ends[i].1));
        ReadEnd(ends[i].0, ends[i].1);
      }
      assert ends[..|ends|] == ends;
    }

    method ReadEnd(read: nat, raw: Raw)
      requires Valid()
      modifies this`live, this`done, this`now, this`steps
      ensures Valid() && now == old(now).(live := live, done := done)
      ensures steps == old(steps) + [ReadEnds(read, raw)] && now == Apply(old(now), ReadEnds(read, raw))
    {
      if read in live {
        live := live - {read};
        done := done[read := raw];
      }
      Did(ReadEnds(read, raw));
    }

    /** The device-fault branch. */
    method Fail(at: Time, error: string, stopping: bool) returns (reports: seq<bool>)
      modifies this`consecutiveFailures, devices`byId
      ensures if stopping
              then consecutiveFailures == old(consecutiveFailures) && devices.byId == old(devices.byId)
              else consecutiveFailures == old(consecutiveFailures) + 1 &&
                   devices.Entry(deviceId).consecutiveFailures == old(devices.Entry(deviceId).consecutiveFailures) + 1
      ensures reports == if !stopping && old(consecutiveFailures) == 0 then [false] else []
      ensures devices.byId - {deviceId} == old(devices.byId) - {deviceId}
    {
      if stopping {
        return [];
      }
      devices.PollFailed(deviceId, at, error);
      consecutiveFailures := consecutiveFailures + 1;
      return if consecutiveFailures == 1 then [false] else [];
    }

    /** The start of `read`: fails fast while an abandoned read is still running. */
    method StartRead(stopping: bool) returns (read: Option<nat>)
      requires Valid() && now.current == None
      modifies this`pending, this`live, this`next, this`now, this`steps
      ensures now == Begun(old(now), stopping) && now == Run(Start(), steps) && steps == old(steps) + [Begin(stopping)]
      ensures read == now.current
      ensures now.pending == pending && now.live == live && now.next == next
      ensures read.None? <==> old(pending).Some? && old(pending).value !in done
      ensures read.Some? ==> pending == None
    {
      if pending.Some? && pending.value !in done {
        read := None;
      } else {
        pending := None;
        read := Some(next);
        live := live + {next};
        next := next + 1;
      }
      Did(Begin(stopping));
    }

    /** The read's result arrives in time. What is reported and applied is said by how
        the adapter's `Read` ended. */
    method Receive(read: nat, at: Time, stopping: bool) returns (reports: seq<bool>, applied: Option<Snapshot>)
      requires Valid() && now.current == Some(read) && read in done
      modifies this`consecutiveFailures, this`faults, this`now, this`steps, devices
      ensures Valid() && now.current == None && steps == old(steps) + [Deliver(stopping)]
      ensures now.polls == old(now.polls) && Answers(old(now), now, stopping, done[read], read)
      ensures now.reachable == old(now.reachable) + reports
      ensures now.applied == old(now.applied) + if applied.Some? then [Applied(now.polls, read, applied.value)] else []
      ensures applied == match done[read] case Returned(Some(snap), false) => Some(snap) case _ => None
      ensures faults == old(faults) +
              match done[read] case Panicked => 1 case Returned(None, false) => 1 case _ => 0
      ensures reports == match done[read]
                         case Returned(_, true) => if !stopping && old(consecutiveFailures) == 0 then [false] else []
                         case Returned(Some(_), false) => if old(consecutiveFailures) > 0 then [true] else []
                         case _ => []
      ensures devices.byId - {deviceId} == old(devices.byId) - {deviceId}
      ensures old(devices.everPolled) ==> devices.everPolled
    {
      DeliveryAnswers(now, stopping);
      reports, applied := [], None;
      match Guarded(done[read]) {
        case AdapterFault =>
          faults := faults + 1;
        case Failure =>
          reports := Fail(at, "read failed", stopping);
        case Success(snap) =>
          devices.PollOK(deviceId, at);
          if consecutiveFailures > 0 {
            reports := [true];
            consecutiveFailures := 0;
          }
          applied := Some(snap);
      }
      Did(Deliver(stopping));
    }

    /** The deadline comes first: the read is abandoned, and the poll has failed. */
    method Abandon(read: nat, at: Time, stopping: bool) returns (reports: seq<bool>)
      requires Valid() && now.current == Some(read)
      modifies this`pending, this`consecutiveFailures, this`now, this`steps, devices`byId
      ensures Valid() && now.current == None && steps == old(steps) + [Deadline(stopping)] && pending == Some(read)
      ensures now.polls == old(now.polls) && now.applied == old(now.applied)
      ensures now.reachable == old(now.reachable) + reports
      ensures reports == if !stopping && old(consecutiveFailures) == 0 then [false] else []
      ensures devices.byId - {deviceId} == old(devices.byId) - {deviceId}
    {
      pending := Some(read);
      reports := Fail(at, "read did not return in time", stopping);
      Did(Deadline(stopping));
    }

    /** The wait for the read: its result if it has ended by then, unless the deadline
        wins; `ends` are the reads that end meanwhile. */
    method Await(read: nat, at: Time, stopping: bool, ends: seq<(nat, Raw)>, deadline: bool)
      returns (reports: seq<bool>, applied: Option<Snapshot>)
      requires Valid() && now.current == Some(read)
      modifies this, devices
      ensures Valid() && now.current == None && now.polls == old(now.polls)
      ensures var arrived := !deadline && read in Run(old(now), EndSteps(ends)).done;
              steps == old(steps) + EndSteps(ends) + [if arrived then Deliver(stopping) else Deadline(stopping)] &&
              (arrived ==> applied == match Run(old(now), EndSteps(ends)).done[read]
                                      case Returned(Some(snap), false) => Some(snap)
                                      case _ => None) &&
              (!arrived ==> applied == None)
      ensures now.reachable == old(now.reachable) + reports
      ensures now.applied == old(now.applied) + if applied.Some? then [Applied(now.polls, read, applied.value)] else []
      ensures devices.byId - {deviceId} == old(devices.byId) - {deviceId}
      ensures old(devices.everPolled) ==> devices.everPolled
    {
      ReadsEnd(ends);
      if deadline || read !in done {
        applied := None;
        reports := Abandon(read, at, stopping);
      } else {
        reports, applied := Receive(read, at, stopping);
      }
    }

    /** The read of one poll, bounded by its deadline, and what comes of it. */
    method ReadOnce(at: Time, stopping: bool, ends: seq<(nat, Raw)>, deadline: bool)
      returns (reports: seq<bool>, applied: Option<Snapshot>)
      requires Valid() && now.current == None
      modifies this, devices
      ensures Valid() && now.current == None && now.polls == old(now.polls) + 1
      ensures steps == old(steps) + PollSteps(old(now), stopping, ends, deadline)
      ensures now.reachable == old(now.reachable) + reports
      ensures applied.None? ==> now.applied == old(now.applied)
      ensures applied.Some? ==>
                exists read :: now.applied == old(now.applied) + [Applied(now.polls, read, applied.value)]
      ensures devices.byId - {deviceId} == old(devices.byId) - {deviceId}
      ensures old(devices.everPolled) ==> devices.everPolled
    {
      var read := StartRead(stopping);
      if read.None? {
        applied := None;
        reports := Fail(at, "previous read is still running", stopping);
      } else {
        ghost var before := old(steps);
        reports, applied := Await(read.value, at, stopping, ends, deadline);
        Assoc(before, [Begin(stopping)], EndSteps(ends), steps[|steps| - 1]);
      }
    }

    /** A snapshot read is handed to the engine, under the device kind configured. */
    method HandOver(snap: Snapshot) returns (events: seq<Synth.Emitted>)
      modifies engine`prev, engine`last
      ensures (engine.View(), events) ==
              Synth.ApplySnapshot(engine.reg, old(engine.View()),
                                  snap.(base := snap.base.(deviceKind := deviceKind)))
    {
      var found, changes, rejected := engine.Apply(snap.(base := snap.base.(deviceKind := deviceKind)));
      events := found;
    }

    /** `pollOnce` and `read`. The reachability events and domain events sent are
        returned; `stopping` says whether the collector's context is done, `ends` which
        reads end while this poll waits, and `deadline` whether its deadline comes first. */
    method PollOnce(at: Time, stopping: bool, ends: seq<(nat, Raw)>, deadline: bool)
      returns (reports: seq<bool>, events: seq<Synth.Emitted>)
      requires Valid() && now.current == None
      modifies this, devices, engine`prev, engine`last
      ensures Valid() && now.current == None && now.polls == old(now.polls) + 1
      ensures steps == old(steps) + PollSteps(old(now), stopping, ends, deadline)
      ensures now.reachable == old(now.reachable) + reports
      ensures now.applied == old(now.applied) ==> events == [] && engine.View() == old(engine.View())
      ensures now.applied != old(now.applied) ==>
                |now.applied| == |old(now.applied)| + 1 && old(now.applied) <= now.applied &&
                var snap := now.applied[|old(now.applied)|].snap;
                (engine.View(), events) ==
                Synth.ApplySnapshot(engine.reg, old(engine.View()),
                                    snap.(base := snap.base.(deviceKind := deviceKind)))
      ensures devices.byId - {deviceId} == old(devices.byId) - {deviceId}
      ensures old(devices.everPolled) ==> devices.everPolled
    {
      events := [];
      var applied;
      reports, applied := ReadOnce(at, stopping, ends, deadline);
      if applied.Some? {
        events := HandOver(applied.value);
      }
    }
  }

  /** Reads ending, one after another. */
  function EndSteps(ends: seq<(nat, Raw)>): seq<Step> {
    seq(|ends|, i requires 0 <= i < |ends| => ReadEnds(ends[i].0, ends[i].1))
  }

  lemma EndsNext(ends: seq<(nat, Raw)>, i: nat)
    requires i < |ends|
    ensures EndSteps(ends[..i + 1]) == EndSteps(ends[..i]) + [ReadEnds(ends[i].0, ends[i].1)]
  {
  }

  lemma {:induction false} Assoc(a: seq<Step>, b: seq<Step>, c: seq<Step>, last: Step)
    ensures (a + b) + c + [last] == a + (b + c + [last])
  {
  }

  /** The steps of one poll, given what the adapter does meanwhile: a poll begins; and
      unless an abandoned read is still running, its read's result is delivered if it
      has come, or else the deadline ends it. */
  function PollSteps(w: World, stopping: bool, ends: seq<(nat, Raw)>, deadline: bool): seq<Step> {
    var begun := Begun(w, stopping);
    if begun.current.None? then [Begin(stopping)]
    else
      var arrived := !deadline && begun.current.value in Run(begun, EndSteps(ends)).done;
      [Begin(stopping)] + EndSteps(ends) + [if arrived then Deliver(stopping) else Deadline(stopping)]
  }
}
