/** The collector's domain model: facets read from devices and the events diffed
    from them. Facet and event types the differs below do not look inside are
    carried opaquely, with their kind, their Go type and their contents. */
module Model {
  import opened Prelude

  type DeviceId = Bytes
  type Kind = string

  datatype Base = Base(deviceId: DeviceId, deviceKind: string, occurredAt: Time)

  datatype Fault = Fault(id: string, severity: nat, category: nat, description: string)

  datatype ZoneIncident = ZoneIncident(
    id: string, zoneId: string, incidentType: nat, severity: nat, objectClass: nat,
    speed: nat, speedReported: bool, confidence: nat, trackId: nat, trackEpoch: nat)

  type uint32 = x: int | 0 <= x < 0x1_0000_0000

  datatype DetectorSample = DetectorSample(channel: uint32, volume: uint32, occupancy: nat)

  datatype DetectorReading = DetectorReading(channel: uint32, volumeDelta: uint32, occupancy: nat)

  datatype Facet =
    | FaultSet(faults: seq<Fault>)
    | ZoneIncidents(incidents: seq<ZoneIncident>)
    | DetectorSamples(samples: seq<DetectorSample>)
    | OtherFacet(otherKind: Kind, otherType: string, body: Bytes)
  {
    /** `FacetKind`. */
    function Kind(): Kind {
      match this
      case FaultSet(_) => "fault-set"
      case ZoneIncidents(_) => "zone-incidents"
      case DetectorSamples(_) => "detector-samples"
      case OtherFacet(k, _, _) => k
    }

    /** `reflect.TypeOf`. A wrong-typed facet, such as a pointer to a fault set,
        is an `OtherFacet` with a known kind. */
    function GoType(): string {
      match this
      case FaultSet(_) => "model.FaultSet"
      case ZoneIncidents(_) => "model.ZoneIncidents"
      case DetectorSamples(_) => "model.DetectorSamples"
      case OtherFacet(_, t, _) => t
    }
  }

  datatype Event =
    | FaultRaised(base: Base, fault: Fault)
    | FaultCleared(base: Base, faultId: string)
    | IncidentDetected(base: Base, incident: ZoneIncident)
    | IncidentUpdated(base: Base, incidentId: string, zoneId: string, severity: nat,
                      speed: nat, speedReported: bool, confidence: nat)
    | IncidentCleared(base: Base, incidentId: string, zoneId: string)
    | DetectorReport(base: Base, start: Time, duration: Time, readings: seq<DetectorReading>)
    | OtherEvent(base: Base, name: string, body: Bytes)

  /** An event without its base: who, what kind of device, and when. */
  function Unstamped(e: Event): Event {
    e.(base := Base([], "", 0))
  }

  function AllUnstamped(events: seq<Event>): (r: seq<Event>)
    ensures |r| == |events|
  {
    seq(|events|, i requires 0 <= i < |events| => Unstamped(events[i]))
  }

  lemma {:induction false} UnstampedConcat(a: seq<Event>, b: seq<Event>)
    ensures AllUnstamped(a + b) == AllUnstamped(a) + AllUnstamped(b)
  {
  }

  /** One poll of one device. `failed` holds the kinds the adapter recorded a
      read failure for. */
  datatype Snapshot = Snapshot(base: Base, facets: seq<Facet>, failed: seq<Kind>)
}
