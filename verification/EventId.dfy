/** The deterministic event id: a ULID of the occurrence's millisecond and the first
    ten bytes of a digest of the event (internal/cloudevents/eventid.go). */
module EventId {
  import opened Prelude
  import SourceUrn
  import Ulid
  import Strings

  type Digest = d: seq<byte> | |d| == 32 witness seq(32, i => 0)

  /** SHA-256, and the text of a millisecond instant: RFC 3339 in UTC. */
  datatype Primitives = Primitives(hash: Bytes -> Digest, text: int -> Bytes)

  /** An event, as far as its id depends on it. */
  datatype Event = Event(source: Bytes, ceType: Bytes, at: Time, identity: Bytes)

  /** `UnixMilli`: rounds down, before the epoch too. */
  function Millis(at: Time): (ms: int)
    ensures ms * 1_000_000 <= at < (ms + 1) * 1_000_000
  {
    at / 1_000_000
  }

  function Hashed(p: Primitives, e: Event): Bytes {
    SourceUrn.Preimage([e.source, e.ceType, p.text(Millis(e.at)), e.identity])
  }

  function IdOf(p: Primitives, e: Event): string {
    Ulid.Encoded(Millis(e.at), p.hash(Hashed(p, e))[..10])
  }

  /** `EventID`. */
  method EventID(p: Primitives, e: Event) returns (id: string)
    ensures id == IdOf(p, e)
  {
    var input := SourceUrn.HashInput(e.source, e.ceType, p.text(Millis(e.at)), e.identity);
    id := Ulid.Encode(Millis(e.at), p.hash(input)[..10]);
  }

  predicate Framed(p: Primitives, e: Event) {
    && SourceUrn.UNIT_SEP !in e.source && SourceUrn.UNIT_SEP !in e.ceType
    && SourceUrn.UNIT_SEP !in p.text(Millis(e.at))
    && Ulid.InRange(Millis(e.at))
  }

  /** The two events' digests do not collide in the bytes the id keeps. */
  predicate NoCollision(p: Primitives, e1: Event, e2: Event) {
    p.hash(Hashed(p, e1))[..10] == p.hash(Hashed(p, e2))[..10] ==> Hashed(p, e1) == Hashed(p, e2)
  }

  /** Two events share an id exactly when they are one occurrence: the same source,
      type, millisecond and identity, whichever collector saw it and whatever the
      time below the millisecond. */
  lemma SameIdExactlyWhen(p: Primitives, e1: Event, e2: Event)
    requires Framed(p, e1) && Framed(p, e2) && NoCollision(p, e1, e2)
    ensures IdOf(p, e1) == IdOf(p, e2) <==>
            e1.source == e2.source && e1.ceType == e2.ceType && Millis(e1.at) == Millis(e2.at) &&
            e1.identity == e2.identity
  {
    if IdOf(p, e1) == IdOf(p, e2) {
      Ulid.UlidIsInjective(Millis(e1.at), p.hash(Hashed(p, e1))[..10], Millis(e2.at), p.hash(Hashed(p, e2))[..10]);
      SourceUrn.FramingIsInjective(e1.source, e1.ceType, p.text(Millis(e1.at)), e1.identity,
                                   e2.source, e2.ceType, p.text(Millis(e2.at)), e2.identity);
    }
  }

  /** Ids sort by time: an occurrence a millisecond or more later sorts later. */
  lemma IdsSortByTime(p: Primitives, e1: Event, e2: Event)
    requires Ulid.InRange(Millis(e1.at)) && Ulid.InRange(Millis(e2.at))
    requires e1.at + 1_000_000 <= e2.at
    ensures Strings.Less(IdOf(p, e1), IdOf(p, e2))
  {
    assert Millis(e1.at) + 1 == Millis(e1.at + 1_000_000) <= Millis(e2.at);
    Ulid.LaterSortsLater(Millis(e1.at), p.hash(Hashed(p, e1))[..10], Millis(e2.at), p.hash(Hashed(p, e2))[..10]);
  }
}
