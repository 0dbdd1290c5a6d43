/** What `load` reads out of the bucket, for any keys it may hold and any listing
    order (internal/durable/durable.go). Two keys of one (device, kind) can both be
    in the bucket, since the decoder accepts spellings the program never writes. */
module Loading {
  import opened Prelude
  import opened Model
  import KeyCodec
  import Synth
  import Strings

  /** How facets become stored bytes and back. `unmarshal` is given the Go type to build. */
  datatype Codec = Codec(marshal: Facet -> Option<Bytes>, unmarshal: (string, Bytes) -> Option<Facet>)

  /** `Engine.DecodeFacet`. */
  function DecodeFacet(reg: Synth.Registry, codec: Codec, k: Kind, raw: Bytes): Option<Facet> {
    if k in reg then codec.unmarshal(reg[k].zero.GoType(), raw) else None
  }

  /** `unmarshal` builds a value of the type it is asked for, and the kind is the type's. */
  ghost predicate TypedCodec(reg: Synth.Registry, codec: Codec) {
    forall k, raw :: k in reg && DecodeFacet(reg, codec, k, raw).Some? ==>
      var f := DecodeFacet(reg, codec, k, raw).value;
      f.Kind() == k && f.GoType() == reg[k].zero.GoType()
  }

  /** The facet a key of the bucket yields at load: none if the key is not ours or
      its value is unusable. */
  function Usable(reg: Synth.Registry, codec: Codec, kk: string, raw: Bytes): Option<Facet> {
    var e := KeyCodec.ParseKey(kk);
    if e.None? then None else DecodeFacet(reg, codec, e.value.kind, raw)
  }

  /** The `written` map `load` leaves. */
  function LoadedWritten(reg: Synth.Registry, codec: Codec, bucket: map<string, Bytes>): map<string, Bytes> {
    map kk | kk in bucket && Usable(reg, codec, kk, bucket[kk]).Some? :: bucket[kk]
  }

  /** What one key of the bucket says about a (device, kind), if it names it and is usable. */
  function FacetAt(reg: Synth.Registry, codec: Codec, bucket: map<string, Bytes>, kk: string,
                   d: DeviceId, k: Kind): Option<Facet>
  {
    if kk in bucket && KeyCodec.ParseKey(kk) == Some(KeyCodec.Entry(d, k))
    then DecodeFacet(reg, codec, k, bucket[kk])
    else None
  }

  /** What the (device, kind)'s own key says. */
  function StoredFacet(reg: Synth.Registry, codec: Codec, bucket: map<string, Bytes>, d: DeviceId,
                       k: Kind): Option<Facet>
  {
    FacetAt(reg, codec, bucket, KeyCodec.Key(d, k), d, k)
  }

  /** What `load` seeds for a (device, kind): the last usable entry listed. */
  function LastListed(reg: Synth.Registry, codec: Codec, bucket: map<string, Bytes>, listing: seq<string>,
                      d: DeviceId, k: Kind): Option<Facet>
  {
    if listing == [] then None
    else
      var n := |listing| - 1;
      var f := FacetAt(reg, codec, bucket, listing[n], d, k);
      if f.Some? then f else LastListed(reg, codec, bucket, listing[..n], d, k)
  }

  /** The memory `load` seeds a device with. */
  function LoadedMemory(reg: Synth.Registry, codec: Codec, bucket: map<string, Bytes>, listing: seq<string>,
                        d: DeviceId): map<Kind, Facet>
  {
    map k | k in reg && LastListed(reg, codec, bucket, listing, d, k).Some? ::
      LastListed(reg, codec, bucket, listing, d, k).value
  }

  /** The listing holds every key of the bucket; keys deleted since, and repeats, do no harm. */
  predicate Covers(listing: seq<string>, bucket: map<string, Bytes>) {
    forall kk :: kk in bucket ==> kk in listing
  }

  /** The listing is the bucket's keys, each once. */
  ghost predicate Lists(listing: seq<string>, bucket: map<string, Bytes>) {
    Distinct(listing) && forall kk :: kk in bucket <==> kk in listing
  }

  // ---- When a (device, kind) is seeded from its own key ----

  lemma {:induction false} OwnKeyIsUsable(reg: Synth.Registry, codec: Codec, bucket: map<string, Bytes>,
                                          d: DeviceId, k: Kind)
    ensures var kk := KeyCodec.Key(d, k);
            StoredFacet(reg, codec, bucket, d, k) ==
            if kk in bucket then DecodeFacet(reg, codec, k, bucket[kk]) else None
  {
    KeyCodec.KeyRoundTrip(d, k);
  }

  lemma {:induction false} ListedIsSomeones(reg: Synth.Registry, codec: Codec, bucket: map<string, Bytes>,
                                            listing: seq<string>, d: DeviceId, k: Kind)
    ensures var f := LastListed(reg, codec, bucket, listing, d, k);
            if f.Some? then exists kk :: kk in listing && FacetAt(reg, codec, bucket, kk, d, k) == f
            else forall kk :: kk in listing ==> FacetAt(reg, codec, bucket, kk, d, k).None?
  {
    if listing != [] {
      var n := |listing| - 1;
      ListedIsSomeones(reg, codec, bucket, listing[..n], d, k);
      if FacetAt(reg, codec, bucket, listing[n], d, k).Some? {
        assert listing[n] in listing;
      }
    }
  }

  lemma {:induction false} OnlyDiffedKinds(reg: Synth.Registry, codec: Codec, bucket: map<string, Bytes>,
                                           listing: seq<string>, d: DeviceId, k: Kind)
    ensures LastListed(reg, codec, bucket, listing, d, k).Some? ==> k in reg
  {
    ListedIsSomeones(reg, codec, bucket, listing, d, k);
  }

  /** Every usable entry of the (device, kind) says what its own key says. */
  ghost predicate EntriesAgree(reg: Synth.Registry, codec: Codec, bucket: map<string, Bytes>, d: DeviceId, k: Kind) {
    forall kk :: kk in bucket && FacetAt(reg, codec, bucket, kk, d, k).Some? ==>
      FacetAt(reg, codec, bucket, kk, d, k) == StoredFacet(reg, codec, bucket, d, k)
  }

  lemma {:induction false} AgreeingEntriesLoad(reg: Synth.Registry, codec: Codec, bucket: map<string, Bytes>,
                                               listing: seq<string>, d: DeviceId, k: Kind)
    requires Covers(listing, bucket) && EntriesAgree(reg, codec, bucket, d, k)
    ensures LastListed(reg, codec, bucket, listing, d, k) == StoredFacet(reg, codec, bucket, d, k)
  {
    ListedIsSomeones(reg, codec, bucket, listing, d, k);
  }

  /** A listing that ends with a key of our choice. */
  lemma {:induction false} ListingEndingWith(bucket: map<string, Bytes>, kk: string) returns (listing: seq<string>)
    requires kk in bucket
    ensures Lists(listing, bucket) && listing != [] && listing[|listing| - 1] == kk
  {
    var others := bucket.Keys - {kk};
    Strings.SortedKeysDistinct(others);
    listing := Strings.SortedKeys(others) + [kk];
  }

  /** Exactly when a (device, kind) is seeded with what its own key holds, in every
      order the keys may be listed: when no other usable key of the bucket parses
      to it with a different facet. */
  lemma {:induction false} LoadsOwnKeyExactlyWhen(reg: Synth.Registry, codec: Codec, bucket: map<string, Bytes>,
                                                  d: DeviceId, k: Kind)
    ensures (forall listing :: Lists(listing, bucket) ==>
               LastListed(reg, codec, bucket, listing, d, k) == StoredFacet(reg, codec, bucket, d, k)) <==>
            EntriesAgree(reg, codec, bucket, d, k)
  {
    if EntriesAgree(reg, codec, bucket, d, k) {
      forall listing | Lists(listing, bucket)
        ensures LastListed(reg, codec, bucket, listing, d, k) == StoredFacet(reg, codec, bucket, d, k)
      {
        AgreeingEntriesLoad(reg, codec, bucket, listing, d, k);
      }
    } else {
      var kk :| kk in bucket && FacetAt(reg, codec, bucket, kk, d, k).Some? &&
                FacetAt(reg, codec, bucket, kk, d, k) != StoredFacet(reg, codec, bucket, d, k);
      var listing := ListingEndingWith(bucket, kk);
      assert LastListed(reg, codec, bucket, listing, d, k) == FacetAt(reg, codec, bucket, kk, d, k);
    }
  }

  /** No other key of the bucket names the (device, kind) with a usable value. */
  ghost predicate OwnKeyOnly(reg: Synth.Registry, codec: Codec, bucket: map<string, Bytes>, d: DeviceId, k: Kind) {
    forall kk :: kk in bucket && FacetAt(reg, codec, bucket, kk, d, k).Some? ==> kk == KeyCodec.Key(d, k)
  }

  /** A bucket holding only keys in the program's spelling has it for every (device, kind). */
  lemma {:induction false} CanonicalMeansOwnKeys(reg: Synth.Registry, codec: Codec, bucket: map<string, Bytes>,
                                                 d: DeviceId, k: Kind)
    requires forall kk :: kk in bucket ==> KeyCodec.Canonical(kk)
    ensures OwnKeyOnly(reg, codec, bucket, d, k)
  {
  }

  lemma {:induction false} OwnKeyLoads(reg: Synth.Registry, codec: Codec, bucket: map<string, Bytes>,
                                       listing: seq<string>, d: DeviceId, k: Kind)
    requires Covers(listing, bucket) && OwnKeyOnly(reg, codec, bucket, d, k)
    ensures LastListed(reg, codec, bucket, listing, d, k) == StoredFacet(reg, codec, bucket, d, k)
  {
    AgreeingEntriesLoad(reg, codec, bucket, listing, d, k);
  }
}
