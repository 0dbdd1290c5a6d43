/** The CloudEvents source URN and the bytes an event id is hashed from
    (internal/cloudevents/subject.go, internal/cloudevents/eventid.go). */
module SourceUrn {
  import opened Prelude

  datatype Tenant = Tenant(region: string, agency: string, agencyUnit: string, site: string)

  /** `^[a-z0-9][a-z0-9-]*$`. */
  predicate TenantToken(s: string) {
    && s != ""
    && s[0] != '-'
    && forall i :: 0 <= i < |s| ==> 'a' <= s[i] <= 'z' || '0' <= s[i] <= '9' || s[i] == '-'
  }

  /** `Tenant.Validate`. */
  predicate ValidTenant(t: Tenant) {
    TenantToken(t.region) && TenantToken(t.agency) && TenantToken(t.agencyUnit) && TenantToken(t.site)
  }

  /** `entityKindFor`. */
  function EntityKind(deviceKind: string): Option<string> {
    if deviceKind == "asc" then Some("controller")
    else if deviceKind == "dms" then Some("sign")
    else if deviceKind == "cctv" then Some("cctv")
    else if deviceKind == "traffic-sensor" then Some("traffic-sensor")
    else if deviceKind == "perception" then Some("perception")
    else if deviceKind == "" then Some("collector")
    else None
  }

  function EntityId(t: Tenant, deviceId: string): string {
    if deviceId == "" then t.site else deviceId
  }

  /** `SourceFor`; "" means do not publish. */
  function SourceFor(t: Tenant, deviceKind: string, deviceId: string): string {
    var kind := EntityKind(deviceKind);
    if kind.None? then ""
    else
      "urn:openits:" + kind.value + ":" + t.region + ":" + t.agency + ":" + t.agencyUnit + ":" +
      EntityId(t, deviceId)
  }

  // ---- Reading a URN back ----

  datatype Source = Source(kind: string, region: string, agency: string, unit: string, id: string)

  /** The text before the first `c`, and the text after it. */
  function Cut(s: string, c: char): Option<(string, string)> {
    if s == "" then None
    else if s[0] == c then Some(("", s[1..]))
    else
      var rest := Cut(s[1..], c);
      if rest.None? then None else Some(([s[0]] + rest.value.0, rest.value.1))
  }

  lemma {:induction false} CutBack(a: string, c: char, b: string)
    requires c !in a
    ensures Cut(a + [c] + b, c) == Some((a, b))
  {
    if a == "" {
      assert a + [c] + b == [c] + b;
    } else {
      assert (a + [c] + b)[1..] == a[1..] + [c] + b;
      CutBack(a[1..], c, b);
      assert [a[0]] + a[1..] == a;
    }
  }

  /** Four colon-delimited fields after the scheme; the id is the rest, colons and all. */
  function ParseSource(s: string): Option<Source> {
    if |s| < 12 || s[..12] != "urn:openits:" then None
    else
      var a := Cut(s[12..], ':');
      if a.None? then None
      else
        var b := Cut(a.value.1, ':');
        if b.None? then None
        else
          var c := Cut(b.value.1, ':');
          if c.None? then None
          else
            var d := Cut(c.value.1, ':');
            if d.None? then None
            else Some(Source(a.value.0, b.value.0, c.value.0, d.value.0, d.value.1))
  }

  lemma TokenHasNoColon(s: string)
    requires TenantToken(s)
    ensures ':' !in s
  {
  }

  /** A published source determines the entity kind, the tenant triple and the id,
      although the id may contain colons. */
  lemma SourceRoundTrip(t: Tenant, deviceKind: string, deviceId: string)
    requires ValidTenant(t) && EntityKind(deviceKind).Some?
    ensures ParseSource(SourceFor(t, deviceKind, deviceId)) ==
            Some(Source(EntityKind(deviceKind).value, t.region, t.agency, t.agencyUnit, EntityId(t, deviceId)))
  {
    var kind, id := EntityKind(deviceKind).value, EntityId(t, deviceId);
    TokenHasNoColon(t.region);
    TokenHasNoColon(t.agency);
    TokenHasNoColon(t.agencyUnit);
    var r4 := t.agencyUnit + ":" + id;
    var r3 := t.agency + ":" + r4;
    var r2 := t.region + ":" + r3;
    var r1 := kind + ":" + r2;
    var s := SourceFor(t, deviceKind, deviceId);
    assert s == "urn:openits:" + r1;
    assert s[..12] == "urn:openits:" && s[12..] == r1;
    CutBack(kind, ':', r2);
    CutBack(t.region, ':', r3);
    CutBack(t.agency, ':', r4);
    CutBack(t.agencyUnit, ':', id);
  }

  lemma EntityKindsAreDistinct(k1: string, k2: string)
    requires EntityKind(k1).Some? && EntityKind(k1) == EntityKind(k2)
    ensures k1 == k2
  {
  }

  /** Two events of validated tenants share a source exactly when they share the
      device kind, the tenant triple and the id the URN is given. */
  lemma SourcesCollideExactlyWhen(t1: Tenant, k1: string, d1: string, t2: Tenant, k2: string, d2: string)
    requires ValidTenant(t1) && ValidTenant(t2) && EntityKind(k1).Some? && EntityKind(k2).Some?
    ensures SourceFor(t1, k1, d1) == SourceFor(t2, k2, d2) <==>
            k1 == k2 && t1.region == t2.region && t1.agency == t2.agency && t1.agencyUnit == t2.agencyUnit &&
            EntityId(t1, d1) == EntityId(t2, d2)
  {
    SourceRoundTrip(t1, k1, d1);
    SourceRoundTrip(t2, k2, d2);
    if SourceFor(t1, k1, d1) == SourceFor(t2, k2, d2) {
      EntityKindsAreDistinct(k1, k2);
    }
  }

  /** For device events, whose ids are never empty, the source names the device. */
  lemma SourceNamesTheDevice(t: Tenant, k1: string, d1: string, k2: string, d2: string)
    requires ValidTenant(t) && EntityKind(k1).Some? && EntityKind(k2).Some? && d1 != "" && d2 != ""
    requires SourceFor(t, k1, d1) == SourceFor(t, k2, d2)
    ensures k1 == k2 && d1 == d2
  {
    SourcesCollideExactlyWhen(t, k1, d1, t, k2, d2);
  }

  // ---- The digest's preimage ----

  const UNIT_SEP: byte := 0x1f

  /** The bytes `EventID` feeds the hash. */
  function Preimage(parts: seq<Bytes>): Bytes {
    if parts == [] then []
    else if |parts| == 1 then parts[0]
    else Preimage(parts[..|parts| - 1]) + [UNIT_SEP] + parts[|parts| - 1]
  }

  /** `EventID`'s loop: a separator before every part but the first. */
  method HashInput(source: Bytes, ceType: Bytes, stableTime: Bytes, identity: Bytes) returns (h: Bytes)
    ensures h == Preimage([source, ceType, stableTime, identity])
  {
    var parts := [source, ceType, stableTime, identity];
    h := [];
    for i := 0 to |parts|
      invariant h == Preimage(parts[..i])
    {
      assert parts[..i + 1][..i] == parts[..i];
      if i > 0 {
        h := h + [UNIT_SEP];
      }
      h := h + parts[i];
    }
    assert parts[..|parts|] == parts;
  }

  lemma {:induction false} SameFirstField(a1: Bytes, b1: Bytes, a2: Bytes, b2: Bytes)
    requires UNIT_SEP !in a1 && UNIT_SEP !in a2
    requires a1 + [UNIT_SEP] + b1 == a2 + [UNIT_SEP] + b2
    ensures a1 == a2 && b1 == b2
  {
    var s := a1 + [UNIT_SEP] + b1;
    assert s[|a1|] == UNIT_SEP && s[|a2|] == UNIT_SEP;
    if |a1| < |a2| {
      assert false;
    } else if |a2| < |a1| {
      assert false;
    }
    assert a1 == s[..|a1|] && a2 == s[..|a2|];
    assert b1 == s[|a1| + 1..] && b2 == s[|a2| + 1..];
  }

  /** The framing is injective: when no separator is in the source, type or time,
      the hashed bytes determine all four fields, whatever bytes identity holds. */
  lemma FramingIsInjective(s1: Bytes, c1: Bytes, t1: Bytes, i1: Bytes, s2: Bytes, c2: Bytes, t2: Bytes, i2: Bytes)
    requires UNIT_SEP !in s1 && UNIT_SEP !in c1 && UNIT_SEP !in t1
    requires UNIT_SEP !in s2 && UNIT_SEP !in c2 && UNIT_SEP !in t2
    requires Preimage([s1, c1, t1, i1]) == Preimage([s2, c2, t2, i2])
    ensures s1 == s2 && c1 == c2 && t1 == t2 && i1 == i2
  {
    Framed(s1, c1, t1, i1);
    Framed(s2, c2, t2, i2);
    SameFirstField(s1, c1 + [UNIT_SEP] + (t1 + [UNIT_SEP] + i1), s2, c2 + [UNIT_SEP] + (t2 + [UNIT_SEP] + i2));
    SameFirstField(c1, t1 + [UNIT_SEP] + i1, c2, t2 + [UNIT_SEP] + i2);
    SameFirstField(t1, i1, t2, i2);
  }

  lemma Framed(s: Bytes, c: Bytes, t: Bytes, i: Bytes)
    ensures Preimage([s, c, t, i]) == s + [UNIT_SEP] + (c + [UNIT_SEP] + (t + [UNIT_SEP] + i))
  {
    assert [s, c, t, i][..3] == [s, c, t];
    assert [s, c, t][..2] == [s, c];
    assert [s, c][..1] == [s];
    assert Preimage([s, c]) == s + [UNIT_SEP] + c;
    assert Preimage([s, c, t]) == s + [UNIT_SEP] + c + [UNIT_SEP] + t;
    assert Preimage([s, c, t, i]) == s + [UNIT_SEP] + c + [UNIT_SEP] + t + [UNIT_SEP] + i;
  }

  /** The condition is needed: a separator inside the source can pass for the one after it. */
  lemma SeparatorInSourceIsAmbiguous(a: Bytes, b: Bytes, c: Bytes, t: Bytes, i: Bytes)
    ensures Preimage([a + [UNIT_SEP] + b, c, t, i]) == Preimage([a, b + [UNIT_SEP] + c, t, i])
  {
    Framed(a + [UNIT_SEP] + b, c, t, i);
    Framed(a, b + [UNIT_SEP] + c, t, i);
    var tail := t + [UNIT_SEP] + i;
    assert (a + [UNIT_SEP] + b) + [UNIT_SEP] + (c + [UNIT_SEP] + tail) ==
           a + [UNIT_SEP] + ((b + [UNIT_SEP] + c) + [UNIT_SEP] + tail);
  }
}
