/** Storage keys of the synth-state bucket: the device id in the unpadded URL-safe
    alphabet of section 5 of RFC 4648, a dot, and the facet kind
    (internal/durable/durable.go, `key` and `parseKey`). */
module KeyCodec {
  import opened Prelude
  import opened Model

  // ---- base64.RawURLEncoding ----

  type sextet = x: int | 0 <= x < 64

  function Symbol(v: sextet): char {
    if v < 26 then ('A' as int + v) as char
    else if v < 52 then ('a' as int + v - 26) as char
    else if v < 62 then ('0' as int + v - 52) as char
    else if v == 62 then '-'
    else '_'
  }

  function Value(c: char): Option<sextet> {
    if 'A' <= c <= 'Z' then Some(c as int - 'A' as int)
    else if 'a' <= c <= 'z' then Some(c as int - 'a' as int + 26)
    else if '0' <= c <= '9' then Some(c as int - '0' as int + 52)
    else if c == '-' then Some(62)
    else if c == '_' then Some(63)
    else None
  }

  function Encode(b: Bytes): string {
    if |b| == 0 then ""
    else if |b| == 1 then [Symbol(b[0] / 4), Symbol(b[0] % 4 * 16)]
    else if |b| == 2 then [Symbol(b[0] / 4), Symbol(b[0] % 4 * 16 + b[1] / 16), Symbol(b[1] % 16 * 4)]
    else [Symbol(b[0] / 4), Symbol(b[0] % 4 * 16 + b[1] / 16), Symbol(b[1] % 16 * 4 + b[2] / 64), Symbol(b[2] % 64)]
         + Encode(b[3..])
  }

  /** The decoder skips line breaks wherever they stand. */
  function Strip(s: string): string {
    if s == "" then ""
    else if s[0] == '\r' || s[0] == '\n' then Strip(s[1..])
    else [s[0]] + Strip(s[1..])
  }

  /** Not strict: the low bits of a short last group are ignored. */
  function Groups(s: string): Option<Bytes> {
    if s == "" then Some([])
    else if |s| == 1 then None
    else
      var v0, v1 := Value(s[0]), Value(s[1]);
      if v0.None? || v1.None? then None
      else
        var b0 := v0.value * 4 + v1.value / 16;
        if |s| == 2 then Some([b0])
        else
          var v2 := Value(s[2]);
          if v2.None? then None
          else
            var b1 := v1.value % 16 * 16 + v2.value / 4;
            if |s| == 3 then Some([b0, b1])
            else
              var v3 := Value(s[3]);
              var rest := Groups(s[4..]);
              if v3.None? || rest.None? then None
              else Some([b0, b1, v2.value % 4 * 64 + v3.value] + rest.value)
  }

  function Decode(s: string): Option<Bytes> {
    Groups(Strip(s))
  }

  /** Letters, digits, '-' and '_' only. */
  predicate UrlSafe(s: string) {
    forall i :: 0 <= i < |s| ==> Value(s[i]).Some?
  }

  lemma SymbolRoundTrip(v: sextet)
    ensures Value(Symbol(v)) == Some(v)
  {
  }

  lemma {:induction false} EncodeIsUrlSafe(b: Bytes)
    ensures UrlSafe(Encode(b))
  {
    if |b| >= 3 {
      EncodeIsUrlSafe(b[3..]);
    }
  }

  lemma {:induction false} StripKeepsUrlSafe(s: string)
    requires UrlSafe(s)
    ensures Strip(s) == s
  {
    if s != "" {
      assert Value(s[0]).Some?;
      assert forall i :: 0 <= i < |s[1..]| ==> s[1..][i] == s[i + 1];
      StripKeepsUrlSafe(s[1..]);
    }
  }

  /** The three bytes of a group come back from its four sextets. */
  lemma Unpack(x: byte, y: byte, z: byte)
    ensures x / 4 * 4 + (x % 4 * 16 + y / 16) / 16 == x
    ensures (x % 4 * 16 + y / 16) % 16 * 16 + (y % 16 * 4 + z / 64) / 4 == y
    ensures (y % 16 * 4 + z / 64) % 4 * 64 + z % 64 == z
  {
    var hi, lo := x % 4, y / 16;
    assert (hi * 16 + lo) / 16 == hi && (hi * 16 + lo) % 16 == lo;
    var mid, top := y % 16, z / 64;
    assert (mid * 4 + top) / 4 == mid && (mid * 4 + top) % 4 == top;
  }

  lemma OneByte(x: byte)
    ensures Groups([Symbol(x / 4), Symbol(x % 4 * 16)]) == Some([x])
  {
    SymbolRoundTrip(x / 4);
    SymbolRoundTrip(x % 4 * 16);
    assert x / 4 * 4 + x % 4 * 16 / 16 == x;
  }

  lemma TwoBytes(x: byte, y: byte)
    ensures Groups([Symbol(x / 4), Symbol(x % 4 * 16 + y / 16), Symbol(y % 16 * 4)]) == Some([x, y])
  {
    SymbolRoundTrip(x / 4);
    SymbolRoundTrip(x % 4 * 16 + y / 16);
    SymbolRoundTrip(y % 16 * 4);
    Unpack(x, y, 0);
  }

  lemma ThreeBytes(x: byte, y: byte, z: byte, rest: string)
    requires Groups(rest).Some?
    ensures Groups([Symbol(x / 4), Symbol(x % 4 * 16 + y / 16), Symbol(y % 16 * 4 + z / 64), Symbol(z % 64)] + rest)
            == Some([x, y, z] + Groups(rest).value)
  {
    var s := [Symbol(x / 4), Symbol(x % 4 * 16 + y / 16), Symbol(y % 16 * 4 + z / 64), Symbol(z % 64)] + rest;
    assert s[4..] == rest;
    SymbolRoundTrip(x / 4);
    SymbolRoundTrip(x % 4 * 16 + y / 16);
    SymbolRoundTrip(y % 16 * 4 + z / 64);
    SymbolRoundTrip(z % 64);
    Unpack(x, y, z);
  }

  lemma {:induction false} GroupsInvertEncode(b: Bytes)
    ensures Groups(Encode(b)) == Some(b)
  {
    if |b| == 1 {
      OneByte(b[0]);
      assert b == [b[0]];
    } else if |b| == 2 {
      TwoBytes(b[0], b[1]);
      assert b == [b[0], b[1]];
    } else if |b| >= 3 {
      GroupsInvertEncode(b[3..]);
      ThreeBytes(b[0], b[1], b[2], Encode(b[3..]));
      assert b == [b[0], b[1], b[2]] + b[3..];
    }
  }

  // ---- Keys ----

  datatype Entry = Entry(device: DeviceId, kind: Kind)

  /** `key`. */
  function Key(d: DeviceId, k: Kind): string {
    Encode(d) + "." + k
  }

  /** `strings.Cut(s, ".")`: the text before the first dot, if there is one. */
  function CutAt(s: string): Option<nat> {
    if s == "" then None
    else if s[0] == '.' then Some(0)
    else
      var rest := CutAt(s[1..]);
      if rest.None? then None else Some(rest.value + 1)
  }

  lemma {:induction false} CutBounds(s: string)
    ensures CutAt(s).Some? ==> CutAt(s).value < |s|
  {
    if s != "" { CutBounds(s[1..]); }
  }

  /** `parseKey`. */
  function ParseKey(s: string): Option<Entry> {
    CutBounds(s);
    var at := CutAt(s);
    if at.None? then None
    else
      var raw := Decode(s[..at.value]);
      if raw.None? then None else Some(Entry(raw.value, s[at.value + 1..]))
  }

  lemma {:induction false} CutFindsFirstDot(enc: string, rest: string)
    requires UrlSafe(enc)
    ensures CutAt(enc + "." + rest) == Some(|enc|)
  {
    if enc != "" {
      assert Value(enc[0]).Some?;
      assert forall i :: 0 <= i < |enc[1..]| ==> enc[1..][i] == enc[i + 1];
      assert (enc + "." + rest)[1..] == enc[1..] + "." + rest;
      CutFindsFirstDot(enc[1..], rest);
    }
  }

  lemma ParseSplits(enc: string, k: Kind)
    requires UrlSafe(enc) && Groups(enc).Some?
    ensures ParseKey(enc + "." + k) == Some(Entry(Groups(enc).value, k))
  {
    CutFindsFirstDot(enc, k);
    StripKeepsUrlSafe(enc);
    var s := enc + "." + k;
    assert s[..|enc|] == enc;
    assert s[|enc| + 1..] == k;
  }

  /** Every byte string survives as a device id, and every kind, dots and all. */
  lemma {:induction false} KeyRoundTrip(d: DeviceId, k: Kind)
    ensures ParseKey(Key(d, k)) == Some(Entry(d, k))
    ensures UrlSafe(Encode(d)) && '.' !in Encode(d)
  {
    EncodeIsUrlSafe(d);
    GroupsInvertEncode(d);
    ParseSplits(Encode(d), k);
  }

  lemma {:induction false} KeyInjective(d1: DeviceId, k1: Kind, d2: DeviceId, k2: Kind)
    ensures Key(d1, k1) == Key(d2, k2) <==> d1 == d2 && k1 == k2
  {
    KeyRoundTrip(d1, k1);
    KeyRoundTrip(d2, k2);
  }

  /** A key that names an entry in the spelling `Key` gives it, or names none. */
  predicate Canonical(s: string) {
    var e := ParseKey(s);
    e.Some? ==> s == Key(e.value.device, e.value.kind)
  }

  lemma KeyIsCanonical(d: DeviceId, k: Kind)
    ensures Canonical(Key(d, k))
  {
    KeyRoundTrip(d, k);
  }

  // ---- Which keys are in that spelling ----

  /** The bits of the last group that carry nothing are zero. */
  predicate ZeroTail(enc: string) {
    match |enc| % 4
    case 2 => Value(enc[|enc| - 1]).Some? && Value(enc[|enc| - 1]).value % 16 == 0
    case 3 => Value(enc[|enc| - 1]).Some? && Value(enc[|enc| - 1]).value % 4 == 0
    case _ => true
  }

  /** No line breaks, and no stray low bits. */
  predicate Tidy(enc: string) {
    '\r' !in enc && '\n' !in enc && ZeroTail(enc)
  }

  lemma ValueRoundTrip(c: char)
    requires Value(c).Some?
    ensures Symbol(Value(c).value) == c
  {
  }

  lemma Repack(v0: sextet, v1: sextet, v2: sextet, v3: sextet)
    ensures var x: byte, y: byte, z: byte := v0 * 4 + v1 / 16, v1 % 16 * 16 + v2 / 4, v2 % 4 * 64 + v3;
            x / 4 == v0 && x % 4 * 16 + y / 16 == v1 && y % 16 * 4 + z / 64 == v2 && z % 64 == v3
    ensures v1 % 16 == 0 ==> (v0 * 4 + v1 / 16) % 4 * 16 == v1
    ensures v2 % 4 == 0 ==> (v1 % 16 * 16 + v2 / 4) % 16 * 4 == v2
  {
    var hi, lo, mid, low := v1 / 16, v1 % 16, v2 / 4, v2 % 4;
    assert (v0 * 4 + hi) / 4 == v0 && (v0 * 4 + hi) % 4 == hi;
    assert (lo * 16 + mid) / 16 == lo && (lo * 16 + mid) % 16 == mid;
    assert (low * 64 + v3) / 64 == low && (low * 64 + v3) % 64 == v3;
  }

  lemma {:induction false} TwoSymbols(enc: string)
    requires |enc| == 2 && Groups(enc).Some? && ZeroTail(enc)
    ensures Encode(Groups(enc).value) == enc
  {
    Repack(Value(enc[0]).value, Value(enc[1]).value, 0, 0);
    ValueRoundTrip(enc[0]);
    ValueRoundTrip(enc[1]);
  }

  lemma {:induction false} ThreeSymbols(enc: string)
    requires |enc| == 3 && Groups(enc).Some? && ZeroTail(enc)
    ensures Encode(Groups(enc).value) == enc
  {
    Repack(Value(enc[0]).value, Value(enc[1]).value, Value(enc[2]).value, 0);
    ValueRoundTrip(enc[0]);
    ValueRoundTrip(enc[1]);
    ValueRoundTrip(enc[2]);
  }

  lemma {:induction false} FourAreValues(enc: string)
    requires |enc| >= 4 && Groups(enc).Some?
    ensures Value(enc[0]).Some? && Value(enc[1]).Some? && Value(enc[2]).Some? && Value(enc[3]).Some?
    ensures Groups(enc[4..]).Some?
    ensures var v0, v1, v2, v3 := Value(enc[0]).value, Value(enc[1]).value, Value(enc[2]).value, Value(enc[3]).value;
            Groups(enc).value ==
            [v0 * 4 + v1 / 16, v1 % 16 * 16 + v2 / 4, v2 % 4 * 64 + v3] + Groups(enc[4..]).value
  {
  }

  lemma {:induction false} EncodeThree(x: byte, y: byte, z: byte, rest: Bytes)
    ensures Encode([x, y, z] + rest) ==
            [Symbol(x / 4), Symbol(x % 4 * 16 + y / 16), Symbol(y % 16 * 4 + z / 64), Symbol(z % 64)] + Encode(rest)
  {
    assert ([x, y, z] + rest)[3..] == rest;
  }

  lemma {:induction false} FourPacked(v0: sextet, v1: sextet, v2: sextet, v3: sextet, rest: Bytes)
    ensures Encode([v0 * 4 + v1 / 16, v1 % 16 * 16 + v2 / 4, v2 % 4 * 64 + v3] + rest) ==
            [Symbol(v0), Symbol(v1), Symbol(v2), Symbol(v3)] + Encode(rest)
  {
    var x: byte, y: byte, z: byte := v0 * 4 + v1 / 16, v1 % 16 * 16 + v2 / 4, v2 % 4 * 64 + v3;
    EncodeThree(x, y, z, rest);
    Repack(v0, v1, v2, v3);
  }

  lemma {:induction false} SymbolsBack(enc: string)
    requires |enc| >= 4
    requires Value(enc[0]).Some? && Value(enc[1]).Some? && Value(enc[2]).Some? && Value(enc[3]).Some?
    ensures enc[..4] == [Symbol(Value(enc[0]).value), Symbol(Value(enc[1]).value),
                         Symbol(Value(enc[2]).value), Symbol(Value(enc[3]).value)]
  {
    ValueRoundTrip(enc[0]);
    ValueRoundTrip(enc[1]);
    ValueRoundTrip(enc[2]);
    ValueRoundTrip(enc[3]);
  }

  lemma {:induction false} FourSymbols(enc: string)
    requires |enc| >= 4 && Groups(enc).Some?
    ensures Groups(enc[4..]).Some?
    ensures Encode(Groups(enc).value) == enc[..4] + Encode(Groups(enc[4..]).value)
  {
    FourAreValues(enc);
    FourPacked(Value(enc[0]).value, Value(enc[1]).value, Value(enc[2]).value, Value(enc[3]).value,
               Groups(enc[4..]).value);
    SymbolsBack(enc);
  }

  lemma {:induction false} EncodeInvertsGroups(enc: string)
    requires Groups(enc).Some? && ZeroTail(enc)
    ensures Encode(Groups(enc).value) == enc
  {
    if |enc| == 2 {
      TwoSymbols(enc);
    } else if |enc| == 3 {
      ThreeSymbols(enc);
    } else if |enc| >= 4 {
      FourSymbols(enc);
      RestHasSameTail(enc);
      EncodeInvertsGroups(enc[4..]);
      assert enc == enc[..4] + enc[4..];
    }
  }

  lemma {:induction false} RestHasSameTail(enc: string)
    requires |enc| >= 4
    ensures ZeroTail(enc[4..]) <==> ZeroTail(enc)
  {
    assert |enc[4..]| % 4 == |enc| % 4;
    if |enc| > 4 {
      assert enc[4..][|enc| - 5] == enc[|enc| - 1];
    }
  }

  lemma {:induction false} EncodeIsTidy(b: Bytes)
    ensures Tidy(Encode(b))
  {
    EncodeIsUrlSafe(b);
    EncodeHasZeroTail(b);
    forall i | 0 <= i < |Encode(b)| ensures Encode(b)[i] != '\r' && Encode(b)[i] != '\n' {
      assert Value(Encode(b)[i]).Some?;
    }
  }

  lemma {:induction false} EncodeHasZeroTail(b: Bytes)
    ensures ZeroTail(Encode(b))
  {
    if |b| == 1 {
      SymbolRoundTrip(b[0] % 4 * 16);
    } else if |b| == 2 {
      SymbolRoundTrip(b[1] % 16 * 4);
    } else if |b| >= 3 {
      EncodeHasZeroTail(b[3..]);
      assert Encode(b)[4..] == Encode(b[3..]);
      RestHasSameTail(Encode(b));
    }
  }

  lemma {:induction false} NothingToStrip(s: string)
    requires '\r' !in s && '\n' !in s
    ensures Strip(s) == s
  {
    if s != "" {
      NothingToStrip(s[1..]);
      assert s == [s[0]] + s[1..];
    }
  }

  lemma {:induction false} CutIsFirstDot(s: string)
    requires CutAt(s).Some?
    ensures CutAt(s).value < |s| && s[CutAt(s).value] == '.'
  {
    if s[0] != '.' { CutIsFirstDot(s[1..]); }
  }

  lemma {:induction false} KeyParts(s: string)
    requires CutAt(s).Some?
    ensures CutAt(s).value < |s|
    ensures s == s[..CutAt(s).value] + "." + s[CutAt(s).value + 1..]
  {
    CutIsFirstDot(s);
    var at := CutAt(s).value;
    assert s[at..] == "." + s[at + 1..];
    assert s == s[..at] + s[at..];
  }

  /** Exactly which keys that name an entry are in the program's spelling: those
      whose device part has no line break and no stray low bits. */
  lemma {:induction false} CanonicalExactlyWhen(s: string)
    requires ParseKey(s).Some?
    ensures CutAt(s).Some? && CutAt(s).value < |s|
    ensures Canonical(s) <==> Tidy(s[..CutAt(s).value])
  {
    KeyParts(s);
    var enc, e := s[..CutAt(s).value], ParseKey(s).value;
    if Tidy(enc) {
      TidyIsCanonical(s);
    }
    if Canonical(s) {
      EncodeIsUrlSafe(e.device);
      CutFindsFirstDot(Encode(e.device), e.kind);
      assert enc == Encode(e.device);
      EncodeIsTidy(e.device);
    }
  }

  lemma {:induction false} TidyIsCanonical(s: string)
    requires ParseKey(s).Some? && CutAt(s).value < |s| && Tidy(s[..CutAt(s).value])
    ensures Canonical(s)
  {
    var enc := s[..CutAt(s).value];
    KeyParts(s);
    NothingToStrip(enc);
    EncodeInvertsGroups(enc);
  }

  /** The converse round trip fails: the decoder ignores stray low bits, so a key
      someone else wrote can name an entry under a second spelling. */
  lemma SecondSpelling(k: Kind)
    ensures ParseKey("YR." + k) == ParseKey("YQ." + k) == Some(Entry([97], k))
    ensures Canonical("YQ." + k) && !Canonical("YR." + k)
  {
    OneByte(97);
    assert Encode([97]) == "YQ";
    KeyRoundTrip([97], k);
    assert "YQ" + "." + k == "YQ." + k && "YR" + "." + k == "YR." + k;
    assert Groups("YR") == Some([97]);
    ParseSplits("YR", k);
    assert ("YR." + k)[1] != ("YQ." + k)[1];
  }
}
