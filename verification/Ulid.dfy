/** The ULID encoder: 48 bits of milliseconds and 80 bits of randomness as 26
    Crockford base-32 digits, packed bit by bit (internal/cloudevents/eventid.go). */
module Ulid {
  import opened Prelude
  import opened Arithmetic
  import Strings

  // ---- Positional numbers ----

  function Pow(b: nat, e: nat): nat {
    if e == 0 then 1 else b * Pow(b, e - 1)
  }

  lemma {:induction false} PowPositive(b: nat, e: nat)
    requires b > 0
    ensures Pow(b, e) > 0
  {
    if e > 0 { PowPositive(b, e - 1); }
  }

  /** The number a list of base-b digits spells, most significant first. */
  function Number(b: nat, ds: seq<nat>): nat {
    if ds == [] then 0 else ds[0] * Pow(b, |ds| - 1) + Number(b, ds[1..])
  }

  predicate Digits(b: nat, ds: seq<nat>) {
    forall i :: 0 <= i < |ds| ==> ds[i] < b
  }

  lemma {:induction false} PowSum(b: nat, m: nat, n: nat)
    ensures Pow(b, m + n) == Pow(b, m) * Pow(b, n)
  {
    if m > 0 {
      PowSum(b, m - 1, n);
      Distribute(b, Pow(b, m - 1), 0, Pow(b, n), 0);
    }
  }

  lemma Distribute(a: nat, p: nat, n: nat, q: nat, m: nat)
    ensures a * (p * q) + (n * q + m) == (a * p + n) * q + m
  {
    assert a * (p * q) == a * p * q;
    assert (a * p + n) * q == a * p * q + n * q;
  }

  lemma {:induction false} NumberConcat(b: nat, x: seq<nat>, y: seq<nat>)
    ensures Number(b, x + y) == Number(b, x) * Pow(b, |y|) + Number(b, y)
  {
    if x == [] {
      assert x + y == y;
    } else {
      assert (x + y)[1..] == x[1..] + y;
      NumberConcat(b, x[1..], y);
      PowSum(b, |x| - 1, |y|);
      Distribute(x[0], Pow(b, |x| - 1), Number(b, x[1..]), Pow(b, |y|), Number(b, y));
    }
  }

  lemma NumberSnoc(b: nat, x: seq<nat>, d: nat)
    ensures Number(b, x + [d]) == Number(b, x) * b + d
  {
    NumberConcat(b, x, [d]);
    assert Pow(b, 1) == b * Pow(b, 0) == b;
    assert [d][1..] == [];
    assert Number(b, [d]) == d * 1 + 0;
  }

  lemma {:induction false} NumberBound(b: nat, ds: seq<nat>)
    requires Digits(b, ds)
    ensures Number(b, ds) < Pow(b, |ds|)
  {
    if ds != [] {
      NumberBound(b, ds[1..]);
      MulOrder(ds[0], b, Pow(b, |ds| - 1));
    }
  }

  /** Lists of one length spell different numbers in the order of their first difference. */
  lemma {:induction false} NumberOrder(b: nat, x: seq<nat>, y: seq<nat>)
    requires |x| == |y| && Digits(b, x) && Digits(b, y)
    ensures x != [] && x[0] < y[0] ==> Number(b, x) < Number(b, y)
    ensures Number(b, x) == Number(b, y) ==> x == y
  {
    if x != [] {
      var p := Pow(b, |x| - 1);
      NumberBound(b, x[1..]);
      NumberBound(b, y[1..]);
      MulOrder(x[0], y[0], p);
      MulOrder(y[0], x[0], p);
      if x[0] == y[0] {
        NumberOrder(b, x[1..], y[1..]);
        assert x == [x[0]] + x[1..] && y == [y[0]] + y[1..];
      }
    }
  }

  // ---- The alphabet ----

  const CROCKFORD := "0123456789ABCDEFGHJKMNPQRSTVWXYZ"

  /** `crockford[v]`, by its runs of letters. */
  function Symbol(v: nat): char
    requires v < 32
  {
    if v < 10 then ('0' as int + v) as char
    else if v < 18 then ('A' as int + v - 10) as char
    else if v < 20 then ('J' as int + v - 18) as char
    else if v < 22 then ('M' as int + v - 20) as char
    else if v < 27 then ('P' as int + v - 22) as char
    else ('V' as int + v - 27) as char
  }

  lemma {:induction false} SymbolIsCrockford(v: nat)
    requires v < 32
    ensures |CROCKFORD| == 32 && Symbol(v) == CROCKFORD[v]
  {
  }

  function Symbols(ds: seq<nat>): (s: string)
    requires Digits(32, ds)
    ensures |s| == |ds|
  {
    if ds == [] then "" else [Symbol(ds[0])] + Symbols(ds[1..])
  }

  lemma SymbolOrder(v: nat, w: nat)
    requires v < 32 && w < 32
    ensures Symbol(v) < Symbol(w) <==> v < w
    ensures Symbol(v) == Symbol(w) <==> v == w
  {
  }

  lemma {:induction false} SymbolsSnoc(ds: seq<nat>, d: nat)
    requires Digits(32, ds) && d < 32
    ensures Digits(32, ds + [d]) && Symbols(ds + [d]) == Symbols(ds) + [Symbol(d)]
  {
    if ds == [] {
      assert ds + [d] == [d];
      assert [d][1..] == [];
    } else {
      assert (ds + [d])[1..] == ds[1..] + [d];
      SymbolsSnoc(ds[1..], d);
    }
  }

  lemma {:induction false} SymbolsInjective(x: seq<nat>, y: seq<nat>)
    requires Digits(32, x) && Digits(32, y) && Symbols(x) == Symbols(y)
    ensures x == y
  {
    assert |x| == |y|;
    if x != [] {
      assert Symbols(x)[0] == Symbols(y)[0] && Symbols(x)[1..] == Symbols(y)[1..];
      SymbolOrder(x[0], y[0]);
      SymbolsInjective(x[1..], y[1..]);
      assert x == [x[0]] + x[1..] && y == [y[0]] + y[1..];
    }
  }

  /** The alphabet ascends, so texts of one length sort as their numbers do. */
  lemma {:induction false} TextOrderIsNumberOrder(x: seq<nat>, y: seq<nat>)
    requires |x| == |y| && Digits(32, x) && Digits(32, y)
    ensures Strings.Less(Symbols(x), Symbols(y)) <==> Number(32, x) < Number(32, y)
  {
    if x != [] {
      SymbolOrder(x[0], y[0]);
      NumberOrder(32, x, y);
      NumberOrder(32, y, x);
      assert Symbols(x)[1..] == Symbols(x[1..]) && Symbols(y)[1..] == Symbols(y[1..]);
      TextOrderIsNumberOrder(x[1..], y[1..]);
    }
  }

  // ---- The bit field ----

  /** `x >> n` on a byte. */
  function Shr(x: byte, n: nat): nat {
    PowPositive(2, n);
    x / Pow(2, n)
  }

  /** Bit p of the value, from the most significant. */
  function Bit(v: seq<byte>, p: nat): nat
    requires p < 8 * |v|
  {
    Shr(v[p / 8], 7 - p % 8) % 2
  }

  function Bits(v: seq<byte>): seq<nat> {
    seq(8 * |v|, p requires 0 <= p < 8 * |v| => Bit(v, p))
  }

  /** The 130-bit field the encoder reads: two bits of padding, then the value. */
  function Field(v: seq<byte>): seq<nat> {
    [0, 0] + Bits(v)
  }

  function Numbers(v: seq<byte>): (ns: seq<nat>)
    ensures |ns| == |v| && Digits(256, ns)
  {
    seq(|v|, i requires 0 <= i < |v| => v[i])
  }

  function BigEndian(v: seq<byte>): nat {
    Number(256, Numbers(v))
  }

  lemma SmallPowers()
    ensures Pow(2, 0) == 1 && Pow(2, 1) == 2 && Pow(2, 2) == 4 && Pow(2, 3) == 8
    ensures Pow(2, 4) == 16 && Pow(2, 5) == 32 && Pow(2, 6) == 64 && Pow(2, 7) == 128 && Pow(2, 8) == 256
  {
    assert Pow(2, 4) == 16;
    assert Pow(2, 6) == 64;
  }

  /** The eight bits of a byte spell it. */
  lemma ByteBits(x: byte)
    ensures Number(2, [x / 128 % 2, x / 64 % 2, x / 32 % 2, x / 16 % 2, x / 8 % 2, x / 4 % 2, x / 2 % 2, x % 2]) == x
  {
    var b := [x / 128 % 2, x / 64 % 2, x / 32 % 2, x / 16 % 2, x / 8 % 2, x / 4 % 2, x / 2 % 2, x % 2];
    NumberBits(b);
    Halvings(x);
  }

  lemma Halvings(x: byte)
    ensures ((((((x / 128 % 2 * 2 + x / 64 % 2) * 2 + x / 32 % 2) * 2 + x / 16 % 2) * 2 + x / 8 % 2) * 2
              + x / 4 % 2) * 2 + x / 2 % 2) * 2 + x % 2 == x
  {
    var h1, h2, h3, h4 := x / 2, x / 4, x / 8, x / 16;
    var h5, h6, h7 := x / 32, x / 64, x / 128;
    assert h2 == h1 / 2;
    assert h3 == h2 / 2;
    assert h4 == h3 / 2;
    assert h5 == h4 / 2;
    assert h6 == h5 / 2;
    assert h7 == h6 / 2 && h7 < 2;
    assert h7 * 2 + h6 % 2 == h6;
    assert h6 * 2 + h5 % 2 == h5;
    assert h5 * 2 + h4 % 2 == h4;
    assert h4 * 2 + h3 % 2 == h3;
    assert h3 * 2 + h2 % 2 == h2;
    assert h2 * 2 + h1 % 2 == h1;
    assert h1 * 2 + x % 2 == x;
  }

  lemma NumberBits(b: seq<nat>)
    requires |b| == 8
    ensures Number(2, b) ==
            ((((((b[0] * 2 + b[1]) * 2 + b[2]) * 2 + b[3]) * 2 + b[4]) * 2 + b[5]) * 2 + b[6]) * 2 + b[7]
  {
    FiveBits(b[..5]);
    NumberSnoc(2, b[..5], b[5]);
    NumberSnoc(2, b[..6], b[6]);
    NumberSnoc(2, b[..7], b[7]);
    assert b[..5] + [b[5]] == b[..6] && b[..6] + [b[6]] == b[..7] && b[..7] + [b[7]] == b;
  }

  lemma FiveBits(b: seq<nat>)
    requires |b| == 5
    ensures Number(2, b) == (((b[0] * 2 + b[1]) * 2 + b[2]) * 2 + b[3]) * 2 + b[4]
  {
    assert b[..0] == [];
    NumberSnoc(2, b[..0], b[0]);
    NumberSnoc(2, b[..1], b[1]);
    NumberSnoc(2, b[..2], b[2]);
    NumberSnoc(2, b[..3], b[3]);
    NumberSnoc(2, b[..4], b[4]);
    assert b[..0] + [b[0]] == b[..1] && b[..1] + [b[1]] == b[..2] && b[..2] + [b[2]] == b[..3];
    assert b[..3] + [b[3]] == b[..4] && b[..4] + [b[4]] == b;
  }

  lemma {:induction false} BitsSpellBytes(v: seq<byte>)
    ensures Number(2, Bits(v)) == BigEndian(v)
  {
    if v == [] {
      assert Bits(v) == [];
    } else {
      var n := |v| - 1;
      var init, x := v[..n], v[n];
      BitsSpellBytes(init);
      var last := [x / 128 % 2, x / 64 % 2, x / 32 % 2, x / 16 % 2, x / 8 % 2, x / 4 % 2, x / 2 % 2, x % 2];
      LastBits(v);
      ByteBits(x);
      NumberConcat(2, Bits(init), last);
      SmallPowers();
      assert Numbers(v) == Numbers(init) + [x];
      NumberSnoc(256, Numbers(init), x);
    }
  }

  lemma LastBits(v: seq<byte>)
    requires v != []
    ensures var x := v[|v| - 1];
            Bits(v) == Bits(v[..|v| - 1]) +
            [x / 128 % 2, x / 64 % 2, x / 32 % 2, x / 16 % 2, x / 8 % 2, x / 4 % 2, x / 2 % 2, x % 2]
  {
    SmallPowers();
    var n := |v| - 1;
    var x := v[n];
    var last := [x / 128 % 2, x / 64 % 2, x / 32 % 2, x / 16 % 2, x / 8 % 2, x / 4 % 2, x / 2 % 2, x % 2];
    var whole := Bits(v[..n]) + last;
    forall p | 0 <= p < 8 * |v| ensures Bits(v)[p] == whole[p] {
      if p < 8 * n {
        assert v[..n][p / 8] == v[p / 8];
      } else {
        var j := p - 8 * n;
        assert p / 8 == n && p % 8 == j;
        PowPositive(2, 7 - j);
        assert Bits(v)[p] == x / Pow(2, 7 - j) % 2;
        assert whole[p] == last[j];
      }
    }
  }

  // ---- The encoder ----

  /** The value's bytes: the low 48 bits of the time, then up to ten bytes of randomness. */
  function Value(ms: int, randomness: seq<byte>): seq<byte> {
    TimeBytes(ms) + Random(randomness)
  }

  /** `byte(ms >> (8 * (5 - i)))`, an arithmetic shift and a truncation. */
  function TimeByte(ms: int, i: nat): byte
    requires i < 6
  {
    PowPositive(256, 5 - i);
    ms / Pow(256, 5 - i) % 256
  }

  function TimeBytes(ms: int): seq<byte> {
    seq(6, i requires 0 <= i < 6 => TimeByte(ms, i))
  }

  function Random(randomness: seq<byte>): (r: seq<byte>)
    ensures |r| == 10
  {
    seq(10, i => if 0 <= i < |randomness| then randomness[i] else 0)
  }

  /** The 26 five-bit groups of the field. */
  function Groups(v: seq<byte>): (ds: seq<nat>)
    requires |v| == 16
    ensures |ds| == 26
  {
    seq(26, i requires 0 <= i < 26 => Number(2, Field(v)[5 * i..5 * i + 5]))
  }

  lemma BitsAreBits(v: seq<byte>)
    ensures Digits(2, Field(v))
  {
  }

  lemma GroupsAreDigits(v: seq<byte>)
    requires |v| == 16
    ensures Digits(32, Groups(v))
  {
    BitsAreBits(v);
    SmallPowers();
    forall i | 0 <= i < 26 ensures Groups(v)[i] < 32 {
      NumberBound(2, Field(v)[5 * i..5 * i + 5]);
    }
  }

  /** The text `ulid` returns. */
  function Encoded(ms: int, randomness: seq<byte>): (s: string)
    ensures |s| == 26
  {
    GroupsAreDigits(Value(ms, randomness));
    Symbols(Groups(Value(ms, randomness)))
  }

  /** `ulid`: two nested loops over the field's bits. */
  method Encode(ms: int, randomness: seq<byte>) returns (out: string)
    ensures out == Encoded(ms, randomness)
  {
    var v: seq<byte> := [];
    for i := 0 to 6
      invariant v == TimeBytes(ms)[..i]
    {
      PowPositive(256, 5 - i);
      v := v + [ms / Pow(256, 5 - i) % 256];
    }
    var filler: seq<byte> := [];
    for i := 0 to 10
      invariant filler == Random(randomness)[..i]
    {
      filler := filler + [if i < |randomness| then randomness[i] else 0];
    }
    v := v + filler;
    assert v == Value(ms, randomness);
    ghost var field := Field(v);
    GroupsAreDigits(v);
    out := "";
    for i := 0 to 26
      invariant Digits(32, Groups(v)[..i])
      invariant out == Symbols(Groups(v)[..i])
    {
      var acc := Group(v, i);
      assert acc == Groups(v)[i];
      SymbolsSnoc(Groups(v)[..i], acc);
      assert Groups(v)[..i] + [acc] == Groups(v)[..i + 1];
      out := out + [Symbol(acc)];
    }
    assert Groups(v)[..26] == Groups(v);
  }

  /** The inner loop: five bits of the field into one digit. Doubling leaves the low
      bit clear, so the program's `|=` adds. */
  method Group(v: seq<byte>, i: nat) returns (acc: nat)
    requires |v| == 16 && i < 26
    ensures acc == Number(2, Field(v)[5 * i..5 * i + 5])
  {
    var bit := i * 5;
    acc := 0;
    assert Field(v)[bit..bit] == [];
    for j := 0 to 5
      invariant acc == Number(2, Field(v)[bit..bit + j])
    {
      NextBit(v, bit, j);
      acc := acc * 2;
      var p := bit + j - 2;
      if p >= 0 {
        acc := acc + Bit(v, p);
      }
    }
  }

  lemma NextBit(v: seq<byte>, bit: nat, j: nat)
    requires bit + j < 8 * |v| + 2
    ensures var p := bit + j - 2;
            Number(2, Field(v)[bit..bit + j + 1]) ==
            Number(2, Field(v)[bit..bit + j]) * 2 + if p >= 0 then Bit(v, p) else 0
  {
    var field := Field(v);
    NumberSnoc(2, field[bit..bit + j], field[bit + j]);
    assert field[bit..bit + j] + [field[bit + j]] == field[bit..bit + j + 1];
  }

  // ---- What the text means ----

  lemma {:induction false} GroupsSpellField(v: seq<byte>, i: nat)
    requires |v| == 16 && i <= 26
    ensures Number(32, Groups(v)[..i]) == Number(2, Field(v)[..5 * i])
  {
    if i > 0 {
      GroupsSpellField(v, i - 1);
      var g := Field(v)[5 * (i - 1)..5 * (i - 1) + 5];
      assert Groups(v)[..i] == Groups(v)[..i - 1] + [Groups(v)[i - 1]];
      NumberSnoc(32, Groups(v)[..i - 1], Groups(v)[i - 1]);
      assert Field(v)[..5 * i] == Field(v)[..5 * (i - 1)] + g;
      NumberConcat(2, Field(v)[..5 * (i - 1)], g);
      SmallPowers();
    }
  }

  lemma GroupsSpellValue(v: seq<byte>)
    requires |v| == 16
    ensures Number(32, Groups(v)) == BigEndian(v)
  {
    GroupsSpellField(v, 26);
    assert Groups(v)[..26] == Groups(v) && Field(v)[..130] == Field(v);
    NumberConcat(2, [0, 0], Bits(v));
    assert [0, 0][1..] == [0] && [0][1..] == [];
    assert Number(2, [0, 0]) == 0;
    BitsSpellBytes(v);
  }

  lemma TimeBytesSpellTime(ms: int)
    ensures BigEndian(TimeBytes(ms)) == ms % 0x1_0000_0000_0000
  {
    var q1, q2, q3, q4, q5 := ms / 256, ms / 256 / 256, ms / 256 / 256 / 256, ms / 256 / 256 / 256 / 256,
      ms / 256 / 256 / 256 / 256 / 256;
    assert Pow(256, 0) == 1 && Pow(256, 1) == 256 && Pow(256, 2) == 65536;
    assert Pow(256, 3) == 256 * 65536;
    assert Pow(256, 4) == 65536 * 65536;
    assert Pow(256, 5) == 256 * 65536 * 65536;
    assert ms / 65536 == q2;
    assert ms / 16777216 == q3;
    assert ms / 4294967296 == q4;
    assert ms / 1099511627776 == q5;
    var d := Numbers(TimeBytes(ms));
    assert d == [q5 % 256, q4 % 256, q3 % 256, q2 % 256, q1 % 256, ms % 256];
    SixDigits(d);
    var q6 := q5 / 256;
    assert ms / 0x1_0000_0000_0000 == q6;
  }

  lemma SixDigits(d: seq<nat>)
    requires |d| == 6
    ensures Number(256, d) ==
            ((((d[0] * 256 + d[1]) * 256 + d[2]) * 256 + d[3]) * 256 + d[4]) * 256 + d[5]
  {
    assert d[..0] == [];
    NumberSnoc(256, d[..0], d[0]);
    NumberSnoc(256, d[..1], d[1]);
    NumberSnoc(256, d[..2], d[2]);
    NumberSnoc(256, d[..3], d[3]);
    NumberSnoc(256, d[..4], d[4]);
    NumberSnoc(256, d[..5], d[5]);
    assert d[..0] + [d[0]] == d[..1] && d[..1] + [d[1]] == d[..2] && d[..2] + [d[2]] == d[..3];
    assert d[..3] + [d[3]] == d[..4] && d[..4] + [d[4]] == d[..5] && d[..5] + [d[5]] == d;
  }

  /** The whole number a ULID stands for. */
  function Meaning(ms: int, randomness: seq<byte>): nat {
    ms % 0x1_0000_0000_0000 * Pow(256, 10) + BigEndian(Random(randomness))
  }

  /** The text is the 26 base-32 digits of the 128-bit value, the time's low 48 bits
      above the randomness, and its first digit is at most 7. */
  lemma TextSpellsValue(ms: int, randomness: seq<byte>)
    ensures exists ds :: |ds| == 26 && Digits(32, ds) && Encoded(ms, randomness) == Symbols(ds) &&
                         Number(32, ds) == Meaning(ms, randomness) && ds[0] <= 7
  {
    var v := Value(ms, randomness);
    var ds := Groups(v);
    GroupsAreDigits(v);
    GroupsSpellValue(v);
    assert Numbers(v) == Numbers(TimeBytes(ms)) + Numbers(Random(randomness));
    NumberConcat(256, Numbers(TimeBytes(ms)), Numbers(Random(randomness)));
    TimeBytesSpellTime(ms);
    FirstDigit(v);
  }

  lemma FirstDigit(v: seq<byte>)
    requires |v| == 16
    ensures Groups(v)[0] <= 7
  {
    BitsAreBits(v);
    var g := Field(v)[0..5];
    FiveBits(g);
    assert g[0] == 0 && g[1] == 0;
  }

  lemma RandomBound(randomness: seq<byte>)
    ensures BigEndian(Random(randomness)) < Pow(256, 10)
  {
    NumberBound(256, Numbers(Random(randomness)));
  }

  /** Two ULIDs are the same text exactly when they stand for the same number. */
  lemma SameTextSameValue(ms1: int, r1: seq<byte>, ms2: int, r2: seq<byte>)
    ensures Encoded(ms1, r1) == Encoded(ms2, r2) <==> Meaning(ms1, r1) == Meaning(ms2, r2)
  {
    TextSpellsValue(ms1, r1);
    TextSpellsValue(ms2, r2);
    var d1 :| |d1| == 26 && Digits(32, d1) && Encoded(ms1, r1) == Symbols(d1) && Number(32, d1) == Meaning(ms1, r1);
    var d2 :| |d2| == 26 && Digits(32, d2) && Encoded(ms2, r2) == Symbols(d2) && Number(32, d2) == Meaning(ms2, r2);
    if Encoded(ms1, r1) == Encoded(ms2, r2) {
      SymbolsInjective(d1, d2);
    }
    if Meaning(ms1, r1) == Meaning(ms2, r2) {
      NumberOrder(32, d1, d2);
    }
  }

  /** String order is numeric order. */
  lemma TextsSortAsValues(ms1: int, r1: seq<byte>, ms2: int, r2: seq<byte>)
    ensures Strings.Less(Encoded(ms1, r1), Encoded(ms2, r2)) <==> Meaning(ms1, r1) < Meaning(ms2, r2)
  {
    TextSpellsValue(ms1, r1);
    TextSpellsValue(ms2, r2);
    var d1 :| |d1| == 26 && Digits(32, d1) && Encoded(ms1, r1) == Symbols(d1) && Number(32, d1) == Meaning(ms1, r1);
    var d2 :| |d2| == 26 && Digits(32, d2) && Encoded(ms2, r2) == Symbols(d2) && Number(32, d2) == Meaning(ms2, r2);
    TextOrderIsNumberOrder(d1, d2);
  }

  predicate InRange(ms: int) {
    0 <= ms < 0x1_0000_0000_0000
  }

  /** In the 48-bit range a ULID determines its time and its randomness. */
  lemma UlidIsInjective(ms1: int, r1: seq<byte>, ms2: int, r2: seq<byte>)
    requires InRange(ms1) && InRange(ms2) && |r1| == 10 && |r2| == 10
    requires Encoded(ms1, r1) == Encoded(ms2, r2)
    ensures ms1 == ms2 && r1 == r2
  {
    SameTextSameValue(ms1, r1, ms2, r2);
    RandomBound(r1);
    RandomBound(r2);
    QuotientsMatch(ms1, BigEndian(Random(r1)), ms2, BigEndian(Random(r2)), Pow(256, 10));
    NumberOrder(256, Numbers(Random(r1)), Numbers(Random(r2)));
    assert forall i :: 0 <= i < 10 ==> Numbers(Random(r1))[i] == r1[i] && Numbers(Random(r2))[i] == r2[i];
  }

  lemma QuotientsMatch(a: nat, x: nat, b: nat, y: nat, p: nat)
    requires x < p && y < p && a * p + x == b * p + y
    ensures a == b && x == y
  {
    MulOrder(a, b, p);
    MulOrder(b, a, p);
  }

  /** In the 48-bit range a later millisecond sorts later, whatever the randomness. */
  lemma LaterSortsLater(ms1: int, r1: seq<byte>, ms2: int, r2: seq<byte>)
    requires InRange(ms1) && InRange(ms2) && ms1 < ms2
    ensures Strings.Less(Encoded(ms1, r1), Encoded(ms2, r2))
  {
    TextsSortAsValues(ms1, r1, ms2, r2);
    RandomBound(r1);
    MulOrder(ms1, ms2, Pow(256, 10));
  }

  /** Outside it the time wraps: 2^48 milliseconds apart is the same id. */
  lemma TimeWraps(ms: int, r: seq<byte>)
    ensures Encoded(ms + 0x1_0000_0000_0000, r) == Encoded(ms, r)
  {
    SameTextSameValue(ms + 0x1_0000_0000_0000, r, ms, r);
  }
}
