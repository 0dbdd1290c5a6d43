/** The few nonlinear facts the numeric components need. */
module Arithmetic {

  lemma MulOrder(a: int, b: int, w: nat)
    ensures a < b ==> a * w + w <= b * w
    ensures a <= b ==> a * w <= b * w
  {
    if a < b {
      assert (a + 1) * w <= b * w;
      assert (a + 1) * w == a * w + w;
    }
  }

  /** Quotient and remainder are unique. */
  lemma DivIs(x: int, q: int, r: int, w: int)
    requires w > 0 && x == q * w + r && 0 <= r < w
    ensures x / w == q && x % w == r
  {
    assert x == x / w * w + x % w;
    MulOrder(q, x / w, w);
    MulOrder(x / w, q, w);
  }

  lemma DivMonotone(x: int, y: int, w: int)
    requires w > 0 && x <= y
    ensures x / w <= y / w
  {
    assert x == x / w * w + x % w && y == y / w * w + y % w;
    MulOrder(y / w, x / w, w);
  }

  lemma DivNext(x: int, w: int)
    requires w > 0
    ensures (x + w) / w == x / w + 1
  {
    assert x + w == (x / w + 1) * w + x % w;
    DivIs(x + w, x / w + 1, x % w, w);
  }

  lemma DivOrder(x: int, y: int, w: int)
    requires w > 0
    ensures x <= y ==> x / w <= y / w
    ensures x + w <= y ==> x / w + 1 <= y / w
    ensures x < y + w ==> x / w <= y / w + 1
  {
    DivNext(x, w);
    DivNext(y, w);
    if x <= y { DivMonotone(x, y, w); }
    if x + w <= y { DivMonotone(x + w, y, w); }
    if x < y + w { DivMonotone(x, y + w, w); }
  }
}
