/** A value or nothing. */
module Options {
  datatype Option<+T> = None | Some(value: T)
}

/** Division with remainder by a product's factors. */
module Quotients {
  lemma ScaledGap(i: nat, j: nat, size: nat)
    requires i < j
    ensures i * size + size <= j * size
  {
    assert j * size == i * size + (j - i) * size;
    assert (j - i) * size == (j - i - 1) * size + size;
  }

  lemma UniqueSplit(k: nat, q: nat, r: nat, q': nat, r': nat)
    requires r < k && r' < k && q * k + r == q' * k + r'
    ensures q == q' && r == r'
  {
    if q < q' { ScaledGap(q, q', k); }
    if q' < q { ScaledGap(q', q, k); }
  }

  lemma DivModOf(b: nat, k: nat, i: nat)
    requires i < k
    ensures (b * k + i) / k == b && (b * k + i) % k == i
  {
    var x := b * k + i;
    assert x == x / k * k + x % k;
    UniqueSplit(k, b, i, x / k, x % k);
  }
}
