/** Counting round a ring. */
module RoundRobin {

  lemma NextHand(updates: nat, size: nat)
    requires size > 0
    ensures (updates + 1) % size == if updates % size + 1 == size then 0 else updates % size + 1
  {
    var q, r := updates / size, updates % size;
    assert updates == q * size + r;
    if r + 1 == size {
      assert updates + 1 == (q + 1) * size;
      MultipleMod(q + 1, 0, size);
    } else {
      MultipleMod(q, r + 1, size);
    }
  }

  lemma MultipleIsFar(size: int, d: int)
    requires size >= 0
    ensures d == 0 || size * d >= size || size * d <= -size
  {
    if d > 0 {
      assert size * (d - 1) >= 0;
    } else if d < 0 {
      assert size * (-d - 1) >= 0;
    }
  }

  lemma MultipleMod(q: nat, r: nat, size: nat)
    requires r < size
    ensures (q * size + r) % size == r
  {
    var x := q * size + r;
    var d := x / size - q;
    assert x == size * (x / size) + x % size;
    assert size * (x / size) == size * q + size * d by {
      assert x / size == q + d;
    }
    assert x % size == r - size * d;
    MultipleIsFar(size, d);
  }
}
