/** Facts about Euclidean remainder that the cyclic index arithmetic of the
    spin components rests on. */
module Arith {

  /** The only multiple of `c` strictly between `-c` and `c` is zero. */
  lemma MultipleInOpenRange(d: int, c: int)
    requires c > 0 && -c < d * c < c
    ensures d == 0
  {
  }

  /** Inside lap `lap` the cycle position is the offset into that lap. */
  lemma ModInLap(cycle: nat, lap: nat, step: int)
    requires cycle > 0 && lap * cycle <= step < lap * cycle + cycle
    ensures step % cycle == step - lap * cycle
  {
    var q, r := step / cycle, step % cycle;
    assert step == cycle * q + r && 0 <= r < cycle;
    var d := q - lap;
    assert d * cycle == (step - lap * cycle) - r;
    MultipleInOpenRange(d, cycle);
  }

  /** Going back one full cycle keeps the position in the cycle. */
  lemma ModShift(i: int, n: int)
    requires n > 0 && i >= n
    ensures (i - n) % n == i % n
  {
    var q, r := (i - n) / n, (i - n) % n;
    assert i - n == n * q + r && 0 <= r < n;
    assert q >= 0;
    assert i == (q + 1) * n + r;
    ModInLap(n, q + 1, i);
  }
}
