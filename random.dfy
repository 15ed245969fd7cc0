/** The random draws of the components. Every `Math.random()` value becomes a
    real parameter `r` with `0 <= r < 1`, the range that `Math.random` promises;
    `Math.floor(r * n)` is then an index below `n`. Whether the draw is uniform
    is a property of the random source and is not modelled. */
module RandomPick {
  import opened Types

  /** `Math.floor(r * n)`, computed in exact real arithmetic. */
  function ScaledFloor(r: real, n: nat): (k: int)
    requires 0.0 <= r < 1.0
    ensures n > 0 ==> 0 <= k < n
    ensures n == 0 ==> k == 0
  {
    FloorBelow(r, n);
    (r * n as real).Floor
  }

  lemma FloorBelow(r: real, n: nat)
    requires 0.0 <= r < 1.0
    ensures 0.0 <= r * n as real
    ensures n > 0 ==> r * n as real < n as real
  {
    if n > 0 {
      assert (1.0 - r) * n as real > 0.0;
    }
  }

  /** `getRandomItem` (src/utils/random.ts): `null` for an empty list, otherwise
      the element at the drawn index. */
  function GetRandomItem<T>(items: seq<T>, r: real): (item: Option<T>)
    requires 0.0 <= r < 1.0
    ensures item.None? <==> items == []
    ensures item.Some? ==> item.value in items
    ensures item.Some? ==> exists k :: 0 <= k < |items| && item.value == items[k]
  {
    if |items| == 0 then None
    else
      var k := ScaledFloor(r, |items|);
      Some(items[k])
  }

  /** Every element can be drawn: for position `k` the draw `k / n` selects it. */
  lemma EveryItemReachable<T>(items: seq<T>, k: nat)
    requires k < |items|
    ensures var r := k as real / |items| as real;
            0.0 <= r < 1.0 && GetRandomItem(items, r) == Some(items[k])
  {
    var n := |items| as real;
    var r := k as real / n;
    assert r * n == k as real;
    assert (r * n).Floor == k;
    assert ScaledFloor(r, |items|) == k;
  }
}
