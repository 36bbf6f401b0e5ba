/** Exact money arithmetic: `BigDecimal` amounts are modelled as integers (cents). */
module Money {
  import opened Results
  import opened JavaInt

  /** The `reduce(BigDecimal.ZERO, BigDecimal::add)` of a list of amounts, left to right. */
  function Sum(xs: seq<int>): int
  {
    if |xs| == 0 then 0 else Sum(xs[..|xs| - 1]) + xs[|xs| - 1]
  }

  /** An item's total as `calcularValorTotal` computes it: price times quantity,
      or zero when either is null. */
  function LineTotal(precoUnitario: Option<int>, quantidade: Option<int32>): int
  {
    if precoUnitario.Some? && quantidade.Some? then precoUnitario.value * quantidade.value else 0
  }

  lemma {:induction false} SumAppend(xs: seq<int>, x: int)
    ensures Sum(xs + [x]) == Sum(xs) + x
  {
    assert (xs + [x])[..|xs|] == xs;
  }

  lemma {:induction false} SumConcat(a: seq<int>, b: seq<int>)
    ensures Sum(a + b) == Sum(a) + Sum(b)
    decreases |b|
  {
    if |b| == 0 {
      assert a + b == a;
    } else {
      var b' := b[..|b| - 1];
      assert a + b == (a + b') + [b[|b| - 1]];
      SumConcat(a, b');
      SumAppend(a + b', b[|b| - 1]);
      SumAppend(b', b[|b| - 1]);
      assert b' + [b[|b| - 1]] == b;
    }
  }

  /** Removing the element at `k` lowers the sum by exactly that element. */
  lemma SumRemove(xs: seq<int>, k: nat)
    requires k < |xs|
    ensures Sum(xs[..k] + xs[k + 1..]) == Sum(xs) - xs[k]
  {
    var front, back := xs[..k], xs[k + 1..];
    var upTo := front + [xs[k]];
    assert upTo == xs[..k + 1];
    assert xs[..k + 1] + xs[k + 1..] == xs;
    SumConcat(upTo, back);
    SumAppend(front, xs[k]);
    SumConcat(front, back);
  }
}
