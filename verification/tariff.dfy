/** The delivery tariff, stated once as a reference definition over the quantities
    of the heavy lines of a cart, plus the accumulator (`hasHeavyItems`,
    `heavyItemCount`) that every copy of the tariff in the storefront runs. */
module Tariff {
  import opened Options
  import opened Numbers

  /** S/ 10.00 and S/ 40.00, in cents. */
  const SmallFee: int := 1000
  const HeavyFee: int := 4000
  /** Heavy quantity from which the higher fee applies (inclusive). */
  const HeavyThreshold: int := 10

  /** The heavy quantities summed from 0 in cart order; a missing quantity
      makes the sum `NaN`. */
  function Total(qs: seq<Option<int>>): (r: Option<int>)
    ensures r.Some? <==> forall i :: 0 <= i < |qs| ==> qs[i].Some?
  {
    if |qs| == 0 then Some(0) else Plus(Total(qs[..|qs| - 1]), qs[|qs| - 1])
  }

  /** Reference tariff: the small fee when no heavy line is present; otherwise the
      heavy fee exactly when the heavy quantities add up to at least the threshold
      (a `NaN` sum compares false). */
  function Fee(qs: seq<Option<int>>): (fee: int)
    ensures fee == SmallFee || fee == HeavyFee
  {
    if |qs| == 0 then SmallFee
    else if Total(qs).Some? && Total(qs).value >= HeavyThreshold then HeavyFee
    else SmallFee
  }

  /** The two variables of the source's `forEach` loop. */
  datatype Tally = Tally(hasHeavy: bool, count: Option<int>)

  const Start: Tally := Tally(false, Some(0))

  /** One heavy line seen: `hasHeavyItems = true; heavyItemCount += quantity`. */
  function CountHeavy(t: Tally, q: Option<int>): Tally {
    Tally(true, Plus(t.count, q))
  }

  /** The three returns after the loop. */
  function Settle(t: Tally): int {
    if !t.hasHeavy then SmallFee
    else if t.count.Some? && t.count.value >= HeavyThreshold then HeavyFee
    else SmallFee
  }

  /** What the loop's variables hold after seeing heavy quantities `qs`. */
  function TallyOf(qs: seq<Option<int>>): Tally {
    Tally(|qs| > 0, Total(qs))
  }

  lemma StartIsEmptyTally()
    ensures TallyOf([]) == Start
  {
  }

  /** Counting one more heavy line extends the summary by that quantity. */
  lemma CountHeavyExtends(qs: seq<Option<int>>, q: Option<int>)
    ensures CountHeavy(TallyOf(qs), q) == TallyOf(qs + [q])
  {
    assert (qs + [q])[..|qs|] == qs;
  }

  /** Settling the summary gives the reference fee. This holds by definition:
      `Fee` has the three branches of `Settle`, written over the quantities
      rather than over the loop's two variables. What ties each loop of the source to `TallyOf`
      is its own `...TallySummarizes` lemma, proved by induction over the loop. */
  lemma SettleTally(qs: seq<Option<int>>)
    ensures Settle(TallyOf(qs)) == Fee(qs)
  {
  }

  /** A heavy sum of exactly the threshold pays the heavy fee, one less does not. */
  lemma ThresholdIsInclusive()
    ensures Fee([Some(HeavyThreshold)]) == HeavyFee
    ensures Fee([Some(HeavyThreshold - 1)]) == SmallFee
  {
    assert Total([Some(HeavyThreshold)]) == Some(HeavyThreshold) by {
      assert [Some(HeavyThreshold)][..0] == [];
    }
    assert Total([Some(HeavyThreshold - 1)]) == Some(HeavyThreshold - 1) by {
      assert [Some(HeavyThreshold - 1)][..0] == [];
    }
  }

  /** Adding heavy quantity never lowers the fee. */
  lemma FeeMonotonic(qs: seq<Option<int>>, q: int)
    requires q >= 0
    ensures Fee(qs + [Some(q)]) >= Fee(qs)
  {
    assert (qs + [Some(q)])[..|qs|] == qs;
  }

  /** Two heavy lines pay the heavy fee exactly when both quantities are
      numbers adding up to at least the threshold. */
  lemma FeeOfPair(a: Option<int>, b: Option<int>)
    ensures Fee([a, b]) == if a.Some? && b.Some? && a.value + b.value >= HeavyThreshold then HeavyFee else SmallFee
  {
    assert [a, b][..1] == [a] && [a][..0] == [];
    assert Total([a]) == Plus(Some(0), a);
    assert Total([a, b]) == Plus(Total([a]), b);
  }
}
