/** An optional value. In this model `None` stands for a JavaScript number that
    is `undefined` or has become `NaN`. A `null` is not `None`: JavaScript reads
    it as 0 in arithmetic, comparisons and `Math.min`. */
module Options {

  datatype Option<+T> = None | Some(value: T) {

    /** The value, or `default` when absent. */
    function GetOr(default: T): T {
      match this
      case Some(v) => v
      case None => default
    }
  }
}

/** The few pieces of JavaScript number semantics the storefront relies on, over
    whole numbers (cents and units). A missing operand behaves as `NaN` does. */
module Numbers {
  import opened Options

  /** `a + b`: once either side is `NaN`, so is the sum. */
  function Plus(a: Option<int>, b: Option<int>): (r: Option<int>)
    ensures r.Some? <==> a.Some? && b.Some?
    ensures r.Some? ==> r.value == a.value + b.value
  {
    if a.Some? && b.Some? then Some(a.value + b.value) else None
  }

  /** `a * b`, with the same poisoning as `Plus`. */
  function Times(a: Option<int>, b: Option<int>): (r: Option<int>)
    ensures r.Some? <==> a.Some? && b.Some?
    ensures r.Some? ==> r.value == a.value * b.value
  {
    if a.Some? && b.Some? then Some(a.value * b.value) else None
  }

  /** `x || 0`: a missing value and zero both read as zero. */
  function OrZero(x: Option<int>): (r: int)
    ensures x.Some? ==> r == x.value
    ensures x.None? ==> r == 0
  {
    x.GetOr(0)
  }

  /** `Math.min(a, b)` where only `a` may be `NaN`. */
  function MinWith(a: Option<int>, b: int): (r: Option<int>)
    ensures r.Some? <==> a.Some?
    ensures r.Some? ==> r.value <= b && r.value <= a.value
    ensures r.Some? ==> r.value == a.value || r.value == b
  {
    if a.None? then None else if a.value <= b then a else Some(b)
  }

  function Abs(x: int): (r: nat)
    ensures r == x || r == -x
  {
    if x < 0 then -x else x
  }
}
