/** Small helpers shared by every module of the model. */
module Common {

  /** The source's `null`/`undefined` for an absent value. */
  datatype Option<+T> = None | Some(value: T)

  function Min(a: int, b: int): int { if a <= b then a else b }

  function Max(a: int, b: int): int { if a >= b then a else b }

  /** JavaScript's `Math.ceil` on a real, through the built-in floor. */
  function Ceil(r: real): (c: int)
    ensures c as real >= r && (c - 1) as real < r
  {
    -((-r).Floor)
  }

  /** The number of integers in [lo, hi]. */
  function Side(lo: int, hi: int): nat
  {
    if hi < lo then 0 else hi - lo + 1
  }

  /** One more row of `s`: (a + 1) * s == a * s + s. */
  lemma MulSucc(a: int, s: int)
    ensures (a + 1) * s == a * s + s
  {
  }
}
