/** Integer views of the JavaScript Number operators the clock relies on. */
module JsNumber {

  /** `Math.abs` on an integer. */
  function Abs(x: int): (r: int)
    ensures r >= 0
    ensures r == x || r == -x
  {
    if x < 0 then -x else x
  }

  /** JavaScript's `a % n`: the remainder of division truncated toward zero,
      so it takes the sign of the dividend (unlike Dafny's Euclidean `%`). */
  function Rem(a: int, n: int): (r: int)
    requires n > 0
    ensures -n < r < n
    ensures a >= 0 ==> 0 <= r && r == a % n
    ensures a < 0 ==> r <= 0 && r == -((-a) % n)
  {
    if a >= 0 then a % n else -((-a) % n)
  }
}
