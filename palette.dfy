/** The background palette and the arrow-key handling that cycles through it. */
module Palette {

  /** `bgColors`: the five background colours. */
  const BgColors: seq<string> := ["#1E1E1E", "#3498db", "#e74c3c", "#2ecc71", "#f39c12"]

  /** p5's key codes for the arrow keys. */
  const LeftArrow: int := 37
  const RightArrow: int := 39

  /** JavaScript's `%`: the remainder of division truncated toward zero, so it
      takes the sign of the dividend. */
  function JsRem(a: int, b: int): (r: int)
    requires b > 0
    ensures -b < r < b
    ensures 0 <= a ==> r == a % b
    ensures a <= 0 ==> r <= 0
    ensures r == a % b || r == a % b - b
  {
    if a >= 0 then a % b
    else
      var m := (-a) % b;
      if m == 0 then
        ModOfMultiple(a, b, -((-a) / b));
        -m
      else
        ModUnique(a, b, -((-a) / b) - 1, b - m);
        -m
  }

  /** A multiple of b leaves Euclidean remainder 0. */
  lemma ModOfMultiple(a: int, b: int, q: int)
    requires b > 0 && a == q * b
    ensures a % b == 0
  {
    ModUnique(a, b, q, 0);
  }

  /** The Euclidean remainder is the only t in [0, b) with a = q * b + t. */
  lemma ModUnique(a: int, b: int, q: int, t: int)
    requires b > 0 && 0 <= t < b && a == q * b + t
    ensures a % b == t
  {
    var d := q - a / b;
    assert d * b == a % b - t;
    MulAwayFromZero(d, b);
  }

  lemma MulAwayFromZero(d: int, b: int)
    requires b > 0
    ensures d >= 1 ==> d * b >= b
    ensures d <= -1 ==> d * b <= -b
  {
  }

  /** The new `bgColorIndex` after `keyPressed()` with `keyCode`. */
  function NextColorIndex(i: int, keyCode: int): (r: int)
    ensures 0 <= i < |BgColors| ==> 0 <= r < |BgColors|
    ensures keyCode != RightArrow && keyCode != LeftArrow ==> r == i
  {
    if keyCode == RightArrow then JsRem(i + 1, |BgColors|)
    else if keyCode == LeftArrow then JsRem(i - 1 + |BgColors|, |BgColors|)
    else i
  }

  /** The right arrow steps forward and the left arrow steps back, modulo the palette size. */
  lemma ArrowSteps(i: int)
    requires 0 <= i < |BgColors|
    ensures NextColorIndex(i, RightArrow) == (i + 1) % |BgColors|
    ensures NextColorIndex(i, LeftArrow) == (i - 1) % |BgColors|
  {
  }

  /** Right then left, or left then right, gives back the index it started from. */
  lemma ArrowsUndo(i: int)
    requires 0 <= i < |BgColors|
    ensures NextColorIndex(NextColorIndex(i, RightArrow), LeftArrow) == i
    ensures NextColorIndex(NextColorIndex(i, LeftArrow), RightArrow) == i
  {
  }

  /** The index after n presses of the same key. */
  function Presses(i: int, keyCode: int, n: nat): int
    decreases n
  {
    if n == 0 then i else NextColorIndex(Presses(i, keyCode, n - 1), keyCode)
  }

  /** n presses of the right arrow land on (i + n) mod 5. */
  lemma {:induction false} RightPresses(i: int, n: nat)
    requires 0 <= i < |BgColors|
    ensures Presses(i, RightArrow, n) == (i + n) % |BgColors|
    decreases n
  {
    if n > 0 {
      RightPresses(i, n - 1);
      var p := Presses(i, RightArrow, n - 1);
      ArrowSteps(p);
      ModSucc(i + n - 1);
    }
  }

  /** n presses of the left arrow land on (i - n) mod 5, a non-negative index. */
  lemma {:induction false} LeftPresses(i: int, n: nat)
    requires 0 <= i < |BgColors|
    ensures Presses(i, LeftArrow, n) == (i - n) % |BgColors|
    decreases n
  {
    if n > 0 {
      LeftPresses(i, n - 1);
      var p := Presses(i, LeftArrow, n - 1);
      ArrowSteps(p);
      ModPred(i - n + 1);
    }
  }

  lemma ModSucc(a: int)
    ensures (a % |BgColors| + 1) % |BgColors| == (a + 1) % |BgColors|
  {
  }

  lemma ModPred(a: int)
    ensures (a % |BgColors| - 1) % |BgColors| == (a - 1) % |BgColors|
  {
  }
}
