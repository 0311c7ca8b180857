/** Go's 64-bit integers: `uint64` and `int64` values as the integers they denote, with the conversions written out. */
module Word64 {

  const MODULUS: int := 0x1_0000_0000_0000_0000
  const HALF: int := 0x8000_0000_0000_0000

  ghost function Multiple(k: int): int {
    k * MODULUS
  }

  /** Equal as 64-bit words. */
  ghost predicate Congruent(a: int, b: int) {
    exists k :: a == b + Multiple(k)
  }

  lemma ReducedIsCongruent(x: int)
    ensures Congruent(x % MODULUS, x)
  {
    assert x % MODULUS == x + Multiple(-(x / MODULUS));
  }

  /** Go's `uint64(x)`: the non-negative representative of `x`. */
  function ToUint64(x: int): (r: nat)
    ensures r < MODULUS && Congruent(r, x)
  {
    ReducedIsCongruent(x);
    x % MODULUS
  }

  /** Go's `int64(x)`: the two's-complement representative of `x`. Also the result of every `int64` operation. */
  function ToInt64(x: int): (r: int)
    ensures -HALF <= r < HALF && Congruent(r, x)
  {
    var u := x % MODULUS;
    assert u == x + Multiple(-(x / MODULUS)) && u - MODULUS == x + Multiple(-(x / MODULUS) - 1);
    if u < HALF then u else u - MODULUS
  }

  /** `atomic.Uint64.Add(uint64(delta))`. */
  function WrappingAdd(counter: nat, delta: int): (r: nat)
    ensures r < MODULUS && Congruent(r, counter + delta)
  {
    ReducedIsCongruent(counter + ToUint64(delta));
    CongruentSum(counter, counter, ToUint64(delta), delta);
    CongruentTransitive((counter + ToUint64(delta)) % MODULUS, counter + ToUint64(delta), counter + delta);
    (counter + ToUint64(delta)) % MODULUS
  }

  lemma CongruentReflexive(a: int)
    ensures Congruent(a, a)
  {
    assert a == a + Multiple(0);
  }

  lemma CongruentSum(a: int, b: int, c: int, d: int)
    requires (a == b || Congruent(a, b)) && (c == d || Congruent(c, d))
    ensures Congruent(a + c, b + d)
  {
    CongruentReflexive(a);
    CongruentReflexive(c);
    var j :| a == b + Multiple(j);
    var k :| c == d + Multiple(k);
    assert a + c == b + d + Multiple(j + k);
  }

  lemma CongruentDifference(a: int, b: int, c: int, d: int)
    requires Congruent(a, b) && Congruent(c, d)
    ensures Congruent(a - c, b - d)
  {
    var j :| a == b + Multiple(j);
    var k :| c == d + Multiple(k);
    assert a - c == b - d + Multiple(j - k);
  }

  lemma CongruentTransitive(a: int, b: int, c: int)
    requires Congruent(a, b) && Congruent(b, c)
    ensures Congruent(a, c)
  {
    CongruentSum(a, b, b, c);
  }

  /** Words below the modulus are determined by their congruence class. */
  lemma CongruentWordsAreEqual(a: int, b: int)
    requires 0 <= a < MODULUS && 0 <= b < MODULUS
    ensures Congruent(a, b) <==> a == b
  {
    assert a == b ==> a == b + Multiple(0);
  }

  /** `x--` on an `int64`. */
  lemma DecrementIsCongruent(a: int, b: int)
    requires Congruent(a, b)
    ensures Congruent(ToInt64(a - 1), b - 1)
  {
    CongruentSum(a, b, -1, -1);
    CongruentTransitive(ToInt64(a - 1), a - 1, b - 1);
  }

  /** `a -= int64(x)` on an `int64`. */
  lemma SubtractionIsCongruent(a: int, b: int, x: int)
    requires Congruent(a, b)
    ensures Congruent(ToInt64(a - ToInt64(x)), b - x)
  {
    CongruentDifference(a, b, ToInt64(x), x);
    CongruentTransitive(ToInt64(a - ToInt64(x)), a - ToInt64(x), b - x);
  }

  /** `-int64(x)`. */
  lemma NegationIsCongruent(x: int)
    ensures Congruent(ToInt64(-ToInt64(x)), -x)
  {
    CongruentReflexive(0);
    SubtractionIsCongruent(0, 0, x);
  }
}
