/** The real arithmetic the ledgers, the ranking and the probability share. */
module RealArithmetic {

  function Min(x: real, y: real): real { if x <= y then x else y }

  function Max(x: real, y: real): real { if x >= y then x else y }

  /** The value of a position at a price. */
  function Value(quantity: real, price: real): real { quantity * price }

  lemma {:induction false} ValueMoves(quantity: real, before: real, after: real)
    ensures Value(quantity, after) == Value(quantity, before) + Value(quantity, after - before)
  {
  }

  lemma {:induction false} QuotientTimes(x: real, y: real)
    requires y > 0.0
    ensures (x / y) * y == x
  {
  }
}
