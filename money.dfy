/**
 * Money: what a quantity of coins is worth at a price in whole cents per
 * coin (Python multiplies the integer price by the float quantity).
 */
module Money {

  /**
   * `quantity` added `n` times, written by halving `n` so that one unfolding
   * is linear in `quantity` and a literal `n` unfolds in logarithmically
   * many steps.
   */
  function Times(n: nat, quantity: real): real {
    if n == 0 then 0.0
    else 2.0 * Times(n / 2, quantity) + (if n % 2 == 1 then quantity else 0.0)
  }

  /**
   * The cents that `quantity` coins are worth at `cents` per coin: the
   * product `price * amount` of gann/trader.py. It goes through Times
   * rather than `cents as real * quantity` because a product of two
   * unknowns is non-linear arithmetic, which the solver handles poorly in
   * the trader's proofs, while Times unfolds linearly. ValueIsProduct shows
   * the two are the same.
   */
  function Value(cents: int, quantity: real): real {
    if cents < 0 then -Times(-cents, quantity) else Times(cents, quantity)
  }

  lemma {:induction false} TimesIsProduct(n: nat, quantity: real)
    ensures Times(n, quantity) == n as real * quantity
  {
    if n > 0 {
      var h := n / 2;
      TimesIsProduct(h, quantity);
      var hq := h as real * quantity;
      if n % 2 == 1 {
        assert n as real == 2.0 * h as real + 1.0;
        calc {
          n as real * quantity;
          (2.0 * h as real + 1.0) * quantity;
          2.0 * hq + quantity;
        }
      } else {
        assert n as real == 2.0 * h as real;
        calc {
          n as real * quantity;
          (2.0 * h as real) * quantity;
          2.0 * hq;
        }
      }
    }
  }

  lemma ValueIsProduct(cents: int, quantity: real)
    ensures Value(cents, quantity) == cents as real * quantity
  {
    if cents < 0 {
      TimesIsProduct(-cents, quantity);
    } else {
      TimesIsProduct(cents, quantity);
    }
  }

  /** Worth is additive in the quantity. */
  lemma ValueAdd(cents: int, a: real, b: real)
    ensures Value(cents, a + b) == Value(cents, a) + Value(cents, b)
  {
    ValueIsProduct(cents, a);
    ValueIsProduct(cents, b);
    ValueIsProduct(cents, a + b);
  }
}
