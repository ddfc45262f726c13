/** Conversion between coins and base units (payments/payer.go). Storing an amount as coins
    and reading it back loses nothing in exact arithmetic, so the ledger keeps base units. */
module Coins {
  /** SatToCoin: base units to coins. */
  function SatToCoin(sat: nat, magnitude: real): real
    requires magnitude > 0.0
  {
    sat as real / magnitude
  }

  /** CoinToSat: coins to base units, rounded half up; nothing for a non-positive amount. */
  function CoinToSat(coin: real, magnitude: real): nat
    requires magnitude > 0.0
  {
    if coin <= 0.0 then 0
    else
      assert coin * magnitude > 0.0;
      (coin * magnitude + 0.5).Floor
  }

  /** A balance survives being written as coins and read back. */
  lemma RoundTrip(sat: nat, magnitude: real)
    requires magnitude > 0.0
    ensures CoinToSat(SatToCoin(sat, magnitude), magnitude) == sat
  {
    assert SatToCoin(sat, magnitude) * magnitude == sat as real;
    assert (sat as real + 0.5).Floor == sat;
  }

  /** r is x rounded half up to whole units, 0 for what is not positive. */
  predicate NearestUnits(r: int, x: real) {
    if x <= 0.0 then r == 0 else x - 0.5 < r as real <= x + 0.5
  }

  lemma CoinsAreNearest(coin: real, magnitude: real)
    requires magnitude > 0.0
    ensures NearestUnits(CoinToSat(coin, magnitude), coin * magnitude)
  {
    assert coin > 0.0 ==> coin * magnitude > 0.0;
    assert coin <= 0.0 ==> coin * magnitude <= 0.0;
  }

  /** Rounding never moves an amount by more than half a base unit. */
  lemma RoundingError(coin: real, magnitude: real)
    requires magnitude > 0.0 && coin >= 0.0
    ensures coin * magnitude - 0.5 < CoinToSat(coin, magnitude) as real <= coin * magnitude + 0.5
  {
  }
}
