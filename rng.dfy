/**
 * The random source, as an explicit supply of draws. The generator's random
 * number generator is not part of this model: every draw is taken from an
 * arbitrary stream of naturals, so whatever is proved about a caller holds
 * for every sequence of outcomes.
 */
module Random {

  /** `nextRange(a, b)`: a value in [a, b); an empty range gives `a`. */
  function Pick(d: nat, a: int, b: int): (v: int)
    ensures a < b ==> a <= v < b
    ensures b <= a ==> v == a
  {
    if a < b then a + d % (b - a) else a
  }

  /** `nextFloat() < 0.2`: one chance in five. */
  function Flip(d: nat): bool { d % 5 == 0 }

  class Rng {
    /** The draws, in the order they are taken. */
    const stream: nat -> nat
    /** How many draws have been taken. */
    var pos: nat

    constructor (stream: nat -> nat)
      ensures this.stream == stream && pos == 0
    {
      this.stream := stream;
      pos := 0;
    }

    method NextRange(a: int, b: int) returns (v: int)
      modifies this
      ensures pos == old(pos) + 1
      ensures v == Pick(stream(old(pos)), a, b)
    {
      v := Pick(stream(pos), a, b);
      pos := pos + 1;
    }

    /** `nextFloat() < percent` with the generator's percent of 0.2. */
    method Coin() returns (c: bool)
      modifies this
      ensures pos == old(pos) + 1
      ensures c == Flip(stream(old(pos)))
    {
      c := Flip(stream(pos));
      pos := pos + 1;
    }

    /** `choice(xs)` for a sequence of length `n`: the chosen index. */
    method Choice(n: nat) returns (i: nat)
      requires n > 0
      modifies this
      ensures pos == old(pos) + 1
      ensures i == stream(old(pos)) % n && i < n
    {
      i := stream(pos) % n;
      pos := pos + 1;
    }
  }
}
