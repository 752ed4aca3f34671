/** The uniform random source the engine consumes: the results of rand(),
    read in order from an injected stream, and their scaling rand()/RAND_MAX. */
module Rng {

  /** glibc's RAND_MAX; the C standard only guarantees at least 32767. */
  const RAND_MAX: int := 2147483647

  /** One result of rand(): an integer in [0, RAND_MAX]. */
  type Draw = d: int | 0 <= d <= RAND_MAX

  /** The generator's output; a pass reads it from a cursor and returns the
      cursor just past the last draw it took. */
  type Stream = nat -> Draw

  /** rand() / RAND_MAX: a real in [0, 1]. Both ends are reachable. */
  function Unit(d: Draw): (u: real)
    ensures 0.0 <= u <= 1.0
    ensures u == 0.0 <==> d == 0
    ensures u == 1.0 <==> d == RAND_MAX
  {
    d as real / RAND_MAX as real
  }
}
