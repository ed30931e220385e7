/** 64-bit counters as the emulator uses them: one saturates, the other wraps to
    the value zero, which every user of it reads as "exhausted". */
module Counters {
  const U64_MAX: nat := 0xFFFF_FFFF_FFFF_FFFF

  /** Addition that sticks at the largest 64-bit value. */
  function Saturate(v: nat, add: nat): (r: nat)
    ensures r <= U64_MAX
    ensures v + add <= U64_MAX ==> r == v + add
  {
    if v + add > U64_MAX then U64_MAX else v + add
  }

  /** A 64-bit post-increment: the successor of the largest value is zero. */
  function Bump(v: nat): (r: nat)
    ensures r == 0 || r == v + 1
  {
    if v >= U64_MAX then 0 else v + 1
  }

  /** An identity handed out by a counter lies below the counter's next value;
      a counter that wrapped hands out nothing more. */
  predicate Issued(id: nat, next: nat) {
    1 <= id <= U64_MAX && (next == 0 || id < next)
  }
}
