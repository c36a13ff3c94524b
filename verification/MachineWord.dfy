/** Unsigned machine words as the firmware uses them: subtraction wraps, deadlines
    are compared through the sign bit of a difference, and sequence numbers are
    ordered on the 64-bit circle. Each operation is related to unbounded integers. */
module MachineWord {
  const WORD: int := 0x1_0000_0000
  const HALF: int := 0x8000_0000
  const WORD64: int := 0x1_0000_0000_0000_0000
  const HALF64: int := 0x8000_0000_0000_0000

  type U32 = x: int | 0 <= x < WORD
  type U64 = x: int | 0 <= x < WORD64

  /** The 32-bit word an unbounded count is stored in. */
  function Low(t: int): U32 {
    t % WORD
  }

  function Plus(a: U32, b: U32): U32 {
    if a + b < WORD then a + b else a + b - WORD
  }

  function Minus(a: U32, b: U32): U32 {
    if a >= b then a - b else a - b + WORD
  }

  /** `(int32_t)(now - deadline) >= 0`. */
  predicate Reached(now: U32, deadline: U32) {
    Minus(now, deadline) < HALF
  }

  /** `ForceServo_SequenceAfter`: a is ahead of b by less than half the circle. */
  predicate After(a: U64, b: U64) {
    var d := if a >= b then a - b else a - b + WORD64;
    0 < d < HALF64
  }

  lemma MinusOfLow(t: int, u: int)
    ensures Minus(Low(t), Low(u)) == Low(t - u)
  {
    var q, p := t / WORD, u / WORD;
    assert t == q * WORD + Low(t) && u == p * WORD + Low(u);
    LowOf(t - u, Minus(Low(t), Low(u)), if Low(t) >= Low(u) then q - p else q - p - 1);
  }

  lemma PlusOfLow(t: int, u: int)
    ensures Plus(Low(t), Low(u)) == Low(t + u)
  {
    var q, p := t / WORD, u / WORD;
    assert t == q * WORD + Low(t) && u == p * WORD + Low(u);
    LowOf(t + u, Plus(Low(t), Low(u)), if Low(t) + Low(u) < WORD then q + p else q + p + 1);
  }

  lemma LowOf(t: int, r: U32, k: int)
    requires t == k * WORD + r
    ensures Low(t) == r
  {
    assert t / WORD == k;
  }

  /** An elapsed time shorter than the word circle is computed exactly. */
  lemma ElapsedExact(t: int, u: int)
    requires 0 <= t - u < WORD
    ensures Minus(Low(t), Low(u)) == t - u
  {
    MinusOfLow(t, u);
    LowOf(t - u, t - u, 0);
  }

  /** The sign-bit deadline test is the true comparison within half the circle. */
  lemma ReachedExact(t: int, u: int)
    requires -HALF <= t - u < HALF
    ensures Reached(Low(t), Low(u)) <==> t >= u
  {
    MinusOfLow(t, u);
    if t >= u {
      LowOf(t - u, t - u, 0);
    } else {
      LowOf(t - u, t - u + WORD, -1);
    }
  }

  /** Whatever the true distance, the wrapped one never exceeds it. */
  lemma WrappedNeverLonger(t: int, u: int)
    requires u <= t
    ensures Minus(Low(t), Low(u)) <= t - u
  {
    MinusOfLow(t, u);
  }
}
