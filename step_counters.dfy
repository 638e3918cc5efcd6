/** The per-worker step counters, kept by the coordinator in a numpy array of
    dtype int16: array arithmetic wraps around silently at 2^15. */
module StepCounters {

  newtype Int16 = x: int | -0x8000 <= x < 0x8000

  /** `counter += 1` on one int16 element. */
  function Inc16(c: Int16): (r: Int16)
    ensures c < 0x7FFF ==> r as int == c as int + 1
    ensures c == 0x7FFF ==> r == -0x8000
    ensures (r as int - c as int - 1) % 0x10000 == 0
  {
    if c == 0x7FFF then -0x8000 else c + 1
  }

  /** The int16 value that stands for a count of `n` steps (two's complement
      of `n` modulo 2^16). */
  function Wrap16(n: nat): (r: Int16)
    ensures n < 0x8000 ==> r as int == n
    ensures (r as int - n) % 0x10000 == 0
  {
    var m := n % 0x10000;
    if m < 0x8000 then m as Int16 else (m - 0x10000) as Int16
  }

  /** Incrementing the wrapped value of a count wraps the next count: an int16
      counter advanced once per step always equals the true step count modulo
      2^16. */
  lemma Inc16Wraps(n: nat)
    ensures Inc16(Wrap16(n)) == Wrap16(n + 1)
  {
    var m := n % 0x10000;
    assert n == (n / 0x10000) * 0x10000 + m;
    if m == 0xFFFF {
      assert n + 1 == (n / 0x10000 + 1) * 0x10000;
      assert (n + 1) % 0x10000 == 0;
    } else {
      assert n + 1 == (n / 0x10000) * 0x10000 + (m + 1);
      assert (n + 1) % 0x10000 == m + 1;
    }
  }
}
