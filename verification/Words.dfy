/** Fixed-width words, as the packet path uses them.

  Bytes and machine words are integers in range; every place where the program
  relies on wrap-around says so through `Add32`, `Sub32` or an explicit `%`.
 */
module Words {

  type u8 = x: int | 0 <= x < 0x100
  type u16 = x: int | 0 <= x < 0x1_0000
  type u32 = x: int | 0 <= x < 0x1_0000_0000

  type Bytes = seq<u8>

  /** Addition of uint32 values. */
  function Add32(a: int, b: int): u32 {
    (a + b) % 0x1_0000_0000
  }

  /** Subtraction of uint32 values: the distance from `b` forward to `a` on the sequence circle. */
  function Sub32(a: int, b: int): u32 {
    (a - b) % 0x1_0000_0000
  }

  /** A TCP byte stream, seen as the byte that each sequence number stands for. */
  type Stream = u32 -> u8

  /** The payload is the stretch of the stream that starts at sequence number `start`. */
  ghost predicate CutFrom(stream: Stream, start: u32, payload: Bytes) {
    forall i {:trigger payload[i]} | 0 <= i < |payload| :: payload[i] == stream(Add32(start, i))
  }

  /** Walking `i` bytes past `start` and walking the same way from `base` lead to the same number. */
  lemma SamePosition(base: u32, start: u32, i: int)
    ensures Add32(start, i) == Add32(base, Sub32(start, base) + i)
  {
  }

  lemma AddAdd(start: u32, n: int, m: int)
    ensures Add32(Add32(start, n), m) == Add32(start, n + m)
  {
  }

  lemma PositionOfOffset(base: u32, s: u32)
    ensures Add32(base, Sub32(s, base)) == s
  {
  }

  /** Distances add up as long as they stay below 2^32. */
  lemma OffsetsAdd(base: u32, start: u32, s: u32)
    requires Sub32(start, base) + Sub32(s, start) < 0x1_0000_0000
    ensures Sub32(s, base) == Sub32(start, base) + Sub32(s, start)
  {
  }

  lemma OffsetOfPosition(base: u32, x: u32)
    ensures Sub32(Add32(base, x), base) == x
  {
  }

  lemma Times(d: int, n: int)
    requires d > 0
    ensures n >= 1 ==> d * n >= d
    ensures n <= -1 ==> d * n <= -d
  {
    if n >= 1 {
      assert d * n == d * (n - 1) + d && d * (n - 1) >= 0;
    } else if n <= -1 {
      assert d * n == d * (n + 1) - d && d * (n + 1) <= 0;
    }
  }

  /** Quotient and remainder are what they are read off as. */
  lemma Quotient(x: int, d: int, q: int, r: int)
    requires d > 0 && 0 <= r < d && x == d * q + r
    ensures x / d == q && x % d == r
  {
    var a := x / d;
    Times(d, a - q);
    assert d * (a - q) == d * a - d * q;
  }

  /** The bytes of a number, and its two halves. */
  lemma Digits(v: nat)
    ensures v / 0x1_0000 == v / 256 / 256 && v / 0x100_0000 == v / 0x1_0000 / 256
    ensures v % 0x1_0000 == v / 256 % 256 * 256 + v % 256
    ensures v % 0x1_0000 / 256 == v / 256 % 256 && v % 0x1_0000 % 256 == v % 256
  {
    var q1, r0 := v / 256, v % 256;
    var q2, r1 := q1 / 256, q1 % 256;
    var q3, r2 := q2 / 256, q2 % 256;
    assert v == 256 * q1 + r0 && q1 == 256 * q2 + r1 && q2 == 256 * q3 + r2;
    Quotient(v, 0x1_0000, q2, 256 * r1 + r0);
    Quotient(v, 0x100_0000, q3, 0x1_0000 * r2 + 256 * r1 + r0);
    Quotient(256 * r1 + r0, 256, r1, r0);
  }

  /** The offsets from `lo` up to, not including, `hi`. */
  function Interval(lo: nat, hi: nat): (s: set<nat>)
    ensures forall x :: x in s <==> lo <= x < hi
    ensures |s| == if lo <= hi then hi - lo else 0
  {
    if hi <= lo then {} else Interval(lo, hi - 1) + {hi - 1}
  }

  function Max(a: int, b: int): int {
    if a < b then b else a
  }

  function Min(a: int, b: int): int {
    if a < b then a else b
  }
}
