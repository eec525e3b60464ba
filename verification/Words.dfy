/** Fixed-width words and the modular sequence-number comparisons of net/tcp.c. */
module Words {
  type u8 = x: int | 0 <= x < 0x100
  type u16 = x: int | 0 <= x < 0x1_0000
  type u32 = x: int | 0 <= x < 0x1_0000_0000

  /** Reduction to a 32-bit word. */
  function Wrap(x: int): u32 {
    x % 0x1_0000_0000
  }

  /** The unsigned 32-bit difference `a - b`. */
  function Diff(a: int, b: int): u32 {
    (a - b) % 0x1_0000_0000
  }

  /** The same difference read as a signed 32-bit number. */
  function SDiff(a: int, b: int): int {
    var d := Diff(a, b);
    if d < 0x8000_0000 then d else d - 0x1_0000_0000
  }

  predicate SeqGt(a: u32, b: u32) {
    SDiff(a, b) > 0
  }

  predicate SeqLt(a: u32, b: u32) {
    SDiff(a, b) < 0
  }

  predicate SeqLeq(a: u32, b: u32) {
    SDiff(a, b) <= 0
  }

  predicate SeqGeq(a: u32, b: u32) {
    SDiff(a, b) >= 0
  }

  /** Two absolute stream positions less than 2^31 apart compare after
      wrapping exactly as they compare before it. */
  lemma SeqOrder(x: int, y: int)
    requires -0x8000_0000 <= x - y < 0x8000_0000
    ensures SDiff(Wrap(x), Wrap(y)) == x - y
    ensures SeqLt(Wrap(x), Wrap(y)) <==> x < y
    ensures SeqGeq(Wrap(x), Wrap(y)) <==> x >= y
  {
    assert (Wrap(x) - Wrap(y)) % 0x1_0000_0000 == (x - y) % 0x1_0000_0000;
  }

  lemma DiffAdds(a: u32, b: u32, n: nat)
    requires Diff(a, b) + n < 0x1_0000_0000
    ensures Diff(Wrap(a + n), b) == Diff(a, b) + n
  {
  }
}
