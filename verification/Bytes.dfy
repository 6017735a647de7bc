/**
 Bytes, fixed-width big-endian integers and the small result types shared by the
 codecs. Widths are explicit: `to_be_bytes` of a u16, u32 or u64 is `Be(n, 2)`,
 `Be(n, 4)` or `Be(n, 8)`.
 */
module Bytes {

  type Byte = b: int | 0 <= b < 256

  type Hash = s: seq<Byte> | |s| == 32 witness seq(32, i => 0)

  datatype Option<+T> = None | Some(value: T)

  datatype Result<+T, +E> = Ok(value: T) | Err(error: E)

  /** 256 to the power w: the number of values a big-endian field of w bytes holds. */
  function Span(w: nat): (n: nat)
    ensures n > 0
  {
    if w == 0 then 1 else 256 * Span(w - 1)
  }

  const U32_SPAN: nat := 0x1_0000_0000
  const U64_SPAN: nat := 0x1_0000_0000_0000_0000

  /** n without its k lowest bytes. */
  function Shift(n: nat, k: nat): (m: nat)
  {
    if k == 0 then n else Shift(n / 256, k - 1)
  }

  /** The w lowest bytes of n, the highest first. */
  function Be(n: nat, w: nat): (s: seq<Byte>)
    ensures |s| == w
  {
    seq(w, i requires 0 <= i < w => Shift(n, w - 1 - i) % 256)
  }

  lemma {:induction false} BeStep(n: nat, w: nat)
    requires w > 0
    ensures Be(n, w) == Be(n / 256, w - 1) + [n % 256]
  {
    var front := Be(n / 256, w - 1);
    forall i | 0 <= i < w - 1 ensures Be(n, w)[i] == front[i] {
      assert Shift(n, w - 1 - i) == Shift(n / 256, (w - 1) - 1 - i);
    }
    assert Be(n, w)[w - 1] == Shift(n, 0) % 256;
  }

  function FromBe(s: seq<Byte>): (n: nat)
  {
    if s == [] then 0 else 256 * FromBe(s[..|s| - 1]) + s[|s| - 1]
  }

  /** Writing a value that fits and reading it back gives the value. */
  lemma {:induction false} BeRoundTrip(n: nat, w: nat)
    requires n < Span(w)
    ensures FromBe(Be(n, w)) == n
  {
    if w > 0 {
      BeRoundTrip(n / 256, w - 1);
      BeStep(n, w);
      assert Be(n, w)[..w - 1] == Be(n / 256, w - 1);
    }
  }

  /** Reading a field and writing it back gives the same bytes. */
  lemma {:induction false} BeInverse(s: seq<Byte>)
    ensures FromBe(s) < Span(|s|)
    ensures Be(FromBe(s), |s|) == s
  {
    if s != [] {
      var front, last := s[..|s| - 1], s[|s| - 1];
      BeInverse(front);
      BeStep(FromBe(s), |s|);
      assert FromBe(s) / 256 == FromBe(front) && FromBe(s) % 256 == last;
      assert s == front + [last];
    }
  }

  lemma SpanValues()
    ensures Span(1) == 256
    ensures Span(2) == 0x1_0000
    ensures Span(4) == U32_SPAN
    ensures Span(8) == U64_SPAN
  {
    assert Span(2) == 256 * Span(1);
    assert Span(3) == 256 * Span(2);
    assert Span(4) == 256 * Span(3);
    assert Span(5) == 256 * Span(4);
    assert Span(6) == 256 * Span(5);
    assert Span(7) == 256 * Span(6);
  }

  /** Cutting a concatenation at the seam gives back the two parts. */
  lemma Seam<T>(a: seq<T>, b: seq<T>)
    ensures (a + b)[..|a|] == a
    ensures (a + b)[|a|..] == b
  {
  }

  lemma Assoc<T>(a: seq<T>, b: seq<T>, c: seq<T>)
    ensures (a + b) + c == a + (b + c)
  {
  }
}
