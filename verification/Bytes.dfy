/** Bytes, 32-bit words and their little-endian images: the number formats shared by every wire message. */
module Bytes {

  type byte = b: int | 0 <= b < 256

  const WORD: nat := 0x1_0000_0000

  /** A uint32_t: every subtraction and addition on the bridge's clock and hash is taken modulo 2^32. */
  type word = w: int | 0 <= w < WORD

  function Wrap(n: int): word { n % WORD }

  lemma WrapShift(a: int, k: int)
    ensures Wrap(WORD * k + a) == Wrap(a)
  {
    var q := a / WORD;
    assert WORD * k + a == WORD * (k + q) + a % WORD;
  }

  function Min(a: nat, b: nat): nat { if a < b then a else b }

  lemma Quotient(a: nat, p: nat, q: nat, r: nat)
    requires a == p * q + r && r < p
    ensures a / p == q && a % p == r
  {
    var k := a / p - q;
    assert p * k == r - a % p;
    assert k <= -1 ==> p * (k + 1) <= 0;
    assert k >= 1 ==> p * (k - 1) >= 0;
  }

  function Le32(n: word): seq<byte>
  {
    [n % 256, n / 256 % 256, n / 65536 % 256, n / 16777216]
  }

  function FromLe32(s: seq<byte>): (n: nat)
    requires |s| == 4
  {
    s[0] as nat + 256 * (s[1] as nat) + 65536 * (s[2] as nat) + 16777216 * (s[3] as nat)
  }

  lemma Le32RoundTrip(n: word)
    ensures FromLe32(Le32(n)) == n
  {
    assert n / 256 == n / 65536 * 256 + n / 256 % 256;
    assert n / 65536 == n / 16777216 * 256 + n / 65536 % 256;
  }

  /** A byte of a C string: cJSON hands over NUL-terminated text, so no message holds a NUL. */
  type text = b: int | 0 < b < 256 witness 1

  function Flatten(parts: seq<seq<byte>>): seq<byte>
  {
    if parts == [] then [] else Flatten(parts[..|parts| - 1]) + parts[|parts| - 1]
  }

}
