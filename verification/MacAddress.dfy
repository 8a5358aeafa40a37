/** Bluetooth addresses as 48-bit numbers, as six bytes, and as text. */
module MacAddress {
  import opened Bytes
  import opened Wrappers

  const ADDRESSES: nat := 0x1_0000_0000_0000

  /** The six bytes of bda, most significant first. */
  function Bda(a: nat): (s: seq<byte>)
    ensures |s| == 6
  {
    [a / 0x100_0000_0000 % 256, a / 0x1_0000_0000 % 256, a / 0x100_0000 % 256, a / 0x1_0000 % 256, a / 0x100 % 256, a % 256]
  }

  /** The six bytes, each shifted to its place. */
  function FromBda(s: seq<byte>): nat
    requires |s| == 6
  {
    s[0] as nat * 0x100_0000_0000 + s[1] as nat * 0x1_0000_0000 + s[2] as nat * 0x100_0000
    + s[3] as nat * 0x1_0000 + s[4] as nat * 0x100 + s[5] as nat
  }

  function Digit(n: nat): char
    requires n < 16
  {
    "0123456789ABCDEF"[n]
  }

  /** %02X. */
  function Hex(b: byte): string { [Digit(b / 16), Digit(b % 16)] }

  function MacToString(a: nat): (s: string)
    ensures |s| == 17
  {
    Text(Bda(a))
  }

  function Text(b: seq<byte>): (s: string)
    requires |b| == 6
    ensures |s| == 17
  {
    Hex(b[0]) + ":" + Hex(b[1]) + ":" + Hex(b[2]) + ":" + Hex(b[3]) + ":" + Hex(b[4]) + ":" + Hex(b[5])
  }

  function Value(c: char): Option<nat>
  {
    if '0' <= c <= '9' then Some(c as nat - '0' as nat)
    else if 'A' <= c <= 'F' then Some(c as nat - 'A' as nat + 10)
    else if 'a' <= c <= 'f' then Some(c as nat - 'a' as nat + 10)
    else None
  }

  /** One two-digit field of the scan. */
  function Field(s: string, at: nat): Option<byte>
    requires at + 2 <= |s|
  {
    var hi, lo := Value(s[at]), Value(s[at + 1]);
    if hi.Some? && lo.Some? && hi.value < 16 && lo.value < 16 then Some(hi.value * 16 + lo.value) else None
  }

  /** Six two-digit hexadecimal fields separated by colons, 17 characters in all. */
  function ParseMac(s: string): Option<nat>
  {
    if |s| != 17 || s[2] != ':' || s[5] != ':' || s[8] != ':' || s[11] != ':' || s[14] != ':' then None
    else
      var f := [Field(s, 0), Field(s, 3), Field(s, 6), Field(s, 9), Field(s, 12), Field(s, 15)];
      if f[0].None? || f[1].None? || f[2].None? || f[3].None? || f[4].None? || f[5].None? then None
      else Some(FromBda([f[0].value, f[1].value, f[2].value, f[3].value, f[4].value, f[5].value]))
  }

  lemma BdaRoundTrip(a: nat)
    ensures FromBda(Bda(a)) == a % ADDRESSES
  {
    var b := a / 256;
    var c := b / 256;
    var d := c / 256;
    var e := d / 256;
    var f := e / 256;
    var g := f / 256;
    Quotient(a, 0x1_0000, c, a % 256 + b % 256 * 0x100);
    Quotient(a, 0x100_0000, d, a % 256 + b % 256 * 0x100 + c % 256 * 0x1_0000);
    Quotient(a, 0x1_0000_0000, e, a % 256 + b % 256 * 0x100 + c % 256 * 0x1_0000 + d % 256 * 0x100_0000);
    Quotient(a, 0x100_0000_0000, f, a % 256 + b % 256 * 0x100 + c % 256 * 0x1_0000 + d % 256 * 0x100_0000
                                    + e % 256 * 0x1_0000_0000);
    Quotient(a, ADDRESSES, g, FromBda(Bda(a)));
  }

  lemma FieldOfHex(s: string, at: nat, b: byte)
    requires at + 2 <= |s| && s[at..at + 2] == Hex(b)
    ensures Field(s, at) == Some(b)
  {
    assert s[at] == s[at..at + 2][0] && s[at + 1] == s[at..at + 2][1];
    DigitValue(b / 16);
    DigitValue(b % 16);
  }

  lemma DigitValue(n: nat)
    requires n < 16
    ensures Value(Digit(n)) == Some(n)
  {
  }

  /** Printing and parsing undo each other on 48-bit addresses; higher bits are not printed. */
  lemma MacRoundTrip(a: nat)
    ensures ParseMac(MacToString(a)) == Some(a % ADDRESSES)
  {
    var b := Bda(a);
    Printed(b);
    BdaRoundTrip(a);
    assert [b[0], b[1], b[2], b[3], b[4], b[5]] == b;
  }

  lemma Printed(b: seq<byte>)
    requires |b| == 6
    ensures var s := Text(b);
            && Field(s, 0) == Some(b[0]) && Field(s, 3) == Some(b[1]) && Field(s, 6) == Some(b[2])
            && Field(s, 9) == Some(b[3]) && Field(s, 12) == Some(b[4]) && Field(s, 15) == Some(b[5])
            && s[2] == ':' && s[5] == ':' && s[8] == ':' && s[11] == ':' && s[14] == ':'
  {
    var s := Text(b);
    FieldOfHex(s, 0, b[0]);
    FieldOfHex(s, 3, b[1]);
    FieldOfHex(s, 6, b[2]);
    FieldOfHex(s, 9, b[3]);
    FieldOfHex(s, 12, b[4]);
    FieldOfHex(s, 15, b[5]);
  }
}
