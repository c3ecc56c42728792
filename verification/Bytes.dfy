/** Bytes on the wire.  A byte is a char below 256, so a Go string or byte slice is a string. */
module Bytes {
  type Byte = c: char | c as int < 256 witness '\0'
  type Bytes = seq<Byte>

  type U16 = n: int | 0 <= n < 0x1_0000
  type U32 = n: int | 0 <= n < 0x1_0000_0000

  datatype Order = Little | Big

  function Put16(n: U16): (b: Bytes)
    ensures |b| == 2
  {
    [(n % 256) as char, (n / 256) as char]
  }

  function Get16(b: Bytes): U16
    requires |b| >= 2
  {
    b[0] as int + 256 * b[1] as int
  }

  function Put32(n: U32, o: Order): (b: Bytes)
    ensures |b| == 4
  {
    var n1 := n / 256;
    var n2 := n1 / 256;
    var b0, b1, b2, b3 := (n % 256) as char, (n1 % 256) as char, (n2 % 256) as char, (n2 / 256) as char;
    if o.Little? then [b0, b1, b2, b3] else [b3, b2, b1, b0]
  }

  function Get32(b: Bytes, o: Order): U32
    requires |b| >= 4
  {
    if o.Little? then FromDigits(b[0], b[1], b[2], b[3]) else FromDigits(b[3], b[2], b[1], b[0])
  }

  function FromDigits(b0: Byte, b1: Byte, b2: Byte, b3: Byte): U32 {
    b0 as int + 256 * (b1 as int + 256 * (b2 as int + 256 * b3 as int))
  }

  /** Which byte comes first. */
  lemma ByteOrder(n: U32, m: U16)
    ensures var b := Put32(n, Little);
      b[0] as int + 0x100 * b[1] as int + 0x1_0000 * b[2] as int + 0x100_0000 * b[3] as int == n
    ensures var b := Put32(n, Big);
      b[3] as int + 0x100 * b[2] as int + 0x1_0000 * b[1] as int + 0x100_0000 * b[0] as int == n
    ensures Put16(m)[0] as int + 0x100 * Put16(m)[1] as int == m
  {
    Digits(n, n / 256, n / 256 / 256);
  }

  lemma GetPut16(n: U16, rest: Bytes)
    ensures Get16(Put16(n) + rest) == n
  {
  }

  lemma GetPut32(n: U32, o: Order, rest: Bytes)
    ensures Get32(Put32(n, o) + rest, o) == n && (Put32(n, o) + rest)[4..] == rest
  {
    var b := Put32(n, o) + rest;
    var n1 := n / 256;
    var n2 := n1 / 256;
    var digits := if o.Little? then (b[0], b[1], b[2], b[3]) else (b[3], b[2], b[1], b[0]);
    assert digits == ((n % 256) as char, (n1 % 256) as char, (n2 % 256) as char, (n2 / 256) as char);
    Digits(n, n1, n2);
  }

  lemma Digits(n: U32, n1: int, n2: int)
    requires n1 == n / 256 && n2 == n1 / 256
    ensures 0 <= n2 / 256 < 256
    ensures n == n % 256 + 256 * (n1 % 256 + 256 * (n2 % 256 + 256 * (n2 / 256)))
  {
  }

  lemma WordsAdd(a: int, b: int)
    requires a % 4 == 0 && b % 4 == 0
    ensures (a + b) % 4 == 0 && (a - b) % 4 == 0
  {
  }

  lemma PaddingAdd(a: nat, b: nat)
    requires a % 4 == 0
    ensures Padding(a + b) == Padding(b)
  {
  }

  /** How many zero bytes complete n to a multiple of 4. */
  function Padding(n: nat): (p: nat)
    ensures p < 4 && (n + p) % 4 == 0
  {
    (4 - n % 4) % 4
  }

  function Zeros(n: nat): (z: Bytes)
    ensures |z| == n && forall i :: 0 <= i < n ==> z[i] == '\0'
  {
    seq(n, _ => '\0')
  }

  function Padded(b: Bytes): (p: Bytes)
    ensures |p| % 4 == 0 && |b| <= |p| < |b| + 4 && p[..|b|] == b
  {
    b + Zeros(Padding(|b|))
  }

  /** `pad4`: appends zeros until the length is a multiple of 4. */
  method Pad4(b: Bytes) returns (p: Bytes)
    ensures p == Padded(b)
  {
    p := b;
    while |p| % 4 != 0
      invariant |b| <= |p| <= |b| + Padding(|b|) && p == b + Zeros(|p| - |b|)
      decreases |b| + Padding(|b|) - |p|
    {
      p := p + ['\0'];
    }
  }

  /** Go's `(n + 3) &^ 3`. */
  function RoundUp4(n: nat): (r: nat)
    ensures r % 4 == 0 && n <= r < n + 4
    ensures r == n + Padding(n)
  {
    (n + 3) / 4 * 4
  }

  lemma RoundUpBelow(n: nat, limit: nat)
    requires limit % 4 == 0
    ensures RoundUp4(n) <= limit <==> n <= limit
  {
  }
}
