// The MD5 message digest as sections 3.1 to 3.5 of RFC 1321 define it: one
// message in, one digest out, no streaming state.  The streaming
// implementation is proved against this module.

module Rfc1321 {
  import opened Arithmetic

  type Octets = seq<bv8>

  /** The chaining variables (A, B, C, D) of section 3.3. */
  datatype Chain = Chain(a: bv32, b: bv32, c: bv32, d: bv32)

  const BLOCK: nat := 64

  // ---------------------------------------------------------------- section 3.1

  function Zeros(n: nat): (s: Octets)
    ensures |s| == n
    ensures forall i :: 0 <= i < n ==> s[i] == 0
  {
    seq(n, i => 0)
  }

  /** Number of zero octets that follow the octet 0x80: the least count that makes the
      length congruent to 448 modulo 512 bits. */
  function ZeroCount(length: nat): (z: nat)
    ensures z < BLOCK && (length + 1 + z) % BLOCK == 56
  {
    (119 - length % BLOCK) % BLOCK
  }

  lemma ZeroCountIsLeast(length: nat, n: nat)
    requires (length + 1 + n) % BLOCK == 56
    ensures ZeroCount(length) <= n
  {
    var rest := length % BLOCK;
    assert length + 1 + n == BLOCK * (length / BLOCK) + (rest + 1 + n);
    var laps := (length + 1 + n) / BLOCK - length / BLOCK;
    assert rest + 1 + n == BLOCK * laps + 56;
    if rest < 56 {
      assert laps >= 0;
    } else {
      assert laps >= 1;
    }
  }

  // ---------------------------------------------------------------- section 3.2

  /** The k-th octet, low order first, of a number. */
  function LowFirst(n: nat, k: nat): bv8 {
    ((n / Power256(k)) % 256) as bv8
  }

  /** The length in bits as two words, low-order word first, each low-order octet first;
      only the low-order 64 bits of the length are used. */
  function LengthField(length: nat): (s: Octets)
    ensures |s| == 8
  {
    EightOctets((8 * length) % 0x1_0000_0000_0000_0000)
  }

  function EightOctets(n: nat): (s: Octets)
    ensures |s| == 8
  {
    seq(8, k requires 0 <= k < 8 => LowFirst(n, k))
  }

  /** What is appended before the length: one 1 bit, then 0 bits. */
  function Padding(length: nat): (s: Octets)
    ensures (length + |s|) % BLOCK == 56
  {
    [0x80] + Zeros(ZeroCount(length))
  }

  lemma LastBlockIsFull(n: nat)
    requires n % BLOCK == 56
    ensures (n + 8) % BLOCK == 0
  {
  }

  function Padded(message: Octets): (s: Octets)
    ensures |s| % BLOCK == 0
  {
    LastBlockIsFull(|message| + |Padding(|message|)|);
    message + Padding(|message|) + LengthField(|message|)
  }

  // ---------------------------------------------------------------- section 3.3

  const INITIAL: Chain := Chain(0x67452301, 0xEFCDAB89, 0x98BADCFE, 0x10325476)

  // ---------------------------------------------------------------- section 3.4

  /** Addition of words, that is, modulo 2^32 (section 2). */
  function Plus(x: bv32, y: bv32): bv32 { x + y }

  function Plus4(x: bv32, y: bv32, z: bv32, w: bv32): bv32 { x + y + z + w }

  function F(x: bv32, y: bv32, z: bv32): bv32 { (x & y) | (!x & z) }

  function G(x: bv32, y: bv32, z: bv32): bv32 { (x & z) | (y & !z) }

  function H(x: bv32, y: bv32, z: bv32): bv32 { x ^ y ^ z }

  function I(x: bv32, y: bv32, z: bv32): bv32 { y ^ (x | !z) }

  function SineRow1(i: nat): bv32
    requires i < 16
  {
    match i
    case 0 => 0xD76AA478 case 1 => 0xE8C7B756 case 2 => 0x242070DB case 3 => 0xC1BDCEEE
    case 4 => 0xF57C0FAF case 5 => 0x4787C62A case 6 => 0xA8304613 case 7 => 0xFD469501
    case 8 => 0x698098D8 case 9 => 0x8B44F7AF case 10 => 0xFFFF5BB1 case 11 => 0x895CD7BE
    case 12 => 0x6B901122 case 13 => 0xFD987193 case 14 => 0xA679438E case _ => 0x49B40821
  }

  function SineRow2(i: nat): bv32
    requires i < 16
  {
    match i
    case 0 => 0xF61E2562 case 1 => 0xC040B340 case 2 => 0x265E5A51 case 3 => 0xE9B6C7AA
    case 4 => 0xD62F105D case 5 => 0x02441453 case 6 => 0xD8A1E681 case 7 => 0xE7D3FBC8
    case 8 => 0x21E1CDE6 case 9 => 0xC33707D6 case 10 => 0xF4D50D87 case 11 => 0x455A14ED
    case 12 => 0xA9E3E905 case 13 => 0xFCEFA3F8 case 14 => 0x676F02D9 case _ => 0x8D2A4C8A
  }

  function SineRow3(i: nat): bv32
    requires i < 16
  {
    match i
    case 0 => 0xFFFA3942 case 1 => 0x8771F681 case 2 => 0x6D9D6122 case 3 => 0xFDE5380C
    case 4 => 0xA4BEEA44 case 5 => 0x4BDECFA9 case 6 => 0xF6BB4B60 case 7 => 0xBEBFBC70
    case 8 => 0x289B7EC6 case 9 => 0xEAA127FA case 10 => 0xD4EF3085 case 11 => 0x04881D05
    case 12 => 0xD9D4D039 case 13 => 0xE6DB99E5 case 14 => 0x1FA27CF8 case _ => 0xC4AC5665
  }

  function SineRow4(i: nat): bv32
    requires i < 16
  {
    match i
    case 0 => 0xF4292244 case 1 => 0x432AFF97 case 2 => 0xAB9423A7 case 3 => 0xFC93A039
    case 4 => 0x655B59C3 case 5 => 0x8F0CCC92 case 6 => 0xFFEFF47D case 7 => 0x85845DD1
    case 8 => 0x6FA87E4F case 9 => 0xFE2CE6E0 case 10 => 0xA3014314 case 11 => 0x4E0811A1
    case 12 => 0xF7537E82 case 13 => 0xBD3AF235 case 14 => 0x2AD7D2BB case _ => 0xEB86D391
  }

  /** The 64-element table constructed from the sine function, sixteen entries a row. */
  function T(i: nat): bv32
    requires i < 64
  {
    if i < 16 then SineRow1(i)
    else if i < 32 then SineRow2(i - 16)
    else if i < 48 then SineRow3(i - 32)
    else SineRow4(i - 48)
  }

  /** The auxiliary function of step i. */
  function Mix(i: nat, x: bv32, y: bv32, z: bv32): bv32
    requires i < 64
  {
    if i < 16 then F(x, y, z) else if i < 32 then G(x, y, z) else if i < 48 then H(x, y, z) else I(x, y, z)
  }

  /** The message word that step i reads. */
  function WordIndex(i: nat): (k: nat)
    requires i < 64
    ensures k < 16
  {
    if i < 16 then i
    else if i < 32 then (5 * i + 1) % 16
    else if i < 48 then (3 * i + 5) % 16
    else (7 * i) % 16
  }

  /** A rotation amount. */
  type Amount = n: bv32 | 0 < n < 32 witness 1

  /** The rotation amount of step i. */
  function Shift(i: nat): Amount
    requires i < 64
  {
    var column := i % 4;
    if i < 16 then (if column == 0 then 7 else if column == 1 then 12 else if column == 2 then 17 else 22)
    else if i < 32 then (if column == 0 then 5 else if column == 1 then 9 else if column == 2 then 14 else 20)
    else if i < 48 then (if column == 0 then 4 else if column == 1 then 11 else if column == 2 then 16 else 23)
    else (if column == 0 then 6 else if column == 1 then 10 else if column == 2 then 15 else 21)
  }

  predicate IsStepAmount(n: bv32) {
    n == 7 || n == 12 || n == 17 || n == 22 || n == 5 || n == 9 || n == 14 || n == 20
    || n == 4 || n == 11 || n == 16 || n == 23 || n == 6 || n == 10 || n == 15 || n == 21
  }

  /** X <<< n, the circular shift to the left, for the sixteen amounts the algorithm uses. */
  function Rotate(x: bv32, n: Amount): bv32
    requires IsStepAmount(n)
  {
    if n == 7 then x.RotateLeft(7) else if n == 12 then x.RotateLeft(12)
    else if n == 17 then x.RotateLeft(17) else if n == 22 then x.RotateLeft(22)
    else if n == 5 then x.RotateLeft(5) else if n == 9 then x.RotateLeft(9)
    else if n == 14 then x.RotateLeft(14) else if n == 20 then x.RotateLeft(20)
    else if n == 4 then x.RotateLeft(4) else if n == 11 then x.RotateLeft(11)
    else if n == 16 then x.RotateLeft(16) else if n == 23 then x.RotateLeft(23)
    else if n == 6 then x.RotateLeft(6) else if n == 10 then x.RotateLeft(10)
    else if n == 15 then x.RotateLeft(15) else x.RotateLeft(21)
  }

  /** a = b + ((a + f(b, c, d) + X[k] + T[i]) <<< s), where the four roles then move on by one
      place: the next step overwrites what is called d here. */
  function Step(q: Chain, x: seq<bv32>, i: nat): Chain
    requires |x| == 16 && i < 64
  {
    Chain(q.d,
          Plus(q.b, Rotate(Plus4(q.a, Mix(i, q.b, q.c, q.d), x[WordIndex(i)], T(i)), Shift(i))),
          q.b,
          q.c)
  }

  function Steps(q: Chain, x: seq<bv32>, n: nat): Chain
    requires |x| == 16 && n <= 64
  {
    if n == 0 then q else Step(Steps(q, x, n - 1), x, n - 1)
  }

  /** A word is four octets, low order first. */
  function Word(s: Octets, i: nat): bv32
    requires i + 4 <= |s|
  {
    (s[i] as bv32) | ((s[i + 1] as bv32) << 8) | ((s[i + 2] as bv32) << 16) | ((s[i + 3] as bv32) << 24)
  }

  function Words(block: Octets): (x: seq<bv32>)
    requires |block| == BLOCK
    ensures |x| == 16
  {
    seq(16, k requires 0 <= k < 16 => Word(block, 4 * k))
  }

  function Compress(q: Chain, block: Octets): Chain
    requires |block| == BLOCK
  {
    var r := Steps(q, Words(block), 64);
    Chain(Plus(q.a, r.a), Plus(q.b, r.b), Plus(q.c, r.c), Plus(q.d, r.d))
  }

  /** All blocks of a message, in order. */
  function Absorb(q: Chain, s: Octets): Chain
    requires |s| % BLOCK == 0
  {
    if |s| == 0 then q else Compress(Absorb(q, s[..|s| - BLOCK]), s[|s| - BLOCK..])
  }

  // ---------------------------------------------------------------- section 3.5

  function WordOctets(w: bv32): (s: Octets)
    ensures |s| == 4
  {
    [(w & 0xFF) as bv8, ((w >> 8) & 0xFF) as bv8, ((w >> 16) & 0xFF) as bv8, ((w >> 24) & 0xFF) as bv8]
  }

  /** A, B, C, D, beginning with the low-order octet of A. */
  function Output(q: Chain): (s: Octets)
    ensures |s| == 16
  {
    WordOctets(q.a) + WordOctets(q.b) + WordOctets(q.c) + WordOctets(q.d)
  }

  function Digest(message: Octets): Octets {
    Output(Absorb(INITIAL, Padded(message)))
  }
}
