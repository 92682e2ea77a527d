// The streaming MD5 of mdm/Md5.cpp: a 64-byte buffer, a two-word bit counter and an
// unrolled compression.  A context stands for the octets it has been given so far;
// every operation is proved to move from one such string to the next.

module Md5 {
  import opened Arithmetic
  import opened Collections
  import opened Rfc1321

  // --------------------------------------------------------------- macros of md5_process

  function S(x: bv32, n: Amount): bv32 {
    (x << n) | ((x & 0xFFFF_FFFF) >> (32 - n))
  }

  function F1(x: bv32, y: bv32, z: bv32): bv32 { z ^ (x & (y ^ z)) }

  function F2(x: bv32, y: bv32, z: bv32): bv32 { y ^ (z & (x ^ y)) }

  function F3(x: bv32, y: bv32, z: bv32): bv32 { x ^ y ^ z }

  function F4(x: bv32, y: bv32, z: bv32): bv32 { y ^ (x | !z) }

  /** The macro F, which is defined anew for each of the four rounds. */
  function Fn(round: nat, x: bv32, y: bv32, z: bv32): bv32
    requires 1 <= round <= 4
  {
    if round == 1 then F1(x, y, z)
    else if round == 2 then F2(x, y, z)
    else if round == 3 then F3(x, y, z)
    else F4(x, y, z)
  }

  /** The value that the macro P leaves in its first argument. */
  function P(a: bv32, b: bv32, f: bv32, word: bv32, s: Amount, t: bv32): bv32 {
    S(a + (f + word + t), s) + b
  }

  lemma SRotates(x: bv32, n: Amount)
    requires IsStepAmount(n)
    ensures S(x, n) == Rotate(x, n)
  {
    if n == 7 { assert S(x, 7) == x.RotateLeft(7); }
    else if n == 12 { assert S(x, 12) == x.RotateLeft(12); }
    else if n == 17 { assert S(x, 17) == x.RotateLeft(17); }
    else if n == 22 { assert S(x, 22) == x.RotateLeft(22); }
    else if n == 5 { assert S(x, 5) == x.RotateLeft(5); }
    else if n == 9 { assert S(x, 9) == x.RotateLeft(9); }
    else if n == 14 { assert S(x, 14) == x.RotateLeft(14); }
    else if n == 20 { assert S(x, 20) == x.RotateLeft(20); }
    else if n == 4 { assert S(x, 4) == x.RotateLeft(4); }
    else if n == 11 { assert S(x, 11) == x.RotateLeft(11); }
    else if n == 16 { assert S(x, 16) == x.RotateLeft(16); }
    else if n == 23 { assert S(x, 23) == x.RotateLeft(23); }
    else if n == 6 { assert S(x, 6) == x.RotateLeft(6); }
    else if n == 10 { assert S(x, 10) == x.RotateLeft(10); }
    else if n == 15 { assert S(x, 15) == x.RotateLeft(15); }
    else { assert S(x, 21) == x.RotateLeft(21); }
  }

  lemma SelectRewritten(x: bv32, y: bv32, z: bv32)
    ensures z ^ (x & (y ^ z)) == (x & y) | (!x & z)
  {
  }

  lemma F1IsF(x: bv32, y: bv32, z: bv32)
    ensures F1(x, y, z) == F(x, y, z)
  {
    SelectRewritten(x, y, z);
  }

  lemma F2IsG(x: bv32, y: bv32, z: bv32)
    ensures F2(x, y, z) == G(x, y, z)
  {
    SelectRewritten(z, x, y);
  }

  lemma F3IsH(x: bv32, y: bv32, z: bv32)
    ensures F3(x, y, z) == H(x, y, z)
  {
  }

  lemma F4IsI(x: bv32, y: bv32, z: bv32)
    ensures F4(x, y, z) == I(x, y, z)
  {
  }

  lemma FnIsMix(i: nat, x: bv32, y: bv32, z: bv32)
    requires i < 64
    ensures Fn(i / 16 + 1, x, y, z) == Mix(i, x, y, z)
  {
    hide F1, F2, F3, F4, F, G, H, I;
    F1IsF(x, y, z);
    F2IsG(x, y, z);
    F3IsH(x, y, z);
    F4IsI(x, y, z);
  }

  lemma ShiftIsStepAmount(i: nat)
    requires i < 64
    ensures IsStepAmount(Shift(i))
  {
  }

  lemma SumsAgree(a: bv32, f: bv32, word: bv32, t: bv32)
    ensures a + (f + word + t) == Plus4(a, f, word, t)
  {
  }

  lemma PUnfolds(a: bv32, b: bv32, f: bv32, word: bv32, s: Amount, t: bv32)
    ensures P(a, b, f, word, s, t) == Plus(S(a + (f + word + t), s), b)
  {
    hide S;
  }

  lemma PlusCommutes(x: bv32, y: bv32)
    ensures Plus(x, y) == Plus(y, x)
  {
  }

  lemma StepUnfolds(q: Chain, x: seq<bv32>, i: nat)
    requires |x| == 16 && i < 64 && IsStepAmount(Shift(i))
    ensures Step(q, x, i)
         == Chain(q.d, Plus(q.b, Rotate(Plus4(q.a, Mix(i, q.b, q.c, q.d), x[WordIndex(i)], T(i)), Shift(i))), q.b, q.c)
  {
    hide T, Mix, Rotate, Shift, WordIndex, Plus, Plus4;
  }

  lemma PMeans(a: bv32, b: bv32, f: bv32, word: bv32, s: Amount, t: bv32)
    requires IsStepAmount(s)
    ensures P(a, b, f, word, s, t) == Plus(b, Rotate(Plus4(a, f, word, t), s))
  {
    hide *;
    var sum := Plus4(a, f, word, t);
    PUnfolds(a, b, f, word, s, t);
    SumsAgree(a, f, word, t);
    SRotates(sum, s);
    PlusCommutes(Rotate(sum, s), b);
  }

  /** One use of the macro P is one step of section 3.4. */
  lemma PIsStep(q: Chain, x: seq<bv32>, i: nat)
    requires |x| == 16 && i < 64
    ensures Step(q, x, i)
         == Chain(q.d, P(q.a, q.b, Fn(i / 16 + 1, q.b, q.c, q.d), x[WordIndex(i)], Shift(i), T(i)), q.b, q.c)
  {
    hide *;
    ShiftIsStepAmount(i);
    FnIsMix(i, q.b, q.c, q.d);
    PMeans(q.a, q.b, Mix(i, q.b, q.c, q.d), x[WordIndex(i)], Shift(i), T(i));
    StepUnfolds(q, x, i);
  }

  lemma StepsUnfold(q: Chain, x: seq<bv32>, n: nat)
    requires |x| == 16 && n < 64
    ensures Steps(q, x, n + 1) == Step(Steps(q, x, n), x, n)
  {
    hide Step;
  }

  lemma RoundOfQuad(i: nat)
    requires i % 4 == 0
    ensures (i + 1) / 16 == (i + 2) / 16 == (i + 3) / 16 == i / 16
  {
    assert i % 16 <= 12;
  }

  /** Four uses of P, the roles of the variables rotating, are four steps. */
  lemma QuadIsSteps(q0: Chain, x: seq<bv32>, q: Chain, i: nat)
    requires |x| == 16 && i % 4 == 0 && i + 4 <= 64
    requires q == Steps(q0, x, i)
    ensures
      var a := P(q.a, q.b, Fn(i / 16 + 1, q.b, q.c, q.d), x[WordIndex(i)], Shift(i), T(i));
      var d := P(q.d, a, Fn(i / 16 + 1, a, q.b, q.c), x[WordIndex(i + 1)], Shift(i + 1), T(i + 1));
      var c := P(q.c, d, Fn(i / 16 + 1, d, a, q.b), x[WordIndex(i + 2)], Shift(i + 2), T(i + 2));
      var b := P(q.b, c, Fn(i / 16 + 1, c, d, a), x[WordIndex(i + 3)], Shift(i + 3), T(i + 3));
      Steps(q0, x, i + 4) == Chain(a, b, c, d)
  {
    hide *;
    RoundOfQuad(i);
    NextStep(q0, x, i);
    NextStep(q0, x, i + 1);
    NextStep(q0, x, i + 2);
    NextStep(q0, x, i + 3);
  }

  lemma NextStep(q0: Chain, x: seq<bv32>, i: nat)
    requires |x| == 16 && i < 64
    ensures
      var q := Steps(q0, x, i);
      var b := P(q.a, q.b, Fn(i / 16 + 1, q.b, q.c, q.d), x[WordIndex(i)], Shift(i), T(i));
      Steps(q0, x, i + 1) == Chain(q.d, b, q.b, q.c)
  {
    hide *;
    PIsStep(Steps(q0, x, i), x, i);
    StepsUnfold(q0, x, i);
  }

  /** The constants that the k-th use of P is written with. */
  ghost predicate Row(i: nat, k: nat, s: bv32, t: bv32)
    requires i < 64
  {
    WordIndex(i) == k && Shift(i) == s && T(i) == t
  }

  lemma ScheduleFrom0()
    ensures Row(0, 0, 7, 0xD76AA478)
    ensures Row(1, 1, 12, 0xE8C7B756)
    ensures Row(2, 2, 17, 0x242070DB)
    ensures Row(3, 3, 22, 0xC1BDCEEE)
    ensures Row(4, 4, 7, 0xF57C0FAF)
    ensures Row(5, 5, 12, 0x4787C62A)
    ensures Row(6, 6, 17, 0xA8304613)
    ensures Row(7, 7, 22, 0xFD469501)
  {
    hide SineRow2, SineRow3, SineRow4;
  }

  lemma ScheduleFrom8()
    ensures Row(8, 8, 7, 0x698098D8)
    ensures Row(9, 9, 12, 0x8B44F7AF)
    ensures Row(10, 10, 17, 0xFFFF5BB1)
    ensures Row(11, 11, 22, 0x895CD7BE)
    ensures Row(12, 12, 7, 0x6B901122)
    ensures Row(13, 13, 12, 0xFD987193)
    ensures Row(14, 14, 17, 0xA679438E)
    ensures Row(15, 15, 22, 0x49B40821)
  {
    hide SineRow2, SineRow3, SineRow4;
  }

  method Round1(ghost q: Chain, x: seq<bv32>, a: bv32, b: bv32, c: bv32, d: bv32)
    returns (A: bv32, B: bv32, C: bv32, D: bv32)
    requires |x| == 16 && Chain(a, b, c, d) == Steps(q, x, 0)
    ensures Chain(A, B, C, D) == Steps(q, x, 16)
  {
    hide P, Fn, Steps, Step, T, Shift, WordIndex;
    ScheduleFrom0();
    ScheduleFrom8();
    A, B, C, D := a, b, c, d;
    QuadIsSteps(q, x, Chain(A, B, C, D), 0);
    A := P(A, B, Fn(1, B, C, D), x[0], 7, 0xD76AA478);
    D := P(D, A, Fn(1, A, B, C), x[1], 12, 0xE8C7B756);
    C := P(C, D, Fn(1, D, A, B), x[2], 17, 0x242070DB);
    B := P(B, C, Fn(1, C, D, A), x[3], 22, 0xC1BDCEEE);
    QuadIsSteps(q, x, Chain(A, B, C, D), 4);
    A := P(A, B, Fn(1, B, C, D), x[4], 7, 0xF57C0FAF);
    D := P(D, A, Fn(1, A, B, C), x[5], 12, 0x4787C62A);
    C := P(C, D, Fn(1, D, A, B), x[6], 17, 0xA8304613);
    B := P(B, C, Fn(1, C, D, A), x[7], 22, 0xFD469501);
    QuadIsSteps(q, x, Chain(A, B, C, D), 8);
    A := P(A, B, Fn(1, B, C, D), x[8], 7, 0x698098D8);
    D := P(D, A, Fn(1, A, B, C), x[9], 12, 0x8B44F7AF);
    C := P(C, D, Fn(1, D, A, B), x[10], 17, 0xFFFF5BB1);
    B := P(B, C, Fn(1, C, D, A), x[11], 22, 0x895CD7BE);
    QuadIsSteps(q, x, Chain(A, B, C, D), 12);
    A := P(A, B, Fn(1, B, C, D), x[12], 7, 0x6B901122);
    D := P(D, A, Fn(1, A, B, C), x[13], 12, 0xFD987193);
    C := P(C, D, Fn(1, D, A, B), x[14], 17, 0xA679438E);
    B := P(B, C, Fn(1, C, D, A), x[15], 22, 0x49B40821);
  }

  lemma ScheduleFrom16()
    ensures Row(16, 1, 5, 0xF61E2562)
    ensures Row(17, 6, 9, 0xC040B340)
    ensures Row(18, 11, 14, 0x265E5A51)
    ensures Row(19, 0, 20, 0xE9B6C7AA)
    ensures Row(20, 5, 5, 0xD62F105D)
    ensures Row(21, 10, 9, 0x02441453)
    ensures Row(22, 15, 14, 0xD8A1E681)
    ensures Row(23, 4, 20, 0xE7D3FBC8)
  {
    hide SineRow1, SineRow3, SineRow4;
  }

  lemma ScheduleFrom24()
    ensures Row(24, 9, 5, 0x21E1CDE6)
    ensures Row(25, 14, 9, 0xC33707D6)
    ensures Row(26, 3, 14, 0xF4D50D87)
    ensures Row(27, 8, 20, 0x455A14ED)
    ensures Row(28, 13, 5, 0xA9E3E905)
    ensures Row(29, 2, 9, 0xFCEFA3F8)
    ensures Row(30, 7, 14, 0x676F02D9)
    ensures Row(31, 12, 20, 0x8D2A4C8A)
  {
    hide SineRow1, SineRow3, SineRow4;
  }

  method Round2(ghost q: Chain, x: seq<bv32>, a: bv32, b: bv32, c: bv32, d: bv32)
    returns (A: bv32, B: bv32, C: bv32, D: bv32)
    requires |x| == 16 && Chain(a, b, c, d) == Steps(q, x, 16)
    ensures Chain(A, B, C, D) == Steps(q, x, 32)
  {
    hide P, Fn, Steps, Step, T, Shift, WordIndex;
    ScheduleFrom16();
    ScheduleFrom24();
    A, B, C, D := a, b, c, d;
    QuadIsSteps(q, x, Chain(A, B, C, D), 16);
    A := P(A, B, Fn(2, B, C, D), x[1], 5, 0xF61E2562);
    D := P(D, A, Fn(2, A, B, C), x[6], 9, 0xC040B340);
    C := P(C, D, Fn(2, D, A, B), x[11], 14, 0x265E5A51);
    B := P(B, C, Fn(2, C, D, A), x[0], 20, 0xE9B6C7AA);
    QuadIsSteps(q, x, Chain(A, B, C, D), 20);
    A := P(A, B, Fn(2, B, C, D), x[5], 5, 0xD62F105D);
    D := P(D, A, Fn(2, A, B, C), x[10], 9, 0x02441453);
    C := P(C, D, Fn(2, D, A, B), x[15], 14, 0xD8A1E681);
    B := P(B, C, Fn(2, C, D, A), x[4], 20, 0xE7D3FBC8);
    QuadIsSteps(q, x, Chain(A, B, C, D), 24);
    A := P(A, B, Fn(2, B, C, D), x[9], 5, 0x21E1CDE6);
    D := P(D, A, Fn(2, A, B, C), x[14], 9, 0xC33707D6);
    C := P(C, D, Fn(2, D, A, B), x[3], 14, 0xF4D50D87);
    B := P(B, C, Fn(2, C, D, A), x[8], 20, 0x455A14ED);
    QuadIsSteps(q, x, Chain(A, B, C, D), 28);
    A := P(A, B, Fn(2, B, C, D), x[13], 5, 0xA9E3E905);
    D := P(D, A, Fn(2, A, B, C), x[2], 9, 0xFCEFA3F8);
    C := P(C, D, Fn(2, D, A, B), x[7], 14, 0x676F02D9);
    B := P(B, C, Fn(2, C, D, A), x[12], 20, 0x8D2A4C8A);
  }

  lemma ScheduleFrom32()
    ensures Row(32, 5, 4, 0xFFFA3942)
    ensures Row(33, 8, 11, 0x8771F681)
    ensures Row(34, 11, 16, 0x6D9D6122)
    ensures Row(35, 14, 23, 0xFDE5380C)
    ensures Row(36, 1, 4, 0xA4BEEA44)
    ensures Row(37, 4, 11, 0x4BDECFA9)
    ensures Row(38, 7, 16, 0xF6BB4B60)
    ensures Row(39, 10, 23, 0xBEBFBC70)
  {
    hide SineRow1, SineRow2, SineRow4;
  }

  lemma ScheduleFrom40()
    ensures Row(40, 13, 4, 0x289B7EC6)
    ensures Row(41, 0, 11, 0xEAA127FA)
    ensures Row(42, 3, 16, 0xD4EF3085)
    ensures Row(43, 6, 23, 0x04881D05)
    ensures Row(44, 9, 4, 0xD9D4D039)
    ensures Row(45, 12, 11, 0xE6DB99E5)
    ensures Row(46, 15, 16, 0x1FA27CF8)
    ensures Row(47, 2, 23, 0xC4AC5665)
  {
    hide SineRow1, SineRow2, SineRow4;
  }

  method Round3(ghost q: Chain, x: seq<bv32>, a: bv32, b: bv32, c: bv32, d: bv32)
    returns (A: bv32, B: bv32, C: bv32, D: bv32)
    requires |x| == 16 && Chain(a, b, c, d) == Steps(q, x, 32)
    ensures Chain(A, B, C, D) == Steps(q, x, 48)
  {
    hide P, Fn, Steps, Step, T, Shift, WordIndex;
    ScheduleFrom32();
    ScheduleFrom40();
    A, B, C, D := a, b, c, d;
    QuadIsSteps(q, x, Chain(A, B, C, D), 32);
    A := P(A, B, Fn(3, B, C, D), x[5], 4, 0xFFFA3942);
    D := P(D, A, Fn(3, A, B, C), x[8], 11, 0x8771F681);
    C := P(C, D, Fn(3, D, A, B), x[11], 16, 0x6D9D6122);
    B := P(B, C, Fn(3, C, D, A), x[14], 23, 0xFDE5380C);
    QuadIsSteps(q, x, Chain(A, B, C, D), 36);
    A := P(A, B, Fn(3, B, C, D), x[1], 4, 0xA4BEEA44);
    D := P(D, A, Fn(3, A, B, C), x[4], 11, 0x4BDECFA9);
    C := P(C, D, Fn(3, D, A, B), x[7], 16, 0xF6BB4B60);
    B := P(B, C, Fn(3, C, D, A), x[10], 23, 0xBEBFBC70);
    QuadIsSteps(q, x, Chain(A, B, C, D), 40);
    A := P(A, B, Fn(3, B, C, D), x[13], 4, 0x289B7EC6);
    D := P(D, A, Fn(3, A, B, C), x[0], 11, 0xEAA127FA);
    C := P(C, D, Fn(3, D, A, B), x[3], 16, 0xD4EF3085);
    B := P(B, C, Fn(3, C, D, A), x[6], 23, 0x04881D05);
    QuadIsSteps(q, x, Chain(A, B, C, D), 44);
    A := P(A, B, Fn(3, B, C, D), x[9], 4, 0xD9D4D039);
    D := P(D, A, Fn(3, A, B, C), x[12], 11, 0xE6DB99E5);
    C := P(C, D, Fn(3, D, A, B), x[15], 16, 0x1FA27CF8);
    B := P(B, C, Fn(3, C, D, A), x[2], 23, 0xC4AC5665);
  }

  lemma ScheduleFrom48()
    ensures Row(48, 0, 6, 0xF4292244)
    ensures Row(49, 7, 10, 0x432AFF97)
    ensures Row(50, 14, 15, 0xAB9423A7)
    ensures Row(51, 5, 21, 0xFC93A039)
    ensures Row(52, 12, 6, 0x655B59C3)
    ensures Row(53, 3, 10, 0x8F0CCC92)
    ensures Row(54, 10, 15, 0xFFEFF47D)
    ensures Row(55, 1, 21, 0x85845DD1)
  {
    hide SineRow1, SineRow2, SineRow3;
  }

  lemma ScheduleFrom56()
    ensures Row(56, 8, 6, 0x6FA87E4F)
    ensures Row(57, 15, 10, 0xFE2CE6E0)
    ensures Row(58, 6, 15, 0xA3014314)
    ensures Row(59, 13, 21, 0x4E0811A1)
    ensures Row(60, 4, 6, 0xF7537E82)
    ensures Row(61, 11, 10, 0xBD3AF235)
    ensures Row(62, 2, 15, 0x2AD7D2BB)
    ensures Row(63, 9, 21, 0xEB86D391)
  {
    hide SineRow1, SineRow2, SineRow3;
  }

  method Round4(ghost q: Chain, x: seq<bv32>, a: bv32, b: bv32, c: bv32, d: bv32)
    returns (A: bv32, B: bv32, C: bv32, D: bv32)
    requires |x| == 16 && Chain(a, b, c, d) == Steps(q, x, 48)
    ensures Chain(A, B, C, D) == Steps(q, x, 64)
  {
    hide P, Fn, Steps, Step, T, Shift, WordIndex;
    ScheduleFrom48();
    ScheduleFrom56();
    A, B, C, D := a, b, c, d;
    QuadIsSteps(q, x, Chain(A, B, C, D), 48);
    A := P(A, B, Fn(4, B, C, D), x[0], 6, 0xF4292244);
    D := P(D, A, Fn(4, A, B, C), x[7], 10, 0x432AFF97);
    C := P(C, D, Fn(4, D, A, B), x[14], 15, 0xAB9423A7);
    B := P(B, C, Fn(4, C, D, A), x[5], 21, 0xFC93A039);
    QuadIsSteps(q, x, Chain(A, B, C, D), 52);
    A := P(A, B, Fn(4, B, C, D), x[12], 6, 0x655B59C3);
    D := P(D, A, Fn(4, A, B, C), x[3], 10, 0x8F0CCC92);
    C := P(C, D, Fn(4, D, A, B), x[10], 15, 0xFFEFF47D);
    B := P(B, C, Fn(4, C, D, A), x[1], 21, 0x85845DD1);
    QuadIsSteps(q, x, Chain(A, B, C, D), 56);
    A := P(A, B, Fn(4, B, C, D), x[8], 6, 0x6FA87E4F);
    D := P(D, A, Fn(4, A, B, C), x[15], 10, 0xFE2CE6E0);
    C := P(C, D, Fn(4, D, A, B), x[6], 15, 0xA3014314);
    B := P(B, C, Fn(4, C, D, A), x[13], 21, 0x4E0811A1);
    QuadIsSteps(q, x, Chain(A, B, C, D), 60);
    A := P(A, B, Fn(4, B, C, D), x[4], 6, 0xF7537E82);
    D := P(D, A, Fn(4, A, B, C), x[11], 10, 0xBD3AF235);
    C := P(C, D, Fn(4, D, A, B), x[2], 15, 0x2AD7D2BB);
    B := P(B, C, Fn(4, C, D, A), x[9], 21, 0xEB86D391);
  }

  // --------------------------------------------------------------- the two-word bit counter

  const WORD: nat := 0x1_0000_0000

  /** total[0] + 2^32 * total[1] is the number of bits of n octets, modulo 2^64. */
  predicate Counts(total0: nat, total1: nat, n: nat) {
    total0 < WORD && total1 < WORD && total0 + WORD * total1 == (8 * n) % (WORD * WORD)
  }

  lemma CountsMeans(total0: nat, total1: nat, n: nat) returns (laps: nat)
    requires Counts(total0, total1, n)
    ensures 8 * n == laps * (WORD * WORD) + WORD * total1 + total0
  {
    laps := (8 * n) / (WORD * WORD);
  }

  lemma CountsIf(total0: nat, total1: nat, n: nat, laps: nat)
    requires total0 < WORD && total1 < WORD
    requires 8 * n == laps * (WORD * WORD) + WORD * total1 + total0
    ensures Counts(total0, total1, n)
  {
    Quotient(8 * n, WORD * WORD, laps, WORD * total1 + total0);
  }

  /** The counter tells how much of the buffer is in use. */
  lemma CounterGivesTail(total0: nat, total1: nat, n: nat)
    requires Counts(total0, total1, n)
    ensures (total0 / 8) % BLOCK == n % BLOCK
  {
    var laps := CountsMeans(total0, total1, n);
    var m := 0x80_0000 * (laps * WORD + total1);
    var eighth := n - BLOCK * m;
    assert total0 == 8 * eighth;
    Quotient(eighth, BLOCK, n / BLOCK - m, n % BLOCK);
  }

  /** The carry test of md5_update: a sum wrapped exactly when it is below one summand. */
  lemma CarryIsWrap(x: nat, y: nat)
    requires x < WORD && y < WORD
    ensures x + y == (x + y) % WORD + WORD * (if (x + y) % WORD < y then 1 else 0)
  {
    if x + y < WORD {
      Quotient(x + y, WORD, 0, x + y);
    } else {
      Quotient(x + y, WORD, 1, x + y - WORD);
    }
  }

  lemma ShiftSplitsLength(length: nat)
    ensures 8 * length == WORD * (length / 0x2000_0000) + (8 * length) % WORD
  {
    var high := length / 0x2000_0000;
    Quotient(8 * length, WORD, high, 8 * (length - 0x2000_0000 * high));
  }

  lemma WrapTwice(x: nat, y: nat)
    ensures (x % WORD + y) % WORD == (x + y) % WORD
  {
    var q := (x % WORD + y) / WORD;
    Quotient(x + y, WORD, x / WORD + q, (x % WORD + y) % WORD);
  }

  /** Adding a length with the carry computed as md5_update does counts the longer string. */
  lemma CounterAdds(total0: nat, total1: nat, n: nat, length: nat, new0: nat, new1: nat)
    requires Counts(total0, total1, n) && length < WORD
    requires new0 == (total0 + (8 * length) % WORD) % WORD
    requires new1 == ((total1 + length / 0x2000_0000) % WORD + (if new0 < (8 * length) % WORD then 1 else 0)) % WORD
    ensures Counts(new0, new1, n + length)
  {
    var laps := CountsMeans(total0, total1, n);
    var low, high := (8 * length) % WORD, length / 0x2000_0000;
    ShiftSplitsLength(length);
    CarryIsWrap(total0, low);
    var carry := if new0 < low then 1 else 0;
    WrapTwice(total1 + high, carry);
    var lap1 := (total1 + high + carry) / WORD;
    CountsIf(new0, new1, n + length, laps + lap1);
  }

  // --------------------------------------------------------------- blocks

  function Whole(n: nat): (w: nat)
    ensures w <= n && w % BLOCK == 0 && n - w == n % BLOCK
  {
    n - n % BLOCK
  }

  lemma AbsorbBlock(q: Chain, s: Octets, block: Octets)
    requires |s| % BLOCK == 0 && |block| == BLOCK
    ensures |s + block| % BLOCK == 0
    ensures Absorb(q, s + block) == Compress(Absorb(q, s), block)
  {
    var t := s + block;
    assert t[..|t| - BLOCK] == s && t[|t| - BLOCK..] == block;
  }

  /** md5_padding. */
  const PADDING: Octets := [0x80] + Zeros(63)

  /** PUT_UINT32 of the two words of the counter. */
  function MessageLength(total0: nat, total1: nat): (s: Octets)
    ensures |s| == 8
  {
    seq(8, k requires 0 <= k < 8 => LowFirst(if k < 4 then total0 else total1, k % 4))
  }

  /** The padding count lands 8 octets before a block boundary. */
  lemma PaddingIsPrefix(length: nat, padn: nat)
    requires padn == if length % BLOCK < 56 then 56 - length % BLOCK else 120 - length % BLOCK
    ensures padn <= BLOCK && PADDING[..padn] == Padding(length)
  {
  }

  /** An octet of the low word: what lies above contributes a multiple of 256. */
  lemma OctetOfLowWord(total0: nat, total1: nat, p: nat, c: nat)
    requires p > 0 && p * (256 * c) == WORD
    ensures ((total0 + WORD * total1) / p) % 256 == (total0 / p) % 256
  {
    assert p * (256 * c * total1) == (p * (256 * c)) * total1;
    var high := 256 * c * total1;
    assert p * (total0 / p + high) == p * (total0 / p) + p * high;
    Quotient(total0 + WORD * total1, p, total0 / p + high, total0 % p);
    assert high == 256 * (c * total1);
    Quotient(total0 / p + high, 256, total0 / p / 256 + c * total1, (total0 / p) % 256);
  }

  /** An octet of the high word: what lies below vanishes in the division. */
  lemma OctetOfHighWord(total0: nat, total1: nat, p: nat)
    requires p > 0 && total0 < WORD
    ensures (total0 + WORD * total1) / (WORD * p) == total1 / p
  {
    var q, r := total1 / p, total1 % p;
    assert WORD * total1 == WORD * (p * q) + WORD * r;
    assert (WORD * p) * q == WORD * (p * q);
    Quotient(total0 + WORD * total1, WORD * p, q, WORD * r + total0);
  }

  lemma PowersOf256()
    ensures Power256(0) == 1 && Power256(1) == 0x100 && Power256(2) == 0x1_0000 && Power256(3) == 0x100_0000
    ensures Power256(4) == WORD && Power256(5) == WORD * 0x100
    ensures Power256(6) == WORD * 0x1_0000 && Power256(7) == WORD * 0x100_0000
  {
    assert Power256(3) == 256 * Power256(2);
    assert Power256(5) == 256 * Power256(4);
  }

  lemma WordsHoldOctets(total0: nat, total1: nat, k: nat)
    requires k < 4 && total0 < WORD
    ensures LowFirst(total0, k) == LowFirst(total0 + WORD * total1, k)
    ensures LowFirst(total1, k) == LowFirst(total0 + WORD * total1, k + 4)
  {
    PowersOf256();
    hide Power256;
    OctetOfLowWord(total0, total1, Power256(k),
                   if k == 0 then 0x100_0000 else if k == 1 then 0x1_0000 else if k == 2 then 0x100 else 1);
    OctetOfHighWord(total0, total1, Power256(k));
  }

  /** The two words, stored as the bit count demands, are the length field of the padding. */
  lemma MessageLengthIsField(total0: nat, total1: nat, n: nat)
    requires Counts(total0, total1, n)
    ensures MessageLength(total0, total1) == LengthField(n)
  {
    hide LowFirst;
    var bits := total0 + WORD * total1;
    forall k | 0 <= k < 8
      ensures MessageLength(total0, total1)[k] == EightOctets(bits)[k]
    {
      WordsHoldOctets(total0, total1, k % 4);
    }
  }

  lemma CounterIsDetermined(total0: nat, total1: nat, other0: nat, other1: nat, n: nat)
    requires Counts(total0, total1, n) && Counts(other0, other1, n)
    ensures total0 == other0 && total1 == other1
  {
    Quotient(total0 + WORD * total1, WORD, total1, total0);
    Quotient(other0 + WORD * other1, WORD, other1, other0);
  }

  /** md5_context. */
  class Context {
    var total0: nat
    var total1: nat
    var state: Chain
    const buffer: array<bv8>

    /** This context has been given exactly the octets of message. */
    ghost predicate Holds(message: Octets)
      reads this, buffer
    {
      && buffer.Length == BLOCK
      && Counts(total0, total1, |message|)
      && state == Absorb(INITIAL, message[..Whole(|message|)])
      && buffer[..|message| % BLOCK] == message[Whole(|message|)..]
    }

    constructor ()
      ensures buffer.Length == BLOCK && fresh(buffer)
    {
      buffer := new bv8[BLOCK];
    }

    /** md5_starts */
    method Starts()
      requires buffer.Length == BLOCK
      modifies this
      ensures Holds([])
    {
      total0, total1 := 0, 0;
      state := Chain(0x67452301, 0xEFCDAB89, 0x98BADCFE, 0x10325476);
    }

    /** md5_process */
    method Process(data: Octets)
      requires |data| == BLOCK
      modifies this`state
      ensures state == Compress(old(state), data)
    {
      var x := Words(data);
      var A, B, C, D := Round1(state, x, state.a, state.b, state.c, state.d);
      A, B, C, D := Round2(state, x, A, B, C, D);
      A, B, C, D := Round3(state, x, A, B, C, D);
      A, B, C, D := Round4(state, x, A, B, C, D);
      hide Steps;
      state := Chain(Plus(state.a, A), Plus(state.b, B), Plus(state.c, C), Plus(state.d, D));
    }

    /** memcpy into the buffer */
    method CopyIn(at: nat, data: Octets)
      requires at + |data| <= buffer.Length
      modifies buffer
      ensures buffer[..at] == old(buffer[..at]) && buffer[at..at + |data|] == data
    {
      forall i | 0 <= i < |data| {
        buffer[at + i] := data[i];
      }
    }

    /** What is left to do in md5_update: all is the whole string, done octets of it are
        absorbed, left octets are in the buffer and length octets are still to be read. */
    ghost predicate Progress(all: Octets, done: nat, left: nat, length: nat)
      reads `state, buffer
    {
      && buffer.Length == BLOCK
      && done + left + length == |all|
      && done % BLOCK == 0 && left < BLOCK
      && state == Absorb(INITIAL, all[..done])
      && buffer[..left] == all[done..done + left]
    }

    /** The copy-and-process step that fills a partly used buffer. */
    method FillBuffer(ghost all: Octets, ghost done: nat, left: nat, data: Octets)
      requires left + |data| == BLOCK && |data| > 0
      requires done + BLOCK <= |all| && Progress(all, done, left, |all| - done - left)
      requires data == all[done + left..done + BLOCK]
      modifies this`state, buffer
      ensures Progress(all, done + BLOCK, 0, |all| - done - BLOCK)
    {
      hide Absorb, Compress;
      CopyIn(left, data);
      assert buffer[..] == buffer[..left] + buffer[left..] == all[done..done + BLOCK];
      AbsorbBlock(INITIAL, all[..done], buffer[..]);
      Process(buffer[..]);
      assert all[..done] + all[done..done + BLOCK] == all[..done + BLOCK];
    }

    /** A block taken straight from the input. */
    method ProcessInput(ghost all: Octets, ghost done: nat, data: Octets)
      requires done + BLOCK <= |all| && Progress(all, done, 0, |all| - done)
      requires data == all[done..done + BLOCK]
      modifies this`state
      ensures Progress(all, done + BLOCK, 0, |all| - done - BLOCK)
    {
      AbsorbBlock(INITIAL, all[..done], data);
      Process(data);
      assert all[..done] + data == all[..done + BLOCK];
    }

    method AddLength(ghost n: nat, length: nat)
      requires Counts(total0, total1, n) && length < WORD
      modifies this`total0, this`total1
      ensures Counts(total0, total1, n + length)
    {
      total0 := (total0 + (8 * length) % WORD) % WORD;
      total1 := (total1 + length / 0x2000_0000) % WORD;
      total1 := (total1 + (if total0 < (8 * length) % WORD then 1 else 0)) % WORD;
      CounterAdds(old(total0), old(total1), n, length, total0, total1);
    }

    /** What is left of the input goes to the buffer. */
    method KeepRest(ghost all: Octets, ghost done: nat, left: nat, data: Octets)
      requires left + |data| < BLOCK && done + left + |data| == |all| && data == all[done + left..]
      requires Progress(all, done, left, |data|) && Counts(total0, total1, |all|)
      modifies buffer
      ensures Holds(all)
    {
      hide Absorb, Counts;
      if |data| != 0 {
        CopyIn(left, data);
      }
      Quotient(|all|, BLOCK, done / BLOCK, left + |data|);
      assert buffer[..left + |data|] == buffer[..left] + data == all[done..];
    }

    lemma HoldsIsProgress(message: Octets, input: Octets)
      requires Holds(message)
      ensures Progress(message + input, Whole(|message|), |message| % BLOCK, |input|)
    {
      hide Absorb, Counts;
      var all, done := message + input, Whole(|message|);
      assert all[..done] == message[..done];
    }

    lemma SliceOfRest(all: Octets, base: nat, input: Octets, from: nat, to: nat)
      requires base <= |all| && input == all[base..] && from <= to <= |input|
      ensures input[from..to] == all[base + from..base + to]
    {
    }

    /** The loop of md5_update: whole blocks are processed where they lie in the input, which
        is what follows the first base octets of all. */
    method ProcessWholeBlocks(ghost all: Octets, ghost base: nat, input: Octets, start: nat, left: nat)
      returns (pos: nat, ghost done: nat)
      requires base <= |all| && input == all[base..]
      requires start <= |input| && (left + |input| - start >= BLOCK ==> left == 0)
      requires left <= base + start && Progress(all, base + start - left, left, |input| - start)
      modifies this`state
      ensures start <= pos <= |input| && left + |input| - pos < BLOCK
      ensures done + left == base + pos && Progress(all, done, left, |input| - pos)
    {
      hide *;
      pos, done := start, base + start - left;
      var length := |input| - start;
      while length >= BLOCK
        invariant start <= pos <= |input| && length == |input| - pos
        invariant done + left == base + pos && Progress(all, done, left, length)
        invariant left + length >= BLOCK ==> left == 0
      {
        SliceOfRest(all, base, input, pos, pos + BLOCK);
        ProcessInput(all, done, input[pos..pos + BLOCK]);
        done := done + BLOCK;
        length := length - BLOCK;
        pos := pos + BLOCK;
      }
    }

    /** md5_update after the counter has been advanced. */
    method Consume(ghost all: Octets, ghost base: nat, input: Octets, left: nat)
      requires base <= |all| && input == all[base..] && left <= base && left < BLOCK
      requires Progress(all, base - left, left, |input|) && Counts(total0, total1, |all|)
      modifies this`state, buffer
      ensures Holds(all)
    {
      hide Progress, Holds, Counts;
      var fill: nat := BLOCK - left;
      var pos, rest: nat := 0, left;
      ghost var done;
      if left != 0 && |input| >= fill {
        SliceOfRest(all, base, input, 0, fill);
        FillBuffer(all, base - left, left, input[..fill]);
        pos, rest := fill, 0;
      }
      pos, done := ProcessWholeBlocks(all, base, input, pos, rest);
      SliceOfRest(all, base, input, pos, |input|);
      KeepRest(all, done, rest, input[pos..]);
    }

    /** md5_update: whatever the context held, it now holds that followed by the input. */
    method Update(ghost message: Octets, input: Octets)
      requires Holds(message) && |input| < WORD
      modifies this, buffer
      ensures Holds(message + input)
    {
      hide Absorb;
      if |input| == 0 {
        assert message + input == message;
        return;
      }
      var left: nat := (total0 / 8) % BLOCK;
      CounterGivesTail(total0, total1, |message|);
      HoldsIsProgress(message, input);
      AddLength(|message|, |input|);
      hide *;
      Consume(message + input, |message|, input, left);
    }

    // ------------------------------------------------------------- md5_finish

    lemma WholeBlocksAreAbsorbed(message: Octets)
      requires Holds(message) && |message| % BLOCK == 0
      ensures state == Absorb(INITIAL, message)
    {
      hide Absorb, Counts;
      assert message[..Whole(|message|)] == message;
    }

    /** md5_finish: the context is padded and its chaining state written out. */
    method Finish(ghost message: Octets) returns (digest: Octets)
      requires Holds(message)
      modifies this, buffer
      ensures digest == Digest(message)
    {
      var msglen := MessageLength(total0, total1);
      var last := (total0 / 8) % BLOCK;
      var padn := if last < 56 then 56 - last else 120 - last;
      CounterGivesTail(total0, total1, |message|);
      PaddingIsPrefix(|message|, padn);
      MessageLengthIsField(total0, total1, |message|);
      hide Holds, Counts, Absorb, LengthField, Padding, PADDING, MessageLength;
      Update(message, PADDING[..padn]);
      Update(message + PADDING[..padn], msglen);
      WholeBlocksAreAbsorbed(Padded(message));
      digest := WordOctets(state.a) + WordOctets(state.b) + WordOctets(state.c) + WordOctets(state.d);
    }
  }

  class MD5 {
    /** The sixteen octets of m_data. */
    var data: Octets

    /** The digest of RFC 1321, for every buffer a non-negative int can measure. */
    method GenerateMD5(buffer: Octets)
      requires |buffer| < 0x8000_0000
      modifies this
      ensures data == Digest(buffer)
    {
      assert |buffer| < WORD;
      hide *;
      var context := new Context();
      context.Starts();
      context.Update([], buffer);
      assert [] + buffer == buffer;
      data := context.Finish(buffer);
    }
  }

  // --------------------------------------------------------------- chunk independence

  /** Successive updates leave the context that holds the concatenation of the chunks. */
  method UpdateEach(context: Context, ghost message: Octets, chunks: seq<Octets>)
    requires context.Holds(message)
    requires forall c :: c in chunks ==> |c| < WORD
    modifies context, context.buffer
    ensures context.Holds(message + Concat(chunks))
  {
    hide Context.Holds;
    assert message + Concat(chunks[..0]) == message;
    for i := 0 to |chunks|
      invariant context.Holds(message + Concat(chunks[..i]))
    {
      context.Update(message + Concat(chunks[..i]), chunks[i]);
      assert chunks[..i + 1][..i] == chunks[..i];
      assert message + Concat(chunks[..i]) + chunks[i] == message + Concat(chunks[..i + 1]);
    }
    assert chunks[..|chunks|] == chunks;
  }

  /** What a context holds determines its counter, its chaining state and the octets of its
      buffer that are in use, however those octets arrived. */
  lemma ContextIsDetermined(x: Context, y: Context, message: Octets)
    requires x.Holds(message) && y.Holds(message)
    ensures x.total0 == y.total0 && x.total1 == y.total1 && x.state == y.state
    ensures x.buffer[..|message| % BLOCK] == y.buffer[..|message| % BLOCK]
    ensures (x.total0 / 8) % BLOCK == |message| % BLOCK
  {
    CounterIsDetermined(x.total0, x.total1, y.total0, y.total1, |message|);
    hide Absorb, Whole, Counts;
    CounterGivesTail(x.total0, x.total1, |message|);
  }
}
