/** 32-bit machine words built from octets and cut into six-bit pieces, and the numbers they stand for. */
module MachineWords {

  /** Four octets side by side. */
  function SideBySide(x: bv8, a: bv8, b: bv8, c: bv8): bv32 {
    ((x as bv32) << 24) | ((a as bv32) << 16) | ((b as bv32) << 8) | (c as bv32)
  }

  /** An octet of a word, as a number. */
  predicate Octet(b: int) {
    0 <= b < 256
  }

  // ------------------------------------------------------------- numbers below 256 are octets

  lemma OctetKept(b: int)
    requires 0 <= b < 256
    ensures (b as bv8) as int == b
  {
    var o := OctetOf(b);
    OctetIs(o, b);
  }

  lemma OctetIs(o: bv8, b: int)
    requires b == o as int
    ensures b as bv8 == o
  {
  }

  lemma {:induction false} OctetOf(b: int) returns (o: bv8)
    requires 0 <= b < 256
    ensures o as int == b
  {
    if b == 0 {
      o := 0;
    } else {
      o := OctetOf(b - 1);
      Successor(o);
      o := o + 1;
    }
  }

  lemma Successor(o: bv8)
    requires o as int < 255
    ensures (o + 1) as int == o as int + 1
  {
  }

  // ------------------------------------------------------------- or-ing into zero bits adds

  /** The word as a number: the or of the shifted octets is their sum. */
  lemma OrsAdd(x: bv8, a: bv8, b: bv8, c: bv8)
    ensures SideBySide(x, a, b, c) as int == x as int * 0x100_0000 + a as int * 0x1_0000 + b as int * 0x100 + c as int
  {
    var n1, n2, n3, n4 := Ors(x, a, b, c);
    TopShifted(x, n1);
    OrSecond(n1, a, n2);
    OrThird(n2, b, n3);
    OrLast(n3, c, n4);
  }

  lemma Ors(x: bv8, a: bv8, b: bv8, c: bv8) returns (n1: bv32, n2: bv32, n3: bv32, n4: bv32)
    ensures n1 == (x as bv32) << 24 && n2 == n1 | ((a as bv32) << 16) && n3 == n2 | ((b as bv32) << 8)
    ensures n4 == n3 | (c as bv32) && n4 == SideBySide(x, a, b, c)
    ensures n1 & 0xFF_FFFF == 0 && n2 & 0xFFFF == 0 && n3 & 0xFF == 0
  {
    n1 := (x as bv32) << 24;
    n2 := n1 | ((a as bv32) << 16);
    n3 := n2 | ((b as bv32) << 8);
    n4 := n3 | (c as bv32);
  }

  lemma TopShifted(x: bv8, r: bv32)
    requires r == (x as bv32) << 24
    ensures r as int == x as int * 0x100_0000
  {
  }

  lemma OrSecond(n: bv32, a: bv8, r: bv32)
    requires n & 0xFF_FFFF == 0 && r == n | ((a as bv32) << 16)
    ensures r as int == n as int + a as int * 0x1_0000
  {
  }

  lemma OrThird(n: bv32, b: bv8, r: bv32)
    requires n & 0xFFFF == 0 && r == n | ((b as bv32) << 8)
    ensures r as int == n as int + b as int * 0x100
  {
  }

  lemma OrLast(n: bv32, c: bv8, r: bv32)
    requires n & 0xFF == 0 && r == n | (c as bv32)
    ensures r as int == n as int + c as int
  {
  }

  /** The octets of the lower 24 bits from the i-th on are zero. */
  predicate ZeroBelow(n: bv32, i: nat) {
    if i == 0 then n == 0 else if i == 1 then n & 0xFFFF == 0 else i == 2 ==> n & 0xFF == 0
  }

  /** Or-ing an octet into its zero bits adds it at its weight. */
  method OrOctet(n: bv32, b: int, i: nat) returns (result: bv32)
    requires i < 3 && Octet(b) && ZeroBelow(n, i)
    ensures ZeroBelow(result, i + 1)
    ensures result as int == n as int + b * if i == 0 then 0x1_0000 else if i == 1 then 0x100 else 1
  {
    var octet := b as bv8;
    OctetKept(b);
    result := Ored(n, octet, i);
    OredAdds(n, octet, i);
  }

  function Ored(n: bv32, octet: bv8, i: nat): bv32
    requires i < 3
  {
    n | ((octet as bv32) << (16 - i * 8))
  }

  lemma OredAdds(n: bv32, octet: bv8, i: nat)
    requires i < 3 && ZeroBelow(n, i)
    ensures ZeroBelow(Ored(n, octet, i), i + 1)
    ensures Ored(n, octet, i) as int
         == n as int + octet as int * if i == 0 then 0x1_0000 else if i == 1 then 0x100 else 1
  {
    if i == 0 {
      OredFirst(n, octet);
      OrSecond(n, octet, Ored(n, octet, i));
    } else if i == 1 {
      OredSecond(n, octet);
      OrThird(n, octet, Ored(n, octet, i));
    } else {
      OredThird(n, octet);
      OrLast(n, octet, Ored(n, octet, i));
    }
  }

  lemma OredFirst(n: bv32, octet: bv8)
    requires n == 0
    ensures Ored(n, octet, 0) == n | ((octet as bv32) << 16) && ZeroBelow(Ored(n, octet, 0), 1)
  {
  }

  lemma OredSecond(n: bv32, octet: bv8)
    requires ZeroBelow(n, 1)
    ensures Ored(n, octet, 1) == n | ((octet as bv32) << 8) && ZeroBelow(Ored(n, octet, 1), 2)
  {
  }

  lemma OredThird(n: bv32, octet: bv8)
    ensures Ored(n, octet, 2) == n | (octet as bv32)
  {
  }

  // ------------------------------------------------------------- cutting into six bits

  /** The i-th six bits from the top of the lower 24: a shift by 18 - 6 * i, and a mask. */
  function SixBits(n: bv32, i: nat): (bits: bv32)
    requires i < 4
    ensures bits < 64
  {
    (match i case 0 => n >> 18 case 1 => n >> 12 case 2 => n >> 6 case _ => n) & 0x3F
  }

  /** Each six bits come from one octet or from two neighbours. */
  lemma CutInOctets(x: bv8, a: bv8, b: bv8, c: bv8)
    ensures var n := SideBySide(x, a, b, c);
            && (n >> 18) & 0x3F == (a >> 2) as bv32
            && (n >> 12) & 0x3F == (((a & 3) << 4) | (b >> 4)) as bv32
            && (n >> 6) & 0x3F == (((b & 15) << 2) | (c >> 6)) as bv32
            && n & 0x3F == (c & 0x3F) as bv32
  {
  }

  lemma PiecesAreDigits(a: bv8, b: bv8, c: bv8)
    ensures (a >> 2) as bv32 as int == a as int / 4
    ensures (((a & 3) << 4) | (b >> 4)) as bv32 as int == a as int % 4 * 16 + b as int / 16
    ensures (((b & 15) << 2) | (c >> 6)) as bv32 as int == b as int % 16 * 4 + c as int / 64
    ensures (c & 0x3F) as bv32 as int == c as int % 64
  {
    Shifted(a);
    Shifted(b);
    Shifted(c);
    Masked(a);
    Masked(b);
    Masked(c);
    OrAddsBelow16((a & 3) << 4, b >> 4);
    OrAddsBelow4((b & 15) << 2, c >> 6);
    Widened(a >> 2);
    Widened(((a & 3) << 4) | (b >> 4));
    Widened(((b & 15) << 2) | (c >> 6));
    Widened(c & 0x3F);
  }

  lemma Shifted(x: bv8)
    ensures (x >> 2) as int == x as int / 4 && (x >> 4) as int == x as int / 16 && (x >> 6) as int == x as int / 64
  {
  }

  lemma Masked(x: bv8)
    ensures ((x & 3) << 4) as int == x as int % 4 * 16
    ensures ((x & 15) << 2) as int == x as int % 16 * 4
    ensures (x & 0x3F) as int == x as int % 64
  {
    MaskedBelow(x);
  }

  lemma MaskedBelow(x: bv8)
    ensures (x & 3) as int == x as int % 4 && (x & 15) as int == x as int % 16
  {
  }

  lemma Widened(x: bv8)
    ensures x as bv32 as int == x as int
  {
  }

  lemma OrAddsBelow16(x: bv8, y: bv8)
    requires x & 15 == 0 && y < 16
    ensures (x | y) as int == x as int + y as int
  {
  }

  lemma OrAddsBelow4(x: bv8, y: bv8)
    requires x & 3 == 0 && y < 4
    ensures (x | y) as int == x as int + y as int
  {
  }

  lemma IntoOctets(n: bv32) returns (x: bv8, a: bv8, b: bv8, c: bv8)
    ensures n == SideBySide(x, a, b, c)
  {
    x, a, b, c := (n >> 24) as bv8, ((n >> 16) & 0xFF) as bv8, ((n >> 8) & 0xFF) as bv8, (n & 0xFF) as bv8;
  }

  /** The pieces of a word, from the octets it consists of. */
  lemma SixBitsAreDigits(n: bv32, x: bv8, a: bv8, b: bv8, c: bv8)
    requires n == SideBySide(x, a, b, c)
    ensures SixBits(n, 0) as int == a as int / 4 && SixBits(n, 1) as int == a as int % 4 * 16 + b as int / 16
    ensures SixBits(n, 2) as int == b as int % 16 * 4 + c as int / 64 && SixBits(n, 3) as int == c as int % 64
  {
    CutInOctets(x, a, b, c);
    PiecesAreDigits(a, b, c);
  }

  lemma InNumbers(n: bv32) returns (x: int, a: int, b: int, c: int)
    ensures Octet(x) && Octet(a) && Octet(b) && Octet(c)
    ensures n as int == x * 0x100_0000 + a * 0x1_0000 + b * 0x100 + c
    ensures SixBits(n, 0) as int == a / 4 && SixBits(n, 1) as int == a % 4 * 16 + b / 16
    ensures SixBits(n, 2) as int == b % 16 * 4 + c / 64 && SixBits(n, 3) as int == c % 64
  {
    var o, p, q, r := IntoOctets(n);
    OrsAdd(o, p, q, r);
    SixBitsAreDigits(n, o, p, q, r);
    x, a, b, c := o as int, p as int, q as int, r as int;
  }

  /** The weight of the i-th six bits from the top of the lower 24. */
  function Unit(i: nat): (unit: nat)
    ensures unit > 0
  {
    if i == 0 then 262144 else if i == 1 then 4096 else if i == 2 then 64 else 1
  }

  /** Shift and mask are quotient and remainder. */
  lemma SixBitsAreRemainders(n: bv32, i: nat)
    requires i < 4
    ensures SixBits(n, i) as int == n as int / Unit(i) % 64
  {
    var x, a, b, c := InNumbers(n);
    RemaindersAreDigits(n as int, x, a, b, c);
    assert i == 0 || i == 1 || i == 2 || i == 3;
  }

  lemma RemaindersAreDigits(n: int, x: int, a: int, b: int, c: int)
    requires Octet(x) && Octet(a) && Octet(b) && Octet(c)
    requires n == x * 0x100_0000 + a * 0x1_0000 + b * 0x100 + c
    ensures n / 262144 % 64 == a / 4 && n / 4096 % 64 == a % 4 * 16 + b / 16
    ensures n / 64 % 64 == b % 16 * 4 + c / 64 && n % 64 == c % 64
  {
    Cut(n, x, a / 4, a % 4 * 65536 + b * 256 + c, 262144);
    MiddleCut(n, x, a, b, c);
    LowerCut(n, x * 0x100_0000 + a * 0x1_0000, b, c);
  }

  lemma MiddleCut(n: int, x: int, a: int, b: int, c: int)
    requires Octet(a) && Octet(b) && Octet(c)
    requires n == x * 0x100_0000 + a * 0x1_0000 + b * 0x100 + c
    ensures n / 4096 % 64 == a % 4 * 16 + b / 16
  {
    Cut(n, x * 64 + a / 4, a % 4 * 16 + b / 16, b % 16 * 256 + c, 4096);
  }

  lemma LowerCut(n: int, above: int, b: int, c: int)
    requires Octet(b) && Octet(c) && above % 0x1_0000 == 0 && n == above + b * 0x100 + c
    ensures n / 64 % 64 == b % 16 * 4 + c / 64 && n % 64 == c % 64
  {
    Cut(n, above / 4096 + b / 16, b % 16 * 4 + c / 64, c % 64, 64);
  }

  /** The six bits above `unit`, given what is above and below them. */
  lemma Cut(n: int, above: int, bits: int, below: int, unit: int)
    requires 0 <= bits < 64 && 0 <= below < unit
    requires unit in {64, 4096, 262144}
    requires n == (above * 64 + bits) * unit + below
    ensures n / unit % 64 == bits
  {
    assert n / unit == above * 64 + bits;
  }
}
