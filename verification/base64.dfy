/** The hand-written base64 encoder behind Basic authentication, against section 4 of RFC 4648. */
module Base64 {
  import opened Prelude
  import opened MachineWords

  const UPPER := "ABCDEFGHIJKLMNOPQRSTUVWXYZ"
  const LOWER := "abcdefghijklmnopqrstuvwxyz"
  const DIGITS := "0123456789"
  const CHARSET := UPPER + LOWER + DIGITS + "+/"

  // ------------------------------------------------------------- the standard, group by group

  /** The character of a value (Table 1 of the RFC). */
  function Symbol(v: int): char
    requires 0 <= v < 64
  {
    if v < 26 then 'A' + v as char
    else if v < 52 then 'a' + (v - 26) as char
    else if v < 62 then '0' + (v - 52) as char
    else if v == 62 then '+'
    else '/'
  }

  /** One 24-bit group, short at the end: every symbol named by the bits it carries. */
  function Group(chunk: Bytes): string
    requires 1 <= |chunk| <= 3
  {
    var a := chunk[0] as int;
    var b := if |chunk| > 1 then chunk[1] as int else 0;
    var c := if |chunk| > 2 then chunk[2] as int else 0;
    [Symbol(a / 4),
     Symbol(a % 4 * 16 + b / 16),
     if |chunk| > 1 then Symbol(b % 16 * 4 + c / 64) else '=',
     if |chunk| > 2 then Symbol(c % 64) else '=']
  }

  function Encode(bytes: Bytes): string {
    if |bytes| == 0 then ""
    else if |bytes| <= 3 then Group(bytes)
    else Group(bytes[..3]) + Encode(bytes[3..])
  }

  /** The value of a character of the alphabet. */
  function ValueOf(c: char): Option<int> {
    if 'A' <= c <= 'Z' then Some(c as int - 'A' as int)
    else if 'a' <= c <= 'z' then Some(c as int - 'a' as int + 26)
    else if '0' <= c <= '9' then Some(c as int - '0' as int + 52)
    else if c == '+' then Some(62)
    else if c == '/' then Some(63)
    else None
  }

  /** A final quantum may be padded, with zero bits where the missing octets would be. */
  function DecodeLast(q: string): Option<Bytes>
    requires |q| == 4
  {
    var v, w := ValueOf(q[0]), ValueOf(q[1]);
    if v.None? || w.None? then None
    else
      var first := v.value * 4 + w.value / 16;
      if q[2] == '=' then
        if q[3] == '=' && w.value % 16 == 0 then Some([first as byte]) else None
      else
        var x := ValueOf(q[2]);
        if x.None? then None
        else
          var second := w.value % 16 * 16 + x.value / 4;
          if q[3] == '=' then
            if x.value % 4 == 0 then Some([first as byte, second as byte]) else None
          else
            var y := ValueOf(q[3]);
            if y.None? then None else Some([first as byte, second as byte, (x.value % 4 * 64 + y.value) as byte])
  }

  function Decode(s: string): Option<Bytes> {
    if |s| == 0 then Some([])
    else if |s| < 4 then None
    else if |s| == 4 then DecodeLast(s)
    else
      var group, rest := DecodeLast(s[..4]), Decode(s[4..]);
      if group.None? || '=' in s[..4] || rest.None? then None else Some(group.value + rest.value)
  }

  // ------------------------------------------------------------- the encoder

  method Base64Encode(input: Bytes) returns (result: string)
    ensures result == Encode(input)
  {
    result := "";
    var at := 0;
    assert input[0..] == input && "" + Encode(input) == Encode(input);
    while at < |input|
      invariant 0 <= at <= |input|
      invariant result + Encode(input[at..]) == Encode(input)
    {
      var end := Min(at + 3, |input|);
      var group := EncodeChunk(input[at..end]);
      EncodeChunkOff(input, at, end);
      assert result + (group + Encode(input[end..])) == (result + group) + Encode(input[end..]);
      result := result + group;
      at := end;
    }
    assert input[at..] == [] && result + "" == result;
  }

  lemma EncodeChunkOff(input: Bytes, at: nat, end: nat)
    requires at < |input| && end == Min(at + 3, |input|)
    ensures Encode(input[at..]) == Group(input[at..end]) + Encode(input[end..])
  {
    var left, k := input[at..], end - at;
    assert left[..k] == input[at..end];
    assert left[k..] == input[end..];
    EncodeGroup(left, k);
  }

  method EncodeChunk(chunk: Bytes) returns (group: string)
    requires 1 <= |chunk| <= 3
    ensures group == Group(chunk)
  {
    var n := Gather(chunk);
    Unpacked(chunk);
    group := "";
    for i := 0 to 4
      invariant |group| == i && group == Group(chunk)[..i]
    {
      if i <= |chunk| {
        var idx := Index(n, i);
        CharsetIsTheTable(idx);
        group := group + [CHARSET[idx]];
      } else {
        group := group + ['='];
      }
    }
  }

  /** The accumulator is a 32-bit word; the bytes or-ed in from the top make the number of the group. */
  method Gather(chunk: Bytes) returns (n: bv32)
    requires |chunk| <= 3
    ensures n as int == Packed(chunk)
  {
    n := 0;
    for i := 0 to |chunk|
      invariant ZeroBelow(n, i) && n as int == Packed(chunk[..i])
    {
      n := OrOctet(n, chunk[i] as int, i);
    }
    assert chunk[..|chunk|] == chunk;
  }

  /** Shift and mask: the i-th six bits of the number. */
  method Index(n: bv32, i: nat) returns (idx: int)
    requires i < 4
    ensures idx == n as int / Unit(i) % 64
  {
    SixBitsAreRemainders(n, i);
    idx := SixBits(n, i) as int;
  }

  function ByteAt(chunk: Bytes, i: nat): (b: int)
    ensures Octet(b)
  {
    if i < |chunk| then chunk[i] as int else 0
  }

  /** The 24-bit number the group stands for. */
  function Packed(chunk: Bytes): int {
    ByteAt(chunk, 0) * 0x1_0000 + ByteAt(chunk, 1) * 0x100 + ByteAt(chunk, 2)
  }

  /** Six-bit pieces of the accumulator are the symbols of the group. */
  lemma Unpacked(chunk: Bytes)
    requires 1 <= |chunk| <= 3
    ensures forall i :: 0 <= i < 4 && i <= |chunk| ==>
              Group(chunk)[i] == Symbol(Packed(chunk) / Unit(i) % 64)
  {
    RemaindersAreDigits(Packed(chunk), 0, ByteAt(chunk, 0), ByteAt(chunk, 1), ByteAt(chunk, 2));
  }

  lemma EncodeGroup(bytes: Bytes, k: nat)
    requires 1 <= k <= 3 && k <= |bytes| && (k == 3 || k == |bytes|)
    ensures Encode(bytes) == Group(bytes[..k]) + Encode(bytes[k..])
  {
    if k == |bytes| {
      assert bytes[..k] == bytes;
      assert Group(bytes) + "" == Group(bytes);
    }
  }

  // ------------------------------------------------------------- the alphabet

  lemma CharsetIsTheTable(v: int)
    requires 0 <= v < 64
    ensures CHARSET[v] == Symbol(v)
  {
    assert UPPER == seq(26, i requires 0 <= i < 26 => 'A' + i as char);
    assert LOWER == seq(26, i requires 0 <= i < 26 => 'a' + i as char);
    assert DIGITS == seq(10, i requires 0 <= i < 10 => '0' + i as char);
  }

  lemma SymbolValue(v: int)
    requires 0 <= v < 64
    ensures ValueOf(Symbol(v)) == Some(v) && Symbol(v) != '='
  {
  }

  lemma ValueSymbol(c: char)
    requires ValueOf(c).Some?
    ensures 0 <= ValueOf(c).value < 64 && Symbol(ValueOf(c).value) == c
  {
    SymbolValue(ValueOf(c).value);
  }

  // ------------------------------------------------------------- round trips

  /** Three bytes cut into four values, and put together again. */
  lemma CutAndJoin(a: int, b: int, c: int)
    requires 0 <= a < 256 && 0 <= b < 256 && 0 <= c < 256
    ensures a / 4 * 4 + (a % 4 * 16 + b / 16) / 16 == a
    ensures (a % 4 * 16 + b / 16) % 16 * 16 + (b % 16 * 4 + c / 64) / 4 == b
    ensures (b % 16 * 4 + c / 64) % 4 * 64 + c % 64 == c
  {
  }

  lemma JoinAndCut(v: int, w: int, x: int, y: int)
    requires 0 <= v < 64 && 0 <= w < 64 && 0 <= x < 64 && 0 <= y < 64
    ensures var a, b, c := v * 4 + w / 16, w % 16 * 16 + x / 4, x % 4 * 64 + y;
            && a < 256 && b < 256 && c < 256
            && a / 4 == v && a % 4 * 16 + b / 16 == w && b % 16 * 4 + c / 64 == x && c % 64 == y
  {
  }

  lemma GroupRoundTrip(chunk: Bytes)
    requires 1 <= |chunk| <= 3
    ensures DecodeLast(Group(chunk)) == Some(chunk)
  {
    if |chunk| == 1 {
      OneByte(chunk[0]);
      assert chunk == [chunk[0]];
    } else if |chunk| == 2 {
      TwoBytes(chunk[0], chunk[1]);
      assert chunk == [chunk[0], chunk[1]];
    } else {
      ThreeBytes(chunk[0], chunk[1], chunk[2]);
      assert chunk == [chunk[0], chunk[1], chunk[2]];
    }
  }

  lemma OneByte(a: byte)
    ensures DecodeLast(Group([a])) == Some([a])
  {
    var v := a as int;
    SymbolValue(v / 4);
    SymbolValue(v % 4 * 16);
    CutAndJoin(v, 0, 0);
  }

  lemma TwoBytes(a: byte, b: byte)
    ensures DecodeLast(Group([a, b])) == Some([a, b])
  {
    var v, w := a as int, b as int;
    SymbolValue(v / 4);
    SymbolValue(v % 4 * 16 + w / 16);
    SymbolValue(w % 16 * 4);
    CutAndJoin(v, w, 0);
  }

  lemma FourSymbols(p: int, q: int, r: int, s: int) returns (group: string)
    requires 0 <= p < 64 && 0 <= q < 64 && 0 <= r < 64 && 0 <= s < 64
    ensures group == [Symbol(p), Symbol(q), Symbol(r), Symbol(s)]
    ensures DecodeLast(group)
         == Some([(p * 4 + q / 16) as byte, (q % 16 * 16 + r / 4) as byte, (r % 4 * 64 + s) as byte])
  {
    group := [Symbol(p), Symbol(q), Symbol(r), Symbol(s)];
    SymbolValue(p);
    SymbolValue(q);
    SymbolValue(r);
    SymbolValue(s);
  }

  lemma ThreeBytes(a: byte, b: byte, c: byte)
    ensures DecodeLast(Group([a, b, c])) == Some([a, b, c])
  {
    var v, w, x := a as int, b as int, c as int;
    var group := FourSymbols(v / 4, v % 4 * 16 + w / 16, w % 16 * 4 + x / 64, x % 64);
    assert Group([a, b, c]) == group;
    CutAndJoin(v, w, x);
  }

  lemma GroupPadding(chunk: Bytes)
    requires 1 <= |chunk| <= 3
    ensures |Group(chunk)| == 4
    ensures forall i :: 0 <= i < 4 ==> (Group(chunk)[i] == '=' <==> i > |chunk|)
  {
    var group := Group(chunk);
    assert group[0] != '=' && group[1] != '=';
    assert group[2] == '=' <==> 2 > |chunk|;
    assert group[3] == '=' <==> 3 > |chunk|;
  }

  /** An accepted quantum is the group of what it decodes to; without padding that is three bytes. */
  lemma QuantumIsGroup(q: string)
    requires |q| == 4 && DecodeLast(q).Some?
    ensures 1 <= |DecodeLast(q).value| <= 3 && Group(DecodeLast(q).value) == q
    ensures '=' !in q ==> |DecodeLast(q).value| == 3
  {
    if q[2] == '=' {
      ShortestQuantum(q);
    } else if q[3] == '=' {
      ShortQuantum(q);
    } else {
      FullQuantum(q);
    }
  }

  lemma ShortestQuantum(q: string)
    requires |q| == 4 && q[2] == '=' && DecodeLast(q).Some?
    ensures |DecodeLast(q).value| == 1 && Group(DecodeLast(q).value) == q
  {
    ValueSymbol(q[0]);
    ValueSymbol(q[1]);
    OneOctet(ValueOf(q[0]).value, ValueOf(q[1]).value);
    assert q == [q[0], q[1], '=', '='];
  }

  lemma ShortQuantum(q: string)
    requires |q| == 4 && q[2] != '=' && q[3] == '=' && DecodeLast(q).Some?
    ensures |DecodeLast(q).value| == 2 && Group(DecodeLast(q).value) == q
  {
    ValueSymbol(q[0]);
    ValueSymbol(q[1]);
    ValueSymbol(q[2]);
    TwoOctets(ValueOf(q[0]).value, ValueOf(q[1]).value, ValueOf(q[2]).value);
    assert q == [q[0], q[1], q[2], '='];
  }

  lemma FullQuantum(q: string)
    requires |q| == 4 && q[2] != '=' && q[3] != '=' && DecodeLast(q).Some?
    ensures |DecodeLast(q).value| == 3 && Group(DecodeLast(q).value) == q
  {
    ValueSymbol(q[0]);
    ValueSymbol(q[1]);
    ValueSymbol(q[2]);
    ValueSymbol(q[3]);
    ThreeOctets(ValueOf(q[0]).value, ValueOf(q[1]).value, ValueOf(q[2]).value, ValueOf(q[3]).value);
    assert q == [q[0], q[1], q[2], q[3]];
  }

  lemma OneOctet(v: int, w: int)
    requires 0 <= v < 64 && 0 <= w < 64 && w % 16 == 0
    ensures v * 4 + w / 16 < 256 && Group([(v * 4 + w / 16) as byte]) == [Symbol(v), Symbol(w), '=', '=']
  {
    JoinAndCut(v, w, 0, 0);
  }

  lemma TwoOctets(v: int, w: int, x: int)
    requires 0 <= v < 64 && 0 <= w < 64 && 0 <= x < 64 && x % 4 == 0
    ensures v * 4 + w / 16 < 256 && w % 16 * 16 + x / 4 < 256
    ensures Group([(v * 4 + w / 16) as byte, (w % 16 * 16 + x / 4) as byte]) == [Symbol(v), Symbol(w), Symbol(x), '=']
  {
    JoinAndCut(v, w, x, 0);
  }

  lemma ThreeOctets(v: int, w: int, x: int, y: int)
    requires 0 <= v < 64 && 0 <= w < 64 && 0 <= x < 64 && 0 <= y < 64
    ensures v * 4 + w / 16 < 256 && w % 16 * 16 + x / 4 < 256 && x % 4 * 64 + y < 256
    ensures Group([(v * 4 + w / 16) as byte, (w % 16 * 16 + x / 4) as byte, (x % 4 * 64 + y) as byte])
            == [Symbol(v), Symbol(w), Symbol(x), Symbol(y)]
  {
    JoinAndCut(v, w, x, y);
  }

  /** What is encoded decodes to itself. */
  lemma {:induction false} EncodeThenDecode(bytes: Bytes)
    ensures Decode(Encode(bytes)) == Some(bytes)
    decreases |bytes|
  {
    if 0 < |bytes| <= 3 {
      GroupRoundTrip(bytes);
    } else if |bytes| > 3 {
      var group, rest := Group(bytes[..3]), Encode(bytes[3..]);
      GroupRoundTrip(bytes[..3]);
      EncodeThenDecode(bytes[3..]);
      Shape(bytes[3..]);
      assert Encode(bytes)[..4] == group && Encode(bytes)[4..] == rest;
      assert bytes == bytes[..3] + bytes[3..];
    }
  }

  /** And the standard's strict decoder accepts nothing but encodings. */
  lemma {:induction false} DecodeThenEncode(s: string)
    requires Decode(s).Some?
    ensures Encode(Decode(s).value) == s
    decreases |s|
  {
    if |s| == 4 {
      QuantumIsGroup(s);
    } else if |s| > 4 {
      QuantumIsGroup(s[..4]);
      DecodeThenEncode(s[4..]);
      var group, rest := DecodeLast(s[..4]).value, Decode(s[4..]).value;
      assert (group + rest)[..3] == group && (group + rest)[3..] == rest;
      assert rest != [];
      assert s == s[..4] + s[4..];
    }
  }

  /** Encoding and decoding are inverse bijections between byte strings and accepted texts. */
  lemma {:induction false} EncodeExactly(bytes: Bytes, s: string)
    ensures s == Encode(bytes) <==> Decode(s) == Some(bytes)
  {
    EncodeThenDecode(bytes);
    if Decode(s) == Some(bytes) {
      DecodeThenEncode(s);
    }
  }

  function Padding(n: nat): nat {
    (3 - n % 3) % 3
  }

  /** Length and padding: whole quanta, with the signs that are missing to a multiple of three, all at the end. */
  lemma {:induction false} Shape(bytes: Bytes)
    ensures |Encode(bytes)| == 4 * ((|bytes| + 2) / 3)
    ensures forall i :: 0 <= i < |Encode(bytes)| ==>
              (Encode(bytes)[i] == '=' <==> i >= |Encode(bytes)| - Padding(|bytes|))
    decreases |bytes|
  {
    if 0 < |bytes| <= 3 {
      GroupPadding(bytes);
    } else if |bytes| > 3 {
      GroupPadding(bytes[..3]);
      Shape(bytes[3..]);
      SamePadding(|bytes|);
      var group, rest := Group(bytes[..3]), Encode(bytes[3..]);
      assert forall i :: 0 <= i < |group + rest| ==> (group + rest)[i] == if i < 4 then group[i] else rest[i - 4];
    }
  }

  lemma SamePadding(n: nat)
    requires n >= 3
    ensures Padding(n - 3) == Padding(n) && (n - 3 + 2) / 3 + 1 == (n + 2) / 3
  {
  }
}
