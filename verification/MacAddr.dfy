/** macaddr.cpp and the printer it uses from common.cpp: MAC addresses as text, as six bytes and as a
    number of 64 bits. */
module MacAddr {
  import opened Sequences

  const MAC_ADDR_LEN := 6
  const BITS_48 := 0x1_0000_0000_0000
  const BITS_64 := 0x1_0000_0000_0000_0000
  const BITS_32 := 0x1_0000_0000

  type Uchar = n: nat | n < 256
  type Uint64 = n: nat | n < 0x1_0000_0000_0000_0000
  type Int32 = n: int | -0x8000_0000 <= n < 0x8000_0000

  // ---------------------------------------------------------------------------------------------
  // Hexadecimal digits.
  // ---------------------------------------------------------------------------------------------

  predicate IsHex(c: char) {
    '0' <= c <= '9' || 'A' <= c <= 'F' || 'a' <= c <= 'f'
  }

  function HexValue(c: char): (n: nat)
    requires IsHex(c)
    ensures n < 16
  {
    if c <= '9' then c as int - '0' as int
    else if c <= 'F' then c as int - 'A' as int + 10
    else c as int - 'a' as int + 10
  }

  function HexDigit(n: nat): (c: char)
    requires n < 16
    ensures IsHex(c) && HexValue(c) == n
  {
    "0123456789ABCDEF"[n]
  }

  function Upper(c: char): char {
    if 'a' <= c <= 'z' then (c as int - 32) as char else c
  }

  lemma DigitOfValue(c: char)
    requires IsHex(c)
    ensures HexDigit(HexValue(c)) == Upper(c)
  {
    var n := HexValue(c);
    assert n < 10 ==> HexDigit(n) as int == '0' as int + n;
    assert 10 <= n ==> HexDigit(n) as int == 'A' as int + n - 10;
  }

  /** The two digits of a byte. */
  function Hex2(b: Uchar): (s: string)
    ensures |s| == 2
  {
    [HexDigit(b / 16), HexDigit(b % 16)]
  }

  function Byte2(s: string): Uchar
    requires |s| == 2 && IsHex(s[0]) && IsHex(s[1])
  {
    HexValue(s[0]) * 16 + HexValue(s[1])
  }

  // ---------------------------------------------------------------------------------------------
  // Bytes and numbers.
  // ---------------------------------------------------------------------------------------------

  /** The number that bytes stand for, first byte highest. */
  function Value(bytes: seq<Uchar>): nat
    decreases bytes
  {
    if bytes == [] then 0 else Value(bytes[..|bytes| - 1]) * 256 + bytes[|bytes| - 1]
  }

  /** The n low bytes of a number, highest first. */
  function LowBytes(v: nat, n: nat): (bytes: seq<Uchar>)
    ensures |bytes| == n
    decreases n
  {
    if n == 0 then [] else LowBytes(v / 256, n - 1) + [v % 256]
  }

  function Rest(v: nat, n: nat): nat
    decreases n
  {
    if n == 0 then v else Rest(v / 256, n - 1)
  }

  function Power(n: nat): (p: nat)
    ensures p > 0
  {
    if n == 0 then 1 else 256 * Power(n - 1)
  }

  lemma {:induction false} LowBytesAndRest(v: nat, n: nat)
    ensures v == Value(LowBytes(v, n)) + Power(n) * Rest(v, n) && Value(LowBytes(v, n)) < Power(n)
    decreases n
  {
    if n > 0 {
      LowBytesAndRest(v / 256, n - 1);
      var low := LowBytes(v / 256, n - 1);
      assert LowBytes(v, n)[..n - 1] == low;
      OneMoreDigit(v, Value(low), Power(n - 1), Rest(v, n));
    }
  }

  lemma OneMoreDigit(v: nat, low: nat, p: nat, rest: nat)
    requires v / 256 == low + p * rest && low < p
    ensures v == low * 256 + v % 256 + (256 * p) * rest && low * 256 + v % 256 < 256 * p
  {
    assert 256 * (p * rest) == (256 * p) * rest;
  }

  lemma PowerSix()
    ensures Power(6) == BITS_48
  {
    assert Power(6) == 256 * (256 * (256 * Power(3)));
  }

  /** Six bytes of a number keep it modulo 2 to the 48. */
  lemma SixBytesOf(v: nat)
    ensures Value(LowBytes(v, 6)) == v % BITS_48
  {
    hide Value, LowBytes, Power, Rest;
    LowBytesAndRest(v, 6);
    PowerSix();
    ModuloOfSum(Value(LowBytes(v, 6)), Rest(v, 6));
  }

  lemma ModuloOfSum(a: int, q: int)
    ensures (a + BITS_48 * q) % BITS_48 == a % BITS_48
  {
    var d, r := a / BITS_48, a % BITS_48;
    assert a + BITS_48 * q == BITS_48 * (d + q) + r;
  }

  lemma {:induction false} BytesOfValue(bytes: seq<Uchar>)
    ensures LowBytes(Value(bytes), |bytes|) == bytes
    decreases bytes
  {
    if bytes != [] {
      BytesOfValue(bytes[..|bytes| - 1]);
    }
  }

  lemma {:induction false} ValueBound(bytes: seq<Uchar>)
    ensures Value(bytes) < Power(|bytes|)
    decreases bytes
  {
    if bytes != [] {
      ValueBound(bytes[..|bytes| - 1]);
    }
  }

  /** The union of eight bytes and a quint64 on a little-endian machine. */
  function Little(a: seq<Uchar>): nat
    decreases a
  {
    if a == [] then 0 else a[0] + 256 * Little(a[1..])
  }

  lemma {:induction false} LittleOfReverse(bytes: seq<Uchar>)
    ensures Little(Reverse(bytes)) == Value(bytes)
    decreases bytes
  {
    if bytes != [] {
      assert Reverse(bytes)[1..] == Reverse(bytes[..|bytes| - 1]);
      LittleOfReverse(bytes[..|bytes| - 1]);
    }
  }

  lemma {:induction false} LittleWithZeros(a: seq<Uchar>, n: nat)
    ensures Little(a + seq(n, i => 0)) == Little(a)
    decreases |a|, n
  {
    if a != [] {
      assert (a + seq(n, i => 0))[1..] == a[1..] + seq(n, i => 0);
      LittleWithZeros(a[1..], n);
    } else if n > 0 {
      assert (a + seq(n, i => 0))[1..] == a + seq(n - 1, i => 0);
      LittleWithZeros(a, n - 1);
    }
  }

  /** Byte i of the union. */
  function UnionByte(v: nat, i: nat): Uchar
    decreases i
  {
    if i == 0 then v % 256 else UnionByte(v / 256, i - 1)
  }

  lemma {:induction false} OneMoreByte(v: nat, n: nat)
    ensures LowBytes(v, n + 1) == [UnionByte(v, n)] + LowBytes(v, n)
    decreases n
  {
    if n > 0 {
      OneMoreByte(v / 256, n - 1);
    }
  }

  /** fromBigEndian, for the six bytes of an address. */
  method FromBigEndian(bytes: seq<Uchar>) returns (v: Uint64)
    requires |bytes| == MAC_ADDR_LEN
    ensures v == Value(bytes)
  {
    var a: seq<Uchar> := seq(8, i => 0);
    for i := 0 to MAC_ADDR_LEN
      invariant |a| == 8 && a[..i] == Reverse(bytes)[..i] && forall j :: i <= j < 8 ==> a[j] == 0
    {
      a := a[i := bytes[|bytes| - i - 1]];
    }
    assert a == Reverse(bytes) + seq(2, i => 0);
    LittleWithZeros(Reverse(bytes), 2);
    LittleOfReverse(bytes);
    ValueBound(bytes);
    PowerSix();
    v := Little(a);
  }

  /** toLittleEndian: the union's bytes from the lowest on, each put in front of those before. */
  method ToLittleEndian(v: Uint64) returns (bytes: seq<Uchar>)
    ensures bytes == LowBytes(v, MAC_ADDR_LEN)
  {
    bytes := [];
    for i := 0 to MAC_ADDR_LEN
      invariant bytes == LowBytes(v, i)
    {
      OneMoreByte(v, i);
      bytes := [UnionByte(v, i)] + bytes;
    }
  }

  // ---------------------------------------------------------------------------------------------
  // The printer.
  // ---------------------------------------------------------------------------------------------

  function Hex(bytes: seq<Uchar>): (s: string)
    ensures |s| == 2 * |bytes|
  {
    if bytes == [] then "" else Hex2(bytes[0]) + Hex(bytes[1..])
  }

  /** Two digits and a space for each byte. */
  function Spaced(bytes: seq<Uchar>): (s: string)
    ensures |s| == 3 * |bytes|
  {
    if bytes == [] then "" else Hex2(bytes[0]) + " " + Spaced(bytes[1..])
  }

  lemma {:induction false} SpacedWith(bytes: seq<Uchar>, b: Uchar)
    ensures Spaced(bytes + [b]) == Spaced(bytes) + Hex2(b) + " "
    decreases bytes
  {
    if bytes == [] {
      assert bytes + [b] == [b] && Spaced([b]) == Hex2(b) + " " + Spaced([]);
    } else {
      assert (bytes + [b])[1..] == bytes[1..] + [b];
      SpacedWith(bytes[1..], b);
    }
  }

  /** What stands where in the text of some bytes. */
  lemma {:induction false} SpacedAt(bytes: seq<Uchar>, i: nat)
    requires i < |bytes|
    ensures Spaced(bytes)[3 * i] == "0123456789ABCDEF"[bytes[i] / 16]
    ensures Spaced(bytes)[3 * i + 1] == "0123456789ABCDEF"[bytes[i] % 16] && Spaced(bytes)[3 * i + 2] == ' '
    decreases bytes
  {
    hide Hex2;
    var s, t := Hex2(bytes[0]) + " ", Spaced(bytes[1..]);
    assert Spaced(bytes) == s + t;
    if i > 0 {
      SpacedAt(bytes[1..], i - 1);
      assert Spaced(bytes)[3 * i] == t[3 * (i - 1)] && Spaced(bytes)[3 * i + 1] == t[3 * (i - 1) + 1];
    } else {
      DigitsOfByte(bytes[0]);
    }
  }

  lemma DigitsOfByte(b: Uchar)
    ensures Hex2(b)[0] == "0123456789ABCDEF"[b / 16] && Hex2(b)[1] == "0123456789ABCDEF"[b % 16]
  {
  }

  /** cm_ByteArrayToHexStr: the digits of all bytes, and then spaces pushed in between. */
  method ByteArrayToHexStr(bytes: seq<Uchar>) returns (str: string)
    ensures str == Spaced(bytes)
  {
    hide Hex2;
    str := Hex(bytes);
    for i := 0 to |bytes|
      invariant str == Spaced(bytes[..i]) + Hex(bytes[i..])
    {
      var k := 2 + 3 * i;
      assert bytes[..i + 1] == bytes[..i] + [bytes[i]] && bytes[i..][1..] == bytes[i + 1..];
      SpacedWith(bytes[..i], bytes[i]);
      assert str == Spaced(bytes[..i]) + Hex2(bytes[i]) + Hex(bytes[i + 1..]);
      str := str[..k] + " " + str[k..];
    }
    assert bytes[..|bytes|] == bytes;
  }

  /** The digits of the bytes with a dash between each two. */
  function Dashed(bytes: seq<Uchar>): (s: string)
    requires bytes != []
    ensures |s| == 3 * |bytes| - 1
  {
    if |bytes| == 1 then Hex2(bytes[0]) else Hex2(bytes[0]) + "-" + Dashed(bytes[1..])
  }

  function Replaced(s: string, a: char, b: char): (r: string)
    ensures |r| == |s|
  {
    seq(|s|, i requires 0 <= i < |s| => if s[i] == a then b else s[i])
  }

  lemma ReplacedParts(s: string, t: string, a: char, b: char)
    ensures Replaced(s + t, a, b) == Replaced(s, a, b) + Replaced(t, a, b)
  {
  }

  lemma HexHasNoSpace(b: Uchar)
    ensures Replaced(Hex2(b), ' ', '-') == Hex2(b)
  {
  }

  lemma {:induction false} SpacesToDashes(bytes: seq<Uchar>)
    requires bytes != []
    ensures Replaced(Spaced(bytes)[..3 * |bytes| - 1], ' ', '-') == Dashed(bytes)
    decreases bytes
  {
    hide Hex2, Replaced;
    var n := 3 * |bytes| - 1;
    HexHasNoSpace(bytes[0]);
    if |bytes| == 1 {
      assert Spaced(bytes)[..2] == Hex2(bytes[0]);
    } else {
      SpacesToDashes(bytes[1..]);
      assert Spaced(bytes)[..n] == Hex2(bytes[0]) + " " + Spaced(bytes[1..])[..n - 3];
      ReplacedParts(Hex2(bytes[0]) + " ", Spaced(bytes[1..])[..n - 3], ' ', '-');
      ReplacedParts(Hex2(bytes[0]), " ", ' ', '-');
      SpaceToDash();
    }
  }

  lemma SpaceToDash()
    ensures Replaced(" ", ' ', '-') == "-"
  {
  }

  /** intToMac */
  function Printed(v: nat): (s: string)
    ensures |s| == 17
  {
    Dashed(LowBytes(v, 6))
  }

  method IntToMac(v: Uint64) returns (mac: string)
    ensures mac == Printed(v)
  {
    var bytes := ToLittleEndian(v);
    var str := ByteArrayToHexStr(bytes);
    SpacesToDashes(bytes);
    mac := Replaced(str[..|str| - 1], ' ', '-');
  }

  // ---------------------------------------------------------------------------------------------
  // The parser.
  // ---------------------------------------------------------------------------------------------

  /** isMacAddress: any of three separators. */
  predicate IsMacAddress(s: string) {
    && |s| == 17
    && forall i :: 0 <= i < 17 ==> if i % 3 == 2 then s[i] == '-' || s[i] == ',' || s[i] == ':' else IsHex(s[i])
  }

  /** An address with dashes only. */
  predicate IsDashed(s: string) {
    IsMacAddress(s) && forall i :: 0 <= i < 5 ==> s[3 * i + 2] == '-'
  }

  function ByteAt(s: string, i: nat): Uchar
    requires IsMacAddress(s) && i < 6
  {
    Byte2(s[3 * i..3 * i + 2])
  }

  function Bytes(s: string): (bytes: seq<Uchar>)
    requires IsMacAddress(s)
    ensures |bytes| == 6
  {
    seq(6, i requires 0 <= i < 6 => ByteAt(s, i))
  }

  /** indexOf for one character; -1 if there is none. */
  function IndexOf(s: string, c: char, from: nat): (i: int)
    ensures i == -1 || (from <= i < |s| && s[i] == c)
    ensures forall j :: from <= j < |s| && (i == -1 || j < i) ==> s[j] != c
    decreases |s| - from
  {
    if from >= |s| then -1 else if s[from] == c then from else IndexOf(s, c, from + 1)
  }

  /** The next dash after the separator before group i, in the eight bits the code keeps of it. */
  lemma NextDash(s: string, i: nat, now: nat)
    requires IsMacAddress(s) && i < 5 && now == if i == 0 then 0 else 3 * i - 1
    ensures
      var next := IndexOf(s, '-', now + 1) % 256;
      if s[3 * i + 2] == '-' then next == 3 * i + 2 else next - now > 3
  {
    var next := IndexOf(s, '-', now + 1);
    assert s[3 * i] != '-' && s[3 * i + 1] != '-';
    if s[3 * i + 2] != '-' && next != -1 {
      assert next != 3 * i + 3 && next != 3 * i + 4 by {
        assert IsHex(s[3 * i + 3]) && IsHex(s[3 * i + 4]);
      }
    }
  }

  lemma Group(s: string, i: nat)
    requires IsMacAddress(s) && i < 6
    ensures |s| == 17 && IsHex(s[3 * i]) && IsHex(s[3 * i + 1])
    ensures Bytes(s)[..i + 1] == Bytes(s)[..i] + [ByteAt(s, i)]
  {
    hide IsHex, HexValue;
  }

  /** get_mac_array_from_QString.  It looks for dashes only, and gives up without any byte at the
      first other separator. */
  method GetMacArray(s: string) returns (bytes: seq<Uchar>)
    requires IsMacAddress(s)
    ensures bytes == if IsDashed(s) then Bytes(s) else []
  {
    hide IsHex, HexValue, IsMacAddress, Bytes;
    Group(s, 0);
    var out: seq<Uchar> := [];
    var next, now := 0, 0;
    for i := 0 to 6
      invariant out == Bytes(s)[..i] && now == next == (if i == 0 then 0 else if i == 6 then 17 else 3 * i - 1)
      invariant forall j :: 0 <= j < i && j < 5 ==> s[3 * j + 2] == '-'
    {
      Group(s, i);
      if i < 5 {
        NextDash(s, i, now);
      }
      next := if i != 5 then IndexOf(s, '-', next + 1) % 256 else |s| % 256;
      if next - now > 0 && next - now <= 3 {
        var start := if i == 0 then now else now + 1;
        var len := if i == 0 then next else next - now - 1;
        assert s[start..start + len] == s[3 * i..3 * i + 2];
        out := out + [Byte2(s[start..start + len])];
        now := next;
      } else {
        return [];
      }
    }
    bytes := out;
  }

  /** What macToInt makes of a string that is an address with dashes, or no address. */
  function Number(s: string): (v: nat)
    requires IsMacAddress(s) ==> IsDashed(s)
  {
    if IsMacAddress(s) then Value(Bytes(s)) else 0
  }

  method MacToInt(s: string) returns (v: Uint64)
    requires IsMacAddress(s) ==> IsDashed(s)
    ensures v == Number(s) && v < BITS_48
  {
    v := 0;
    if IsMacAddress(s) {
      var bytes := GetMacArray(s);
      v := FromBigEndian(bytes);
      ValueBound(bytes);
      PowerSix();
    }
  }

  // ---------------------------------------------------------------------------------------------
  // Printing and parsing undo each other.
  // ---------------------------------------------------------------------------------------------

  lemma {:induction false} DashedAt(bytes: seq<Uchar>, i: nat)
    requires i < |bytes|
    ensures Dashed(bytes)[3 * i] == Hex2(bytes[i])[0] && Dashed(bytes)[3 * i + 1] == Hex2(bytes[i])[1]
    ensures i + 1 < |bytes| ==> Dashed(bytes)[3 * i + 2] == '-'
    decreases bytes
  {
    hide Hex2;
    if i > 0 {
      DashedAt(bytes[1..], i - 1);
    }
  }

  lemma DashedParses(bytes: seq<Uchar>)
    requires |bytes| == 6
    ensures IsDashed(Dashed(bytes)) && Bytes(Dashed(bytes)) == bytes
  {
    hide HexDigit, HexValue, IsHex;
    var s := Dashed(bytes);
    forall i: nat | i < 6
      ensures IsHex(s[3 * i]) && IsHex(s[3 * i + 1]) && (i < 5 ==> s[3 * i + 2] == '-')
      ensures HexValue(s[3 * i]) == bytes[i] / 16 && HexValue(s[3 * i + 1]) == bytes[i] % 16
    {
      DashedAt(bytes, i);
    }
    forall i: nat | i < 17
      ensures if i % 3 == 2 then s[i] == '-' else IsHex(s[i])
    {
      assert i == 3 * (i / 3) + i % 3;
    }
  }

  /** Parsing a printed number gives the number back, modulo 2 to the 48. */
  lemma NumberOfPrinted(v: nat)
    ensures IsDashed(Printed(v)) && Number(Printed(v)) == v % BITS_48
  {
    DashedParses(LowBytes(v, 6));
    SixBytesOf(v);
  }

  /** The number of an address is that of its six pairs of digits, the first highest. */
  lemma NumberByDigits(s: string)
    requires IsDashed(s)
    ensures Number(s) ==
            0x100_0000_0000 * PairAt(s, 0) + 0x1_0000_0000 * PairAt(s, 1) + 0x100_0000 * PairAt(s, 2) +
            0x1_0000 * PairAt(s, 3) + 0x100 * PairAt(s, 4) + PairAt(s, 5)
  {
    hide PairAt, ByteAt, IsMacAddress;
    ValueOfSix(Bytes(s));
    PairIsByte(s, 0);
    PairIsByte(s, 1);
    PairIsByte(s, 2);
    PairIsByte(s, 3);
    PairIsByte(s, 4);
    PairIsByte(s, 5);
  }

  lemma PairIsByte(s: string, i: nat)
    requires IsDashed(s) && i < 6
    ensures Bytes(s)[i] == PairAt(s, i)
  {
    hide HexValue;
  }

  lemma ValueNext(b: seq<Uchar>, n: nat)
    requires n < |b|
    ensures Value(b[..n + 1]) == Value(b[..n]) * 256 + b[n]
  {
    assert b[..n + 1][..n] == b[..n];
  }

  lemma ValueOfSix(b: seq<Uchar>)
    requires |b| == 6
    ensures
      var b0: nat, b1: nat, b2: nat, b3: nat, b4: nat, b5: nat := b[0], b[1], b[2], b[3], b[4], b[5];
      Value(b) == 0x100_0000_0000 * b0 + 0x1_0000_0000 * b1 + 0x100_0000 * b2 + 0x1_0000 * b3 + 0x100 * b4 + b5
  {
    hide Value;
    ValueNext(b, 0);
    ValueNext(b, 1);
    ValueNext(b, 2);
    ValueNext(b, 3);
    ValueNext(b, 4);
    ValueNext(b, 5);
    ValueOfNothing();
    assert b[..0] == [] && b[..6] == b;
  }

  lemma ValueOfNothing()
    ensures Value([]) == 0
  {
  }

  /** Two digits from place 3 * i on. */
  function PairAt(s: string, i: nat): nat
    requires IsDashed(s) && i < 6
  {
    16 * PlaceOf(s[3 * i]) + PlaceOf(s[3 * i + 1])
  }

  /** The place of a digit, small or capital, among 0 to F. */
  function PlaceOf(c: char): (n: nat)
    requires IsHex(c)
    ensures n < 16 && "0123456789ABCDEF"[n] == Upper(c)
  {
    DigitOfValue(c);
    HexValue(c)
  }

  function UpperCase(s: string): (u: string)
    ensures |u| == |s|
  {
    seq(|s|, i requires 0 <= i < |s| => Upper(s[i]))
  }

  /** Printing a parsed address gives the address back, in capitals. */
  lemma PrintedNumber(s: string)
    requires IsDashed(s)
    ensures Printed(Number(s)) == UpperCase(s)
  {
    hide HexDigit, HexValue, IsHex, Upper, Dashed, LowBytes, Value;
    var bytes := Bytes(s);
    BytesOfValue(bytes);
    forall i: nat | i < 6
      ensures Dashed(bytes)[3 * i] == Upper(s[3 * i]) && Dashed(bytes)[3 * i + 1] == Upper(s[3 * i + 1])
      ensures i < 5 ==> Dashed(bytes)[3 * i + 2] == s[3 * i + 2]
    {
      DashedAt(bytes, i);
      DigitOfValue(s[3 * i]);
      DigitOfValue(s[3 * i + 1]);
    }
    forall i: nat | i < 17
      ensures Dashed(bytes)[i] == UpperCase(s)[i]
    {
      assert i == 3 * (i / 3) + i % 3;
      UpperDash();
    }
  }

  lemma UpperDash()
    ensures Upper('-') == '-'
  {
  }

  // ---------------------------------------------------------------------------------------------
  // Counting on from an address, with colons or dashes.
  // ---------------------------------------------------------------------------------------------

  function WithDashes(s: string): (r: string)
    ensures |r| == |s|
  {
    Replaced(s, ':', '-')
  }

  function WithColons(s: string): (r: string)
    ensures |r| == |s|
  {
    Replaced(s, '-', ':')
  }

  /** No address, or one without a comma. */
  predicate Readable(s: string) {
    IsMacAddress(WithDashes(s)) ==> IsDashed(WithDashes(s))
  }

  function NumberOf(s: string): nat
    requires Readable(s)
  {
    Number(WithDashes(s))
  }

  /** What macAdd returns: the number before it is printed has 64 bits, and zero is not printed. */
  function Added(s: string, step: Int32): string
    requires Readable(s)
  {
    var mac := (NumberOf(s) + step) % BITS_64;
    WithColons(if mac > 0 then Printed(mac) else WithDashes(s))
  }

  method MacAdd(s: string, step: Int32) returns (r: string)
    requires Readable(s)
    ensures r == Added(s, step)
  {
    hide Printed, Number, Replaced, IsMacAddress, IsDashed;
    r := Replaced(s, ':', '-');
    var n := MacToInt(r);
    var mac := (n + step) % BITS_64;
    if mac > 0 {
      r := IntToMac(mac);
    }
    r := Replaced(r, '-', ':');
  }

  /** An unsigned difference cut to an int. */
  function ToInt32(n: int): Int32 {
    var low := n % BITS_32;
    if low < 0x8000_0000 then low else low - BITS_32
  }

  function Count(start: string, end: string): Int32
    requires Readable(start) && Readable(end)
  {
    ToInt32((NumberOf(end) - NumberOf(start)) % BITS_64)
  }

  method MacCnt(start: string, end: string) returns (ret: Int32)
    requires Readable(start) && Readable(end)
    ensures ret == Count(start, end)
  {
    var res := MacToInt(Replaced(start, ':', '-'));
    var other := MacToInt(Replaced(end, ':', '-'));
    ret := ToInt32((other - res) % BITS_64);
  }

  /** Dashes written as colons are read as dashes. */
  lemma ColonsAndBack(s: string)
    requires forall i :: 0 <= i < |s| ==> s[i] != ':'
    ensures WithDashes(WithColons(s)) == s
  {
  }

  lemma PrintedHasNoColon(v: nat)
    ensures forall i :: 0 <= i < 17 ==> Printed(v)[i] != ':'
  {
    hide Printed;
    NumberOfPrinted(v);
    var s := Printed(v);
    forall i: nat | i < 17
      ensures s[i] != ':'
    {
      assert i == 3 * (i / 3) + i % 3;
      if i % 3 == 2 {
        assert s[3 * (i / 3) + 2] == '-';
      }
    }
  }

  /** The number of what macAdd returns. */
  lemma NumberOfAdded(s: string, step: Int32)
    requires Readable(s)
    ensures Readable(Added(s, step))
    ensures NumberOf(Added(s, step)) == if NumberOf(s) + step == 0 then NumberOf(s) else (NumberOf(s) + step) % BITS_48
  {
    hide Printed, Number, IsMacAddress, Replaced;
    NumberIsSmall(WithDashes(s));
    var mac := (NumberOf(s) + step) % BITS_64;
    if mac > 0 {
      NumberOfPrinted(mac);
      PrintedHasNoColon(mac);
      ColonsAndBack(Printed(mac));
      ModuloTwice(NumberOf(s) + step);
    } else {
      DashesHaveNoColon(s);
      ColonsAndBack(WithDashes(s));
    }
  }

  lemma DashesHaveNoColon(s: string)
    ensures forall i :: 0 <= i < |s| ==> WithDashes(s)[i] != ':'
  {
  }

  lemma NumberIsSmall(s: string)
    requires IsMacAddress(s) ==> IsDashed(s)
    ensures Number(s) < BITS_48
  {
    if IsMacAddress(s) {
      ValueBound(Bytes(s));
      PowerSix();
    }
  }

  /** macCnt counts the steps of macAdd, for every address and every step but the one that would
      reach zero: there macAdd returns the address it was given. */
  lemma CountOfAdded(s: string, step: Int32)
    requires Readable(s)
    ensures Readable(Added(s, step))
    ensures Count(s, Added(s, step)) == step <==> NumberOf(s) + step != 0 || step == 0
  {
    hide NumberOf, Added, Readable;
    NumberOfAdded(s, step);
    SmallNumberOf(s);
    WrapsAway(NumberOf(s), step);
  }

  lemma SmallNumberOf(s: string)
    requires Readable(s)
    ensures NumberOf(s) < BITS_48
  {
    NumberIsSmall(WithDashes(s));
  }

  lemma ModuloOfSum32(a: int, q: int)
    ensures (a + BITS_32 * q) % BITS_32 == a % BITS_32
  {
    var d, r := a / BITS_32, a % BITS_32;
    assert a + BITS_32 * q == BITS_32 * (d + q) + r;
  }

  lemma WrapsAway(x: nat, step: Int32)
    requires x < BITS_48
    ensures ToInt32(((x + step) % BITS_48 - x) % BITS_64) == step
    ensures ToInt32((x - x) % BITS_64) == 0
  {
    var y := (x + step) % BITS_48;
    assert y == if x + step < 0 then x + step + BITS_48 else if x + step >= BITS_48 then x + step - BITS_48
        else x + step;
    var d := (y - x) % BITS_64;
    assert d == if y < x then y - x + BITS_64 else y - x;
    ModuloOfSum32(step, (d - step) / BITS_32);
    assert d == step + BITS_32 * ((d - step) / BITS_32);
    StepOfLow(step);
  }

  lemma StepOfLow(step: Int32)
    ensures ToInt32(step) == step
  {
  }

  /** The six bytes that are printed do not depend on anything above 48 bits. */
  lemma PrintedModulo(v: nat, w: nat)
    requires v % BITS_48 == w % BITS_48
    ensures Printed(v) == Printed(w)
  {
    SixBytesOf(v);
    SixBytesOf(w);
    BytesOfValue(LowBytes(v, 6));
    BytesOfValue(LowBytes(w, 6));
  }

  /** macCnt is the difference of the numbers exactly if that fits an int, and always what is left of it
      below 32 bits. */
  lemma CountIsDifference(start: string, end: string)
    requires Readable(start) && Readable(end)
    ensures Count(start, end) == NumberOf(end) - NumberOf(start) <==>
            -0x8000_0000 <= NumberOf(end) - NumberOf(start) < 0x8000_0000
    ensures (NumberOf(end) - NumberOf(start) - Count(start, end)) % 0x1_0000_0000 == 0
  {
    hide NumberOf, Readable;
    SmallNumberOf(start);
    SmallNumberOf(end);
    Differs(NumberOf(end) - NumberOf(start));
  }

  lemma Differs(d: int)
    requires -BITS_48 < d < BITS_48
    ensures ToInt32(d % BITS_64) == d <==> -0x8000_0000 <= d < 0x8000_0000
    ensures (d - ToInt32(d % BITS_64)) % BITS_32 == 0
  {
    var e := d % BITS_64;
    assert e == if d < 0 then d + BITS_64 else d;
    var q, low := e / BITS_32, e % BITS_32;
    assert e == BITS_32 * q + low;
    var r := ToInt32(e);
    var k := (if d < 0 then q - BITS_32 else q) + if low < 0x8000_0000 then 0 else 1;
    assert d - r == BITS_32 * k;
    ModuloOfSum32(0, k);
  }

  lemma ModuloTwice(a: int)
    ensures a % BITS_64 % BITS_48 == a % BITS_48
  {
    var q, r := a / BITS_64, a % BITS_64;
    assert a == r + BITS_48 * (0x10000 * q);
    ModuloOfSum(r, 0x10000 * q);
  }

  /** The numbers of two steps and of their sum are the same exactly if a step is none, or neither step
      stops at zero and their sum only where the address is zero itself: for every address. */
  lemma NumbersAddUp(s: string, j: Int32, k: Int32)
    requires Readable(s) && -0x8000_0000 <= j + k < 0x8000_0000
    ensures Readable(Added(s, j)) && Readable(Added(Added(s, j), k)) && Readable(Added(s, j + k))
    ensures NumberOf(Added(Added(s, j), k)) == NumberOf(Added(s, j + k)) <==> AddUp(NumberOf(s), j, k)
  {
    hide NumberOf, Added, Readable;
    NumberOfAdded(s, j);
    NumberOfAdded(Added(s, j), k);
    NumberOfAdded(s, j + k);
    SmallNumberOf(s);
    StepsAddUp(NumberOf(s), j, k);
  }

  /** What a caller can see before: no step, or none that reaches zero. */
  predicate AddUp(x: nat, j: Int32, k: Int32) {
    j == 0 || k == 0 || (x + j != 0 && (x + j) % BITS_48 + k != 0 && (x + j + k != 0 || x == 0))
  }

  /** The number after a step. */
  function Stepped(x: nat, step: int): nat {
    if x + step == 0 then x else (x + step) % BITS_48
  }

  lemma StepsAddUp(x: nat, j: Int32, k: Int32)
    requires x < BITS_48
    ensures Stepped(Stepped(x, j), k) == Stepped(x, j + k) <==> AddUp(x, j, k)
  {
    WrapOnce(x, j);
    WrapOnce(x, j + k);
    WrapOnce(Stepped(x, j), k);
  }

  lemma WrapOnce(x: nat, step: int)
    requires x < BITS_48 && -BITS_48 <= step < BITS_48
    ensures (x + step) % BITS_48 ==
            if x + step < 0 then x + step + BITS_48 else if x + step >= BITS_48 then x + step - BITS_48 else x + step
  {
  }

  /** An address in capitals with colons, as macAdd prints it. */
  predicate IsCanonical(s: string) {
    && |s| == 17 && UpperCase(s) == s
    && forall i :: 0 <= i < 17 ==> if i % 3 == 2 then s[i] == ':' else IsHex(s[i])
  }

  lemma CanonicalIsPrinted(s: string)
    requires IsCanonical(s)
    ensures IsDashed(WithDashes(s)) && Readable(s) && WithColons(Printed(NumberOf(s))) == s
  {
    hide Printed, IsHex, Number;
    var d := WithDashes(s);
    forall i | 0 <= i < 17
      ensures if i % 3 == 2 then d[i] == '-' else d[i] == s[i] && IsHex(d[i])
    {
      HexIsNoSeparator(s[i]);
    }
    forall i | 0 <= i < 5
      ensures d[3 * i + 2] == '-'
    {
    }
    PrintedNumber(d);
    forall i | 0 <= i < 17
      ensures WithColons(UpperCase(d))[i] == s[i]
    {
      assert UpperCase(s)[i] == s[i];
      HexIsNoSeparator(s[i]);
      UpperDash();
    }
  }

  lemma HexIsNoSeparator(c: char)
    ensures IsHex(c) ==> c != ':' && c != '-' && Upper(c) != '-'
  {
  }

  lemma CanonicalKeepsColons(s: string)
    requires IsCanonical(s)
    ensures WithColons(WithDashes(s)) == s
  {
    hide IsHex;
    forall i | 0 <= i < 17
      ensures WithColons(WithDashes(s))[i] == s[i]
    {
      HexIsNoSeparator(s[i]);
    }
  }

  lemma PrintedIsCanonical(v: nat)
    ensures IsCanonical(WithColons(Printed(v)))
  {
    hide Printed, IsHex, Upper;
    NumberOfPrinted(v);
    PrintedNumber(Printed(v));
    PrintedModulo(Number(Printed(v)), v);
    var p := Printed(v);
    forall i | 0 <= i < 17
      ensures Upper(p[i]) == p[i] && if i % 3 == 2 then p[i] == '-' else IsHex(p[i])
    {
      assert UpperCase(p)[i] == p[i];
      assert i == 3 * (i / 3) + i % 3;
      if i % 3 == 2 {
        assert p[3 * (i / 3) + 2] == '-';
      }
    }
    forall i | 0 <= i < 17
      ensures UpperCase(WithColons(p))[i] == WithColons(p)[i]
      ensures if i % 3 == 2 then WithColons(p)[i] == ':' else IsHex(WithColons(p)[i])
    {
      HexIsNoSeparator(p[i]);
      UpperColon();
    }
  }

  lemma UpperColon()
    ensures Upper(':') == ':'
  {
  }

  /** An address as macAdd hands it back. */
  function ColonForm(s: string): string {
    WithColons(WithDashes(s))
  }

  lemma ColonFormTwice(s: string)
    ensures WithDashes(ColonForm(s)) == WithDashes(s)
    ensures ColonForm(ColonForm(s)) == ColonForm(s)
  {
  }

  /** What macAdd makes of any address: capitals with colons, unless the sum is zero. */
  lemma AddedForm(s: string, step: Int32)
    requires Readable(s)
    ensures if NumberOf(s) + step == 0 then Added(s, step) == ColonForm(s) else IsCanonical(Added(s, step))
  {
    hide Printed, Number, IsMacAddress, Replaced, IsCanonical;
    SmallNumberOf(s);
    if NumberOf(s) + step != 0 {
      PrintedIsCanonical((NumberOf(s) + step) % BITS_64);
    }
  }

  /** An address as macAdd prints it stays one. */
  lemma CanonicalStays(s: string, step: Int32)
    requires IsCanonical(s)
    ensures Readable(s) && IsCanonical(Added(s, step))
  {
    hide Printed, NumberOf, Added, IsCanonical, Replaced;
    CanonicalIsPrinted(s);
    AddedForm(s, step);
    CanonicalKeepsColons(s);
  }

  lemma CanonicalByNumber(s: string, t: string)
    requires IsCanonical(s) && IsCanonical(t)
    ensures Readable(s) && Readable(t)
    ensures s == t <==> NumberOf(s) == NumberOf(t)
  {
    hide Printed, NumberOf, Readable, IsCanonical, Replaced;
    CanonicalIsPrinted(s);
    CanonicalIsPrinted(t);
  }

  /** When two steps are their sum, for the addresses as text and for every address: the numbers have to
      add up; and where one side is handed back and not printed, the address itself has to be in
      capitals and well-formed, or the other side has to be handed back too. */
  lemma AddedTwice(s: string, j: Int32, k: Int32)
    requires Readable(s) && -0x8000_0000 <= j + k < 0x8000_0000
    ensures Readable(Added(s, j))
    ensures
      var x := NumberOf(s);
      Added(Added(s, j), k) == Added(s, j + k) <==>
      AddUp(x, j, k) && (IsCanonical(ColonForm(s)) || ((x + j == 0 && x + k == 0) <==> x + j + k == 0))
  {
    hide Printed, NumberOf, Added, Readable, IsCanonical, Replaced, AddUp, WithColons, WithDashes;
    NumbersAddUp(s, j, k);
    AddedForm(s, j);
    AddedForm(s, j + k);
    TwiceForm(s, j, k);
    var l, r := Added(Added(s, j), k), Added(s, j + k);
    if IsCanonical(l) && IsCanonical(r) {
      CanonicalByNumber(l, r);
    }
  }

  /** What two steps make of an address. */
  lemma TwiceForm(s: string, j: Int32, k: Int32)
    requires Readable(s)
    ensures Readable(Added(s, j))
    ensures
      var x := NumberOf(s);
      if x + j == 0 && x + k == 0 then Added(Added(s, j), k) == ColonForm(s) else IsCanonical(Added(Added(s, j), k))
  {
    hide Printed, Number, Added, IsMacAddress, IsCanonical, Replaced, WithColons, WithDashes;
    NumberOfAdded(s, j);
    AddedForm(s, j);
    if NumberOf(s) + j == 0 {
      ColonFormTwice(s);
      AddedForm(ColonForm(s), k);
    } else {
      CanonicalStays(Added(s, j), k);
    }
  }

  /** Down to zero and up again: five steps back from the address with number 5 are not made. */
  lemma StepsLost()
    ensures
      var s := "00:00:00:00:00:05";
      && Readable(s) && Readable(Added(s, -5))
      && Added(Added(s, -5), 7) == "00:00:00:00:00:0C" && Added(s, -5 + 7) == "00:00:00:00:00:07"
  {
    hide Added, Readable, NumberOf, IsCanonical, Printed, Small, WithColons, WithDashes;
    var s := "00:00:00:00:00:05";
    SmallAddresses();
    NumberOfSmall(5);
    CanonicalKeepsColons(s);
    AddedForm(s, -5);
    SmallSum(s, 5, 7);
    SmallSum(s, 5, 2);
  }

  lemma SmallSum(s: string, n: nat, step: nat)
    requires n < 16 && s == Small(n) && n + step < 16 && n + step != 0
    ensures Readable(s) && Added(s, step) == Small(n + step)
  {
    hide Added, Readable, NumberOf, IsCanonical, Printed, Small, WithColons, WithDashes;
    NumberOfSmall(n);
    NumberOfSmall(n + step);
    NumberOfAdded(s, step);
    AddedForm(s, step);
    CanonicalByNumber(Added(s, step), Small(n + step));
  }

  /** The address with a number below sixteen. */
  function Small(n: nat): (s: string)
    requires n < 16
    ensures |s| == 17
  {
    seq(17, i requires 0 <= i < 17 => if i == 16 then HexDigit(n) else if i % 3 == 2 then ':' else '0')
  }

  lemma SmallAddresses()
    ensures Small(5) == "00:00:00:00:00:05" && Small(7) == "00:00:00:00:00:07" && Small(12) == "00:00:00:00:00:0C"
  {
  }

  lemma NumberOfSmall(n: nat)
    requires n < 16
    ensures IsCanonical(Small(n)) && Readable(Small(n)) && NumberOf(Small(n)) == n
  {
    hide Printed, IsCanonical, Number, Small;
    PrintedSmall(n);
    PrintedIsCanonical(n);
    NumberOfPrinted(n);
    PrintedHasNoColon(n);
    ColonsAndBack(Printed(n));
  }

  lemma PrintedSmall(n: nat)
    requires n < 16
    ensures WithColons(Printed(n)) == Small(n)
  {
    hide HexDigit, Hex2;
    var bytes := LowBytes(n, 6);
    assert bytes == [0, 0, 0, 0, 0, n];
    SmallHex(n);
    var p := Dashed(bytes);
    forall i: nat | i < 6
      ensures p[3 * i] == '0' && p[3 * i + 1] == (if i == 5 then HexDigit(n) else '0')
          && (i < 5 ==> p[3 * i + 2] == '-')
    {
      DashedAt(bytes, i);
    }
    ColonsOfSmall(p, n);
  }

  lemma ColonsOfSmall(p: string, n: nat)
    requires n < 16 && |p| == 17
    requires forall i: nat :: i < 6 ==>
      p[3 * i] == '0' && p[3 * i + 1] == (if i == 5 then HexDigit(n) else '0') && (i < 5 ==> p[3 * i + 2] == '-')
    ensures WithColons(p) == Small(n)
  {
    hide HexDigit;
    HexIsNoSeparator(HexDigit(n));
    forall i | 0 <= i < 17
      ensures WithColons(p)[i] == Small(n)[i]
    {
      assert i == 3 * (i / 3) + i % 3;
    }
  }

  lemma SmallHex(n: nat)
    requires n < 16
    ensures Hex2(0)[0] == Hex2(0)[1] == Hex2(n)[0] == '0' && Hex2(n)[1] == HexDigit(n)
  {
  }
}
