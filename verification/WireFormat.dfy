/**
 Secrets and nonces on the wire: a prefix and 43 characters of unpadded base64url for 32 bytes, decoded by a lenient
 decoder and accepted only if encoding again gives the same characters. Also the preimage of the stored verifier.
 */
module WireFormat {
  import opened Traces
  import opened Wrappers

  type Byte = x: int | 0 <= x < 256 witness 0

  // ---------------------------------------------------------------------------------------------------------
  // Numbers of a fixed width as bits, most significant first.

  function Bits(v: nat, width: nat): (bits: seq<bool>)
    ensures |bits| == width
  {
    if width == 0 then [] else Bits(v / 2, width - 1) + [v % 2 == 1]
  }

  function Value(bits: seq<bool>): nat {
    if bits == [] then 0 else 2 * Value(bits[..|bits| - 1]) + if bits[|bits| - 1] then 1 else 0
  }

  function Power2(width: nat): (p: nat)
    ensures p > 0
  {
    if width == 0 then 1 else 2 * Power2(width - 1)
  }

  lemma {:induction false} ValueOfBits(v: nat, width: nat)
    requires v < Power2(width)
    ensures Value(Bits(v, width)) == v
  {
    if width > 0 {
      ValueOfBits(v / 2, width - 1);
      assert Bits(v, width)[..width - 1] == Bits(v / 2, width - 1);
    }
  }

  lemma {:induction false} BitsOfValue(bits: seq<bool>)
    ensures Bits(Value(bits), |bits|) == bits && Value(bits) < Power2(|bits|)
  {
    if bits != [] {
      var front := bits[..|bits| - 1];
      BitsOfValue(front);
      assert Value(bits) / 2 == Value(front);
      assert bits == front + [bits[|bits| - 1]];
    }
  }

  predicate Fits(vs: seq<nat>, width: nat) {
    forall i | 0 <= i < |vs| :: vs[i] < Power2(width)
  }

  /** All values, one after the other. */
  function ToBits(vs: seq<nat>, width: nat): seq<bool> {
    if vs == [] then [] else Bits(vs[0], width) + ToBits(vs[1..], width)
  }

  /** The values the bits make up; an incomplete last one is dropped. */
  function FromBits(bits: seq<bool>, width: nat): seq<nat>
    requires width > 0
  {
    if |bits| < width then [] else [Value(bits[..width])] + FromBits(bits[width..], width)
  }

  function Dropped(bits: seq<bool>, width: nat): (rest: seq<bool>)
    requires width > 0
    ensures |rest| < width
  {
    if |bits| < width then bits else Dropped(bits[width..], width)
  }

  lemma {:induction false} BitsLength(vs: seq<nat>, width: nat)
    ensures |ToBits(vs, width)| == width * |vs|
  {
    if vs != [] {
      BitsLength(vs[1..], width);
      assert width * |vs| == width + width * |vs[1..]|;
    }
  }

  lemma {:induction false} ValuesSurvive(vs: seq<nat>, width: nat, extra: seq<bool>)
    requires width > 0 && Fits(vs, width) && |extra| < width
    ensures FromBits(ToBits(vs, width) + extra, width) == vs
    ensures Dropped(ToBits(vs, width) + extra, width) == extra
  {
    if vs == [] {
      assert ToBits(vs, width) + extra == extra;
    } else {
      var first, rest := Bits(vs[0], width), ToBits(vs[1..], width) + extra;
      ValueOfBits(vs[0], width);
      ValuesSurvive(vs[1..], width, extra);
      Assoc(first, ToBits(vs[1..], width), extra);
      Split(first, rest);
    }
  }

  lemma ConsBits(v: nat, vs: seq<nat>, width: nat)
    ensures ToBits([v] + vs, width) == Bits(v, width) + ToBits(vs, width)
    ensures v < Power2(width) && Fits(vs, width) ==> Fits([v] + vs, width)
  {
    assert ([v] + vs)[1..] == vs;
  }

  /** Back to bits, everything but the incomplete rest is there again. */
  lemma {:induction false} BitsSurvive(bits: seq<bool>, width: nat)
    requires width > 0
    ensures Fits(FromBits(bits, width), width)
    ensures ToBits(FromBits(bits, width), width) + Dropped(bits, width) == bits
  {
    if |bits| >= width {
      var first, rest := bits[..width], bits[width..];
      BitsOfValue(first);
      BitsSurvive(rest, width);
      ConsBits(Value(first), FromBits(rest, width), width);
      Assoc(first, ToBits(FromBits(rest, width), width), Dropped(rest, width));
      Rejoin(bits, width);
    }
  }

  // ---------------------------------------------------------------------------------------------------------
  // Eight-bit groups as six-bit groups (section 4 of RFC 4648).

  function Zeros(n: nat): (z: seq<bool>)
    ensures |z| == n
  {
    seq(n, i => false)
  }

  /** How many zero bits complete the last six-bit group. */
  function Missing(bits: nat): (n: nat)
    ensures n < 6 && (bits + n) % 6 == 0
  {
    (6 - bits % 6) % 6
  }

  function ToSextets(raw: seq<nat>): seq<nat> {
    var bits := ToBits(raw, 8);
    FromBits(bits + Zeros(Missing(|bits|)), 6)
  }

  function ToBytes(vs: seq<nat>): seq<nat> {
    FromBits(ToBits(vs, 6), 8)
  }

  /** The bits of the last six-bit group that belong to no byte. */
  function LeftOver(vs: seq<nat>): seq<bool> {
    Dropped(ToBits(vs, 6), 8)
  }

  /** Whole groups leave nothing out. */
  lemma WholeGroups(bits: seq<bool>)
    requires |bits| % 6 == 0
    ensures ToBits(FromBits(bits, 6), 6) == bits && Fits(FromBits(bits, 6), 6) && 6 * |FromBits(bits, 6)| == |bits|
  {
    BitsSurvive(bits, 6);
    BitsLength(FromBits(bits, 6), 6);
    assert |Dropped(bits, 6)| == 0;
  }

  lemma SextetBits(raw: seq<nat>)
    ensures Fits(ToSextets(raw), 6) && 6 * |ToSextets(raw)| == 8 * |raw| + Missing(8 * |raw|)
    ensures ToBits(ToSextets(raw), 6) == ToBits(raw, 8) + Zeros(Missing(8 * |raw|))
  {
    BitsLength(raw, 8);
    WholeGroups(ToBits(raw, 8) + Zeros(Missing(8 * |raw|)));
  }

  lemma BytesSurvive(raw: seq<nat>)
    requires Fits(raw, 8)
    ensures ToBytes(ToSextets(raw)) == raw && LeftOver(ToSextets(raw)) == Zeros(Missing(8 * |raw|))
  {
    SextetBits(raw);
    ValuesSurvive(raw, 8, Zeros(Missing(8 * |raw|)));
  }

  lemma LeftOverCount(sextets: nat, bytes: nat, rest: nat)
    requires sextets % 4 != 1 && 6 * sextets == 8 * bytes + rest && rest < 8
    ensures rest == Missing(8 * bytes)
  {
    var q, m := sextets / 4, sextets % 4;
    assert 6 * sextets == 24 * q + 6 * m;
    if m == 0 {
      assert bytes == 3 * q;
    } else if m == 2 {
      assert bytes == 3 * q + 1;
    } else {
      assert bytes == 3 * q + 2;
    }
  }

  /** The left-over bits are those that complete the last group, if the group is one that bytes can leave. */
  lemma LeftOverLength(vs: seq<nat>)
    requires |vs| % 4 != 1
    ensures |LeftOver(vs)| == Missing(8 * |ToBytes(vs)|) && 6 * |vs| == 8 * |ToBytes(vs)| + |LeftOver(vs)|
    ensures ToBits(vs, 6) == ToBits(ToBytes(vs), 8) + LeftOver(vs) && Fits(ToBytes(vs), 8)
  {
    BitsSurvive(ToBits(vs, 6), 8);
    BitsLength(vs, 6);
    BitsLength(ToBytes(vs), 8);
    LeftOverCount(|vs|, |ToBytes(vs)|, |LeftOver(vs)|);
  }

  /** The way back is lossless exactly if the left-over bits are zero. */
  lemma SextetsSurvive(vs: seq<nat>)
    requires Fits(vs, 6) && |vs| % 4 != 1
    ensures ToSextets(ToBytes(vs)) == vs <==> LeftOver(vs) == Zeros(|LeftOver(vs)|)
  {
    var raw := ToBytes(vs);
    LeftOverLength(vs);
    SextetBits(raw);
    if LeftOver(vs) == Zeros(|LeftOver(vs)|) {
      ValuesSurvive(vs, 6, []);
      assert ToBits(vs, 6) + [] == ToBits(vs, 6);
      BitsLength(raw, 8);
    } else if ToSextets(raw) == vs {
      Cancel(ToBits(raw, 8), ToBits(raw, 8), LeftOver(vs), Zeros(Missing(8 * |raw|)));
    }
  }

  // ---------------------------------------------------------------------------------------------------------
  // What the groups are, byte by byte: section 4 of RFC 4648.

  lemma {:induction false} ValueConcat(a: seq<bool>, b: seq<bool>)
    ensures Value(a + b) == Value(a) * Power2(|b|) + Value(b)
    decreases |b|
  {
    if b == [] {
      assert a + b == a;
    } else {
      var front := b[..|b| - 1];
      ValueConcat(a, front);
      assert (a + b)[..|a + b| - 1] == a + front;
      assert Value(a) * (2 * Power2(|front|)) == 2 * (Value(a) * Power2(|front|));
    }
  }

  /** The last two bits of a number, and the rest. */
  lemma LastTwo(v: nat, high: nat)
    ensures Bits(v, high + 2) == Bits(v / 4, high) + Bits(v % 4, 2)
  {
    assert Bits(v, high + 2) == Bits(v / 2, high + 1) + [v % 2 == 1];
    assert Bits(v / 2, high + 1) == Bits(v / 4, high) + [v / 2 % 2 == 1];
    assert Bits(v % 4, 2) == Bits(v % 4 / 2, 1) + [v % 4 % 2 == 1];
    assert Bits(v % 4 / 2, 1) == Bits(v % 4 / 4, 0) + [v % 4 / 2 % 2 == 1];
    assert v % 4 / 2 % 2 == v / 2 % 2 && v % 4 % 2 == v % 2;
  }

  lemma LastFour(v: nat, high: nat)
    ensures Bits(v, high + 4) == Bits(v / 16, high) + Bits(v % 16, 4)
  {
    LastTwo(v, high + 2);
    LastTwo(v / 4, high);
    LastTwo(v % 16, 2);
    assert v / 4 / 4 == v / 16 && v / 4 % 4 == v % 16 / 4 && v % 16 % 4 == v % 4;
    LastTwo(v % 16 / 4, 0);
    assert v % 16 / 4 / 4 == 0 && v % 16 / 4 % 4 == v % 16 / 4;
    Assoc(Bits(v / 16, high), Bits(v / 4 % 4, 2), Bits(v % 4, 2));
  }

  lemma LastSix(v: nat, high: nat)
    ensures Bits(v, high + 6) == Bits(v / 64, high) + Bits(v % 64, 6)
  {
    LastTwo(v, high + 4);
    LastFour(v / 4, high);
    LastTwo(v % 64, 4);
    assert v / 4 / 16 == v / 64 && v / 4 % 16 == v % 64 / 4 && v % 64 % 4 == v % 4;
    Assoc(Bits(v / 64, high), Bits(v / 4 % 16, 4), Bits(v % 4, 2));
  }

  lemma SmallPowers()
    ensures Power2(0) == 1 && Power2(1) == 2 && Power2(2) == 4 && Power2(3) == 8 && Power2(4) == 16 && Power2(5) == 32 && Power2(6) == 64
  {
    assert Power2(3) == 8;
  }

  lemma FirstGroup(g: seq<bool>, rest: seq<bool>)
    requires |g| == 6
    ensures FromBits(g + rest, 6) == [Value(g)] + FromBits(rest, 6)
  {
    Split(g, rest);
  }

  lemma SixParts<T>(a1: seq<T>, a2: seq<T>, b1: seq<T>, b2: seq<T>, c1: seq<T>, c2: seq<T>, rest: seq<T>)
    ensures (a1 + a2) + ((b1 + b2) + ((c1 + c2) + rest)) == a1 + ((a2 + b1) + ((b2 + c1) + (c2 + rest)))
  {
    Assoc(c1, c2, rest);
    Assoc(b2, c1, c2 + rest);
    Assoc(b1, b2, (c1 + c2) + rest);
    Assoc(a2, b1, b2 + ((c1 + c2) + rest));
    Assoc(a1, a2, (b1 + b2) + ((c1 + c2) + rest));
  }

  lemma FourSixes(g1: seq<bool>, g2: seq<bool>, g3: seq<bool>, g4: seq<bool>, rest: seq<bool>)
    requires |g1| == 6 && |g2| == 6 && |g3| == 6 && |g4| == 6
    ensures FromBits(g1 + (g2 + (g3 + (g4 + rest))), 6) == [Value(g1), Value(g2), Value(g3), Value(g4)] + FromBits(rest, 6)
  {
    FirstGroup(g1, g2 + (g3 + (g4 + rest)));
    FirstGroup(g2, g3 + (g4 + rest));
    FirstGroup(g3, g4 + rest);
    FirstGroup(g4, rest);
  }

  /** The upper six bits of the first byte; two and four; four and two; the lower six bits of the third. */
  lemma FourGroups(a: nat, b: nat, c: nat, rest: seq<bool>)
    requires a < 256 && b < 256 && c < 256
    ensures FromBits(Bits(a, 8) + (Bits(b, 8) + (Bits(c, 8) + rest)), 6) ==
            [a / 4, a % 4 * 16 + b / 16, b % 16 * 4 + c / 64, c % 64] + FromBits(rest, 6)
  {
    var a1, a2, b1, b2, c1, c2 := Bits(a / 4, 6), Bits(a % 4, 2), Bits(b / 16, 4), Bits(b % 16, 4), Bits(c / 64, 2), Bits(c % 64, 6);
    ByteParts(a, b, c);
    SixParts(a1, a2, b1, b2, c1, c2, rest);
    FourSixes(a1, a2 + b1, b2 + c1, c2, rest);
    GroupValues(a, b, c);
  }

  lemma ByteParts(a: nat, b: nat, c: nat)
    ensures Bits(a, 8) == Bits(a / 4, 6) + Bits(a % 4, 2)
    ensures Bits(b, 8) == Bits(b / 16, 4) + Bits(b % 16, 4)
    ensures Bits(c, 8) == Bits(c / 64, 2) + Bits(c % 64, 6)
  {
    LastTwo(a, 6);
    LastFour(b, 4);
    LastSix(c, 2);
  }

  lemma GroupValues(a: nat, b: nat, c: nat)
    requires a < 256 && b < 256 && c < 256
    ensures Value(Bits(a / 4, 6)) == a / 4
    ensures Value(Bits(a % 4, 2) + Bits(b / 16, 4)) == a % 4 * 16 + b / 16
    ensures Value(Bits(b % 16, 4) + Bits(c / 64, 2)) == b % 16 * 4 + c / 64
    ensures Value(Bits(c % 64, 6)) == c % 64
  {
    SmallPowers();
    ValueOfBits(a / 4, 6);
    ValueOfBits(a % 4, 2);
    ValueOfBits(b / 16, 4);
    ValueConcat(Bits(a % 4, 2), Bits(b / 16, 4));
    ValueOfBits(b % 16, 4);
    ValueOfBits(c / 64, 2);
    ValueConcat(Bits(b % 16, 4), Bits(c / 64, 2));
    ValueOfBits(c % 64, 6);
  }

  lemma ThreeBytes(a: nat, b: nat, c: nat, rest: seq<nat>)
    ensures ToBits([a, b, c] + rest, 8) == Bits(a, 8) + (Bits(b, 8) + (Bits(c, 8) + ToBits(rest, 8)))
  {
    assert [a, b, c] + rest == [a] + ([b] + ([c] + rest));
    ConsBits(c, rest, 8);
    ConsBits(b, [c] + rest, 8);
    ConsBits(a, [b] + ([c] + rest), 8);
  }

  /** Three bytes in front change neither how many zero bits complete the last group nor where they go. */
  lemma PaddedAfter(x: seq<bool>, y: seq<bool>, z: seq<bool>, more: seq<bool>)
    requires |x| == 8 && |y| == 8 && |z| == 8
    ensures var zeros := Zeros(Missing(|more|));
            && Missing(|x + (y + (z + more))|) == Missing(|more|)
            && x + (y + (z + more)) + zeros == x + (y + (z + (more + zeros)))
  {
    var zeros := Zeros(Missing(|more|));
    assert |x + (y + (z + more))| == 24 + |more|;
    Assoc(x, y + (z + more), zeros);
    Assoc(y, z + more, zeros);
    Assoc(z, more, zeros);
  }

  /** Three bytes are four groups of six bits, most significant first, whatever follows. */
  lemma ThreeBytesFourGroups(a: nat, b: nat, c: nat, rest: seq<nat>)
    requires a < 256 && b < 256 && c < 256
    ensures ToSextets([a, b, c] + rest) == [a / 4, a % 4 * 16 + b / 16, b % 16 * 4 + c / 64, c % 64] + ToSextets(rest)
  {
    var more := ToBits(rest, 8);
    ThreeBytes(a, b, c, rest);
    PaddedAfter(Bits(a, 8), Bits(b, 8), Bits(c, 8), more);
    FourGroups(a, b, c, more + Zeros(Missing(|more|)));
  }

  lemma {:induction false} ZeroBits(width: nat)
    ensures Bits(0, width) == Zeros(width)
  {
    if width > 0 {
      ZeroBits(width - 1);
    }
  }

  /** A zero byte after two bytes is the zero bits that complete them and one more group. */
  lemma PaddedTwoBytes(a: nat, b: nat)
    ensures ToBits([a, b], 8) == Bits(a, 8) + Bits(b, 8)
    ensures Bits(a, 8) + (Bits(b, 8) + (Bits(0, 8) + [])) == (ToBits([a, b], 8) + Zeros(2)) + Zeros(6)
  {
    ConsBits(b, [], 8);
    ConsBits(a, [b], 8);
    ZeroBits(8);
    assert [b] + [] == [b] && [a] + [b] == [a, b] && Bits(b, 8) + [] == Bits(b, 8);
    Assoc(Bits(a, 8), Bits(b, 8), Zeros(8));
    Assoc(Bits(a, 8) + Bits(b, 8), Zeros(2), Zeros(6));
    assert Zeros(2) + Zeros(6) == Zeros(8) && Bits(0, 8) + [] == Zeros(8);
  }

  /** Two bytes at the end are three groups, as if a zero byte followed that nobody writes. */
  lemma TwoBytesThreeGroups(a: nat, b: nat)
    requires a < 256 && b < 256
    ensures ToSextets([a, b]) == [a / 4, a % 4 * 16 + b / 16, b % 16 * 4]
  {
    var x := ToBits([a, b], 8) + Zeros(2);
    PaddedTwoBytes(a, b);
    FourGroups(a, b, 0, []);
    WholeGroupsThen(x, Zeros(6));
    Cut(FromBits(x, 6), FromBits(Zeros(6), 6), [a / 4, a % 4 * 16 + b / 16, b % 16 * 4], [0]);
  }

  /** One byte at the end is two groups. */
  lemma OneByteTwoGroups(a: nat)
    requires a < 256
    ensures ToSextets([a]) == [a / 4, a % 4 * 16]
  {
    var x := ToBits([a], 8) + Zeros(4);
    ConsBits(a, [], 8);
    assert [a] + [] == [a];
    ZeroBits(8);
    assert Bits(a, 8) + (Bits(0, 8) + (Bits(0, 8) + [])) == x + Zeros(12);
    FourGroups(a, 0, 0, []);
    WholeGroupsThen(x, Zeros(12));
    Cut(FromBits(x, 6), FromBits(Zeros(12), 6), [a / 4, a % 4 * 16], [0, 0]);
  }

  lemma Cut<T>(a: seq<T>, x: seq<T>, b: seq<T>, y: seq<T>)
    requires a + x == b + y && |a| == |b|
    ensures a == b
  {
    Cancel(a, b, x, y);
  }

  /** Groups that are complete do not depend on what follows. */
  lemma {:induction false} WholeGroupsThen(x: seq<bool>, y: seq<bool>)
    requires |x| % 6 == 0
    ensures FromBits(x + y, 6) == FromBits(x, 6) + FromBits(y, 6) && |FromBits(x, 6)| == |x| / 6
    decreases |x|
  {
    if x == [] {
      assert x + y == y;
    } else {
      var g, rest := x[..6], x[6..];
      Rejoin(x, 6);
      Assoc(g, rest, y);
      FirstGroup(g, rest + y);
      FirstGroup(g, rest);
      WholeGroupsThen(rest, y);
      Assoc([Value(g)], FromBits(rest, 6), FromBits(y, 6));
    }
  }

  // ---------------------------------------------------------------------------------------------------------
  // The alphabet of section 5 of RFC 4648.

  function Letter(v: nat): (c: char)
    requires v < 64
    ensures ValueOf(c) == Some(v) && UrlSafe(c) && c != '='
  {
    if v < 26 then ('A' as int + v) as char
    else if v < 52 then ('a' as int + (v - 26)) as char
    else if v < 62 then ('0' as int + (v - 52)) as char
    else if v == 62 then '-'
    else '_'
  }

  /** The decoder knows both alphabets: it maps the url-safe characters onto the standard ones first. */
  function ValueOf(c: char): (v: Option<nat>)
    ensures v.Some? ==> v.value < 64
  {
    if 'A' <= c <= 'Z' then Some(c as int - 'A' as int)
    else if 'a' <= c <= 'z' then Some(c as int - 'a' as int + 26)
    else if '0' <= c <= '9' then Some(c as int - '0' as int + 52)
    else if c == '-' || c == '+' then Some(62)
    else if c == '_' || c == '/' then Some(63)
    else None
  }

  predicate UrlSafe(c: char) {
    ValueOf(c).Some? && c != '+' && c != '/'
  }

  /** The order of the alphabet: upper case, lower case, digits, then the two url-safe characters. */
  lemma AlphabetOrder(v: nat)
    requires v < 63
    ensures Letter(0) == 'A' && Letter(25) == 'Z' && Letter(26) == 'a' && Letter(51) == 'z' && Letter(52) == '0' && Letter(61) == '9'
    ensures Letter(62) == '-' && Letter(63) == '_'
    ensures v !in {25, 51, 61, 62} ==> Letter(v + 1) as int == Letter(v) as int + 1
  {
  }

  lemma LetterOfValue(c: char)
    requires UrlSafe(c)
    ensures Letter(ValueOf(c).value) == c
  {
  }

  lemma Sixty4(vs: seq<nat>)
    requires Fits(vs, 6)
    ensures forall i | 0 <= i < |vs| :: vs[i] < 64
  {
    assert Power2(3) == 8;
    assert Power2(6) == 64;
  }

  function Letters(vs: seq<nat>): (s: string)
    requires forall i | 0 <= i < |vs| :: vs[i] < 64
    ensures |s| == |vs| && forall i | 0 <= i < |vs| :: s[i] == Letter(vs[i])
  {
    seq(|vs|, i requires 0 <= i < |vs| => Letter(vs[i]))
  }

  // ---------------------------------------------------------------------------------------------------------
  // Encoder and lenient decoder.

  function Encode(raw: seq<nat>): string {
    SextetBits(raw);
    Sixty4(ToSextets(raw));
    Letters(ToSextets(raw))
  }

  /** Characters outside the alphabet are skipped. */
  function Values(s: string): (vs: seq<nat>)
    ensures |vs| <= |s| && forall i | 0 <= i < |vs| :: vs[i] < 64
  {
    if s == [] then []
    else if ValueOf(s[0]).Some? then [ValueOf(s[0]).value] + Values(s[1..])
    else Values(s[1..])
  }

  /** What the library decoder makes of `s` followed by one pad: the pad must complete a group or follow a complete one. */
  function LenientDecode(s: string): Option<seq<nat>> {
    if exists i :: 0 <= i < |s| && s[i] as int >= 128 then None
    else
      var vs := Values(s);
      if |vs| % 4 == 3 || |vs| % 4 == 0 then Some(ToBytes(vs)) else None
  }

  function DecodeWire(value: string, prefix: string): Option<seq<nat>> {
    if !(prefix <= value) then None
    else
      var encoded := value[|prefix|..];
      if |encoded| != 43 || '=' in encoded then None
      else
        var raw := LenientDecode(encoded);
        if raw.None? || |raw.value| != 32 || Encode(raw.value) != encoded then None else raw
  }

  lemma {:induction false} ValuesOfLetters(vs: seq<nat>)
    requires forall i | 0 <= i < |vs| :: vs[i] < 64
    ensures Values(Letters(vs)) == vs
  {
    if vs != [] {
      assert Letters(vs)[1..] == Letters(vs[1..]);
      ValuesOfLetters(vs[1..]);
    }
  }

  lemma {:induction false} LettersOfValues(s: string)
    requires forall i | 0 <= i < |s| :: UrlSafe(s[i])
    ensures |Values(s)| == |s| && forall i | 0 <= i < |s| :: ValueOf(s[i]) == Some(Values(s)[i])
  {
    if s != [] {
      LettersOfValues(s[1..]);
    }
  }

  lemma LettersAgain(s: string)
    requires forall i | 0 <= i < |s| :: UrlSafe(s[i])
    ensures Letters(Values(s)) == s
  {
    LettersOfValues(s);
    forall i | 0 <= i < |s| ensures Letter(Values(s)[i]) == s[i] {
      LetterOfValue(s[i]);
    }
  }

  lemma FitsSix(vs: seq<nat>)
    requires forall i | 0 <= i < |vs| :: vs[i] < 64
    ensures Fits(vs, 6)
  {
    assert Power2(3) == 8;
    assert Power2(6) == 64;
  }

  /** The shape of an encoding. */
  lemma EncodedShape(raw: seq<nat>)
    requires |raw| == 32
    ensures |Encode(raw)| == 43 && '=' !in Encode(raw)
    ensures forall i | 0 <= i < 43 :: UrlSafe(Encode(raw)[i]) && Encode(raw)[i] as int < 128
    ensures Values(Encode(raw)) == ToSextets(raw)
  {
    SextetBits(raw);
    Sixty4(ToSextets(raw));
    ValuesOfLetters(ToSextets(raw));
  }

  /** Decoding inverts encoding. */
  lemma DecodeInvertsEncode(raw: seq<nat>, prefix: string)
    requires |raw| == 32 && Fits(raw, 8)
    ensures DecodeWire(prefix + Encode(raw), prefix) == Some(raw)
  {
    EncodedShape(raw);
    BytesSurvive(raw);
    assert (prefix + Encode(raw))[|prefix|..] == Encode(raw);
  }

  lemma DecodedAreBytes(s: string)
    requires LenientDecode(s).Some?
    ensures Fits(LenientDecode(s).value, 8)
  {
    BitsSurvive(ToBits(Values(s), 6), 8);
  }

  /** A string is accepted exactly if it is the prefix and the encoding of 32 bytes, and then it means those bytes. */
  lemma AcceptedIffEncoding(value: string, prefix: string, raw: seq<nat>)
    ensures DecodeWire(value, prefix) == Some(raw) <==> |raw| == 32 && Fits(raw, 8) && value == prefix + Encode(raw)
  {
    if |raw| == 32 && Fits(raw, 8) && value == prefix + Encode(raw) {
      DecodeInvertsEncode(raw, prefix);
    } else if DecodeWire(value, prefix) == Some(raw) {
      DecodedAreBytes(value[|prefix|..]);
    }
  }

  /** The canonical form, by characters: 43 of the url-safe alphabet, the last one without left-over bits. */
  predicate Canonical(s: string) {
    |s| == 43 && (forall i | 0 <= i < 43 :: UrlSafe(s[i])) && LeftOver(Values(s)) == Zeros(|LeftOver(Values(s))|)
  }

  /** Accepted means canonical: sections 3.2, 3.5 and 5 of RFC 4648, whatever else the lenient decoder would take. */
  lemma AcceptedIffCanonical(value: string, prefix: string)
    ensures DecodeWire(value, prefix).Some? <==> prefix <= value && Canonical(value[|prefix|..])
  {
    if prefix <= value {
      var s := value[|prefix|..];
      assert value == prefix + s;
      if DecodeWire(value, prefix).Some? {
        EncodingIsCanonical(DecodeWire(value, prefix).value, s);
      }
      if Canonical(s) {
        CanonicalIsEncoding(s);
        AcceptedIffEncoding(value, prefix, ToBytes(Values(s)));
      }
    }
  }

  lemma EncodingIsCanonical(raw: seq<nat>, s: string)
    requires LenientDecode(s) == Some(raw) && |raw| == 32 && s == Encode(raw)
    ensures Canonical(s)
  {
    DecodedAreBytes(s);
    EncodedShape(raw);
    BytesSurvive(raw);
  }

  lemma CanonicalIsEncoding(s: string)
    requires Canonical(s)
    ensures var raw := ToBytes(Values(s)); |raw| == 32 && Fits(raw, 8) && Encode(raw) == s
  {
    LettersOfValues(s);
    LettersAgain(s);
    FitsSix(Values(s));
    SextetsSurvive(Values(s));
    LeftOverLength(Values(s));
  }

  /** Without the second encoding every secret would have several spellings: left-over bits of the last character are ignored. */
  lemma LenientDecoderTakesMore(raw: seq<nat>) returns (other: string)
    requires |raw| == 32 && Fits(raw, 8)
    ensures other != Encode(raw) && |other| == 43 && '=' !in other && LenientDecode(other) == Some(raw)
  {
    var vs := Twisted(raw);
    Sixty4(vs);
    other := Letters(vs);
    ValuesOfLetters(vs);
    EncodedShape(raw);
  }

  /** The sextets of the same bytes with a left-over bit set. */
  lemma Twisted(raw: seq<nat>) returns (vs: seq<nat>)
    requires |raw| == 32 && Fits(raw, 8)
    ensures Fits(vs, 6) && |vs| == 43 && vs != ToSextets(raw) && ToBytes(vs) == raw
  {
    var extra := [false, true];
    var bits := ToBits(raw, 8) + extra;
    vs := FromBits(bits, 6);
    BitsLength(raw, 8);
    WholeGroups(bits);
    SextetBits(raw);
    ValuesSurvive(raw, 8, extra);
    assert extra[1] && !Zeros(2)[1];
    if vs == ToSextets(raw) {
      Cancel(ToBits(raw, 8), ToBits(raw, 8), extra, Zeros(2));
    }
  }

  // ---------------------------------------------------------------------------------------------------------
  // The verifier preimage.

  /** Big-endian, fixed width. */
  function BigEndian(n: nat, width: nat): (bs: seq<Byte>)
    ensures |bs| == width
  {
    if width == 0 then [] else BigEndian(n / 256, width - 1) + [n % 256]
  }

  const TWO_64: nat := 0x1_0000_0000_0000_0000

  predicate IsSigned64(n: int) {
    -0x8000_0000_0000_0000 <= n < 0x8000_0000_0000_0000
  }

  function Signed64(n: int): nat
    requires IsSigned64(n)
  {
    if n < 0 then n + TWO_64 else n
  }

  function Power256(width: nat): nat {
    if width == 0 then 1 else 256 * Power256(width - 1)
  }

  lemma {:induction false} BigEndianIsInjective(a: nat, b: nat, width: nat)
    requires a < Power256(width) && b < Power256(width) && BigEndian(a, width) == BigEndian(b, width)
    ensures a == b
  {
    if width > 0 {
      var x, y := BigEndian(a / 256, width - 1), BigEndian(b / 256, width - 1);
      assert BigEndian(a, width)[..width - 1] == x && BigEndian(b, width)[..width - 1] == y;
      assert BigEndian(a, width)[width - 1] == a % 256 && BigEndian(b, width)[width - 1] == b % 256;
      BigEndianIsInjective(a / 256, b / 256, width - 1);
    }
  }

  lemma EightBytes(a: nat, b: nat)
    requires a < TWO_64 && b < TWO_64 && BigEndian(a, 8) == BigEndian(b, 8)
    ensures a == b
  {
    assert Power256(4) == 0x1_0000_0000;
    assert Power256(8) == TWO_64;
    BigEndianIsInjective(a, b, 8);
  }

  /** Lengths go before what they measure; the secret takes the rest. */
  function Preimage(tag: seq<Byte>, credentialId: seq<Byte>, group: int, nodeId: seq<Byte>,
                    secret: seq<Byte>): seq<Byte>
    requires IsSigned64(group)
  {
    tag + (BigEndian(|credentialId|, 8) + (credentialId + (BigEndian(Signed64(group), 8) + (BigEndian(|nodeId|, 8) + (nodeId + secret)))))
  }

  datatype Identity = Identity(credentialId: seq<Byte>, group: int, nodeId: seq<Byte>, secret: seq<Byte>)

  /** A number read most significant byte first. */
  function Number(bs: seq<Byte>): nat {
    if bs == [] then 0 else 256 * Number(bs[..|bs| - 1]) + bs[|bs| - 1]
  }

  function SignedNumber(n: nat): int {
    if n >= TWO_64 / 2 then n - TWO_64 else n
  }

  /** Reads the fields in their order: length and id, signed group number, length and node id, and the rest as the secret. */
  function ReadPreimage(tag: seq<Byte>, bs: seq<Byte>): Option<Identity> {
    if !(tag <= bs) || |bs| < |tag| + 8 then None
    else
      var n := Number(bs[|tag|..][..8]);
      var rest := bs[|tag|..][8..];
      if |rest| < n + 16 then None
      else
        var m := Number(rest[n..][8..][..8]);
        var tail := rest[n..][8..][8..];
        if |tail| < m then None
        else Some(Identity(rest[..n], SignedNumber(Number(rest[n..][..8])), tail[..m], tail[m..]))
  }

  lemma {:induction false} NumberOfBytes(n: nat, width: nat)
    requires n < Power256(width)
    ensures Number(BigEndian(n, width)) == n
  {
    if width > 0 {
      NumberOfBytes(n / 256, width - 1);
      assert BigEndian(n, width)[..width - 1] == BigEndian(n / 256, width - 1);
    }
  }

  lemma EightByteNumber(n: nat)
    requires n < TWO_64
    ensures Number(BigEndian(n, 8)) == n
  {
    assert Power256(4) == 0x1_0000_0000;
    assert Power256(8) == TWO_64;
    NumberOfBytes(n, 8);
  }

  /** The preimage is these fields in this order: read one after the other, they are the identity and the secret again. */
  lemma PreimageReadsBack(tag: seq<Byte>, i: Identity)
    requires IsSigned64(i.group) && |i.credentialId| < TWO_64 && |i.nodeId| < TWO_64
    ensures ReadPreimage(tag, Preimage(tag, i.credentialId, i.group, i.nodeId, i.secret)) == Some(i)
  {
    var group := BigEndian(Signed64(i.group), 8);
    var length := BigEndian(|i.nodeId|, 8);
    var afterId := group + (length + (i.nodeId + i.secret));
    var first := BigEndian(|i.credentialId|, 8);
    EightByteNumber(|i.credentialId|);
    EightByteNumber(Signed64(i.group));
    EightByteNumber(|i.nodeId|);
    Split(tag, first + (i.credentialId + afterId));
    Split(first, i.credentialId + afterId);
    Split(i.credentialId, afterId);
    Split(group, length + (i.nodeId + i.secret));
    Split(length, i.nodeId + i.secret);
    Split(i.nodeId, i.secret);
  }

  /** Two different identities or secrets never share a preimage. */
  lemma PreimageIsInjective(tag: seq<Byte>, c: seq<Byte>, g: int, n: seq<Byte>, s: seq<Byte>,
                            c': seq<Byte>, g': int, n': seq<Byte>, s': seq<Byte>)
    requires IsSigned64(g) && IsSigned64(g') && |c| < TWO_64 && |c'| < TWO_64 && |n| < TWO_64 && |n'| < TWO_64
    requires Preimage(tag, c, g, n, s) == Preimage(tag, c', g', n', s')
    ensures c == c' && g == g' && n == n' && s == s'
  {
    var tail, tail' := BigEndian(|n|, 8) + (n + s), BigEndian(|n'|, 8) + (n' + s');
    var rest, rest' := BigEndian(Signed64(g), 8) + tail, BigEndian(Signed64(g'), 8) + tail';
    Cancel(tag, tag, BigEndian(|c|, 8) + (c + rest), BigEndian(|c'|, 8) + (c' + rest'));
    Cancel(BigEndian(|c|, 8), BigEndian(|c'|, 8), c + rest, c' + rest');
    EightBytes(|c|, |c'|);
    Cancel(c, c', rest, rest');
    Cancel(BigEndian(Signed64(g), 8), BigEndian(Signed64(g'), 8), tail, tail');
    EightBytes(Signed64(g), Signed64(g'));
    Cancel(BigEndian(|n|, 8), BigEndian(|n'|, 8), n + s, n' + s');
    EightBytes(|n|, |n'|);
    Cancel(n, n', s, s');
  }
}
