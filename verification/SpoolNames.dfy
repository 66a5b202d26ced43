/** Spool file names: a 20-digit zero-padded sequence number and the suffix `.json`. */
module SpoolNames {
  import opened Wrappers
  import opened SpoolSequence

  const WIDTH: nat := 20
  const SUFFIX := ".json"

  function DigitChar(d: nat): char
    requires d < 10
  {
    ('0' as int + d) as char
  }

  predicate IsDigit(c: char) {
    '0' <= c <= '9'
  }

  function DigitValue(c: char): nat
    requires IsDigit(c)
  {
    c as int - '0' as int
  }

  predicate AllDigits(s: string) {
    forall i | 0 <= i < |s| :: IsDigit(s[i])
  }

  /** The last `width` decimal digits of a number, padded with zeros. */
  function Pad(n: nat, width: nat): (s: string)
    ensures |s| == width && AllDigits(s)
  {
    if width == 0 then "" else Pad(n / 10, width - 1) + [DigitChar(n % 10)]
  }

  function Value(s: string): nat
    requires AllDigits(s)
  {
    if s == "" then 0 else Value(s[..|s| - 1]) * 10 + DigitValue(s[|s| - 1])
  }

  function Filename(sequence: nat): string {
    Pad(sequence, WIDTH) + SUFFIX
  }

  /** Exactly 20 digits and the suffix; the number must fit in 64 bits and not be zero. */
  function ParseFilename(name: string): Option<nat> {
    if |name| != WIDTH + |SUFFIX| || name[|name| - |SUFFIX|..] != SUFFIX then None
    else
      var digits := name[..|name| - |SUFFIX|];
      if !AllDigits(digits) || Value(digits) > U64_MAX || Value(digits) == 0 then None else Some(Value(digits))
  }

  function Pow10(e: nat): nat {
    if e == 0 then 1 else 10 * Pow10(e - 1)
  }

  lemma {:induction false} ValueOfPad(n: nat, width: nat)
    requires n < Pow10(width)
    ensures Value(Pad(n, width)) == n
  {
    if width != 0 {
      ValueOfPad(n / 10, width - 1);
      var s := Pad(n, width);
      assert s[..|s| - 1] == Pad(n / 10, width - 1);
    }
  }

  lemma SplitDigit(v: nat, d: nat)
    requires d < 10
    ensures (v * 10 + d) / 10 == v && (v * 10 + d) % 10 == d
  {
  }

  lemma DigitRoundTrip(c: char)
    requires IsDigit(c)
    ensures DigitValue(c) < 10 && DigitChar(DigitValue(c)) == c
  {
  }

  lemma PadSplit(v: nat, d: nat, width: nat)
    requires d < 10
    ensures Pad(v * 10 + d, width + 1) == Pad(v, width) + [DigitChar(d)]
  {
    SplitDigit(v, d);
  }

  lemma {:induction false} PadOfValue(s: string)
    requires AllDigits(s)
    ensures Pad(Value(s), |s|) == s
  {
    if s != "" {
      var front, last := s[..|s| - 1], s[|s| - 1];
      PadOfValue(front);
      DigitRoundTrip(last);
      PadSplit(Value(front), DigitValue(last), |front|);
      assert s == front + [last];
    }
  }

  lemma SequencesFitTheWidth()
    ensures U64_MAX < Pow10(WIDTH)
  {
    assert Pow10(5) == 100_000;
    assert Pow10(10) == 10_000_000_000;
    assert Pow10(15) == 1_000_000_000_000_000;
  }

  /** The name of every nonzero 64-bit sequence number parses back to it. */
  lemma ParseInvertsFilename(sequence: nat)
    requires 1 <= sequence <= U64_MAX
    ensures ParseFilename(Filename(sequence)) == Some(sequence)
  {
    SequencesFitTheWidth();
    ValueOfPad(sequence, WIDTH);
    var name := Filename(sequence);
    assert name[..WIDTH] == Pad(sequence, WIDTH);
    assert name[WIDTH..] == SUFFIX;
  }

  /** Every accepted name is the one name of its number, so two files never share a sequence number. */
  lemma FilenameInvertsParse(name: string)
    requires ParseFilename(name).Some?
    ensures 1 <= ParseFilename(name).value <= U64_MAX && Filename(ParseFilename(name).value) == name
  {
    var digits := name[..|name| - |SUFFIX|];
    PadOfValue(digits);
    assert name == digits + name[|name| - |SUFFIX|..];
  }
}
