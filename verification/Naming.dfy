/**
 Serial numbers and BSSIDs (src/SimulationRunner.cpp, src/OWLSclient.cpp, src/framework/utils.cpp).
 */
module Naming {
  import opened Common

  const DEVICE_SPACE: nat := 0x10_0000  // 16^5: what five hex digits can number

  const TWO_48: nat := 0x1_0000_0000_0000

  const DEVICE_DIGITS: nat := 5
  const SERIAL_DIGITS: nat := 12

  function HexDigit(n: nat): char
    requires n < 16
  {
    "0123456789abcdef"[n]
  }

  function DigitValue(c: char): Option<nat>
  {
    if '0' <= c <= '9' then Some(c as nat - '0' as nat)
    else if 'a' <= c <= 'f' then Some(c as nat - 'a' as nat + 10)
    else if 'A' <= c <= 'F' then Some(c as nat - 'A' as nat + 10)
    else None
  }

  predicate IsHex(s: string)
  {
    forall i | 0 <= i < |s| :: DigitValue(s[i]).Some?
  }

  function Pow16(k: nat): (r: nat)
    ensures r > 0
  {
    if k == 0 then 1 else 16 * Pow16(k - 1)
  }

  /** printf's %x */
  function Hex(n: nat): string
  {
    if n < 16 then [HexDigit(n)] else Hex(n / 16) + [HexDigit(n % 16)]
  }

  function ZeroPadded(s: string, width: nat): string
    decreases width - |s|
  {
    if |s| >= width then s else ZeroPadded("0" + s, width)
  }

  /** The serial number of device `n`: macPrefix, then %05x of the device number as unsigned int, then 0. */
  function Serial(macPrefix: string, n: nat): string
  {
    macPrefix + ZeroPadded(Hex(n % 0x1_0000_0000), DEVICE_DIGITS) + "0"
  }

  function Serials(macPrefix: string, first: nat, end: nat): set<string>
  {
    set d | first <= d < end :: Serial(macPrefix, d)
  }

  lemma SerialsSnoc(macPrefix: string, first: nat, d: nat)
    requires |macPrefix| == 6 && first <= d < DEVICE_SPACE
    ensures Serials(macPrefix, first, d + 1) == Serials(macPrefix, first, d) + {Serial(macPrefix, d)}
    ensures Serial(macPrefix, d) !in Serials(macPrefix, first, d)
  {
    forall e | first <= e < d ensures Serial(macPrefix, e) != Serial(macPrefix, d) {
      SerialsDistinct(macPrefix, e, d);
    }
  }

  lemma OneMoreSerial(macPrefix: string, first: nat, d: nat)
    requires |macPrefix| == 6 && first <= d < DEVICE_SPACE
    ensures |Serials(macPrefix, first, d + 1)| == |Serials(macPrefix, first, d)| + 1
  {
    SerialsSnoc(macPrefix, first, d);
  }

  lemma {:induction false} SerialsCount(macPrefix: string, first: nat, end: nat)
    requires |macPrefix| == 6 && first <= end <= DEVICE_SPACE
    ensures |Serials(macPrefix, first, end)| == end - first
    decreases end
  {
    if first < end {
      SerialsCount(macPrefix, first, end - 1);
      OneMoreSerial(macPrefix, first, end - 1);
    } else {
      assert Serials(macPrefix, first, end) == {};
    }
  }

  /** The lowest `k` hex digits of a number, as IntToSerialNumber writes them (k == 12 there). */
  function LowDigits(n: nat, k: nat): string
  {
    if k == 0 then "" else LowDigits(n / 16, k - 1) + [HexDigit(n % 16)]
  }

  /** The longest start of a text made of hex digits. */
  function HexRun(s: string): string
  {
    if s == "" || DigitValue(s[0]).None? then "" else [s[0]] + HexRun(s[1..])
  }

  function HexValue(s: string): nat
    requires IsHex(s)
  {
    if s == "" then 0 else HexValue(s[..|s| - 1]) * 16 + DigitValue(s[|s| - 1]).value
  }

  lemma {:induction false} HexRunIsHex(s: string)
    ensures IsHex(HexRun(s))
  {
    if s != "" { HexRunIsHex(s[1..]); }
  }

  /** isspace in the C locale. */
  predicate IsBlank(c: char)
  {
    c == ' ' || 9 <= c as int <= 13
  }

  function SkipBlanks(s: string): string
  {
    if s == "" || !IsBlank(s[0]) then s else SkipBlanks(s[1..])
  }

  predicate IsNegative(s: string)
  {
    var t := SkipBlanks(s);
    t != "" && t[0] == '-'
  }

  function SkipSign(s: string): string
  {
    if s != "" && (s[0] == '+' || s[0] == '-') then s[1..] else s
  }

  /** An 0x or 0X counts as a prefix only if a hex digit follows. */
  function SkipHexPrefix(s: string): string
  {
    if |s| >= 3 && s[0] == '0' && (s[1] == 'x' || s[1] == 'X') && DigitValue(s[2]).Some? then s[2..] else s
  }

  /** Where std::stoull(s, nullptr, 16) looks for its digits. */
  function NumberPart(s: string): string
  {
    SkipHexPrefix(SkipSign(SkipBlanks(s)))
  }

  /** A number as stoull returns it; after a minus sign, its negative modulo 2^64. */
  function Signed(v: nat, negative: bool): nat
  {
    if negative then (0 - v) % TWO_64 else v
  }

  /** Utils::SerialNumberToInt of a text of at most 16 characters; None where stoull throws. */
  function SerialToInt(s: string): Option<nat>
  {
    var digits := HexRun(NumberPart(s));
    HexRunIsHex(NumberPart(s));
    if digits == "" then None
    else Some(Signed(HexValue(digits), IsNegative(s)))
  }

  /** Utils::SerialToMAC of a 12-character serial number. */
  function Colons(s: string): string
    requires |s| == 12
  {
    s[0..2] + ":" + s[2..4] + ":" + s[4..6] + ":" + s[6..8] + ":" + s[8..10] + ":" + s[10..12]
  }

  /** The BSSID built from a device's serial as a number and the index of the (ssid, band) pair. */
  function Bssid(serial: nat, index: nat): string
  {
    LowLength(serial + index, SERIAL_DIGITS);
    Colons(LowDigits(serial + index, SERIAL_DIGITS))
  }

  lemma {:induction false} LowLength(n: nat, k: nat)
    ensures |LowDigits(n, k)| == k
  {
    if k > 0 { LowLength(n / 16, k - 1); }
  }

  lemma HexDigitValue(n: nat)
    requires n < 16
    ensures DigitValue(HexDigit(n)) == Some(n)
  {
  }

  lemma HexSnoc(s: string, d: nat)
    requires IsHex(s) && d < 16
    ensures IsHex(s + [HexDigit(d)]) && HexValue(s + [HexDigit(d)]) == HexValue(s) * 16 + d
  {
    HexDigitValue(d);
    assert (s + [HexDigit(d)])[..|s|] == s;
  }

  lemma {:induction false} Gap(a: nat, b: nat, m: nat)
    requires a < b
    ensures a * m + m <= b * m
  {
    if a + 1 < b {
      Gap(a, b - 1, m);
      assert b * m == (b - 1) * m + m;
    } else {
      assert b * m == a * m + m;
    }
  }

  lemma RemainderIs(n: nat, m: nat, times: nat, rest: nat)
    requires rest < m && n == times * m + rest
    ensures n % m == rest
  {
    var q := n / m;
    assert n == q * m + n % m;
    if q < times {
      Gap(q, times, m);
    } else if times < q {
      Gap(times, q, m);
    }
  }

  lemma DigitByDigit(n: nat, p: nat)
    requires p > 0
    ensures n / 16 % p * 16 + n % 16 == n % (16 * p)
  {
    var q, times := n / 16, n / 16 / p;
    assert q == times * p + q % p;
    assert n == times * (16 * p) + (q % p * 16 + n % 16) by {
      Distribute(times, p, q % p);
    }
    RemainderIs(n, 16 * p, times, q % p * 16 + n % 16);
  }

  lemma Distribute(times: nat, p: nat, rest: nat)
    ensures (times * p + rest) * 16 == times * (16 * p) + rest * 16
  {
  }

  /** k low digits are the number modulo 16^k. */
  lemma {:induction false} LowValue(n: nat, k: nat)
    ensures IsHex(LowDigits(n, k)) && HexValue(LowDigits(n, k)) == n % Pow16(k)
  {
    if k > 0 {
      LowValue(n / 16, k - 1);
      HexSnoc(LowDigits(n / 16, k - 1), n % 16);
      DigitByDigit(n, Pow16(k - 1));
    }
  }

  lemma {:induction false} LeadingZeros(n: nat, k: nat, j: nat)
    requires n < Pow16(k)
    ensures LowDigits(n, k + j) == Zeros(j) + LowDigits(n, k)
  {
    if k > 0 {
      LeadingZeros(n / 16, k - 1, j);
    } else if j > 0 {
      LeadingZeros(0, 0, j - 1);
      assert Zeros(j) == Zeros(j - 1) + "0" by { ZerosSnoc(j); }
    }
  }

  function Zeros(j: nat): string
  {
    if j == 0 then "" else "0" + Zeros(j - 1)
  }

  lemma {:induction false} ZerosSnoc(j: nat)
    requires j > 0
    ensures Zeros(j) == Zeros(j - 1) + "0"
  {
    if j > 1 { ZerosSnoc(j - 1); }
  }

  lemma {:induction false} PaddedIsZeros(s: string, width: nat)
    requires |s| <= width
    ensures ZeroPadded(s, width) == Zeros(width - |s|) + s
    decreases width - |s|
  {
    if |s| < width {
      PaddedIsZeros("0" + s, width);
      ZerosSnoc(width - |s|);
    }
  }

  lemma {:induction false} HexIsLowDigits(n: nat, k: nat)
    requires k > 0 && n < Pow16(k)
    ensures 1 <= |Hex(n)| <= k && n < Pow16(|Hex(n)|) && Hex(n) == LowDigits(n, |Hex(n)|)
    decreases n
  {
    if n < 16 {
      assert LowDigits(n, 1) == LowDigits(n / 16, 0) + [HexDigit(n % 16)];
    } else {
      HexIsLowDigits(n / 16, k - 1);
    }
  }

  lemma PowersOf16()
    ensures Pow16(DEVICE_DIGITS) == DEVICE_SPACE && Pow16(6) == 0x100_0000 && Pow16(SERIAL_DIGITS) == 0x1_0000_0000_0000
  {
  }

  lemma PaddedDigits(n: nat)
    requires n < Pow16(DEVICE_DIGITS)
    ensures ZeroPadded(Hex(n), DEVICE_DIGITS) == LowDigits(n, DEVICE_DIGITS)
  {
    HexIsLowDigits(n, DEVICE_DIGITS);
    var h := Hex(n);
    var j := DEVICE_DIGITS - |h|;
    LeadingZeros(n, |h|, j);
    PaddedIsZeros(h, DEVICE_DIGITS);
    assert |h| + j == DEVICE_DIGITS;
  }

  /** Five digits are enough below 16^5, so the number is zero-padded and never widened. */
  lemma SerialDigits(macPrefix: string, n: nat)
    requires n < DEVICE_SPACE
    ensures Serial(macPrefix, n) == macPrefix + LowDigits(n, DEVICE_DIGITS) + "0"
  {
    SmallNumber(n);
    DeviceIsPadded(n);
  }

  lemma SmallNumber(n: nat)
    requires n < 0x1_0000_0000
    ensures n % 0x1_0000_0000 == n
  {
  }

  lemma DeviceIsPadded(n: nat)
    requires n < DEVICE_SPACE
    ensures ZeroPadded(Hex(n), DEVICE_DIGITS) == LowDigits(n, DEVICE_DIGITS)
  {
    PowersOf16();
    PaddedDigits(n);
  }

  lemma {:induction false} DigitsReadBack(n: nat, k: nat)
    requires n < Pow16(k)
    ensures |LowDigits(n, k)| == k && IsHex(LowDigits(n, k)) && HexValue(LowDigits(n, k)) == n
  {
    LowLength(n, k);
    LowValue(n, k);
    RemainderIs(n, Pow16(k), 0, n);
  }

  lemma DeviceDigits(n: nat)
    requires n < DEVICE_SPACE
    ensures var d := LowDigits(n, DEVICE_DIGITS); |d| == DEVICE_DIGITS && IsHex(d) && HexValue(d) == n
  {
    PowersOf16();
    DigitsReadBack(n, DEVICE_DIGITS);
  }

  /** Serial numbers are 12 characters long and their hex part reads back as the device number. */
  lemma SerialReadsBack(macPrefix: string, n: nat)
    requires |macPrefix| == 6 && n < DEVICE_SPACE
    ensures var s := Serial(macPrefix, n);
      |s| == 12 && s[..6] == macPrefix && IsHex(s[6..11]) && HexValue(s[6..11]) == n && s[11] == '0'
  {
    SerialDigits(macPrefix, n);
    DeviceDigits(n);
    assert Serial(macPrefix, n)[6..11] == LowDigits(n, DEVICE_DIGITS);
  }

  /** No two devices of a simulation share a serial number. */
  lemma SerialsDistinct(macPrefix: string, n: nat, m: nat)
    requires |macPrefix| == 6 && n < DEVICE_SPACE && m < DEVICE_SPACE
    ensures Serial(macPrefix, n) == Serial(macPrefix, m) ==> n == m
  {
    SerialReadsBack(macPrefix, n);
    SerialReadsBack(macPrefix, m);
  }

  lemma Shift(x: nat, p: nat, y: nat)
    ensures (x * p + y) * 16 == x * (16 * p) + y * 16
  {
  }

  lemma {:induction false} ValueOfConcat(a: string, b: string)
    requires IsHex(a) && IsHex(b)
    ensures IsHex(a + b) && HexValue(a + b) == HexValue(a) * Pow16(|b|) + HexValue(b)
  {
    if b == "" {
      assert a + b == a;
    } else {
      var c := b[..|b| - 1];
      ValueOfConcat(a, c);
      assert (a + b)[..|a + b| - 1] == a + c;
      assert (a + b)[|a + b| - 1] == b[|b| - 1];
      Shift(HexValue(a), Pow16(|c|), HexValue(c));
      assert Pow16(|b|) == 16 * Pow16(|c|);
    }
  }

  lemma {:induction false} ValueBound(s: string)
    requires IsHex(s)
    ensures HexValue(s) < Pow16(|s|)
  {
    if s != "" { ValueBound(s[..|s| - 1]); }
  }

  lemma {:induction false} HexRunOfHex(s: string)
    requires IsHex(s)
    ensures HexRun(s) == s
  {
    if s != "" { HexRunOfHex(s[1..]); }
  }

  lemma {:induction false} HexRunStops(s: string, t: string)
    requires !IsHex(s)
    ensures HexRun(s + t) == HexRun(s)
  {
    if DigitValue(s[0]).Some? {
      assert (s + t)[1..] == s[1..] + t;
      HexRunStops(s[1..], t);
    }
  }

  lemma TailAsNumber(n: nat)
    requires n < DEVICE_SPACE
    ensures var tail := LowDigits(n, DEVICE_DIGITS) + "0"; |tail| == 6 && IsHex(tail) && HexValue(tail) == n * 16
  {
    DeviceDigits(n);
    HexSnoc(LowDigits(n, DEVICE_DIGITS), 0);
    assert [HexDigit(0)] == "0";
  }

  lemma {:induction false} PowGrows(a: nat, b: nat)
    requires a <= b
    ensures Pow16(a) <= Pow16(b)
    decreases b
  {
    if a < b { PowGrows(a, b - 1); }
  }

  lemma ReadWhole(a: string, b: string)
    requires IsHex(a) && IsHex(b) && |a| <= |b| == 6
    ensures HexValue(a) < Pow16(6) && HexValue(b) < Pow16(6)
    ensures IsHex(a + b) && HexRun(a + b) == a + b && HexValue(a + b) == HexValue(a) * Pow16(6) + HexValue(b)
  {
    ValueBound(a);
    ValueBound(b);
    PowGrows(|a|, 6);
    ValueOfConcat(a, b);
    HexRunOfHex(a + b);
  }

  // ---- What stoull makes of a serial number -----------------------------------------------------

  /** What is left of a macPrefix for the digits, given that hex digits follow it. */
  function DigitPart(macPrefix: string): string
  {
    var t := SkipSign(SkipBlanks(macPrefix));
    if |t| >= 2 && t[0] == '0' && (t[1] == 'x' || t[1] == 'X') && (|t| == 2 || DigitValue(t[2]).Some?)
    then t[2..]
    else t
  }

  lemma DigitPartIsShorter(macPrefix: string)
    ensures |DigitPart(macPrefix)| <= |macPrefix|
  {
    BlanksAreShorter(macPrefix);
  }

  lemma {:induction false} BlanksAreShorter(s: string)
    ensures |SkipBlanks(s)| <= |s|
  {
    if s != "" { BlanksAreShorter(s[1..]); }
  }

  lemma {:induction false} BlanksBefore(s: string, tail: string)
    requires tail != "" && !IsBlank(tail[0])
    ensures SkipBlanks(s + tail) == SkipBlanks(s) + tail
  {
    if s == "" {
      assert s + tail == tail;
    } else if IsBlank(s[0]) {
      assert (s + tail)[1..] == s[1..] + tail;
      BlanksBefore(s[1..], tail);
    }
  }

  lemma SignBefore(s: string, tail: string)
    requires tail != "" && tail[0] != '+' && tail[0] != '-'
    ensures SkipSign(s + tail) == SkipSign(s) + tail
  {
    if s == "" {
      assert s + tail == tail;
    } else {
      assert (s + tail)[1..] == s[1..] + tail;
    }
  }

  lemma HexPrefixBefore(t: string, tail: string)
    requires |tail| >= 2 && DigitValue(tail[0]).Some? && DigitValue(tail[1]).Some?
    ensures SkipHexPrefix(t + tail) ==
      (if |t| >= 2 && t[0] == '0' && (t[1] == 'x' || t[1] == 'X') && (|t| == 2 || DigitValue(t[2]).Some?)
       then t[2..] else t) + tail
  {
    if |t| >= 2 {
      assert (t + tail)[2..] == t[2..] + tail;
    } else {
      assert (t + tail)[1] == (if |t| == 1 then tail[0] else tail[1]);
    }
  }

  lemma NumberPartOf(macPrefix: string, tail: string)
    requires |tail| >= 2 && IsHex(tail)
    ensures NumberPart(macPrefix + tail) == DigitPart(macPrefix) + tail
    ensures IsNegative(macPrefix + tail) == IsNegative(macPrefix)
  {
    assert DigitValue(tail[0]).Some? && DigitValue(tail[1]).Some?;
    BlanksBefore(macPrefix, tail);
    SignBefore(SkipBlanks(macPrefix), tail);
    HexPrefixBefore(SkipSign(SkipBlanks(macPrefix)), tail);
  }

  /** The number in a serial: the digits of the prefix * 16^6 + device * 16. */
  function Magnitude(macPrefix: string, n: nat): nat
    requires IsHex(DigitPart(macPrefix))
  {
    HexValue(DigitPart(macPrefix)) * 0x100_0000 + n * 16
  }

  lemma SerialHasTail(macPrefix: string, n: nat) returns (tail: string)
    requires n < DEVICE_SPACE
    ensures Serial(macPrefix, n) == macPrefix + tail
    ensures |tail| == 6 && IsHex(tail) && HexValue(tail) == n * 16
  {
    tail := LowDigits(n, DEVICE_DIGITS) + "0";
    TailAsNumber(n);
    SerialDigits(macPrefix, n);
    assert macPrefix + LowDigits(n, DEVICE_DIGITS) + "0" == macPrefix + tail;
  }

  /** A serial whose prefix, after blanks, sign and 0x, is hex reads as its magnitude, or 2^64 less it. */
  lemma SerialAsNumber(macPrefix: string, n: nat)
    requires |macPrefix| == 6 && IsHex(DigitPart(macPrefix)) && n < DEVICE_SPACE
    ensures Magnitude(macPrefix, n) < TWO_48
    ensures SerialToInt(Serial(macPrefix, n)) == Some(Signed(Magnitude(macPrefix, n), IsNegative(macPrefix)))
  {
    PowersOf16();
    var tail := SerialHasTail(macPrefix, n);
    DigitPartIsShorter(macPrefix);
    NumberPartOf(macPrefix, tail);
    ReadWhole(DigitPart(macPrefix), tail);
  }

  /** stoull throws exactly when what is left of the prefix does not begin with a hex digit. */
  lemma SerialThrowsIff(macPrefix: string, n: nat)
    requires |macPrefix| == 6 && n < DEVICE_SPACE
    ensures var digits := DigitPart(macPrefix);
      SerialToInt(Serial(macPrefix, n)).None? <==> digits != "" && DigitValue(digits[0]).None?
  {
    var tail := SerialHasTail(macPrefix, n);
    NumberPartOf(macPrefix, tail);
    var digits := DigitPart(macPrefix);
    assert (digits + tail)[0] == if digits == "" then tail[0] else digits[0];
    assert digits == "" ==> DigitValue(tail[0]).Some?;
  }

  /** With any other prefix all devices read as the same number, if as any. */
  lemma OtherPrefixClashes(macPrefix: string, n: nat, m: nat)
    requires |macPrefix| == 6 && !IsHex(DigitPart(macPrefix)) && n < DEVICE_SPACE && m < DEVICE_SPACE
    ensures SerialToInt(Serial(macPrefix, n)) == SerialToInt(Serial(macPrefix, m))
  {
    var s := SerialHasTail(macPrefix, n);
    var t := SerialHasTail(macPrefix, m);
    NumberPartOf(macPrefix, s);
    NumberPartOf(macPrefix, t);
    HexRunStops(DigitPart(macPrefix), s);
    HexRunStops(DigitPart(macPrefix), t);
  }

  lemma {:induction false} BlanksAreSkipped(blanks: string, t: string)
    requires (forall i | 0 <= i < |blanks| :: IsBlank(blanks[i])) && t != "" && !IsBlank(t[0])
    ensures SkipBlanks(blanks + t) == t
  {
    if blanks == "" {
      assert blanks + t == t;
    } else {
      assert (blanks + t)[1..] == blanks[1..] + t;
      BlanksAreSkipped(blanks[1..], t);
    }
  }

  lemma {:induction false} RunOfDigits(digits: string, rest: string)
    requires IsHex(digits) && (rest == "" || DigitValue(rest[0]).None?)
    ensures HexRun(digits + rest) == digits
  {
    if digits == "" {
      assert digits + rest == rest;
    } else {
      assert (digits + rest)[1..] == digits[1..] + rest;
      RunOfDigits(digits[1..], rest);
    }
  }

  /** An x after a lone zero with a hex digit behind it. */
  predicate LooksPrefixed(digits: string, rest: string)
  {
    digits == "0" && |rest| >= 2 && (rest[0] == 'x' || rest[0] == 'X') && DigitValue(rest[1]).Some?
  }

  lemma PrefixIsSkipped(prefix: string, digits: string, rest: string)
    requires prefix == "" || prefix == "0x" || prefix == "0X"
    requires digits != "" && IsHex(digits) && (rest == "" || DigitValue(rest[0]).None?)
    requires prefix == "" ==> !LooksPrefixed(digits, rest)
    ensures SkipHexPrefix(prefix + (digits + rest)) == digits + rest
  {
    var all := prefix + (digits + rest);
    if prefix != "" {
      assert all[2..] == digits + rest && all[2] == digits[0];
    } else {
      assert all == digits + rest;
    }
  }

  lemma SignIsSkipped(sign: string, t: string)
    requires (sign == "" || sign == "+" || sign == "-") && t != "" && t[0] != '+' && t[0] != '-' && !IsBlank(t[0])
    ensures sign + t != "" && !IsBlank((sign + t)[0]) && SkipSign(sign + t) == t
    ensures (sign + t)[0] == '-' <==> sign == "-"
  {
    assert (sign + t)[|sign|..] == t;
  }

  lemma FirstOf(prefix: string, digits: string, rest: string)
    requires prefix == "" || prefix == "0x" || prefix == "0X"
    requires digits != "" && IsHex(digits)
    ensures var t := prefix + (digits + rest); t != "" && t[0] != '+' && t[0] != '-' && !IsBlank(t[0])
  {
    assert (prefix + (digits + rest))[0] == if prefix == "" then digits[0] else '0';
    assert DigitValue('+') == None && DigitValue('-') == None;
    assert DigitValue(digits[0]).Some?;
  }

  /**
   What stoull reads in base 16: blanks, one sign, 0x in front of a hex digit, and the hex digits up to the
   first other character; after a minus sign it returns the negative modulo 2^64.
   */
  lemma StoullReads(blanks: string, sign: string, prefix: string, digits: string, rest: string)
    requires forall i | 0 <= i < |blanks| :: blanks[i] == ' ' || '\t' <= blanks[i] <= '\r'
    requires sign == "" || sign == "+" || sign == "-"
    requires prefix == "" || prefix == "0x" || prefix == "0X"
    requires digits != "" && IsHex(digits) && (rest == "" || DigitValue(rest[0]).None?)
    requires prefix == "" ==> !LooksPrefixed(digits, rest)
    ensures SerialToInt(blanks + (sign + (prefix + (digits + rest)))) ==
      Some(if sign == "-" then (0 - HexValue(digits)) % 0x1_0000_0000_0000_0000 else HexValue(digits))
  {
    var t := prefix + (digits + rest);
    FirstOf(prefix, digits, rest);
    SignIsSkipped(sign, t);
    BlanksAreSkipped(blanks, sign + t);
    PrefixIsSkipped(prefix, digits, rest);
    RunOfDigits(digits, rest);
  }

  // ---- BSSIDs -----------------------------------------------------------------------------------

  predicate IsLowerHex(s: string)
  {
    forall i | 0 <= i < |s| :: '0' <= s[i] <= '9' || 'a' <= s[i] <= 'f'
  }

  lemma {:induction false} LowDigitsAreLower(n: nat, k: nat)
    ensures IsLowerHex(LowDigits(n, k))
  {
    if k > 0 {
      LowDigitsAreLower(n / 16, k - 1);
    }
  }

  /** The characters of a BSSID without its colons. */
  function WithoutColons(bssid: string): string
    requires |bssid| == 17
  {
    seq(12, k requires 0 <= k < 12 => bssid[k + k / 2])
  }

  /** Where the twelve characters and the five colons are. */
  lemma ColonsPlaces(s: string)
    requires |s| == 12
    ensures var c := Colons(s);
      && |c| == 17 && c[2] == c[5] == c[8] == c[11] == c[14] == ':'
      && c[0] == s[0] && c[1] == s[1] && c[3] == s[2] && c[4] == s[3] && c[6] == s[4] && c[7] == s[5]
      && c[9] == s[6] && c[10] == s[7] && c[12] == s[8] && c[13] == s[9] && c[15] == s[10] && c[16] == s[11]
  {
  }

  lemma ColonsAt(s: string)
    requires |s| == 12
    ensures |Colons(s)| == 17 && WithoutColons(Colons(s)) == s
    ensures forall k | 0 <= k < 5 :: Colons(s)[3 * k + 2] == ':'
  {
    var c := Colons(s);
    ColonsPlaces(s);
    forall k | 0 <= k < 5 ensures c[3 * k + 2] == ':' {
      assert k == 0 || k == 1 || k == 2 || k == 3 || k == 4;
    }
    forall k | 0 <= k < 12 ensures WithoutColons(c)[k] == s[k] {
      assert k == 0 || k == 1 || k == 2 || k == 3 || k == 4 || k == 5
          || k == 6 || k == 7 || k == 8 || k == 9 || k == 10 || k == 11;
    }
  }

  lemma ColonsInjective(s: string, t: string)
    requires |s| == |t| == 12 && Colons(s) == Colons(t)
    ensures s == t
  {
    ColonsAt(s);
    ColonsAt(t);
  }

  /**
   A BSSID has six pairs of lower-case hex digits with colons between them, and these are the digits of
   serial + index modulo 2^48.
   */
  lemma BssidReadsBack(serial: nat, index: nat)
    ensures var b := Bssid(serial, index);
      && |b| == 17 && (forall k | 0 <= k < 5 :: b[3 * k + 2] == ':')
      && IsLowerHex(WithoutColons(b)) && IsHex(WithoutColons(b))
      && HexValue(WithoutColons(b)) == (serial + index) % TWO_48
  {
    LowLength(serial + index, SERIAL_DIGITS);
    ColonsAt(LowDigits(serial + index, SERIAL_DIGITS));
    LowDigitsAreLower(serial + index, SERIAL_DIGITS);
    LowValue(serial + index, SERIAL_DIGITS);
    PowersOf16();
  }

  lemma SameLowDigits(x: nat, y: nat, k: nat)
    requires LowDigits(x, k) == LowDigits(y, k)
    ensures x % Pow16(k) == y % Pow16(k)
  {
    LowValue(x, k);
    LowValue(y, k);
  }

  /** Equal BSSIDs come from equal low 48 bits of serial + index. */
  lemma BssidInjective(x: nat, i: nat, y: nat, j: nat)
    requires Bssid(x, i) == Bssid(y, j)
    ensures (x + i) % TWO_48 == (y + j) % TWO_48
  {
    PowersOf16();
    LowLength(x + i, SERIAL_DIGITS);
    LowLength(y + j, SERIAL_DIGITS);
    ColonsInjective(LowDigits(x + i, SERIAL_DIGITS), LowDigits(y + j, SERIAL_DIGITS));
    SameLowDigits(x + i, y + j, SERIAL_DIGITS);
  }

  lemma CloseAndCongruent(x: int, y: int)
    requires x % TWO_48 == y % TWO_48 && x - y < TWO_48 && y - x < TWO_48
    ensures x == y
  {
  }

  lemma NegatedIndex(v: nat, i: nat)
    requires v < TWO_48
    ensures (Signed(v, true) + i) % TWO_48 == (i - v) % TWO_48
  {
    assert TWO_64 == 0x1_0000 * TWO_48;
    if v > 0 {
      assert Signed(v, true) == TWO_64 - v;
      assert TWO_64 - v + i == i - v + 0x1_0000 * TWO_48;
    }
  }

  /** Two (device, pair) combinations have BSSIDs, and different ones unless they are the same. */
  predicate Distinct(macPrefix: string, n: nat, i: nat, m: nat, j: nat)
  {
    var a := SerialToInt(Serial(macPrefix, n));
    var b := SerialToInt(Serial(macPrefix, m));
    a.Some? && b.Some? && (Bssid(a.value, i) == Bssid(b.value, j) ==> n == m && i == j)
  }

  lemma HexPrefixDistinct(macPrefix: string, n: nat, i: nat, m: nat, j: nat)
    requires |macPrefix| == 6 && IsHex(DigitPart(macPrefix)) && n < DEVICE_SPACE && m < DEVICE_SPACE
    requires 1 <= i <= 15 && 1 <= j <= 15
    ensures Distinct(macPrefix, n, i, m, j)
  {
    SerialAsNumber(macPrefix, n);
    SerialAsNumber(macPrefix, m);
    var p := HexValue(DigitPart(macPrefix)) * 0x100_0000;
    var a, b := SerialToInt(Serial(macPrefix, n)).value, SerialToInt(Serial(macPrefix, m)).value;
    if Bssid(a, i) == Bssid(b, j) {
      EqualBssids(p, IsNegative(macPrefix), n, i, m, j, a, b);
    }
  }

  lemma EqualBssids(p: nat, negative: bool, n: nat, i: nat, m: nat, j: nat, a: nat, b: nat)
    requires n < DEVICE_SPACE && m < DEVICE_SPACE && 1 <= i <= 15 && 1 <= j <= 15
    requires p + n * 16 < TWO_48 && p + m * 16 < TWO_48
    requires a == Signed(p + n * 16, negative) && b == Signed(p + m * 16, negative) && Bssid(a, i) == Bssid(b, j)
    ensures n == m && i == j
  {
    BssidInjective(a, i, b, j);
    SameMagnitude(p, negative, n, i, m, j);
  }

  lemma SameMagnitude(p: nat, negative: bool, n: nat, i: nat, m: nat, j: nat)
    requires n < DEVICE_SPACE && m < DEVICE_SPACE && 1 <= i <= 15 && 1 <= j <= 15
    requires p + n * 16 < TWO_48 && p + m * 16 < TWO_48
    requires (Signed(p + n * 16, negative) + i) % TWO_48 == (Signed(p + m * 16, negative) + j) % TWO_48
    ensures n == m && i == j
  {
    var v, w := p + n * 16, p + m * 16;
    if negative {
      NegatedIndex(v, i);
      NegatedIndex(w, j);
      CloseAndCongruent(i - v, j - w);
    } else {
      CloseAndCongruent(v + i, w + j);
    }
  }

  /** All BSSIDs of a simulation, one per device and (ssid, band) pair of that device, exist and differ. */
  predicate BssidsDistinct(macPrefix: string, devices: nat)
  {
    forall n: nat, i: nat, m: nat, j: nat | n < devices && m < devices && 1 <= i <= 15 && 1 <= j <= 15 ::
      Distinct(macPrefix, n, i, m, j)
  }

  /**
   Whatever six characters the macPrefix has: the BSSIDs of two devices or more all exist and differ iff
   what stoull leaves of it, after blanks, a sign and 0x, consists of hex digits.
   */
  lemma BssidsDistinctIff(macPrefix: string, devices: nat)
    requires |macPrefix| == 6 && 2 <= devices <= DEVICE_SPACE
    ensures BssidsDistinct(macPrefix, devices) <==> IsHex(DigitPart(macPrefix))
  {
    if IsHex(DigitPart(macPrefix)) {
      forall n: nat, i: nat, m: nat, j: nat | n < devices && m < devices && 1 <= i <= 15 && 1 <= j <= 15
        ensures Distinct(macPrefix, n, i, m, j)
      {
        HexPrefixDistinct(macPrefix, n, i, m, j);
      }
    } else {
      OtherPrefixClashes(macPrefix, 0, 1);
      assert !Distinct(macPrefix, 0, 1, 1, 1);
    }
  }
}
