/** Number printing and scanning in the C library: the digit loops of lib/libxc/doprnt.c, the
    sign and overflow handling of its decimal formats, _innum of lib/libxc/doscan.c and
    lib/libxc/atoi.c, on 32-bit longs. */
module Numbers {
  import opened QSort

  const TWO32: int := 0x1_0000_0000
  const MAXLONG: int := 0x7fff_ffff
  const BILLION: int := 1_000_000_000

  predicate IsLong(x: int) { -0x8000_0000 <= x <= MAXLONG }

  /** What a 32-bit long holds of an integer. */
  function Long(x: int): (r: int)
    ensures IsLong(r)
  {
    var r := x % TWO32;
    if r > MAXLONG then r - TWO32 else r
  }

  /** What a digit k stands for at place w. */
  function Weight(k: nat, b: nat, w: nat): nat { if w == 0 then k else b * Weight(k, b, w - 1) }

  function Pow(b: nat, n: nat): nat { if n == 0 then 1 else b * Pow(b, n - 1) }

  // -------------------------------------------------------------------------------- digits

  const ALPHABET: string := "0123456789abcdef"

  function DigitChar(d: int): char
    requires 0 <= d < 16
  {
    ALPHABET[d]
  }

  /** The usual numeral of a number: no leading zeros, and "0" for zero. */
  function Numeral(n: nat, b: nat): (r: string)
    requires 2 <= b <= 16
    ensures |r| > 0
  {
    if n < b then [DigitChar(n)] else Numeral(n / b, b) + [DigitChar(n % b)]
  }

  /** The value of a digit character in the bases that scanning knows, -1 for other ones. */
  function DigitValue(c: char, b: int): int {
    if '0' <= c <= '9' then c as int - '0' as int
    else if b == 16 && 'a' <= c <= 'f' then c as int - 'a' as int + 10
    else if b == 16 && 'A' <= c <= 'F' then c as int - 'A' as int + 10
    else -1
  }

  /** Reading digits from the left. */
  function Reading(s: string, b: int, acc: int): int {
    if s == [] then acc else Reading(s[1..], b, acc * b + DigitValue(s[0], b))
  }

  lemma {:induction false} ReadingAppend(s: string, c: char, b: int, acc: int)
    ensures Reading(s + [c], b, acc) == Reading(s, b, acc) * b + DigitValue(c, b)
    decreases |s|
  {
    if s != [] {
      assert (s + [c])[1..] == s[1..] + [c];
      ReadingAppend(s[1..], c, b, acc * b + DigitValue(s[0], b));
    } else {
      assert (s + [c])[1..] == [];
    }
  }

  predicate ScanBase(b: int) { b == 8 || b == 10 || b == 16 }

  lemma CharValue(d: int, b: int)
    requires ScanBase(b) && 0 <= d < b
    ensures DigitValue(DigitChar(d), b) == d
    ensures DigitChar(d) != '-' && DigitChar(d) != '+' && DigitChar(d) != ' ' && DigitChar(d) != '\t' && DigitChar(d) != '\n'
  {
  }

  lemma DivMod(n: int, b: nat)
    requires b > 0
    ensures n == n / b * b + n % b && 0 <= n % b < b
  {
  }

  predicate Plain(c: char, b: int) { DigitValue(c, b) >= 0 && c !in {'-', '+', ' ', '\t', '\n'} }

  /** A numeral consists of digits only. */
  lemma {:induction false} NumeralPlain(n: nat, b: nat)
    requires ScanBase(b)
    ensures forall k :: 0 <= k < |Numeral(n, b)| ==> Plain(Numeral(n, b)[k], b)
    decreases n
  {
    if n < b {
      CharValue(n, b);
    } else {
      NumeralPlain(n / b, b);
      CharValue(n % b, b);
    }
  }

  /** And it reads as its number. */
  lemma {:induction false} NumeralReads(n: nat, b: nat)
    requires ScanBase(b)
    ensures Reading(Numeral(n, b), b, 0) == n
    decreases n
  {
    if n < b {
      CharValue(n, b);
      assert Numeral(n, b) == [] + [DigitChar(n)];
      ReadingAppend([], DigitChar(n), b, 0);
    } else {
      NumeralReads(n / b, b);
      CharValue(n % b, b);
      DivMod(n, b);
      hide Reading, DigitValue;
      ReadingAppend(Numeral(n / b, b), DigitChar(n % b), b, 0);
    }
  }

  lemma PlainDigit(d: nat)
    requires 0 < d < 16
    ensures DigitChar(d) != '0'
  {
  }

  lemma {:induction false} NumeralFirst(n: nat, b: nat)
    requires 2 <= b <= 16 && n > 0
    ensures Numeral(n, b)[0] != '0'
    decreases n
  {
    if n >= b {
      DivMod(n, b);
      NumeralFirst(n / b, b);
    } else {
      PlainDigit(n);
    }
  }

  // ------------------------------------------------------------------------ the digit loops

  /** The w low digits of a number, lowest first, as the loops fill their buffers. */
  function Low(x: int, b: nat, w: nat): (r: string)
    requires 2 <= b <= 16
    ensures |r| == w
    decreases w
  {
    if w == 0 then [] else [DigitChar(x % b)] + Low(x / b, b, w - 1)
  }

  function Reverse(s: string): (r: string)
    ensures |r| == |s|
  {
    seq(|s|, k requires 0 <= k < |s| => s[|s| - 1 - k])
  }

  function Zeros(n: nat): (r: string)
    ensures |r| == n
  {
    seq(n, _ => '0')
  }

  /** The low digits of a number are those of its remainder. */
  lemma ModStep(x: int, b: nat, p: nat)
    requires b > 0 && p > 0
    ensures b * p > 0 && x % (b * p) == b * (x / b % p) + x % b
  {
    var q, d := x / b, x % b;
    var t, r := q / p, q % p;
    assert x == b * q + d && q == p * t + r;
    assert b * q == b * (p * t) + b * r;
    assert b * (p * t) == t * (b * p);
    assert 0 <= b * r + d < b * p by {
      assert b * r <= b * (p - 1);
      assert b * (p - 1) == b * p - b;
    }
    Unique(b * p, x / (b * p), x % (b * p), t, b * r + d);
  }

  lemma ZeroTail(c: char, w: nat)
    ensures [c] + (Reverse(['0']) + Zeros(w)) == Reverse([c]) + Zeros(w + 1)
  {
  }

  lemma NumeralTail(n: string, c: char, w: nat)
    ensures [c] + (Reverse(n) + Zeros(w)) == Reverse(n + [c]) + Zeros(w)
  {
  }

  /** The numeral of a number by its last digit. */
  lemma NumeralStep(m: nat, b: nat, m1: nat, d: nat)
    requires 2 <= b <= 16 && d < b && m == b * m1 + d
    ensures Numeral(m, b) == if m1 == 0 then [DigitChar(d)] else Numeral(m1, b) + [DigitChar(d)]
  {
    if m1 > 0 { assert b * m1 >= b; }
    Quotient(m, b, m1, d);
    DivMod(m, b);
    Unique(b, m / b, m % b, m1, d);
    assert m % b == d;
  }

  /** Filled to width w, a buffer holds the numeral backwards and then zeros. */
  lemma {:induction false} LowNumeral(x: int, b: nat, w: nat)
    requires 2 <= b <= 16 && w >= 1
    ensures Pow(b, w) > 0
    ensures
      var n := Numeral(x % Pow(b, w), b);
      |n| <= w && Low(x, b, w) == Reverse(n) + Zeros(w - |n|)
    decreases w
  {
    hide Reverse, Zeros, Pow, Low, Numeral, DigitChar;
    PowPositive(b, w - 1);
    PowPositive(b, w);
    LowUnfold(x, b, w);
    var d, m1 := x % b, x / b % Pow(b, w - 1);
    NumeralStep(x % Pow(b, w), b, m1, d);
    if w == 1 {
      OneLow(x, b);
    } else {
      LowNumeral(x / b, b, w - 1);
      if m1 == 0 {
        ZeroTail(DigitChar(d), w - 2);
        NumeralZero(b);
      } else {
        NumeralTail(Numeral(m1, b), DigitChar(d), w - 1 - |Numeral(m1, b)|);
      }
    }
  }

  lemma NumeralZero(b: nat)
    requires 2 <= b <= 16
    ensures Numeral(0, b) == ['0']
  {
  }

  lemma LowUnfold(x: int, b: nat, w: nat)
    requires 2 <= b <= 16 && w >= 1 && Pow(b, w - 1) > 0
    ensures Pow(b, w) > 0 && 0 <= x % b < b && Low(x, b, w) == [DigitChar(x % b)] + Low(x / b, b, w - 1)
    ensures x % Pow(b, w) == b * (x / b % Pow(b, w - 1)) + x % b
  {
    ModStep(x, b, Pow(b, w - 1));
  }

  lemma OneLow(x: int, b: nat)
    requires 2 <= b <= 16
    ensures 0 <= x % b < b && x / b % Pow(b, 0) == 0 && Low(x, b, 1) == Reverse([DigitChar(x % b)]) + Zeros(0)
  {
    assert Low(x / b, b, 0) == [];
    assert Pow(b, 0) == 1;
  }

  lemma {:induction false} PowPositive(b: nat, n: nat)
    requires b > 0
    ensures Pow(b, n) > 0
  {
    if n > 0 { PowPositive(b, n - 1); }
  }

  /** One step of adding at the top: the last digit is left alone. */
  lemma AddedAbove(y: nat, k: nat, w: nat)
    requires w > 0 && y + Weight(k, 8, w) < Weight(1, 8, w + 1)
    ensures Low(y, 8, w + 1) == [DigitChar(y % 8)] + Low(y / 8, 8, w)
    ensures Low(y + Weight(k, 8, w), 8, w + 1) == [DigitChar(y % 8)] + Low(y / 8 + Weight(k, 8, w - 1), 8, w)
    ensures y / 8 + Weight(k, 8, w - 1) < Weight(1, 8, w)
  {
    var j := Weight(k, 8, w - 1);
    assert Weight(1, 8, w + 1) == 8 * Weight(1, 8, w);
    assert (y + 8 * j) / 8 == y / 8 + j && (y + 8 * j) % 8 == y % 8;
  }

  lemma Tucked(c: char, s: string, i: nat, z: char)
    requires i < |s|
    ensures ([c] + s)[i + 1] == s[i] && ([c] + s)[i + 1 := z] == [c] + s[i := z]
  {
  }

  lemma OnlyDigit(y: nat, k: nat)
    requires y + Weight(k, 8, 0) < Weight(1, 8, 1)
    ensures y + k < 8 && Low(y, 8, 1) == [DigitChar(y)] && Low(y + Weight(k, 8, 0), 8, 1) == [DigitChar(y + k)]
  {
    assert Weight(1, 8, 1) == 8;
    assert Low(y / 8, 8, 0) == [] && Low((y + k) / 8, 8, 0) == [];
  }

  /** Adding k to the top octal digit of a buffer adds its weight to the number. */
  lemma {:induction false} LowTop(y: nat, k: nat, w: nat) returns (t: nat)
    requires y + Weight(k, 8, w) < Weight(1, 8, w + 1)
    ensures t + k < 8 && Low(y, 8, w + 1)[w] == DigitChar(t)
    ensures Low(y + Weight(k, 8, w), 8, w + 1) == Low(y, 8, w + 1)[w := DigitChar(t + k)]
    decreases w
  {
    hide Low, Weight, DigitChar;
    if w == 0 {
      t := y;
      OnlyDigit(y, k);
    } else {
      AddedAbove(y, k, w);
      t := LowTop(y / 8, k, w - 1);
      Tucked(DigitChar(y % 8), Low(y / 8, 8, w), w - 1, DigitChar(t + k));
    }
  }

  lemma PowValues()
    ensures Pow(8, 10) == 0x4000_0000 && Pow(8, 11) == 0x2_0000_0000 && Pow(16, 8) == TWO32 && Pow(2, 32) == TWO32
    ensures Pow(10, 9) == BILLION && Pow(10, 10) == 10 * BILLION
  {
    assert Pow(8, 5) == 0x8000;
    assert Pow(2, 8) == 0x100 && Pow(2, 16) == 0x1_0000 && Pow(2, 24) == 0x100_0000;
    assert Pow(10, 5) == 100000;
  }

  lemma TopWeights(k: nat)
    ensures Weight(4, 8, 10) == TWO32 && Weight(1, 8, 11) == 0x2_0000_0000
    ensures Weight(k, 10, 9) == k * BILLION && Weight(k, 10, 10) == 10 * k * BILLION
  {
    assert Weight(4, 8, 5) == 4 * 0x8000;
    assert Weight(1, 8, 5) == 0x8000 && Weight(1, 8, 10) == 0x4000_0000;
    assert Weight(k, 10, 1) == 10 * k && Weight(k, 10, 2) == 100 * k && Weight(k, 10, 3) == 1000 * k;
    assert Weight(k, 10, 4) == 10_000 * k && Weight(k, 10, 5) == 100_000 * k && Weight(k, 10, 6) == 1000_000 * k;
    assert Weight(k, 10, 7) == 10_000_000 * k && Weight(k, 10, 8) == 100_000_000 * k;
  }

  lemma LowFirst(x: int, b: nat, w: nat)
    requires 2 <= b <= 16 && w >= 1
    ensures 0 <= x % b < b && Low(x, b, w) == [DigitChar(x % b)] + Low(x / b, b, w - 1)
  {
  }

  lemma LowNone(x: int, b: nat)
    requires 2 <= b <= 16
    ensures Low(x, b, 0) == []
  {
  }

  /** The loops of the _prt functions that fill a buffer, from its second place on. */
  method Fill(x: int, b: nat, w: nat) returns (temp: array<char>)
    requires 2 <= b <= 16
    ensures fresh(temp) && temp.Length == w + 1 && temp[0] == '\0' && temp[1..] == Low(x, b, w)
  {
    hide Low;
    temp := new char[w + 1](_ => '\0');
    var i, num := 1, x;
    assert temp[1..1] == [];
    while i <= w
      invariant 1 <= i <= w + 1 && temp[0] == '\0'
      invariant Low(x, b, w) == temp[1..i] + Low(num, b, w - i + 1)
    {
      LowFirst(num, b, w - i + 1);
      ghost var done := temp[1..i];
      temp[i] := DigitChar(num % b);
      assert temp[1..i + 1] == done + [temp[i]];
      num := num / b;
      i := i + 1;
    }
    LowNone(num, b);
    assert temp[1..] == temp[1..i];
  }

  /** The loops that skip the leading zeros and copy the rest, from the top. */
  method Emit(temp: array<char>, w: nat, ghost n: string) returns (str: string)
    requires w >= 1 && temp.Length == w + 1 && temp[0] == '\0' && 1 <= |n| <= w
    requires temp[1..] == Reverse(n) + Zeros(w - |n|) && (n == ['0'] || n[0] != '0')
    ensures str == n
  {
    assert forall k {:trigger temp[k]} :: 1 <= k <= w ==> temp[k] == temp[1..][k - 1];
    var i := w;
    while temp[i] == '0'
      invariant 0 <= i <= w && (n == ['0'] || |n| <= i)
      decreases i
    {
      i := i - 1;
    }
    if i == 0 {
      i := i + 1;
    }
    assert i == |n|;
    str := [];
    while i >= 1
      invariant 0 <= i <= |n| && str == n[..|n| - i]
    {
      str := str + [temp[i]];
      i := i - 1;
    }
  }

  /** The body that `_prtl10`, `_prtl16` and `_prtl2` share, by base and width: the numeral
      of the low digits. The operators of base ten truncate, so there the number is not
      negative. */
  method Prtl(x: int, b: nat, w: nat) returns (str: string)
    requires 2 <= b <= 16 && w >= 1 && (b == 10 ==> x >= 0)
    ensures Pow(b, w) > 0 && str == Numeral(x % Pow(b, w), b)
  {
    LowNumeral(x, b, w);
    ghost var n := x % Pow(b, w);
    if n > 0 { NumeralFirst(n, b); }
    var temp := Fill(x, b, w);
    str := Emit(temp, w, Numeral(n, b));
  }

  /** `_prtl16`: all 32 bits in hexadecimal. */
  method Prtl16(x: int) returns (str: string)
    ensures str == Numeral(x % TWO32, 16)
  {
    PowValues();
    str := Prtl(x, 16, 8);
  }

  /** `_prtl2`: all 32 bits. */
  method Prtl2(x: int) returns (str: string)
    ensures str == Numeral(x % TWO32, 2)
  {
    PowValues();
    str := Prtl(x, 2, 32);
  }

  /** `temp[11] &= '3'`: the top octal digit of 33 bits loses its highest bit. */
  function Mask3(c: char): char {
    if '4' <= c <= '7' then (c as int - 4) as char else c
  }

  /** `_prtl8`: eleven octal digits, the top one masked to two bits, are the 32 bits. */
  method Prtl8(x: int) returns (str: string)
    ensures str == Numeral(x % TWO32, 8)
  {
    hide Pow, Low, Numeral, Reverse, Zeros;
    PowValues();
    OctalTop(x);
    LowNumeral(x % TWO32, 8, 11);
    ghost var n := x % TWO32;
    if n > 0 { NumeralFirst(n, 8); } else { NumeralZero(8); }
    var temp := Fill(x, 8, 11);
    ghost var filled := temp[1..];
    temp[11] := Mask3(temp[11]);
    assert temp[1..] == filled[10 := Mask3(filled[10])];
    str := Emit(temp, 11, Numeral(n, 8));
  }

  /** A buffer depends on the remainder only. */
  lemma SameLow(x: int, y: int, b: nat, w: nat)
    requires 2 <= b <= 16 && w >= 1 && Pow(b, w) > 0 && x % Pow(b, w) == y % Pow(b, w)
    ensures Low(x, b, w) == Low(y, b, w)
  {
    LowNumeral(x, b, w);
    LowNumeral(y, b, w);
  }

  lemma Bit33(x: int)
    ensures x % 0x2_0000_0000 == x % TWO32 || x % 0x2_0000_0000 == x % TWO32 + TWO32
    ensures x % 0x2_0000_0000 % 0x2_0000_0000 == x % 0x2_0000_0000
  {
    ModStep(x, TWO32, 2);
  }

  lemma Masked(t: nat)
    requires t < 4
    ensures Mask3(DigitChar(t + 4)) == DigitChar(t) && Mask3(DigitChar(t)) == DigitChar(t)
  {
  }

  lemma OctalTop(x: int)
    ensures Low(x, 8, 11)[10 := Mask3(Low(x, 8, 11)[10])] == Low(x % TWO32, 8, 11)
  {
    hide Weight, Pow, Low, DigitChar, Mask3;
    PowValues();
    TopWeights(0);
    var m, y := x % 0x2_0000_0000, x % TWO32;
    Bit33(x);
    SameLow(x, m, 8, 11);
    var t := LowTop(y, 4, 10);
    Masked(t);
  }

  // ----------------------------------------------------------------- the decimal formats

  /** One step of adding at the front: the last digit is left alone. */
  lemma AddedInFront(m: nat, k: nat, w: nat)
    requires w > 0 && Weight(1, 10, w) <= m && m + Weight(k, 10, w) < Weight(1, 10, w + 1)
    ensures Weight(1, 10, w - 1) <= m / 10 && m / 10 + Weight(k, 10, w - 1) < Weight(1, 10, w)
    ensures Numeral(m, 10) == Numeral(m / 10, 10) + [DigitChar(m % 10)]
    ensures
      Numeral(m + Weight(k, 10, w), 10) == Numeral(m / 10 + Weight(k, 10, w - 1), 10) + [DigitChar(m % 10)]
  {
    hide Weight, Numeral, DigitChar;
    TenTimes(k, w);
    TenTimes(1, w);
    TenTimes(1, w + 1);
    WeightPositive(10, w - 1);
    TenMore(m, Weight(k, 10, w - 1));
  }

  lemma TenTimes(k: nat, w: nat)
    requires w > 0
    ensures Weight(k, 10, w) == 10 * Weight(k, 10, w - 1)
  {
  }

  lemma TenMore(m: nat, j: nat)
    requires m >= 10
    ensures Numeral(m, 10) == Numeral(m / 10, 10) + [DigitChar(m % 10)]
    ensures Numeral(m + 10 * j, 10) == Numeral(m / 10 + j, 10) + [DigitChar(m % 10)]
    ensures (m + 10 * j) / 10 == m / 10 + j
  {
  }

  lemma {:induction false} WeightPositive(b: nat, n: nat)
    requires b > 0
    ensures Weight(1, b, n) > 0
  {
    if n > 0 { WeightPositive(b, n - 1); }
  }

  /** Adding k to the first digit of a numeral of w + 1 digits adds its weight. */
  lemma {:induction false} FirstDigitPlus(m: nat, k: nat, w: nat)
    requires Weight(1, 10, w) <= m && m + Weight(k, 10, w) < Weight(1, 10, w + 1)
    ensures
      var n := Numeral(m, 10);
      |n| == w + 1 && n[0] as int + k <= '9' as int
      && Numeral(m + Weight(k, 10, w), 10) == n[0 := (n[0] as int + k) as char]
    decreases w
  {
    hide Weight, Numeral, DigitChar;
    if w == 0 {
      OneDigitPlus(m, k);
    } else {
      AddedInFront(m, k, w);
      FirstDigitPlus(m / 10, k, w - 1);
      Led(Numeral(m / 10, 10), DigitChar(m % 10), k);
    }
  }

  lemma Led(s: string, c: char, k: nat)
    requires |s| > 0 && s[0] as int + k <= '9' as int
    ensures |s + [c]| == |s| + 1 && (s + [c])[0] == s[0]
    ensures (s + [c])[0 := (s[0] as int + k) as char] == s[0 := (s[0] as int + k) as char] + [c]
  {
  }

  lemma OneDigitPlus(m: nat, k: nat)
    requires Weight(1, 10, 0) <= m && m + Weight(k, 10, 0) < Weight(1, 10, 1)
    ensures
      var n := Numeral(m, 10);
      |n| == 1 && n[0] as int + k <= '9' as int
      && Numeral(m + Weight(k, 10, 0), 10) == n[0 := (n[0] as int + k) as char]
  {
    assert Weight(1, 10, 1) == 10;
    assert Numeral(m, 10) == [DigitChar(m)] && Numeral(m + k, 10) == [DigitChar(m + k)];
    assert DigitChar(m) as int == m + '0' as int && DigitChar(m + k) as int == m + k + '0' as int;
  }

  /** Billions are taken off a 32-bit value until it reads as positive: at most three, and
      what is left has ten digits. */
  method TakeBillions(v: int) returns (args: int, digit1: int)
    requires IsLong(v)
    ensures 0 <= args <= MAXLONG && 0 <= digit1 <= 3 && args + digit1 * BILLION == v % TWO32
    ensures digit1 > 0 ==> args >= BILLION
  {
    args, digit1 := v, 0;
    while args < 0
      invariant IsLong(args) && 0 <= digit1 <= 3
      invariant args % TWO32 + digit1 * BILLION == v % TWO32
      invariant digit1 > 0 ==> args % TWO32 >= BILLION
      decreases args % TWO32
    {
      args := Long(args - BILLION);
      digit1 := digit1 + 1;
    }
  }

  /** %u: a value with its top bit set is made positive by taking billions off, which come
      back on the first digit. */
  method PrintU(v: int) returns (str: string)
    requires IsLong(v)
    ensures str == Numeral(v % TWO32, 10)
  {
    hide Weight, Pow, Numeral;
    PowValues();
    TopWeights(1);
    var args, digit1 := TakeBillions(v);
    TopWeights(digit1);
    str := Prtl(args, 10, 10);
    assert args % (10 * BILLION) == args;
    if digit1 > 0 {
      FirstDigitPlus(args, digit1, 9);
    }
    str := str[0 := (str[0] as int + digit1) as char];
  }

  /** %d: the sign apart, also for the one value that has no positive counterpart. */
  method PrintD(v: int) returns (neg: bool, str: string)
    requires IsLong(v)
    ensures neg == (v < 0) && str == Numeral(if v < 0 then -v else v, 10)
  {
    hide Numeral;
    var args := v;
    neg := false;
    if args < 0 {
      neg := true;
      args := Long(-args);
    }
    str := PrintU(args);
    assert args % TWO32 == if v < 0 then -v else v;
  }

  // ------------------------------------------------------------------------------- scanning

  /** What scanning a number finds: whether there was one, its value, how far it reaches and
      whether the input ends there. */
  datatype Scan = Scan(matched: bool, value: int, used: nat, atEnd: bool)

  predicate Blank(c: char, newline: bool) { c == ' ' || c == '\t' || (newline && c == '\n') }

  function Skip(s: string, newline: bool): (k: nat)
    ensures k <= |s|
  {
    if s != [] && Blank(s[0], newline) then 1 + Skip(s[1..], newline) else 0
  }

  /** How many digits the text starts with, len at most. */
  function Run(s: string, b: int, len: int): (k: nat)
    ensures k <= |s|
  {
    if s != [] && len > 0 && DigitValue(s[0], b) >= 0 then 1 + Run(s[1..], b, len - 1) else 0
  }

  /** Blanks, an optional sign, digits; a bare minus sign counts as a number. */
  function ScanOf(s: string, newline: bool, b: int, len: int): Scan {
    var k := Skip(s, newline);
    var neg := k < |s| && s[k] == '-';
    var e := if neg || (k < |s| && s[k] == '+') then k + 1 else k;
    DigitsAt(s, e, neg, b, len - (e - k))
  }

  function DigitsAt(s: string, e: nat, neg: bool, b: int, len: int): Scan
    requires e <= |s|
  {
    var d := Run(s[e..], b, len);
    var n := Reading(s[e..][..d], b, 0);
    Scan(neg || d > 0, Long(if neg then -n else n), e + d, e + d == |s|)
  }

  /** Wrapping at every step or once at the end is the same. */
  lemma LongOf(x: int, k: int)
    ensures Long(x + k * TWO32) == Long(x)
  {
    DivMod(x, TWO32);
    Quotient(x + k * TWO32, TWO32, x / TWO32 + k, x % TWO32);
    DivMod(x + k * TWO32, TWO32);
  }

  lemma LongIs(x: int) returns (k: int)
    ensures Long(x) == x + k * TWO32
  {
    DivMod(x, TWO32);
    k := if x % TWO32 > MAXLONG then -(x / TWO32) - 1 else -(x / TWO32);
  }

  lemma LongTimes(x: int, b: int, d: int)
    ensures Long(Long(x) * b + d) == Long(x * b + d)
  {
    var k := LongIs(x);
    assert (x + k * TWO32) * b + d == x * b + d + (k * b) * TWO32;
    LongOf(x * b + d, k * b);
  }

  lemma LongPlus(x: int, d: int)
    ensures Long(Long(x) + d) == Long(x + d)
  {
    LongTimes(x, 1, d);
  }

  /** `lcval` times the base: a shift, or for base ten two shifts and an addition. */
  function Scaled(x: int, b: int): (r: int)
    requires ScanBase(b)
  {
    if b == 8 then Long(x * 8)
    else if b == 10 then Long(Long(Long(x * 4) + x) * 2)
    else Long(x * 16)
  }

  lemma ScaledIs(x: int, b: int)
    requires ScanBase(b)
    ensures Scaled(x, b) == Long(x * b)
  {
    LongPlus(x * 4, x);
    LongTimes(x * 4 + x, 2, 0);
  }

  lemma DigitStep(n: int, b: int, d: int)
    requires ScanBase(b)
    ensures Long(Scaled(Long(n), b) + d) == Long(n * b + d)
  {
    ScaledIs(Long(n), b);
    LongTimes(n, b, 0);
    LongPlus(n * b, d);
  }

  /** The loop over the blanks. */
  method SkipBlanks(s: string, newline: bool) returns (p: nat)
    ensures p == Skip(s, newline)
  {
    p := 0;
    while p < |s| && Blank(s[p], newline)
      invariant p <= |s| && Skip(s, newline) == p + Skip(s[p..], newline)
    {
      assert s[p..][0] == s[p] && s[p..][1..] == s[p + 1..];
      p := p + 1;
    }
    assert p < |s| ==> s[p..][0] == s[p];
  }

  lemma LongMinus(x: int)
    ensures Long(-Long(x)) == Long(-x)
  {
    LongTimes(x, -1, 0);
  }

  lemma LongZero()
    ensures Long(0) == 0
  {
  }

  lemma NothingRead(u: string, b: int)
    ensures Reading(u[..0], b, 0) == 0
  {
  }

  /** One digit more. */
  lemma Taken(u: string, d: nat, b: int, k: int)
    requires d < |u| && d < k && DigitValue(u[d], b) >= 0
    ensures Run(u[d..], b, k - d) == 1 + Run(u[d + 1..], b, k - d - 1)
    ensures Reading(u[..d + 1], b, 0) == Reading(u[..d], b, 0) * b + DigitValue(u[d], b)
  {
    assert u[d..][0] == u[d] && u[d..][1..] == u[d + 1..] && u[..d + 1] == u[..d] + [u[d]];
    ReadingAppend(u[..d], u[d], b, 0);
  }

  lemma Stops(u: string, d: nat, b: int, k: int)
    requires d <= |u| && (d == |u| || d >= k || DigitValue(u[d], b) < 0)
    ensures Run(u[d..], b, k - d) == 0
  {
  }

  /** The digit loop of _innum, from place p on. */
  method ReadDigits(s: string, p: nat, b: int, len0: int) returns (lcval: int, d: nat)
    requires p <= |s| && ScanBase(b)
    ensures d == Run(s[p..], b, len0) && lcval == Long(Reading(s[p..][..d], b, 0))
  {
    hide Scaled, Long, DigitValue, Run, Reading;
    ghost var u := s[p..];
    var len := len0;
    lcval, d := 0, 0;
    LongZero();
    NothingRead(u, b);
    while len > 0 && p + d < |s| && DigitValue(s[p + d], b) >= 0
      invariant d <= |u| && len == len0 - d
      invariant Run(u, b, len0) == d + Run(u[d..], b, len) && lcval == Long(Reading(u[..d], b, 0))
      decreases |u| - d
    {
      Taken(u, d, b, len0);
      DigitStep(Reading(u[..d], b, 0), b, DigitValue(s[p + d], b));
      lcval := Long(Scaled(lcval, b) + DigitValue(s[p + d], b));
      d, len := d + 1, len - 1;
    }
    Stops(u, d, b, len0);
  }

  /** The body of _innum for the integer conversions, as far as a non-null pointer goes. */
  method Innum(s: string, b: int, len0: int) returns (r: Scan)
    requires ScanBase(b)
    ensures r == ScanOf(s, true, b, len0)
  {
    hide Long, Run, Reading, Skip;
    var p := SkipBlanks(s, true);
    var len, negflg, np: nat := len0, false, 0;
    if p < |s| && s[p] == '-' {
      negflg, np := true, 1;
      p := p + 1;
      len := len - 1;
    } else if p < |s| && s[p] == '+' {
      len := len - 1;
      p := p + 1;
    }
    var lcval, d := ReadDigits(s, p, b, len);
    LongMinus(Reading(s[p..][..d], b, 0));
    if negflg {
      lcval := Long(-lcval);
    }
    r := Scan(np + d > 0, lcval, p + d, p + d == |s|);
  }

  /** atoi: blanks and tabs only, base ten, no width. */
  method Atoi(s: string) returns (n: int)
    ensures n == ScanOf(s, false, 10, |s|).value
  {
    hide Long, DigitValue, Run, Reading, Skip;
    var p := SkipBlanks(s, false);
    ghost var k := |s| + p;
    var f := false;
    if p < |s| && (s[p] == '-' || s[p] == '+') {
      f := s[p] == '-';
      p := p + 1;
    }
    k := k - p;
    ghost var u, d := s[p..], 0;
    n := 0;
    LongZero();
    NothingRead(u, 10);
    DecimalDigits();
    while p < |s| && '0' <= s[p] <= '9'
      invariant p + |u| - d == |s| && d <= |u| && s[p..] == u[d..]
      invariant Run(u, 10, k) == d + Run(u[d..], 10, k - d) && n == Long(Reading(u[..d], 10, 0))
      decreases |s| - p
    {
      assert s[p] == s[p..][0] == u[d..][0] == u[d];
      Taken(u, d, 10, k);
      LongTimes(Reading(u[..d], 10, 0), 10, DigitValue(s[p], 10));
      n := Long(n * 10 + (s[p] as int - '0' as int));
      p, d := p + 1, d + 1;
    }
    assert p < |s| ==> s[p] == s[p..][0] == u[d..][0] == u[d];
    Stops(u, d, 10, k);
    LongMinus(Reading(u[..d], 10, 0));
    if f {
      n := Long(-n);
    }
  }

  lemma DecimalDigits()
    ensures forall c: char :: DigitValue(c, 10) == if '0' <= c <= '9' then c as int - '0' as int else -1
  {
  }

  // ------------------------------------------------------------------------------ round trips

  predicate AllBlank(s: string, newline: bool) { forall k :: 0 <= k < |s| ==> Blank(s[k], newline) }

  /** Text that cannot continue a number. */
  predicate Ends(rest: string, b: int) { rest == [] || DigitValue(rest[0], b) < 0 }

  function Printed(neg: bool, n: nat, b: nat): string
    requires 2 <= b <= 16
  {
    (if neg then ['-'] else []) + Numeral(n, b)
  }

  lemma {:induction false} SkipPast(pre: string, s: string, newline: bool)
    requires AllBlank(pre, newline) && (s == [] || !Blank(s[0], newline))
    ensures Skip(pre + s, newline) == |pre|
  {
    if pre == [] {
      assert pre + s == s;
    } else {
      assert (pre + s)[1..] == pre[1..] + s;
      SkipPast(pre[1..], s, newline);
    }
  }

  lemma {:induction false} RunPast(digits: string, rest: string, b: int, len: int)
    requires forall k :: 0 <= k < |digits| ==> DigitValue(digits[k], b) >= 0
    requires Ends(rest, b) && len >= |digits|
    ensures Run(digits + rest, b, len) == |digits|
  {
    if digits == [] {
      assert digits + rest == rest;
    } else {
      assert (digits + rest)[1..] == digits[1..] + rest;
      RunPast(digits[1..], rest, b, len - 1);
    }
  }

  lemma FoundDigits(s: string, e: nat, neg: bool, b: int, len: int, m: string, rest: string)
    requires e <= |s| && s[e..] == m + rest && |m| > 0 && Ends(rest, b) && len >= |m|
    requires forall j :: 0 <= j < |m| ==> DigitValue(m[j], b) >= 0
    ensures
      var n := Reading(m, b, 0);
      DigitsAt(s, e, neg, b, len) == Scan(true, Long(if neg then -n else n), e + |m|, rest == [])
  {
    hide Long, Reading, Run, DigitValue, Ends;
    RunPast(m, rest, b, len);
    assert (m + rest)[..|m|] == m;
    assert |s[e..]| == |s| - e;
  }

  /** Scanning finds a printed number between blanks and whatever cannot continue it. */
  lemma ScanPrinted(pre: string, neg: bool, n: nat, rest: string, newline: bool, b: nat, len: int)
    requires ScanBase(b) && AllBlank(pre, newline) && Ends(rest, b) && len >= |Printed(neg, n, b)|
    ensures
      var t := Printed(neg, n, b);
      ScanOf(pre + t + rest, newline, b, len) == Scan(true, Long(if neg then 0 - n else n), |pre| + |t|, rest == [])
  {
    hide Long, Numeral, Reading, Skip, Run, DigitValue, ScanOf, DigitsAt, Ends;
    var m, t := Numeral(n, b), Printed(neg, n, b);
    NumeralPlain(n, b);
    NumeralReads(n, b);
    assert Plain(m[0], b);
    var s, e := pre + t + rest, |pre| + if neg then 1 else 0;
    Between(pre, t, rest);
    SkipPast(pre, t + rest, newline);
    assert t[|t| - |m|..] == m;
    FoundDigits(s, e, neg, b, len - (e - |pre|), m, rest);
    SignAt(s, newline, b, len, |pre|);
  }

  lemma SignAt(s: string, newline: bool, b: int, len: int, k: nat)
    requires Skip(s, newline) == k < |s|
    ensures s[k] == '-' ==> ScanOf(s, newline, b, len) == DigitsAt(s, k + 1, true, b, len - 1)
    ensures s[k] != '-' && s[k] != '+' ==> ScanOf(s, newline, b, len) == DigitsAt(s, k, false, b, len)
  {
  }

  lemma Between(pre: string, t: string, rest: string)
    requires |t| > 0
    ensures var s := pre + t + rest; s == pre + (t + rest) && s[|pre|] == t[0] == (t + rest)[0]
    ensures forall j :: 0 <= j <= |t| ==> (pre + t + rest)[|pre| + j..] == t[j..] + rest
  {
  }

  /** Scanning what %d prints returns the value, for every long. */
  lemma DecimalRoundTrip(v: int, pre: string, rest: string)
    requires IsLong(v) && AllBlank(pre, true) && Ends(rest, 10)
    ensures
      var t := Printed(v < 0, if v < 0 then -v else v, 10);
      ScanOf(pre + t + rest, true, 10, 30000) == Scan(true, v, |pre| + |t|, rest == [])
  {
    var n: nat := if v < 0 then -v else v;
    PowValues();
    NumeralWidth(n, 10, 10);
    ScanPrinted(pre, v < 0, n, rest, true, 10, 30000);
    LongSame(v);
  }

  /** Scanning what %u, %o and %x print in the same base returns the value: the wrap-around
      brings the sign back. */
  lemma UnsignedRoundTrip(v: int, b: nat, pre: string, rest: string)
    requires IsLong(v) && ScanBase(b) && AllBlank(pre, true) && Ends(rest, b)
    ensures
      var t := Numeral(v % TWO32, b);
      ScanOf(pre + t + rest, true, b, 30000) == Scan(true, v, |pre| + |t|, rest == [])
  {
    var n: nat := v % TWO32;
    PowValues();
    NumeralWidth(n, b, if b == 8 then 11 else if b == 10 then 10 else 8);
    assert Printed(false, n, b) == Numeral(n, b);
    ScanPrinted(pre, false, n, rest, true, b, 30000);
    LongSame(v);
  }

  /** And atoi undoes %d. */
  lemma AtoiRoundTrip(v: int, pre: string, rest: string)
    requires IsLong(v) && AllBlank(pre, false) && Ends(rest, 10)
    ensures
      var s := pre + Printed(v < 0, if v < 0 then -v else v, 10) + rest;
      ScanOf(s, false, 10, |s|).value == v
  {
    var n: nat := if v < 0 then -v else v;
    ScanPrinted(pre, v < 0, n, rest, false, 10, |pre + Printed(v < 0, n, 10) + rest|);
    LongSame(v);
  }

  lemma LongSame(v: int)
    requires IsLong(v)
    ensures Long(v) == v && Long(v % TWO32) == v
  {
  }

  lemma NumeralWidth(n: nat, b: nat, w: nat)
    requires 2 <= b <= 16 && w >= 1 && n < Pow(b, w)
    ensures |Numeral(n, b)| <= w
  {
    hide Pow, Low, Numeral;
    LowNumeral(n, b, w);
    SmallMod(n, Pow(b, w));
  }

  lemma SmallMod(n: nat, p: int)
    requires n < p
    ensures n % p == n
  {
  }

  // --------------------------------------------------------------- what scanning tells apart

  /** The same character, or the same hexadecimal digit as a small and as a capital letter. */
  predicate SameDigit(c: char, d: char) {
    c == d || ('a' <= c <= 'f' && d as int == c as int - 32) || ('a' <= d <= 'f' && c as int == d as int - 32)
  }

  lemma SameValue(c: char, d: char, newline: bool)
    requires SameDigit(c, d)
    ensures DigitValue(c, 16) == DigitValue(d, 16) && Blank(c, newline) == Blank(d, newline) && (c == '-') == (d == '-') && (c == '+') == (d == '+')
  {
  }

  ghost predicate SameDigits(s: string, t: string) { |s| == |t| && forall k :: 0 <= k < |s| ==> SameDigit(s[k], t[k]) }

  lemma SameRest(s: string, t: string, k: nat)
    requires SameDigits(s, t) && k <= |s|
    ensures SameDigits(s[k..], t[k..]) && SameDigits(s[..k], t[..k])
  {
  }

  lemma {:induction false} SameSkip(s: string, t: string, newline: bool)
    requires SameDigits(s, t)
    ensures Skip(s, newline) == Skip(t, newline)
  {
    if s != [] {
      SameValue(s[0], t[0], newline);
      SameRest(s, t, 1);
      SameSkip(s[1..], t[1..], newline);
    }
  }

  lemma {:induction false} SameRun(s: string, t: string, len: int)
    requires SameDigits(s, t)
    ensures Run(s, 16, len) == Run(t, 16, len)
  {
    if s != [] {
      SameValue(s[0], t[0], true);
      SameRest(s, t, 1);
      SameRun(s[1..], t[1..], len - 1);
    }
  }

  lemma {:induction false} SameReading(s: string, t: string, acc: int)
    requires SameDigits(s, t)
    ensures Reading(s, 16, acc) == Reading(t, 16, acc)
    decreases |s|
  {
    if s != [] {
      SameValue(s[0], t[0], true);
      SameRest(s, t, 1);
      SameReading(s[1..], t[1..], acc * 16 + DigitValue(s[0], 16));
    }
  }

  lemma SameDigitsAt(s: string, t: string, e: nat, neg: bool, len: int)
    requires SameDigits(s, t) && e <= |s|
    ensures DigitsAt(s, e, neg, 16, len) == DigitsAt(t, e, neg, 16, len)
  {
    hide Long, Reading, Run, SameDigits;
    SameLength(s, t);
    SameRest(s, t, e);
    SameRun(s[e..], t[e..], len);
    var d := Run(s[e..], 16, len);
    SameRest(s[e..], t[e..], d);
    SameReading(s[e..][..d], t[e..][..d], 0);
  }

  lemma SameLength(s: string, t: string)
    requires SameDigits(s, t)
    ensures |s| == |t|
  {
  }

  /** Hexadecimal scanning reads small and capital letters alike. */
  lemma CaseBlind(s: string, t: string, newline: bool, len: int)
    requires SameDigits(s, t)
    ensures ScanOf(s, newline, 16, len) == ScanOf(t, newline, 16, len)
  {
    hide DigitsAt, Skip, DigitValue, Blank;
    SameSkip(s, t, newline);
    var k := Skip(s, newline);
    if k < |s| { SameValue(s[k], t[k], newline); }
    var neg := k < |s| && s[k] == '-';
    var e := if neg || (k < |s| && s[k] == '+') then k + 1 else k;
    hide SameDigits, SameDigit;
    SameDigitsAt(s, t, e, neg, len - (e - k));
  }

  lemma OneLater(c: char, s: string, e: nat, neg: bool, b: int, len: int)
    requires e <= |s|
    ensures var r := DigitsAt(s, e, neg, b, len); DigitsAt([c] + s, e + 1, neg, b, len) == r.(used := r.used + 1)
  {
    hide Long, Reading, Run;
    assert ([c] + s)[e + 1..] == s[e..];
  }

  /** A newline before the number is skipped by scanf and ends the text for atoi. */
  lemma NewlineApart(rest: string, b: int, len: int)
    requires ScanBase(b)
    ensures ScanOf(['\n'] + rest, false, b, len).value == 0 && !ScanOf(['\n'] + rest, false, b, len).matched
    ensures var r := ScanOf(rest, true, b, len); ScanOf(['\n'] + rest, true, b, len) == r.(used := r.used + 1)
  {
    hide DigitsAt, Run, Reading, Long, DigitValue;
    var s := ['\n'] + rest;
    StartsNot(s, b, len);
    assert s[1..] == rest;
    var k := Skip(rest, true);
    assert k < |rest| ==> s[k + 1] == rest[k];
    var neg := k < |rest| && rest[k] == '-';
    var e := if neg || (k < |rest| && rest[k] == '+') then k + 1 else k;
    OneLater('\n', rest, e, neg, b, len - (e - k));
  }

  lemma StartsNot(s: string, b: int, len: int)
    requires s != [] && s[0] == '\n'
    ensures DigitsAt(s, 0, false, b, len).value == 0 && !DigitsAt(s, 0, false, b, len).matched
  {
    assert s[0..] == s && Run(s, b, len) == 0;
    assert s[..0] == [];
  }
}
