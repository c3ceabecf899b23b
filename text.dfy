/**
  * String helpers shared by the model: decimal rendering with Python's `{n:0Wd}` padding and
  * its inverse, `str.join`, `str.strip`, `str.lower` (ASCII), `str.replace` for one character,
  * the `in` substring test and the slice `s[:k]`.
  */
module Text {

  predicate IsDigit(c: char) { '0' <= c <= '9' }

  predicate AllDigits(s: string) { forall i :: 0 <= i < |s| ==> IsDigit(s[i]) }

  function DigitChar(d: nat): (c: char)
    requires d < 10
    ensures IsDigit(c)
  {
    ('0' as int + d) as char
  }

  function DigitValue(c: char): nat
    requires IsDigit(c)
  {
    c as int - '0' as int
  }

  /** Python's `str(n)` for a natural number: decimal digits, no leading zeros. */
  function NatToString(n: nat): (s: string)
    ensures |s| >= 1 && AllDigits(s)
  {
    if n < 10 then [DigitChar(n)] else NatToString(n / 10) + [DigitChar(n % 10)]
  }

  /** Reads a string of decimal digits as a number (leading zeros allowed). */
  function ParseNat(s: string): nat
    requires AllDigits(s)
  {
    if s == [] then 0 else 10 * ParseNat(s[..|s| - 1]) + DigitValue(s[|s| - 1])
  }

  /** Reading back what NatToString wrote gives the number again. */
  lemma {:induction false} ParseNatToString(n: nat)
    ensures ParseNat(NatToString(n)) == n
  {
    if n >= 10 {
      var a := NatToString(n / 10);
      assert NatToString(n) == a + [DigitChar(n % 10)];
      assert (a + [DigitChar(n % 10)])[..|a|] == a;
      ParseNatToString(n / 10);
    }
  }

  /** Short numbers have short renderings. */
  lemma NatToStringShort(n: nat)
    ensures n < 10 ==> |NatToString(n)| == 1
    ensures n < 100 ==> |NatToString(n)| <= 2
    ensures n < 1000 ==> |NatToString(n)| <= 3
  {
    if n >= 10 {
      NatToStringShort(n / 10);
    }
  }

  function Zeros(k: nat): (z: string)
    ensures |z| == k && AllDigits(z)
  {
    seq(k, _ => '0')
  }

  lemma {:induction false} ParseZeros(k: nat)
    ensures ParseNat(Zeros(k)) == 0
  {
    if k > 0 {
      assert Zeros(k)[..k - 1] == Zeros(k - 1);
      ParseZeros(k - 1);
    }
  }

  /** Leading zeros do not change the value read. */
  lemma {:induction false} ParseNatLeadingZeros(k: nat, s: string)
    requires AllDigits(s)
    ensures AllDigits(Zeros(k) + s) && ParseNat(Zeros(k) + s) == ParseNat(s)
  {
    if s == [] {
      assert Zeros(k) + s == Zeros(k);
      ParseZeros(k);
    } else {
      var t := s[..|s| - 1];
      assert (Zeros(k) + s)[..|Zeros(k) + s| - 1] == Zeros(k) + t;
      ParseNatLeadingZeros(k, t);
    }
  }

  /** Left-pads with '0' up to `width` characters. */
  function ZeroPad(s: string, width: int): (r: string)
    ensures |r| == if |s| >= width then |s| else width
  {
    if |s| >= width then s else Zeros(width - |s|) + s
  }

  /** Python's `f"{i:0{width}d}"` (and `f"{i}"` with width 0): sign first, then zero padding. */
  function FormatInt(i: int, width: int): string
  {
    if i < 0 then "-" + ZeroPad(NatToString(-i), width - 1) else ZeroPad(NatToString(i), width)
  }

  /** Python's `str(i)`. */
  function IntToString(i: int): string
  {
    FormatInt(i, 0)
  }

  /** A non-negative number rendered with padding is all digits, at least `width` long, and reads back as itself. */
  lemma FormatNatReadsBack(n: nat, width: int)
    ensures AllDigits(FormatInt(n, width))
    ensures |FormatInt(n, width)| >= width
    ensures ParseNat(FormatInt(n, width)) == n
  {
    var s := NatToString(n);
    ParseNatToString(n);
    if |s| < width {
      ParseNatLeadingZeros(width - |s|, s);
    }
  }

  /** Two-digit and three-digit fields are exactly as wide as their padding. */
  lemma FormatFieldWidth(n: nat)
    ensures n < 100 ==> |FormatInt(n, 2)| == 2
    ensures n < 1000 ==> |FormatInt(n, 3)| == 3
  {
    NatToStringShort(n);
  }

  /** Python's `sep.join(parts)`. */
  function Join(parts: seq<string>, sep: string): string
  {
    if |parts| == 0 then ""
    else if |parts| == 1 then parts[0]
    else parts[0] + sep + Join(parts[1..], sep)
  }

  /** Joining around one distinguished part: what comes before it, the part, what comes after. */
  lemma {:induction false} JoinAround(a: seq<string>, x: string, b: seq<string>, sep: string)
    ensures Join(a + [x] + b, sep)
         == (if a == [] then "" else Join(a, sep) + sep) + x + (if b == [] then "" else sep + Join(b, sep))
  {
    if a == [] {
      assert a + [x] + b == [x] + b;
      if b != [] {
        assert ([x] + b)[1..] == b;
      }
    } else {
      assert (a + [x] + b)[1..] == a[1..] + [x] + b;
      JoinAround(a[1..], x, b, sep);
      if |a| == 1 {
        assert a[1..] == [];
      }
    }
  }

  /** Python's `str.isspace()` characters, the ones `str.strip()` removes by default. */
  predicate IsPyWhitespace(c: char)
  {
    (9 <= c as int <= 13) || (28 <= c as int <= 32) || c as int == 0x85 || c as int == 0xA0
    || c as int == 0x1680 || (0x2000 <= c as int <= 0x200A) || c as int == 0x2028
    || c as int == 0x2029 || c as int == 0x202F || c as int == 0x205F || c as int == 0x3000
  }

  /** Drops leading characters for which `drop` holds: what remains is a suffix that starts with a kept character. */
  function StripLeft(s: string, drop: char -> bool): (r: string)
    ensures |r| <= |s| && r == s[|s| - |r|..]
    ensures r != [] ==> !drop(r[0])
    ensures forall i :: 0 <= i < |s| - |r| ==> drop(s[i])
  {
    if s != [] && drop(s[0]) then StripLeft(s[1..], drop) else s
  }

  /** Drops trailing characters for which `drop` holds: what remains is a prefix that ends with a kept character. */
  function StripRight(s: string, drop: char -> bool): (r: string)
    ensures |r| <= |s| && r == s[..|r|]
    ensures r != [] ==> !drop(r[|r| - 1])
    ensures forall i :: |r| <= i < |s| ==> drop(s[i])
  {
    if s != [] && drop(s[|s| - 1]) then StripRight(s[..|s| - 1], drop) else s
  }

  /** Python's `s.strip(chars)`: both ends. */
  function Strip(s: string, drop: char -> bool): string
  {
    StripRight(StripLeft(s, drop), drop)
  }

  /** A non-empty stripped string starts and ends with a kept character. */
  lemma StripEnds(s: string, drop: char -> bool)
    ensures var r := Strip(s, drop);
      r != [] ==> !drop(r[0]) && !drop(r[|r| - 1])
  {
    var l := StripLeft(s, drop);
    var r := StripRight(l, drop);
    if r != [] {
      assert r[0] == l[0];
    }
  }

  function LowerChar(c: char): char
  {
    if 'A' <= c <= 'Z' then (c as int + 32) as char else c
  }

  /** Python's `str.lower()` restricted to ASCII letters. */
  function ToLowerAscii(s: string): (r: string)
    ensures |r| == |s|
  {
    seq(|s|, i requires 0 <= i < |s| => LowerChar(s[i]))
  }

  predicate IsPrefix(p: string, s: string)
  {
    |p| <= |s| && s[..|p|] == p
  }

  /** Python's `sub in s` for strings. */
  predicate Contains(s: string, sub: string)
  {
    IsPrefix(sub, s) || (s != [] && Contains(s[1..], sub))
  }

  /** Python's `s.replace(c, rep)` when `c` is a single character. */
  function ReplaceChar(s: string, c: char, rep: string): (r: string)
  {
    if s == [] then [] else (if s[0] == c then rep else [s[0]]) + ReplaceChar(s[1..], c, rep)
  }

  /** Python's slice `s[:k]`: a negative `k` counts from the end. */
  function PySliceTo<T>(s: seq<T>, k: int): (r: seq<T>)
    ensures |r| <= |s|
    ensures k >= 0 ==> |r| == if k <= |s| then k else |s|
    ensures r == s[..|r|]
  {
    if k >= 0 then s[..if k <= |s| then k else |s|]
    else s[..if |s| + k >= 0 then |s| + k else 0]
  }
}
