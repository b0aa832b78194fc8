/** String helpers: substring search, ASCII lower-casing, character removal and decimal digits. */
module Text {

  /** `pat` occurs in `s` starting at index `i`. */
  ghost predicate OccursAt(pat: string, s: string, i: int)
  {
    0 <= i && i + |pat| <= |s| && s[i..i + |pat|] == pat
  }

  /** Python's `pat in s` (and `re.search` with a literal pattern): `pat` is a contiguous part of `s`. */
  predicate IsSubstring(pat: string, s: string)
    decreases |s|
  {
    if |pat| > |s| then false
    else s[..|pat|] == pat || IsSubstring(pat, s[1..])
  }

  lemma {:induction false} IsSubstringIff(pat: string, s: string)
    ensures IsSubstring(pat, s) <==> exists i :: OccursAt(pat, s, i)
    decreases |s|
  {
    if |pat| > |s| {
      forall i ensures !OccursAt(pat, s, i) { }
    } else if s[..|pat|] == pat {
      assert OccursAt(pat, s, 0);
    } else {
      IsSubstringIff(pat, s[1..]);
      if IsSubstring(pat, s[1..]) {
        var j :| OccursAt(pat, s[1..], j);
        assert s[1..][j..j + |pat|] == s[j + 1..j + 1 + |pat|];
        assert OccursAt(pat, s, j + 1);
      } else {
        forall i | OccursAt(pat, s, i) ensures false {
          assert i != 0;
          assert s[1..][i - 1..i - 1 + |pat|] == s[i..i + |pat|];
          assert OccursAt(pat, s[1..], i - 1);
        }
      }
    }
  }

  /** `s.startswith(prefix)`. */
  predicate StartsWith(prefix: string, s: string)
  {
    |prefix| <= |s| && s[..|prefix|] == prefix
  }

  /** ASCII lower-casing of one character; every other character is left alone. */
  function LowerChar(c: char): char
  {
    if 'A' <= c <= 'Z' then (c as int + 32) as char else c
  }

  /** `str.lower()` restricted to ASCII letters. */
  function Lower(s: string): (r: string)
    ensures |r| == |s|
  {
    seq(|s|, i requires 0 <= i < |s| => LowerChar(s[i]))
  }

  /** `s.replace(c, "")` for a one-character `c`. */
  function RemoveChar(s: string, c: char): (r: string)
    ensures c !in r
    ensures |r| <= |s|
  {
    if s == [] then []
    else if s[0] == c then RemoveChar(s[1..], c)
    else [s[0]] + RemoveChar(s[1..], c)
  }

  lemma {:induction false} RemoveCharConcat(a: string, b: string, c: char)
    ensures RemoveChar(a + b, c) == RemoveChar(a, c) + RemoveChar(b, c)
    decreases |a|
  {
    if a == [] {
      assert a + b == b;
    } else {
      assert (a + b)[0] == a[0];
      assert (a + b)[1..] == a[1..] + b;
      RemoveCharConcat(a[1..], b, c);
    }
  }

  lemma {:induction false} RemoveCharAbsent(s: string, c: char)
    requires c !in s
    ensures RemoveChar(s, c) == s
    decreases |s|
  {
    if s != [] {
      assert c !in s[1..];
      RemoveCharAbsent(s[1..], c);
    }
  }

  predicate IsDigit(c: char)
  {
    '0' <= c <= '9'
  }

  predicate AllDigits(s: string)
  {
    forall i :: 0 <= i < |s| ==> IsDigit(s[i])
  }

  function DigitChar(d: nat): char
    requires d < 10
  {
    ('0' as int + d) as char
  }

  function DigitValue(c: char): nat
  {
    if IsDigit(c) then c as int - '0' as int else 0
  }

  function Pow10(k: nat): (p: nat)
    ensures p >= 1
  {
    if k == 0 then 1 else 10 * Pow10(k - 1)
  }

  /** The shortest decimal rendering of `n`, as `str(n)` gives it. */
  function Digits(n: nat): (r: string)
    ensures |r| >= 1 && AllDigits(r)
  {
    if n < 10 then [DigitChar(n)] else Digits(n / 10) + [DigitChar(n % 10)]
  }

  function Zeros(k: nat): (r: string)
    ensures |r| == k && forall i :: 0 <= i < k ==> r[i] == '0'
  {
    if k == 0 then [] else Zeros(k - 1) + ['0']
  }

  /** `'%0*d' % (width, n)`: `n` in decimal, left-padded with zeros to at least `width` characters. */
  function Pad(n: nat, width: nat): (r: string)
    ensures AllDigits(r)
    ensures |r| >= width
  {
    var ds := Digits(n);
    if |ds| < width then Zeros(width - |ds|) + ds else ds
  }

  /** Reads a string of decimal digits back into a number. */
  function ParseNat(s: string): nat
  {
    if s == [] then 0 else 10 * ParseNat(s[..|s| - 1]) + DigitValue(s[|s| - 1])
  }

  lemma {:induction false} ParseDigits(n: nat)
    ensures ParseNat(Digits(n)) == n
  {
    if n >= 10 {
      var ds := Digits(n / 10) + [DigitChar(n % 10)];
      assert ds[..|ds| - 1] == Digits(n / 10);
      ParseDigits(n / 10);
    }
  }

  lemma {:induction false} ParseLeadingZeros(k: nat, s: string)
    ensures ParseNat(Zeros(k) + s) == ParseNat(s)
    decreases |s|, k
  {
    if s == [] {
      assert Zeros(k) + s == Zeros(k);
      if k > 0 {
        assert Zeros(k)[..k - 1] == Zeros(k - 1);
        ParseLeadingZeros(k - 1, []);
        assert Zeros(k - 1) + [] == Zeros(k - 1);
      }
    } else {
      var t := Zeros(k) + s;
      assert t[..|t| - 1] == Zeros(k) + s[..|s| - 1];
      ParseLeadingZeros(k, s[..|s| - 1]);
    }
  }

  lemma {:induction false} DigitsLength(n: nat, k: nat)
    requires 1 <= k && n < Pow10(k)
    ensures |Digits(n)| <= k
  {
    if n >= 10 {
      assert k >= 2;
      assert n / 10 < Pow10(k - 1);
      DigitsLength(n / 10, k - 1);
    }
  }

  /** Padding never changes the value a string of digits denotes. */
  lemma PadParses(n: nat, width: nat)
    ensures ParseNat(Pad(n, width)) == n
  {
    var ds := Digits(n);
    ParseDigits(n);
    if |ds| < width {
      ParseLeadingZeros(width - |ds|, ds);
    }
  }

  lemma PadRoundTrip(n: nat, width: nat)
    requires 1 <= width && n < Pow10(width)
    ensures |Pad(n, width)| == width
    ensures ParseNat(Pad(n, width)) == n
  {
    DigitsLength(n, width);
    PadParses(n, width);
  }
}
