/** Text helpers standing for the Rust standard-library string operations
    the code generator relies on: `str::repeat`, `str::replace`,
    `[String]::join`, and `{}` / `{:02x}` formatting of integers. */
module Strings {
  import Utils

  /** A byte, as the Rust `u8` values the generator prints. */
  type Byte = b: nat | b < 256

  /** `s.repeat(n)`. */
  function Repeat(s: string, n: nat): (r: string)
    ensures |r| == |s| * n
  {
    if n == 0 then "" else Repeat(s, n - 1) + s
  }

  /** Position `i` of `s` repeated holds `s[i % |s|]`. */
  lemma {:induction false} RepeatAt(s: string, n: nat, i: nat)
    requires |s| > 0 && i < |Repeat(s, n)|
    ensures Repeat(s, n)[i] == s[i % |s|]
  {
    if n > 0 {
      var prev := Repeat(s, n - 1);
      if i < |prev| {
        RepeatAt(s, n - 1, i);
      } else {
        assert |prev| == |s| * (n - 1);
        assert i - |prev| < |s|;
        Utils.ModUnique(i, |s|, n - 1, i - |prev|);
      }
    }
  }

  /** `s.replace(c, rep)` for a one-character pattern. */
  function ReplaceChar(s: string, c: char, rep: string): (r: string)
  {
    if |s| == 0 then ""
    else ReplaceChar(s[..|s| - 1], c, rep) + (if s[|s| - 1] == c then rep else [s[|s| - 1]])
  }

  lemma {:induction false} ReplaceCharRemoves(s: string, c: char, rep: string)
    requires c !in rep
    ensures c !in ReplaceChar(s, c, rep)
  {
    if |s| > 0 {
      ReplaceCharRemoves(s[..|s| - 1], c, rep);
    }
  }

  lemma {:induction false} ReplaceCharKeepsOut(s: string, c: char, rep: string, d: char)
    requires d !in s && d !in rep
    ensures d !in ReplaceChar(s, c, rep)
  {
    if |s| > 0 {
      assert d !in s[..|s| - 1];
      ReplaceCharKeepsOut(s[..|s| - 1], c, rep, d);
    }
  }

  /** `s.replace(pat, rep)`: non-overlapping occurrences, scanned from the left. */
  function ReplaceAll(s: string, pat: string, rep: string): (r: string)
    requires |pat| > 0
    decreases |s|
  {
    if |s| < |pat| then s
    else if s[..|pat|] == pat then rep + ReplaceAll(s[|pat|..], pat, rep)
    else [s[0]] + ReplaceAll(s[1..], pat, rep)
  }

  /** Replacing a one-character pattern that does not occur changes nothing. */
  lemma {:induction false} ReplaceAllAbsent(s: string, pat: string, rep: string)
    requires |pat| == 1 && pat[0] !in s
    ensures ReplaceAll(s, pat, rep) == s
    decreases |s|
  {
    if |s| >= 1 {
      assert s[..1] != pat by { assert s[..1][0] == s[0]; }
      ReplaceAllAbsent(s[1..], pat, rep);
      assert s == [s[0]] + s[1..];
    }
  }

  /** `parts.join(sep)`: the separator stands only between two parts. */
  function Join(parts: seq<string>, sep: string): (r: string)
  {
    if |parts| == 0 then ""
    else if |parts| == 1 then parts[0]
    else Join(parts[..|parts| - 1], sep) + sep + parts[|parts| - 1]
  }

  /** The concatenation of all parts, with nothing between them. */
  function Concat(parts: seq<string>): (r: string)
  {
    if |parts| == 0 then "" else Concat(parts[..|parts| - 1]) + parts[|parts| - 1]
  }

  lemma ConcatSnoc(parts: seq<string>, x: string)
    ensures Concat(parts + [x]) == Concat(parts) + x
  {
    assert (parts + [x])[..|parts|] == parts;
  }

  /** How many times `ch` occurs in `s`. */
  function CountChar(s: string, ch: char): (n: nat)
    ensures n <= |s|
    ensures ch !in s ==> n == 0
  {
    if |s| == 0 then 0
    else CountChar(s[..|s| - 1], ch) + (if s[|s| - 1] == ch then 1 else 0)
  }

  lemma {:induction false} CountCharAppend(a: string, b: string, ch: char)
    ensures CountChar(a + b, ch) == CountChar(a, ch) + CountChar(b, ch)
    decreases |b|
  {
    if |b| == 0 {
      assert a + b == a;
    } else {
      assert (a + b)[..|a + b| - 1] == a + b[..|b| - 1];
      CountCharAppend(a, b[..|b| - 1], ch);
    }
  }

  /** The occurrences of `ch` in all parts together. */
  function CountCharAll(parts: seq<string>, ch: char): nat
  {
    if |parts| == 0 then 0
    else CountCharAll(parts[..|parts| - 1], ch) + CountChar(parts[|parts| - 1], ch)
  }

  /** A character absent from every part is absent from all of them. */
  lemma {:induction false} CountCharAllAbsent(parts: seq<string>, ch: char)
    requires forall i :: 0 <= i < |parts| ==> ch !in parts[i]
    ensures CountCharAll(parts, ch) == 0
  {
    if |parts| > 0 {
      CountCharAllAbsent(parts[..|parts| - 1], ch);
    }
  }

  /** Joining `n` parts adds the separator exactly `n - 1` times. */
  lemma {:induction false} JoinCount(parts: seq<string>, sep: string, ch: char)
    requires |parts| > 0
    ensures CountChar(Join(parts, sep), ch) ==
      CountCharAll(parts, ch) + (|parts| - 1) * CountChar(sep, ch)
  {
    if |parts| == 1 {
      assert CountCharAll(parts, ch) == CountCharAll(parts[..0], ch) + CountChar(parts[0], ch);
    } else {
      var init := parts[..|parts| - 1];
      var last := parts[|parts| - 1];
      var k := CountChar(sep, ch);
      var m := |init|;
      var ji := Join(init, sep);
      assert Join(parts, sep) == ji + sep + last;
      assert CountCharAll(parts, ch) == CountCharAll(init, ch) + CountChar(last, ch);
      JoinCount(init, sep, ch);
      assert CountChar(ji, ch) == CountCharAll(init, ch) + (m - 1) * k;
      CountCharAppend(ji, sep, ch);
      CountCharAppend(ji + sep, last, ch);
      MulPred(m, k);
    }
  }

  lemma MulPred(m: nat, k: nat)
    requires m >= 1
    ensures (m - 1) * k + k == m * k
  {
  }

  /** A joined list ends with its last part. */
  lemma JoinEndsWithLast(parts: seq<string>, sep: string)
    requires |parts| > 0
    ensures var j := Join(parts, sep); var last := parts[|parts| - 1];
      |j| >= |last| && j[|j| - |last|..] == last
  {
  }

  function DigitChar(d: nat): (c: char)
    requires d < 10
  {
    "0123456789"[d]
  }

  /** `format!("{}", n)` of an unsigned integer. */
  function NatToString(n: nat): (r: string)
    ensures |r| > 0
  {
    if n < 10 then [DigitChar(n)] else NatToString(n / 10) + [DigitChar(n % 10)]
  }

  /** The text of a number is all decimal digits. */
  lemma {:induction false} NatToStringDigits(n: nat)
    ensures forall i :: 0 <= i < |NatToString(n)| ==> '0' <= NatToString(n)[i] <= '9'
  {
    if n >= 10 {
      NatToStringDigits(n / 10);
    }
  }

  /** Numbers of two or more digits print with two or more characters. */
  lemma NatToStringLong(n: nat)
    requires n >= 10
    ensures |NatToString(n)| >= 2
  {
  }

  /** Distinct numbers print differently. */
  lemma {:induction false} NatToStringInjective(a: nat, b: nat)
    requires a != b
    ensures NatToString(a) != NatToString(b)
  {
    if a < 10 && b < 10 {
      assert NatToString(a)[0] == "0123456789"[a];
      assert NatToString(b)[0] == "0123456789"[b];
    } else if a < 10 {
      NatToStringLong(b);
    } else if b < 10 {
      NatToStringLong(a);
    } else {
      var sa, sb := NatToString(a), NatToString(b);
      if sa == sb {
        assert sa[|sa| - 1] == DigitChar(a % 10) && sb[|sb| - 1] == DigitChar(b % 10);
        assert a % 10 == b % 10 by {
          assert "0123456789"[a % 10] == "0123456789"[b % 10];
        }
        assert sa[..|sa| - 1] == NatToString(a / 10);
        assert sb[..|sb| - 1] == NatToString(b / 10);
        NatToStringInjective(a / 10, b / 10);
      }
    }
  }

  /** `format!("{}", i)` of a signed integer. */
  function IntToString(i: int): (r: string)
    ensures |r| > 0
    ensures (i < 0) == (r[0] == '-')
  {
    if i < 0 then "-" + NatToString(-i) else NatToStringDigits(i); NatToString(i)
  }

  function HexDigit(d: nat, upper: bool): (c: char)
    requires d < 16
  {
    if upper then "0123456789ABCDEF"[d] else "0123456789abcdef"[d]
  }

  /** `format!("{:02x}", b)` (lower case) or `{:02X}` (upper case) of a byte. */
  function Hex2(b: nat, upper: bool): (r: string)
    requires b < 256
    ensures |r| == 2
  {
    [HexDigit(b / 16, upper), HexDigit(b % 16, upper)]
  }
}
