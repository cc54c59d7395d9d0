/**
 The few Python string operations the research pipeline relies on, written
 out over `seq<char>`: ASCII `str.lower`, single-character `str.replace`,
 `str.endswith`, `s.split('/')[-1]`, `os.path.join` (POSIX) and `str(int)`.
 */
module PyStr {

  /** Number of occurrences of `c` in `s`. */
  function Count(s: string, c: char): nat {
    if |s| == 0 then 0 else (if s[0] == c then 1 else 0) + Count(s[1..], c)
  }

  predicate IsUpper(c: char) {
    'A' <= c <= 'Z'
  }

  function LowerChar(c: char): char {
    if IsUpper(c) then (c as int + 32) as char else c
  }

  /** `str.lower` restricted to ASCII letters. */
  function Lower(s: string): string {
    if |s| == 0 then "" else [LowerChar(s[0])] + Lower(s[1..])
  }

  /** `s.replace(pat, rep)` for a one-character pattern. */
  function Replace(s: string, pat: char, rep: string): string {
    if |s| == 0 then ""
    else (if s[0] == pat then rep else [s[0]]) + Replace(s[1..], pat, rep)
  }

  predicate EndsWith(s: string, suffix: string) {
    |suffix| <= |s| && s[|s| - |suffix|..] == suffix
  }

  /**
   `s.split('/')[-1]`: the text after the last '/', or all of `s` when it
   holds none. The three ensures characterise it uniquely (see
   `LastSegmentUnique`): a '/'-free suffix that cannot be extended.
   */
  function LastSegment(s: string): (r: string)
    ensures '/' !in r
    ensures |r| <= |s| && s[|s| - |r|..] == r
    ensures |r| == |s| || s[|s| - |r| - 1] == '/'
    decreases |s|
  {
    if |s| == 0 then ""
    else if s[|s| - 1] == '/' then ""
    else LastSegment(s[..|s| - 1]) + [s[|s| - 1]]
  }

  /** Any maximal '/'-free suffix is the last segment. */
  lemma {:induction false} LastSegmentUnique(s: string, p: string, r: string)
    requires s == p + r
    requires '/' !in r
    requires |p| == 0 || p[|p| - 1] == '/'
    ensures LastSegment(s) == r
    decreases |r|
  {
    if |r| == 0 {
      assert s == p;
      if |p| > 0 {
        assert s[|s| - 1] == '/';
      }
    } else {
      var c := r[|r| - 1];
      var r' := r[..|r| - 1];
      var s' := s[..|s| - 1];
      assert r == r' + [c];
      assert '/' !in r' && c != '/';
      assert s == s' + [c] && s' == p + r';
      LastSegmentUnique(s', p, r');
    }
  }

  /** `os.path.join(dir, name)` on POSIX. */
  function Join(dir: string, name: string): string {
    if |name| > 0 && name[0] == '/' then name
    else if |dir| == 0 || dir[|dir| - 1] == '/' then dir + name
    else dir + "/" + name
  }

  /** Splitting a joined path on '/' gives back the '/'-free file name. */
  lemma LastSegmentOfJoin(dir: string, name: string)
    requires '/' !in name
    ensures LastSegment(Join(dir, name)) == name
  {
    if |name| > 0 && name[0] == '/' {
      assert false;
    } else if |dir| == 0 || dir[|dir| - 1] == '/' {
      LastSegmentUnique(dir + name, dir, name);
    } else {
      LastSegmentUnique(dir + "/" + name, dir + "/", name);
    }
  }

  // ---- str(int) ----------------------------------------------------------

  predicate IsDigit(c: char) {
    '0' <= c <= '9'
  }

  function DigitChar(d: nat): (c: char)
    requires d < 10
  {
    ('0' as int + d) as char
  }

  /** Decimal digits of `n`, most significant first, no leading zeros. */
  function NatToDecimal(n: nat): string
    decreases n
  {
    if n < 10 then [DigitChar(n)] else NatToDecimal(n / 10) + [DigitChar(n % 10)]
  }

  /** `str(i)` for a Python int. */
  function IntToDecimal(i: int): string {
    if i < 0 then "-" + NatToDecimal(-i) else NatToDecimal(i)
  }

  /** The number a string of decimal digits denotes. */
  function DecimalValue(s: string): nat
    requires forall k :: 0 <= k < |s| ==> IsDigit(s[k])
  {
    if |s| == 0 then 0
    else 10 * DecimalValue(s[..|s| - 1]) + DigitValue(s[|s| - 1])
  }

  function DigitValue(c: char): nat
    requires IsDigit(c)
  {
    c as int - '0' as int
  }

  /** `str` of a natural number is made of digits and reads back as that number. */
  lemma {:induction false} NatToDecimalRoundTrip(n: nat)
    ensures |NatToDecimal(n)| > 0
    ensures forall k :: 0 <= k < |NatToDecimal(n)| ==> IsDigit(NatToDecimal(n)[k])
    ensures DecimalValue(NatToDecimal(n)) == n
  {
    if n >= 10 {
      NatToDecimalRoundTrip(n / 10);
      var s := NatToDecimal(n);
      assert s[..|s| - 1] == NatToDecimal(n / 10);
    }
  }

  /** Distinct integers are rendered as distinct strings. */
  lemma IntToDecimalInjective(i: int, j: int)
    requires IntToDecimal(i) == IntToDecimal(j)
    ensures i == j
  {
    NatToDecimalRoundTrip(if i < 0 then -i else i);
    NatToDecimalRoundTrip(if j < 0 then -j else j);
    assert IntToDecimal(i)[0] == '-' <==> i < 0;
    assert IntToDecimal(j)[0] == '-' <==> j < 0;
    if i < 0 {
      assert NatToDecimal(-i) == IntToDecimal(i)[1..] == IntToDecimal(j)[1..] == NatToDecimal(-j);
    }
  }

  // ---- lower / replace algebra ------------------------------------------

  lemma {:induction false} LowerConcat(a: string, b: string)
    ensures Lower(a + b) == Lower(a) + Lower(b)
  {
    if |a| > 0 {
      assert (a + b)[1..] == a[1..] + b;
      LowerConcat(a[1..], b);
    } else {
      assert a + b == b;
    }
  }

  lemma {:induction false} ReplaceConcat(a: string, b: string, pat: char, rep: string)
    ensures Replace(a + b, pat, rep) == Replace(a, pat, rep) + Replace(b, pat, rep)
  {
    if |a| > 0 {
      assert (a + b)[1..] == a[1..] + b;
      ReplaceConcat(a[1..], b, pat, rep);
    } else {
      assert a + b == b;
    }
  }

  /** After lowering, no ASCII upper-case letter is left; nothing else changes membership. */
  lemma {:induction false} LowerChars(s: string)
    ensures |Lower(s)| == |s|
    ensures forall c :: c in Lower(s) ==> !IsUpper(c)
    ensures forall c :: c in Lower(s) ==> c in s || 'a' <= c <= 'z'
  {
    if |s| > 0 {
      LowerChars(s[1..]);
    }
  }

  /** Lowering a string without upper-case letters changes nothing. */
  lemma {:induction false} LowerNoUpper(s: string)
    requires forall c :: c in s ==> !IsUpper(c)
    ensures Lower(s) == s
  {
    if |s| > 0 {
      assert s[0] in s;
      assert forall c :: c in s[1..] ==> c in s;
      LowerNoUpper(s[1..]);
    }
  }

  /** Replacing `pat` grows the string by `|rep| - 1` per occurrence. */
  lemma {:induction false} ReplaceLength(s: string, pat: char, rep: string)
    ensures |Replace(s, pat, rep)| == |s| + Count(s, pat) * (|rep| - 1)
  {
    if |s| > 0 {
      ReplaceLength(s[1..], pat, rep);
    }
  }

  /**
   Replacing `pat` removes every occurrence of it (when `rep` does not
   reintroduce it) and adds only characters of `rep`.
   */
  lemma {:induction false} ReplaceChars(s: string, pat: char, rep: string)
    ensures pat !in rep ==> pat !in Replace(s, pat, rep)
    ensures forall c :: c in Replace(s, pat, rep) ==> (c in s && c != pat) || c in rep
  {
    if |s| > 0 {
      ReplaceChars(s[1..], pat, rep);
      var head := if s[0] == pat then rep else [s[0]];
      assert Replace(s, pat, rep) == head + Replace(s[1..], pat, rep);
      assert forall c :: c in s[1..] ==> c in s;
    }
  }

  /** Replacing a character the string does not hold changes nothing. */
  lemma {:induction false} ReplaceAbsent(s: string, pat: char, rep: string)
    requires pat !in s
    ensures Replace(s, pat, rep) == s
  {
    if |s| > 0 {
      assert forall c :: c in s[1..] ==> c in s;
      ReplaceAbsent(s[1..], pat, rep);
    }
  }
}
