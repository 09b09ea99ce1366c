/** Text sinks and the small string helpers shared by the writers and commands. */
module Text {

  datatype Option<+T> = None | Some(value: T)

  /** The line terminator every WriteLine appends. */
  const NewLine: string := "\n"

  /**
   * A TextWriter: the text written to it so far, in order, and whether it has
   * been disposed.
   */
  class TextSink {
    var text: string
    var disposed: bool

    constructor ()
      ensures text == "" && !disposed
    {
      text := "";
      disposed := false;
    }

    method Write(s: string)
      modifies this
      ensures text == old(text) + s && disposed == old(disposed)
    {
      text := text + s;
    }

    method WriteLine(s: string)
      modifies this
      ensures text == old(text) + s + NewLine && disposed == old(disposed)
    {
      text := text + s + NewLine;
    }

    /** WriteLine with no argument: just the line terminator. */
    method WriteNewLine()
      modifies this
      ensures text == old(text) + NewLine && disposed == old(disposed)
    {
      text := text + NewLine;
    }

    method Dispose()
      modifies this
      ensures text == old(text) && disposed
    {
      disposed := true;
    }
  }

  lemma AppendAssoc<T>(a: seq<T>, b: seq<T>, c: seq<T>)
    ensures a + (b + c) == (a + b) + c
  {
  }

  lemma SliceSnoc<T>(s: seq<T>, m: int, n: int)
    requires 0 <= m < n <= |s|
    ensures s[m..n] == s[m..n - 1] + [s[n - 1]]
  {
  }

  lemma AppendEmpty<T>(s: seq<T>)
    ensures s + [] == s
  {
  }

  /** A sequence without members is empty. */
  lemma NoMembers<T>(s: seq<T>)
    ensures (forall x :: x !in s) ==> s == []
  {
    if s != [] {
      assert s[0] in s;
    }
  }

  /** Appending four pieces one after another appends their concatenation. */
  lemma Prepend4(s: string, a: string, b: string, c: string, d: string)
    ensures s + a + b + c + d == s + (a + b + c + d)
  {
  }

  /** Appending six pieces one after another appends their concatenation. */
  lemma Prepend6(s: string, a: string, b: string, c: string, d: string, e: string, f: string)
    ensures s + a + b + c + d + e + f == s + (a + b + c + d + e + f)
  {
  }

  /** Appending seven pieces one after another appends their concatenation. */
  lemma Prepend7(s: string, a: string, b: string, c: string, d: string, e: string, f: string, g: string)
    ensures s + a + b + c + d + e + f + g == s + (a + b + c + d + e + f + g)
  {
  }

  /** The prefix one longer is the prefix and the next element. */
  lemma TakeStep<T>(s: seq<T>, i: int)
    requires 0 <= i < |s|
    ensures s[..i + 1] == s[..i] + [s[i]]
    ensures s[..i + 1][..i] == s[..i] && s[..i + 1][i] == s[i]
  {
  }

  /** `n` spaces, or none when `n` is not positive. */
  function Spaces(n: int): (r: string)
    ensures |r| == if n < 0 then 0 else n
    ensures forall i :: 0 <= i < |r| ==> r[i] == ' '
  {
    if n <= 0 then "" else Spaces(n - 1) + " "
  }

  /** Number of occurrences of `c` in `s`. */
  function CountChar(s: string, c: char): (n: nat)
    ensures n <= |s|
  {
    if s == [] then 0 else CountChar(s[..|s| - 1], c) + (if s[|s| - 1] == c then 1 else 0)
  }

  lemma CountCharAppend(s: string, t: string, c: char)
    ensures CountChar(s + t, c) == CountChar(s, c) + CountChar(t, c)
    decreases |t|
  {
    if t == [] {
      assert s + t == s;
    } else {
      assert (s + t)[..|s + t| - 1] == s + t[..|t| - 1];
      CountCharAppend(s, t[..|t| - 1], c);
    }
  }

  /** `s` without any occurrence of `c`. */
  function Without(s: string, c: char): (r: string)
    ensures |r| == |s| - CountChar(s, c)
    ensures c !in r
  {
    if s == [] then "" else Without(s[..|s| - 1], c) + (if s[|s| - 1] == c then "" else [s[|s| - 1]])
  }

  lemma WithoutAppend(s: string, t: string, c: char)
    ensures Without(s + t, c) == Without(s, c) + Without(t, c)
    decreases |t|
  {
    if t == [] {
      assert s + t == s;
    } else {
      assert (s + t)[..|s + t| - 1] == s + t[..|t| - 1];
      WithoutAppend(s, t[..|t| - 1], c);
    }
  }

  /** Removing a character that does not occur changes nothing. */
  lemma {:induction false} WithoutAbsent(s: string, c: char)
    requires c !in s
    ensures Without(s, c) == s
    decreases |s|
  {
    if s != [] {
      assert c !in s[..|s| - 1];
      WithoutAbsent(s[..|s| - 1], c);
      assert s == s[..|s| - 1] + [s[|s| - 1]];
    }
  }

  /**
   * Ordinal case folding. Only the ASCII letters are folded here: the full
   * Unicode upper-case table of the runtime is not part of this model.
   */
  function FoldChar(c: char): char
  {
    if 'a' <= c <= 'z' then (c as int - 32) as char else c
  }

  function Fold(s: string): (r: string)
    ensures |r| == |s|
    ensures forall i :: 0 <= i < |s| ==> r[i] == FoldChar(s[i])
  {
    seq(|s|, i requires 0 <= i < |s| => FoldChar(s[i]))
  }

  /** string.Equals(a, b, StringComparison.OrdinalIgnoreCase) */
  predicate EqualsIgnoreCase(a: string, b: string)
  {
    Fold(a) == Fold(b)
  }

  /** s.StartsWith(p, StringComparison.OrdinalIgnoreCase) */
  predicate StartsWithIgnoreCase(s: string, p: string)
  {
    |p| <= |s| && Fold(s[..|p|]) == Fold(p)
  }

  /** s.IndexOf(f, StringComparison.OrdinalIgnoreCase) >= 0 */
  predicate ContainsIgnoreCase(s: string, f: string)
    decreases |s|
  {
    StartsWithIgnoreCase(s, f) || (|s| > 0 && ContainsIgnoreCase(s[1..], f))
  }

  /** The directory separators of the host platform ('\' and '/' on Windows). */
  predicate IsDirectorySeparator(c: char)
  {
    c == '\\' || c == '/'
  }

  /** The digit character of a value below 16, upper-case for 10..15. */
  function DigitChar(d: nat): char
    requires d < 16
  {
    if d < 10 then ('0' as int + d) as char else ('A' as int + d - 10) as char
  }

  /** Digits of `n` in the given base, most significant first, without padding ("0" for zero). */
  function Digits(n: nat, base: nat): (r: string)
    requires 2 <= base <= 16
    ensures 1 <= |r|
    decreases n
  {
    if n < base then [DigitChar(n)] else Digits(n / base, base) + [DigitChar(n % base)]
  }

  /** Only zero itself is written with a leading '0'. */
  lemma {:induction false} DigitsLead(n: nat, base: nat)
    requires 2 <= base <= 16
    ensures Digits(n, base)[0] != '0' || n == 0
    decreases n
  {
    if n < base {
      assert Digits(n, base) == [DigitChar(n)];
    } else {
      var q := n / base;
      assert 1 <= q by { QuotientPositive(n, base); }
      DigitsLead(q, base);
      assert Digits(n, base) == Digits(q, base) + [DigitChar(n % base)];
    }
  }

  lemma QuotientPositive(n: nat, base: nat)
    requires 2 <= base <= n
    ensures 1 <= n / base
  {
  }

  /** `s` padded on the left with `c` to at least `width` characters (String.PadLeft). */
  function PadLeft(s: string, width: nat, c: char): (r: string)
    ensures |r| == if |s| < width then width else |s|
    decreases width - |s|
  {
    if |s| < width then PadLeft([c] + s, width, c) else s
  }

  /** The padded string ends with `s` and begins with nothing but `c`. */
  lemma {:induction false} PadLeftShape(s: string, width: nat, c: char)
    ensures PadLeft(s, width, c)[|PadLeft(s, width, c)| - |s|..] == s
    ensures forall i :: 0 <= i < |PadLeft(s, width, c)| - |s| ==> PadLeft(s, width, c)[i] == c
    decreases width - |s|
  {
    if |s| < width {
      var t := [c] + s;
      PadLeftShape(t, width, c);
      var r := PadLeft(s, width, c);
      assert r == PadLeft(t, width, c);
      var k := |r| - |t|;
      assert r[k + 1..] == r[k..][1..];
      assert t[1..] == s;
      forall i | 0 <= i < k + 1
        ensures r[i] == c
      {
        if i == k {
          assert r[k..][0] == t[0];
        }
      }
    }
  }

  /** Invariant-culture decimal formatting of a non-negative integer ("D"). */
  function DecimalString(n: nat): (r: string)
    ensures 1 <= |r|
  {
    Digits(n, 10)
  }

  /** Upper-case hexadecimal formatting with at least `minDigits` digits ("X", "X2", "X4"). */
  function HexString(n: nat, minDigits: nat): (r: string)
    ensures |r| >= minDigits
  {
    PadLeft(Digits(n, 16), minDigits, '0')
  }

  /** The value of a digit character as DigitChar spells it; 0 for any other character. */
  function DigitValue(c: char): nat
  {
    if '0' <= c <= '9' then c as int - '0' as int
    else if 'A' <= c <= 'F' then c as int - 'A' as int + 10
    else 0
  }

  /** The number the digits of `s` spell in `base`, most significant first. */
  function Value(s: string, base: nat): nat
  {
    if s == [] then 0 else Value(s[..|s| - 1], base) * base + DigitValue(s[|s| - 1])
  }

  /** Reading the digits back gives the number that was formatted. */
  lemma {:induction false} DigitsValue(n: nat, base: nat)
    requires 2 <= base <= 16
    ensures Value(Digits(n, base), base) == n
    decreases n
  {
    if n < base {
      DigitsSingle(n, base);
    } else {
      QuotientLess(n, base);
      DigitsValue(n / base, base);
      DigitsSnoc(n, base);
    }
  }

  lemma DigitsSingle(n: nat, base: nat)
    requires 2 <= base <= 16 && n < base
    ensures Value(Digits(n, base), base) == n
  {
    var d := DigitChar(n);
    assert Digits(n, base) == [d];
    assert [d][..0] == [];
    assert Value([d], base) == Value([], base) * base + DigitValue(d);
    DigitRoundTrip(n);
  }

  lemma QuotientLess(n: nat, base: nat)
    requires 2 <= base <= n
    ensures n / base < n
  {
    var q, r := DivMod(n, base);
  }

  /** The last digit is the remainder, the ones before it spell the quotient. */
  lemma DigitsSnoc(n: nat, base: nat)
    requires 2 <= base <= 16 && base <= n
    requires Value(Digits(n / base, base), base) == n / base
    ensures Value(Digits(n, base), base) == n
  {
    var q, r := DivMod(n, base);
    assert Digits(n, base) == Digits(q, base) + [DigitChar(r)];
    DigitRoundTrip(r);
    ValueSnoc(Digits(q, base), DigitChar(r), base);
  }

  lemma DivMod(n: nat, base: nat) returns (q: nat, r: nat)
    requires 2 <= base
    ensures q == n / base && r == n % base
    ensures n == q * base + r && r < base
    ensures base <= n ==> 0 < q < n
  {
    q, r := n / base, n % base;
    if base <= n {
      AtLeastDouble(q, base);
    }
  }

  lemma {:induction false} AtLeastDouble(q: nat, base: nat)
    requires 2 <= base
    ensures q * base >= q + q
    decreases q
  {
    if q > 0 {
      AtLeastDouble(q - 1, base);
      assert q * base == (q - 1) * base + base;
    }
  }

  lemma ValueSnoc(s: string, c: char, base: nat)
    ensures Value(s + [c], base) == Value(s, base) * base + DigitValue(c)
  {
    assert (s + [c])[..|s|] == s;
  }

  /** Appending three decimal digits shifts the value of the prefix by three places. */
  lemma ValueAppendThree(s: string, t: string)
    requires |t| == 3
    ensures Value(s + t, 10) == Value(s, 10) * 1000 + Value(t, 10)
  {
    var d0, d1, d2 := DigitValue(t[0]), DigitValue(t[1]), DigitValue(t[2]);
    var s1, s2 := s + [t[0]], s + [t[0], t[1]];
    assert Value(s1, 10) == Value(s, 10) * 10 + d0 by {
      ValueSnoc(s, t[0], 10);
    }
    assert Value(s2, 10) == Value(s1, 10) * 10 + d1 by {
      assert s2 == s1 + [t[1]];
      ValueSnoc(s1, t[1], 10);
    }
    assert Value(s + t, 10) == Value(s2, 10) * 10 + d2 by {
      assert s + t == s2 + [t[2]];
      ValueSnoc(s2, t[2], 10);
    }
    var t1, t2 := [t[0]], [t[0], t[1]];
    assert Value(t1, 10) == d0 by {
      assert t1 == [] + [t[0]];
      ValueSnoc([], t[0], 10);
    }
    assert Value(t2, 10) == Value(t1, 10) * 10 + d1 by {
      assert t2 == t1 + [t[1]];
      ValueSnoc(t1, t[1], 10);
    }
    assert Value(t, 10) == Value(t2, 10) * 10 + d2 by {
      assert t == t2 + [t[2]];
      ValueSnoc(t2, t[2], 10);
    }
  }

  lemma DigitRoundTrip(d: nat)
    requires d < 16
    ensures DigitValue(DigitChar(d)) == d
  {
  }

  /** A leading zero does not change the value. */
  lemma {:induction false} LeadingZeroValue(s: string, base: nat)
    ensures Value(['0'] + s, base) == Value(s, base)
    decreases |s|
  {
    if s == [] {
      assert (['0'] + s)[..0] == [];
    } else {
      var t := ['0'] + s;
      assert t[..|t| - 1] == ['0'] + s[..|s| - 1];
      LeadingZeroValue(s[..|s| - 1], base);
    }
  }

  /** Padding with zeros does not change the value. */
  lemma {:induction false} PadLeftValue(s: string, width: nat, base: nat)
    ensures Value(PadLeft(s, width, '0'), base) == Value(s, base)
    decreases width - |s|
  {
    if |s| < width {
      PadLeftValue(['0'] + s, width, base);
      LeadingZeroValue(s, base);
    }
  }

  /** A number below base squared has at most two digits. */
  lemma DigitsAtMostTwo(n: nat, base: nat)
    requires 2 <= base <= 16 && n < base * base
    ensures |Digits(n, base)| <= 2
  {
    if n >= base {
      DivLess(n, base, base);
    }
  }

  lemma DivLess(n: nat, b: nat, q: nat)
    requires b > 0 && n < b * q
    ensures n / b < q
  {
    assert b * (n / b) <= n;
  }

  /** A number below base cubed has at most three digits. */
  lemma DigitsAtMostThree(n: nat, base: nat)
    requires 2 <= base <= 16 && n < base * base * base
    ensures |Digits(n, base)| <= 3
  {
    if n >= base {
      DivLess(n, base, base * base);
      DigitsAtMostTwo(n / base, base);
    }
  }

  /** Every character DigitChar writes for `base` is a digit below `base`. */
  predicate IsDigitOf(c: char, base: nat)
  {
    exists d: nat :: d < base && d < 16 && DigitChar(d) == c
  }

  lemma {:induction false} DigitsAreDigits(n: nat, base: nat)
    requires 2 <= base <= 16
    ensures forall i :: 0 <= i < |Digits(n, base)| ==> IsDigitOf(Digits(n, base)[i], base)
    decreases n
  {
    if n < base {
      assert IsDigitOf(DigitChar(n), base);
    } else {
      DigitsAreDigits(n / base, base);
      assert IsDigitOf(DigitChar(n % base), base);
    }
  }

  /**
   * A number formatted with at least `width` digits reads back as the number,
   * and every character of it is a digit of the base.
   */
  lemma PaddedDigits(n: nat, base: nat, width: nat)
    requires 2 <= base <= 16
    ensures Value(PadLeft(Digits(n, base), width, '0'), base) == n
    ensures forall i :: 0 <= i < |PadLeft(Digits(n, base), width, '0')| ==>
      IsDigitOf(PadLeft(Digits(n, base), width, '0')[i], base)
  {
    var s := Digits(n, base);
    var r := PadLeft(s, width, '0');
    DigitsValue(n, base);
    PadLeftValue(s, width, base);
    DigitsAreDigits(n, base);
    PadLeftShape(s, width, '0');
    forall i | 0 <= i < |r| ensures IsDigitOf(r[i], base) {
      if i < |r| - |s| {
        assert DigitChar(0) == r[i];
      } else {
        assert r[i] == r[|r| - |s|..][i - (|r| - |s|)];
      }
    }
  }
}
