/** Extension helpers: digit counting, regex option flags, path display and cancellation lookup. */
module Extensions {
  import opened Text

  // ---------------------------------------------------------------- GetDigitCount

  /** A C# `int`. */
  type Int32 = x: int | -0x8000_0000 <= x < 0x8000_0000

  const Int32Min: Int32 := -0x8000_0000

  /** Unchecked C# negation: `-int.MinValue` wraps around to `int.MinValue`. */
  function Negate(v: Int32): Int32
  {
    if v == Int32Min then v else -v
  }

  function Pow10(k: nat): (r: nat)
    ensures r >= 1
  {
    if k == 0 then 1 else 10 * Pow10(k - 1)
  }

  /** The number of decimal digits printed for `value`, by the source's comparison chain. */
  function GetDigitCount(value: Int32): (r: int)
    ensures 1 <= r <= 10
  {
    var v := if value < 0 then Negate(value) else value;
    if v < 10 then 1
    else if v < 100 then 2
    else if v < 1000 then 3
    else if v < 10000 then 4
    else if v < 100000 then 5
    else if v < 1000000 then 6
    else if v < 10000000 then 7
    else if v < 100000000 then 8
    else if v < 1000000000 then 9
    else 10
  }

  /**
   * For every value but int.MinValue the result is the number of decimal
   * digits of its magnitude (10 covers everything from 10^9 up to int.MaxValue);
   * int.MinValue stays negative after negation and counts as one digit.
   */
  lemma DigitCountIsDecimalLength(value: Int32)
    ensures value != Int32Min ==> GetDigitCount(value) == |DecimalString(if value < 0 then -value else value)|
    ensures value == Int32Min ==> GetDigitCount(value) == 1
  {
    if value != Int32Min {
      var v: nat := if value < 0 then -value else value;
      DecimalLengthStep(v, 1);
      DecimalLengthStep(v, 2);
      DecimalLengthStep(v, 3);
      DecimalLengthStep(v, 4);
      DecimalLengthStep(v, 5);
      DecimalLengthStep(v, 6);
      DecimalLengthStep(v, 7);
      DecimalLengthStep(v, 8);
      DecimalLengthStep(v, 9);
      DecimalLengthStep(v, 10);
    }
  }

  /** A number has at most `k` decimal digits exactly when it is below 10^k. */
  lemma {:induction false} DecimalLengthStep(n: nat, k: nat)
    requires k >= 1
    ensures |DecimalString(n)| <= k <==> n < Pow10(k)
    decreases k
  {
    if n >= 10 {
      assert DecimalString(n) == Digits(n / 10, 10) + [DigitChar(n % 10)];
      if k > 1 {
        DecimalLengthStep(n / 10, k - 1);
        assert n < Pow10(k) <==> n / 10 < Pow10(k - 1);
      } else {
        assert |DecimalString(n)| >= 2;
      }
    } else if k > 1 {
      assert Pow10(k) == 10 * Pow10(k - 1);
    }
  }

  /** Negating a value other than int.MinValue does not change its digit count. */
  lemma DigitCountSymmetric(v: Int32)
    requires v != Int32Min
    ensures GetDigitCount(-v) == GetDigitCount(v)
  {
  }

  // ---------------------------------------------------------------- GetFlags

  /** System.Text.RegularExpressions.RegexOptions, as its flag values. */
  type RegexOptions = bv32

  const IgnoreCase: RegexOptions := 0x1
  const Multiline: RegexOptions := 0x2
  const ExplicitCapture: RegexOptions := 0x4
  const Compiled: RegexOptions := 0x8
  const Singleline: RegexOptions := 0x10
  const IgnorePatternWhitespace: RegexOptions := 0x20
  const RightToLeft: RegexOptions := 0x40
  const ECMAScript: RegexOptions := 0x100
  const CultureInvariant: RegexOptions := 0x200

  /** The flags GetFlags tests, in the order it tests them. */
  const ListedFlags: seq<RegexOptions> :=
    [IgnoreCase, Multiline, ExplicitCapture, Compiled, Singleline,
     IgnorePatternWhitespace, RightToLeft, ECMAScript, CultureInvariant]

  const ListedMask: RegexOptions := 0x37F

  /** (options & flag) != 0 */
  predicate Has(options: RegexOptions, flag: RegexOptions)
  {
    options & flag != 0
  }

  /** `r` is `s` with some elements left out, the rest in their order. */
  predicate Subsequence<T(==)>(r: seq<T>, s: seq<T>)
    decreases |s|
  {
    if r == [] then true
    else if s == [] then false
    else (r[0] == s[0] && Subsequence(r[1..], s[1..])) || Subsequence(r, s[1..])
  }

  /** The flags among `flags` that are set in `options`, in the order of `flags`. */
  function SetFlags(options: RegexOptions, flags: seq<RegexOptions>): (r: seq<RegexOptions>)
    ensures forall f :: f in r <==> f in flags && Has(options, f)
    ensures Subsequence(r, flags)
  {
    if flags == [] then []
    else
      var rest := SetFlags(options, flags[1..]);
      if Has(options, flags[0]) then
        assert ([flags[0]] + rest)[1..] == rest;
        [flags[0]] + rest
      else rest
  }

  /** The options' set flags among the nine listed, in the listed order. */
  function GetFlags(options: RegexOptions): (r: seq<RegexOptions>)
    ensures forall f :: f in r <==> f in ListedFlags && Has(options, f)
    ensures Subsequence(r, ListedFlags)
  {
    SetFlags(options, ListedFlags)
  }

  /** Bits outside the nine listed flags do not change the result. */
  lemma {:induction false} GetFlagsIgnoresOtherBits(options: RegexOptions)
    ensures GetFlags(options) == GetFlags(options & ListedMask)
  {
    SetFlagsMasked(options, ListedFlags);
  }

  lemma {:induction false} SetFlagsMasked(options: RegexOptions, flags: seq<RegexOptions>)
    requires forall i :: 0 <= i < |flags| ==> flags[i] & ListedMask == flags[i]
    ensures SetFlags(options, flags) == SetFlags(options & ListedMask, flags)
  {
    if flags != [] {
      var f := flags[0];
      assert f & ListedMask == f;
      MaskedBit(options, f);
      SetFlagsMasked(options, flags[1..]);
    }
  }

  lemma MaskedBit(options: RegexOptions, f: RegexOptions)
    requires f & ListedMask == f
    ensures Has(options, f) == Has(options & ListedMask, f)
  {
    assert (options & ListedMask) & f == options & (f & ListedMask);
  }

  // ---------------------------------------------------------------- WritePath

  /** Where the displayed part of `path` starts: after `basePath` and one separator, when it is a proper prefix. */
  function StartIndex(path: string, basePath: Option<string>): (k: nat)
    ensures k <= |path|
    ensures k == 0 || (basePath.Some? && |path| > |basePath.value| && StartsWithIgnoreCase(path, basePath.value)
      && (k == |basePath.value| || (k == |basePath.value| + 1 && IsDirectorySeparator(path[|basePath.value|]))))
  {
    if basePath.Some? && |path| > |basePath.value| && StartsWithIgnoreCase(path, basePath.value) then
      |basePath.value| + (if IsDirectorySeparator(path[|basePath.value|]) then 1 else 0)
    else 0
  }

  /** What WritePath displays after the indent. */
  function DisplayedPath(path: string, basePath: Option<string>, relativePath: bool): string
  {
    if basePath.Some? && EqualsIgnoreCase(path, basePath.value) then
      (if relativePath then "." else path)
    else
      var k := StartIndex(path, basePath);
      (if relativePath then "" else path[..k]) + path[k..]
  }

  /** Without relativePath the base segment and the rest together give back the path. */
  lemma DisplayedPathFull(path: string, basePath: Option<string>)
    ensures DisplayedPath(path, basePath, false) == path
  {
    var k := StartIndex(path, basePath);
    assert path[..k] + path[k..] == path;
  }

  /** With relativePath and a proper base-path prefix, only the remainder after the base and its separator shows. */
  lemma DisplayedPathRelative(path: string, basePath: string)
    requires |path| > |basePath| && StartsWithIgnoreCase(path, basePath)
    ensures var rest := DisplayedPath(path, Some(basePath), true);
      path == path[..|path| - |rest|] + rest
      && |path| - |rest| == |basePath| + (if IsDirectorySeparator(path[|basePath|]) then 1 else 0)
  {
    assert !EqualsIgnoreCase(path, basePath);
  }

  /** A base path that is not a prefix of the path leaves the whole path displayed. */
  lemma DisplayedPathUnrelated(path: string, basePath: string, relativePath: bool)
    requires !StartsWithIgnoreCase(path, basePath)
    ensures DisplayedPath(path, Some(basePath), relativePath) == path
  {
  }

  /**
   * Writes the indent, then the path: "." (or the path) when it is the base
   * path itself, otherwise the base segment (unless relativePath) and the rest.
   * Nothing is written when the writer's verbosity filters the call out.
   */
  method WritePath(writer: TextSink, shouldWrite: bool, path: string, basePath: Option<string>,
    relativePath: bool, indent: string)
    modifies writer
    ensures writer.disposed == old(writer.disposed)
    ensures !shouldWrite ==> writer.text == old(writer.text)
    ensures shouldWrite ==> writer.text == old(writer.text) + indent + DisplayedPath(path, basePath, relativePath)
  {
    if !shouldWrite {
      return;
    }
    writer.Write(indent);
    if basePath.Some? && EqualsIgnoreCase(path, basePath.value) {
      writer.Write(if relativePath then "." else path);
      return;
    }
    var startIndex := StartIndex(path, basePath);
    assert DisplayedPath(path, basePath, relativePath)
      == (if relativePath then "" else path[..startIndex]) + path[startIndex..];
    WriteRest(writer, path, startIndex, relativePath);
  }

  /** The tail of WritePath once the start index is known. */
  method WriteRest(writer: TextSink, path: string, startIndex: nat, relativePath: bool)
    requires startIndex <= |path|
    modifies writer
    ensures writer.disposed == old(writer.disposed)
    ensures writer.text == old(writer.text) + ((if relativePath then "" else path[..startIndex]) + path[startIndex..])
  {
    if !relativePath {
      writer.Write(path[..startIndex]);
    } else {
      AppendEmpty(writer.text);
    }
    writer.Write(path[startIndex..]);
    AppendAssoc(old(writer.text), if relativePath then "" else path[..startIndex], path[startIndex..]);
  }

  // ---------------------------------------------------------------- GetOperationCanceledException

  /** The exceptions an aggregate can hold, as far as the lookup distinguishes them. */
  datatype Exception =
    | OperationCanceled(id: nat)
    | Aggregate(inner: seq<Exception>)
    | Other(id: nat)

  predicate AllCanceled(xs: seq<Exception>)
  {
    forall i :: 0 <= i < |xs| ==> xs[i].OperationCanceled?
  }

  /** Length of the leading run of cancellations. */
  function LeadingCanceled(xs: seq<Exception>): (k: nat)
    ensures k <= |xs| && AllCanceled(xs[..k])
    ensures k < |xs| ==> !xs[k].OperationCanceled?
  {
    if xs == [] || !xs[0].OperationCanceled? then 0
    else
      var k := 1 + LeadingCanceled(xs[1..]);
      assert xs[..k] == [xs[0]] + xs[1..][..k - 1];
      k
  }

  /**
   * The cancellation an aggregate stands for: the inner exceptions must be a
   * run of cancellations followed by a nested aggregate holding only
   * cancellations; the answer is the first cancellation met in that order.
   */
  function CancellationOf(xs: seq<Exception>): (r: Option<Exception>)
    ensures r.Some? ==> r.value.OperationCanceled?
  {
    var k := LeadingCanceled(xs);
    if k < |xs| && xs[k].Aggregate? && AllCanceled(xs[k].inner) && xs[..k] + xs[k].inner != [] then
      Some((xs[..k] + xs[k].inner)[0])
    else None
  }

  /** An aggregate without a nested aggregate never stands for a cancellation. */
  lemma CancellationNeedsNestedAggregate(xs: seq<Exception>)
    requires forall i :: 0 <= i < |xs| ==> !xs[i].Aggregate?
    ensures CancellationOf(xs) == None
  {
  }

  /** AggregateException.GetOperationCanceledException: scans the inner exceptions in order. */
  method GetOperationCanceledException(xs: seq<Exception>) returns (r: Option<Exception>)
    ensures r == CancellationOf(xs)
  {
    var found: Option<Exception> := None;
    var i := 0;
    while i < |xs|
      invariant 0 <= i <= |xs|
      invariant AllCanceled(xs[..i])
      invariant found == if i == 0 then None else Some(xs[0])
    {
      var ex := xs[i];
      if ex.OperationCanceled? {
        if found == None {
          found := Some(ex);
        }
      } else if ex.Aggregate? {
        assert LeadingCanceled(xs) == i;
        var j := 0;
        while j < |ex.inner|
          invariant 0 <= j <= |ex.inner|
          invariant AllCanceled(ex.inner[..j])
          invariant found == if i + j == 0 then None else Some((xs[..i] + ex.inner)[0])
        {
          var ex2 := ex.inner[j];
          if ex2.OperationCanceled? {
            if found == None {
              found := Some(ex2);
            }
          } else {
            return None;
          }
          j := j + 1;
        }
        assert ex.inner[..j] == ex.inner;
        return found;
      } else {
        assert LeadingCanceled(xs) == i;
        return None;
      }
      i := i + 1;
    }
    assert LeadingCanceled(xs) == |xs|;
    return None;
  }
}
