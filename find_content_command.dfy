/**
 * The find command's content search: per-file bookkeeping of the telemetry
 * counters, the termination state and the interactive ask mode.
 *
 * The regex engine, file reading and console prompts are oracles: a finder
 * result carries whether the file could be read, whether the content filter
 * accepted it, what the match writer reported, and the answer the user would
 * give to "Continue without asking?".
 */
module FindContent {
  import Text
  import opened Search

  /** AskMode; `None` is its default value. */
  datatype AskMode = None | File | Value

  /** Why a match writer stopped early. */
  datatype MaxReason = None | CountExceedsMax

  datatype Verbosity = Quiet | Minimal | Normal | Detailed | Diagnostic

  function Rank(v: Verbosity): nat
  {
    match v
    case Quiet => 0
    case Minimal => 1
    case Normal => 2
    case Detailed => 3
    case Diagnostic => 4
  }

  /** `v >= w` on the Verbosity enum. */
  predicate AtLeast(v: Verbosity, w: Verbosity)
  {
    Rank(v) >= Rank(w)
  }

  /**
   * What running a match writer over one file reports: its MatchCount, its
   * MatchingLineCount (negative when the writer does not count lines), the
   * MaxReason it returned, the Ask property of an ask writer (None for the
   * other writers), and whether the user cancelled during it.
   */
  datatype WriterReport = WriterReport(
    matchCount: nat,
    matchingLineCount: int,
    maxReason: MaxReason,
    ask: Text.Option<bool>,
    canceled: bool)

  /** ReadFile returned null / the content filter rejected the text / it accepted it. */
  datatype Content = Unreadable | Rejected | Accepted(report: WriterReport)

  /** One result of the file system finder, with the oracles for that file. */
  datatype FinderResult = FinderResult(path: string, content: Content, answer: Answer)

  /** The options the command reads. */
  datatype FindOptions = FindOptions(
    askMode: AskMode,
    maxMatchingFiles: int,
    contentIsNegative: bool,
    omitPath: bool,
    includePath: bool,
    hasOutputPath: bool,
    includeContent: bool)

  /**
   * The logger's state: console verbosity and whether the optional file log
   * asks for Normal output (the two make up ShouldLog(Verbosity.Normal)).
   */
  datatype Environment = Environment(consoleVerbosity: Verbosity, logAtLeastNormal: bool)

  /** Everything a step depends on besides the run state. */
  datatype Config = Config(options: FindOptions, env: Environment, hasStorage: bool, hasOutput: bool)

  /** The observable state of a run: counters, termination state, ask mode and the two sinks' text. */
  datatype Run = Run(t: Counters, state: SearchState, askMode: AskMode, output: string, console: string)

  /** The result of one loop iteration: the new run state and whether the loop breaks. */
  datatype Step = Step(run: Run, stop: bool)

  // ---------------------------------------------------------------- formatting

  predicate IsDecimalDigit(c: char)
  {
    '0' <= c <= '9'
  }

  lemma {:induction false} DecimalStringDigits(n: nat)
    ensures forall i :: 0 <= i < |Text.DecimalString(n)| ==> IsDecimalDigit(Text.DecimalString(n)[i])
    decreases n
  {
    if n >= 10 {
      DecimalStringDigits(n / 10);
      assert Text.DecimalString(n) == Text.DecimalString(n / 10) + [Text.DigitChar(n % 10)];
    }
  }

  /** One group after a ',': the value below 1000 written with exactly three digits. */
  lemma GroupOfThree(low: nat)
    requires low < 1000
    ensures |Text.PadLeft(Text.DecimalString(low), 3, '0')| == 3
    ensures forall i :: 0 <= i < 3 ==> IsDecimalDigit(Text.PadLeft(Text.DecimalString(low), 3, '0')[i])
    ensures Text.Value(Text.PadLeft(Text.DecimalString(low), 3, '0'), 10) == low
  {
    var d := Text.DecimalString(low);
    var group := Text.PadLeft(d, 3, '0');
    Text.DigitsAtMostThree(low, 10);
    Text.PaddedDigits(low, 10, 3);
    DecimalStringDigits(low);
    Text.PadLeftShape(d, 3, '0');
    forall i | 0 <= i < 3 ensures IsDecimalDigit(group[i]) {
      if i >= |group| - |d| {
        assert group[i] == group[|group| - |d|..][i - (|group| - |d|)];
      }
    }
  }

  /** Invariant-culture "n0" formatting: decimal digits grouped by three with ','. */
  function GroupedDecimal(n: nat): (r: string)
    ensures |r| >= 1
    ensures forall i :: 0 <= i < |r| ==> IsDecimalDigit(r[i]) || r[i] == ','
    decreases n
  {
    DecimalStringDigits(n);
    if n < 1000 then Text.DecimalString(n)
    else
      GroupOfThree(n % 1000);
      GroupedDecimal(n / 1000) + "," + Text.PadLeft(Text.DecimalString(n % 1000), 3, '0')
  }

  /** The first group of a grouped number: one to three digits, then the end or a ','. */
  predicate FirstGroup(r: string, k: nat)
  {
    1 <= k <= 3 && k <= |r| && (forall j :: 0 <= j < k ==> IsDecimalDigit(r[j])) && (k < |r| ==> r[k] == ',')
  }

  /** Removing the separators from "n0" leaves the decimal digits of `n`. */
  lemma {:induction false} GroupedDecimalValue(n: nat)
    ensures Text.Value(Text.Without(GroupedDecimal(n), ','), 10) == n
    decreases n
  {
    var r := GroupedDecimal(n);
    if n < 1000 {
      DecimalStringDigits(n);
      assert ',' !in r by {
        forall i | 0 <= i < |r| ensures r[i] != ',' { assert IsDecimalDigit(r[i]); }
      }
      Text.WithoutAbsent(r, ',');
      Text.DigitsValue(n, 10);
    } else {
      var g := GroupedDecimal(n / 1000);
      var low := n % 1000;
      var group := Text.PadLeft(Text.DecimalString(low), 3, '0');
      GroupOfThree(low);
      GroupedDecimalValue(n / 1000);
      assert r == g + "," + group;
      assert ',' !in group by {
        forall i | 0 <= i < |group| ensures group[i] != ',' { assert IsDecimalDigit(group[i]); }
      }
      WithoutSeparator(g, group);
      var digits := Text.Without(g, ',');
      Text.ValueAppendThree(digits, group);
      var v := Text.Value(digits, 10);
      assert Text.Value(Text.Without(r, ','), 10) == v * 1000 + low;
      assert v == n / 1000;
      assert n == n / 1000 * 1000 + low;
    }
  }

  lemma WithoutSeparator(g: string, group: string)
    requires ',' !in group
    ensures Text.Without(g + "," + group, ',') == Text.Without(g, ',') + group
  {
    Text.WithoutAppend(g + ",", group, ',');
    Text.WithoutAppend(g, ",", ',');
    Text.WithoutAbsent(group, ',');
    var comma := Text.Without(",", ',');
    assert ","[..|","| - 1] == [];
    assert comma == Text.Without([], ',') + [];
    assert comma == [];
    assert Text.Without(g + ",", ',') == Text.Without(g, ',');
  }

  /** "n0" starts with a group of one to three digits. */
  lemma {:induction false} GroupedDecimalFirstGroup(n: nat)
    ensures exists k :: FirstGroup(GroupedDecimal(n), k)
    decreases n
  {
    var r := GroupedDecimal(n);
    if n < 1000 {
      DecimalStringDigits(n);
      Text.DigitsAtMostThree(n, 10);
      assert FirstGroup(r, |r|);
    } else {
      var g := GroupedDecimal(n / 1000);
      GroupedDecimalFirstGroup(n / 1000);
      assert r == g + "," + Text.PadLeft(Text.DecimalString(n % 1000), 3, '0');
      var k :| FirstGroup(g, k);
      assert FirstGroup(r, k);
    }
  }

  /** "n0" has no leading zero group: its first character is '0' only for zero. */
  lemma {:induction false} GroupedDecimalLead(n: nat)
    ensures GroupedDecimal(n)[0] != '0' || n == 0
    decreases n
  {
    if n < 1000 {
      Text.DigitsLead(n, 10);
    } else {
      GroupedDecimalLead(n / 1000);
      assert GroupedDecimal(n)[0] == GroupedDecimal(n / 1000)[0];
    }
  }

  /** In "n0" every ',' is followed by exactly three digits and then the end or another ','. */
  lemma {:induction false} GroupedDecimalCommas(n: nat)
    ensures forall i :: 0 <= i < |GroupedDecimal(n)| && GroupedDecimal(n)[i] == ',' ==>
      i + 3 < |GroupedDecimal(n)|
      && (forall j :: i < j <= i + 3 ==> IsDecimalDigit(GroupedDecimal(n)[j]))
      && (i + 4 < |GroupedDecimal(n)| ==> GroupedDecimal(n)[i + 4] == ',')
    decreases n
  {
    var r := GroupedDecimal(n);
    if n < 1000 {
      DecimalStringDigits(n);
      assert forall i :: 0 <= i < |r| ==> IsDecimalDigit(r[i]);
    } else {
      var g := GroupedDecimal(n / 1000);
      var group := Text.PadLeft(Text.DecimalString(n % 1000), 3, '0');
      GroupOfThree(n % 1000);
      GroupedDecimalCommas(n / 1000);
      assert r == g + "," + group;
      assert forall i :: |g| < i < |r| ==> r[i] == group[i - |g| - 1] && IsDecimalDigit(r[i]);
      forall i | 0 <= i < |r| && r[i] == ','
        ensures i + 3 < |r|
        ensures forall j :: i < j <= i + 3 ==> IsDecimalDigit(r[j])
        ensures i + 4 < |r| ==> r[i + 4] == ','
      {
        if i < |g| {
          assert g[i] == ',';
          assert forall j :: i < j <= i + 3 ==> IsDecimalDigit(g[j]);
        }
      }
    }
  }

  /** The count line of one file: " <count>", "+" when truncated, then the line end. */
  function CountLine(count: nat, reason: MaxReason): string
  {
    " " + GroupedDecimal(count) + (if reason == MaxReason.CountExceedsMax then "+" else "") + Text.NewLine
  }

  /** The "+" marker appears in a count line exactly when the writer stopped at a cap. */
  lemma CountLineMarksTruncation(count: nat, reason: MaxReason)
    ensures '+' in CountLine(count, reason) <==> reason == MaxReason.CountExceedsMax
  {
    var g := GroupedDecimal(count);
    var line := CountLine(count, reason);
    if reason == MaxReason.CountExceedsMax {
      assert line[1 + |g|] == '+';
    } else {
      assert line == [' '] + g + Text.NewLine;
      forall i | 0 <= i < |line| ensures line[i] != '+' {
        if 1 <= i < 1 + |g| {
          assert line[i] == g[i - 1];
        }
      }
    }
  }

  // ---------------------------------------------------------------- per-file steps

  /** The matching-line total after one writer report: -1 means "never counted" and turns into 0 on first use. */
  function AddMatchingLines(current: int, reported: int): int
  {
    if reported >= 0 then (if current == -1 then 0 else current) + reported else current
  }

  /** The ask mode after an ask writer: Value mode ends when the user chose to continue without asking. */
  function AskModeAfter(mode: AskMode, ask: Text.Option<bool>): (r: AskMode)
    ensures r == mode || r == AskMode.None
  {
    if mode == AskMode.Value && ask == Text.Some(false) then AskMode.None else mode
  }

  /** Whether a real match writer is used rather than the counting-only one. */
  predicate UsesWriter(c: Config)
  {
    c.hasStorage || c.options.askMode == AskMode.Value
    || AtLeast(c.env.consoleVerbosity, Verbosity.Normal) || c.env.logAtLeastNormal
  }

  /** The blank line written before a real writer's output. */
  function LeadingLine(c: Config): string
  {
    if !c.options.omitPath
      && (c.options.askMode == AskMode.Value || AtLeast(c.env.consoleVerbosity, Verbosity.Normal))
    then Text.NewLine else ""
  }

  /** The console's count line, written only at Minimal verbosity and when paths are shown without value asking. */
  function CountOutput(c: Config, count: nat, reason: MaxReason): string
  {
    if c.options.askMode != AskMode.Value && !c.options.omitPath && c.env.consoleVerbosity == Verbosity.Minimal
    then CountLine(count, reason) else ""
  }

  /** WriteMatches(input, match, writerOptions, context) for one file. */
  function WriteMatchesStep(c: Config, r: Run, rep: WriterReport): (r': Run)
    ensures r'.t.matchingFileCount == r.t.matchingFileCount + 1
    ensures r'.t.matchCount == r.t.matchCount + rep.matchCount
    ensures r'.t.fileCount == r.t.fileCount
    ensures rep.matchingLineCount >= 0 && r.t.matchingLineCount >= -1 ==> r'.t.matchingLineCount >= rep.matchingLineCount
    ensures rep.matchingLineCount < 0 ==> r'.t.matchingLineCount == r.t.matchingLineCount
    ensures rep.canceled ==> r'.state == Canceled
    ensures !rep.canceled ==> r'.state == r.state
    ensures r'.askMode == r.askMode || r'.askMode == AskMode.None
    ensures r'.output == r.output
    ensures |r.console| <= |r'.console| && r'.console[..|r.console|] == r.console
  {
    var useWriter := UsesWriter(c);
    Run(
      r.t.(matchingFileCount := r.t.matchingFileCount + 1,
           matchCount := r.t.matchCount + rep.matchCount,
           matchingLineCount := AddMatchingLines(r.t.matchingLineCount, rep.matchingLineCount)),
      if rep.canceled then Canceled else r.state,
      if useWriter then AskModeAfter(r.askMode, rep.ask) else r.askMode,
      r.output,
      r.console + (if useWriter then LeadingLine(c) else "") + CountOutput(c, rep.matchCount, rep.maxReason))
  }

  /** The line the context's output receives for a matching path. */
  function OutputLine(c: Config, path: string): string
  {
    if c.hasOutput && c.options.includePath then path + Text.NewLine else ""
  }

  /** The MaxMatchingFiles check and the "Continue without asking?" question after a matching file. */
  function AfterMatchStep(c: Config, r: Run, answer: Answer): (s: Step)
    ensures s.stop <==> (c.options.maxMatchingFiles == r.t.matchingFileCount || r.state == MaxReached
      || (r.askMode == AskMode.File && answer == Cancel))
    ensures c.options.maxMatchingFiles == r.t.matchingFileCount ==> s.run.state == MaxReached
    ensures s.stop ==> s.run.state == MaxReached || s.run.state == Canceled
    ensures !s.stop ==> s.run.state == r.state
    ensures s.run.askMode == (if !s.stop && r.askMode == AskMode.File && answer == Yes then AskMode.None else r.askMode)
    ensures s.run.t == r.t && s.run.output == r.output && s.run.console == r.console
  {
    var r1 := if c.options.maxMatchingFiles == r.t.matchingFileCount then r.(state := MaxReached) else r;
    if r1.state == MaxReached then Step(r1, true)
    else if r1.askMode == AskMode.File then
      match answer
      case Yes => Step(r1.(askMode := AskMode.None), false)
      case No => Step(r1, false)
      case Cancel => Step(r1.(state := Canceled), true)
    else Step(r1, false)
  }

  /** One iteration of ExecuteDirectory's loop over the finder results. */
  function DirectoryStep(c: Config, r: Run, res: FinderResult): (s: Step)
    ensures s.stop ==> s.run.state == MaxReached || s.run.state == Canceled
    ensures !s.stop ==> s.run.state == r.state
    ensures s.run.state == MaxReached && r.state != MaxReached ==> c.options.maxMatchingFiles == s.run.t.matchingFileCount
    ensures s.run.askMode == r.askMode || s.run.askMode == AskMode.None
    ensures s.run.t.matchingFileCount == r.t.matchingFileCount + (if res.content.Accepted? then 1 else 0)
    ensures s.run.t.matchCount == r.t.matchCount + ReportedMatches(c, res)
    ensures s.run.t.fileCount == r.t.fileCount
  {
    match res.content
    case Unreadable => Step(r, false)
    case Rejected => Step(r, false)
    case Accepted(rep) =>
      MatchedStep(c, r.(output := r.output + OutputLine(c, res.path)), rep, res.answer)
  }

  /** A matching file once its path is on the output: the count or the writer, then the checks after a match. */
  function MatchedStep(c: Config, r: Run, rep: WriterReport, answer: Answer): (s: Step)
    ensures s.run.t.matchingFileCount == r.t.matchingFileCount + 1
    ensures s.run.t.matchCount == r.t.matchCount + (if c.options.contentIsNegative then 0 else rep.matchCount)
    ensures s.run.output == r.output
    ensures s.run.askMode == r.askMode || s.run.askMode == AskMode.None
    ensures !c.options.contentIsNegative && rep.canceled ==> s.stop && s.run.state == Canceled
    ensures r.state != Canceled && !(!c.options.contentIsNegative && rep.canceled)
      && c.options.maxMatchingFiles == r.t.matchingFileCount + 1
      ==> s.stop && s.run.state == MaxReached
  {
    if c.options.contentIsNegative then
      var newline := if !c.options.omitPath && AtLeast(c.env.consoleVerbosity, Verbosity.Minimal) then Text.NewLine else "";
      AfterMatchStep(c, r.(t := r.t.(matchingFileCount := r.t.matchingFileCount + 1),
                           console := r.console + newline), answer)
    else
      var r1 := WriteMatchesStep(c, r, rep);
      if r1.state == Canceled then Step(r1, true) else AfterMatchStep(c, r1, answer)
  }

  /** The matches a result adds to MatchCount: its writer's count, unless the content filter is negative. */
  function ReportedMatches(c: Config, res: FinderResult): nat
  {
    if res.content.Accepted? && !c.options.contentIsNegative then res.content.report.matchCount else 0
  }

  /** ExecuteDirectory's loop: the results in order, up to and including the one that breaks. */
  function DirectoryWalk(c: Config, r: Run, results: seq<FinderResult>): (r': Run)
    ensures r'.state == r.state || r'.state == MaxReached || r'.state == Canceled
    ensures |r.output| <= |r'.output| && r'.output[..|r.output|] == r.output
    ensures r'.t.matchingFileCount >= r.t.matchingFileCount
    decreases |results|
  {
    if results == [] then r
    else
      var s := DirectoryStep(c, r, results[0]);
      if s.stop then s.run else DirectoryWalk(c, s.run, results[1..])
  }

  /** How many results the loop consumes before it ends. */
  function Consumed(c: Config, r: Run, results: seq<FinderResult>): (n: nat)
    ensures n <= |results|
    decreases |results|
  {
    if results == [] then 0
    else
      var s := DirectoryStep(c, r, results[0]);
      if s.stop then 1 else 1 + Consumed(c, s.run, results[1..])
  }

  /**
   * The loop takes results up to and including the first whose step breaks:
   * no step before it breaks, and when results are left over, that step did.
   */
  lemma {:induction false} ConsumedFirstStop(c: Config, r: Run, results: seq<FinderResult>)
    ensures results != [] ==> 1 <= Consumed(c, r, results)
    ensures forall i :: 0 <= i < Consumed(c, r, results) - 1 ==>
      !DirectoryStep(c, DirectoryWalk(c, r, results[..i]), results[i]).stop
    ensures var n := Consumed(c, r, results);
      n < |results| ==> 1 <= n && DirectoryStep(c, DirectoryWalk(c, r, results[..n - 1]), results[n - 1]).stop
    decreases |results|
  {
    if results != [] {
      var s := DirectoryStep(c, r, results[0]);
      var rest := results[1..];
      assert DirectoryWalk(c, r, results[..0]) == r;
      if !s.stop {
        ConsumedFirstStop(c, s.run, rest);
        forall i | 1 <= i <= |results|
          ensures DirectoryWalk(c, r, results[..i]) == DirectoryWalk(c, s.run, rest[..i - 1])
        {
          WalkPrefixAfterStep(c, r, results, i);
        }
      }
    }
  }

  lemma WalkPrefixAfterStep(c: Config, r: Run, results: seq<FinderResult>, i: nat)
    requires 1 <= i <= |results|
    requires !DirectoryStep(c, r, results[0]).stop
    ensures DirectoryWalk(c, r, results[..i]) == DirectoryWalk(c, DirectoryStep(c, r, results[0]).run, results[1..][..i - 1])
  {
    assert results[..i][0] == results[0];
    assert results[..i][1..] == results[1..][..i - 1];
  }

  function AcceptedCount(results: seq<FinderResult>): (n: nat)
    ensures n <= |results|
  {
    if results == [] then 0 else (if results[0].content.Accepted? then 1 else 0) + AcceptedCount(results[1..])
  }

  function ReportedMatchTotal(c: Config, results: seq<FinderResult>): nat
  {
    if results == [] then 0 else ReportedMatches(c, results[0]) + ReportedMatchTotal(c, results[1..])
  }

  /**
   * Over the results the loop consumes, MatchingFileCount rises by one per
   * accepted file and MatchCount by the writers' counts; with a negative
   * content filter MatchCount does not move.
   */
  lemma {:induction false} DirectoryWalkCounts(c: Config, r: Run, results: seq<FinderResult>)
    ensures var n := Consumed(c, r, results); var w := DirectoryWalk(c, r, results);
      w.t.matchingFileCount == r.t.matchingFileCount + AcceptedCount(results[..n])
      && w.t.matchCount == r.t.matchCount + ReportedMatchTotal(c, results[..n])
      && (c.options.contentIsNegative ==> w.t.matchCount == r.t.matchCount)
    decreases |results|
  {
    if results != [] {
      var s := DirectoryStep(c, r, results[0]);
      var n := Consumed(c, r, results);
      if s.stop {
        assert results[..n] == [results[0]];
        assert results[..n][1..] == [];
      } else {
        DirectoryWalkCounts(c, s.run, results[1..]);
        assert results[..n][1..] == results[1..][..n - 1];
      }
    }
  }

  /** The line counts the writers report, for the accepted files under a positive content filter. */
  function ReportedLines(c: Config, results: seq<FinderResult>): seq<int>
  {
    if results == [] then []
    else
      (if results[0].content.Accepted? && !c.options.contentIsNegative then [results[0].content.report.matchingLineCount] else [])
        + ReportedLines(c, results[1..])
  }

  /** One iteration adds its writer's line count to MatchingLineCount, as AddMatchingLineCount does. */
  lemma StepLines(c: Config, r: Run, res: FinderResult)
    ensures DirectoryStep(c, r, res).run.t.matchingLineCount == AddAllMatchingLines(r.t.matchingLineCount, ReportedLines(c, [res]))
  {
    assert [res][1..] == [];
  }

  /**
   * Over the results the loop consumes, MatchingLineCount is the -1-aware
   * total of the line counts the writers reported, in order.
   */
  lemma {:induction false} DirectoryWalkLines(c: Config, r: Run, results: seq<FinderResult>)
    ensures DirectoryWalk(c, r, results).t.matchingLineCount
      == AddAllMatchingLines(r.t.matchingLineCount, ReportedLines(c, results[..Consumed(c, r, results)]))
    decreases |results|
  {
    if results != [] {
      var s := DirectoryStep(c, r, results[0]);
      var n := Consumed(c, r, results);
      StepLines(c, r, results[0]);
      var head := ReportedLines(c, [results[0]]);
      if s.stop {
        assert results[..n] == [results[0]];
      } else {
        DirectoryWalkLines(c, s.run, results[1..]);
        assert results[..n] == [results[0]] + results[1..][..n - 1];
        ReportedLinesAppend(c, [results[0]], results[1..][..n - 1]);
        AddAllAppend(r.t.matchingLineCount, head, ReportedLines(c, results[1..][..n - 1]));
      }
    }
  }

  /**
   * From the -1 that ExecuteCore sets, a directory leaves MatchingLineCount at
   * -1 while no writer counted lines, and at the sum of the counts otherwise.
   */
  lemma DirectoryWalkLineSentinel(c: Config, r: Run, results: seq<FinderResult>)
    requires r.t.matchingLineCount == -1
    ensures var lines := ReportedLines(c, results[..Consumed(c, r, results)]);
      var w := DirectoryWalk(c, r, results);
      && ((forall i :: 0 <= i < |lines| ==> lines[i] < 0) ==> w.t.matchingLineCount == -1)
      && ((exists i :: 0 <= i < |lines| && lines[i] >= 0) ==> w.t.matchingLineCount == CountedLines(lines))
  {
    DirectoryWalkLines(c, r, results);
    MatchingLineSentinel(ReportedLines(c, results[..Consumed(c, r, results)]));
  }

  lemma {:induction false} ReportedLinesAppend(c: Config, a: seq<FinderResult>, b: seq<FinderResult>)
    ensures ReportedLines(c, a + b) == ReportedLines(c, a) + ReportedLines(c, b)
    decreases |a|
  {
    if a != [] {
      ReportedLinesAppend(c, a[1..], b);
      assert (a + b)[0] == a[0] && (a + b)[1..] == a[1..] + b;
    } else {
      assert a + b == b;
    }
  }

  lemma {:induction false} AddAllAppend(current: int, a: seq<int>, b: seq<int>)
    ensures AddAllMatchingLines(current, a + b) == AddAllMatchingLines(AddAllMatchingLines(current, a), b)
    decreases |a|
  {
    if a != [] {
      AddAllAppend(AddMatchingLines(current, a[0]), a[1..], b);
      assert (a + b)[0] == a[0] && (a + b)[1..] == a[1..] + b;
    } else {
      assert a + b == b;
    }
  }

  /** The walk ends before the last result only in MaxReached or Canceled; otherwise the state is untouched. */
  lemma {:induction false} DirectoryWalkStops(c: Config, r: Run, results: seq<FinderResult>)
    ensures var w := DirectoryWalk(c, r, results);
      Consumed(c, r, results) < |results| ==> w.state == MaxReached || w.state == Canceled
    ensures r.state == Running ==> var w := DirectoryWalk(c, r, results);
      w.state == Running || w.state == MaxReached || w.state == Canceled
    decreases |results|
  {
    if results != [] {
      var s := DirectoryStep(c, r, results[0]);
      if !s.stop {
        DirectoryWalkStops(c, s.run, results[1..]);
      }
    }
  }

  /** MaxReached is only ever set when MaxMatchingFiles equals MatchingFileCount, and nothing is counted after it. */
  lemma {:induction false} DirectoryWalkMaxReached(c: Config, r: Run, results: seq<FinderResult>)
    requires r.state != MaxReached
    ensures var w := DirectoryWalk(c, r, results);
      w.state == MaxReached ==> c.options.maxMatchingFiles == w.t.matchingFileCount
    decreases |results|
  {
    if results != [] {
      var s := DirectoryStep(c, r, results[0]);
      if !s.stop {
        DirectoryWalkMaxReached(c, s.run, results[1..]);
      }
    }
  }

  /** Starting below the cap, MatchingFileCount never passes MaxMatchingFiles. */
  lemma {:induction false} DirectoryWalkWithinCap(c: Config, r: Run, results: seq<FinderResult>)
    requires r.t.matchingFileCount < c.options.maxMatchingFiles
    ensures DirectoryWalk(c, r, results).t.matchingFileCount <= c.options.maxMatchingFiles
    decreases |results|
  {
    if results != [] {
      var s := DirectoryStep(c, r, results[0]);
      if !s.stop {
        DirectoryWalkWithinCap(c, s.run, results[1..]);
      }
    }
  }

  /** A cap at or below the count already reached (0, "no limit", from a fresh start) never stops the walk. */
  lemma {:induction false} DirectoryWalkCapNotReached(c: Config, r: Run, results: seq<FinderResult>)
    requires r.state != MaxReached
    requires c.options.maxMatchingFiles <= r.t.matchingFileCount
    ensures DirectoryWalk(c, r, results).state != MaxReached
    decreases |results|
  {
    if results != [] {
      var s := DirectoryStep(c, r, results[0]);
      if !s.stop {
        DirectoryWalkCapNotReached(c, s.run, results[1..]);
      }
    }
  }

  /** The ask mode only ever stays as it is or drops to None. */
  lemma {:induction false} DirectoryWalkAskMode(c: Config, r: Run, results: seq<FinderResult>)
    ensures var w := DirectoryWalk(c, r, results); w.askMode == r.askMode || w.askMode == AskMode.None
    decreases |results|
  {
    if results != [] {
      var s := DirectoryStep(c, r, results[0]);
      if !s.stop {
        DirectoryWalkAskMode(c, s.run, results[1..]);
      }
    }
  }

  /** The -1 total after a run of writer reports. */
  function AddAllMatchingLines(current: int, reported: seq<int>): int
    decreases |reported|
  {
    if reported == [] then current else AddAllMatchingLines(AddMatchingLines(current, reported[0]), reported[1..])
  }

  /** The sum of the reports that count lines (the non-negative ones). */
  function CountedLines(reported: seq<int>): nat
  {
    if reported == [] then 0 else (if reported[0] >= 0 then reported[0] else 0) + CountedLines(reported[1..])
  }

  lemma {:induction false} AddAllFromCount(current: nat, reported: seq<int>)
    ensures AddAllMatchingLines(current, reported) == current + CountedLines(reported)
    decreases |reported|
  {
    if reported != [] {
      AddAllFromCount(AddMatchingLines(current, reported[0]), reported[1..]);
    }
  }

  /**
   * From the -1 sentinel, the total stays -1 as long as no writer reported a
   * line count, and is the sum of the reported counts from the first one on.
   */
  lemma {:induction false} MatchingLineSentinel(reported: seq<int>)
    ensures (forall i :: 0 <= i < |reported| ==> reported[i] < 0) ==> AddAllMatchingLines(-1, reported) == -1
    ensures (exists i :: 0 <= i < |reported| && reported[i] >= 0) ==> AddAllMatchingLines(-1, reported) == CountedLines(reported)
    decreases |reported|
  {
    if reported != [] {
      if reported[0] >= 0 {
        AddAllFromCount(reported[0], reported[1..]);
      } else {
        MatchingLineSentinel(reported[1..]);
        if exists i :: 0 <= i < |reported| && reported[i] >= 0 {
          var i :| 0 <= i < |reported| && reported[i] >= 0;
          assert reported[1..][i - 1] >= 0;
        }
        if forall i :: 0 <= i < |reported| ==> reported[i] < 0 {
          assert forall i :: 0 <= i < |reported[1..]| ==> reported[1..][i] < 0 by {
            forall i | 0 <= i < |reported[1..]| ensures reported[1..][i] < 0 {
              assert reported[1..][i] == reported[i + 1];
            }
          }
        }
      }
    }
  }

  /** After the walk three counters are taken over from the progress reporter. */
  function WithProgress(r: Run, p: Progress): Run
  {
    r.(t := r.t.(searchedDirectoryCount := p.searchedDirectoryCount,
                 directoryCount := p.directoryCount,
                 fileCount := p.fileCount))
  }

  /** ExecuteFile for a path given directly on the command line. */
  function FileStep(c: Config, r: Run, path: string, content: Content): Run
  {
    var r0 := r.(t := r.t.(fileCount := r.t.fileCount + 1));
    match content
    case Accepted(rep) => FileMatched(c, WriteMatchesStep(c, r0, rep), path)
    case _ => r0
  }

  /** After a directly given file's matches: the MaxMatchingFiles check, then the path on the output. */
  function FileMatched(c: Config, r: Run, path: string): Run
  {
    var r1 := if c.options.maxMatchingFiles == r.t.matchingFileCount then r.(state := MaxReached) else r;
    r1.(output := r1.output + OutputLine(c, path))
  }

  /** A path given on the command line: a directory with its finder results, a file, or neither. */
  datatype TargetKind =
    | DirectoryTarget(results: seq<FinderResult>, progress: Progress)
    | FileTarget(path: string, content: Content)
    | MissingTarget

  /** A path and whether cancellation has been requested once it is done. */
  datatype Target = Target(kind: TargetKind, cancellationRequested: bool)

  function TargetStep(c: Config, r: Run, target: Target): (s: Step)
    ensures s.stop <==> s.run.state == MaxReached || s.run.state == Canceled || target.cancellationRequested
    ensures s.run.state == r.state || s.run.state == MaxReached || s.run.state == Canceled
    ensures |r.output| <= |s.run.output| && s.run.output[..|r.output|] == r.output
  {
    var r1 :=
      match target.kind
      case DirectoryTarget(results, progress) => WithProgress(DirectoryWalk(c, r, results), progress)
      case FileTarget(path, content) => FileStep(c, r, path, content)
      case MissingTarget => r;
    Step(r1, r1.state == MaxReached || r1.state == Canceled || target.cancellationRequested)
  }

  /** The loop over the command-line paths. */
  function TargetWalk(c: Config, r: Run, targets: seq<Target>): (r': Run)
    ensures r'.state == r.state || r'.state == MaxReached || r'.state == Canceled
    ensures |r.output| <= |r'.output| && r'.output[..|r.output|] == r.output
    decreases |targets|
  {
    if targets == [] then r
    else
      var s := TargetStep(c, r, targets[0]);
      if s.stop then s.run else TargetWalk(c, s.run, targets[1..])
  }

  /** Across all paths the ask mode only stays as it is or drops to None. */
  lemma {:induction false} TargetWalkAskMode(c: Config, r: Run, targets: seq<Target>)
    ensures var w := TargetWalk(c, r, targets); w.askMode == r.askMode || w.askMode == AskMode.None
    decreases |targets|
  {
    if targets != [] {
      match targets[0].kind {
        case DirectoryTarget(results, _) => DirectoryWalkAskMode(c, r, results);
        case FileTarget(_, _) =>
        case MissingTarget =>
      }
      var s := TargetStep(c, r, targets[0]);
      if !s.stop {
        TargetWalkAskMode(c, s.run, targets[1..]);
      }
    }
  }

  /** ExecuteCore's set-up before the walk: the line sentinel, and the ask mode at Minimal verbosity or above. */
  function Start(options: FindOptions, env: Environment, r: Run): Run
  {
    r.(t := r.t.(matchingLineCount := -1),
       askMode := if AtLeast(env.consoleVerbosity, Verbosity.Minimal) then options.askMode else r.askMode)
  }

  /**
   * Value or File asking is in force after a run only when the console
   * verbosity is at least Minimal and the options asked for it.
   */
  lemma AskModeNeedsMinimalVerbosity(c: Config, options: FindOptions, env: Environment, r: Run, targets: seq<Target>)
    requires r.askMode == AskMode.None
    ensures var w := TargetWalk(c, Start(options, env, r), targets);
      w.askMode != AskMode.None ==> AtLeast(env.consoleVerbosity, Verbosity.Minimal) && w.askMode == options.askMode
  {
    TargetWalkAskMode(c, Start(options, env, r), targets);
  }

  // ---------------------------------------------------------------- the command

  class FindContentCommand {
    const options: FindOptions
    const env: Environment
    const console: Text.TextSink
    var askMode: AskMode
    var hasStorage: bool

    constructor (options: FindOptions, env: Environment, console: Text.TextSink)
      ensures this.options == options && this.env == env && this.console == console
      ensures askMode == AskMode.None && !hasStorage
    {
      this.options := options;
      this.env := env;
      this.console := console;
      askMode := AskMode.None;
      hasStorage := false;
    }

    function Cfg(context: SearchContext): Config
      reads this, context
    {
      Config(options, env, hasStorage, context.output != null)
    }

    function Abs(context: SearchContext): Run
      reads this, context, context.telemetry, console, context.output
    {
      Run(context.telemetry.Snapshot(), context.state, askMode,
        if context.output != null then context.output.text else "", console.text)
    }

    /** Adds one writer's matching-line count, turning the -1 sentinel into 0 first. */
    static method AddMatchingLineCount(telemetry: SearchTelemetry, reported: int)
      modifies telemetry`matchingLineCount
      ensures telemetry.matchingLineCount == AddMatchingLines(old(telemetry.matchingLineCount), reported)
    {
      if reported >= 0 {
        if telemetry.matchingLineCount == -1 {
          telemetry.matchingLineCount := 0;
        }
        telemetry.matchingLineCount := telemetry.matchingLineCount + reported;
      }
    }

    method WriteMatches(context: SearchContext, rep: WriterReport)
      requires context.output != console
      modifies this`askMode, context`state, context.telemetry, console
      ensures Abs(context) == WriteMatchesStep(Cfg(context), old(Abs(context)), rep)
    {
      var telemetry := context.telemetry;
      telemetry.matchingFileCount := telemetry.matchingFileCount + 1;
      var fileMatchCount, maxReason := RunWriter(context, rep);
      WriteCount(fileMatchCount, maxReason);
      telemetry.matchCount := telemetry.matchCount + fileMatchCount;
    }

    /** Runs the real match writer, or the counting-only one (EnumerateValues), over the file. */
    method RunWriter(context: SearchContext, rep: WriterReport) returns (fileMatchCount: nat, maxReason: MaxReason)
      modifies this`askMode, context`state, context.telemetry`matchingLineCount, console
      ensures fileMatchCount == rep.matchCount && maxReason == rep.maxReason
      ensures context.telemetry.matchingLineCount == AddMatchingLines(old(context.telemetry.matchingLineCount), rep.matchingLineCount)
      ensures context.state == if rep.canceled then Canceled else old(context.state)
      ensures askMode == if UsesWriter(Cfg(context)) then AskModeAfter(old(askMode), rep.ask) else old(askMode)
      ensures console.text == old(console.text) + (if UsesWriter(Cfg(context)) then LeadingLine(Cfg(context)) else "")
      ensures console.disposed == old(console.disposed)
    {
      fileMatchCount := 0;
      if hasStorage || options.askMode == AskMode.Value
        || AtLeast(env.consoleVerbosity, Verbosity.Normal) || env.logAtLeastNormal
      {
        if !options.omitPath {
          if options.askMode == AskMode.Value {
            console.Write(Text.NewLine);
          } else if AtLeast(env.consoleVerbosity, Verbosity.Normal) {
            console.Write(Text.NewLine);
          }
        }
        maxReason := rep.maxReason;
        if rep.canceled {
          context.state := Canceled;
        }
        fileMatchCount := fileMatchCount + rep.matchCount;
        AddMatchingLineCount(context.telemetry, rep.matchingLineCount);
        if askMode == AskMode.Value && rep.ask == Text.Some(false) {
          askMode := AskMode.None;
        }
      } else {
        maxReason := rep.maxReason;
        if rep.canceled {
          context.state := Canceled;
        }
        AddMatchingLineCount(context.telemetry, rep.matchingLineCount);
        fileMatchCount := rep.matchCount;
      }
    }

    /** The count line after the file's matches, on the console at Minimal verbosity. */
    method WriteCount(fileMatchCount: nat, maxReason: MaxReason)
      modifies console
      ensures console.text == old(console.text) + CountOutput(Config(options, env, hasStorage, false), fileMatchCount, maxReason)
      ensures console.disposed == old(console.disposed)
    {
      if options.askMode != AskMode.Value && !options.omitPath {
        if env.consoleVerbosity == Verbosity.Minimal {
          console.Write(" " + GroupedDecimal(fileMatchCount));
          if maxReason == MaxReason.CountExceedsMax {
            console.Write("+");
          }
          console.Write(Text.NewLine);
        }
      }
    }

    /** The checks after a matching file: MaxMatchingFiles, then the "Continue without asking?" question. */
    method AfterMatch(context: SearchContext, answer: Answer) returns (stop: bool)
      modifies this`askMode, context`state
      ensures Abs(context) == AfterMatchStep(Cfg(context), old(Abs(context)), answer).run
      ensures stop == AfterMatchStep(Cfg(context), old(Abs(context)), answer).stop
    {
      if options.maxMatchingFiles == context.telemetry.matchingFileCount {
        context.state := MaxReached;
      }
      if context.state == MaxReached {
        return true;
      }
      if askMode == AskMode.File {
        match answer
        case Yes => askMode := AskMode.None;
        case No =>
        case Cancel =>
          context.state := Canceled;
          return true;
      }
      return false;
    }

    /** One iteration of ExecuteDirectory's loop. */
    method ExecuteResult(context: SearchContext, res: FinderResult) returns (stop: bool)
      requires context.output != console
      modifies this`askMode, context`state, context.telemetry, console, context.output
      ensures Abs(context) == DirectoryStep(Cfg(context), old(Abs(context)), res).run
      ensures stop == DirectoryStep(Cfg(context), old(Abs(context)), res).stop
    {
      if !res.content.Accepted? {
        return false;
      }
      WriteOutputLine(context, res.path);
      stop := ExecuteMatched(context, res.content.report, res.answer);
    }

    /** The rest of ExecuteDirectory's loop body for a matching file. */
    method ExecuteMatched(context: SearchContext, rep: WriterReport, answer: Answer) returns (stop: bool)
      requires context.output != console
      modifies this`askMode, context`state, context.telemetry, console
      ensures Abs(context) == MatchedStep(Cfg(context), old(Abs(context)), rep, answer).run
      ensures stop == MatchedStep(Cfg(context), old(Abs(context)), rep, answer).stop
    {
      if options.contentIsNegative {
        CountNegativeMatch(context);
      } else {
        WriteMatches(context, rep);
        if context.state == Canceled {
          return true;
        }
      }
      stop := AfterMatch(context, answer);
    }

    /** context.Output?.WriteLineIf(IncludePath, path) */
    method WriteOutputLine(context: SearchContext, path: string)
      requires context.output != console
      modifies context.output
      ensures Abs(context) == old(Abs(context)).(output := old(Abs(context)).output + OutputLine(Cfg(context), path))
    {
      if context.output != null && options.includePath {
        context.output.WriteLine(path);
      }
    }

    /** A file accepted by a negative content filter is counted without running a writer. */
    method CountNegativeMatch(context: SearchContext)
      requires context.output != console
      modifies context.telemetry`matchingFileCount, console
      ensures var r := old(Abs(context));
        Abs(context) == r.(t := r.t.(matchingFileCount := r.t.matchingFileCount + 1),
          console := r.console + if !options.omitPath && AtLeast(env.consoleVerbosity, Verbosity.Minimal) then Text.NewLine else "")
    {
      context.telemetry.matchingFileCount := context.telemetry.matchingFileCount + 1;
      if !options.omitPath && AtLeast(env.consoleVerbosity, Verbosity.Minimal) {
        console.Write(Text.NewLine);
      }
    }

    /** ExecuteDirectory: the finder results in order, then the progress reporter's counts. */
    method ExecuteDirectory(context: SearchContext, results: seq<FinderResult>, progress: Progress)
      requires context.output != console
      modifies this`askMode, context`state, context.telemetry, console, context.output
      ensures Abs(context) == WithProgress(DirectoryWalk(Cfg(context), old(Abs(context)), results), progress)
    {
      ghost var start := Abs(context);
      var i := 0;
      while i < |results|
        invariant 0 <= i <= |results|
        invariant DirectoryWalk(Cfg(context), Abs(context), results[i..]) == DirectoryWalk(Cfg(context), start, results)
      {
        assert results[i..][1..] == results[i + 1..];
        var stop := ExecuteResult(context, results[i]);
        if stop {
          assert Abs(context) == DirectoryWalk(Cfg(context), start, results);
          break;
        }
        i := i + 1;
      }
      ghost var walked := Abs(context);
      assert walked == DirectoryWalk(Cfg(context), start, results);
      var telemetry := context.telemetry;
      telemetry.searchedDirectoryCount := progress.searchedDirectoryCount;
      telemetry.directoryCount := progress.directoryCount;
      telemetry.fileCount := progress.fileCount;
    }

    /** ExecuteFile: a path given directly; the file is counted even when it is not read or does not match. */
    method ExecuteFile(context: SearchContext, path: string, content: Content)
      requires context.output != console
      modifies this`askMode, context`state, context.telemetry, console, context.output
      ensures Abs(context) == FileStep(Cfg(context), old(Abs(context)), path, content)
    {
      context.telemetry.fileCount := context.telemetry.fileCount + 1;
      if content.Accepted? {
        WriteMatches(context, content.report);
        FinishFileMatch(context, path);
      }
    }

    /** The MaxMatchingFiles check and the output line after a directly given file matched. */
    method FinishFileMatch(context: SearchContext, path: string)
      requires context.output != console
      modifies context`state, context.output
      ensures Abs(context) == FileMatched(Cfg(context), old(Abs(context)), path)
    {
      if options.maxMatchingFiles == context.telemetry.matchingFileCount {
        context.state := MaxReached;
      }
      if context.output != null && options.includePath {
        context.output.WriteLine(path);
      }
    }

    method ExecuteTarget(context: SearchContext, target: Target) returns (stop: bool)
      requires context.output != console
      modifies this`askMode, context`state, context.telemetry, console, context.output
      ensures Abs(context) == TargetStep(Cfg(context), old(Abs(context)), target).run
      ensures stop == TargetStep(Cfg(context), old(Abs(context)), target).stop
    {
      match target.kind {
        case DirectoryTarget(results, progress) => ExecuteDirectory(context, results, progress);
        case FileTarget(path, content) => ExecuteFile(context, path, content);
        case MissingTarget =>
      }
      stop := context.state == MaxReached || context.state == Canceled || target.cancellationRequested;
    }

    /**
     * ExecuteCore: resets the matching-line count to the -1 sentinel, takes the
     * ask mode from the options at Minimal verbosity or above, decides on the
     * result storage, then walks the command-line paths.
     */
    method ExecuteCore(context: SearchContext, targets: seq<Target>)
      requires context.output != console
      modifies this, context`state, context.telemetry, console, context.output
      ensures hasStorage == (options.hasOutputPath && options.includeContent)
      ensures Abs(context) == TargetWalk(Cfg(context), Start(options, env, old(Abs(context))), targets)
    {
      context.telemetry.matchingLineCount := -1;
      if AtLeast(env.consoleVerbosity, Verbosity.Minimal) {
        askMode := options.askMode;
      }
      hasStorage := options.hasOutputPath && options.includeContent;
      assert Abs(context) == Start(options, env, old(Abs(context)));
      ExecuteTargets(context, targets);
    }

    /** ExecuteCore's loop over the command-line paths, stopping after the first target that asks to stop. */
    method ExecuteTargets(context: SearchContext, targets: seq<Target>)
      requires context.output != console
      modifies this`askMode, context`state, context.telemetry, console, context.output
      ensures Abs(context) == TargetWalk(Cfg(context), old(Abs(context)), targets)
    {
      ghost var start := Abs(context);
      var i := 0;
      while i < |targets|
        invariant 0 <= i <= |targets|
        invariant TargetWalk(Cfg(context), Abs(context), targets[i..]) == TargetWalk(Cfg(context), start, targets)
      {
        assert targets[i..][1..] == targets[i + 1..];
        var stop := ExecuteTarget(context, targets[i]);
        if stop {
          break;
        }
        i := i + 1;
      }
    }
  }
}
