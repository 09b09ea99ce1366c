/**
 * LineReplacementWriter: while the line display of a file's matches is
 * produced, the writer rebuilds the replaced text in an optional sink by
 * copying the unmatched gap before each match, then the evaluator's
 * replacement, then, at the end, the tail of the input.
 */
module Replacement {
  import opened Text

  /** A match of the regex against the writer's input: its offset and length. */
  datatype Match = Match(index: nat, length: nat)

  function End(m: Match): nat
  {
    m.index + m.length
  }

  /**
   * The matches of one regex pass, as they come from the engine: each starts
   * at or after the end of the previous one (and at or after `from`), and
   * each lies inside the input.
   */
  predicate Ordered(input: string, from: nat, matches: seq<Match>)
    decreases |matches|
  {
    from <= |input| &&
    (matches != [] ==>
      from <= matches[0].index && End(matches[0]) <= |input| &&
      Ordered(input, End(matches[0]), matches[1..]))
  }

  /**
   * The result of replacing `matches` in `input[from..]`: the unmatched gaps
   * copied verbatim, each match substituted by the evaluator's result, in order.
   */
  function ReplaceFrom(input: string, from: nat, matches: seq<Match>, evaluator: Match -> string): string
    requires Ordered(input, from, matches)
    decreases |matches|
  {
    if matches == [] then input[from..]
    else
      input[from..matches[0].index] + evaluator(matches[0])
      + ReplaceFrom(input, End(matches[0]), matches[1..], evaluator)
  }

  /** Regex.Replace(input, evaluator) for a given match sequence. */
  function Replace(input: string, matches: seq<Match>, evaluator: Match -> string): string
    requires Ordered(input, 0, matches)
  {
    ReplaceFrom(input, 0, matches, evaluator)
  }

  function MatchedLength(matches: seq<Match>): nat
  {
    if matches == [] then 0 else matches[0].length + MatchedLength(matches[1..])
  }

  function ReplacementLength(matches: seq<Match>, evaluator: Match -> string): nat
  {
    if matches == [] then 0 else |evaluator(matches[0])| + ReplacementLength(matches[1..], evaluator)
  }

  /** The sink's length: the input minus the matched text plus the replacements. */
  lemma {:induction false} ReplaceFromLength(input: string, from: nat, matches: seq<Match>, evaluator: Match -> string)
    requires Ordered(input, from, matches)
    ensures |ReplaceFrom(input, from, matches, evaluator)| + MatchedLength(matches)
         == |input| - from + ReplacementLength(matches, evaluator)
    decreases |matches|
  {
    if matches != [] {
      ReplaceFromLength(input, End(matches[0]), matches[1..], evaluator);
    }
  }

  lemma ReplaceLength(input: string, matches: seq<Match>, evaluator: Match -> string)
    requires Ordered(input, 0, matches)
    ensures |Replace(input, matches, evaluator)|
         == |input| - MatchedLength(matches) + ReplacementLength(matches, evaluator)
  {
    ReplaceFromLength(input, 0, matches, evaluator);
  }

  /** The evaluator that returns each match's own text. */
  function Echo(input: string): Match -> string
  {
    m => if End(m) <= |input| then input[m.index..End(m)] else ""
  }

  /**
   * No gaps and no overlaps: replacing every match by its own text gives
   * back the input unchanged.
   */
  lemma {:induction false} ReplaceFromWithEcho(input: string, from: nat, matches: seq<Match>)
    requires Ordered(input, from, matches)
    ensures ReplaceFrom(input, from, matches, Echo(input)) == input[from..]
    decreases |matches|
  {
    if matches != [] {
      var m := matches[0];
      ReplaceFromWithEcho(input, End(m), matches[1..]);
      calc {
        ReplaceFrom(input, from, matches, Echo(input));
        input[from..m.index] + input[m.index..End(m)] + input[End(m)..];
        input[from..];
      }
    }
  }

  lemma ReplaceWithEchoIsIdentity(input: string, matches: seq<Match>)
    requires Ordered(input, 0, matches)
    ensures Replace(input, matches, Echo(input)) == input
  {
    ReplaceFromWithEcho(input, 0, matches);
  }

  /** One further match extends the replaced prefix by its gap and its replacement. */
  lemma {:induction false} ReplaceFromSnoc(input: string, from: nat, matches: seq<Match>, m: Match, evaluator: Match -> string)
    requires Ordered(input, from, matches)
    requires LastEnd(from, matches) <= m.index && End(m) <= |input|
    ensures Ordered(input, from, matches + [m])
    ensures ReplacedPrefix(input, from, matches + [m], evaluator)
         == ReplacedPrefix(input, from, matches, evaluator) + input[LastEnd(from, matches)..m.index] + evaluator(m)
    decreases |matches|
  {
    if matches == [] {
      assert [m][1..] == [];
      AppendEmpty(input[from..m.index] + evaluator(m));
    } else {
      var first, rest := matches[0], matches[1..];
      assert (matches + [m])[0] == first;
      assert (matches + [m])[1..] == rest + [m];
      LastEndAtLeastFrom(input, from, matches);
      ReplaceFromSnoc(input, End(first), rest, m, evaluator);
      var gap := input[from..first.index] + evaluator(first);
      var tail := input[LastEnd(from, matches)..m.index] + evaluator(m);
      AppendAssoc(ReplacedPrefix(input, End(first), rest, evaluator), input[LastEnd(from, matches)..m.index], evaluator(m));
      AppendAssoc(gap, ReplacedPrefix(input, End(first), rest, evaluator), tail);
      AppendAssoc(gap + ReplacedPrefix(input, End(first), rest, evaluator), input[LastEnd(from, matches)..m.index], evaluator(m));
    }
  }

  /** Where the copy offset stands after the given matches. */
  function LastEnd(from: nat, matches: seq<Match>): nat
  {
    if matches == [] then from else End(matches[|matches| - 1])
  }

  lemma {:induction false} LastEndAtLeastFrom(input: string, from: nat, matches: seq<Match>)
    requires Ordered(input, from, matches)
    ensures from <= LastEnd(from, matches) <= |input|
    ensures matches != [] ==> LastEnd(from, matches) == LastEnd(End(matches[0]), matches[1..])
    decreases |matches|
  {
    if matches != [] {
      LastEndAtLeastFrom(input, End(matches[0]), matches[1..]);
    }
  }

  /** What the sink holds once the given matches have been replaced, before the tail is copied. */
  function ReplacedPrefix(input: string, from: nat, matches: seq<Match>, evaluator: Match -> string): string
    requires Ordered(input, from, matches)
    decreases |matches|
  {
    if matches == [] then ""
    else
      input[from..matches[0].index] + evaluator(matches[0])
      + ReplacedPrefix(input, End(matches[0]), matches[1..], evaluator)
  }

  /** The full output is the replaced prefix followed by the tail after the last match. */
  lemma {:induction false} ReplaceFromSplit(input: string, from: nat, matches: seq<Match>, evaluator: Match -> string)
    requires Ordered(input, from, matches)
    ensures LastEnd(from, matches) <= |input|
    ensures ReplaceFrom(input, from, matches, evaluator)
         == ReplacedPrefix(input, from, matches, evaluator) + input[LastEnd(from, matches)..]
    decreases |matches|
  {
    LastEndAtLeastFrom(input, from, matches);
    if matches != [] {
      ReplaceFromSplit(input, End(matches[0]), matches[1..], evaluator);
    }
  }

  /** Splitting an ordered match sequence leaves both halves ordered, the second from where the first ends. */
  lemma {:induction false} OrderedSplit(input: string, from: nat, matches: seq<Match>, i: nat)
    requires Ordered(input, from, matches) && i <= |matches|
    ensures Ordered(input, from, matches[..i])
    ensures Ordered(input, LastEnd(from, matches[..i]), matches[i..])
    decreases i
  {
    if i > 0 {
      assert matches[1..][..i - 1] == matches[..i][1..];
      assert matches[1..][i - 1..] == matches[i..];
      OrderedSplit(input, End(matches[0]), matches[1..], i - 1);
      LastEndAtLeastFrom(input, from, matches[..i]);
    } else {
      assert matches[..0] == [] && matches[0..] == matches;
    }
  }

  /** The next match starts after the copy offset and lies inside the input. */
  lemma EachMatchReady(input: string, matches: seq<Match>, i: nat)
    requires Ordered(input, 0, matches) && i < |matches|
    ensures LastEnd(0, matches[..i]) <= matches[i].index && End(matches[i]) <= |input|
  {
    OrderedSplit(input, 0, matches, i);
    assert matches[i..][0] == matches[i];
  }

  /** Replacing one more match appends its gap and its replacement to the prefix. */
  lemma EachMatchStep(input: string, matches: seq<Match>, i: nat, evaluator: Match -> string)
    requires Ordered(input, 0, matches) && i < |matches|
    ensures matches[..i + 1] == matches[..i] + [matches[i]]
    ensures Ordered(input, 0, matches[..i])
    ensures Ordered(input, 0, matches[..i + 1]) && LastEnd(0, matches[..i + 1]) == End(matches[i])
    ensures LastEnd(0, matches[..i]) <= matches[i].index && End(matches[i]) <= |input|
    ensures ReplacedPrefix(input, 0, matches[..i + 1], evaluator)
      == ReplacedPrefix(input, 0, matches[..i], evaluator) + (input[LastEnd(0, matches[..i])..matches[i].index] + evaluator(matches[i]))
  {
    EachMatchReady(input, matches, i);
    OrderedSplit(input, 0, matches, i);
    TakeStep(matches, i);
    ReplaceFromSnoc(input, 0, matches[..i], matches[i], evaluator);
    AppendAssoc(ReplacedPrefix(input, 0, matches[..i], evaluator), input[LastEnd(0, matches[..i])..matches[i].index],
      evaluator(matches[i]));
  }

  class LineReplacementWriter {
    const input: string
    const evaluator: Match -> string
    const highlightMatch: bool
    /** The sink the replaced text is rebuilt in; null when only the display is wanted. */
    const writer: TextSink?
    /** `_writerIndex`: the input is copied to the sink up to here. */
    var writerIndex: nat
    /** Every match the evaluator was called with, in order. */
    var evaluated: seq<Match>
    /** Original match values handed to the line display (echoed only when highlighting). */
    var echoed: seq<string>

    constructor (input: string, evaluator: Match -> string, highlightMatch: bool, writer: TextSink?)
      ensures this.input == input && this.evaluator == evaluator
      ensures this.highlightMatch == highlightMatch && this.writer == writer
      ensures writerIndex == 0 && evaluated == [] && echoed == []
    {
      this.input := input;
      this.evaluator := evaluator;
      this.highlightMatch := highlightMatch;
      this.writer := writer;
      writerIndex := 0;
      evaluated := [];
      echoed := [];
    }

    /** Starting a run of matches resets the copy offset. */
    method WriteStartMatches()
      modifies this`writerIndex
      ensures writerIndex == 0
    {
      writerIndex := 0;
    }

    /** The original match text goes to the display only when matches are highlighted. */
    method WriteNonEmptyMatchValue(m: Match)
      requires End(m) <= |input|
      modifies this`echoed
      ensures echoed == old(echoed) + if highlightMatch then [input[m.index..End(m)]] else []
    {
      if highlightMatch {
        echoed := echoed + [input[m.index..End(m)]];
      }
    }

    /**
     * Copies the gap before the match and the replacement; with no sink only
     * the offset moves (the span is then never taken, so no range is demanded).
     */
    method WriteEndReplacement(m: Match, result: string)
      requires writer != null ==> writerIndex <= m.index && End(m) <= |input|
      modifies this`writerIndex, writer
      ensures writerIndex == End(m)
      ensures writer != null ==>
        writer.text == old(writer.text) + input[old(writerIndex)..m.index] + result
        && writer.disposed == old(writer.disposed)
    {
      if writer != null {
        writer.Write(input[writerIndex..m.index]);
        writer.Write(result);
      }
      writerIndex := End(m);
    }

    /** Calls the evaluator once for the match and writes its result as the replacement. */
    method WriteEndMatch(m: Match)
      requires writer != null ==> writerIndex <= m.index && End(m) <= |input|
      modifies this`writerIndex, this`evaluated, writer
      ensures evaluated == old(evaluated) + [m]
      ensures writerIndex == End(m)
      ensures writer != null ==>
        writer.text == old(writer.text) + input[old(writerIndex)..m.index] + evaluator(m)
        && writer.disposed == old(writer.disposed)
    {
      var result := evaluator(m);
      evaluated := evaluated + [m];
      WriteEndReplacement(m, result);
    }

    /** Copies the tail of the input after the last match. */
    method WriteEndMatches()
      requires writer != null ==> writerIndex <= |input|
      modifies writer
      ensures writer != null ==>
        writer.text == old(writer.text) + input[writerIndex..] && writer.disposed == old(writer.disposed)
    {
      if writer != null {
        writer.Write(input[writerIndex..]);
      }
    }

    /** Disposing the writer disposes the sink and writes nothing. */
    method Dispose()
      modifies writer
      ensures writer != null ==> writer.disposed && writer.text == old(writer.text)
    {
      if writer != null {
        writer.Dispose();
      }
    }

    /**
     * One pass of the match writer over the matches of a regex pass: start,
     * one end-of-match per match, end. The sink receives exactly the regex
     * Replace output, the evaluator is called once per match, in order, and
     * the copy offset never moves backwards.
     */
    method WriteMatches(matches: seq<Match>)
      requires Ordered(input, 0, matches)
      modifies this`writerIndex, this`evaluated, writer
      ensures evaluated == old(evaluated) + matches
      ensures writerIndex == LastEnd(0, matches) && writerIndex <= |input|
      ensures writer != null ==>
        writer.text == old(writer.text) + Replace(input, matches, evaluator)
        && writer.disposed == old(writer.disposed)
    {
      WriteStartMatches();
      WriteEachMatch(matches);
      LastEndAtLeastFrom(input, 0, matches);
      ReplaceFromSplit(input, 0, matches, evaluator);
      WriteEndMatches();
    }

    /** The per-match part of a pass, from a freshly reset copy offset. */
    method WriteEachMatch(matches: seq<Match>)
      requires Ordered(input, 0, matches) && writerIndex == 0
      modifies this`writerIndex, this`evaluated, writer
      ensures evaluated == old(evaluated) + matches
      ensures writerIndex == LastEnd(0, matches)
      ensures writer != null ==>
        writer.text == old(writer.text) + ReplacedPrefix(input, 0, matches, evaluator)
        && writer.disposed == old(writer.disposed)
    {
      var i := 0;
      while i < |matches|
        invariant 0 <= i <= |matches|
        invariant writerIndex == LastEnd(0, matches[..i])
        invariant Ordered(input, 0, matches[..i])
        invariant evaluated == old(evaluated) + matches[..i]
        invariant writer != null ==>
          writer.text == old(writer.text) + ReplacedPrefix(input, 0, matches[..i], evaluator)
          && writer.disposed == old(writer.disposed)
      {
        EachMatchReady(input, matches, i);
        WriteEndMatch(matches[i]);
        EachMatchStep(input, matches, i, evaluator);
        if writer != null {
          AppendAssoc(old(writer.text), ReplacedPrefix(input, 0, matches[..i], evaluator),
            input[LastEnd(0, matches[..i])..matches[i].index] + evaluator(matches[i]));
        }
        AppendAssoc(old(evaluated), matches[..i], [matches[i]]);
        i := i + 1;
      }
      assert matches[..i] == matches;
    }
  }
}
