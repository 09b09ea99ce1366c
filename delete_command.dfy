/**
 * The delete command: which finder results are counted as matching, when a
 * deletion is attempted and counted as processed, what reaches the output,
 * when the directory-changed event is raised, and when the walk stops.
 *
 * Deleting, reading files, the content filter and the console question are
 * oracles carried by each result.
 */
module Delete {
  import Text
  import opened Search

  /** The options the command reads. */
  datatype DeleteOptions = DeleteOptions(
    hasContentFilter: bool,
    dryRun: bool,
    ask: bool,
    contentOnly: bool,
    maxMatchingFiles: int)

  /** The content filter's verdict on a file: it could not be read, it did not match, it matched. */
  datatype ContentCheck = Unreadable | Rejected | Accepted

  /**
   * One result of the finder (or a file given directly) with its oracles: the
   * content filter's verdict (ignored for directories and when there is no
   * filter), the answer to "Delete?" and whether the deletion succeeds rather
   * than throwing an IOException or UnauthorizedAccessException.
   */
  datatype DeleteResult = DeleteResult(
    path: string,
    isDirectory: bool,
    content: ContentCheck,
    answer: Answer,
    deleteSucceeds: bool)

  /** The observable state: counters, termination state, the output's text and the DirectoryChanged events raised. */
  datatype Run = Run(t: Counters, state: SearchState, output: string, changed: seq<string>)

  datatype Config = Config(options: DeleteOptions, hasOutput: bool)

  /** The result of one loop iteration: the new run state and whether the loop breaks. */
  datatype Step = Step(run: Run, stop: bool)

  /** A file passes when there is no content filter, or the file was read and matched. */
  predicate PassesContentFilter(o: DeleteOptions, res: DeleteResult)
  {
    !o.hasContentFilter || res.content == Accepted
  }

  /** Whether the deletion is attempted: not a dry run, and either no asking or a "yes". */
  predicate Attempted(o: DeleteOptions, res: DeleteResult)
  {
    !o.dryRun && (!o.ask || res.answer == Yes)
  }

  predicate Succeeded(o: DeleteOptions, res: DeleteResult)
  {
    Attempted(o, res) && res.deleteSucceeds
  }

  /**
   * Ask, delete, count and report one matching item: the shared tail of
   * ExecuteFile and of each iteration of ExecuteDirectory.
   */
  function ProcessStep(c: Config, r: Run, res: DeleteResult): (r': Run)
    ensures r'.t.matchingFileCount == r.t.matchingFileCount && r'.t.matchingDirectoryCount == r.t.matchingDirectoryCount
    ensures r'.t.processedFileCount == r.t.processedFileCount + (if Succeeded(c.options, res) && !res.isDirectory then 1 else 0)
    ensures r'.t.processedDirectoryCount == r.t.processedDirectoryCount + (if Succeeded(c.options, res) && res.isDirectory then 1 else 0)
    ensures r'.output == r.output + (if c.hasOutput && (c.options.dryRun || Succeeded(c.options, res)) then res.path + Text.NewLine else "")
    ensures r'.state == (if !c.options.dryRun && c.options.ask && res.answer == Cancel then Canceled else r.state)
    ensures r'.changed == r.changed
  {
    var state := if !c.options.dryRun && c.options.ask && res.answer == Cancel then Canceled else r.state;
    var success := Succeeded(c.options, res);
    var t :=
      if !success then r.t
      else if res.isDirectory then r.t.(processedDirectoryCount := r.t.processedDirectoryCount + 1)
      else r.t.(processedFileCount := r.t.processedFileCount + 1);
    var line := if c.hasOutput && (c.options.dryRun || success) then res.path + Text.NewLine else "";
    Run(t, state, r.output + line, r.changed)
  }

  /** Matching items so far, as the MaxMatchingFiles check counts them. */
  function MatchingTotal(t: Counters): int
  {
    t.matchingFileCount + t.matchingDirectoryCount
  }

  /** One iteration of ExecuteDirectory's loop. */
  function DirectoryStep(c: Config, r: Run, res: DeleteResult): (s: Step)
    ensures s.stop ==> s.run.state == MaxReached || s.run.state == Canceled
    ensures !s.stop ==> s.run.state == r.state
    ensures s.run.state == MaxReached && r.state != MaxReached ==> c.options.maxMatchingFiles == MatchingTotal(s.run.t)
    ensures s.run.changed == r.changed + (if Succeeded(c.options, res) && res.isDirectory then [res.path] else [])
    ensures s.run.t.matchingDirectoryCount == r.t.matchingDirectoryCount + (if res.isDirectory then 1 else 0)
    ensures s.run.t.matchingFileCount == r.t.matchingFileCount
      + (if !res.isDirectory && PassesContentFilter(c.options, res) then 1 else 0)
    ensures var counted := res.isDirectory || PassesContentFilter(c.options, res);
      s.run.output == r.output
        + (if counted && c.hasOutput && (c.options.dryRun || Succeeded(c.options, res)) then res.path + Text.NewLine else "")
    ensures (res.isDirectory || PassesContentFilter(c.options, res)) && !c.options.dryRun && c.options.ask && res.answer == Cancel
      ==> s.stop && s.run.state == Canceled && !Succeeded(c.options, res)
    ensures (res.isDirectory || PassesContentFilter(c.options, res)) && r.state != Canceled
      && !(!c.options.dryRun && c.options.ask && res.answer == Cancel)
      && c.options.maxMatchingFiles == MatchingTotal(s.run.t)
      ==> s.stop && s.run.state == MaxReached
  {
    if !res.isDirectory && !PassesContentFilter(c.options, res) then Step(r, false)
    else StepEnd(c, Recorded(c, ProcessStep(c, Counted(r, res), res), res))
  }

  /** The result counted as a matching directory or file. */
  function Counted(r: Run, res: DeleteResult): Run
  {
    if res.isDirectory then r.(t := r.t.(matchingDirectoryCount := r.t.matchingDirectoryCount + 1))
    else r.(t := r.t.(matchingFileCount := r.t.matchingFileCount + 1))
  }

  /** A deleted directory raises the DirectoryChanged event. */
  function Recorded(c: Config, r: Run, res: DeleteResult): Run
  {
    if res.isDirectory && Succeeded(c.options, res) then r.(changed := r.changed + [res.path]) else r
  }

  /** The end of an iteration: break when canceled or when the cap is reached. */
  function StepEnd(c: Config, r: Run): (s: Step)
    ensures s.stop <==> r.state == Canceled || c.options.maxMatchingFiles == MatchingTotal(r.t)
    ensures s.run.state == (if s.stop && r.state != Canceled then MaxReached else r.state)
    ensures s.run.t == r.t && s.run.output == r.output && s.run.changed == r.changed
  {
    if r.state == Canceled then Step(r, true)
    else if c.options.maxMatchingFiles == MatchingTotal(r.t) then Step(r.(state := MaxReached), true)
    else Step(r, false)
  }

  /** ExecuteDirectory's loop: the results in order, up to and including the one that breaks. */
  function DirectoryWalk(c: Config, r: Run, results: seq<DeleteResult>): (r': Run)
    ensures r'.state == r.state || r'.state == MaxReached || r'.state == Canceled
    ensures |r.output| <= |r'.output| && r'.output[..|r.output|] == r.output
    ensures |r.changed| <= |r'.changed| && r'.changed[..|r.changed|] == r.changed
    decreases |results|
  {
    if results == [] then r
    else
      var s := DirectoryStep(c, r, results[0]);
      if s.stop then s.run else DirectoryWalk(c, s.run, results[1..])
  }

  function WithProgress(r: Run, p: Progress): Run
  {
    r.(t := r.t.(searchedDirectoryCount := p.searchedDirectoryCount,
                 directoryCount := p.directoryCount,
                 fileCount := p.fileCount))
  }

  /**
   * ExecuteFile for a file given directly; `matchesName` is whether the name
   * filter accepts it. The path names a file, so `res` is taken as a file result.
   */
  function FileStep(c: Config, r: Run, matchesName: bool, res: DeleteResult): (r': Run)
    ensures r'.t.fileCount == r.t.fileCount + 1
    ensures r'.t.processedDirectoryCount == r.t.processedDirectoryCount
    ensures r'.changed == r.changed
  {
    var r0 := r.(t := r.t.(fileCount := r.t.fileCount + 1));
    if !matchesName || !PassesContentFilter(c.options, res) then r0
    else FileMatched(c, r0, res.(isDirectory := false))
  }

  /** A directly given file that passed the filters: counted, processed, then the MaxMatchingFiles check. */
  function FileMatched(c: Config, r: Run, file: DeleteResult): (r': Run)
    ensures MatchingTotal(r'.t) == MatchingTotal(r.t) + 1
    ensures r'.state ==
      if c.options.maxMatchingFiles == MatchingTotal(r.t) + 1 then MaxReached
      else if !c.options.dryRun && c.options.ask && file.answer == Cancel then Canceled
      else r.state
    ensures r'.output == r.output
      + (if c.hasOutput && (c.options.dryRun || Succeeded(c.options, file)) then file.path + Text.NewLine else "")
    ensures r'.changed == r.changed
  {
    var r1 := ProcessStep(c, Counted(r, file), file);
    if c.options.maxMatchingFiles == MatchingTotal(r1.t) then r1.(state := MaxReached) else r1
  }

  // ---------------------------------------------------------------- properties of the walk

  /** Items the walk deleted never outnumber the items it counted as matching. */
  lemma {:induction false} ProcessedNeverExceedsMatching(c: Config, r: Run, results: seq<DeleteResult>)
    ensures var w := DirectoryWalk(c, r, results);
      w.t.processedFileCount - r.t.processedFileCount <= w.t.matchingFileCount - r.t.matchingFileCount
      && w.t.processedDirectoryCount - r.t.processedDirectoryCount <= w.t.matchingDirectoryCount - r.t.matchingDirectoryCount
      && r.t.processedFileCount <= w.t.processedFileCount
      && r.t.processedDirectoryCount <= w.t.processedDirectoryCount
    decreases |results|
  {
    if results != [] {
      var s := DirectoryStep(c, r, results[0]);
      if !s.stop {
        ProcessedNeverExceedsMatching(c, s.run, results[1..]);
      }
    }
  }

  /** A dry run deletes nothing and raises no DirectoryChanged event. */
  lemma {:induction false} DryRunDeletesNothing(c: Config, r: Run, results: seq<DeleteResult>)
    requires c.options.dryRun
    ensures var w := DirectoryWalk(c, r, results);
      w.t.processedFileCount == r.t.processedFileCount
      && w.t.processedDirectoryCount == r.t.processedDirectoryCount
      && w.changed == r.changed
    decreases |results|
  {
    if results != [] {
      var s := DirectoryStep(c, r, results[0]);
      if !s.stop {
        DryRunDeletesNothing(c, s.run, results[1..]);
      }
    }
  }

  /** Every DirectoryChanged event names a directory result whose deletion succeeded, in order. */
  function DeletedDirectories(c: Config, results: seq<DeleteResult>): seq<string>
  {
    if results == [] then []
    else
      var head := if Succeeded(c.options, results[0]) && results[0].isDirectory then [results[0].path] else [];
      head + DeletedDirectories(c, results[1..])
  }

  function Consumed(c: Config, r: Run, results: seq<DeleteResult>): (n: nat)
    ensures n <= |results|
    decreases |results|
  {
    if results == [] then 0
    else
      var s := DirectoryStep(c, r, results[0]);
      if s.stop then 1 else 1 + Consumed(c, s.run, results[1..])
  }

  /**
   * The loop takes results up to and including the first whose step breaks:
   * no step before it breaks, and when results are left over, that step did.
   */
  lemma {:induction false} ConsumedFirstStop(c: Config, r: Run, results: seq<DeleteResult>)
    ensures results != [] ==> 1 <= Consumed(c, r, results)
    ensures forall i :: 0 <= i < Consumed(c, r, results) - 1 ==>
      !DirectoryStep(c, DirectoryWalk(c, r, results[..i]), results[i]).stop
    ensures var n := Consumed(c, r, results);
      n < |results| ==> 1 <= n && DirectoryStep(c, DirectoryWalk(c, r, results[..n - 1]), results[n - 1]).stop
    decreases |results|
  {
    if results != [] {
      var s := DirectoryStep(c, r, results[0]);
      var rest := results[1..];
      assert DirectoryWalk(c, r, results[..0]) == r;
      if !s.stop {
        ConsumedFirstStop(c, s.run, rest);
        forall i | 1 <= i <= |results|
          ensures DirectoryWalk(c, r, results[..i]) == DirectoryWalk(c, s.run, rest[..i - 1])
        {
          WalkPrefixAfterStep(c, r, results, i);
        }
      }
    }
  }

  lemma WalkPrefixAfterStep(c: Config, r: Run, results: seq<DeleteResult>, i: nat)
    requires 1 <= i <= |results|
    requires !DirectoryStep(c, r, results[0]).stop
    ensures DirectoryWalk(c, r, results[..i]) == DirectoryWalk(c, DirectoryStep(c, r, results[0]).run, results[1..][..i - 1])
  {
    assert results[..i][0] == results[0];
    assert results[..i][1..] == results[1..][..i - 1];
  }

  lemma {:induction false} ChangedEventsAreDeletedDirectories(c: Config, r: Run, results: seq<DeleteResult>)
    ensures DirectoryWalk(c, r, results).changed == r.changed + DeletedDirectories(c, results[..Consumed(c, r, results)])
    decreases |results|
  {
    if results != [] {
      var s := DirectoryStep(c, r, results[0]);
      var n := Consumed(c, r, results);
      if s.stop {
        assert results[..n] == [results[0]];
        assert results[..n][1..] == [];
      } else {
        ChangedEventsAreDeletedDirectories(c, s.run, results[1..]);
        assert results[..n][1..] == results[1..][..n - 1];
      }
    }
  }

  /** MaxReached is only set when MaxMatchingFiles equals the matching files plus directories. */
  lemma {:induction false} DirectoryWalkMaxReached(c: Config, r: Run, results: seq<DeleteResult>)
    requires r.state != MaxReached
    ensures var w := DirectoryWalk(c, r, results);
      w.state == MaxReached ==> c.options.maxMatchingFiles == MatchingTotal(w.t)
    decreases |results|
  {
    if results != [] {
      var s := DirectoryStep(c, r, results[0]);
      if !s.stop {
        DirectoryWalkMaxReached(c, s.run, results[1..]);
      }
    }
  }

  /** Starting below the cap, the walk never counts more matching items than MaxMatchingFiles. */
  lemma {:induction false} DirectoryWalkWithinCap(c: Config, r: Run, results: seq<DeleteResult>)
    requires MatchingTotal(r.t) < c.options.maxMatchingFiles
    ensures MatchingTotal(DirectoryWalk(c, r, results).t) <= c.options.maxMatchingFiles
    decreases |results|
  {
    if results != [] {
      var s := DirectoryStep(c, r, results[0]);
      if !s.stop && MatchingTotal(s.run.t) < c.options.maxMatchingFiles {
        DirectoryWalkWithinCap(c, s.run, results[1..]);
      }
    }
  }

  /** A cap at or below the matching total already reached (0 from a fresh start) never stops the walk. */
  lemma {:induction false} DirectoryWalkCapNotReached(c: Config, r: Run, results: seq<DeleteResult>)
    requires r.state != MaxReached
    requires c.options.maxMatchingFiles <= MatchingTotal(r.t)
    ensures DirectoryWalk(c, r, results).state != MaxReached
    decreases |results|
  {
    if results != [] {
      var s := DirectoryStep(c, r, results[0]);
      if !s.stop {
        DirectoryWalkCapNotReached(c, s.run, results[1..]);
      }
    }
  }

  /** The walk ends before the last result only in MaxReached or Canceled. */
  lemma {:induction false} DirectoryWalkStops(c: Config, r: Run, results: seq<DeleteResult>)
    requires r.state == Running
    ensures var w := DirectoryWalk(c, r, results);
      Consumed(c, r, results) < |results| ==> w.state == MaxReached || w.state == Canceled
    ensures var w := DirectoryWalk(c, r, results);
      w.state == Running || w.state == MaxReached || w.state == Canceled
    decreases |results|
  {
    if results != [] {
      var s := DirectoryStep(c, r, results[0]);
      if !s.stop {
        DirectoryWalkStops(c, s.run, results[1..]);
      }
    }
  }

  // ---------------------------------------------------------------- the command

  class DeleteCommand {
    const options: DeleteOptions
    /** The DirectoryChanged events raised so far, by path. */
    var changed: seq<string>

    constructor (options: DeleteOptions)
      ensures this.options == options && changed == []
    {
      this.options := options;
      changed := [];
    }

    function Cfg(context: SearchContext): Config
      reads context
    {
      Config(options, context.output != null)
    }

    function Abs(context: SearchContext): Run
      reads this, context, context.telemetry, context.output
    {
      Run(context.telemetry.Snapshot(), context.state,
        if context.output != null then context.output.text else "", changed)
    }

    /** AskToDelete: the console's answer; cancelling sets the state to Canceled and counts as "no". */
    method AskToDelete(context: SearchContext, answer: Answer) returns (yes: bool)
      modifies context`state
      ensures yes <==> answer == Yes
      ensures context.state == if answer == Cancel then Canceled else old(context.state)
    {
      match answer
      case Yes => yes := true;
      case No => yes := false;
      case Cancel =>
        context.state := Canceled;
        yes := false;
    }

    method Process(context: SearchContext, res: DeleteResult) returns (success: bool)
      modifies context`state, context.telemetry`processedFileCount, context.telemetry`processedDirectoryCount, context.output
      ensures success == Succeeded(options, res)
      ensures Abs(context) == ProcessStep(Cfg(context), old(Abs(context)), res)
    {
      success := false;
      if !options.dryRun {
        var proceed := true;
        if options.ask {
          proceed := AskToDelete(context, res.answer);
        }
        if proceed && res.deleteSucceeds {
          if res.isDirectory {
            context.telemetry.processedDirectoryCount := context.telemetry.processedDirectoryCount + 1;
          } else {
            context.telemetry.processedFileCount := context.telemetry.processedFileCount + 1;
          }
          success := true;
        }
      }
      if options.dryRun || success {
        if context.output != null {
          context.output.WriteLine(res.path);
        }
      }
    }

    /** One iteration of ExecuteDirectory's loop. */
    method ExecuteResult(context: SearchContext, res: DeleteResult) returns (stop: bool)
      modifies this, context`state, context.telemetry, context.output
      ensures Abs(context) == DirectoryStep(Cfg(context), old(Abs(context)), res).run
      ensures stop == DirectoryStep(Cfg(context), old(Abs(context)), res).stop
    {
      var telemetry := context.telemetry;
      if res.isDirectory {
        telemetry.matchingDirectoryCount := telemetry.matchingDirectoryCount + 1;
      } else {
        if options.hasContentFilter && res.content != Accepted {
          return false;
        }
        telemetry.matchingFileCount := telemetry.matchingFileCount + 1;
      }
      assert Abs(context) == Counted(old(Abs(context)), res);
      var success := Process(context, res);
      if res.isDirectory && success {
        changed := changed + [res.path];
      }
      assert Abs(context) == Recorded(Cfg(context), ProcessStep(Cfg(context), Counted(old(Abs(context)), res), res), res);
      if context.state == Canceled {
        return true;
      }
      if options.maxMatchingFiles == telemetry.matchingFileCount + telemetry.matchingDirectoryCount {
        context.state := MaxReached;
        return true;
      }
      return false;
    }

    /** ExecuteDirectory: the finder results in order, then the progress reporter's counts. */
    method ExecuteDirectory(context: SearchContext, results: seq<DeleteResult>, progress: Progress)
      modifies this, context`state, context.telemetry, context.output
      ensures Abs(context) == WithProgress(DirectoryWalk(Cfg(context), old(Abs(context)), results), progress)
    {
      ghost var start := Abs(context);
      var i := 0;
      while i < |results|
        invariant 0 <= i <= |results|
        invariant DirectoryWalk(Cfg(context), Abs(context), results[i..]) == DirectoryWalk(Cfg(context), start, results)
      {
        assert results[i..][1..] == results[i + 1..];
        var stop := ExecuteResult(context, results[i]);
        if stop {
          break;
        }
        i := i + 1;
      }
      var telemetry := context.telemetry;
      telemetry.searchedDirectoryCount := progress.searchedDirectoryCount;
      telemetry.fileCount := progress.fileCount;
      telemetry.directoryCount := progress.directoryCount;
    }

    /** ExecuteFile: the file is counted first, whatever the filters then decide. */
    method ExecuteFile(context: SearchContext, matchesName: bool, res: DeleteResult)
      modifies context`state, context.telemetry, context.output
      ensures Abs(context) == FileStep(Cfg(context), old(Abs(context)), matchesName, res)
    {
      var telemetry := context.telemetry;
      telemetry.fileCount := telemetry.fileCount + 1;
      if !matchesName {
        return;
      }
      if options.hasContentFilter && res.content != Accepted {
        return;
      }
      ProcessFile(context, res.(isDirectory := false));
    }

    /** The rest of ExecuteFile once the file passed the filters. */
    method ProcessFile(context: SearchContext, file: DeleteResult)
      requires !file.isDirectory
      modifies context`state, context.telemetry, context.output
      ensures Abs(context) == FileMatched(Cfg(context), old(Abs(context)), file)
    {
      var telemetry := context.telemetry;
      telemetry.matchingFileCount := telemetry.matchingFileCount + 1;
      var _ := Process(context, file);
      if options.maxMatchingFiles == telemetry.matchingFileCount + telemetry.matchingDirectoryCount {
        context.state := MaxReached;
      }
    }
  }
}
