# Orang command-line core, modelled in Dafny

This project models the bookkeeping at the heart of Orang, a command-line tool
that searches, replaces and deletes in files and directories using .NET regular
expressions. The model covers:

- **Replacement writer** (`Replacement`): the line replacement writer's copy
  offset. Each match copies the unmatched gap and then the evaluator's
  replacement; the tail is copied at the end. Its output is the regex Replace
  output.
- **Search context** (`Search`): the search context and its telemetry
  counters.
- **Find command, content search** (`FindContent`): per-file and
  per-directory counting, the MaxReached and Canceled termination states, the
  interactive ask mode and the -1 sentinel of the matching-line count.
- **Delete command** (`Delete`): which results count as matching, when a
  deletion is attempted and counted, what reaches the output, when the
  DirectoryChanged event is raised, and when the walk stops.
- **Extension helpers** (`Extensions`):
  - decimal digit counting;
  - splitting regex option flags into an ordered list;
  - the base-path prefix of a displayed path;
  - the cancellation hidden in a nested aggregate exception.
- **Find options** (`FindOptions`): the options shared by the find-like
  commands. Attribute flags are translated to the runtime's file attribute
  bits. The search target is chosen from the attributes. TryParse applies the
  Empty flag rule and assigns the fields.
- **Syntax listing** (`ListSyntax`): the `%` markup scanner, column padding,
  filtering and section ordering of the syntax table, and the listing of one
  character with its escape spellings.
- **Help writer** (`Help`): the column layout of a command's usage, argument
  table, option table, command list and option values.

The state-changing code is modelled with classes and methods. Each method is
proved against a pure function of the old state (a step function, or a walk
over the finder results). The properties of the source are lemmas about those
functions.

The environment is turned into inputs. A finder result carries:

- whether the file could be read;
- what the content filter said;
- what the match writer reported;
- the answer the user gives at a prompt;
- whether a deletion succeeds.

The regex engine is an `Engine` value: an escape mode and an `isMatch` oracle.
Verbosity gating is a set of booleans. The console and the output file are
`TextSink` objects that accumulate text.

## Model

| member | source | states |
|---|---|---|
| Replacement.ReplaceFromLength | src/CommandLine/MatchWriter/LineReplacementWriter.cs:79-92 | The spliced text's length is the input's length from the offset, less the matched lengths, plus the replacement lengths. |
| Replacement.ReplaceLength | src/CommandLine/MatchWriter/LineReplacementWriter.cs:79-92 | Total output length = length of the input − Σ match lengths + Σ replacement lengths. |
| Replacement.ReplaceFromWithEcho | src/CommandLine/MatchWriter/LineReplacementWriter.cs:79-92 | Ordered matches leave neither gaps nor overlaps: replacing each match by its own text rebuilds the input from the offset. |
| Replacement.ReplaceWithEchoIsIdentity | src/CommandLine/MatchWriter/LineReplacementWriter.cs:79-92 | Replacing every match of an ordered sequence by its own text gives back the input. |
| Replacement.ReplaceFromSnoc | src/CommandLine/MatchWriter/LineReplacementWriter.cs:79-84 | One more in-range match after the last keeps the sequence ordered and appends exactly its gap and its replacement. |
| Replacement.LastEndAtLeastFrom | src/CommandLine/MatchWriter/LineReplacementWriter.cs:84 | The copy offset after ordered matches never falls below where it started and never passes the end of the input. |
| Replacement.ReplaceFromSplit | src/CommandLine/MatchWriter/LineReplacementWriter.cs:89-92 | The whole output is the replaced prefix followed by the input's tail after the last match. |
| Replacement.OrderedSplit | src/CommandLine/MatchWriter/LineReplacementWriter.cs:79-84 | Both halves of an ordered match sequence are ordered, the second one from where the first ends. |
| Replacement.EachMatchReady | src/CommandLine/MatchWriter/LineReplacementWriter.cs:81 | The next match starts at or after the copy offset and ends inside the input, so the gap slice is in range. |
| Replacement.EachMatchStep | src/CommandLine/MatchWriter/LineReplacementWriter.cs:79-84 | Replacing one more match appends its gap and replacement to the prefix and moves the offset to the match's end. |
| Replacement.LineReplacementWriter.constructor | src/CommandLine/MatchWriter/LineReplacementWriter.cs:16-24 | The input, evaluator, highlight flag and optional sink are kept as given. Nothing has been evaluated or echoed yet. |
| Replacement.LineReplacementWriter.WriteStartMatches | src/CommandLine/MatchWriter/LineReplacementWriter.cs:50-55 | Starting a run of matches resets the copy offset to 0. |
| Replacement.LineReplacementWriter.WriteNonEmptyMatchValue | src/CommandLine/MatchWriter/LineReplacementWriter.cs:57-61 | The match's original text is echoed exactly when matches are highlighted. |
| Replacement.LineReplacementWriter.WriteEndReplacement | src/CommandLine/MatchWriter/LineReplacementWriter.cs:79-87 | The sink gets the input from the offset to the match, then the result. The offset moves to the match's end, with or without a sink. The slice needs offset ≤ index and end ≤ length only when there is a sink. |
| Replacement.LineReplacementWriter.WriteEndMatch | src/CommandLine/MatchWriter/LineReplacementWriter.cs:68-77 | The evaluator is called once for the match, and its result is the text written after the gap. |
| Replacement.LineReplacementWriter.WriteEndMatches | src/CommandLine/MatchWriter/LineReplacementWriter.cs:89-94 | The tail of the input from the copy offset is appended to the sink. |
| Replacement.LineReplacementWriter.Dispose | src/CommandLine/MatchWriter/LineReplacementWriter.cs:96-99 | The sink is disposed and receives no text. |
| Replacement.LineReplacementWriter.WriteMatches | src/CommandLine/MatchWriter/LineReplacementWriter.cs:50-94 | For ordered matches a whole pass writes exactly the regex Replace output. The evaluator is called once per match, in order. The offset ends at the last match's end, within the input. |
| Replacement.LineReplacementWriter.WriteEachMatch | src/CommandLine/MatchWriter/LineReplacementWriter.cs:68-87 | The per-match loop writes the gaps and replacements interleaved in order. |
| Search.SearchTelemetry.constructor | src/CommandLine/SearchContext.cs:15 | A fresh telemetry object has every counter at zero. |
| Search.SearchContext.constructor | src/CommandLine/SearchContext.cs:10-26 | The telemetry is the one supplied, or a fresh zeroed one when none is. Output and the cancellation token are kept as given. The state starts at its default, Running. |
| FindContent.GroupedDecimal | src/CommandLine/Commands/FindContentCommand.cs:201 | The "n0" count is non-empty and made only of decimal digits and group separators. |
| FindContent.GroupedDecimalValue | src/CommandLine/Commands/FindContentCommand.cs:201 | With the ',' separators removed, the digits read back as the count. |
| FindContent.GroupedDecimalFirstGroup | src/CommandLine/Commands/FindContentCommand.cs:201 | The count starts with a group of one to three digits, followed by the end or a ','. |
| FindContent.GroupedDecimalCommas | src/CommandLine/Commands/FindContentCommand.cs:201 | Every ',' is followed by exactly three digits, then the end or another ','. |
| FindContent.GroupedDecimalLead | src/CommandLine/Commands/FindContentCommand.cs:201 | There is no leading zero group: the text starts with '0' only when the count is zero. |
| FindContent.WriteMatchesStep | src/CommandLine/Commands/FindContentCommand.cs:129-233 | MatchingFileCount rises by 1 and MatchCount by the writer's count. MatchingLineCount moves only on a non-negative report, and is then at least that report. The state becomes Canceled when the writer cancelled and is otherwise unchanged. The ask mode stays or drops to None. The context output is untouched, and the console text only grows. |
| FindContent.AfterMatchStep | src/CommandLine/Commands/FindContentCommand.cs:102-120 | The loop breaks exactly when MaxMatchingFiles equals MatchingFileCount, when the state is already MaxReached, or when the "Continue without asking?" question is cancelled in File ask mode. Reaching the cap sets MaxReached. A break leaves MaxReached or Canceled; otherwise the state is unchanged. A "yes" in File ask mode turns asking off. Counters and outputs are untouched. |
| FindContent.MatchedStep | src/CommandLine/Commands/FindContentCommand.cs:88-120 | A matching file adds 1 to MatchingFileCount. MatchCount rises by the writer's count unless the content filter is negative. The context output is untouched, and the ask mode stays or drops to None. A writer that cancelled (positive filter) breaks the loop in Canceled. Otherwise, from a state other than Canceled, reaching the cap breaks it in MaxReached. |
| FindContent.DirectoryWalk | src/CommandLine/Commands/FindContentCommand.cs:70-122 | After the loop the state is unchanged, MaxReached or Canceled. The output only grows, and MatchingFileCount never falls. |
| FindContent.CountLineMarksTruncation | src/CommandLine/Commands/FindContentCommand.cs:201-203 | The count line contains "+" exactly when the writer stopped because the count exceeded its maximum. |
| FindContent.AskModeAfter | src/CommandLine/Commands/FindContentCommand.cs:176-188 | After an ask writer the ask mode either stays or drops to None. |
| FindContent.DirectoryStep | src/CommandLine/Commands/FindContentCommand.cs:70-121 | One result can only stop the loop in MaxReached or Canceled, and a continuing step leaves the state alone. MaxReached is entered only when the cap equals MatchingFileCount. Ask mode stays or drops to None. An accepted file adds 1 to MatchingFileCount; MatchCount grows by its writer's count (nothing with a negative filter). FileCount is untouched. |
| FindContent.ConsumedFirstStop | src/CommandLine/Commands/FindContentCommand.cs:70-122 | The loop takes at least one result when there is one, none of the steps before the last one taken breaks, and when results are left over the last one taken broke the loop. |
| FindContent.DirectoryWalkCounts | src/CommandLine/Commands/FindContentCommand.cs:88-96 | Over the consumed results, MatchingFileCount rises by one per accepted file and MatchCount by the writers' counts. With a negative content filter MatchCount does not move. |
| FindContent.DirectoryWalkStops | src/CommandLine/Commands/FindContentCommand.cs:98-119 | The walk ends before the last result only in MaxReached or Canceled. From Running it ends in Running, MaxReached or Canceled. |
| FindContent.DirectoryWalkMaxReached | src/CommandLine/Commands/FindContentCommand.cs:102-106 | MaxReached after a walk means MaxMatchingFiles equals MatchingFileCount. |
| FindContent.DirectoryWalkWithinCap | src/CommandLine/Commands/FindContentCommand.cs:102-106 | Starting below the cap, MatchingFileCount never passes MaxMatchingFiles. |
| FindContent.DirectoryWalkCapNotReached | src/CommandLine/Commands/FindContentCommand.cs:102-103 | A cap at or below the count already reached, such as 0 ("no limit") from a fresh start, never produces MaxReached. |
| FindContent.DirectoryWalkAskMode | src/CommandLine/Commands/FindContentCommand.cs:108-119 | Across a directory the ask mode only stays as it is or drops to None. |
| FindContent.AddAllFromCount | src/CommandLine/Commands/FindContentCommand.cs:168-174 | From a non-negative total, the writers' reports add exactly their non-negative counts. |
| FindContent.MatchingLineSentinel | src/CommandLine/Commands/FindContentCommand.cs:168-174 | Starting from the -1 set in ExecuteCore, MatchingLineCount stays -1 while every report is negative (no line count). Once some writer reports a non-negative count, it is the sum of the non-negative counts. |
| FindContent.DirectoryWalkLines | src/CommandLine/Commands/FindContentCommand.cs:168-174 | After the loop, MatchingLineCount is the starting value with each consumed non-negative line report added in turn. A -1 turns into 0 before the first addition. |
| FindContent.DirectoryWalkLineSentinel | src/CommandLine/Commands/FindContentCommand.cs:168-174 | From the -1 set in ExecuteCore, MatchingLineCount stays -1 exactly when every consumed report is negative. Otherwise it is the sum of the non-negative reports. |
| FindContent.TargetWalkAskMode | src/CommandLine/Commands/FindContentCommand.cs:36 | Across all the command-line paths walked by the base ExecuteCore the ask mode only stays or drops to None. |
| FindContent.TargetStep | src/CommandLine/Commands/FindContentCommand.cs:36 | One command-line path: the loop over the paths breaks exactly in MaxReached, in Canceled, or when cancellation was requested. The state is unchanged, MaxReached or Canceled, and the output only grows. |
| FindContent.TargetWalk | src/CommandLine/Commands/FindContentCommand.cs:36 | Across all the command-line paths, the state ends unchanged, MaxReached or Canceled, and the output only grows. |
| FindContent.AskModeNeedsMinimalVerbosity | src/CommandLine/Commands/FindContentCommand.cs:25-36 | Asking is still on after a run only when the console verbosity is at least Minimal, and then it is the mode the options asked for. |
| FindContent.FindContentCommand.constructor | src/CommandLine/Commands/FindContentCommand.cs:13-19 | The command starts with ask mode None and no result storage. |
| FindContent.FindContentCommand.AddMatchingLineCount | src/CommandLine/Commands/FindContentCommand.cs:168-174 | A non-negative report turns the -1 sentinel into 0 and then adds the count. A negative report changes nothing. |
| FindContent.FindContentCommand.WriteMatches | src/CommandLine/Commands/FindContentCommand.cs:129-233 | One file's matches: MatchingFileCount + 1 and MatchCount + the file's count. The writer's line count is added. The cancel state and ask mode follow the writer. The leading line and count line are written. |
| FindContent.FindContentCommand.RunWriter | src/CommandLine/Commands/FindContentCommand.cs:142-232 | Both writers return the file's count and the writer's reason. Only the real writer (storage, Value asking or Normal logging) writes the leading line and may drop Value asking. |
| FindContent.FindContentCommand.WriteCount | src/CommandLine/Commands/FindContentCommand.cs:196-204 | The count line is written only at Minimal console verbosity, without Value asking and with paths shown. |
| FindContent.FindContentCommand.AfterMatch | src/CommandLine/Commands/FindContentCommand.cs:102-120 | After a matching file: the MaxMatchingFiles check, then the "Continue without asking?" answer. Yes drops File asking; Cancel sets Canceled and stops. |
| FindContent.FindContentCommand.ExecuteResult | src/CommandLine/Commands/FindContentCommand.cs:72-121 | One loop iteration has exactly the effect and break decision of the step function. |
| FindContent.FindContentCommand.ExecuteMatched | src/CommandLine/Commands/FindContentCommand.cs:88-120 | A matching file is counted without writing under a negative filter, otherwise its matches are written. Canceled breaks at once. |
| FindContent.FindContentCommand.WriteOutputLine | src/CommandLine/Commands/FindContentCommand.cs:86 | The path goes to the output only when there is one and paths are included. |
| FindContent.FindContentCommand.CountNegativeMatch | src/CommandLine/Commands/FindContentCommand.cs:88-93 | Under a negative content filter a matching file adds 1 to MatchingFileCount and writes no matches. |
| FindContent.FindContentCommand.ExecuteDirectory | src/CommandLine/Commands/FindContentCommand.cs:64-127 | The loop is the walk over the finder results up to the first break. Then the searched-directory, directory and file counts are overwritten with the progress reporter's values. |
| FindContent.FindContentCommand.ExecuteFile | src/CommandLine/Commands/FindContentCommand.cs:39-62 | FileCount rises for every path given directly. An accepted file's matches are written, then the MaxMatchingFiles check and the output line follow. |
| FindContent.FindContentCommand.FinishFileMatch | src/CommandLine/Commands/FindContentCommand.cs:56-59 | MaxReached is set when the cap equals MatchingFileCount, then the path goes to the output. |
| FindContent.FindContentCommand.ExecuteTarget | src/CommandLine/Commands/FindContentCommand.cs:39-127 | For one command-line path, in the base class's dispatch: a directory goes through ExecuteDirectory, a file through ExecuteFile, a missing path changes nothing. Then stop on MaxReached, Canceled or a cancellation request. |
| FindContent.FindContentCommand.ExecuteCore | src/CommandLine/Commands/FindContentCommand.cs:23-37 | MatchingLineCount is set to -1. The ask mode is taken from the options at Minimal verbosity or above. Storage exists exactly when there is an output path and content is included. Then every path is walked. |
| FindContent.FindContentCommand.ExecuteTargets | src/CommandLine/Commands/FindContentCommand.cs:36 | The base ExecuteCore's loop: the paths are processed in order, stopping after the first one that ends in MaxReached, Canceled or a cancellation request. |
| Delete.ProcessStep | src/CommandLine/Commands/DeleteCommand.cs:121-157 | A processed count rises (directory or file) only when not a dry run, any question was answered yes, and the delete succeeded. The path is written iff dry run or success. A cancelled question sets Canceled. Matching counts and events are untouched. |
| Delete.DirectoryStep | src/CommandLine/Commands/DeleteCommand.cs:90-172 | A directory adds 1 to MatchingDirectoryCount with no content check. A file adds 1 to MatchingFileCount only when it passes the content filter. An event is raised only for a deleted directory. The loop stops only in MaxReached or Canceled. A cancelled question stops the loop with nothing deleted. A counted item that brings the matching total to MaxMatchingFiles stops the loop in MaxReached, unless the state is or becomes Canceled. |
| Delete.StepEnd | src/CommandLine/Commands/DeleteCommand.cs:165-172 | The loop breaks exactly when the state is Canceled or MaxMatchingFiles equals matching files plus matching directories. A break at the cap sets MaxReached. Counters, output and events are untouched. |
| Delete.DirectoryWalk | src/CommandLine/Commands/DeleteCommand.cs:90-173 | After the loop the state is unchanged, MaxReached or Canceled. The output and the DirectoryChanged events only grow. |
| Delete.FileStep | src/CommandLine/Commands/DeleteCommand.cs:20-82 | A directly given path adds 1 to FileCount even when rejected. It never counts a processed directory and never raises an event. |
| Delete.FileMatched | src/CommandLine/Commands/DeleteCommand.cs:45-81 | A file that passed the filters adds 1 to the matching total. The state becomes MaxReached at the cap, even after a cancelled question. Otherwise it is Canceled after a cancelled question, and unchanged otherwise. The path goes to the output on a dry run or a successful deletion. No event is raised. |
| Delete.ConsumedFirstStop | src/CommandLine/Commands/DeleteCommand.cs:90-173 | The loop takes at least one result when there is one, none of the steps before the last one taken breaks, and when results are left over the last one taken broke the loop. |
| Delete.ProcessedNeverExceedsMatching | src/CommandLine/Commands/DeleteCommand.cs:96-144 | Over a walk, deleted files never outnumber matching files, and deleted directories never outnumber matching directories. |
| Delete.DryRunDeletesNothing | src/CommandLine/Commands/DeleteCommand.cs:123-163 | A dry run deletes nothing and raises no DirectoryChanged event. |
| Delete.ChangedEventsAreDeletedDirectories | src/CommandLine/Commands/DeleteCommand.cs:159-163 | The events raised are exactly the successfully deleted directory results among those consumed, in order. |
| Delete.DirectoryWalkMaxReached | src/CommandLine/Commands/DeleteCommand.cs:168-172 | MaxReached after a walk means MaxMatchingFiles equals matching files plus matching directories. |
| Delete.DirectoryWalkWithinCap | src/CommandLine/Commands/DeleteCommand.cs:168-172 | Starting below the cap, the loop never counts more matching items than MaxMatchingFiles. |
| Delete.DirectoryWalkCapNotReached | src/CommandLine/Commands/DeleteCommand.cs:168-172 | A cap at or below the matching total already reached (0 from a fresh start) never produces MaxReached. |
| Delete.DirectoryWalkStops | src/CommandLine/Commands/DeleteCommand.cs:165-172 | From Running, the walk ends before the last result only in MaxReached or Canceled, and ends in one of Running, MaxReached or Canceled. |
| Delete.DeleteCommand.constructor | src/CommandLine/Commands/DeleteCommand.cs:14-18 | The options are kept and no DirectoryChanged event has been raised. |
| Delete.DeleteCommand.AskToDelete | src/CommandLine/Commands/DeleteCommand.cs:180-193 | Returns true exactly for "yes". A cancelled question sets Canceled and returns false. |
| Delete.DeleteCommand.Process | src/CommandLine/Commands/DeleteCommand.cs:121-157 | Success exactly when not a dry run, asked-and-yes or not asked, and the delete succeeds. The counters and output change as the step function says. |
| Delete.DeleteCommand.ExecuteResult | src/CommandLine/Commands/DeleteCommand.cs:92-172 | One loop iteration has exactly the effect and break decision of the step function. |
| Delete.DeleteCommand.ExecuteDirectory | src/CommandLine/Commands/DeleteCommand.cs:84-178 | The loop is the walk over the finder results up to the first break. Then the searched-directory, file and directory counts are overwritten with the progress reporter's values. |
| Delete.DeleteCommand.ExecuteFile | src/CommandLine/Commands/DeleteCommand.cs:20-82 | FileCount rises first. A name or content rejection then changes nothing more. |
| Delete.DeleteCommand.ProcessFile | src/CommandLine/Commands/DeleteCommand.cs:45-81 | A file that passed the filters is counted and processed. MaxReached is set when the cap equals matching files plus matching directories. |
| Extensions.GetDigitCount | src/CommandLine/Extensions.cs:91-124 | The digit count is always between 1 and 10. |
| Extensions.DigitCountIsDecimalLength | src/CommandLine/Extensions.cs:91-124 | For every value but int.MinValue, the count is the number of decimal digits of the magnitude. int.MinValue stays negative after negation and counts as 1. |
| Extensions.DecimalLengthStep | src/CommandLine/Extensions.cs:96-123 | A number has at most k decimal digits exactly when it is below 10^k. |
| Extensions.DigitCountSymmetric | src/CommandLine/Extensions.cs:93-94 | Negating any value but int.MinValue keeps its digit count. |
| Extensions.SetFlags | src/CommandLine/Extensions.cs:60-88 | The result holds exactly the candidate flags that are set, as a subsequence of the candidates in their order. |
| Extensions.GetFlags | src/CommandLine/Extensions.cs:56-89 | GetFlags yields exactly the set flags among the nine listed, in the listed order. |
| Extensions.GetFlagsIgnoresOtherBits | src/CommandLine/Extensions.cs:56-89 | Bits outside the nine listed flags do not change the result. |
| Extensions.StartIndex | src/CommandLine/Extensions.cs:26-42 | The start index is 0, or the base path's length (plus 1 when a separator follows) when the base path is a proper case-insensitive prefix. |
| Extensions.DisplayedPathFull | src/CommandLine/Extensions.cs:44-47 | Without relativePath, the base segment and the rest together give back the path. |
| Extensions.DisplayedPathRelative | src/CommandLine/Extensions.cs:34-47 | With relativePath and a proper prefix, only the remainder after the base and its separator is shown. |
| Extensions.DisplayedPathUnrelated | src/CommandLine/Extensions.cs:34-47 | A base path that is not a prefix leaves the whole path displayed. |
| Extensions.WritePath | src/CommandLine/Extensions.cs:13-48 | Nothing is written when the writer should not write. Otherwise the indent comes first, then "." or the path for the base path itself, else the base segment (unless relative) and the rest. |
| Extensions.WriteRest | src/CommandLine/Extensions.cs:44-47 | The base segment (unless relative) and then the remainder are appended. |
| Extensions.LeadingCanceled | src/CommandLine/Extensions.cs:130-136 | The leading run of cancellations: all of them are cancellations and the next one is not. |
| Extensions.CancellationOf | src/CommandLine/Extensions.cs:126-161 | Whatever the lookup answers is a cancellation exception. |
| Extensions.CancellationNeedsNestedAggregate | src/CommandLine/Extensions.cs:130-160 | An aggregate with no nested aggregate never yields a cancellation: the loop runs to its end and returns null. |
| Extensions.GetOperationCanceledException | src/CommandLine/Extensions.cs:126-161 | The scan returns null on a top-level non-cancellation, on a nested non-cancellation, or when it never reaches a nested aggregate. Otherwise it returns the first cancellation met in order. |
| FindOptions.GetFileAttributes | src/CommandLine/CommandLineOptions/CommonFindCommandLineOptions.cs:144-194 | Or-ing in the bits one attribute at a time gives the fold of the fifteen translated attributes' bits. |
| FindOptions.Include | src/CommandLine/CommandLineOptions/CommonFindCommandLineOptions.cs:148-149 | One conditional or-assignment adds the attribute's bit exactly when the attribute is present. |
| FindOptions.FileAttributesBit | src/CommandLine/CommandLineOptions/CommonFindCommandLineOptions.cs:144-194 | Each of the fifteen target bits is set exactly when its attribute is present. |
| FindOptions.BitsHas | src/CommandLine/CommandLineOptions/CommonFindCommandLineOptions.cs:144-194 | Among the first k attributes, a's bit is set exactly when a is among them and present, given that the bits are disjoint. |
| FindOptions.TargetBitSeparate | src/CommandLine/CommandLineOptions/CommonFindCommandLineOptions.cs:148-191 | Every translated attribute has a non-zero bit that no other translated attribute shares. |
| FindOptions.FileAttributesUnion | src/CommandLine/CommandLineOptions/CommonFindCommandLineOptions.cs:144-194 | Translation is a bitwise-or homomorphism: the bits of a union are the or of the bits. |
| FindOptions.BitsUnion | src/CommandLine/CommandLineOptions/CommonFindCommandLineOptions.cs:144-194 | Any prefix of the translation distributes over union. |
| FindOptions.FileAttributesIgnoreKinds | src/CommandLine/CommandLineOptions/CommonFindCommandLineOptions.cs:144-194 | File, Directory and Empty have no runtime counterpart and do not change the bits. |
| FindOptions.BitsIgnore | src/CommandLine/CommandLineOptions/CommonFindCommandLineOptions.cs:144-194 | Attributes that the order does not list do not change the bits. |
| FindOptions.SearchTargetOf | src/CommandLine/CommandLineOptions/CommonFindCommandLineOptions.cs:196-209 | All iff File and Directory; Directories iff Directory without File; Files iff no Directory. |
| FindOptions.EmptyRuleOf | src/CommandLine/CommandLineOptions/CommonFindCommandLineOptions.cs:106-119 | The outcome depends on where Empty appears. In both sets it is a conflict. Only required sets true. Only skipped sets false. In neither, the option is kept. |
| FindOptions.CommonFindCommandOptions.constructor | src/CommandLine/CommandLineOptions/CommonFindCommandLineOptions.cs:121-128 | The fields TryParse assigns start empty, zero or unset. |
| FindOptions.CommonFindCommandLineOptions.constructor | src/CommandLine/CommandLineOptions/CommonFindCommandLineOptions.cs:17-61 | The raw option values are kept, and no attributes have been recorded. |
| FindOptions.CommonFindCommandLineOptions.TryParsePaths | src/CommandLine/CommandLineOptions/CommonFindCommandLineOptions.cs:135-142 | With no path given, the result is exactly the current directory. Otherwise it is the full paths, or failure. |
| FindOptions.CommonFindCommandLineOptions.TryParse | src/CommandLine/CommandLineOptions/CommonFindCommandLineOptions.cs:63-133 | TryParse succeeds exactly when every parser succeeds and Empty is not both required and skipped; on failure nothing is assigned. On success: the paths and filters; both attribute masks translated; RecurseSubdirectories = !NoRecurse; Progress; the encoding; Empty by the rule; the parsed attributes recorded. |
| FindOptions.CommonFindCommandLineOptions.Assign | src/CommandLine/CommandLineOptions/CommonFindCommandLineOptions.cs:121-130 | Every field gets its parsed or translated value. |
| FindOptions.CommonFindCommandLineOptions.AssignAttributes | src/CommandLine/CommandLineOptions/CommonFindCommandLineOptions.cs:124-125 | Both masks are the translations of the parsed attribute flags. |
| FindOptions.CommonFindCommandLineOptions.ApplyEmptyRule | src/CommandLine/CommandLineOptions/CommonFindCommandLineOptions.cs:106-119 | A conflict is refused. Otherwise Empty becomes true, false or stays as it was, as the rule says. |
| FindOptions.CommonFindCommandLineOptions.GetSearchTarget | src/CommandLine/CommandLineOptions/CommonFindCommandLineOptions.cs:196-209 | The target of the attributes recorded by the last successful TryParse. |
| ListSyntax.TilesSnoc | src/CommandLine/Commands/ListSyntaxCommand.cs:87-104 | A write of a `%`-free run starting right after the covered text extends the cover. |
| ListSyntax.WithoutPlain | src/CommandLine/Commands/ListSyntaxCommand.cs:87-104 | A `%`-free run adds itself to the shown text and adds no `%`. |
| ListSyntax.TilesOutput | src/CommandLine/Commands/ListSyntaxCommand.cs:79-104 | Writes that cover the text write it with every `%` removed, in one call more than there are `%`. |
| ListSyntax.TilesPrefix | src/CommandLine/Commands/ListSyntaxCommand.cs:87-104 | Without its last call, a cover covers the text before the `%` that precedes that call. |
| ListSyntax.PercentsCount | src/CommandLine/Commands/ListSyntaxCommand.cs:85 | Counting `%` character by character agrees with the count over the prefix. |
| ListSyntax.ScanPair | src/CommandLine/Commands/ListSyntaxCommand.cs:85-100 | An opening `%` adds a syntax call and a plain call, keeping the calls alternating. A closed pair resumes after the closing `%`; an unclosed one has used up every `%`. |
| ListSyntax.ScanFinish | src/CommandLine/Commands/ListSyntaxCommand.cs:104 | With an even number of `%` the last call covers the rest. With an odd number it starts one past the end with count -1. |
| ListSyntax.Scan | src/CommandLine/Commands/ListSyntaxCommand.cs:79-104 | With an even number of `%` the calls alternate (syntax colour first) and cover the whole text. With an odd number the last call has count -1 and throws. |
| ListSyntax.ClosingIndex | src/CommandLine/Commands/ListSyntaxCommand.cs:89-95 | The inner scan stops at the next `%` or at the end, having passed none. |
| ListSyntax.AllSectionsInOrder | src/CommandLine/Commands/ListSyntaxCommand.cs:63 | The sections listed in enum order, each once, ranked by enum value. |
| ListSyntax.Filtered | src/CommandLine/Commands/ListSyntaxCommand.cs:41-45 | The filter keeps exactly the items whose text or description contains it, ignoring case. An empty filter keeps every item. |
| ListSyntax.OccurrencesIn | src/CommandLine/Commands/ListSyntaxCommand.cs:49 | A section occurs in the list iff its count is positive, and at most once in a list without repeats. |
| ListSyntax.JoinedKeeps | src/CommandLine/Commands/ListSyntaxCommand.cs:47-50 | The join keeps exactly the items whose section is listed. With distinct sections, each is kept once, in order. |
| ListSyntax.SelectedKeeps | src/CommandLine/Commands/ListSyntaxCommand.cs:41-54 | An item is selected iff it passes the filter and its section is given. With no sections given, the item must instead be outside GeneralCategories and NamedBlocks. |
| ListSyntax.Selected | src/CommandLine/Commands/ListSyntaxCommand.cs:41-54 | Every selected item is in the table and passes the filter. With no sections given, none is in GeneralCategories or NamedBlocks. |
| ListSyntax.Arranged | src/CommandLine/Commands/ListSyntaxCommand.cs:56-64 | The arranged list holds exactly the items whose section is one of the ordering keys. |
| ListSyntax.ListedKeeps | src/CommandLine/Commands/ListSyntaxCommand.cs:47-54 | The items of the listed sections are exactly those kept. |
| ListSyntax.FirstOccurrences | src/CommandLine/Commands/ListSyntaxCommand.cs:59 | The given sections in order of first occurrence, without repeats, none lost. |
| ListSyntax.InSection | src/CommandLine/Commands/ListSyntaxCommand.cs:59-63 | A group is never longer than the list. |
| ListSyntax.GroupedIn | src/CommandLine/Commands/ListSyntaxCommand.cs:59-63 | The grouped items are exactly the items whose section is a key. |
| ListSyntax.InSectionIn | src/CommandLine/Commands/ListSyntaxCommand.cs:59-63 | A group holds exactly the items of its section. |
| ListSyntax.GroupedCount | src/CommandLine/Commands/ListSyntaxCommand.cs:59-63 | With distinct keys, every item keeps its multiplicity when its section is a key. |
| ListSyntax.GroupedPermutation | src/CommandLine/Commands/ListSyntaxCommand.cs:59-63 | With distinct keys covering every section present, grouping is a permutation. |
| ListSyntax.GroupedSorted | src/CommandLine/Commands/ListSyntaxCommand.cs:59-63 | The groups come in the order of their keys. |
| ListSyntax.GroupedStable | src/CommandLine/Commands/ListSyntaxCommand.cs:59-63 | Each group keeps the order its items had. |
| ListSyntax.OrderKeys | src/CommandLine/Commands/ListSyntaxCommand.cs:57-64 | The keys the groups are ordered by are distinct. |
| ListSyntax.GroupedOrder | src/CommandLine/Commands/ListSyntaxCommand.cs:59-63 | Grouping is a stable sort by the rank of the section. |
| ListSyntax.ArrangedOrder | src/CommandLine/Commands/ListSyntaxCommand.cs:41-64 | Every selected item appears as often as selected. Items are sorted by the rank of their section (position among the given sections, else enum value). Each section's items keep their table order. |
| ListSyntax.RankIsOrdinal | src/CommandLine/Commands/ListSyntaxCommand.cs:63 | Without sections, the rank is the section's enum value. |
| ListSyntax.Width | src/CommandLine/Commands/ListSyntaxCommand.cs:68 | The width is the longest text shown without its `%`, attained by some item. |
| ListSyntax.SectionKeys | src/CommandLine/Commands/ListSyntaxCommand.cs:70 | The listing's groups: distinct sections covering every listed item. |
| ListSyntax.ItemAligned | src/CommandLine/Commands/ListSyntaxCommand.cs:105-107 | The padding is never negative, and every description starts two past the width. |
| ListSyntax.WriteMarkup | src/CommandLine/Commands/ListSyntaxCommand.cs:79-104 | An item's text is written without throwing exactly when its `%` count is even, and then it is written with every `%` removed. |
| ListSyntax.MarkupWritten | src/CommandLine/Commands/ListSyntaxCommand.cs:87-104 | All the scanner's calls are in range exactly when the `%` count is even. |
| ListSyntax.WriteSegments | src/CommandLine/Commands/ListSyntaxCommand.cs:87-104 | The calls are performed in order up to the first out of range. All succeed exactly when all are in range. |
| ListSyntax.ListSyntax | src/CommandLine/Commands/ListSyntaxCommand.cs:33-118 | NoMatch with "No syntax found" exactly when nothing is selected. It throws exactly when a listed item has an odd `%` count. Otherwise the groups in order with aligned descriptions. |
| ListSyntax.WriteListing | src/CommandLine/Commands/ListSyntaxCommand.cs:66-117 | For the ordered items: NoMatch iff empty, a throw iff some markup is odd, else the listing. |
| ListSyntax.WriteGroups | src/CommandLine/Commands/ListSyntaxCommand.cs:70-109 | A block per section in turn, succeeding iff every section's markup is even. |
| ListSyntax.WriteItem | src/CommandLine/Commands/ListSyntaxCommand.cs:77-107 | One item's line: the text without `%`, padding, a space and the description. It succeeds iff the markup is even. |
| ListSyntax.WriteGroup | src/CommandLine/Commands/ListSyntaxCommand.cs:72-108 | An empty line, the section heading and a line per item of the section. |
| ListSyntax.WriteItems | src/CommandLine/Commands/ListSyntaxCommand.cs:75-108 | A line per item, stopping at the first whose markup throws. |
| ListSyntax.EscapePatterns | src/CommandLine/Commands/ListSyntaxCommand.cs:190-243 | The character's own escapes lie in CharacterEscapes or None. |
| ListSyntax.ClassPatterns | src/CommandLine/Commands/ListSyntaxCommand.cs:245-270 | The class patterns lie in CharacterClasses. |
| ListSyntax.CategoryPatterns | src/CommandLine/Commands/ListSyntaxCommand.cs:272-283 | The category patterns lie in GeneralCategories. |
| ListSyntax.BlockPattern | src/CommandLine/Commands/ListSyntaxCommand.cs:285-297 | At most one pattern, in NamedBlocks. |
| ListSyntax.NumericEscapes | src/CommandLine/Commands/ListSyntaxCommand.cs:299-312 | The numeric escapes lie in CharacterEscapes. |
| ListSyntax.PatternsInKeeps | src/CommandLine/Commands/ListSyntaxCommand.cs:180-181 | A section's patterns are exactly the patterns of that section. |
| ListSyntax.CategoryPatternsKeep | src/CommandLine/Commands/ListSyntaxCommand.cs:272-283 | The category patterns are exactly the described `\p{…}` patterns of the categories the character is in. |
| ListSyntax.BlockPatternFirst | src/CommandLine/Commands/ListSyntaxCommand.cs:285-297 | At most one block is reported: the first block in the table that the character is in, or none when it is in none. |
| ListSyntax.ClassPairs | src/CommandLine/Commands/ListSyntaxCommand.cs:245-270 | Exactly one of each pair \d/\D, \s/\S, \w/\W, and the positive one iff the character matches it. |
| ListSyntax.ClassesOf | src/CommandLine/Commands/ListSyntaxCommand.cs:245-270 | The class patterns of any character are exactly the three class patterns. |
| ListSyntax.BlockOfCharacter | src/CommandLine/Commands/ListSyntaxCommand.cs:285-297 | The named-block patterns of any character are the first matching block, or none. |
| ListSyntax.NumericEscapesSpelled | src/CommandLine/Commands/ListSyntaxCommand.cs:299-312 | \u with exactly four hex digits, \x with exactly two, \ with two or three octal digits, each reading back as the code. For codes 1 to 26, also \c with the code-th letter in both cases. |
| ListSyntax.PatternsFiltered | src/CommandLine/Commands/ListSyntaxCommand.cs:172-176 | The filter keeps a pattern whose spelling or description contains it, ignoring case. A pattern without a description is judged by its spelling. |
| ListSyntax.PatternsJoinedKeeps | src/CommandLine/Commands/ListSyntaxCommand.cs:180-181 | The join keeps exactly the patterns whose section is listed. |
| ListSyntax.SelectPatternsKeeps | src/CommandLine/Commands/ListSyntaxCommand.cs:166-184 | A pattern is shown iff it passes the filter and, when sections are given, its section is one of them. |
| ListSyntax.PatternRows | src/CommandLine/Commands/ListSyntaxCommand.cs:147-148 | One row per pattern: its spelling and its description. |
| ListSyntax.NameWidth | src/CommandLine/Commands/ListSyntaxCommand.cs:134 | The longest row name, attained when there are rows. |
| ListSyntax.AnchorsThrowAsWritten | src/CommandLine/Commands/ListSyntaxCommand.cs:134-156 | Selecting only Anchors leaves no pattern, and the listing as written then throws. As written it never reaches NoMatch. |
| ListSyntax.GetPatterns | src/CommandLine/Commands/ListSyntaxCommand.cs:186-313 | Every spelling of a character lies in CharacterEscapes, None, CharacterClasses, GeneralCategories or NamedBlocks, so never in Anchors. A code above 0xFF gets only class, category and block patterns. |
| ListSyntax.WidthAsWritten | src/CommandLine/Commands/ListSyntaxCommand.cs:134 | As written, a width exists exactly when there are rows and patterns. It is at least every row name and every pattern. |
| ListSyntax.ListCharacterAsWritten | src/CommandLine/Commands/ListSyntaxCommand.cs:132-156 | As written, the listing throws exactly when there are no rows or no patterns, and it never returns NoMatch. |
| ListSyntax.CharacterColumns | src/CommandLine/Commands/ListSyntaxCommand.cs:134 | The width is at least the length of "Hexadecimal" and fits every row name, the header and every pattern. |
| ListSyntax.RowAligned | src/CommandLine/Commands/ListSyntaxCommand.cs:158-163 | A row whose name fits puts its value (or "-") one column past the width. |
| ListSyntax.CharacterRowsSpelled | src/CommandLine/Commands/ListSyntaxCommand.cs:124-130 | A Name row exactly for codes up to 0x7F. Decimal and hexadecimal rows always, each reading back as the code. |
| ListSyntax.CharacterRows | src/CommandLine/Commands/ListSyntaxCommand.cs:122-130 | Three rows for an ASCII code, two otherwise. The Name row comes first exactly for ASCII codes, and the last two rows are the Decimal and Hexadecimal values. |
| ListSyntax.WriteRow | src/CommandLine/Commands/ListSyntaxCommand.cs:158-163 | The name, the padding to one past the width, then the value or "-". |
| ListSyntax.WriteRows | src/CommandLine/Commands/ListSyntaxCommand.cs:138-139 | A row per entry, in order. |
| ListSyntax.ListCharacter | src/CommandLine/Commands/ListSyntaxCommand.cs:120-184 | The rows, then the selected spellings under a header. NoMatch with "No syntax found" exactly when none is selected, with the width counting no patterns. |
| ListSyntax.WriteCharacter | src/CommandLine/Commands/ListSyntaxCommand.cs:136-156 | Success iff there is a pattern. The output is the row block then the pattern section. |
| ListSyntax.WritePatterns | src/CommandLine/Commands/ListSyntaxCommand.cs:143-156 | The header and a row per pattern (Success), or "No syntax found" (NoMatch) exactly when there is none. |
| Help.OrdinalTotal | src/CommandLine.Core/HelpWriter.cs:237 | Ordinal order on names is total. |
| Help.InsertByName | src/CommandLine.Core/HelpWriter.cs:237 | Insertion adds exactly the one provider. The result starts with it or with the old first provider. |
| Help.InsertByNameSorted | src/CommandLine.Core/HelpWriter.cs:237 | Insertion keeps the providers in name order. |
| Help.InsertByNameNamed | src/CommandLine.Core/HelpWriter.cs:237 | Insertion keeps equal names in order: the inserted provider comes after those already there with its name. |
| Help.SortByName | src/CommandLine.Core/HelpWriter.cs:237 | Ordering the providers keeps every provider. |
| Help.SortByNameSorted | src/CommandLine.Core/HelpWriter.cs:237 | The providers are listed in name order, and they are the same providers. The order is stable, as OrderBy's is: the providers of each name keep their input order. |
| Help.ProvidersNamed | src/CommandLine.Core/HelpWriter.cs:229 | Exactly the providers of the given name. |
| Help.JoinProvidersKeeps | src/CommandLine.Core/HelpWriter.cs:228-229 | The join keeps exactly the providers named by some option's meta value. |
| Help.DistinctByName | src/CommandLine.Core/HelpWriter.cs:230 | One provider per name, each from the input, and no name lost. |
| Help.ProvidersOfKeeps | src/CommandLine.Core/HelpWriter.cs:226-233 | Every listed provider is named by an option's meta value. Every such name is listed exactly once. |
| Help.UsageBrackets | src/CommandLine.Core/HelpWriter.cs:32-51 | The usage line opens and closes one bracket per optional argument, plus one for " [options]" iff there are options. |
| Help.UsageCount | src/CommandLine.Core/HelpWriter.cs:32-51 | The usage line's brackets are those of the arguments plus the options pair. |
| Help.Usage | src/CommandLine.Core/HelpWriter.cs:32-51 | The usage line starts with "Usage: orang " and the command name, and ends with a line break. |
| Help.ArgumentBrackets | src/CommandLine.Core/HelpWriter.cs:35-46 | The arguments part has one bracket pair per optional argument. |
| Help.ArgumentNameWidth | src/CommandLine.Core/HelpWriter.cs:59 | The longest argument name, attained when there are arguments. |
| Help.ArgumentAligned | src/CommandLine.Core/HelpWriter.cs:61-83 | A described argument's description starts at the common column after at least one space, whether the argument is required or optional. |
| Help.ArgumentTableAligned | src/CommandLine.Core/HelpWriter.cs:53-87 | In an argument table every description starts at the table's column, after a space. |
| Help.OptionNameWidth | src/CommandLine.Core/HelpWriter.cs:96 | The longest option name, attained when there are options. |
| Help.MetaWidth | src/CommandLine.Core/HelpWriter.cs:104 | The longest meta value, 0 for none. |
| Help.PrefixFits | src/CommandLine.Core/HelpWriter.cs:96-140 | The builder's prefix stays at least one short of the first column, so the padding is positive. |
| Help.MetaCellShape | src/CommandLine.Core/HelpWriter.cs:144-152 | The meta column is exactly as wide as the longest meta value and starts with the option's own. |
| Help.OptionAligned | src/CommandLine.Core/HelpWriter.cs:108-157 | The meta value starts right after the first column. The description starts one space after the meta column. |
| Help.OptionInTable | src/CommandLine.Core/HelpWriter.cs:93-104 | The table's widths and flags cover each of its options. |
| Help.OptionTableAligned | src/CommandLine.Core/HelpWriter.cs:89-158 | In an option table every row has the same meta and description columns. |
| Help.CommandNameWidth | src/CommandLine.Core/HelpWriter.cs:196 | The longest command name, attained when there are commands. |
| Help.CommandAligned | src/CommandLine.Core/HelpWriter.cs:196-215 | With the column one past the longest name, every description starts at the same column after a space. |
| Help.Visible | src/CommandLine.Core/HelpWriter.cs:278-280 | Exactly the values that are not hidden. |
| Help.VisibleValues | src/CommandLine.Core/HelpWriter.cs:243 | Exactly the visible values of all the providers. |
| Help.MaxValueWidth | src/CommandLine.Core/HelpWriter.cs:247-258 | The largest reserved value width, counting "key=value" as key + 1 + value. |
| Help.MaxShortWidth | src/CommandLine.Core/HelpWriter.cs:260-271 | The longest short value or short key. |
| Help.ValueAligned | src/CommandLine.Core/HelpWriter.cs:282-300 | The value column is as wide as the widest visible value ("key=value" counted in full) plus one. So every described value's short value starts at one shared column, and its description at another one past the widest short value. |
| Help.ValueRow | src/CommandLine.Core/HelpWriter.cs:282-300 | A value row whose columns fit puts the short value and the description at their columns. |
| Help.AllOptions | src/CommandLine.Core/HelpWriter.cs:206 | Exactly the options of all the commands. |
| Help.VisibleLinesAre | src/CommandLine.Core/HelpWriter.cs:278-301 | Skipping hidden values one by one writes the rows of the visible values. |
| Help.HelpWriter.constructor | src/CommandLine.Core/HelpWriter.cs:14-19 | The sink, indent, values flag and providers are kept as given. |
| Help.HelpWriter.WriteSpaces | src/CommandLine.Core/HelpWriter.cs:367-373 | Writes max(n, 0) spaces. |
| Help.HelpWriter.WriteHeading | src/CommandLine.Core/HelpWriter.cs:346-350 | The value followed by ":" and a line break. |
| Help.HelpWriter.WriteCommand | src/CommandLine.Core/HelpWriter.cs:27-165 | The usage line, the argument table, the option table and the option values. It fails exactly where listing the values fails. |
| Help.HelpWriter.WriteUsage | src/CommandLine.Core/HelpWriter.cs:32-51 | The usage line. |
| Help.HelpWriter.WriteArgumentsUsage | src/CommandLine.Core/HelpWriter.cs:35-46 | Each argument after a space, an optional one in brackets. |
| Help.HelpWriter.WriteArgumentTable | src/CommandLine.Core/HelpWriter.cs:53-87 | The heading and the argument rows with the column one past the longest name. |
| Help.HelpWriter.WriteArgumentRows | src/CommandLine.Core/HelpWriter.cs:61-84 | A row per argument, in order. |
| Help.HelpWriter.WriteArgument | src/CommandLine.Core/HelpWriter.cs:63-83 | One argument row. Its description is padded to the column when present. |
| Help.HelpWriter.WriteOptionTable | src/CommandLine.Core/HelpWriter.cs:89-160 | The heading and the option rows with the widths computed over all the options. |
| Help.HelpWriter.FirstColumnOf | src/CommandLine.Core/HelpWriter.cs:96-102 | The first column is the longest name + 3, + 2 if any option is optional, + 4 if any has a short name. |
| Help.HelpWriter.WriteOptionRows | src/CommandLine.Core/HelpWriter.cs:108-158 | A row per option. The builder is empty at the start of every row. |
| Help.HelpWriter.WriteOption | src/CommandLine.Core/HelpWriter.cs:110-157 | One option row. The shared builder is empty on entry and handed back cleared, so no prefix leaks into the next row. |
| Help.HelpWriter.BuildPrefix | src/CommandLine.Core/HelpWriter.cs:112-136 | The builder holds the bracket or space, the short name or four spaces, "--", the name, and the closing bracket. |
| Help.HelpWriter.WriteMetaCell | src/CommandLine.Core/HelpWriter.cs:144-152 | The meta value padded to the meta column, or the column in spaces. |
| Help.HelpWriter.WriteCommands | src/CommandLine.Core/HelpWriter.cs:192-207 | The heading, then one summary per command padded one past the longest name, then the values of all their options. It fails on no commands and where listing the values fails. |
| Help.HelpWriter.WriteCommandSummaries | src/CommandLine.Core/HelpWriter.cs:198-201 | A summary per command, in order. |
| Help.HelpWriter.WriteCommandSummary | src/CommandLine.Core/HelpWriter.cs:209-215 | The name padded to the column, then the description. |
| Help.HelpWriter.WriteOptionValues | src/CommandLine.Core/HelpWriter.cs:226-233 | The values of the providers the meta values name, one provider per name. |
| Help.HelpWriter.WriteValues | src/CommandLine.Core/HelpWriter.cs:235-334 | Nothing for no providers. Otherwise the heading, then the providers in stable name order with only visible values, columns sized over all of them. It fails after the heading when no provider has a visible value. |
| Help.HelpWriter.WriteProvider | src/CommandLine.Core/HelpWriter.cs:275-301 | An empty line, the provider's name, and its visible values. |
| Help.HelpWriter.WriteValueRows | src/CommandLine.Core/HelpWriter.cs:278-301 | A row per value, hidden ones skipped. |
| Help.HelpWriter.WriteValue | src/CommandLine.Core/HelpWriter.cs:282-300 | The value, padding, the short value and, when described, padding and the description. |
| Text.Spaces | src/CommandLine.Core/HelpWriter.cs:367-373 | n spaces, none when n is not positive. |
| Text.PaddedDigits | src/CommandLine/Commands/ListSyntaxCommand.cs:301-305 | A number formatted with zero padding reads back as the number, all digits of the base. |

## Left out

- Console colours and the optional log file (`Out`) are not modelled. Verbosity gating is reduced to booleans in an environment record.
- WriteSummary of both commands is left out: it only formats the telemetry for display.
- The regex engine, file reading, deletion, the console question and the file-system finder are inputs, not modelled behaviour. The finder results, with their oracles, are given as sequences.
- Cancellation requested between paths is an input flag. The OperationCanceledException caught around ExecuteDirectory and ExecuteFile (src/CommandLine/Commands/CommonFindCommand`1.cs:282-304) is not modelled beyond the Canceled state.
- The loop over the command-line paths (lines 114-127) and the dispatch between a directory, a file and a missing path (lines 264-312) follow src/CommandLine/Commands/CommonFindCommand`1.cs. ExecuteTarget, ExecuteTargets and TargetWalkAskMode model them, and the table cites the FindContentCommand.cs lines that hand over to them. That file, in this source tree, uses a TerminationReason property. It is modelled with the SearchState of src/CommandLine/SearchContext.cs, which the two commands use.
- SearchState.cs and SearchTelemetry.cs are not part of this model. Running is taken as SearchState's default, and the telemetry counters are plain fields.
- FindContent.GroupedDecimal: "n0" formatting is modelled for the invariant culture only (',' groups of three). The current culture's separators are not modelled.
- Text.Fold folds only ASCII letters. Full Unicode ordinal case folding is not modelled.
- The match writers of FindContentCommand, the output symbols and highlighting are reduced to a report per file. The report holds the match count, the line count, the max reason, the Ask property and whether it cancelled.
- The result storage is reduced to whether it exists.
- FileSystemAttributes is modelled as a set of its members. Its numeric values are not part of this model. System.IO.FileAttributes uses the documented .NET bit values.
- The Empty option is a nullable bool, modelled as an Option.
- The value parsers used by TryParse are inputs (a ParseResults value): flag names, encodings, filters and full paths. The base class's TryParse is reduced to its success flag.
- FindContent: the matching path that WritePath sends to the console (src/CommandLine/Commands/FindContentCommand.cs:51-52 and 83-84) is not modelled. The console text holds only the blank line before a writer's output, the count line and the line end under a negative filter.
- Delete: no console text is modelled. The matching path written by WritePath and WriteLine (src/CommandLine/Commands/DeleteCommand.cs:46-47 and 117-118), the file errors and the question are not part of the run's state.
- Delete: the text of the delete question ("Delete?" or "Delete content?") is not modelled.
- Delete: a directly given path is always treated as a file result, as MatchFile returns one for it.
- Delete: DeleteFile's contentOnly, includingBom, filesOnly and directoriesOnly arguments are not modelled. The deletion's outcome is an input.
- ListSyntax: the SyntaxSection heading is the section's name split at camel-case humps, upper-cased. The split names are written out per section rather than computed.
- ListSyntax: the syntax table and the AsciiChar names are inputs.
- ListSyntax: the order of SyntaxSection members follows the enum as listed in the model.
- ListSyntax.ListSyntax: on an odd `%` count, the text written before the throw is not stated. Only the Threw outcome and that the output grows are stated.
- ListSyntax: the markup scanner is modelled as the sequence of Write(text, start, count) calls it issues.
- ListSyntax: a null filter is modelled as the empty string.
- ListSyntax: Regex.IsMatch and RegexEscape.GetEscapeMode are the Engine oracle.
- ListSyntax: the dispatch of ExecuteCore on whether a character was given (src/CommandLine/Commands/ListSyntaxCommand.cs:21-31) is not a separate member.
- Help.SortByName: .NET OrderBy on strings is culture-sensitive. It is modelled as ordinal order. Its stability is modelled.
- Help: a null meta value or description is modelled as the empty string. An empty meta value joins no provider.
- Help: an argument without a description gets no line break, as written.
- Help.OptionAligned: alignment is stated for short names of at most one character. A longer short name overflows the four columns reserved for it.
- Help.OptionTableAligned: alignment is stated for short names of at most one character, for the same reason.
- HelpWriterOptions is not part of this model. Its indent and IncludeValues flag are constructor parameters.
- Help: the virtual Write* hooks are modelled as their base bodies.
- Help: width1 (src/CommandLine.Core/HelpWriter.cs:245) is computed but never used, and is left out.
- Help: the throwing `default` cases of the option value switches cannot arise. The OptionValue datatype has exactly the two kinds.
- Help: failure of `Max` on an empty sequence is modelled as an `ok` of false after the text written before it.

## Findings

| source | as written | input that shows it | evidently intended | confidence | as-written member | corrected member |
|---|---|---|---|---|---|---|
| src/CommandLine/Commands/ListSyntaxCommand.cs:134 | The width is computed with `patterns.Max(...)` before `patterns.Count > 0` is checked (line 143). On an empty pattern list Max throws, so the "No syntax found" / NoMatch branch (lines 152-156) is unreachable. | Any character listed with `--section` set to Anchors alone; no spelling lies in Anchors, so the selected list is empty | Print the rows and "No syntax found", and return NoMatch, with the pattern width counting as 0 | not executed | ListSyntax.AnchorsThrowAsWritten | ListSyntax.ListCharacter |
