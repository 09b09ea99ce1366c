/** The per-run state of a search: telemetry counters, the output sink and the termination state. */
module Search {
  import opened Text

  /**
   * Termination state of a run. `Running` is the enum's default value; the
   * other two are terminal for the walk that sets them.
   */
  datatype SearchState = Running | MaxReached | Canceled

  /** A snapshot of the telemetry counters. */
  datatype Counters = Counters(
    searchedDirectoryCount: int,
    directoryCount: int,
    fileCount: int,
    matchingFileCount: int,
    matchingDirectoryCount: int,
    processedFileCount: int,
    processedDirectoryCount: int,
    matchCount: int,
    matchingLineCount: int)

  const ZeroCounters := Counters(0, 0, 0, 0, 0, 0, 0, 0, 0)

  /** Plain counters accumulated during one run; every one starts at zero. */
  class SearchTelemetry {
    var searchedDirectoryCount: int
    var directoryCount: int
    var fileCount: int
    var matchingFileCount: int
    var matchingDirectoryCount: int
    var processedFileCount: int
    var processedDirectoryCount: int
    var matchCount: int
    var matchingLineCount: int

    constructor ()
      ensures Snapshot() == ZeroCounters
    {
      searchedDirectoryCount, directoryCount, fileCount := 0, 0, 0;
      matchingFileCount, matchingDirectoryCount := 0, 0;
      processedFileCount, processedDirectoryCount := 0, 0;
      matchCount, matchingLineCount := 0, 0;
    }

    function Snapshot(): Counters
      reads this
    {
      Counters(searchedDirectoryCount, directoryCount, fileCount, matchingFileCount, matchingDirectoryCount,
        processedFileCount, processedDirectoryCount, matchCount, matchingLineCount)
    }
  }

  /** The finder progress reporter's counts after a directory walk. */
  datatype Progress = Progress(searchedDirectoryCount: nat, directoryCount: nat, fileCount: nat)

  /** An answer to a yes/no console question; `Cancel` stands for the OperationCanceledException it throws. */
  datatype Answer = Yes | No | Cancel

  /** The identity of the cancellation token handed to a run; its signalling is not part of this model. */
  datatype CancellationToken = CancellationToken(source: nat)

  /**
   * SearchContext: telemetry, output and cancellation token are fixed at
   * construction (const); State is the only member callers update.
   */
  class SearchContext {
    const telemetry: SearchTelemetry
    const output: TextSink?
    const cancellationToken: CancellationToken
    var state: SearchState

    constructor (telemetry: SearchTelemetry?, output: TextSink?, cancellationToken: CancellationToken)
      ensures telemetry != null ==> this.telemetry == telemetry
      ensures telemetry == null ==> fresh(this.telemetry) && this.telemetry.Snapshot() == ZeroCounters
      ensures this.output == output && this.cancellationToken == cancellationToken
      ensures state == Running
    {
      if telemetry != null {
        this.telemetry := telemetry;
      } else {
        this.telemetry := new SearchTelemetry();
      }
      this.output := output;
      this.cancellationToken := cancellationToken;
      state := Running;
    }
  }
}
