/** The entry point `main` (ecoScraping.py:335-422): reading the
    identifiers file, gating the analysis phase on the acquisition phase,
    and the exit code. The file system is a parameter: what each file
    holds, or that it is absent or unreadable. */
module Pipeline {
  import opened Wrappers
  import opened Text
  import opened Cleaning
  import opened Ratios
  import opened Analysis
  import opened Acquisition

  /** `--skip-acquisition` and `--skip-analysis`. */
  datatype Flags = Flags(skipAcquisition: bool, skipAnalysis: bool)

  /** The identifiers file: absent, failing to read, or its lines. */
  datatype IdentifierFile = NoIdentifierFile | UnreadableIdentifierFile | IdentifierLines(lines: seq<string>)

  /** The input CSV: absent, failing to load or parse, or the loaded table. */
  datatype InputCsv = NoInputCsv | UnreadableInputCsv | InputTable(table: Table)

  /** Everything `main` learns from the outside world. */
  datatype Environment = Environment(
    identifierFile: IdentifierFile,
    userAgent: string,
    downloaderReady: bool,   // the download directory and downloader were set up
    download: Downloader,
    inputCsv: InputCsv,
    parse: Parser,
    outputWritable: bool)    // writing the output CSV succeeds

  /** The analysis phase's verdict and the ratios it wrote, if any. */
  datatype AnalysisOutcome = AnalysisOutcome(success: bool, written: Option<seq<RatioRow>>)

  /** What one run decides. */
  datatype RunResult = RunResult(
    acquisitionSuccess: bool, analysisReached: bool, analysisSuccess: bool,
    written: Option<seq<RatioRow>>, exitCode: int)

  /** `[line.strip() for line in f if line.strip()]` (ecoScraping.py:355):
      the stripped non-blank lines in order, which is also the sequence of
      identifiers the acquisition loop would send for the raw lines. */
  function ReadIdentifiers(lines: seq<string>): (ids: seq<string>)
    ensures |ids| == |Attempts(lines)|
    ensures forall k :: 0 <= k < |ids| ==> ids[k] == Attempts(lines)[k].identifier
    ensures forall k :: 0 <= k < |ids| ==> ids[k] != "" && Strip(ids[k]) == ids[k]
  {
    if lines == [] then []
    else
      var init := lines[..|lines| - 1];
      var prev := ReadIdentifiers(init);
      var s := Strip(lines[|lines| - 1]);
      StripIdempotent(lines[|lines| - 1]);
      if s == "" then prev else prev + [s]
  }

  /** No identifier survives exactly when every line is whitespace. */
  lemma {:induction false} ReadIdentifiersEmptyIff(lines: seq<string>)
    ensures ReadIdentifiers(lines) == [] <==> forall k :: 0 <= k < |lines| ==> AllWhitespace(lines[k])
  {
    if lines != [] {
      var init := lines[..|lines| - 1];
      ReadIdentifiersEmptyIff(init);
      assert forall k :: 0 <= k < |init| ==> init[k] == lines[k];
    }
  }

  /** The acquisition phase when it is not skipped (ecoScraping.py:347-376):
      it succeeds exactly when the identifiers file is readable, the user
      agent and downloader are usable, and the download of at least one of
      the identifiers read did not fail. */
  function AcquisitionPhase(env: Environment): (ok: bool)
    ensures ok <==>
              && env.identifierFile.IdentifierLines?
              && UsableUserAgent(env.userAgent) && env.downloaderReady
              && var ids := ReadIdentifiers(env.identifierFile.lines);
                 exists k :: 0 <= k < |ids| && !env.download(k, ids[k]).Failed?
  {
    match env.identifierFile
    case NoIdentifierFile => false
    case UnreadableIdentifierFile => false
    case IdentifierLines(lines) =>
      var ids := ReadIdentifiers(lines);
      AttemptsOfStrippedIdsArePositional(ids);
      if ids == [] then false
      else AcquireIntended(env.userAgent, env.downloaderReady, ids, env.download).succeeded
  }

  /** The entry point passes stripped identifiers, so using the corrected
      verdict changes nothing: the phase agrees with `acquire_filings` as
      written. */
  lemma AcquisitionPhaseMatchesSource(env: Environment)
    requires env.identifierFile.IdentifierLines?
    requires ReadIdentifiers(env.identifierFile.lines) != []
    ensures AcquisitionPhase(env) ==
            Acquire(env.userAgent, env.downloaderReady, ReadIdentifiers(env.identifierFile.lines), env.download).succeeded
  {
    AcquireMatchesIntendedOnStrippedIds(env.userAgent, env.downloaderReady,
                                        ReadIdentifiers(env.identifierFile.lines), env.download);
  }

  /** The analysis phase once it is reached (ecoScraping.py:389-401 with
      ecoScraping.py:238-331): a missing or unreadable input fails; an
      empty table succeeds without output; missing required columns fail;
      otherwise the ratios are written and the phase succeeds exactly when
      writing does. */
  function AnalysisPhase(env: Environment): (r: AnalysisOutcome)
    ensures r.written.Some? ==> r.success
    ensures r.success <==>
              && env.inputCsv.InputTable?
              && (IsEmpty(env.inputCsv.table) ||
                  (MissingColumns(REQUIRED_COLUMNS, env.inputCsv.table.columns) == [] && env.outputWritable))
    ensures r.written.Some? <==>
              env.inputCsv.InputTable? && Analyze(env.parse, env.inputCsv.table).Computed? && env.outputWritable
    ensures r.written.Some? ==>
              env.inputCsv.InputTable? && Analyze(env.parse, env.inputCsv.table).Computed? &&
              r.written.value == Analyze(env.parse, env.inputCsv.table).ratios
  {
    match env.inputCsv
    case NoInputCsv => AnalysisOutcome(false, None)
    case UnreadableInputCsv => AnalysisOutcome(false, None)
    case InputTable(t) =>
      match Analyze(env.parse, t)
      case EmptyInput => AnalysisOutcome(true, None)
      case MissingRequired(_) => AnalysisOutcome(false, None)
      case Computed(ratios) =>
        if env.outputWritable then AnalysisOutcome(true, Some(ratios)) else AnalysisOutcome(false, None)
  }

  /** `main`: run the phases that are not skipped, run analysis only when
      acquisition was skipped or succeeded, and exit with 1 exactly when a
      phase that was not skipped failed. */
  function Run(flags: Flags, env: Environment): (r: RunResult)
    ensures r.exitCode == 0 || r.exitCode == 1
    ensures r.exitCode == 0 <==>
              (flags.skipAcquisition || AcquisitionPhase(env)) &&
              (flags.skipAnalysis || AnalysisPhase(env).success)
    ensures r.analysisReached <==>
              !flags.skipAnalysis && (flags.skipAcquisition || AcquisitionPhase(env))
    ensures r.written.Some? ==> r.analysisReached && r.exitCode == 0
    ensures r.written == (if r.analysisReached then AnalysisPhase(env).written else None)
  {
    var acquisitionSuccess := if flags.skipAcquisition then true else AcquisitionPhase(env);
    var reached := !flags.skipAnalysis && (acquisitionSuccess || flags.skipAcquisition);
    var analysis :=
      if flags.skipAnalysis then AnalysisOutcome(true, None)
      else if reached then AnalysisPhase(env)
      else AnalysisOutcome(false, None);
    var acquisitionFailed := !flags.skipAcquisition && !acquisitionSuccess;
    var analysisFailed := !flags.skipAnalysis && !analysis.success;
    RunResult(acquisitionSuccess, reached, analysis.success, analysis.written,
              if acquisitionFailed || analysisFailed then 1 else 0)
  }

  /** When acquisition ran and failed, analysis is not attempted, nothing
      is written, and the run exits with 1. */
  lemma AcquisitionFailureBlocksAnalysis(flags: Flags, env: Environment)
    requires !flags.skipAcquisition && !AcquisitionPhase(env)
    ensures !Run(flags, env).analysisReached
    ensures Run(flags, env).written == None
    ensures Run(flags, env).exitCode == 1
  {
  }

  /** Skipping both phases always exits with 0. */
  lemma SkippingBothExitsZero(env: Environment)
    ensures Run(Flags(true, true), env).exitCode == 0
    ensures Run(Flags(true, true), env).written == None
  {
  }

  /** An identifiers file of blank lines fails the run unless acquisition
      is skipped. */
  lemma BlankIdentifierFileFailsRun(flags: Flags, env: Environment)
    requires !flags.skipAcquisition
    requires env.identifierFile.IdentifierLines?
    requires forall k :: 0 <= k < |env.identifierFile.lines| ==> AllWhitespace(env.identifierFile.lines[k])
    ensures Run(flags, env).exitCode == 1
    ensures !Run(flags, env).analysisReached
  {
    ReadIdentifiersEmptyIff(env.identifierFile.lines);
  }

  /** When analysis is not skipped, a table lacking a required column fails
      the run with no output. */
  lemma MissingColumnFailsRun(flags: Flags, env: Environment, column: string)
    requires !flags.skipAnalysis
    requires env.inputCsv.InputTable? && !IsEmpty(env.inputCsv.table)
    requires column in REQUIRED_COLUMNS && column !in env.inputCsv.table.columns
    ensures Run(flags, env).exitCode == 1
    ensures Run(flags, env).written == None
  {
  }
}
